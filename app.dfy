/**
 * The front end's `formatResponse`: a fixed chain of global replacements
 * that turns the assistant's Markdown-ish answer into an HTML fragment.
 * JavaScript's falsy values reach it as `None` or the empty string.
 */
module ResponseFormatter {
  import opened Text
  import opened Outcomes

  const NoData: string := "<p>No data received.</p>"

  const LocalHeading: string := "### Local results from pro-analytics-01:"
  const LocalHeadingHtml: string := "<h3>Local results from pro-analytics-01:</h3>"
  const Checkbox: string := "- [ ]"
  const ListItem: string := "<li>"
  const Newline: string := "\n"
  const DoubleStar: string := "**"
  const ItemEnd: string := "</li>"

  /** The characters JavaScript's `\s` matches. */
  predicate IsJsSpace(c: char)
  {
    || c == '\t' || c == '\n' || c == '\U{000B}' || c == '\U{000C}' || c == '\r' || c == ' '
    || c == '\U{00A0}' || c == '\U{1680}' || '\U{2000}' <= c <= '\U{200A}'
    || c == '\U{2028}' || c == '\U{2029}' || c == '\U{202F}' || c == '\U{205F}'
    || c == '\U{3000}' || c == '\U{FEFF}'
  }

  /** The length of the whitespace run `\s*` matches greedily at the front of `s`. */
  function SpaceRun(s: string): (n: nat)
    ensures n <= |s|
    ensures forall k :: 0 <= k < n ==> IsJsSpace(s[k])
    ensures n < |s| ==> !IsJsSpace(s[n])
    decreases |s|
  {
    if |s| > 0 && IsJsSpace(s[0]) then 1 + SpaceRun(s[1..]) else 0
  }

  /**
   * Whether `</li>\s*<li>` matches at the front of `s`. Since `<` is not
   * whitespace, the greedy run is the only one that can be followed by `<li>`.
   */
  predicate GapAt(s: string)
  {
    && |s| >= |ItemEnd| && s[..|ItemEnd|] == ItemEnd
    && var rest := s[|ItemEnd| + SpaceRun(s[|ItemEnd|..])..];
       |rest| >= |ListItem| && rest[..|ListItem|] == ListItem
  }

  /** The length of the match at the front of `s`. */
  function GapLength(s: string): (n: nat)
    requires GapAt(s)
    ensures |ItemEnd| + |ListItem| <= n <= |s|
  {
    |ItemEnd| + SpaceRun(s[|ItemEnd|..]) + |ListItem|
  }

  /** `.replace(/<\/li>\s*<li>/g, "</li><li>")`, scanning left to right. */
  function CollapseGaps(s: string): (r: string)
    ensures |r| <= |s|
    ensures |s| > 0 ==> |r| > 0 && r[0] == s[0]
    ensures forall c :: c in r ==> c in s
    decreases |s|
  {
    if |s| == 0 then ""
    else if GapAt(s) then
      var n := GapLength(s);
      assert s[..|ItemEnd|] == ItemEnd;
      assert forall c :: c in ItemEnd + ListItem ==> c in s[..|ItemEnd|] + ListItem;
      assert s[n - |ListItem|..n] == ListItem;
      assert forall c :: c in ListItem ==> c in s[n - |ListItem|..n];
      ItemEnd + ListItem + CollapseGaps(s[n..])
    else [s[0]] + CollapseGaps(s[1..])
  }

  /** The replacements before the collapse, in the order the code applies them. */
  function Rewrite(s: string): string
  {
    var headed := ReplaceAll(s, LocalHeading, LocalHeadingHtml);
    var listed := ReplaceAll(headed, Checkbox, ListItem);
    var joined := ReplaceAll(listed, Newline, "");
    ReplaceAll(joined, DoubleStar, "")
  }

  /** The text that goes between `<ul>` and `</ul>`. */
  function Transform(s: string): string
  {
    CollapseGaps(Rewrite(s))
  }

  predicate Falsy(raw: Option<string>)
  {
    raw.None? || raw.value == ""
  }

  /**
   * `formatResponse(rawResponse)`: a falsy response gives the no-data
   * paragraph; any other is a `<ul>` element whose content holds no newline
   * and no `**`, differs from the rewritten text only in whitespace, and is
   * the response itself when none of the patterns occurs in it.
   */
  function FormatResponse(raw: Option<string>): (r: string)
    ensures Falsy(raw) ==> r == NoData
    ensures !Falsy(raw) ==> |r| >= 9 && r[..4] == "<ul>" && r[|r| - 5..] == "</ul>"
    ensures !Falsy(raw) ==>
      var content := r[4..|r| - 5];
      && '\n' !in content && NoDoubleStars(content)
      && NonSpace(content) == NonSpace(Rewrite(raw.value))
      && (PatternFree(raw.value) ==> content == raw.value)
  {
    if Falsy(raw) then NoData
    else
      var content := Transform(raw.value);
      TransformFacts(raw.value);
      CollapseOnlyDropsSpace(Rewrite(raw.value));
      TransformUnchanged(raw.value);
      var r := "<ul>" + content + "</ul>";
      assert r[4..|r| - 5] == content;
      r
  }

  predicate NoDoubleStars(s: string)
  {
    forall k :: 0 <= k < |s| - 1 ==> !(s[k] == '*' && s[k + 1] == '*')
  }

  /**
   * Removing `**` globally leaves no `**` behind, and keeps a leading
   * character other than `*`.
   */
  lemma {:induction false} RemovePairsFacts(s: string)
    ensures NoDoubleStars(ReplaceAll(s, DoubleStar, ""))
    ensures |s| > 0 && s[0] != '*' ==>
      |ReplaceAll(s, DoubleStar, "")| > 0 && ReplaceAll(s, DoubleStar, "")[0] == s[0]
    decreases |s|
  {
    var r := ReplaceAll(s, DoubleStar, "");
    if |s| >= 2 {
      if s[..2] == DoubleStar {
        RemovePairsFacts(s[2..]);
      } else {
        var tail := ReplaceAll(s[1..], DoubleStar, "");
        RemovePairsFacts(s[1..]);
        assert r == [s[0]] + tail;
        if s[0] == '*' {
          assert s[1] != '*';
          assert s[1..][0] == s[1];
        }
      }
    }
  }

  function Stars(n: nat): (r: string)
    ensures |r| == n && forall k :: 0 <= k < n ==> r[k] == '*'
  {
    seq(n, k => '*')
  }

  /** One step of a global replacement at a match. */
  lemma ReplaceAtMatch(s: string, pat: string, rep: string)
    requires 0 < |pat| <= |s| && s[..|pat|] == pat
    ensures ReplaceAll(s, pat, rep) == rep + ReplaceAll(s[|pat|..], pat, rep)
  {
  }

  /** One step of a global replacement where the pattern does not match. */
  lemma ReplaceAtMiss(s: string, pat: string, rep: string)
    requires 0 < |pat| <= |s| && s[..|pat|] != pat
    ensures ReplaceAll(s, pat, rep) == [s[0]] + ReplaceAll(s[1..], pat, rep)
  {
  }

  lemma StarsFront(n: nat, t: string)
    requires n >= 2
    ensures Stars(n) + t == DoubleStar + (Stars(n - 2) + t)
  {
    assert Stars(n) == DoubleStar + Stars(n - 2);
  }

  /** A run of `n` stars followed by something else keeps `n % 2` of them. */
  lemma {:induction false} StarRunParity(n: nat, t: string)
    requires |t| == 0 || t[0] != '*'
    ensures ReplaceAll(Stars(n) + t, DoubleStar, "") == Stars(n % 2) + ReplaceAll(t, DoubleStar, "")
    decreases n
  {
    if n >= 2 {
      var s, rest := Stars(n) + t, Stars(n - 2) + t;
      StarsFront(n, t);
      assert s[..2] == DoubleStar && s[2..] == rest;
      ReplaceAtMatch(s, DoubleStar, "");
      StarRunParity(n - 2, t);
      var p, q := (n - 2) % 2, n % 2;
      assert p == q;
    } else if n == 1 {
      LoneStar(t);
    } else {
      assert Stars(n) + t == t;
    }
  }

  /** A single star before something else survives the removal of pairs. */
  lemma LoneStar(t: string)
    requires |t| == 0 || t[0] != '*'
    ensures ReplaceAll(Stars(1) + t, DoubleStar, "") == Stars(1) + ReplaceAll(t, DoubleStar, "")
  {
    var s := Stars(1) + t;
    if |t| > 0 {
      assert s[1] == t[0] && DoubleStar[1] == '*';
      assert s[..2] != DoubleStar;
      assert s[1..] == t;
      ReplaceAtMiss(s, DoubleStar, "");
    }
  }

  lemma NoDoubleStarsSuffix(s: string, i: nat)
    requires NoDoubleStars(s) && i <= |s|
    ensures NoDoubleStars(s[i..])
  {
    assert forall k :: 0 <= k < |s[i..]| ==> s[i..][k] == s[i + k];
  }

  /** Two strings free of `**` stay free of it when joined, unless a star meets a star. */
  lemma NoDoubleStarsConcat(a: string, b: string)
    requires NoDoubleStars(a) && NoDoubleStars(b)
    requires |a| == 0 || |b| == 0 || a[|a| - 1] != '*' || b[0] != '*'
    ensures NoDoubleStars(a + b)
  {
    forall k | 0 <= k < |a + b| - 1
      ensures !((a + b)[k] == '*' && (a + b)[k + 1] == '*')
    {
      if k + 1 < |a| {
        assert (a + b)[k] == a[k] && (a + b)[k + 1] == a[k + 1];
      } else if k >= |a| {
        assert (a + b)[k] == b[k - |a|] && (a + b)[k + 1] == b[k + 1 - |a|];
      }
    }
  }

  /** The collapse keeps a string free of `**`. */
  lemma {:induction false} CollapseKeepsNoDoubleStars(s: string)
    requires NoDoubleStars(s)
    ensures NoDoubleStars(CollapseGaps(s))
    decreases |s|
  {
    if |s| > 0 {
      if GapAt(s) {
        var n := GapLength(s);
        var tags := ItemEnd + ListItem;
        NoDoubleStarsSuffix(s, n);
        CollapseKeepsNoDoubleStars(s[n..]);
        assert tags == "</li><li>";
        assert NoDoubleStars(tags) && tags[|tags| - 1] == '>';
        NoDoubleStarsConcat(tags, CollapseGaps(s[n..]));
      } else {
        NoDoubleStarsSuffix(s, 1);
        CollapseKeepsNoDoubleStars(s[1..]);
        assert NoDoubleStars([s[0]]);
        if |s| > 1 {
          assert s[1..][0] == s[1];
        }
        NoDoubleStarsConcat([s[0]], CollapseGaps(s[1..]));
      }
    }
  }

  /**
   * What goes between `<ul>` and `</ul>` holds no newline and no `**`:
   * newlines are removed outright, and star pairs are removed after them.
   */
  lemma TransformFacts(s: string)
    ensures '\n' !in Transform(s)
    ensures NoDoubleStars(Transform(s))
  {
    var headed := ReplaceAll(s, LocalHeading, LocalHeadingHtml);
    var listed := ReplaceAll(headed, Checkbox, ListItem);
    var joined := ReplaceAll(listed, Newline, "");
    var unstarred := ReplaceAll(joined, DoubleStar, "");
    ReplaceAllRemovesChar(listed, Newline, "");
    if '\n' in unstarred {
      ReplaceAllChars(joined, DoubleStar, "", '\n');
    }
    RemovePairsFacts(joined);
    CollapseKeepsNoDoubleStars(unstarred);
  }

  /** `s` with every whitespace character dropped. */
  function NonSpace(s: string): string
    decreases |s|
  {
    if |s| == 0 then ""
    else (if IsJsSpace(s[0]) then "" else [s[0]]) + NonSpace(s[1..])
  }

  lemma {:induction false} NonSpaceAppend(a: string, b: string)
    ensures NonSpace(a + b) == NonSpace(a) + NonSpace(b)
    decreases |a|
  {
    if |a| > 0 {
      assert (a + b)[1..] == a[1..] + b;
      NonSpaceAppend(a[1..], b);
    } else {
      assert a + b == b;
    }
  }

  lemma {:induction false} NonSpaceOfSpaces(w: string)
    requires forall k :: 0 <= k < |w| ==> IsJsSpace(w[k])
    ensures NonSpace(w) == ""
    decreases |w|
  {
    if |w| > 0 {
      NonSpaceOfSpaces(w[1..]);
    }
  }

  lemma Regroup(x: string, y: string, z: string, w: string)
    requires y == ""
    ensures (x + y) + (z + w) == (x + z) + w
  {
  }

  /** Whitespace between two parts vanishes once whitespace is dropped. */
  lemma DropSpacesBetween(a: string, gap: string, b: string, rest: string)
    requires NonSpace(gap) == ""
    ensures NonSpace((a + gap) + (b + rest)) == NonSpace(a + b) + NonSpace(rest)
  {
    NonSpaceAppend(a + gap, b + rest);
    NonSpaceAppend(a, gap);
    NonSpaceAppend(b, rest);
    NonSpaceAppend(a, b);
    Regroup(NonSpace(a), NonSpace(gap), NonSpace(b), NonSpace(rest));
  }

  /** Dropping whitespace from a gap match leaves `</li><li>`. */
  lemma GapDropsToTags(s: string)
    requires GapAt(s)
    ensures NonSpace(s) == NonSpace(ItemEnd + ListItem) + NonSpace(s[GapLength(s)..])
  {
    var n := GapLength(s);
    var w := SpaceRun(s[|ItemEnd|..]);
    var gap := s[|ItemEnd|..|ItemEnd| + w];
    forall k | 0 <= k < |gap| ensures IsJsSpace(gap[k]) {
      assert gap[k] == s[|ItemEnd|..][k];
    }
    assert s[..|ItemEnd|] == ItemEnd;
    assert s[|ItemEnd| + w..n] == ListItem;
    assert s == (s[..|ItemEnd|] + gap) + (s[|ItemEnd| + w..n] + s[n..]);
    NonSpaceOfSpaces(gap);
    DropSpacesBetween(ItemEnd, gap, ListItem, s[n..]);
  }

  /** The collapse deletes whitespace and nothing else. */
  lemma {:induction false} CollapseOnlyDropsSpace(s: string)
    ensures NonSpace(CollapseGaps(s)) == NonSpace(s)
    decreases |s|
  {
    if |s| > 0 {
      if GapAt(s) {
        var n := GapLength(s);
        CollapseOnlyDropsSpace(s[n..]);
        NonSpaceAppend(ItemEnd + ListItem, CollapseGaps(s[n..]));
        GapDropsToTags(s);
      } else {
        assert s == [s[0]] + s[1..];
        CollapseOnlyDropsSpace(s[1..]);
        NonSpaceAppend([s[0]], CollapseGaps(s[1..]));
        NonSpaceAppend([s[0]], s[1..]);
      }
    }
  }

  predicate NoGap(s: string)
  {
    forall i :: 0 <= i <= |s| ==> !GapAt(s[i..])
  }

  /** Text with no `</li>`-whitespace-`<li>` gap is left as it is. */
  lemma {:induction false} CollapseAbsent(s: string)
    requires NoGap(s)
    ensures CollapseGaps(s) == s
    decreases |s|
  {
    if |s| > 0 {
      assert !GapAt(s[0..]) && s[0..] == s;
      forall i | 0 <= i <= |s[1..]| ensures !GapAt(s[1..][i..]) {
        assert s[1..][i..] == s[i + 1..];
      }
      CollapseAbsent(s[1..]);
    }
  }

  /** The text holds none of the patterns the rewrite and the collapse act on. */
  predicate PatternFree(s: string)
  {
    && !Contains(s, LocalHeading) && !Contains(s, Checkbox)
    && !Contains(s, Newline) && !Contains(s, DoubleStar) && NoGap(s)
  }

  /** Text holding none of the patterns goes through the rewrite and the collapse unchanged. */
  lemma TransformUnchanged(s: string)
    ensures PatternFree(s) ==> Transform(s) == s
  {
    if PatternFree(s) {
      ReplaceAllAbsent(s, LocalHeading, LocalHeadingHtml);
      ReplaceAllAbsent(s, Checkbox, ListItem);
      ReplaceAllAbsent(s, Newline, "");
      ReplaceAllAbsent(s, DoubleStar, "");
      CollapseAbsent(s);
    }
  }
}
