/**
 * String operations the pipeline relies on, written over `seq<char>`:
 * Python's `sep.join`, `str.split(sep)`, `in` on strings, `lower()`,
 * `strip()` and `str(n)` for a non-negative int, and JavaScript's global
 * replace of a literal pattern. Case folding and whitespace are the ASCII
 * ones.
 */
module Text {

  /** Python's `sep.join(parts)`. */
  function Join(sep: string, parts: seq<string>): string
    decreases |parts|
  {
    if |parts| == 0 then ""
    else if |parts| == 1 then parts[0]
    else parts[0] + sep + Join(sep, parts[1..])
  }

  /** Concatenation of all parts, in order (`"".join(parts)`). */
  function Concat(parts: seq<string>): string
    decreases |parts|
  {
    if |parts| == 0 then "" else parts[0] + Concat(parts[1..])
  }

  /** `Concat` of a part in front of more parts. */
  lemma ConcatCons(x: string, rest: seq<string>)
    ensures Concat([x] + rest) == x + Concat(rest)
  {
    assert ([x] + rest)[1..] == rest;
  }

  lemma ConcatAppend(a: seq<string>, b: seq<string>)
    ensures Concat(a + b) == Concat(a) + Concat(b)
    decreases |a|
  {
    if |a| == 0 {
      assert a + b == b;
    } else {
      assert (a + b)[1..] == a[1..] + b;
      ConcatAppend(a[1..], b);
    }
  }

  /** Joining with a separator in front of a non-empty tail. */
  lemma JoinCons(sep: string, x: string, rest: seq<string>)
    requires |rest| > 0
    ensures Join(sep, [x] + rest) == x + sep + Join(sep, rest)
  {
    assert ([x] + rest)[1..] == rest;
  }

  /** A join starts with its first part. */
  lemma JoinStartsWithFirst(sep: string, parts: seq<string>)
    requires |parts| > 0
    ensures |Join(sep, parts)| >= |parts[0]| && Join(sep, parts)[..|parts[0]|] == parts[0]
  {
    if |parts| > 1 {
      assert Join(sep, parts) == parts[0] + (sep + Join(sep, parts[1..]));
    }
  }

  /** A prefix stays a prefix behind the same front. */
  lemma PrefixBehind(front: string, s: string, x: string)
    requires |s| >= |x| && s[..|x|] == x
    ensures |front + s| >= |front + x| && (front + s)[..|front| + |x|] == front + x
  {
  }

  /** `p` occurs in `s` at offset `i`. */
  predicate OccursAt(s: string, p: string, i: int)
  {
    0 <= i && i + |p| <= |s| && s[i..i + |p|] == p
  }

  /** Python's `p in s` for strings: `p` occurs in `s` at some offset. */
  predicate Contains(s: string, p: string)
  {
    exists i | 0 <= i <= |s| - |p| :: OccursAt(s, p, i)
  }

  /** An occurrence inside a part is an occurrence in any string around it. */
  lemma ContainsInfix(a: string, b: string, c: string, p: string)
    requires Contains(b, p)
    ensures Contains(a + b + c, p)
  {
    var i :| 0 <= i <= |b| - |p| && OccursAt(b, p, i);
    assert (a + b + c)[|a| + i..|a| + i + |p|] == b[i..i + |p|];
    assert OccursAt(a + b + c, p, |a| + i);
  }

  /** A part of a concatenation occurs at its own offset. */
  lemma OccursInMiddle(a: string, p: string, b: string)
    ensures OccursAt(a + p + b, p, |a|)
  {
    assert (a + p + b)[|a|..|a| + |p|] == p;
  }

  /** Wherever a string occurs, so does each of its prefixes. */
  lemma ContainsPrefix(s: string, p: string, q: string)
    requires Contains(s, p) && |q| <= |p| && p[..|q|] == q
    ensures Contains(s, q)
  {
    var i :| 0 <= i <= |s| - |p| && OccursAt(s, p, i);
    assert s[i..i + |q|] == s[i..i + |p|][..|q|];
    assert OccursAt(s, q, i);
  }

  /** ASCII `lower()` of one character. */
  function LowerChar(c: char): char
  {
    if 'A' <= c <= 'Z' then (c as int - 'A' as int + 'a' as int) as char else c
  }

  /** Python's `s.lower()`, restricted to ASCII letters. */
  function Lower(s: string): (r: string)
    ensures |r| == |s|
    ensures forall i :: 0 <= i < |s| ==> r[i] == LowerChar(s[i])
    ensures forall i :: 0 <= i < |s| ==> !('A' <= r[i] <= 'Z')
  {
    seq(|s|, i requires 0 <= i < |s| => LowerChar(s[i]))
  }

  /** Lower-casing twice is lower-casing once. */
  lemma LowerIdempotent(s: string)
    ensures Lower(Lower(s)) == Lower(s)
  {
  }

  /** The ASCII characters for which Python's `str.isspace()` holds. */
  predicate IsSpace(c: char)
  {
    c == ' ' || c == '\t' || c == '\n' || c == '\r' || c == '\U{0B}' || c == '\U{0C}'
    || c == '\U{1C}' || c == '\U{1D}' || c == '\U{1E}' || c == '\U{1F}'
  }

  /** `s.lstrip()`: the suffix left after dropping leading whitespace. */
  function TrimStart(s: string): (r: string)
    ensures |r| <= |s|
    ensures |r| > 0 ==> !IsSpace(r[0])
    decreases |s|
  {
    if |s| > 0 && IsSpace(s[0]) then TrimStart(s[1..]) else s
  }

  /** `s.rstrip()`: the prefix left after dropping trailing whitespace. */
  function TrimEnd(s: string): (r: string)
    ensures |r| <= |s|
    ensures |r| > 0 ==> !IsSpace(r[|r| - 1])
    decreases |s|
  {
    if |s| > 0 && IsSpace(s[|s| - 1]) then TrimEnd(s[..|s| - 1]) else s
  }

  /** `lstrip()` removes whitespace only, and only from the front. */
  lemma {:induction false} TrimStartRemovesSpace(s: string)
    ensures TrimStart(s) == s[|s| - |TrimStart(s)|..]
    ensures forall k :: 0 <= k < |s| - |TrimStart(s)| ==> IsSpace(s[k])
    decreases |s|
  {
    if |s| > 0 && IsSpace(s[0]) {
      TrimStartRemovesSpace(s[1..]);
      assert forall k :: 1 <= k < |s| ==> s[k] == s[1..][k - 1];
    }
  }

  /** `rstrip()` removes whitespace only, and only from the back. */
  lemma {:induction false} TrimEndRemovesSpace(s: string)
    ensures TrimEnd(s) == s[..|TrimEnd(s)|]
    ensures forall k :: |TrimEnd(s)| <= k < |s| ==> IsSpace(s[k])
    decreases |s|
  {
    if |s| > 0 && IsSpace(s[|s| - 1]) {
      TrimEndRemovesSpace(s[..|s| - 1]);
      assert forall k :: 0 <= k < |s| - 1 ==> s[k] == s[..|s| - 1][k];
    }
  }

  /** No whitespace at either end. */
  predicate IsStripped(s: string)
  {
    |s| == 0 || (!IsSpace(s[0]) && !IsSpace(s[|s| - 1]))
  }

  /** Python's `s.strip()`. */
  function Strip(s: string): (r: string)
    ensures IsStripped(r) && |r| <= |s|
  {
    var t := TrimStart(s);
    TrimEndRemovesSpace(t);
    TrimEnd(t)
  }

  /** What `strip()` removes is whitespace, from either end only. */
  lemma StripIsSlice(s: string)
    ensures exists i, j ::
      && 0 <= i <= j <= |s| && Strip(s) == s[i..j]
      && (forall k :: 0 <= k < i ==> IsSpace(s[k]))
      && (forall k :: j <= k < |s| ==> IsSpace(s[k]))
  {
    var t := TrimStart(s);
    var r := TrimEnd(t);
    var i := |s| - |t|;
    var j := i + |r|;
    TrimStartRemovesSpace(s);
    TrimEndRemovesSpace(t);
    assert Strip(s) == r;
    assert r == s[i..j];
    assert forall k :: j <= k < |s| ==> s[k] == t[k - i];
    assert forall k :: j <= k < |s| ==> IsSpace(s[k]);
  }

  /**
   * Python's `s.split(sep)`: scan left to right, cut at each occurrence of
   * `sep` that does not overlap an earlier cut.
   */
  function Split(s: string, sep: string): (r: seq<string>)
    requires |sep| > 0
    ensures |r| >= 1
    decreases |s|
  {
    if |s| < |sep| then [s]
    else if s[..|sep|] == sep then [""] + Split(s[|sep|..], sep)
    else
      var rest := Split(s[1..], sep);
      [[s[0]] + rest[0]] + rest[1..]
  }

  /** Joining the pieces of a split with the same separator gives the string back. */
  lemma {:induction false} JoinSplit(s: string, sep: string)
    requires |sep| > 0
    ensures Join(sep, Split(s, sep)) == s
    decreases |s|
  {
    if |s| < |sep| {
    } else if s[..|sep|] == sep {
      JoinSplit(s[|sep|..], sep);
      JoinSplitCut(s, sep);
    } else {
      JoinSplit(s[1..], sep);
      JoinSplitStep(s, sep);
    }
  }

  lemma JoinSplitCut(s: string, sep: string)
    requires |sep| > 0 && |s| >= |sep| && s[..|sep|] == sep
    requires Join(sep, Split(s[|sep|..], sep)) == s[|sep|..]
    ensures Join(sep, Split(s, sep)) == s
  {
    var rest := Split(s[|sep|..], sep);
    assert Split(s, sep) == [""] + rest;
    JoinCons(sep, "", rest);
    assert "" + sep + Join(sep, rest) == s[..|sep|] + s[|sep|..];
    assert s[..|sep|] + s[|sep|..] == s;
  }

  lemma JoinSplitStep(s: string, sep: string)
    requires |sep| > 0 && |s| >= |sep| && s[..|sep|] != sep
    requires Join(sep, Split(s[1..], sep)) == s[1..]
    ensures Join(sep, Split(s, sep)) == s
  {
    var rest := Split(s[1..], sep);
    var head := [s[0]] + rest[0];
    assert Split(s, sep) == [head] + rest[1..];
    JoinPrepend(sep, s[0], rest);
    assert [s[0]] + s[1..] == s;
  }

  /** Putting a character in front of the first part puts it in front of the join. */
  lemma JoinPrepend(sep: string, c: char, parts: seq<string>)
    requires |parts| > 0
    ensures Join(sep, [[c] + parts[0]] + parts[1..]) == [c] + Join(sep, parts)
  {
    if |parts| > 1 {
      assert parts == [parts[0]] + parts[1..];
      JoinCons(sep, [c] + parts[0], parts[1..]);
      JoinCons(sep, parts[0], parts[1..]);
    }
  }

  /**
   * JavaScript's `s.replace(/pat/g, rep)` for a literal pattern: every
   * occurrence found scanning left to right, without overlaps, is replaced.
   */
  function ReplaceAll(s: string, pat: string, rep: string): string
    requires |pat| > 0
    decreases |s|
  {
    if |s| < |pat| then s
    else if s[..|pat|] == pat then rep + ReplaceAll(s[|pat|..], pat, rep)
    else [s[0]] + ReplaceAll(s[1..], pat, rep)
  }

  /** A string without the pattern comes out of a replace-all unchanged. */
  lemma {:induction false} ReplaceAllAbsent(s: string, pat: string, rep: string)
    requires |pat| > 0 && !Contains(s, pat)
    ensures ReplaceAll(s, pat, rep) == s
    decreases |s|
  {
    if |s| >= |pat| {
      assert s[0..|pat|] == s[..|pat|];
      assert !OccursAt(s, pat, 0);
      if !Contains(s[1..], pat) {
        ReplaceAllAbsent(s[1..], pat, rep);
        assert s == [s[0]] + s[1..];
      } else {
        var i :| 0 <= i <= |s[1..]| - |pat| && OccursAt(s[1..], pat, i);
        assert s[i + 1..i + 1 + |pat|] == s[1..][i..i + |pat|];
        assert OccursAt(s, pat, i + 1);
        assert false;
      }
    }
  }

  /** Every character of a replace-all result comes from the input or the replacement. */
  lemma {:induction false} ReplaceAllChars(s: string, pat: string, rep: string, c: char)
    requires |pat| > 0
    requires c in ReplaceAll(s, pat, rep)
    ensures c in s || c in rep
    decreases |s|
  {
    if |s| < |pat| {
    } else if s[..|pat|] == pat {
      if c !in rep {
        ReplaceAllChars(s[|pat|..], pat, rep, c);
        assert s == s[..|pat|] + s[|pat|..];
      }
    } else if c != s[0] {
      ReplaceAllChars(s[1..], pat, rep, c);
      assert s == [s[0]] + s[1..];
    }
  }

  /** Removing every occurrence of a one-character pattern leaves none of that character. */
  lemma {:induction false} ReplaceAllRemovesChar(s: string, pat: string, rep: string)
    requires |pat| == 1 && pat[0] !in rep
    ensures pat[0] !in ReplaceAll(s, pat, rep)
    decreases |s|
  {
    if |s| >= 1 {
      ReplaceAllRemovesChar(s[1..], pat, rep);
      if s[..1] != pat {
        assert s[0] != pat[0];
      }
    }
  }

  /** The decimal digit character for `d`. */
  function DigitChar(d: nat): (c: char)
    requires d < 10
    ensures '0' <= c <= '9' && c as int - '0' as int == d
  {
    (d + '0' as int) as char
  }

  predicate IsDigits(s: string)
  {
    forall k :: 0 <= k < |s| ==> '0' <= s[k] <= '9'
  }

  /** Python's `str(n)` for a non-negative int: decimal, most significant digit first. */
  function NatToString(n: nat): (r: string)
    ensures |r| >= 1 && IsDigits(r)
    decreases n
  {
    if n < 10 then [DigitChar(n)] else NatToString(n / 10) + [DigitChar(n % 10)]
  }

  /** Reads a string of decimal digits back as a number. */
  function ParseNat(s: string): nat
    requires IsDigits(s)
    decreases |s|
  {
    if |s| == 0 then 0 else ParseNat(s[..|s| - 1]) * 10 + (s[|s| - 1] as int - '0' as int)
  }

  /** Decimal rendering is reversible, so distinct numbers render differently. */
  lemma {:induction false} ParseNatToString(n: nat)
    ensures ParseNat(NatToString(n)) == n
    decreases n
  {
    if n >= 10 {
      var s := NatToString(n);
      assert s[..|s| - 1] == NatToString(n / 10);
      ParseNatToString(n / 10);
    }
  }
}
