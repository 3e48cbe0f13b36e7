/**
 * The fixed-length chunker: a document's text cut into consecutive windows
 * of `max_length` characters, one for each offset of
 * `range(0, len(text), max_length)`.
 */
module FixedChunker {
  import opened Text
  import opened Outcomes
  import opened Chunks

  /** The default `max_length`. */
  const DefaultMaxLength: int := 300

  function Min(a: int, b: int): int
  {
    if a <= b then a else b
  }

  /**
   * The chunks for the offsets `start`, `start + m`, ... below `|text|`;
   * each is the slice `text[i:i + m]`, which Python clips at the end.
   */
  function Windows(source: string, text: string, m: nat, start: nat): (r: seq<Chunk>)
    requires m > 0
    ensures forall c :: c in r ==> c.source == source && 0 < |c.text| <= m
    decreases |text| - start
  {
    if start >= |text| then []
    else [Chunk(source, text[start..Min(start + m, |text|)])] + Windows(source, text, m, start + m)
  }

  /**
   * `chunk_text(source_path, text, max_length)`. A step of zero makes
   * `range` raise; a negative step gives an empty range, so no chunks.
   */
  function ChunkText(source: string, text: string, maxLength: int): (r: Result<seq<Chunk>>)
    ensures r.Err? <==> maxLength == 0
    ensures maxLength < 0 ==> r == Ok([])
    ensures r.Ok? ==> forall c :: c in r.value ==> c.source == source
    ensures maxLength > 0 ==> r.Ok? && forall c :: c in r.value ==> 0 < |c.text| <= maxLength
  {
    if maxLength == 0 then Err(RangeStepZero)
    else if maxLength < 0 then Ok([])
    else Ok(Windows(source, text, maxLength, 0))
  }

  /** The first window's text, then the texts of the windows after it. */
  lemma WindowsHead(source: string, text: string, m: nat, start: nat)
    requires m > 0 && start < |text|
    ensures Texts(Windows(source, text, m, start))
      == [text[start..Min(start + m, |text|)]] + Texts(Windows(source, text, m, start + m))
  {
    var w := Windows(source, text, m, start);
    var rest := Windows(source, text, m, start + m);
    assert w == [Chunk(source, text[start..Min(start + m, |text|)])] + rest;
    TextsAppend([Chunk(source, text[start..Min(start + m, |text|)])], rest);
  }

  /** The windows from `start` on, concatenated, are exactly the rest of the text. */
  lemma {:induction false} WindowsCover(source: string, text: string, m: nat, start: nat)
    requires m > 0 && start <= |text|
    ensures Concat(Texts(Windows(source, text, m, start))) == text[start..]
    decreases |text| - start
  {
    if start < |text| {
      var end := Min(start + m, |text|);
      var piece := text[start..end];
      var restTexts := Texts(Windows(source, text, m, start + m));
      if start + m <= |text| {
        WindowsCover(source, text, m, start + m);
      } else {
        assert restTexts == [];
      }
      assert Concat(restTexts) == text[end..];
      calc {
        Concat(Texts(Windows(source, text, m, start)));
        { WindowsHead(source, text, m, start); }
        Concat([piece] + restTexts);
        { ConcatCons(piece, restTexts); }
        piece + text[end..];
        text[start..];
      }
    }
  }

  lemma MulAtLeast(d: int, m: int)
    requires d >= 1 && m > 0
    ensures d * m >= m
  {
    assert d * m == (d - 1) * m + m;
  }

  lemma MulDistrib(a: int, b: int, m: int)
    ensures a * m == b * m + (a - b) * m
  {
  }

  /** Euclidean division is determined by quotient and remainder. */
  lemma DivUnique(x: int, m: int, q: int, r: int)
    requires m > 0 && 0 <= r < m && x == q * m + r
    ensures x / m == q
  {
    var q', r' := x / m, x % m;
    assert x == q' * m + r';
    if q' > q {
      MulDistrib(q', q, m);
      MulAtLeast(q' - q, m);
    } else if q' < q {
      MulDistrib(q, q', m);
      MulAtLeast(q - q', m);
    }
  }

  /** `(n + m - 1) / m` grows by one when `n` grows by `m`. */
  lemma CeilDivStep(n: nat, m: nat)
    requires m > 0
    ensures (n + m + m - 1) / m == (n + m - 1) / m + 1
  {
    var q, r := (n + m - 1) / m, (n + m - 1) % m;
    assert n + m + m - 1 == (q + 1) * m + r;
    DivUnique(n + m + m - 1, m, q + 1, r);
  }

  /** There are `ceil((|text| - start) / m)` windows from `start` on. */
  lemma {:induction false} WindowsCount(source: string, text: string, m: nat, start: nat)
    requires m > 0 && start <= |text|
    ensures |Windows(source, text, m, start)| == (|text| - start + m - 1) / m
    decreases |text| - start
  {
    if start < |text| {
      var n := |text| - start;
      if start + m <= |text| {
        WindowsCount(source, text, m, start + m);
        CeilDivStep(n - m, m);
      } else {
        assert Windows(source, text, m, start + m) == [];
        assert 0 < n < m;
        assert n + m - 1 < 2 * m;
      }
    }
  }

  /** Window `k` from `start` starts at `start + k * m` and ends `m` later or at the end of the text. */
  lemma {:induction false} WindowAt(source: string, text: string, m: nat, start: nat, k: nat)
    requires m > 0
    requires k < |Windows(source, text, m, start)|
    ensures start + k * m < |text|
    ensures Windows(source, text, m, start)[k].text == text[start + k * m..Min(start + (k + 1) * m, |text|)]
    decreases k
  {
    var w := Windows(source, text, m, start);
    assert start < |text|;
    if k > 0 {
      var rest := Windows(source, text, m, start + m);
      assert w[k] == rest[k - 1];
      WindowAt(source, text, m, start + m, k - 1);
      var before, at := (k - 1) * m, k * m;
      MulDistrib(k, k - 1, m);
      MulDistrib(k + 1, k, m);
      assert start + m + before == start + at;
      assert start + m + at == start + (k + 1) * m;
    }
  }

  /** Every chunk of a positive `max_length` run is the slice `text[k*m : min((k+1)*m, len)]`. */
  lemma ChunkTextSlices(source: string, text: string, m: int, k: nat)
    requires m > 0
    requires k < |ChunkText(source, text, m).value|
    ensures k * m < |text|
    ensures ChunkText(source, text, m).value[k] == Chunk(source, text[k * m..Min((k + 1) * m, |text|)])
  {
    WindowAt(source, text, m, 0, k);
  }

  /** Chunking loses and adds nothing: the chunk texts concatenate to the input. */
  lemma ChunkTextRoundTrip(source: string, text: string, m: int)
    requires m > 0
    ensures Concat(Texts(ChunkText(source, text, m).value)) == text
  {
    WindowsCover(source, text, m, 0);
  }

  /** The number of chunks is `ceil(len(text) / max_length)`; empty text gives none. */
  lemma ChunkTextCount(source: string, text: string, m: int)
    requires m > 0
    ensures |ChunkText(source, text, m).value| == (|text| + m - 1) / m
    ensures |ChunkText(source, text, m).value| == 0 <==> |text| == 0
  {
    WindowsCount(source, text, m, 0);
    if |text| > 0 {
      assert m <= |text| + m - 1;
    }
  }

  /** Every window but the last is a full `m` characters. */
  lemma {:induction false} WindowFull(source: string, text: string, m: nat, start: nat, k: nat)
    requires m > 0
    requires k + 1 < |Windows(source, text, m, start)|
    ensures |Windows(source, text, m, start)[k].text| == m
    decreases k
  {
    var w := Windows(source, text, m, start);
    var rest := Windows(source, text, m, start + m);
    assert start < |text| && w == [w[0]] + rest;
    if k > 0 {
      assert w[k] == rest[k - 1];
      WindowFull(source, text, m, start + m, k - 1);
    } else {
      assert |rest| > 0;
      assert start + m < |text|;
    }
  }

  /** All chunks but the last are exactly `max_length` long. */
  lemma ChunkTextFull(source: string, text: string, m: int, k: nat)
    requires m > 0
    requires k + 1 < |ChunkText(source, text, m).value|
    ensures |ChunkText(source, text, m).value[k].text| == m
  {
    WindowFull(source, text, m, 0, k);
  }
}
