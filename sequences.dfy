/**
 * The loop shape shared by the chunkers, the store and the confidence
 * filter: walk `enumerate(xs)`, and for each element a test accepts, append
 * something built from the position and the element.
 */
module Sequences {

  /**
   * `[f(i, x) for i, x in enumerate(xs) if keep(x)]`, defined by the last
   * element, the way a loop builds it.
   */
  function FilterMap<T, U>(xs: seq<T>, keep: T -> bool, f: (nat, T) -> U): (r: seq<U>)
    ensures |r| <= |xs|
    decreases |xs|
  {
    if |xs| == 0 then []
    else
      var n := |xs| - 1;
      FilterMap(xs[..n], keep, f) + (if keep(xs[n]) then [f(n, xs[n])] else [])
  }

  /** One more loop step: the prefix result extended by the next element's contribution. */
  lemma FilterMapStep<T, U>(xs: seq<T>, keep: T -> bool, f: (nat, T) -> U, i: nat)
    requires i < |xs|
    ensures FilterMap(xs[..i + 1], keep, f)
      == FilterMap(xs[..i], keep, f) + (if keep(xs[i]) then [f(i, xs[i])] else [])
  {
    assert xs[..i + 1][..i] == xs[..i];
  }

  /**
   * The positions of the elements `keep` accepts: strictly increasing, and
   * a position is listed exactly when its element is accepted.
   */
  function Positions<T>(xs: seq<T>, keep: T -> bool): (r: seq<nat>)
    ensures forall j :: 0 <= j < |r| ==> r[j] < |xs|
    ensures forall i, j :: 0 <= i < j < |r| ==> r[i] < r[j]
    ensures forall k :: 0 <= k < |xs| ==> (k in r <==> keep(xs[k]))
    decreases |xs|
  {
    if |xs| == 0 then []
    else
      var n := |xs| - 1;
      var prefix := Positions(xs[..n], keep);
      var tail: seq<nat> := if keep(xs[n]) then [n] else [];
      assert forall k :: 0 <= k < n ==> xs[..n][k] == xs[k];
      PositionsExtend(xs, keep, prefix, tail);
      prefix + tail
  }

  lemma PositionsExtend<T>(xs: seq<T>, keep: T -> bool, prefix: seq<nat>, tail: seq<nat>)
    requires |xs| > 0
    requires tail == if keep(xs[|xs| - 1]) then [|xs| - 1] else []
    requires forall j :: 0 <= j < |prefix| ==> prefix[j] < |xs| - 1
    requires forall k :: 0 <= k < |xs| - 1 ==> (k in prefix <==> keep(xs[k]))
    ensures forall k :: 0 <= k < |xs| ==> (k in prefix + tail <==> keep(xs[k]))
  {
    var n := |xs| - 1;
    forall k | 0 <= k < |xs|
      ensures k in prefix + tail <==> keep(xs[k])
    {
      if k < n {
        assert k !in tail;
      } else {
        assert k !in prefix;
      }
    }
  }

  /** `FilterMap` builds `f(p, xs[p])` for the accepted positions `p`, in order. */
  lemma {:induction false} FilterMapPositions<T, U>(xs: seq<T>, keep: T -> bool, f: (nat, T) -> U)
    ensures |FilterMap(xs, keep, f)| == |Positions(xs, keep)|
    ensures forall j :: 0 <= j < |Positions(xs, keep)| ==>
      FilterMap(xs, keep, f)[j] == f(Positions(xs, keep)[j], xs[Positions(xs, keep)[j]])
    decreases |xs|
  {
    if |xs| > 0 {
      var n := |xs| - 1;
      FilterMapPositions(xs[..n], keep, f);
      var prefix := Positions(xs[..n], keep);
      var mapped := FilterMap(xs[..n], keep, f);
      forall j | 0 <= j < |prefix| ensures mapped[j] == f(prefix[j], xs[prefix[j]]) {
        assert xs[..n][prefix[j]] == xs[prefix[j]];
      }
      ExtendBoth(xs, keep, f, mapped, prefix);
    }
  }

  /** The inductive step of `FilterMapPositions`, on the last element. */
  lemma ExtendBoth<T, U>(xs: seq<T>, keep: T -> bool, f: (nat, T) -> U, mapped: seq<U>, prefix: seq<nat>)
    requires |xs| > 0
    requires mapped == FilterMap(xs[..|xs| - 1], keep, f) && prefix == Positions(xs[..|xs| - 1], keep)
    requires |mapped| == |prefix|
    requires forall j :: 0 <= j < |prefix| ==> prefix[j] < |xs| && mapped[j] == f(prefix[j], xs[prefix[j]])
    ensures |FilterMap(xs, keep, f)| == |Positions(xs, keep)|
    ensures forall j :: 0 <= j < |Positions(xs, keep)| ==>
      FilterMap(xs, keep, f)[j] == f(Positions(xs, keep)[j], xs[Positions(xs, keep)[j]])
  {
    var n := |xs| - 1;
    if keep(xs[n]) {
      assert Positions(xs, keep) == prefix + [n];
      assert FilterMap(xs, keep, f) == mapped + [f(n, xs[n])];
    } else {
      assert Positions(xs, keep) == prefix;
      assert FilterMap(xs, keep, f) == mapped;
    }
  }

  /** A test that accepts nothing gives nothing. */
  lemma {:induction false} FilterMapNone<T, U>(xs: seq<T>, keep: T -> bool, f: (nat, T) -> U)
    requires forall k :: 0 <= k < |xs| ==> !keep(xs[k])
    ensures FilterMap(xs, keep, f) == []
    decreases |xs|
  {
    if |xs| > 0 {
      var n := |xs| - 1;
      assert forall k :: 0 <= k < n ==> xs[..n][k] == xs[k];
      FilterMapNone(xs[..n], keep, f);
    }
  }

  /** A looser test keeps at least as many elements. */
  lemma {:induction false} FilterMapMonotone<T, U>(xs: seq<T>, strict: T -> bool, loose: T -> bool, f: (nat, T) -> U)
    requires forall k :: 0 <= k < |xs| ==> strict(xs[k]) ==> loose(xs[k])
    ensures |FilterMap(xs, strict, f)| <= |FilterMap(xs, loose, f)|
    decreases |xs|
  {
    if |xs| > 0 {
      var n := |xs| - 1;
      assert forall k :: 0 <= k < n ==> xs[..n][k] == xs[k];
      FilterMapMonotone(xs[..n], strict, loose, f);
    }
  }

  /**
   * Python's `xs[:stop]`: a negative `stop` counts from the end, and a
   * `stop` beyond either end is clipped.
   */
  function Take<T>(xs: seq<T>, stop: int): (r: seq<T>)
    ensures |r| <= |xs| && r == xs[..|r|]
    ensures 0 <= stop ==> |r| == if stop <= |xs| then stop else |xs|
    ensures stop < 0 ==> |r| == if -stop <= |xs| then |xs| + stop else 0
  {
    if stop >= |xs| then xs
    else if stop >= 0 then xs[..stop]
    else if -stop <= |xs| then xs[..|xs| + stop]
    else []
  }
}
