/** Sequence helpers with Python's slicing and list-search behaviour. */
module Seqs {

  predicate Distinct<T(==)>(xs: seq<T>) {
    forall i, j :: 0 <= i < j < |xs| ==> xs[i] != xs[j]
  }

  /** `xs.index(x)`: the position of the first occurrence of `x`. */
  function FirstIndex<T(==)>(xs: seq<T>, x: T): (r: nat)
    requires x in xs
    ensures r < |xs| && xs[r] == x
    ensures forall j :: 0 <= j < r ==> xs[j] != x
  {
    if xs[0] == x then 0 else 1 + FirstIndex(xs[1..], x)
  }

  /** Any position that holds `x` with no `x` before it is the first index. */
  lemma FirstIndexUnique<T>(xs: seq<T>, x: T, k: nat)
    requires k < |xs| && xs[k] == x
    requires forall j :: 0 <= j < k ==> xs[j] != x
    ensures FirstIndex(xs, x) == k
  {
  }

  /** Appending an element does not move the first index of an element already present. */
  lemma FirstIndexSnoc<T>(xs: seq<T>, y: T, x: T)
    requires x in xs
    ensures FirstIndex(xs + [y], x) == FirstIndex(xs, x)
  {
    var k := FirstIndex(xs, x);
    FirstIndexUnique(xs + [y], x, k);
  }

  /** Python `xs[:n]`. */
  function Take<T>(xs: seq<T>, n: nat): (r: seq<T>)
    ensures |r| == if n <= |xs| then n else |xs|
    ensures r <= xs
  {
    if n <= |xs| then xs[..n] else xs
  }

  /** Python `xs[n:]`. */
  function Drop<T>(xs: seq<T>, n: nat): (r: seq<T>)
    ensures |r| == if n <= |xs| then |xs| - n else 0
    ensures Take(xs, n) + r == xs
  {
    if n <= |xs| then xs[n..] else []
  }

  function Last<T>(xs: seq<T>): T
    requires |xs| > 0
  {
    xs[|xs| - 1]
  }

  /** The integers `lo, lo + 1, ..., hi - 1`. */
  function Range(lo: nat, hi: nat): (r: seq<nat>)
    requires lo <= hi
    ensures |r| == hi - lo
    ensures forall k :: 0 <= k < |r| ==> r[k] == lo + k
    decreases hi - lo
  {
    if lo == hi then [] else [lo] + Range(lo + 1, hi)
  }

  predicate StrictlyIncreasing(xs: seq<nat>) {
    forall i, j :: 0 <= i < j < |xs| ==> xs[i] < xs[j]
  }

  lemma RangeIncreasing(lo: nat, hi: nat)
    requires lo <= hi
    ensures StrictlyIncreasing(Range(lo, hi))
    ensures Distinct(Range(lo, hi))
  {
  }

  /** A relation holding pairwise along `xs` and `ys` and between their
      new heads holds pairwise along the extended sequences. */
  lemma PairwiseCons<A, B>(rel: (A, B) -> bool, x: A, y: B, xs: seq<A>, ys: seq<B>)
    requires |xs| == |ys| && rel(x, y)
    requires forall i :: 0 <= i < |xs| ==> rel(xs[i], ys[i])
    ensures forall i :: 0 <= i < |xs| + 1 ==> rel(([x] + xs)[i], ([y] + ys)[i])
  {
    forall i | 0 <= i < |xs| + 1 ensures rel(([x] + xs)[i], ([y] + ys)[i]) {
      if i > 0 {
        assert ([x] + xs)[i] == xs[i - 1] && ([y] + ys)[i] == ys[i - 1];
      }
    }
  }

  /** `rel` holds between the elements of `xs` and `ys` at every position. */
  predicate Pairwise<A, B>(rel: (A, B) -> bool, xs: seq<A>, ys: seq<B>) {
    |xs| == |ys| && forall i :: 0 <= i < |xs| ==> rel(xs[i], ys[i])
  }

  /** `Pairwise` along a non-empty `xs` follows from its head and its tail. */
  lemma PairwiseHeadTail<A, B>(rel: (A, B) -> bool, xs: seq<A>, y: B, ys: seq<B>)
    requires |xs| > 0 && rel(xs[0], y) && Pairwise(rel, xs[1..], ys)
    ensures Pairwise(rel, xs, [y] + ys)
  {
    assert xs == [xs[0]] + xs[1..];
    PairwiseCons(rel, xs[0], y, xs[1..], ys);
  }

  /** The first element with property `stop`, when it also has `found`, is
      the head when the head stops, and otherwise the first such element of
      the tail, one position further on. */
  lemma FirstStopCons<T>(stop: T -> bool, found: T -> bool, xs: seq<T>)
    requires |xs| > 0
    requires || (stop(xs[0]) && found(xs[0]))
             || (&& !stop(xs[0])
                 && exists s :: 0 <= s < |xs[1..]| && (forall t :: 0 <= t < s ==> !stop(xs[1..][t])) && found(xs[1..][s]))
    ensures exists s :: 0 <= s < |xs| && (forall t :: 0 <= t < s ==> !stop(xs[t])) && found(xs[s])
  {
    if !stop(xs[0]) {
      var s :| 0 <= s < |xs[1..]| && (forall t :: 0 <= t < s ==> !stop(xs[1..][t])) && found(xs[1..][s]);
      assert forall t :: 1 <= t < |xs| ==> xs[t] == xs[1..][t - 1];
      assert xs[s + 1] == xs[1..][s];
    }
  }

  lemma RangeAppend(lo: nat, mid: nat, hi: nat)
    requires lo <= mid <= hi
    ensures Range(lo, mid) + Range(mid, hi) == Range(lo, hi)
  {
    var a := Range(lo, mid) + Range(mid, hi);
    assert |a| == hi - lo;
    forall k | 0 <= k < |a| ensures a[k] == Range(lo, hi)[k] {
      if k < mid - lo {
        assert a[k] == Range(lo, mid)[k];
      } else {
        assert a[k] == Range(mid, hi)[k - (mid - lo)];
      }
    }
  }
}
