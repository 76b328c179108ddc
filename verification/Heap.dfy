/** The sample heaps behind topk and bottomk, including NaN, for which Less is not a strict order. */
module Heap {
  import opened Basics
  import opened Series

  /** The float a heap compares; histogram samples carry zero. */
  function Key(s: Sample): Float {
    match s.value
    case FloatValue(f) => f
    case HistogramValue(_) => Num(0.0)
  }

  /** Less of vectorByValueHeap, or of vectorByReverseValueHeap if `rev`. */
  predicate Less(rev: bool, a: Float, b: Float) {
    a.NaN? || (b.Num? && if rev then a.v > b.v else a.v < b.v)
  }

  /** Numbers are compared by value, the other way round if reversed, and a histogram counts as zero. */
  lemma LessMeans(rev: bool, a: Sample, b: Sample, x: real, y: real)
    requires a.value == FloatValue(Num(x)) || (a.value.HistogramValue? && x == 0.0)
    requires b.value == FloatValue(Num(y)) || (b.value.HistogramValue? && y == 0.0)
    ensures Less(rev, Key(a), Key(b)) <==> if rev then x > y else x < y
  {
  }

  /** a ranks no better than b: the total preorder that puts NaN last. */
  predicate NoBetter(rev: bool, a: Float, b: Float) {
    a.NaN? || (b.Num? && if rev then a.v >= b.v else a.v <= b.v)
  }

  predicate SampleNoBetter(rev: bool, a: Sample, b: Sample) {
    NoBetter(rev, Key(a), Key(b))
  }

  function Parent(i: nat): nat {
    if i == 0 then 0 else (i - 1) / 2
  }

  /** Edge i of the heap: the parent of i ranks no better than i. */
  predicate Edge(rev: bool, h: seq<Sample>, i: nat)
    requires i < |h|
  {
    i == 0 || SampleNoBetter(rev, h[Parent(i)], h[i])
  }

  ghost predicate IsHeap(rev: bool, h: seq<Sample>) {
    forall i :: 0 <= i < |h| ==> Edge(rev, h, i)
  }

  /** A heap except that j may outrank its ancestors: its children are still below its parent. */
  ghost predicate HeapBut(rev: bool, h: seq<Sample>, j: nat)
    requires j < |h|
  {
    && (forall i :: 0 <= i < |h| && i != j ==> Edge(rev, h, i))
    && (forall i :: 0 < i < |h| && Parent(i) == j && j > 0 ==> SampleNoBetter(rev, h[Parent(j)], h[i]))
  }

  /** A heap except that j may be outranked by its descendants. */
  ghost predicate HeapButBelow(rev: bool, h: seq<Sample>, j: nat)
    requires j < |h|
  {
    && (forall i :: 0 < i < |h| && Parent(i) != j ==> Edge(rev, h, i))
    && (forall i :: 0 < i < |h| && Parent(i) == j && j > 0 ==> SampleNoBetter(rev, h[Parent(j)], h[i]))
  }

  function Swap(h: seq<Sample>, i: nat, j: nat): (r: seq<Sample>)
    requires i < |h| && j < |h|
    ensures |r| == |h| && multiset(r) == multiset(h)
  {
    h[i := h[j]][j := h[i]]
  }

  lemma SwapUp(rev: bool, h: seq<Sample>, j: nat)
    requires 0 < j < |h| && HeapBut(rev, h, j) && Less(rev, Key(h[j]), Key(h[Parent(j)]))
    ensures HeapBut(rev, Swap(h, Parent(j), j), Parent(j))
  {
    var p, h' := Parent(j), Swap(h, Parent(j), j);
    forall i | 0 <= i < |h| && i != p ensures Edge(rev, h', i) {
      assert Edge(rev, h, p);
      if i != j { assert Edge(rev, h, i); }
    }
    forall i | 0 < i < |h| && Parent(i) == p && p > 0 ensures SampleNoBetter(rev, h'[Parent(p)], h'[i]) {
      assert Edge(rev, h, p);
      if i != j { assert Edge(rev, h, i); }
    }
  }

  /** Moves the element at index j0 up to its place. */
  method Up(rev: bool, h0: seq<Sample>, j0: nat) returns (h: seq<Sample>)
    requires j0 < |h0| && HeapBut(rev, h0, j0)
    ensures IsHeap(rev, h) && multiset(h) == multiset(h0) && |h| == |h0|
  {
    h := h0;
    var j := j0;
    while j > 0 && Less(rev, Key(h[j]), Key(h[Parent(j)]))
      invariant |h| == |h0| && 0 <= j < |h| && HeapBut(rev, h, j) && multiset(h) == multiset(h0)
    {
      SwapUp(rev, h, j);
      h, j := Swap(h, Parent(j), j), Parent(j);
    }
  }

  lemma SwapDown(rev: bool, h: seq<Sample>, i: nat, j: nat)
    requires i < |h| && HeapButBelow(rev, h, i) && 0 < j < |h| && Parent(j) == i
    requires Less(rev, Key(h[j]), Key(h[i]))
    requires forall c :: 0 < c < |h| && Parent(c) == i ==> SampleNoBetter(rev, h[j], h[c])
    ensures HeapButBelow(rev, Swap(h, i, j), j)
  {
    var h' := Swap(h, i, j);
    forall c | 0 < c < |h| && Parent(c) != j ensures Edge(rev, h', c) {
      if Parent(c) != i {
        assert Edge(rev, h, c);
      }
    }
    forall c | 0 < c < |h| && Parent(c) == j ensures SampleNoBetter(rev, h'[Parent(j)], h'[c]) {
      assert Edge(rev, h, c);
    }
  }

  /** The child of i that the root is compared with: the one that Less puts first. */
  function FirstChild(rev: bool, h: seq<Sample>, i: nat): (j: nat)
    requires 2 * i + 1 < |h|
    ensures 0 < j < |h| && Parent(j) == i && i < j
    ensures forall c :: 0 < c < |h| && Parent(c) == i ==> SampleNoBetter(rev, h[j], h[c])
  {
    assert forall c :: 0 < c < |h| && Parent(c) == i ==> c == 2 * i + 1 || c == 2 * i + 2;
    if 2 * i + 2 < |h| && Less(rev, Key(h[2 * i + 2]), Key(h[2 * i + 1])) then 2 * i + 2 else 2 * i + 1
  }

  lemma Settled(rev: bool, h: seq<Sample>, i: nat)
    requires i < |h| && HeapButBelow(rev, h, i)
    requires 2 * i + 1 < |h| ==> !Less(rev, Key(h[FirstChild(rev, h, i)]), Key(h[i]))
    ensures IsHeap(rev, h)
  {
    forall c | 0 <= c < |h| ensures Edge(rev, h, c) {
      if c > 0 && Parent(c) == i {
        assert SampleNoBetter(rev, h[FirstChild(rev, h, i)], h[c]);
      }
    }
  }

  /** Moves the root down to its place; nothing above it can be out of order. */
  method FixRoot(rev: bool, h0: seq<Sample>) returns (h: seq<Sample>)
    requires |h0| > 0 && HeapButBelow(rev, h0, 0)
    ensures IsHeap(rev, h) && multiset(h) == multiset(h0) && |h| == |h0|
  {
    h := h0;
    var i := 0;
    while 2 * i + 1 < |h| && Less(rev, Key(h[FirstChild(rev, h, i)]), Key(h[i]))
      invariant |h| == |h0| && 0 <= i < |h| && HeapButBelow(rev, h, i) && multiset(h) == multiset(h0)
      decreases |h| - i
    {
      var j := FirstChild(rev, h, i);
      SwapDown(rev, h, i, j);
      h, i := Swap(h, i, j), j;
    }
    Settled(rev, h, i);
  }

  method Push(rev: bool, h0: seq<Sample>, x: Sample) returns (h: seq<Sample>)
    requires IsHeap(rev, h0)
    ensures IsHeap(rev, h) && multiset(h) == multiset(h0) + multiset{x} && |h| == |h0| + 1
  {
    var h1 := h0 + [x];
    forall i | 0 <= i < |h1| && i != |h0| ensures Edge(rev, h1, i) {
      assert Edge(rev, h0, i);
    }
    h := Up(rev, h1, |h0|);
  }

  /** The root of a heap ranks no better than any element. */
  lemma {:induction false} RootIsWorst(rev: bool, h: seq<Sample>, i: nat)
    requires IsHeap(rev, h) && i < |h|
    ensures SampleNoBetter(rev, h[0], h[i])
  {
    if i > 0 {
      RootIsWorst(rev, h, Parent(i));
      assert Edge(rev, h, i);
    }
  }

  // ---------------------------------------------------------------- the k best

  /** h holds k of the samples xs, or all if there are fewer, and no sample left out ranks strictly
      better than one that is kept. */
  ghost predicate IsBest(rev: bool, k: nat, xs: Vector, h: seq<Sample>) {
    && |h| == Min(k, |xs|)
    && multiset(h) <= multiset(xs)
    && forall d, x :: d in multiset(xs) - multiset(h) && x in multiset(h) ==> SampleNoBetter(rev, d, x)
  }

  lemma AllKept(xs: Vector, h: seq<Sample>)
    requires multiset(h) <= multiset(xs) && |h| == |xs|
    ensures multiset(h) == multiset(xs)
  {
    var rest := multiset(xs) - multiset(h);
    assert multiset(xs) == multiset(h) + rest;
    assert |rest| == 0;
  }

  lemma BestAfterPush(rev: bool, k: nat, xs: Vector, h: seq<Sample>, x: Sample, h': seq<Sample>)
    requires IsBest(rev, k, xs, h) && |h| < k
    requires multiset(h') == multiset(h) + multiset{x} && |h'| == |h| + 1
    ensures IsBest(rev, k, xs + [x], h')
  {
    AllKept(xs, h);
    assert multiset(xs + [x]) == multiset(xs) + multiset{x};
  }

  /** Every sample that is left out ranks no better than the root, and every chosen one no worse. */
  lemma RootBetween(rev: bool, k: nat, xs: Vector, h: seq<Sample>, d: Sample, y: Sample)
    requires IsBest(rev, k, xs, h) && IsHeap(rev, h) && |h| > 0
    ensures d in multiset(xs) - multiset(h) ==> SampleNoBetter(rev, d, h[0])
    ensures y in multiset(h) ==> SampleNoBetter(rev, h[0], y)
  {
    assert h[0] in multiset(h);
    if y in multiset(h) {
      var i :| 0 <= i < |h| && h[i] == y;
      RootIsWorst(rev, h, i);
    }
  }

  lemma ReplacedRoot(xs: Vector, h: seq<Sample>, x: Sample, h': seq<Sample>)
    requires |h| > 0 && multiset(h) <= multiset(xs) && multiset(h') == multiset(h[0 := x])
    ensures multiset(h') <= multiset(xs + [x])
    ensures forall y :: y in multiset(h') ==> y in multiset(h) || y == x
    ensures forall d :: d in multiset(xs + [x]) - multiset(h') ==> d in multiset(xs) - multiset(h) || d == h[0]
  {
    assert multiset(h[0 := x]) == multiset(h) - multiset{h[0]} + multiset{x};
    assert multiset(xs + [x]) == multiset(xs) + multiset{x};
  }

  lemma BestAfterReplace(rev: bool, k: nat, xs: Vector, h: seq<Sample>, x: Sample, h': seq<Sample>)
    requires IsBest(rev, k, xs, h) && IsHeap(rev, h) && |h| == k > 0
    requires Less(rev, Key(h[0]), Key(x))
    requires multiset(h') == multiset(h[0 := x]) && |h'| == |h|
    ensures IsBest(rev, k, xs + [x], h')
  {
    ReplacedRoot(xs, h, x, h');
    forall d, y | d in multiset(xs + [x]) - multiset(h') && y in multiset(h') ensures SampleNoBetter(rev, d, y) {
      RootBetween(rev, k, xs, h, d, y);
    }
  }

  lemma BestAfterDiscard(rev: bool, k: nat, xs: Vector, h: seq<Sample>, x: Sample)
    requires IsBest(rev, k, xs, h) && IsHeap(rev, h) && |h| == k > 0
    requires NoBetter(rev, Key(x), Key(h[0]))
    ensures IsBest(rev, k, xs + [x], h)
  {
    assert multiset(xs + [x]) == multiset(xs) + multiset{x};
    forall d, y | d in multiset(xs + [x]) - multiset(h) && y in multiset(h) ensures SampleNoBetter(rev, d, y) {
      var i :| 0 <= i < |h| && h[i] == y;
      RootIsWorst(rev, h, i);
      assert d in multiset(xs) - multiset(h) || d == x;
    }
  }

  /** Offers a sample to a heap of at most k elements. */
  method Offer(rev: bool, k: nat, h0: seq<Sample>, x: Sample, ghost xs: Vector) returns (h: seq<Sample>)
    requires k > 0 && IsHeap(rev, h0) && IsBest(rev, k, xs, h0)
    ensures IsHeap(rev, h) && IsBest(rev, k, xs + [x], h)
  {
    if |h0| < k {
      h := Push(rev, h0, x);
      BestAfterPush(rev, k, xs, h0, x, h);
    } else {
      var root, key := Key(h0[0]), Key(x);
      if (root.Num? && key.Num? && (if rev then root.v > key.v else root.v < key.v)) || (root.NaN? && !key.NaN?) {
        h := h0[0 := x];
        if k > 1 {
          forall i | 0 < i < |h| && Parent(i) != 0 ensures Edge(rev, h, i) {
            assert Edge(rev, h0, i);
          }
          h := FixRoot(rev, h);
        }
        BestAfterReplace(rev, k, xs, h0, x, h);
      } else {
        h := h0;
        BestAfterDiscard(rev, k, xs, h0, x);
      }
    }
  }
}
