/** What quantiles and fractions of classic histograms are, without divisions and searches: where the rank
    of a quantile falls, and how many observations lie below a value. */
module QuantileLaws {
  import opened Quantile

  // ---------------------------------------------------------------- tolerance

  /** Counts are taken as equal if they are apart by less than 1e-12 of their sum. */
  lemma ToleranceIs(minNormal: real, a: real, b: real)
    requires minNormal > 0.0 && a > 0.0 && b > 0.0 && a + b >= minNormal
    ensures WithinTolerance(minNormal)(a, b) <==>
      a == b || ((if a < b then b - a else a - b) * 1_000_000_000_000.0 < a + b)
  {
  }

  lemma ToleranceOfZero(minNormal: real, b: real)
    requires minNormal > 0.0 && b > 0.0
    ensures WithinTolerance(minNormal)(0.0, b) <==> b * 1_000_000_000_000.0 < minNormal
    ensures WithinTolerance(minNormal)(b, 0.0) <==> b * 1_000_000_000_000.0 < minNormal
    ensures WithinTolerance(minNormal)(0.0, 0.0)
  {
  }

  // ---------------------------------------------------------------- quantiles

  lemma CrossMultiplied(start: real, d: real, x: real, w: real, v: real)
    requires w != 0.0 && v == start + d * (x / w)
    ensures (v - start) * w == d * x
  {
    var f := x / w;
    assert f * w == x;
    assert (v - start) * w == d * (f * w);
  }

  /** Bucket b is the first below the last whose count reaches rank, or the last. */
  ghost predicate FirstToReach(s: seq<Bucket>, rank: real, b: nat) {
    b < |s| && (forall i :: 0 <= i < b ==> s[i].count < rank) && (b < |s| - 1 ==> s[b].count >= rank)
  }

  lemma FirstToReachIsBucket(s: seq<Bucket>, rank: real, b: nat)
    requires Ready(s) && FirstToReach(s, rank, b)
    ensures BucketOf(s, rank, |s| - 1) == b
  {
    var c := BucketOf(s, rank, |s| - 1);
    var here, there := s[b].count, s[c].count;
    BucketOfIsFirst(s, rank, |s| - 1);
  }

  /** No value without observations or with the +Inf bucket alone.  A rank in the +Inf bucket gives the
      bound below it, and one in a first bucket that ends at or below zero the bound of that bucket;
      otherwise the value divides its bucket as the rank divides the counts. */
  lemma QuantileIs(s: seq<Bucket>, q: real, rank: real, b: nat)
    requires Ready(s) && 0.0 <= q <= 1.0 && rank == q * s[|s| - 1].count && FirstToReach(s, rank, b)
    ensures
      var r := QuantileOf(s, q);
      if |s| == 1 || s[|s| - 1].count == 0.0 then r == NaN
      else if b == |s| - 1 then r == s[b - 1].ub
      else if b == 0 && s[0].ub.v <= 0.0 then r == s[0].ub
      else if b == 0 then
        if s[0].count == 0.0 then r == NaN else r.Fin? && r.v * s[0].count == s[0].ub.v * rank
      else
        && r.Fin?
        && (r.v - s[b - 1].ub.v) * (s[b].count - s[b - 1].count) == (s[b].ub.v - s[b - 1].ub.v) * (rank - s[b - 1].count)
  {
    if |s| >= 2 && s[|s| - 1].count != 0.0 {
      FirstToReachIsBucket(s, rank, b);
      QuantileByRank(s, q, rank);
      if b < |s| - 1 && s[b].count != CountBelow(s, b) {
        CrossMultiplied(StartOf(s, b), s[b].ub.v - StartOf(s, b), rank - CountBelow(s, b), s[b].count - CountBelow(s, b),
                        Interpolated(s, b, rank));
      }
    }
  }

  // ---------------------------------------------------------------- fractions

  /** Finite ascending bounds below a final +Inf, and some observations; counts need not ascend. */
  ghost predicate Edges(s: seq<Bucket>) {
    && |s| > 0 && s[|s| - 1].ub == PosInf && s[|s| - 1].count > 0.0
    && (forall i :: 0 <= i < |s| - 1 ==> s[i].ub.Fin?)
    && (forall i, j :: 0 <= i < j < |s| - 1 ==> s[i].ub.v < s[j].ub.v)
  }

  /** Merging leaves such buckets whenever the highest bound is +Inf and there are observations. */
  lemma MergedHaveEdges(sorted: seq<Bucket>)
    requires |sorted| > 0 && SortedByBound(sorted) && FiniteBounds(sorted) && sorted[|sorted| - 1].ub == PosInf
    requires Coalesced(sorted)[|Coalesced(sorted)| - 1].count > 0.0
    ensures Edges(Coalesced(sorted))
  {
    CoalescedStrict(sorted, |sorted|);
    MergedFinite(sorted, |sorted|);
    var c := Coalesced(sorted);
    assert c[|c| - 1] == MergedTo(sorted, |sorted|).last;
    forall i | 0 <= i < |c| - 1 ensures c[i].ub.Fin? {
      assert Lt(c[i].ub, c[|c| - 1].ub);
    }
    forall i, j | 0 <= i < j < |c| - 1 ensures c[i].ub.v < c[j].ub.v {
      assert Lt(c[i].ub, c[j].ub);
    }
  }

  lemma {:induction false} MergedFinite(s: seq<Bucket>, n: nat)
    requires 0 < n <= |s| && FiniteBounds(s)
    ensures FiniteBounds(MergedTo(s, n).All())
  {
    if n > 1 {
      MergedFinite(s, n - 1);
      var m, r := MergedTo(s, n - 1), MergedTo(s, n).All();
      forall i | 0 <= i < |r| ensures r[i].ub.Fin? || r[i].ub.PosInf? {
        assert m.All()[|m.done|] == m.last;
        assert i < |m.done| ==> r[i] == m.All()[i];
      }
    }
  }

  lemma {:induction false} SkipBelow(s: seq<Bucket>, v: real, i: nat, b: nat)
    requires Edges(s) && i <= b < |s| && (b > 0 ==> s[b - 1].ub.v < v)
    ensures RankFrom(s, Fin(v), i) == RankFrom(s, Fin(v), b)
    decreases b - i
  {
    if i < b {
      assert i < b - 1 ==> s[i].ub.v < s[b - 1].ub.v;
      assert 0 < i ==> s[i - 1].ub.v < s[b - 1].ub.v;
      SkipBelow(s, v, i + 1, b);
    }
  }

  /** v lies after the bound before bucket b, and not after the bound of b. */
  ghost predicate LiesIn(s: seq<Bucket>, v: real, b: nat)
    requires Edges(s)
  {
    b < |s| && (b > 0 ==> s[b - 1].ub.v < v) && (b < |s| - 1 ==> v <= s[b].ub.v)
  }

  /** r observations are taken to be at or below v: none at or below zero if all bounds are positive; all
      of a first bucket that ends at or below zero; none of the +Inf bucket; and in any other bucket as many
      as v divides it. */
  ghost predicate CountsUpTo(s: seq<Bucket>, v: real, b: nat, r: real)
    requires Edges(s) && LiesIn(s, v, b)
  {
    if b == |s| - 1 then r == if b == 0 then 0.0 else s[b - 1].count
    else if b > 0 then (r - s[b - 1].count) * (s[b].ub.v - s[b - 1].ub.v) == (s[b].count - s[b - 1].count) * (v - s[b - 1].ub.v)
    else if s[0].ub.v <= 0.0 then r == s[0].count
    else if v <= 0.0 then r == 0.0
    else r * s[0].ub.v == s[0].count * v
  }

  lemma InsideDivides(s: seq<Bucket>, v: real, b: nat)
    requires Edges(s) && LiesIn(s, v, b) && b < |s| - 1 && v < s[b].ub.v && Lt(LowerBound(s, b), Fin(v))
    ensures CountsUpTo(s, v, b, RankInside(s, b, Fin(v)))
  {
    if !LowerBound(s, b).NegInf? {
      var low, below := LowerBound(s, b).v, CountBelow(s, b);
      var w := s[b].ub.v - low;
      var part := (s[b].count - below) * (v - low) / w;
      assert part * w == (s[b].count - below) * (v - low);
      assert RankInside(s, b, Fin(v)) == below + part;
    }
  }

  lemma RankOfValue(s: seq<Bucket>, v: real, b: nat) returns (r: real)
    requires Edges(s) && LiesIn(s, v, b)
    ensures CountsUpTo(s, v, b, r) && RankFrom(s, Fin(v), 0) == Cap(r, s[|s| - 1].count)
  {
    SkipBelow(s, v, 0, b);
    if Le(Fin(v), LowerBound(s, b)) {
      r := 0.0;
    } else if Lt(Fin(v), s[b].ub) {
      r := RankInside(s, b, Fin(v));
      if b < |s| - 1 {
        InsideDivides(s, v, b);
      }
    } else {
      r := s[b].count;
      assert LowerBound(s, b + 1) == Fin(v);
    }
  }

  lemma NothingBelow(s: seq<Bucket>)
    requires Edges(s)
    ensures RankFrom(s, NegInf, 0) == 0.0
  {
  }

  /** The fraction up to a value: as many observations as lie below it, but not more than all. */
  lemma FractionUpTo(s: seq<Bucket>, v: real, b: nat) returns (r: real)
    requires Edges(s) && LiesIn(s, v, b)
    ensures
      var all := s[|s| - 1].count;
      && CountsUpTo(s, v, b, r)
      && FractionOf(s, NegInf, Fin(v)) == Fin((if r > all then all else r) / all)
  {
    r := RankOfValue(s, v, b);
    NothingBelow(s);
  }

  lemma {:induction false} AllUpToInfinity(s: seq<Bucket>, i: nat)
    requires Edges(s) && i <= |s|
    ensures RankFrom(s, PosInf, i) == s[|s| - 1].count
    decreases |s| - i
  {
    if i < |s| {
      AllUpToInfinity(s, i + 1);
    }
  }

  /** Between two values lies what lies up to the upper one but not up to the lower one; everything lies
      up to +Inf, and nothing between values that are not in order. */
  lemma FractionBetween(s: seq<Bucket>, lower: Ext, upper: Ext)
    requires Edges(s)
    ensures FractionOf(s, NegInf, PosInf) == Fin(1.0)
    ensures FractionOf(s, NaN, upper) == NaN && FractionOf(s, lower, NaN) == NaN
    ensures Le(upper, lower) ==> FractionOf(s, lower, upper) == Fin(0.0)
    ensures Lt(lower, upper) ==>
      && FractionOf(s, lower, upper).Fin? && FractionOf(s, NegInf, lower).Fin? && FractionOf(s, NegInf, upper).Fin?
      && FractionOf(s, lower, upper).v == FractionOf(s, NegInf, upper).v - FractionOf(s, NegInf, lower).v
  {
    NothingBelow(s);
    AllUpToInfinity(s, 0);
    var all := s[|s| - 1].count;
    Difference(RankFrom(s, upper, 0), RankFrom(s, lower, 0), all);
  }

  lemma Difference(x: real, y: real, all: real)
    requires all != 0.0
    ensures (x - y) / all == x / all - y / all && all / all == 1.0 && (x - 0.0) / all == x / all
  {
  }

  /** Without observations there is no fraction. */
  lemma NoFraction(s: seq<Bucket>, lower: Ext, upper: Ext)
    requires |s| > 0 && s[|s| - 1].count == 0.0
    ensures FractionOf(s, lower, upper) == NaN
  {
  }
}
