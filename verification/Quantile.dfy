/** Quantiles and fractions of classic histograms: buckets are sorted, buckets with the same bound are
    merged in place, counts are made monotonic in place, and the result is interpolated linearly. */
module Quantile {

  /** Floating point values as far as ordering and infinities matter. */
  datatype Ext = NaN | NegInf | Fin(v: real) | PosInf

  predicate Lt(a: Ext, b: Ext) {
    match (a, b)
    case (NegInf, Fin(_)) => true
    case (NegInf, PosInf) => true
    case (Fin(x), Fin(y)) => x < y
    case (Fin(_), PosInf) => true
    case _ => false
  }

  predicate Le(a: Ext, b: Ext) {
    Lt(a, b) || (a == b && !a.NaN?)
  }

  datatype Bucket = Bucket(ub: Ext, count: real)

  // ---------------------------------------------------------------- sorting

  ghost predicate SortedByBound(s: seq<Bucket>) {
    forall i, j :: 0 <= i < j < |s| ==> Le(s[i].ub, s[j].ub)
  }

  ghost predicate NoNaN(s: seq<Bucket>) {
    forall i :: 0 <= i < |s| ==> !s[i].ub.NaN?
  }

  function Insert(s: seq<Bucket>, b: Bucket): (r: seq<Bucket>)
    ensures multiset(r) == multiset(s) + multiset{b}
  {
    if |s| > 0 && Lt(b.ub, s[|s| - 1].ub) then
      assert s == s[..|s| - 1] + [s[|s| - 1]];
      Insert(s[..|s| - 1], b) + [s[|s| - 1]]
    else s + [b]
  }

  lemma AppendSorted(s: seq<Bucket>, b: Bucket)
    requires SortedByBound(s) && NoNaN(s) && !b.ub.NaN? && forall x: Bucket :: x in multiset(s) ==> Le(x.ub, b.ub)
    ensures SortedByBound(s + [b]) && NoNaN(s + [b])
  {
    assert forall i :: 0 <= i < |s| ==> s[i] in multiset(s);
  }

  lemma {:induction false} InsertSorted(s: seq<Bucket>, b: Bucket)
    requires SortedByBound(s) && NoNaN(s) && !b.ub.NaN?
    ensures SortedByBound(Insert(s, b)) && NoNaN(Insert(s, b))
  {
    if |s| > 0 && Lt(b.ub, s[|s| - 1].ub) {
      var init, last := s[..|s| - 1], s[|s| - 1];
      InsertSorted(init, b);
      assert forall x: Bucket :: x in multiset(init) ==> Le(x.ub, last.ub);
      AppendSorted(Insert(init, b), last);
    } else {
      assert forall x: Bucket :: x in multiset(s) ==> Le(x.ub, b.ub);
      AppendSorted(s, b);
    }
  }

  /** Any sort would do: see SortIrrelevant. */
  function Sort(s: seq<Bucket>): (r: seq<Bucket>)
    ensures multiset(r) == multiset(s) && |r| == |s|
  {
    if |s| == 0 then []
    else
      assert s == s[..|s| - 1] + [s[|s| - 1]];
      var r := Insert(Sort(s[..|s| - 1]), s[|s| - 1]);
      assert |multiset(r)| == |r|;
      r
  }

  lemma {:induction false} SortSorts(s: seq<Bucket>)
    requires NoNaN(s)
    ensures SortedByBound(Sort(s)) && NoNaN(Sort(s))
  {
    if |s| > 0 {
      SortSorts(s[..|s| - 1]);
      InsertSorted(Sort(s[..|s| - 1]), s[|s| - 1]);
    }
  }

  // ---------------------------------------------------------------- merging equal bounds

  ghost predicate Strict(s: seq<Bucket>) {
    forall i, j :: 0 <= i < j < |s| ==> Lt(s[i].ub, s[j].ub)
  }

  /** Buckets merged so far: those that are finished, and the one that may still grow. */
  datatype Merged = Merged(done: seq<Bucket>, last: Bucket) {
    function Absorb(b: Bucket): Merged {
      if b.ub == last.ub then Merged(done, Bucket(last.ub, last.count + b.count)) else Merged(done + [last], b)
    }

    function All(): seq<Bucket> { done + [last] }
  }

  function MergedTo(s: seq<Bucket>, n: nat): (m: Merged)
    requires 0 < n <= |s|
    ensures m.last.ub == s[n - 1].ub
  {
    if n == 1 then Merged([], s[0]) else MergedTo(s, n - 1).Absorb(s[n - 1])
  }

  /** The buckets with neighbours of equal bound merged. */
  function Coalesced(s: seq<Bucket>): seq<Bucket>
    requires |s| > 0
  {
    MergedTo(s, |s|).All()
  }

  /** Merges neighbours with equal bounds.  Writing never overtakes reading. */
  method CoalesceBuckets(a: array<Bucket>) returns (n: nat)
    requires a.Length > 0
    modifies a
    ensures 0 < n <= a.Length && a[..n] == Coalesced(old(a[..]))
  {
    ghost var s := a[..];
    var last := a[0];
    var i := 0;
    for j := 1 to a.Length
      invariant 0 <= i < j
      invariant a[..i] == MergedTo(s, j).done && last == MergedTo(s, j).last
      invariant forall k :: j <= k < a.Length ==> a[k] == s[k]
    {
      var b := a[j];
      if b.ub == last.ub {
        last := Bucket(last.ub, last.count + b.count);
      } else {
        a[i] := last;
        last := b;
        i := i + 1;
      }
    }
    a[i] := last;
    n := i + 1;
  }

  /** Sum of the counts of all buckets with bound u. */
  function TotalAt(s: seq<Bucket>, u: Ext): real {
    if |s| == 0 then 0.0 else Share(s[0], u) + TotalAt(s[1..], u)
  }

  function Share(b: Bucket, u: Ext): real {
    if b.ub == u then b.count else 0.0
  }

  lemma {:induction false} TotalConcat(s: seq<Bucket>, t: seq<Bucket>, u: Ext)
    ensures TotalAt(s + t, u) == TotalAt(s, u) + TotalAt(t, u)
  {
    if |s| == 0 {
      assert s + t == t;
    } else {
      assert (s + t)[1..] == s[1..] + t;
      TotalConcat(s[1..], t, u);
    }
  }

  lemma TotalAppend(s: seq<Bucket>, b: Bucket, u: Ext)
    ensures TotalAt(s + [b], u) == TotalAt(s, u) + Share(b, u)
  {
    TotalConcat(s, [b], u);
  }

  ghost function Bounds(s: seq<Bucket>): set<Ext> {
    set b | b in s :: b.ub
  }

  lemma AbsorbKeeps(m: Merged, b: Bucket, u: Ext)
    ensures TotalAt(m.Absorb(b).All(), u) == TotalAt(m.All(), u) + Share(b, u)
    ensures u in Bounds(m.Absorb(b).All()) <==> u in Bounds(m.All()) || u == b.ub
  {
    TotalAppend(m.done, m.last, u);
    if b.ub == m.last.ub {
      var grown := Bucket(m.last.ub, m.last.count + b.count);
      TotalAppend(m.done, grown, u);
      assert grown in m.done + [grown] && m.last in m.done + [m.last];
    } else {
      TotalAppend(m.done + [m.last], b, u);
      assert b in m.done + [m.last] + [b];
    }
  }

  /** Coalescing keeps the total per bound and the set of bounds. */
  lemma {:induction false} CoalescedTotals(s: seq<Bucket>, n: nat, u: Ext)
    requires 0 < n <= |s|
    ensures TotalAt(MergedTo(s, n).All(), u) == TotalAt(s[..n], u)
    ensures u in Bounds(MergedTo(s, n).All()) <==> u in Bounds(s[..n])
  {
    if n == 1 {
      assert s[..1] == [s[0]];
    } else {
      CoalescedTotals(s, n - 1, u);
      AbsorbKeeps(MergedTo(s, n - 1), s[n - 1], u);
      assert s[..n] == s[..n - 1] + [s[n - 1]];
      TotalAppend(s[..n - 1], s[n - 1], u);
    }
  }

  /** Coalescing sorted buckets leaves bounds that strictly ascend. */
  lemma {:induction false} CoalescedStrict(s: seq<Bucket>, n: nat)
    requires 0 < n <= |s| && SortedByBound(s) && NoNaN(s)
    ensures Strict(MergedTo(s, n).All()) && NoNaN(MergedTo(s, n).All())
  {
    if n > 1 {
      CoalescedStrict(s, n - 1);
      AbsorbStrict(MergedTo(s, n - 1), s[n - 1]);
    }
  }

  lemma AbsorbStrict(m: Merged, b: Bucket)
    requires Strict(m.All()) && NoNaN(m.All()) && Le(m.last.ub, b.ub)
    ensures Strict(m.Absorb(b).All()) && NoNaN(m.Absorb(b).All())
  {
    var c, r, n := m.All(), m.Absorb(b).All(), |m.done|;
    assert c[n] == m.last;
    forall i, j | 0 <= i < j < |r| ensures Lt(r[i].ub, r[j].ub) {
      if j <= n {
        assert r[i].ub == c[i].ub && r[j].ub == c[j].ub;
      } else {
        assert r[i].ub == c[i].ub && Lt(c[n].ub, b.ub);
      }
    }
    forall i | 0 <= i < |r| ensures !r[i].ub.NaN? {
      assert i <= n ==> r[i].ub == c[i].ub;
    }
  }

  // ---------------------------------------------------------------- the order of equal bounds

  lemma RemoveOne(s: seq<Bucket>, b: Bucket, u: Ext) returns (rest: seq<Bucket>)
    requires b in multiset(s)
    ensures |rest| == |s| - 1 && multiset(rest) == multiset(s) - multiset{b}
    ensures TotalAt(s, u) == TotalAt(rest, u) + Share(b, u)
  {
    var i :| 0 <= i < |s| && s[i] == b;
    var l, r := s[..i], s[i + 1..];
    rest := l + r;
    assert s == l + [b] + r;
    TotalConcat(l + [b], r, u);
    TotalAppend(l, b, u);
    TotalConcat(l, r, u);
  }

  /** Totals depend only on which buckets there are. */
  lemma {:induction false} SameTotals(s: seq<Bucket>, t: seq<Bucket>, u: Ext)
    requires multiset(s) == multiset(t)
    ensures TotalAt(s, u) == TotalAt(t, u)
    decreases |s|
  {
    if |s| == 0 {
      assert |multiset(t)| == 0;
    } else {
      var s' := RemoveOne(s, s[0], u);
      var t' := RemoveOne(t, s[0], u);
      SameTotals(s', t', u);
    }
  }

  lemma {:induction false} TotalOfStrict(s: seq<Bucket>, i: nat)
    requires Strict(s) && i < |s|
    ensures TotalAt(s, s[i].ub) == s[i].count
  {
    var l, r := s[..i], s[i + 1..];
    assert s == l + [s[i]] + r;
    TotalConcat(l + [s[i]], r, s[i].ub);
    TotalAppend(l, s[i], s[i].ub);
    AbsentTotal(l, s[i].ub);
    AbsentTotal(r, s[i].ub);
  }

  lemma {:induction false} AbsentTotal(s: seq<Bucket>, u: Ext)
    requires forall i :: 0 <= i < |s| ==> s[i].ub != u
    ensures TotalAt(s, u) == 0.0
  {
    if |s| > 0 {
      AbsentTotal(s[1..], u);
    }
  }

  ghost predicate SameTable(s: seq<Bucket>, t: seq<Bucket>) {
    forall u :: (u in Bounds(s) <==> u in Bounds(t)) && TotalAt(s, u) == TotalAt(t, u)
  }

  lemma FirstBound(s: seq<Bucket>)
    requires |s| > 0
    ensures s[0].ub in Bounds(s)
  {}

  lemma LeastBound(s: seq<Bucket>, u: Ext)
    requires |s| > 0 && Strict(s) && NoNaN(s) && u in Bounds(s)
    ensures Le(s[0].ub, u)
  {
    var b :| b in s && b.ub == u;
  }

  lemma SameFirst(s: seq<Bucket>, t: seq<Bucket>)
    requires |s| > 0 && |t| > 0 && Strict(s) && Strict(t) && NoNaN(s) && NoNaN(t) && SameTable(s, t)
    ensures s[0] == t[0]
  {
    FirstBound(s);
    FirstBound(t);
    LeastBound(s, t[0].ub);
    LeastBound(t, s[0].ub);
    TotalOfStrict(s, 0);
    TotalOfStrict(t, 0);
  }

  /** Strictly ascending buckets are determined by their bounds and the total at each. */
  lemma {:induction false} StrictUnique(s: seq<Bucket>, t: seq<Bucket>)
    requires Strict(s) && Strict(t) && NoNaN(s) && NoNaN(t) && SameTable(s, t)
    ensures s == t
    decreases |s|
  {
    if |s| > 0 {
      FirstBound(s);
    }
    if |t| > 0 {
      FirstBound(t);
    }
    if |s| > 0 && |t| > 0 {
      SameFirst(s, t);
      var s', t' := s[1..], t[1..];
      forall u ensures (u in Bounds(s') <==> u in Bounds(t')) && TotalAt(s', u) == TotalAt(t', u) {
        RestBounds(s, u);
        RestBounds(t, u);
      }
      StrictUnique(s', t');
      assert s == [s[0]] + s' && t == [t[0]] + t';
    }
  }

  lemma RestBounds(s: seq<Bucket>, u: Ext)
    requires |s| > 0 && Strict(s)
    ensures u in Bounds(s[1..]) <==> u in Bounds(s) && u != s[0].ub
  {
    if u in Bounds(s) && u != s[0].ub {
      var b :| b in s && b.ub == u;
      assert b in s[1..];
    }
    if u in Bounds(s[1..]) {
      var b :| b in s[1..] && b.ub == u;
      assert b in s;
    }
  }

  /** How a sort orders buckets with equal bounds does not matter after merging. */
  lemma SortIrrelevant(s: seq<Bucket>, t: seq<Bucket>)
    requires multiset(s) == multiset(t) && |s| > 0 && |t| > 0
    requires SortedByBound(s) && SortedByBound(t) && NoNaN(s) && NoNaN(t)
    ensures Coalesced(s) == Coalesced(t)
  {
    CoalescedStrict(s, |s|);
    CoalescedStrict(t, |t|);
    assert s[..|s|] == s && t[..|t|] == t;
    forall u
      ensures u in Bounds(Coalesced(s)) <==> u in Bounds(Coalesced(t))
      ensures TotalAt(Coalesced(s), u) == TotalAt(Coalesced(t), u)
    {
      CoalescedTotals(s, |s|, u);
      CoalescedTotals(t, |t|, u);
      SameTotals(s, t, u);
      assert forall b :: b in s <==> b in multiset(s);
      assert forall b :: b in t <==> b in multiset(t);
    }
    StrictUnique(Coalesced(s), Coalesced(t));
  }

  // ---------------------------------------------------------------- forcing monotonic counts

  function Abs(x: real): real { if x < 0.0 then -x else x }

  /** Floats that differ by rounding only; minNormal is the least positive normal float. */
  predicate AlmostEqual(a: real, b: real, epsilon: real, minNormal: real) {
    || a == b
    || (var sum, diff := Abs(a) + Abs(b), Abs(a - b);
        if a == 0.0 || b == 0.0 || sum < minNormal then diff < epsilon * minNormal else diff < epsilon * sum)
  }

  const SMALL_DELTA_TOLERANCE: real := 0.000000000001

  /** A test for counts that differ only by rounding; nothing below depends on which test it is. */
  type Near = (real, real) -> bool

  /** The test used for quantiles. */
  function WithinTolerance(minNormal: real): Near {
    (a: real, b: real) => AlmostEqual(a, b, SMALL_DELTA_TOLERANCE, minNormal)
  }

  /** The count that replaces curr after prev. */
  function Corrected(near: Near, prev: real, curr: real): real {
    if near(prev, curr) || curr < prev then prev else curr
  }

  /** Corrected count of bucket i. */
  function CountAt(near: Near, s: seq<Bucket>, i: nat): real
    requires i < |s|
  {
    if i == 0 then s[0].count else Corrected(near, CountAt(near, s, i - 1), s[i].count)
  }

  /** The first n buckets with corrected counts. */
  function MonotonicTo(near: Near, s: seq<Bucket>, n: nat): (r: seq<Bucket>)
    requires n <= |s|
    ensures |r| == n && forall i :: 0 <= i < n ==> r[i] == Bucket(s[i].ub, CountAt(near, s, i))
  {
    if n == 0 then [] else MonotonicTo(near, s, n - 1) + [Bucket(s[n - 1].ub, CountAt(near, s, n - 1))]
  }

  function Monotonic(near: Near, s: seq<Bucket>): seq<Bucket> {
    MonotonicTo(near, s, |s|)
  }

  /** Some of the first n counts is corrected. */
  predicate Changed(near: Near, s: seq<Bucket>, n: nat)
    requires n <= |s|
  {
    n > 0 && (Changed(near, s, n - 1) || CountAt(near, s, n - 1) != s[n - 1].count)
  }

  lemma {:induction false} ChangedMeans(near: Near, s: seq<Bucket>, n: nat)
    requires n <= |s|
    ensures Changed(near, s, n) <==> MonotonicTo(near, s, n) != s[..n]
  {
    if n > 0 {
      ChangedMeans(near, s, n - 1);
      var m := MonotonicTo(near, s, n);
      assert m[..n - 1] == MonotonicTo(near, s, n - 1) && s[..n][..n - 1] == s[..n - 1];
      assert s[..n] == s[..n - 1] + [s[n - 1]];
    }
  }

  ghost predicate CountsAscend(s: seq<Bucket>) {
    forall i, j :: 0 <= i <= j < |s| ==> s[i].count <= s[j].count
  }

  /** Corrects the first n counts in place.  The flags say whether anything changed. */
  method EnsureMonotonicAndIgnoreSmallDeltas(a: array<Bucket>, n: nat, near: Near) returns (forced: bool, fixed: bool)
    requires 0 < n <= a.Length
    modifies a
    ensures a[..n] == Monotonic(near, old(a[..n]))
    ensures forced || fixed <==> Monotonic(near, old(a[..n])) != old(a[..n])
  {
    ghost var s := a[..n];
    forced, fixed := false, false;
    var prev := a[0].count;
    for i := 1 to n
      invariant prev == CountAt(near, s, i - 1)
      invariant a[..i] == MonotonicTo(near, s, i)
      invariant forall k :: i <= k < n ==> a[k] == s[k]
      invariant forced || fixed <==> Changed(near, s, i)
    {
      var curr := a[i].count;
      if curr == prev {
      } else if near(prev, curr) {
        a[i] := a[i].(count := prev);
        fixed := true;
      } else if curr < prev {
        a[i] := a[i].(count := prev);
        forced := true;
      } else {
        prev := curr;
      }
      assert a[..i + 1] == a[..i] + [a[i]];
    }
    ChangedMeans(near, s, n);
    assert s[..n] == s;
  }

  lemma {:induction false} CountOrder(near: Near, s: seq<Bucket>, i: nat, j: nat)
    requires i <= j < |s|
    ensures CountAt(near, s, i) <= CountAt(near, s, j)
  {
    if i < j {
      CountOrder(near, s, i, j - 1);
    }
  }

  /** The corrected counts ascend. */
  lemma MonotonicAscends(near: Near, s: seq<Bucket>)
    ensures CountsAscend(Monotonic(near, s))
  {
    forall i, j | 0 <= i <= j < |s| ensures Monotonic(near, s)[i].count <= Monotonic(near, s)[j].count {
      CountOrder(near, s, i, j);
    }
  }

  lemma {:induction false} CountIdempotent(near: Near, s: seq<Bucket>, i: nat)
    requires i < |s|
    ensures CountAt(near, Monotonic(near, s), i) == CountAt(near, s, i)
  {
    if i > 0 {
      CountIdempotent(near, s, i - 1);
    }
  }

  /** Correcting twice is correcting once. */
  lemma MonotonicIdempotent(near: Near, s: seq<Bucket>)
    ensures Monotonic(near, Monotonic(near, s)) == Monotonic(near, s)
  {
    forall i | 0 <= i < |s| {
      CountIdempotent(near, s, i);
    }
  }

  /** No count needs correction after the one before it. */
  ghost predicate Settled(near: Near, s: seq<Bucket>) {
    forall i :: 0 < i < |s| ==> SettledAt(near, s, i)
  }

  ghost predicate SettledAt(near: Near, s: seq<Bucket>, i: int)
    requires 0 < i < |s|
  {
    s[i].count == s[i - 1].count || (s[i].count > s[i - 1].count && !near(s[i - 1].count, s[i].count))
  }

  lemma {:induction false} SettledCount(near: Near, s: seq<Bucket>, i: nat)
    requires Settled(near, s) && i < |s|
    ensures CountAt(near, s, i) == s[i].count
  {
    if i > 0 {
      SettledCount(near, s, i - 1);
      assert SettledAt(near, s, i);
    }
  }

  /** Nothing is corrected exactly if every count equals the one before or exceeds it by more than
      rounding. */
  lemma MonotonicUnchangedIff(near: Near, s: seq<Bucket>)
    ensures Monotonic(near, s) == s <==> Settled(near, s)
  {
    if Settled(near, s) {
      forall i | 0 <= i < |s| ensures Monotonic(near, s)[i] == s[i] {
        SettledCount(near, s, i);
      }
    }
    if Monotonic(near, s) == s {
      forall i | 0 < i < |s| ensures SettledAt(near, s, i) {
        assert s[i] == Monotonic(near, s)[i] && s[i - 1] == Monotonic(near, s)[i - 1];
      }
    }
  }

  // ---------------------------------------------------------------- quantiles

  /** Buckets as BucketQuantile leaves them before it interpolates: finite ascending bounds below a
      final +Inf, and ascending non-negative counts. */
  ghost predicate Ready(s: seq<Bucket>) {
    && |s| > 0 && s[|s| - 1].ub == PosInf && Strict(s) && CountsAscend(s) && s[0].count >= 0.0
    && forall i :: 0 <= i < |s| - 1 ==> s[i].ub.Fin?
  }

  /** The first bucket below the last whose count reaches rank, or the last. */
  function BucketOf(s: seq<Bucket>, rank: real, n: nat): (b: nat)
    requires n < |s|
    ensures b <= n
  {
    if n == 0 || s[n - 1].count < rank then n else BucketOf(s, rank, n - 1)
  }

  lemma {:induction false} BucketOfIsFirst(s: seq<Bucket>, rank: real, n: nat)
    requires n < |s| && CountsAscend(s)
    ensures
      var b := BucketOf(s, rank, n);
      (forall i :: 0 <= i < b ==> s[i].count < rank) && (b < n ==> s[b].count >= rank)
  {
    if n > 0 && s[n - 1].count >= rank {
      BucketOfIsFirst(s, rank, n - 1);
    }
  }

  /** Start of bucket b: the bound before it, or zero. */
  function StartOf(s: seq<Bucket>, b: nat): real
    requires b < |s| && (b > 0 ==> s[b - 1].ub.Fin?)
  {
    if b > 0 then s[b - 1].ub.v else 0.0
  }

  function CountBelow(s: seq<Bucket>, b: nat): real
    requires b < |s|
  {
    if b > 0 then s[b - 1].count else 0.0
  }

  /** Linear interpolation of rank in bucket b. */
  function Interpolated(s: seq<Bucket>, b: nat, rank: real): real
    requires b < |s| && s[b].ub.Fin? && (b > 0 ==> s[b - 1].ub.Fin?) && s[b].count != CountBelow(s, b)
  {
    StartOf(s, b) + (s[b].ub.v - StartOf(s, b)) * ((rank - CountBelow(s, b)) / (s[b].count - CountBelow(s, b)))
  }

  /** The value at which that many observations are reached. */
  function ValueAtRank(s: seq<Bucket>, rank: real): Ext
    requires |s| >= 2 && forall i :: 0 <= i < |s| - 1 ==> s[i].ub.Fin?
  {
    var n := |s| - 1;
    var b := BucketOf(s, rank, n);
    if b == n then s[n - 1].ub
    else if b == 0 && s[0].ub.v <= 0.0 then s[0].ub
    else if s[b].count == CountBelow(s, b) then NaN
    else Fin(Interpolated(s, b, rank))
  }

  /** The quantile of prepared buckets. */
  function QuantileOf(s: seq<Bucket>, q: real): Ext
    requires |s| > 0 && forall i :: 0 <= i < |s| - 1 ==> s[i].ub.Fin?
  {
    if |s| < 2 || s[|s| - 1].count == 0.0 then NaN else ValueAtRank(s, q * s[|s| - 1].count)
  }

  ghost predicate FiniteBounds(s: seq<Bucket>) {
    forall i :: 0 <= i < |s| ==> s[i].ub.Fin? || s[i].ub.PosInf?
  }

  ghost predicate NonNegativeCounts(s: seq<Bucket>) {
    forall i :: 0 <= i < |s| ==> s[i].count >= 0.0
  }

  /** Sorted, merged and corrected buckets. */
  function Prepared(near: Near, s: seq<Bucket>): seq<Bucket>
    requires |s| > 0
  {
    Monotonic(near, Coalesced(Sort(s)))
  }

  lemma {:induction false} MergedFiniteAndNonNegative(s: seq<Bucket>, n: nat)
    requires 0 < n <= |s| && FiniteBounds(s) && NonNegativeCounts(s)
    ensures FiniteBounds(MergedTo(s, n).All()) && NonNegativeCounts(MergedTo(s, n).All())
  {
    if n > 1 {
      MergedFiniteAndNonNegative(s, n - 1);
      var m, r := MergedTo(s, n - 1), MergedTo(s, n).All();
      forall i | 0 <= i < |r| ensures (r[i].ub.Fin? || r[i].ub.PosInf?) && r[i].count >= 0.0 {
        assert m.All()[|m.done|] == m.last;
        if i < |m.All()| {
          assert i < |m.done| ==> r[i] == m.All()[i];
        }
      }
    }
  }

  lemma SortKeeps(s: seq<Bucket>)
    requires FiniteBounds(s) && NonNegativeCounts(s)
    ensures FiniteBounds(Sort(s)) && NonNegativeCounts(Sort(s))
  {
    forall i | 0 <= i < |Sort(s)| ensures (Sort(s)[i].ub.Fin? || Sort(s)[i].ub.PosInf?) && Sort(s)[i].count >= 0.0 {
      assert Sort(s)[i] in multiset(s);
    }
  }

  ghost predicate Bounded(c: seq<Bucket>) {
    && |c| > 0 && Strict(c) && c[|c| - 1].ub == PosInf && c[0].count >= 0.0
    && forall i :: 0 <= i < |c| - 1 ==> c[i].ub.Fin?
  }

  lemma CoalescedBounded(t: seq<Bucket>)
    requires |t| > 0 && FiniteBounds(t) && NonNegativeCounts(t) && SortedByBound(t) && t[|t| - 1].ub == PosInf
    ensures Bounded(Coalesced(t))
  {
    CoalescedStrict(t, |t|);
    MergedFiniteAndNonNegative(t, |t|);
    var c := Coalesced(t);
    assert c[|c| - 1] == MergedTo(t, |t|).last;
    forall i | 0 <= i < |c| - 1 ensures c[i].ub.Fin? {
      assert Lt(c[i].ub, c[|c| - 1].ub);
    }
  }

  lemma MonotonicReady(near: Near, c: seq<Bucket>)
    requires Bounded(c)
    ensures Ready(Monotonic(near, c))
  {
    MonotonicAscends(near, c);
    assert CountAt(near, c, 0) == c[0].count;
  }

  /** Preparation makes the buckets ready for interpolation whenever the highest bound is +Inf. */
  lemma PreparedReady(near: Near, s: seq<Bucket>)
    requires |s| > 0 && FiniteBounds(s) && NonNegativeCounts(s) && Sort(s)[|s| - 1].ub == PosInf
    ensures Ready(Prepared(near, s))
  {
    SortSorts(s);
    SortKeeps(s);
    CoalescedBounded(Sort(s));
    MonotonicReady(near, Coalesced(Sort(s)));
  }

  /** The quantile q of the given buckets. */
  method BucketQuantile(q: Ext, buckets: seq<Bucket>, near: Near) returns (quantile: Ext, forced: bool, fixed: bool)
    requires |buckets| > 0 && FiniteBounds(buckets) && NonNegativeCounts(buckets)
    ensures q.NaN? ==> quantile.NaN?
    ensures Lt(q, Fin(0.0)) ==> quantile == NegInf
    ensures Lt(Fin(1.0), q) ==> quantile == PosInf
    ensures q.Fin? && 0.0 <= q.v <= 1.0 ==>
      if Sort(buckets)[|buckets| - 1].ub != PosInf then quantile.NaN?
      else Ready(Prepared(near, buckets)) && quantile == QuantileOf(Prepared(near, buckets), q.v)
  {
    forced, fixed := false, false;
    if q.NaN? {
      return NaN, forced, fixed;
    } else if Lt(q, Fin(0.0)) {
      return NegInf, forced, fixed;
    } else if Lt(Fin(1.0), q) {
      return PosInf, forced, fixed;
    }
    var sorted := Sort(buckets);
    if sorted[|sorted| - 1].ub != PosInf {
      return NaN, forced, fixed;
    }
    var a := NewBuckets(sorted);
    var n := CoalesceBuckets(a);
    forced, fixed := EnsureMonotonicAndIgnoreSmallDeltas(a, n, near);
    PreparedReady(near, buckets);
    quantile := QuantileOf(a[..n], q.v);
  }

  // ---------------------------------------------------------------- quantiles are monotone

  lemma Ratio(x: real, y: real)
    requires 0.0 <= x <= y && y > 0.0
    ensures 0.0 <= x / y <= 1.0
  {}

  lemma RatioOrder(x: real, x': real, y: real)
    requires x <= x' && y > 0.0
    ensures x / y <= x' / y
  {}

  lemma ScaleBounds(d: real, f: real)
    requires d >= 0.0 && 0.0 <= f <= 1.0
    ensures 0.0 <= d * f <= d
  {}

  lemma ScaleOrder(d: real, f: real, f': real)
    requires d >= 0.0 && f <= f'
    ensures d * f <= d * f'
  {}

  /** Rank falls strictly inside what bucket b adds to the count. */
  ghost predicate RankIn(s: seq<Bucket>, b: nat, rank: real)
    requires b < |s|
  {
    CountBelow(s, b) < rank <= s[b].count
  }

  /** Bucket b is interpolated: neither the last nor a first bucket without a known start. */
  ghost predicate Interpolates(s: seq<Bucket>, b: nat) {
    b < |s| - 1 && s[b].ub.Fin? && (b > 0 ==> s[b - 1].ub.Fin?) && StartOf(s, b) < s[b].ub.v
  }

  lemma InterpolatedBounds(s: seq<Bucket>, b: nat, rank: real)
    requires Interpolates(s, b) && RankIn(s, b, rank)
    ensures StartOf(s, b) <= Interpolated(s, b, rank) <= s[b].ub.v
  {
    Ratio(rank - CountBelow(s, b), s[b].count - CountBelow(s, b));
    ScaleBounds(s[b].ub.v - StartOf(s, b), (rank - CountBelow(s, b)) / (s[b].count - CountBelow(s, b)));
  }

  lemma InterpolatedOrder(s: seq<Bucket>, b: nat, rank: real, rank': real)
    requires Interpolates(s, b) && RankIn(s, b, rank) && RankIn(s, b, rank') && rank <= rank'
    ensures Interpolated(s, b, rank) <= Interpolated(s, b, rank')
  {
    var below, width := CountBelow(s, b), s[b].count - CountBelow(s, b);
    RatioOrder(rank - below, rank' - below, width);
    ScaleOrder(s[b].ub.v - StartOf(s, b), (rank - below) / width, (rank' - below) / width);
  }

  /** Where the rank of a quantile falls. */
  lemma BucketOfRank(s: seq<Bucket>, rank: real) returns (b: nat)
    requires Ready(s) && |s| >= 2 && rank > 0.0
    ensures b == BucketOf(s, rank, |s| - 1) <= |s| - 1
    ensures forall i :: 0 <= i < b ==> s[i].count < rank
    ensures b < |s| - 1 ==> RankIn(s, b, rank) && (Interpolates(s, b) <==> !(b == 0 && s[0].ub.v <= 0.0))
  {
    b := BucketOf(s, rank, |s| - 1);
    BucketOfIsFirst(s, rank, |s| - 1);
    if 0 < b < |s| - 1 {
      assert Lt(s[b - 1].ub, s[b].ub);
    }
  }

  /** The finite value of a quantile, bucket by bucket. */
  function ValueIn(s: seq<Bucket>, b: nat, rank: real): real
    requires Ready(s) && |s| >= 2 && b < |s| && (b < |s| - 1 ==> RankIn(s, b, rank))
  {
    if b == |s| - 1 then s[b - 1].ub.v
    else if b == 0 && s[0].ub.v <= 0.0 then s[0].ub.v
    else Interpolated(s, b, rank)
  }

  /** Bucket b is where rank falls. */
  ghost predicate Located(s: seq<Bucket>, b: nat, rank: real)
    requires Ready(s)
  {
    && b < |s| && (forall i :: 0 <= i < b ==> s[i].count < rank)
    && (b < |s| - 1 ==> RankIn(s, b, rank) && (Interpolates(s, b) <==> !(b == 0 && s[0].ub.v <= 0.0)))
  }

  lemma RankValue(s: seq<Bucket>, rank: real) returns (b: nat)
    requires Ready(s) && |s| >= 2 && rank > 0.0
    ensures Located(s, b, rank) && b == BucketOf(s, rank, |s| - 1) && ValueAtRank(s, rank) == Fin(ValueIn(s, b, rank))
  {
    b := BucketOfRank(s, rank);
  }

  /** A value found in bucket b lies above every bound before it and not above its own. */
  lemma ValueBounds(s: seq<Bucket>, b: nat, rank: real)
    requires Ready(s) && |s| >= 2 && Located(s, b, rank)
    ensures b < |s| - 1 ==> ValueIn(s, b, rank) <= s[b].ub.v
    ensures b > 0 ==> s[b - 1].ub.v <= ValueIn(s, b, rank)
  {
    if Interpolates(s, b) {
      InterpolatedBounds(s, b, rank);
    }
  }

  lemma BoundOrder(s: seq<Bucket>, i: nat, j: nat)
    requires Ready(s) && i <= j < |s| - 1
    ensures s[i].ub.v <= s[j].ub.v
  {
    if i < j {
      assert Lt(s[i].ub, s[j].ub);
    }
  }

  lemma ValueOrder(s: seq<Bucket>, b: nat, rank: real, b': nat, rank': real)
    requires Ready(s) && |s| >= 2 && Located(s, b, rank) && Located(s, b', rank') && rank <= rank'
    ensures ValueIn(s, b, rank) <= ValueIn(s, b', rank')
  {
    if b == b' {
      if Interpolates(s, b) {
        InterpolatedOrder(s, b, rank, rank');
      }
    } else if b < b' {
      ValueBounds(s, b, rank);
      ValueBounds(s, b', rank');
      BoundOrder(s, b, b' - 1);
    }
  }

  lemma RankMonotone(s: seq<Bucket>, rank: real, rank': real)
    requires Ready(s) && |s| >= 2 && 0.0 < rank <= rank'
    ensures ValueAtRank(s, rank).Fin? && ValueAtRank(s, rank').Fin?
    ensures ValueAtRank(s, rank).v <= ValueAtRank(s, rank').v
  {
    var b := RankValue(s, rank);
    var b' := RankValue(s, rank');
    ValueOrder(s, b, rank, b', rank');
  }

  lemma RankOrder(q: real, q': real, count: real)
    requires 0.0 < q <= q' && count > 0.0
    ensures 0.0 < q * count <= q' * count
  {}

  /** Larger q never gives a smaller quantile. */
  lemma QuantileMonotone(s: seq<Bucket>, q: real, q': real)
    requires Ready(s) && |s| >= 2 && s[|s| - 1].count > 0.0 && 0.0 < q <= q' <= 1.0
    ensures QuantileOf(s, q).Fin? && QuantileOf(s, q').Fin? && QuantileOf(s, q).v <= QuantileOf(s, q').v
  {
    RankOrder(q, q', s[|s| - 1].count);
    RankMonotone(s, q * s[|s| - 1].count, q' * s[|s| - 1].count);
  }

  /** The same from the raw buckets on: whatever their order, repeated bounds and counts that go down. */
  lemma BucketQuantileMonotone(near: Near, buckets: seq<Bucket>, q: real, q': real)
    requires |buckets| > 0 && FiniteBounds(buckets) && NonNegativeCounts(buckets) && 0.0 < q <= q' <= 1.0
    requires Sort(buckets)[|buckets| - 1].ub == PosInf
    requires
      var s := Prepared(near, buckets);
      |s| >= 2 && s[|s| - 1].count > 0.0
    ensures
      var s := Prepared(near, buckets);
      Ready(s) && QuantileOf(s, q).Fin? && QuantileOf(s, q').Fin? && QuantileOf(s, q).v <= QuantileOf(s, q').v
  {
    PreparedReady(near, buckets);
    QuantileMonotone(Prepared(near, buckets), q, q');
  }

  // ---------------------------------------------------------------- fractions

  /** Lower bound of bucket i for fractions: -Inf before a first bucket that ends at or below zero. */
  function LowerBound(s: seq<Bucket>, i: nat): Ext
    requires i < |s|
  {
    if i > 0 then s[i - 1].ub else if Le(s[0].ub, Fin(0.0)) then NegInf else Fin(0.0)
  }

  /** Observations up to v in the bucket that contains v. */
  function RankInside(s: seq<Bucket>, i: nat, v: Ext): real
    requires i < |s| && Lt(LowerBound(s, i), v) && Lt(v, s[i].ub)
  {
    var lower := LowerBound(s, i);
    if lower.NegInf? then s[i].count
    else if s[i].ub.PosInf? then CountBelow(s, i)
    else CountBelow(s, i) + (s[i].count - CountBelow(s, i)) * (v.v - lower.v) / (s[i].ub.v - lower.v)
  }

  /** Observations at or below v, looking at buckets from i on; all of them if no bucket decides. */
  function RankFrom(s: seq<Bucket>, v: Ext, i: nat): real
    requires 0 < |s| && i <= |s|
    decreases |s| - i
  {
    var all := s[|s| - 1].count;
    if i == |s| then all
    else if Le(v, LowerBound(s, i)) then Cap(CountBelow(s, i), all)
    else if Lt(LowerBound(s, i), v) && Lt(v, s[i].ub) then Cap(RankInside(s, i, v), all)
    else RankFrom(s, v, i + 1)
  }

  function Cap(x: real, all: real): real { if x > all then all else x }

  /** The fraction of observations between lower and upper, for merged buckets. */
  function FractionOf(s: seq<Bucket>, lower: Ext, upper: Ext): Ext
    requires |s| > 0
  {
    var all := s[|s| - 1].count;
    if all == 0.0 || lower.NaN? || upper.NaN? then NaN
    else if Le(upper, lower) then Fin(0.0)
    else Fin((RankFrom(s, upper, 0) - RankFrom(s, lower, 0)) / all)
  }

  /** State of one of the two searches that BucketFraction runs in a single loop. */
  ghost predicate Searching(s: seq<Bucket>, v: Ext, i: nat, found: bool, rank: real)
    requires 0 < |s| && i <= |s|
  {
    RankFrom(s, v, 0) == if found then Cap(rank, s[|s| - 1].count) else RankFrom(s, v, i)
  }

  method BucketFraction(lower: Ext, upper: Ext, buckets: seq<Bucket>) returns (fraction: Ext)
    requires |buckets| > 0 && FiniteBounds(buckets)
    ensures
      var sorted := Sort(buckets);
      fraction == if sorted[|sorted| - 1].ub != PosInf then NaN else FractionOf(Coalesced(sorted), lower, upper)
  {
    var sorted := Sort(buckets);
    if sorted[|sorted| - 1].ub != PosInf {
      return NaN;
    }
    var s := Merge(sorted);
    fraction := MergedFraction(s, lower, upper);
  }

  /** The sorted buckets, merged. */
  method Merge(sorted: seq<Bucket>) returns (s: seq<Bucket>)
    requires |sorted| > 0
    ensures s == Coalesced(sorted) && |s| > 0
  {
    var a := NewBuckets(sorted);
    var n := CoalesceBuckets(a);
    s := a[..n];
  }

  method NewBuckets(s: seq<Bucket>) returns (a: array<Bucket>)
    ensures fresh(a) && a[..] == s
  {
    a := new Bucket[|s|](i requires 0 <= i < |s| => s[i]);
  }

  method MergedFraction(s: seq<Bucket>, lower: Ext, upper: Ext) returns (fraction: Ext)
    requires |s| > 0
    ensures fraction == FractionOf(s, lower, upper)
  {
    var all := s[|s| - 1].count;
    if all == 0.0 || lower.NaN? || upper.NaN? {
      return NaN;
    }
    if Le(upper, lower) {
      return Fin(0.0);
    }
    var lowerRank, upperRank := SearchBoth(s, lower, upper);
    fraction := Fin((upperRank - lowerRank) / all);
  }

  /** One pass over the buckets that finds the ranks of both values. */
  method SearchBoth(s: seq<Bucket>, lower: Ext, upper: Ext) returns (lowerRank: real, upperRank: real)
    requires |s| > 0
    ensures lowerRank == RankFrom(s, lower, 0) && upperRank == RankFrom(s, upper, 0)
  {
    var all := s[|s| - 1].count;
    var lowerSet, upperSet := false, false;
    lowerRank, upperRank := 0.0, 0.0;
    for i := 0 to |s|
      invariant Searching(s, lower, i, lowerSet, lowerRank) && Searching(s, upper, i, upperSet, upperRank)
    {
      var rank, bound := CountBelow(s, i), LowerBound(s, i);
      if !lowerSet && Le(lower, bound) {
        lowerRank, lowerSet := rank, true;
      }
      if !upperSet && Le(upper, bound) {
        upperRank, upperSet := rank, true;
      }
      if lowerSet && upperSet {
        break;
      }
      if !lowerSet && Lt(bound, lower) && Lt(lower, s[i].ub) {
        lowerRank, lowerSet := RankInside(s, i, lower), true;
      }
      if !upperSet && Lt(bound, upper) && Lt(upper, s[i].ub) {
        upperRank, upperSet := RankInside(s, i, upper), true;
      }
      if lowerSet && upperSet {
        break;
      }
    }
    if !lowerSet || lowerRank > all {
      lowerRank := all;
    }
    if !upperSet || upperRank > all {
      upperRank := all;
    }
  }

  // ---------------------------------------------------------------- fraction undoes quantile

  lemma Undo(w: real, d: real, f: real)
    requires d > 0.0
    ensures w * (d * f) / d == w * f
  {
    assert w * (d * f) == d * (w * f);
  }

  lemma Positive(x: real, y: real)
    requires x > 0.0 && y > 0.0
    ensures x / y > 0.0 && x * y > 0.0 && (x / y) * y == x
  {}

  /** Interpolating a rank into a value and the value back gives the rank. */
  lemma RankOfInterpolated(s: seq<Bucket>, b: nat, rank: real)
    requires Interpolates(s, b) && RankIn(s, b, rank)
    ensures
      var v, start, below := Interpolated(s, b, rank), StartOf(s, b), CountBelow(s, b);
      && v > start && (v == s[b].ub.v ==> rank == s[b].count)
      && below + (s[b].count - below) * (v - start) / (s[b].ub.v - start) == rank
  {
    var start, below := StartOf(s, b), CountBelow(s, b);
    var w, d := s[b].count - below, s[b].ub.v - start;
    var f := (rank - below) / w;
    Positive(rank - below, w);
    Positive(d, f);
    Undo(w, d, f);
    assert Interpolated(s, b, rank) == start + d * f;
    if d * f == d {
      assert f == 1.0;
    }
  }

  /** Buckets before b do not decide about a value above their bounds. */
  lemma {:induction false} SkipTo(s: seq<Bucket>, v: real, i: nat, b: nat)
    requires Ready(s) && i <= b < |s|
    requires b > 0 ==> s[b - 1].ub.Fin? && s[b - 1].ub.v < v
    ensures RankFrom(s, Fin(v), i) == RankFrom(s, Fin(v), b)
    decreases b - i
  {
    if i < b {
      BoundOrder(s, i, b - 1);
      if i > 0 { BoundOrder(s, i - 1, b - 1); }
      SkipTo(s, v, i + 1, b);
    }
  }

  lemma DecidedInside(s: seq<Bucket>, b: nat, v: Ext)
    requires b < |s| && Lt(LowerBound(s, b), v) && Lt(v, s[b].ub)
    ensures RankFrom(s, v, b) == Cap(RankInside(s, b, v), s[|s| - 1].count)
  {}

  lemma DecidedAtBound(s: seq<Bucket>, b: nat, v: real)
    requires b + 1 < |s| && s[b].ub == Fin(v) && Lt(LowerBound(s, b), Fin(v))
    ensures RankFrom(s, Fin(v), b) == Cap(s[b].count, s[|s| - 1].count)
  {
    assert LowerBound(s, b + 1) == Fin(v);
  }

  lemma RankInsideInterpolated(s: seq<Bucket>, b: nat, rank: real)
    requires Interpolates(s, b) && RankIn(s, b, rank) && Interpolated(s, b, rank) < s[b].ub.v
    ensures Lt(LowerBound(s, b), Fin(Interpolated(s, b, rank)))
    ensures RankInside(s, b, Fin(Interpolated(s, b, rank))) == rank
  {
    RankOfInterpolated(s, b, rank);
    assert LowerBound(s, b) == Fin(StartOf(s, b));
  }

  lemma RankAtValue(s: seq<Bucket>, b: nat, rank: real)
    requires Ready(s) && |s| >= 2 && Located(s, b, rank) && Interpolates(s, b) && rank <= s[|s| - 1].count
    ensures RankFrom(s, Fin(Interpolated(s, b, rank)), 0) == rank
  {
    var v := Interpolated(s, b, rank);
    RankOfInterpolated(s, b, rank);
    InterpolatedBounds(s, b, rank);
    SkipTo(s, v, 0, b);
    if v == s[b].ub.v {
      assert LowerBound(s, b) == Fin(StartOf(s, b));
      DecidedAtBound(s, b, v);
    } else {
      RankInsideInterpolated(s, b, rank);
      DecidedInside(s, b, Fin(v));
    }
  }

  /** v is the value at which rank of all observations are reached, and rank is the share q of all. */
  ghost predicate AtShare(s: seq<Bucket>, q: real, rank: real, v: Ext)
    requires |s| > 0
  {
    var all := s[|s| - 1].count;
    all > 0.0 && 0.0 < rank <= all && rank / all == q && RankFrom(s, NegInf, 0) == 0.0 && v.Fin? && RankFrom(s, v, 0) == rank
  }

  lemma FractionAtRank(s: seq<Bucket>, q: real, rank: real, v: Ext)
    requires |s| > 0 && AtShare(s, q, rank, v)
    ensures FractionOf(s, NegInf, v) == Fin(q)
  {}

  lemma ValueAtShare(s: seq<Bucket>, q: real, rank: real)
    requires Ready(s) && |s| >= 2 && s[|s| - 1].count > 0.0 && 0.0 < rank <= s[|s| - 1].count && rank / s[|s| - 1].count == q
    requires Interpolates(s, BucketOf(s, rank, |s| - 1))
    ensures AtShare(s, q, rank, ValueAtRank(s, rank))
  {
    var b := RankValue(s, rank);
    RankAtValue(s, b, rank);
  }

  lemma ShareOfAll(q: real, all: real)
    requires 0.0 < q <= 1.0 && all > 0.0
    ensures 0.0 < q * all <= all && q * all / all == q
  {}

  lemma QuantileByRank(s: seq<Bucket>, q: real, rank: real)
    requires |s| >= 2 && s[|s| - 1].count != 0.0 && rank == q * s[|s| - 1].count
    requires forall i :: 0 <= i < |s| - 1 ==> s[i].ub.Fin?
    ensures QuantileOf(s, q) == ValueAtRank(s, rank)
  {}

  /** The fraction of observations at or below the quantile q is q, whenever the quantile was
      interpolated. */
  lemma FractionOfQuantile(s: seq<Bucket>, q: real, rank: real)
    requires Ready(s) && |s| >= 2 && s[|s| - 1].count > 0.0 && 0.0 < q <= 1.0
    requires rank == q * s[|s| - 1].count && Interpolates(s, BucketOf(s, rank, |s| - 1))
    ensures FractionOf(s, NegInf, QuantileOf(s, q)) == Fin(q)
  {
    ShareOfAll(q, s[|s| - 1].count);
    ValueAtShare(s, q, rank);
    QuantileByRank(s, q, rank);
    FractionAtRank(s, q, rank, QuantileOf(s, q));
  }

  /** For raw buckets whose counts need no correction, the fraction that BucketFraction computes for
      (-Inf, BucketQuantile(q)) is q. */
  lemma FractionUndoesQuantile(near: Near, buckets: seq<Bucket>, s: seq<Bucket>, q: real, rank: real)
    requires |buckets| > 0 && FiniteBounds(buckets) && NonNegativeCounts(buckets) && 0.0 < q <= 1.0
    requires Sort(buckets)[|buckets| - 1].ub == PosInf
    requires s == Prepared(near, buckets) == Coalesced(Sort(buckets))
    requires |s| >= 2 && s[|s| - 1].count > 0.0
    requires rank == q * s[|s| - 1].count && Interpolates(s, BucketOf(s, rank, |s| - 1))
    ensures Ready(s) && FractionOf(s, NegInf, QuantileOf(s, q)) == Fin(q)
  {
    PreparedReady(near, buckets);
    FractionOfQuantile(s, q, rank);
  }

  /** With the tolerance the quantile functions use: the fraction undoes the quantile whenever the
      merged counts are apart by more than that tolerance or equal. */
  lemma FractionUndoesTolerantQuantile(minNormal: real, buckets: seq<Bucket>, s: seq<Bucket>, q: real, rank: real)
    requires |buckets| > 0 && FiniteBounds(buckets) && NonNegativeCounts(buckets) && 0.0 < q <= 1.0
    requires Sort(buckets)[|buckets| - 1].ub == PosInf
    requires s == Coalesced(Sort(buckets)) && Settled(WithinTolerance(minNormal), s)
    requires |s| >= 2 && s[|s| - 1].count > 0.0
    requires rank == q * s[|s| - 1].count && Interpolates(s, BucketOf(s, rank, |s| - 1))
    ensures Ready(s) && FractionOf(s, NegInf, QuantileOf(s, q)) == Fin(q)
  {
    var near := WithinTolerance(minNormal);
    MonotonicUnchangedIff(near, s);
    PreparedReady(near, buckets);
    FractionUndoesQuantile(near, buckets, s, q, rank);
  }
}
