/** The time bounds of a query exactly: those of a selector under any subqueries, those of an expression
    with several parts, and that they are no wider than what is read. */
module TimeLaws {
  import opened Basics
  import opened Grid
  import opened TimeBounds

  /** The times at which a selector without @ under these subqueries is evaluated, for a query from start to
      end: each subquery moves them back by its offset and reaches back by its range, from its @
      timestamp if it has one. */
  ghost function Around(start: int, end: int, subqueries: seq<Node>): (int, int)
    requires forall i :: 0 <= i < |subqueries| ==> subqueries[i].Subquery?
    decreases |subqueries|
  {
    if |subqueries| == 0 then (start, end)
    else
      var q := subqueries[0];
      var from, to := if q.at.Some? then q.at.value else start, if q.at.Some? then q.at.value else end;
      Around(from - q.offset - q.range, to - q.offset, subqueries[1..])
  }

  /** The expression in which the subqueries stand around n, the first outermost. */
  ghost function Nested(subqueries: seq<Node>, n: Node): Node
    requires forall i :: 0 <= i < |subqueries| ==> subqueries[i].Subquery?
  {
    if |subqueries| == 0 then n else subqueries[0].(expr := Nested(subqueries[1..], n))
  }

  /** What a selector needs if it is evaluated from one time to another: instant selectors look back by the
      lookback, without the instant that far back, and range selectors by their range; anchored ranges
      look back further by the lookback, and smoothed selectors ahead by as much. */
  ghost predicate Needs(n: Node, lookback: nat, from: int, to: int, r: Interval)
    requires Selector(n)
  {
    if n.Matrix? && n.range > 0 then
      match n.mode
      case Standard => r == Interval(from - n.offset - n.range + 1, to - n.offset)
      case Anchored => r == Interval(from - n.offset - n.range - lookback + 1, to - n.offset)
      case Smoothed => r == Interval(from - n.offset - n.range - lookback + 1, to - n.offset + lookback)
    else if n.mode.Smoothed? then r == Interval(from - n.offset - lookback + 1, to - n.offset + lookback)
    else r == Interval(from - n.offset - lookback + 1, to - n.offset)
  }

  lemma SelectorNeeds(s: Stmt, n: Node, path: seq<Node>)
    requires Selector(n)
    ensures
      var r := Inspect(s, n, path, None);
      var reach := PathInterval(s, path);
      r.Some? && if n.at.Some? then Needs(n, s.lookback, n.at.value, n.at.value, r.value)
                 else Needs(n, s.lookback, reach.lo, reach.hi, r.value)
  {
    PathStep(s, path, n);
  }

  lemma {:induction false} NestedNeeds(s: Stmt, subqueries: seq<Node>, n: Node, path: seq<Node>)
    requires Selector(n) && forall i :: 0 <= i < |subqueries| ==> subqueries[i].Subquery?
    ensures
      var r := Inspect(s, Nested(subqueries, n), path, None);
      var (from, to) := Around(PathInterval(s, path).lo, PathInterval(s, path).hi, subqueries);
      r.Some? && if n.at.Some? then Needs(n, s.lookback, n.at.value, n.at.value, r.value)
                 else Needs(n, s.lookback, from, to, r.value)
    decreases |subqueries|
  {
    if |subqueries| == 0 {
      SelectorNeeds(s, n, path);
    } else {
      var q := Nested(subqueries, n);
      PathStep(s, path, q);
      NestedNeeds(s, subqueries[1..], n, path + [q]);
    }
  }

  /** The bounds of a query with one selector, under any number of subqueries. */
  lemma BoundsOfSelector(s: Stmt, subqueries: seq<Node>, n: Node)
    requires Selector(n) && forall i :: 0 <= i < |subqueries| ==> subqueries[i].Subquery?
    ensures
      var r := FindMinMaxTime(s, Nested(subqueries, n));
      var (from, to) := Around(s.start, s.end, subqueries);
      if n.at.Some? then Needs(n, s.lookback, n.at.value, n.at.value, r) else Needs(n, s.lookback, from, to, r)
  {
    NestedNeeds(s, subqueries, n, []);
    assert PathInterval(s, []) == Interval(s.start, s.end);
  }

  // ---------------------------------------------------------------- expressions with several parts

  ghost function Union(a: Option<Interval>, b: Option<Interval>): Option<Interval> {
    if a.None? then b
    else if b.None? then a
    else Some(Interval(if a.value.lo <= b.value.lo then a.value.lo else b.value.lo,
                       if a.value.hi >= b.value.hi then a.value.hi else b.value.hi))
  }

  lemma {:induction false} InspectIsUnion(s: Stmt, n: Node, path: seq<Node>, acc: Option<Interval>)
    ensures Inspect(s, n, path, acc) == Union(acc, Inspect(s, n, path, None))
    decreases n
  {
    match n
    case Subquery(x, _, _, _, _) => InspectIsUnion(s, x, path + [n], acc);
    case Hoisted(x) => InspectIsUnion(s, x, path + [n], acc);
    case Other(children) => AllIsUnion(s, n, |children|, path + [n], acc);
    case _ =>
  }

  lemma {:induction false} AllIsUnion(s: Stmt, n: Node, k: nat, path: seq<Node>, acc: Option<Interval>)
    requires n.Other? && k <= |n.children|
    ensures InspectAll(s, n, k, path, acc) == Union(acc, InspectAll(s, n, k, path, None))
    decreases n, k
  {
    if k > 0 {
      AllIsUnion(s, n, k - 1, path, acc);
      InspectIsUnion(s, n.children[k - 1], path, InspectAll(s, n, k - 1, path, acc));
      InspectIsUnion(s, n.children[k - 1], path, InspectAll(s, n, k - 1, path, None));
    }
  }

  lemma SameStep(s: Stmt, n: Node, path: seq<Node>, other: seq<Node>)
    requires PathInterval(s, path) == PathInterval(s, other)
    ensures PathInterval(s, path + [n]) == PathInterval(s, other + [n])
  {
    PathStep(s, path, n);
    PathStep(s, other, n);
  }

  lemma SameRange(s: Stmt, n: Node, path: seq<Node>, other: seq<Node>, acc: Option<Interval>)
    requires Selector(n) && PathInterval(s, path) == PathInterval(s, other)
    ensures Inspect(s, n, path, acc) == Inspect(s, n, other, acc)
  {
    SameStep(s, n, path, other);
  }

  /** Only the subqueries on the path matter. */
  lemma {:induction false} SamePath(s: Stmt, n: Node, path: seq<Node>, other: seq<Node>, acc: Option<Interval>)
    requires PathInterval(s, path) == PathInterval(s, other)
    ensures Inspect(s, n, path, acc) == Inspect(s, n, other, acc)
    decreases n
  {
    SameStep(s, n, path, other);
    match n
    case Subquery(x, _, _, _, _) => SamePath(s, x, path + [n], other + [n], acc);
    case Hoisted(x) => SamePath(s, x, path + [n], other + [n], acc);
    case Other(children) => SamePathAll(s, n, |children|, path + [n], other + [n], acc);
    case _ => SameRange(s, n, path, other, acc);
  }

  lemma {:induction false} SamePathAll(s: Stmt, n: Node, k: nat, path: seq<Node>, other: seq<Node>, acc: Option<Interval>)
    requires n.Other? && k <= |n.children| && PathInterval(s, path) == PathInterval(s, other)
    ensures InspectAll(s, n, k, path, acc) == InspectAll(s, n, k, other, acc)
    decreases n, k
  {
    if k > 0 {
      SamePathAll(s, n, k - 1, path, other, acc);
      SamePath(s, n.children[k - 1], path, other, InspectAll(s, n, k - 1, path, acc));
    }
  }

  /** The bounds of an expression, if it selects anything. */
  ghost function Bounds(s: Stmt, n: Node): Option<Interval> {
    Inspect(s, n, [], None)
  }

  ghost function UnionOf(s: Stmt, children: seq<Node>): Option<Interval> {
    if |children| == 0 then None else Union(UnionOf(s, children[..|children| - 1]), Bounds(s, children[|children| - 1]))
  }

  lemma {:induction false} AllIsUnionOf(s: Stmt, n: Node, k: nat)
    requires n.Other? && k <= |n.children|
    ensures InspectAll(s, n, k, [n], None) == UnionOf(s, n.children[..k])
  {
    if k > 0 {
      var child := n.children[k - 1];
      AllIsUnionOf(s, n, k - 1);
      assert n.children[..k][..k - 1] == n.children[..k - 1];
      InspectIsUnion(s, child, [n], InspectAll(s, n, k - 1, [n], None));
      PathStep(s, [], n);
      assert [] + [n] == [n];
      SamePath(s, child, [n], [], None);
    }
  }

  /** An expression reaches from the least to the greatest bound of its parts; (0, 0) stands for nothing
      selected, and hoisting changes nothing. */
  lemma BoundsOfParts(s: Stmt, children: seq<Node>)
    ensures Bounds(s, Other(children)) == UnionOf(s, children)
    ensures forall n :: FindMinMaxTime(s, n) == if Bounds(s, n).Some? then Bounds(s, n).value else Interval(0, 0)
  {
    var n := Other(children);
    AllIsUnionOf(s, n, |children|);
    assert children[..|children|] == children && [] + [n] == [n];
  }

  lemma BoundsOfHoisted(s: Stmt, x: Node)
    ensures Bounds(s, Hoisted(x)) == Bounds(s, x)
  {
    PathStep(s, [], Hoisted(x));
    SamePath(s, x, [] + [Hoisted(x)], [], None);
  }

  // ---------------------------------------------------------------- no wider than what is read

  /** What an evaluation of a selector at time t looks at, without @. */
  lemma SelectorReadsIff(lookback: nat, n: Node, g: Steps, t: int, r: int)
    requires Selector(n) && n.at.None?
    ensures SelectorReads(lookback, n, g, 0, t, r) <==>
      && r > t - n.offset - (if !n.Matrix? then lookback else if n.mode.Standard? then n.range else n.range + lookback)
      && r <= t - n.offset + (if n.mode.Smoothed? && !n.Stamp? then lookback else 0)
  {
  }

  /** A step uses what the expression of a subquery uses at the child steps of its window, which begins after
      its start. */
  lemma SubqueryUsesIff(lookback: nat, n: Node, g: Steps, drift: int, t: int, r: int)
    requires n.Subquery? && n.step > 0 && g.Valid()
    ensures
      var end := (if n.at.Some? then n.at.value else t) - n.offset;
      var child := Below(n, g, drift);
      Uses(lookback, n, g, drift, t, r) <==>
        exists u :: child.Has(u) && end - n.range < u <= end && Uses(lookback, n.expr, child, DriftBelow(n, g, drift), u, r)
  {
    var end := (if n.at.Some? then n.at.value else t) - n.offset;
    forall u ensures InWindow(n, t, u) <==> end - n.range < u <= end {
    }
  }

  /** The earliest time within the bounds of a selector is read at the first step. */
  lemma LowestIsRead(s: Stmt, n: Node)
    requires Selector(n) && n.at.None? && s.interval > 0 && s.start <= s.end && s.lookback > 0
    requires n.Matrix? ==> n.range > 0
    ensures Reads(s.lookback, n, TopGrid(s), 0, FindMinMaxTime(s, n).lo)
  {
    BoundsOfSelector(s, [], n);
    assert TopGrid(s).Has(s.start);
    SelectorReadsIff(s.lookback, n, TopGrid(s), s.start, FindMinMaxTime(s, n).lo);
  }

  /** The latest time is read at the last step, if the query ends with a step. */
  lemma HighestIsRead(s: Stmt, n: Node)
    requires Selector(n) && n.at.None? && s.interval > 0 && TopGrid(s).Has(s.end) && s.lookback > 0
    requires (n.Matrix? ==> n.range > 0) && (n.Stamp? ==> !n.mode.Smoothed?)
    ensures Reads(s.lookback, n, TopGrid(s), 0, FindMinMaxTime(s, n).hi)
  {
    BoundsOfSelector(s, [], n);
    SelectorReadsIff(s.lookback, n, TopGrid(s), s.end, FindMinMaxTime(s, n).hi);
  }

  // ---------------------------------------------------------------- the offsets that are stored

  /** The offset that the pass before evaluation computes for a node, from the evaluation time at which it
      runs and the subqueries between its root and the node. */
  ghost function OffsetOnPath(evalTime: int, at: Option<int>, offset: int, path: seq<Node>): int {
    if at.None? then offset
    else
      var sub := PathTimes(path);
      offset + (evalTime - at.value) - (sub.offset + if sub.at.Some? then evalTime - sub.at.value else 0)
  }

  /** Subqueries nested in each other, over g, whose child grids all start with g. */
  ghost predicate StartAlike(g: Steps, drift: int, subqueries: seq<Node>)
    requires g.Valid()
    decreases |subqueries|
  {
    |subqueries| > 0 ==>
      var n := subqueries[0];
      && n.Subquery? && n.step > 0 && Below(n, g, drift).start == g.start
      && StartAlike(Below(n, g, drift), DriftBelow(n, g, drift), subqueries[1..])
  }

  /** The drift below all of them. */
  ghost function DriftDown(g: Steps, drift: int, subqueries: seq<Node>): int
    requires g.Valid() && StartAlike(g, drift, subqueries)
    decreases |subqueries|
  {
    if |subqueries| == 0 then drift
    else DriftDown(Below(subqueries[0], g, drift), DriftBelow(subqueries[0], g, drift), subqueries[1..])
  }

  lemma {:induction false} DriftIsPathOffset(g: Steps, drift: int, path: seq<Node>, subqueries: seq<Node>, at: Option<int>, offset: int)
    requires g.Valid() && StartAlike(g, drift, subqueries)
    requires StoredOffset(at, offset, g.start, drift) == OffsetOnPath(g.start, at, offset, path)
    requires
      var sub := PathTimes(path);
      drift == sub.offset + if sub.at.Some? then g.start - sub.at.value else 0
    ensures StoredOffset(at, offset, g.start, DriftDown(g, drift, subqueries)) == OffsetOnPath(g.start, at, offset, path + subqueries)
    decreases |subqueries|
  {
    if |subqueries| == 0 {
      assert path + subqueries == path;
    } else {
      var n := subqueries[0];
      assert (path + [n])[..|path|] == path;
      DriftIsPathOffset(Below(n, g, drift), DriftBelow(n, g, drift), path + [n], subqueries[1..], at, offset);
      assert path + [n] + subqueries[1..] == path + subqueries;
    }
  }

  /** One pass serves all grids that start alike: what is read there is at the offset that the pass computes
      from the whole path. */
  lemma OffsetsOfOnePass(g: Steps, subqueries: seq<Node>, at: Option<int>, offset: int)
    requires g.Valid() && StartAlike(g, 0, subqueries)
    ensures StoredOffset(at, offset, g.start, DriftDown(g, 0, subqueries)) == OffsetOnPath(g.start, at, offset, subqueries)
  {
    DriftIsPathOffset(g, 0, [], subqueries, at, offset);
    assert [] + subqueries == subqueries;
  }

  /** A child grid that starts elsewhere gets a pass of its own, which begins at its root. */
  lemma OffsetsOfNewPass(n: Node, g: Steps, drift: int, at: Option<int>, offset: int)
    requires n.Subquery? && n.step > 0 && g.Valid() && Below(n, g, drift).start != g.start
    ensures
      StoredOffset(at, offset, Below(n, g, drift).start, DriftBelow(n, g, drift)) ==
        OffsetOnPath(Below(n, g, drift).start, at, offset, [])
  {
  }
}
