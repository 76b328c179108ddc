/** The time bounds of a query, inferred from its selectors and the subqueries around them, and what
    evaluation reads: what a step can depend on lies within the bounds where stored offsets are settled,
    and all reads do exactly if the first and the last do.  Durations are whole milliseconds. */
module TimeBounds {
  import opened Basics
  import opened Grid

  datatype Mode = Standard | Anchored | Smoothed

  /** The part of an expression tree that decides which times are read.  Stamp is a vector selector that
      the timestamp function is applied to; Hoisted is a step-invariant part. */
  datatype Node =
    | Vector(at: Option<int>, offset: int, mode: Mode)
    | Stamp(at: Option<int>, offset: int, mode: Mode)
    | Matrix(at: Option<int>, offset: int, mode: Mode, range: nat)
    | Subquery(expr: Node, at: Option<int>, offset: int, range: nat, step: int)
    | Hoisted(expr: Node)
    | Other(children: seq<Node>)

  datatype Stmt = Stmt(start: int, end: int, interval: int, lookback: nat)

  datatype Interval = Interval(lo: int, hi: int) {
    predicate Contains(t: int) { lo <= t <= hi }
  }

  // ---------------------------------------------------------------- inference

  datatype SubqueryTimes = SubqueryTimes(offset: int, range: int, at: Option<int>)

  /** Sum of the offsets and ranges of all subqueries on the path, restarted by an @ modifier. */
  function PathTimes(path: seq<Node>): SubqueryTimes {
    if |path| == 0 then SubqueryTimes(0, 0, None)
    else
      var before, n := PathTimes(path[..|path| - 1]), path[|path| - 1];
      if !n.Subquery? then before
      else if n.at.Some? then SubqueryTimes(n.offset, n.range, n.at)
      else SubqueryTimes(before.offset + n.offset, before.range + n.range, before.at)
  }

  /** The time range one selector needs, given the path that leads to it. */
  function SelectorRange(s: Stmt, at: Option<int>, offset: int, mode: Mode, path: seq<Node>, evalRange: nat): Interval {
    var sub := PathTimes(path);
    var base := if sub.at.Some? then Interval(sub.at.value, sub.at.value) else Interval(s.start, s.end);
    var ref := if at.Some? then Interval(at.value, at.value)
               else Interval(base.lo - sub.offset - sub.range, base.hi - sub.offset);
    var wide :=
      if evalRange == 0 then
        Interval(ref.lo - (s.lookback - 1), if mode.Smoothed? then ref.hi + s.lookback else ref.hi)
      else match mode
        case Anchored => Interval(ref.lo - (s.lookback + evalRange - 1), ref.hi)
        case Smoothed => Interval(ref.lo - (s.lookback + evalRange - 1), ref.hi + s.lookback)
        case Standard => Interval(ref.lo - (evalRange - 1), ref.hi);
    Interval(wide.lo - offset, wide.hi - offset)
  }

  function Widen(acc: Option<Interval>, r: Interval): Option<Interval> {
    match acc
    case None => Some(r)
    case Some(a) => Some(Interval(if r.lo < a.lo then r.lo else a.lo, if r.hi > a.hi then r.hi else a.hi))
  }

  /** Visits the tree from the root, widening the bounds at each selector. */
  function Inspect(s: Stmt, n: Node, path: seq<Node>, acc: Option<Interval>): Option<Interval>
    decreases n
  {
    match n
    case Vector(at, offset, mode) => Widen(acc, SelectorRange(s, at, offset, mode, path, 0))
    case Stamp(at, offset, mode) => Widen(acc, SelectorRange(s, at, offset, mode, path, 0))
    case Matrix(at, offset, mode, range) => Widen(acc, SelectorRange(s, at, offset, mode, path + [n], range))
    case Subquery(x, _, _, _, _) => Inspect(s, x, path + [n], acc)
    case Hoisted(x) => Inspect(s, x, path + [n], acc)
    case Other(children) => InspectAll(s, n, |children|, path + [n], acc)
  }

  function InspectAll(s: Stmt, n: Node, k: nat, path: seq<Node>, acc: Option<Interval>): Option<Interval>
    requires n.Other? && k <= |n.children|
    decreases n, k
  {
    if k == 0 then acc
    else Inspect(s, n.children[k - 1], path, InspectAll(s, n, k - 1, path, acc))
  }

  /** Earliest and latest time the statement will process; (0, 0) when it selects nothing. */
  function FindMinMaxTime(s: Stmt, e: Node): Interval {
    match Inspect(s, e, [], None)
    case None => Interval(0, 0)
    case Some(r) => r
  }

  // ---------------------------------------------------------------- what evaluation reads

  predicate Selector(n: Node) {
    n.Vector? || n.Stamp? || n.Matrix?
  }

  /** The time that a selector is read at for step t of g: the stored offset before the step.  A range
      selector with an @ timestamp is read at the first step only, and timestamp sets the offset itself. */
  function BaseTime(n: Node, g: Steps, drift: int, t: int): int
    requires Selector(n)
  {
    match n
    case Vector(at, offset, _) => t - StoredOffset(at, offset, g.start, drift)
    case Stamp(at, offset, _) => if at.Some? then at.value else t - offset
    case Matrix(at, offset, _, _) => (if at.Some? then g.start else t) - StoredOffset(at, offset, g.start, drift)
  }

  /** The latest time a selector read at base can look at, and how far back it can look. */
  function LatestOf(lookback: nat, n: Node, base: int): int
    requires Selector(n)
  {
    if n.mode.Smoothed? && !n.Stamp? then base + lookback else base
  }

  function DepthOf(lookback: nat, n: Node): nat
    requires Selector(n)
  {
    if !n.Matrix? then lookback else if n.mode.Standard? then n.range else n.range + lookback
  }

  /** A selector read at base can look at a sample with timestamp r. */
  predicate LooksAt(lookback: nat, n: Node, base: int, r: int)
    requires Selector(n)
  {
    base - DepthOf(lookback, n) < r <= LatestOf(lookback, n, base)
  }

  predicate SelectorReads(lookback: nat, n: Node, g: Steps, drift: int, t: int, r: int)
    requires Selector(n)
  {
    LooksAt(lookback, n, BaseTime(n, g, drift, t), r)
  }

  /** The grid below a subquery, and the drift there. */
  function Below(n: Node, g: Steps, drift: int): Steps
    requires n.Subquery? && n.step > 0 && g.Valid()
  {
    ChildGrid(g, n.at, n.offset, n.range, n.step, drift)
  }

  function DriftBelow(n: Node, g: Steps, drift: int): int
    requires n.Subquery? && n.step > 0 && g.Valid()
  {
    ChildDrift(g, n.at, n.offset, Below(n, g, drift), drift)
  }

  /** Evaluating n over g looks, at some step, at a sample with timestamp r. */
  ghost predicate Reads(lookback: nat, n: Node, g: Steps, drift: int, r: int)
    requires g.Valid()
    decreases n
  {
    match n
    case Subquery(x, _, _, _, step) =>
      step > 0 && g.start <= g.end && Reads(lookback, x, Below(n, g, drift), DriftBelow(n, g, drift), r)
    case Hoisted(x) => g.start <= g.end && Reads(lookback, x, Once(g), drift, r)
    case Other(children) => exists i :: 0 <= i < |children| && Reads(lookback, children[i], g, drift, r)
    case _ => exists t :: g.Has(t) && SelectorReads(lookback, n, g, drift, t, r)
  }

  /** The value of n at step t of g can depend on a sample with timestamp r: of a subquery's steps only
      those in the window of t count. */
  ghost predicate Uses(lookback: nat, n: Node, g: Steps, drift: int, t: int, r: int)
    requires g.Valid()
    decreases n
  {
    match n
    case Subquery(x, _, _, _, step) =>
      step > 0 && exists u ::
        Below(n, g, drift).Has(u) && InWindow(n, t, u) && Uses(lookback, x, Below(n, g, drift), DriftBelow(n, g, drift), u, r)
    case Hoisted(x) => Uses(lookback, x, Once(g), drift, g.start, r)
    case Other(children) => exists i :: 0 <= i < |children| && Uses(lookback, children[i], g, drift, t, r)
    case _ => SelectorReads(lookback, n, g, drift, t, r)
  }

  predicate InWindow(n: Node, t: int, u: int)
    requires n.Subquery?
  {
    var ref := Reference(n.at, t) - n.offset;
    ref - n.range < u <= ref
  }

  // ---------------------------------------------------------------- settled offsets

  /** Whatever has an @ timestamp is read at that timestamp less its offset: nothing has drifted, vector
      selectors are evaluated at one step only, and timestamp has no offset to forget. */
  predicate Settled(n: Node, g: Steps, drift: int)
    requires g.Valid()
    decreases n
  {
    match n
    case Vector(at, _, _) => at.Some? ==> drift == 0 && g.Count() <= 1
    case Stamp(at, offset, _) => at.Some? ==> offset == 0
    case Matrix(at, _, _, _) => at.Some? ==> drift == 0
    case Subquery(x, at, _, _, step) =>
      (at.Some? ==> drift == 0) && (step > 0 ==> Settled(x, Below(n, g, drift), DriftBelow(n, g, drift)))
    case Hoisted(x) => Settled(x, Once(g), drift)
    case Other(children) => forall i :: 0 <= i < |children| ==> Settled(children[i], g, drift)
  }

  lemma OnlyStep(g: Steps, t: int)
    requires g.Valid() && g.Has(t) && g.Count() <= 1
    ensures t == g.start
  {
    var k := HasAt(g, t);
  }

  lemma SettledBase(n: Node, g: Steps, drift: int, t: int)
    requires Selector(n) && g.Valid() && Settled(n, g, drift) && g.Has(t)
    ensures BaseTime(n, g, drift, t) == Reference(n.at, t) - n.offset
  {
    if n.Vector? && n.at.Some? {
      OnlyStep(g, t);
    }
  }

  // ---------------------------------------------------------------- what the path knows

  /** The interval that the offsets and ranges on a path describe. */
  function PathInterval(s: Stmt, path: seq<Node>): Interval {
    var sub := PathTimes(path);
    var base := if sub.at.Some? then Interval(sub.at.value, sub.at.value) else Interval(s.start, s.end);
    Interval(base.lo - sub.offset - sub.range, base.hi - sub.offset)
  }

  lemma PathStep(s: Stmt, path: seq<Node>, n: Node)
    ensures PathInterval(s, path + [n]) ==
      var before := PathInterval(s, path);
      if !n.Subquery? then before
      else if n.at.Some? then Interval(n.at.value - n.offset - n.range, n.at.value - n.offset)
      else Interval(before.lo - n.offset - n.range, before.hi - n.offset)
  {
    assert (path + [n])[..|path + [n]| - 1] == path;
  }

  ghost predicate Within(inner: Option<Interval>, outer: Option<Interval>) {
    inner.Some? ==> outer.Some? && outer.value.lo <= inner.value.lo && inner.value.hi <= outer.value.hi
  }

  /** Visiting more of the tree only widens the bounds. */
  lemma {:induction false} InspectGrows(s: Stmt, n: Node, path: seq<Node>, acc: Option<Interval>)
    ensures Within(acc, Inspect(s, n, path, acc))
    decreases n
  {
    match n
    case Subquery(x, _, _, _, _) => InspectGrows(s, x, path + [n], acc);
    case Hoisted(x) => InspectGrows(s, x, path + [n], acc);
    case Other(children) => InspectAllGrows(s, n, 0, |children|, path + [n], acc);
    case _ =>
  }

  lemma {:induction false} InspectAllGrows(s: Stmt, n: Node, j: nat, k: nat, path: seq<Node>, acc: Option<Interval>)
    requires n.Other? && j <= k <= |n.children|
    ensures Within(InspectAll(s, n, j, path, acc), InspectAll(s, n, k, path, acc))
    decreases n, k
  {
    if j < k {
      InspectAllGrows(s, n, j, k - 1, path, acc);
      InspectGrows(s, n.children[k - 1], path, InspectAll(s, n, k - 1, path, acc));
    }
  }

  /** A selector read at the reference time of a step in the interval of the path looks only inside the
      range computed for it; and for a step not before that interval it looks at nothing before the range. */
  lemma SelectorRangeSound(s: Stmt, n: Node, path: seq<Node>, t: int, r: int)
    requires Selector(n) && LooksAt(s.lookback, n, Reference(n.at, t) - n.offset, r) && PathInterval(s, path).lo <= t
    ensures
      var range := SelectorRange(s, n.at, n.offset, n.mode, path, if n.Matrix? then n.range else 0);
      range.lo <= r && (n.at.Some? || t <= PathInterval(s, path).hi ==> r <= range.hi)
  {}

  /** The same with what the traversal makes of it. */
  lemma SelectorInspected(s: Stmt, n: Node, path: seq<Node>, t: int, acc: Option<Interval>, r: int)
    requires Selector(n) && LooksAt(s.lookback, n, Reference(n.at, t) - n.offset, r) && PathInterval(s, path).lo <= t
    ensures
      var res := Inspect(s, n, path, acc);
      res.Some? && res.value.lo <= r && (n.at.Some? || t <= PathInterval(s, path).hi ==> r <= res.value.hi)
  {
    PathStep(s, path, n);
    SelectorRangeSound(s, n, if n.Matrix? then path + [n] else path, t, r);
  }

  // ---------------------------------------------------------------- reads that matter

  /** The first step of a child grid is after the start of the first window, and not after any step. */
  lemma ChildStart(n: Node, g: Steps, drift: int, u: int)
    requires n.Subquery? && n.step > 0 && g.Valid() && (n.at.Some? ==> drift == 0) && Below(n, g, drift).Has(u)
    ensures Reference(n.at, g.start) - n.offset - n.range < Below(n, g, drift).start <= u
  {
    SubqueryStart(g, EffectiveOffset(n.at, n.offset, g.start), n.range, n.step);
  }

  lemma {:induction false} UsesInspected(s: Stmt, n: Node, path: seq<Node>, g: Steps, drift: int, t: int, acc: Option<Interval>, r: int)
    requires g.Valid() && g.Has(t) && PathInterval(s, path).lo <= g.start && t <= PathInterval(s, path).hi
    requires Settled(n, g, drift) && Uses(s.lookback, n, g, drift, t, r)
    ensures
      var res := Inspect(s, n, path, acc);
      res.Some? && res.value.Contains(r)
    decreases n
  {
    match n
    case Subquery(_, _, _, _, _) => SubqueryUsesInspected(s, n, path, g, drift, t, acc, r);
    case Hoisted(x) =>
      PathStep(s, path, n);
      UsesInspected(s, x, path + [n], Once(g), drift, g.start, acc, r);
    case Other(children) =>
      PathStep(s, path, n);
      var i :| 0 <= i < |children| && Uses(s.lookback, children[i], g, drift, t, r);
      UsesInspected(s, children[i], path + [n], g, drift, t, InspectAll(s, n, i, path + [n], acc), r);
      InspectAllGrows(s, n, i + 1, |children|, path + [n], acc);
    case _ =>
      SettledBase(n, g, drift, t);
      SelectorInspected(s, n, path, t, acc, r);
  }

  lemma SubqueryUsesInspected(s: Stmt, n: Node, path: seq<Node>, g: Steps, drift: int, t: int, acc: Option<Interval>, r: int)
    requires g.Valid() && g.Has(t) && PathInterval(s, path).lo <= g.start && t <= PathInterval(s, path).hi
    requires n.Subquery? && Settled(n, g, drift) && Uses(s.lookback, n, g, drift, t, r)
    ensures
      var res := Inspect(s, n, path, acc);
      res.Some? && res.value.Contains(r)
    decreases n, 0
  {
    PathStep(s, path, n);
    var child := Below(n, g, drift);
    var u :| child.Has(u) && InWindow(n, t, u) && Uses(s.lookback, n.expr, child, DriftBelow(n, g, drift), u, r);
    ChildStart(n, g, drift, u);
    UsesInspected(s, n.expr, path + [n], child, DriftBelow(n, g, drift), u, acc, r);
  }

  function TopGrid(s: Stmt): Steps {
    Steps(s.start, s.end, s.interval)
  }

  /** Every storage timestamp that the value at any step can depend on lies within the inferred bounds. */
  lemma BoundsCoverUses(s: Stmt, e: Node, t: int, r: int)
    requires s.interval > 0 && Settled(e, TopGrid(s), 0) && TopGrid(s).Has(t) && Uses(s.lookback, e, TopGrid(s), 0, t, r)
    ensures FindMinMaxTime(s, e).Contains(r)
  {
    UsesInspected(s, e, [], TopGrid(s), 0, t, None, r);
  }

  // ---------------------------------------------------------------- reads that matter, exactly

  function StepSet(g: Steps): set<int>
    requires g.Valid()
  {
    set k | 0 <= k < g.Count() :: g.At(k)
  }

  lemma StepSetHas(g: Steps, t: int)
    requires g.Valid()
    ensures t in StepSet(g) <==> g.Has(t)
  {
    if g.Has(t) {
      var k := HasAt(g, t);
      assert g.At(k) in StepSet(g);
    }
    if t in StepSet(g) {
      var k :| 0 <= k < g.Count() && g.At(k) == t;
      AtHas(g, k);
    }
  }

  /** The steps of a subquery that some of the given steps of its parent see. */
  function VisibleBelow(n: Node, g: Steps, drift: int, visible: set<int>): set<int>
    requires n.Subquery? && n.step > 0 && g.Valid()
  {
    set u | u in StepSet(Below(n, g, drift)) && exists t :: t in visible && InWindow(n, t, u)
  }

  /** Every selector, at every step of its grid that the given steps see, looks only inside the interval. */
  predicate UsesFit(lookback: nat, n: Node, g: Steps, drift: int, visible: set<int>, b: Interval)
    requires g.Valid()
    decreases n
  {
    match n
    case Subquery(x, _, _, _, step) =>
      step > 0 ==>
        UsesFit(lookback, x, Below(n, g, drift), DriftBelow(n, g, drift), VisibleBelow(n, g, drift, visible), b)
    case Hoisted(x) => UsesFit(lookback, x, Once(g), drift, if exists t :: t in visible then {g.start} else {}, b)
    case Other(children) => forall i :: 0 <= i < |children| ==> UsesFit(lookback, children[i], g, drift, visible, b)
    case _ =>
      forall t :: t in visible ==>
        var base := BaseTime(n, g, drift, t);
        b.lo <= base - DepthOf(lookback, n) + 1 && LatestOf(lookback, n, base) <= b.hi
  }

  lemma {:induction false} FittingUses(lookback: nat, n: Node, g: Steps, drift: int, visible: set<int>, b: Interval, t: int, r: int)
    requires g.Valid() && UsesFit(lookback, n, g, drift, visible, b) && t in visible && Uses(lookback, n, g, drift, t, r)
    ensures b.Contains(r)
    decreases n
  {
    match n
    case Subquery(x, _, _, _, _) =>
      var child := Below(n, g, drift);
      var u :| child.Has(u) && InWindow(n, t, u) && Uses(lookback, x, child, DriftBelow(n, g, drift), u, r);
      StepSetHas(child, u);
      FittingUses(lookback, x, child, DriftBelow(n, g, drift), VisibleBelow(n, g, drift, visible), b, u, r);
    case Hoisted(x) => FittingUses(lookback, x, Once(g), drift, {g.start}, b, g.start, r);
    case Other(children) =>
      var i :| 0 <= i < |children| && Uses(lookback, children[i], g, drift, t, r);
      FittingUses(lookback, children[i], g, drift, visible, b, t, r);
    case _ =>
  }

  /** Everything that the given steps depend on lies in the interval. */
  ghost predicate UsesWithin(lookback: nat, n: Node, g: Steps, drift: int, visible: set<int>, b: Interval)
    requires g.Valid()
  {
    forall t, r :: t in visible && Uses(lookback, n, g, drift, t, r) ==> b.Contains(r)
  }

  lemma {:induction false} UsesMustFit(lookback: nat, n: Node, g: Steps, drift: int, visible: set<int>, b: Interval)
    requires g.Valid() && LooksBack(lookback, n) && UsesWithin(lookback, n, g, drift, visible, b)
    ensures UsesFit(lookback, n, g, drift, visible, b)
    decreases n
  {
    match n
    case Subquery(x, _, _, _, step) =>
      if step > 0 {
        SubqueryUsesWithin(lookback, n, g, drift, visible, b);
        UsesMustFit(lookback, x, Below(n, g, drift), DriftBelow(n, g, drift), VisibleBelow(n, g, drift, visible), b);
      }
    case Hoisted(x) =>
      var once := if exists t :: t in visible then {g.start} else {};
      HoistedUsesWithin(lookback, n, g, drift, visible, once, b);
      UsesMustFit(lookback, x, Once(g), drift, once, b);
    case Other(children) =>
      forall i | 0 <= i < |children| ensures UsesFit(lookback, children[i], g, drift, visible, b) {
        forall t, r | t in visible && Uses(lookback, children[i], g, drift, t, r) ensures b.Contains(r) {
          assert Uses(lookback, n, g, drift, t, r);
        }
        UsesMustFit(lookback, children[i], g, drift, visible, b);
      }
    case _ => SelectorMustFit(lookback, n, g, drift, visible, b);
  }

  lemma HoistedUsesWithin(lookback: nat, n: Node, g: Steps, drift: int, visible: set<int>, once: set<int>, b: Interval)
    requires n.Hoisted? && g.Valid() && UsesWithin(lookback, n, g, drift, visible, b)
    requires once == if exists t :: t in visible then {g.start} else {}
    ensures UsesWithin(lookback, n.expr, Once(g), drift, once, b)
  {
    if exists t :: t in visible {
      var v :| v in visible;
      forall t, r | t in once && Uses(lookback, n.expr, Once(g), drift, t, r) ensures b.Contains(r) {
        assert Uses(lookback, n, g, drift, v, r);
      }
    }
  }

  lemma SubqueryUsesWithin(lookback: nat, n: Node, g: Steps, drift: int, visible: set<int>, b: Interval)
    requires n.Subquery? && n.step > 0 && g.Valid() && UsesWithin(lookback, n, g, drift, visible, b)
    ensures UsesWithin(lookback, n.expr, Below(n, g, drift), DriftBelow(n, g, drift), VisibleBelow(n, g, drift, visible), b)
  {
    var child, below := Below(n, g, drift), VisibleBelow(n, g, drift, visible);
    forall u, r | u in below && Uses(lookback, n.expr, child, DriftBelow(n, g, drift), u, r) ensures b.Contains(r) {
      var t :| t in visible && InWindow(n, t, u);
      StepSetHas(child, u);
      assert Uses(lookback, n, g, drift, t, r);
    }
  }

  lemma SelectorMustFit(lookback: nat, n: Node, g: Steps, drift: int, visible: set<int>, b: Interval)
    requires Selector(n) && g.Valid() && LooksBack(lookback, n) && UsesWithin(lookback, n, g, drift, visible, b)
    ensures UsesFit(lookback, n, g, drift, visible, b)
  {
    forall t | t in visible
      ensures
        var base := BaseTime(n, g, drift, t);
        b.lo <= base - DepthOf(lookback, n) + 1 && LatestOf(lookback, n, base) <= b.hi
    {
      var base := BaseTime(n, g, drift, t);
      assert Uses(lookback, n, g, drift, t, base - DepthOf(lookback, n) + 1);
      assert Uses(lookback, n, g, drift, t, LatestOf(lookback, n, base));
    }
  }

  /** For every expression: what the steps of the query depend on lies within the inferred bounds exactly
      when every selector, with the offsets, ranges and @ times on its path, fits into them at every step
      that is seen from above. */
  lemma BoundsCoverUsesIff(s: Stmt, e: Node)
    requires s.interval > 0 && LooksBack(s.lookback, e)
    ensures
      var g, b := TopGrid(s), FindMinMaxTime(s, e);
      UsesWithin(s.lookback, e, g, 0, StepSet(g), b) <==> UsesFit(s.lookback, e, g, 0, StepSet(g), b)
  {
    var g, b := TopGrid(s), FindMinMaxTime(s, e);
    if UsesFit(s.lookback, e, g, 0, StepSet(g), b) {
      forall t, r | t in StepSet(g) && Uses(s.lookback, e, g, 0, t, r) ensures b.Contains(r) {
        FittingUses(s.lookback, e, g, 0, StepSet(g), b, t, r);
      }
    }
    if UsesWithin(s.lookback, e, g, 0, StepSet(g), b) {
      UsesMustFit(s.lookback, e, g, 0, StepSet(g), b);
    }
  }

  // ---------------------------------------------------------------- all reads

  lemma AlignedEnd(g: Steps)
    requires g.Valid() && g.Count() > 0
    ensures g.start + TruncDiv(g.end - g.start, g.step) * g.step == g.At(g.Count() - 1)
    ensures g.start <= g.At(g.Count() - 1) <= g.end
  {
    AtHas(g, g.Count() - 1);
  }

  /** Last step of a grid that has one. */
  function LastStep(g: Steps): int
    requires g.Valid() && g.Count() > 0
  {
    g.At(g.Count() - 1)
  }

  lemma LastIsLast(g: Steps, t: int)
    requires g.Valid() && g.Has(t)
    ensures g.Count() > 0 && t <= LastStep(g) && g.Has(LastStep(g))
  {
    var k := HasAt(g, t);
    AtHas(g, g.Count() - 1);
    if k < g.Count() - 1 {
      MulOrder(k, g.Count() - 1, g.step);
    }
  }

  /** The steps of a child grid end where the parent's steps end, moved by the offset. */
  lemma ChildEnd(n: Node, g: Steps, drift: int)
    requires n.Subquery? && n.step > 0 && g.Valid() && g.Count() > 0
    ensures Below(n, g, drift).end == LastStep(g) - StoredOffset(n.at, n.offset, g.start, drift)
  {
    AlignedEnd(g);
  }

  /** The first or, if late, the last time that evaluating n over g looks at. */
  function Extreme(lookback: nat, n: Node, g: Steps, drift: int, late: bool): Option<int>
    requires g.Valid()
    decreases n, 1
  {
    if g.Count() == 0 then None
    else
      match n
      case Subquery(x, _, _, _, step) =>
        if step <= 0 then None else Extreme(lookback, x, Below(n, g, drift), DriftBelow(n, g, drift), late)
      case Hoisted(x) => Extreme(lookback, x, Once(g), drift, late)
      case Other(children) => ExtremeOfAll(lookback, n, |children|, g, drift, late)
      case _ =>
        if late then Some(LatestOf(lookback, n, BaseTime(n, g, drift, LastStep(g))))
        else Some(BaseTime(n, g, drift, g.start) - DepthOf(lookback, n) + 1)
  }

  /** a is further in the given direction than b, or equal. */
  predicate Beyond(a: int, b: int, late: bool) {
    if late then a >= b else a <= b
  }

  function Further(a: Option<int>, b: Option<int>, late: bool): Option<int> {
    if a.None? then b else if b.None? || Beyond(a.value, b.value, late) then a else b
  }

  function ExtremeOfAll(lookback: nat, n: Node, k: nat, g: Steps, drift: int, late: bool): Option<int>
    requires n.Other? && k <= |n.children| && g.Valid()
    decreases n, 0, k
  {
    if k == 0 then None
    else Further(ExtremeOfAll(lookback, n, k - 1, g, drift, late), Extreme(lookback, n.children[k - 1], g, drift, late), late)
  }

  lemma SelectorReadsWithin(lookback: nat, n: Node, g: Steps, drift: int, t: int, r: int, late: bool)
    requires Selector(n) && g.Valid() && g.Has(t) && SelectorReads(lookback, n, g, drift, t, r)
    ensures
      var x := Extreme(lookback, n, g, drift, late);
      x.Some? && Beyond(x.value, r, late)
  {
    LastIsLast(g, t);
  }

  /** No read is beyond the extremes, */
  lemma {:induction false} ReadsWithinExtremes(lookback: nat, n: Node, g: Steps, drift: int, r: int, late: bool)
    requires g.Valid() && Reads(lookback, n, g, drift, r)
    ensures
      var x := Extreme(lookback, n, g, drift, late);
      x.Some? && Beyond(x.value, r, late)
    decreases n, 1
  {
    match n
    case Subquery(x, _, _, _, _) => ReadsWithinExtremes(lookback, x, Below(n, g, drift), DriftBelow(n, g, drift), r, late);
    case Hoisted(x) => ReadsWithinExtremes(lookback, x, Once(g), drift, r, late);
    case Other(children) =>
      var i :| 0 <= i < |children| && Reads(lookback, children[i], g, drift, r);
      ReadsWithinExtremes(lookback, children[i], g, drift, r, late);
      ReadsHere(lookback, children[i], g, drift, r);
      OneOfAll(lookback, n, i, |children|, g, drift, late);
    case _ =>
      var t :| g.Has(t) && SelectorReads(lookback, n, g, drift, t, r);
      SelectorReadsWithin(lookback, n, g, drift, t, r, late);
  }

  lemma {:induction false} ReadsHere(lookback: nat, n: Node, g: Steps, drift: int, r: int)
    requires g.Valid() && Reads(lookback, n, g, drift, r)
    ensures g.Count() > 0
    decreases n
  {
    if n.Other? {
      var i :| 0 <= i < |n.children| && Reads(lookback, n.children[i], g, drift, r);
      ReadsHere(lookback, n.children[i], g, drift, r);
    }
  }

  lemma {:induction false} OneOfAll(lookback: nat, n: Node, i: nat, k: nat, g: Steps, drift: int, late: bool)
    requires n.Other? && i < k <= |n.children| && g.Valid() && Extreme(lookback, n.children[i], g, drift, late).Some?
    ensures
      var x := ExtremeOfAll(lookback, n, k, g, drift, late);
      x.Some? && Beyond(x.value, Extreme(lookback, n.children[i], g, drift, late).value, late)
    decreases k
  {
    if i < k - 1 {
      OneOfAll(lookback, n, i, k - 1, g, drift, late);
    }
  }

  /** Selectors look back by something, as the parser and the engine's defaults see to. */
  predicate LooksBack(lookback: nat, n: Node) {
    match n
    case Vector(_, _, _) => lookback > 0
    case Stamp(_, _, _) => lookback > 0
    case Matrix(_, _, _, range) => range > 0
    case Subquery(x, _, _, _, _) => LooksBack(lookback, x)
    case Hoisted(x) => LooksBack(lookback, x)
    case Other(children) => forall i :: 0 <= i < |children| ==> LooksBack(lookback, children[i])
  }

  lemma SelectorExtremeIsRead(lookback: nat, n: Node, g: Steps, drift: int, late: bool)
    requires Selector(n) && g.Valid() && g.Count() > 0 && LooksBack(lookback, n)
    ensures Reads(lookback, n, g, drift, Extreme(lookback, n, g, drift, late).value)
  {
    var k := if late then g.Count() - 1 else 0;
    AtHas(g, k);
    assert g.Has(g.At(k)) && SelectorReads(lookback, n, g, drift, g.At(k), Extreme(lookback, n, g, drift, late).value);
  }

  /** and the extremes are read. */
  lemma {:induction false} ExtremeIsRead(lookback: nat, n: Node, g: Steps, drift: int, late: bool)
    requires g.Valid() && LooksBack(lookback, n) && Extreme(lookback, n, g, drift, late).Some?
    ensures Reads(lookback, n, g, drift, Extreme(lookback, n, g, drift, late).value)
    decreases n, 1
  {
    match n
    case Subquery(x, _, _, _, _) => ExtremeIsRead(lookback, x, Below(n, g, drift), DriftBelow(n, g, drift), late);
    case Hoisted(x) => ExtremeIsRead(lookback, x, Once(g), drift, late);
    case Other(children) => OneOfAllIsRead(lookback, n, |children|, g, drift, late);
    case _ => SelectorExtremeIsRead(lookback, n, g, drift, late);
  }

  lemma {:induction false} OneOfAllIsRead(lookback: nat, n: Node, k: nat, g: Steps, drift: int, late: bool)
    requires n.Other? && k <= |n.children| && g.Valid() && LooksBack(lookback, n)
    requires ExtremeOfAll(lookback, n, k, g, drift, late).Some?
    ensures exists i :: 0 <= i < |n.children| &&
                        Reads(lookback, n.children[i], g, drift, ExtremeOfAll(lookback, n, k, g, drift, late).value)
    decreases n, 0, k
  {
    var before := ExtremeOfAll(lookback, n, k - 1, g, drift, late);
    var here := Extreme(lookback, n.children[k - 1], g, drift, late);
    if before.Some? {
      OneOfAllIsRead(lookback, n, k - 1, g, drift, late);
    }
    if here.Some? {
      ExtremeIsRead(lookback, n.children[k - 1], g, drift, late);
    }
  }

  /** With settled offsets no read is before the bounds. */
  lemma {:induction false} ReadsNotBefore(s: Stmt, n: Node, path: seq<Node>, g: Steps, drift: int, acc: Option<Interval>, r: int)
    requires g.Valid() && (g.start <= g.end ==> PathInterval(s, path).lo <= g.start)
    requires Settled(n, g, drift) && Reads(s.lookback, n, g, drift, r)
    ensures
      var res := Inspect(s, n, path, acc);
      res.Some? && res.value.lo <= r
    decreases n
  {
    match n
    case Subquery(x, _, _, _, _) =>
      PathStep(s, path, n);
      SubqueryStart(g, EffectiveOffset(n.at, n.offset, g.start), n.range, n.step);
      ReadsNotBefore(s, x, path + [n], Below(n, g, drift), DriftBelow(n, g, drift), acc, r);
    case Hoisted(x) =>
      PathStep(s, path, n);
      ReadsNotBefore(s, x, path + [n], Once(g), drift, acc, r);
    case Other(children) =>
      PathStep(s, path, n);
      var i :| 0 <= i < |children| && Reads(s.lookback, children[i], g, drift, r);
      ReadsNotBefore(s, children[i], path + [n], g, drift, InspectAll(s, n, i, path + [n], acc), r);
      InspectAllGrows(s, n, i + 1, |children|, path + [n], acc);
    case _ =>
      var t :| g.Has(t) && SelectorReads(s.lookback, n, g, drift, t, r);
      SettledBase(n, g, drift, t);
      SelectorInspected(s, n, path, t, acc, r);
  }

  ghost predicate AllReadsWithin(s: Stmt, e: Node)
    requires s.interval > 0
  {
    forall r :: Reads(s.lookback, e, TopGrid(s), 0, r) ==> FindMinMaxTime(s, e).Contains(r)
  }

  predicate FirstWithin(s: Stmt, e: Node)
    requires s.interval > 0
  {
    var first := Extreme(s.lookback, e, TopGrid(s), 0, false);
    first.Some? ==> FindMinMaxTime(s, e).lo <= first.value
  }

  predicate LastWithin(s: Stmt, e: Node)
    requires s.interval > 0
  {
    var last := Extreme(s.lookback, e, TopGrid(s), 0, true);
    last.Some? ==> last.value <= FindMinMaxTime(s, e).hi
  }

  /** All reads lie within the bounds exactly when the first and the last of them do. */
  lemma BoundsCoverAllReadsIff(s: Stmt, e: Node)
    requires s.interval > 0 && LooksBack(s.lookback, e)
    ensures AllReadsWithin(s, e) <==> FirstWithin(s, e) && LastWithin(s, e)
  {
    var first, last := Extreme(s.lookback, e, TopGrid(s), 0, false), Extreme(s.lookback, e, TopGrid(s), 0, true);
    if first.Some? {
      ExtremeIsRead(s.lookback, e, TopGrid(s), 0, false);
    }
    if last.Some? {
      ExtremeIsRead(s.lookback, e, TopGrid(s), 0, true);
    }
    if FirstWithin(s, e) && LastWithin(s, e) {
      forall r | Reads(s.lookback, e, TopGrid(s), 0, r) ensures FindMinMaxTime(s, e).Contains(r) {
        ReadsWithinExtremes(s.lookback, e, TopGrid(s), 0, r, false);
        ReadsWithinExtremes(s.lookback, e, TopGrid(s), 0, r, true);
      }
    }
  }

  /** Every selector, at the first and the last step of the grid it is evaluated on, looks only inside the
      interval. */
  predicate ReadsFit(lookback: nat, n: Node, g: Steps, drift: int, b: Interval)
    requires g.Valid()
    decreases n
  {
    g.Count() > 0 ==>
      match n
      case Subquery(x, _, _, _, step) => step > 0 ==> ReadsFit(lookback, x, Below(n, g, drift), DriftBelow(n, g, drift), b)
      case Hoisted(x) => ReadsFit(lookback, x, Once(g), drift, b)
      case Other(children) => forall i :: 0 <= i < |children| ==> ReadsFit(lookback, children[i], g, drift, b)
      case _ =>
        && b.lo <= BaseTime(n, g, drift, g.start) - DepthOf(lookback, n) + 1
        && LatestOf(lookback, n, BaseTime(n, g, drift, LastStep(g))) <= b.hi
  }

  predicate ExtremesWithin(lookback: nat, n: Node, g: Steps, drift: int, b: Interval)
    requires g.Valid()
  {
    var first, last := Extreme(lookback, n, g, drift, false), Extreme(lookback, n, g, drift, true);
    (first.Some? ==> b.lo <= first.value) && (last.Some? ==> last.value <= b.hi)
  }

  lemma {:induction false} FitMeansWithin(lookback: nat, n: Node, g: Steps, drift: int, b: Interval)
    requires g.Valid()
    ensures ReadsFit(lookback, n, g, drift, b) <==> ExtremesWithin(lookback, n, g, drift, b)
    decreases n, 1
  {
    if g.Count() > 0 {
      match n
      case Subquery(x, _, _, _, step) =>
        if step > 0 {
          FitMeansWithin(lookback, x, Below(n, g, drift), DriftBelow(n, g, drift), b);
        }
      case Hoisted(x) => FitMeansWithin(lookback, x, Once(g), drift, b);
      case Other(children) =>
        forall i | 0 <= i < |children|
          ensures ReadsFit(lookback, children[i], g, drift, b) <==> ExtremesWithin(lookback, children[i], g, drift, b)
        {
          FitMeansWithin(lookback, children[i], g, drift, b);
        }
        AllWithin(lookback, n, |children|, g, drift, b, false);
        AllWithin(lookback, n, |children|, g, drift, b, true);
      case _ =>
    }
  }

  predicate InBound(x: Option<int>, b: Interval, late: bool) {
    x.Some? ==> if late then x.value <= b.hi else b.lo <= x.value
  }

  /** The furthest of several times is in bounds exactly if all are. */
  lemma {:induction false} AllWithin(lookback: nat, n: Node, k: nat, g: Steps, drift: int, b: Interval, late: bool)
    requires n.Other? && k <= |n.children| && g.Valid()
    ensures InBound(ExtremeOfAll(lookback, n, k, g, drift, late), b, late) <==>
      forall i :: 0 <= i < k ==> InBound(Extreme(lookback, n.children[i], g, drift, late), b, late)
  {
    if k > 0 {
      AllWithin(lookback, n, k - 1, g, drift, b, late);
    }
  }

  /** All reads lie within the bounds exactly when every selector, with the offsets, ranges and @ times on
      its path, fits into them at its first and its last step. */
  lemma AllReadsWithinIff(s: Stmt, e: Node)
    requires s.interval > 0 && LooksBack(s.lookback, e)
    ensures AllReadsWithin(s, e) <==> ReadsFit(s.lookback, e, TopGrid(s), 0, FindMinMaxTime(s, e))
  {
    BoundsCoverAllReadsIff(s, e);
    FitMeansWithin(s.lookback, e, TopGrid(s), 0, FindMinMaxTime(s, e));
  }

  /** With settled offsets the first read always lies within them. */
  lemma SettledReadsIff(s: Stmt, e: Node)
    requires s.interval > 0 && LooksBack(s.lookback, e) && Settled(e, TopGrid(s), 0)
    ensures AllReadsWithin(s, e) <==> LastWithin(s, e)
  {
    var first := Extreme(s.lookback, e, TopGrid(s), 0, false);
    BoundsCoverAllReadsIff(s, e);
    if first.Some? {
      ExtremeIsRead(s.lookback, e, TopGrid(s), 0, false);
      ReadsNotBefore(s, e, [], TopGrid(s), 0, None, first.value);
    }
  }

  /** For an @ subquery over a selector of its own time: exactly when none of its steps comes after the
      @ timestamp minus the offset. */
  lemma PinnedSubqueryIff(s: Stmt, v: Node, at: int, offset: int, range: nat, step: int)
    requires s.interval > 0 && s.start <= s.end && step > 0
    requires Selector(v) && !v.Stamp? && v.at.None? && LooksBack(s.lookback, v)
    ensures
      var e := Subquery(v, Some(at), offset, range, step);
      var child := Below(e, TopGrid(s), 0);
      AllReadsWithin(s, e) <==> (child.Count() > 0 ==> LastStep(child) <= at - offset)
  {
    var e := Subquery(v, Some(at), offset, range, step);
    var g := TopGrid(s);
    SettledReadsIff(s, e);
    PinnedSubqueryEnd(s, v, e);
    LastReadBelow(s.lookback, v, e, g);
  }

  lemma PinnedSubqueryEnd(s: Stmt, v: Node, e: Node)
    requires Selector(v) && !v.Stamp? && v.at.None? && e.Subquery? && e.expr == v && e.at.Some?
    ensures FindMinMaxTime(s, e).hi == LatestOf(s.lookback, v, e.at.value - e.offset - v.offset)
  {
    var path := [] + [e];
    PathStep(s, [], e);
    PathStep(s, path, v);
    RangeEnd(s, v, path);
    RangeEnd(s, v, path + [v]);
    assert Inspect(s, e, [], None) == Inspect(s, v, path, None);
  }

  lemma LastReadBelow(lookback: nat, v: Node, e: Node, g: Steps)
    requires Selector(v) && !v.Stamp? && v.at.None? && e.Subquery? && e.step > 0 && e.expr == v && g.Valid() && g.Count() > 0
    ensures
      var child := Below(e, g, 0);
      Extreme(lookback, e, g, 0, true) ==
        if child.Count() == 0 then None else Some(LatestOf(lookback, v, LastStep(child) - v.offset))
  {
    var child := Below(e, g, 0);
    assert Extreme(lookback, e, g, 0, true) == Extreme(lookback, v, child, DriftBelow(e, g, 0), true);
  }

  lemma RangeEnd(s: Stmt, v: Node, path: seq<Node>)
    requires Selector(v) && !v.Stamp? && v.at.None?
    ensures SelectorRange(s, v.at, v.offset, v.mode, path, if v.Matrix? then v.range else 0).hi ==
      LatestOf(s.lookback, v, PathInterval(s, path).hi - v.offset)
  {}

  // ---------------------------------------------------------------- a guard for all reads

  /** Every @ subquery is evaluated on a grid whose last step is its first. */
  predicate PinnedOnce(n: Node, g: Steps, drift: int)
    requires g.Valid()
    decreases n
  {
    match n
    case Subquery(x, at, _, _, step) =>
      (at.Some? ==> g.Count() <= 1) && (step > 0 ==> PinnedOnce(x, Below(n, g, drift), DriftBelow(n, g, drift)))
    case Hoisted(x) => PinnedOnce(x, Once(g), drift)
    case Other(children) => forall i :: 0 <= i < |children| ==> PinnedOnce(children[i], g, drift)
    case _ => true
  }

  /** The grid lies in the interval of the path. */
  predicate Inside(s: Stmt, path: seq<Node>, g: Steps)
    requires g.Valid()
  {
    g.Count() > 0 ==> PathInterval(s, path).lo <= g.start && LastStep(g) <= PathInterval(s, path).hi
  }

  /** Descending into a subquery keeps the steps inside the interval of the path, if an @ subquery has a
      parent grid of one step. */
  lemma SubqueryCovered(s: Stmt, path: seq<Node>, n: Node, g: Steps, drift: int)
    requires n.Subquery? && n.step > 0 && g.Valid() && g.Count() > 0 && (n.at.Some? ==> g.Count() == 1 && drift == 0)
    requires Inside(s, path, g)
    ensures Inside(s, path + [n], Below(n, g, drift))
  {
    var child := Below(n, g, drift);
    PathStep(s, path, n);
    ChildEnd(n, g, drift);
    assert g.Count() == 1 ==> LastStep(g) == g.start;
    if child.Count() > 0 {
      AtHas(child, child.Count() - 1);
      ChildStart(n, g, drift, LastStep(child));
    }
  }

  lemma {:induction false} PinnedOnceInspected(s: Stmt, n: Node, path: seq<Node>, g: Steps, drift: int, acc: Option<Interval>, r: int)
    requires g.Valid() && Settled(n, g, drift) && PinnedOnce(n, g, drift) && Reads(s.lookback, n, g, drift, r)
    requires Inside(s, path, g)
    ensures
      var res := Inspect(s, n, path, acc);
      res.Some? && res.value.Contains(r)
    decreases n
  {
    match n
    case Subquery(x, _, _, _, _) =>
      SubqueryCovered(s, path, n, g, drift);
      PinnedOnceInspected(s, x, path + [n], Below(n, g, drift), DriftBelow(n, g, drift), acc, r);
    case Hoisted(x) =>
      PathStep(s, path, n);
      AtHas(g, 0);
      LastIsLast(g, g.start);
      PinnedOnceInspected(s, x, path + [n], Once(g), drift, acc, r);
    case Other(children) =>
      PathStep(s, path, n);
      var i :| 0 <= i < |children| && Reads(s.lookback, children[i], g, drift, r);
      PinnedOnceInspected(s, children[i], path + [n], g, drift, InspectAll(s, n, i, path + [n], acc), r);
      InspectAllGrows(s, n, i + 1, |children|, path + [n], acc);
    case _ =>
      var t :| g.Has(t) && SelectorReads(s.lookback, n, g, drift, t, r);
      LastIsLast(g, t);
      SettledBase(n, g, drift, t);
      SelectorInspected(s, n, path, t, acc, r);
  }

  /** If offsets are settled and every @ subquery runs on a grid of one step, every storage timestamp that
      evaluation looks at lies within the bounds. */
  lemma BoundsCoverAllReads(s: Stmt, e: Node, r: int)
    requires s.interval > 0 && Settled(e, TopGrid(s), 0) && PinnedOnce(e, TopGrid(s), 0)
    requires Reads(s.lookback, e, TopGrid(s), 0, r)
    ensures FindMinMaxTime(s, e).Contains(r)
  {
    if TopGrid(s).Count() > 0 {
      AlignedEnd(TopGrid(s));
    }
    PinnedOnceInspected(s, e, [], TopGrid(s), 0, None, r);
  }

  // ---------------------------------------------------------------- inputs that are read outside

  /** An @ subquery whose call is not hoisted: predict_linear(foo[100ms:10ms] @ 0.5, 10) from 0 to 1 s in
      steps of 100 ms looks at samples up to 1.5 s, and the bounds end at 0.5 s. */
  lemma PinnedSubqueryReadsPastBounds()
    ensures
      var s, e := Stmt(0, 1000, 100, 5), Subquery(Vector(None, 0, Standard), Some(500), 0, 100, 10);
      && FindMinMaxTime(s, e) == Interval(396, 500)
      && Below(e, TopGrid(s), 0) == Steps(410, 1500, 10)
      && Reads(s.lookback, e, TopGrid(s), 0, 1500)
      && !PinnedOnce(e, TopGrid(s), 0)
  {
    var s, v := Stmt(0, 1000, 100, 5), Vector(None, 0, Standard);
    var e := Subquery(v, Some(500), 0, 100, 10);
    PinnedSubqueryBounds(s, v, e);
    PinnedSubqueryReads(TopGrid(s), v, e);
  }

  lemma PinnedSubqueryBounds(s: Stmt, v: Node, e: Node)
    requires s == Stmt(0, 1000, 100, 5) && v == Vector(None, 0, Standard) && e == Subquery(v, Some(500), 0, 100, 10)
    ensures FindMinMaxTime(s, e) == Interval(396, 500)
  {
    OneSubquery(e);
  }

  lemma PinnedSubqueryReads(g: Steps, v: Node, e: Node)
    requires g == Steps(0, 1000, 100) && v == Vector(None, 0, Standard) && e == Subquery(v, Some(500), 0, 100, 10)
    ensures Below(e, g, 0) == Steps(410, 1500, 10) && Reads(5, e, g, 0, 1500) && !PinnedOnce(e, g, 0)
  {
    PinnedSubqueryChild(g, e);
    ReadAtStep(5, v, Below(e, g, 0), DriftBelow(e, g, 0), 1500);
  }

  lemma PinnedSubqueryChild(g: Steps, e: Node)
    requires g == Steps(0, 1000, 100) && e.Subquery? && e.at == Some(500) && e.offset == 0 && e.range == 100 && e.step == 10
    ensures Below(e, g, 0) == Steps(410, 1500, 10)
  {
    assert StoredOffset(e.at, e.offset, g.start, 0) == -500;
  }

  lemma ReadAtStep(lookback: nat, v: Node, g: Steps, drift: int, t: int)
    requires v.Vector? && v.at.None? && v.offset == 0 && lookback > 0 && g.Valid() && g.Has(t)
    ensures Reads(lookback, v, g, drift, t)
  {
    assert SelectorReads(lookback, v, g, drift, t, t);
  }

  lemma OneSubquery(e: Node)
    requires e.Subquery?
    ensures [] + [e] == [e] && PathTimes([e]) == SubqueryTimes(e.offset, e.range, e.at)
  {
    assert [e][..0] == [];
  }

  lemma OneMore(path: seq<Node>, n: Node)
    requires !n.Subquery?
    ensures PathTimes(path + [n]) == PathTimes(path)
  {
    assert (path + [n])[..|path + [n]| - 1] == path;
  }

  /** (foo @ 5)[8:10] offset 2 from 10 to 20 in steps of 5: the step at 15 depends on foo at 7, and the
      bounds end at 5. */
  lemma DriftedSelectorReadsPastBounds()
    ensures
      var s, e := Stmt(10, 20, 5, 5), Subquery(Hoisted(Vector(Some(5), 0, Standard)), None, 2, 8, 10);
      && FindMinMaxTime(s, e) == Interval(1, 5)
      && Uses(s.lookback, e, TopGrid(s), 0, 15, 7)
      && !Settled(e, TopGrid(s), 0)
  {
    var s, v := Stmt(10, 20, 5, 5), Vector(Some(5), 0, Standard);
    var h := Hoisted(v);
    var e := Subquery(h, None, 2, 8, 10);
    OneSubquery(e);
    OneMore([e], h);
    var child, drift := Below(e, TopGrid(s), 0), DriftBelow(e, TopGrid(s), 0);
    assert child.start == 10 && drift == 2;
    assert SelectorReads(5, v, Once(child), drift, 10, 7);
    assert Uses(5, h, child, drift, 10, 7);
    assert child.Has(10) && InWindow(e, 15, 10);
  }

  /** A selector with an @ timestamp in the parameter of an aggregation moves on with the steps: foo @ 0
      from 0 to 10 in steps of 10 is read up to 10. */
  lemma MovingSelectorReadsPastBounds()
    ensures
      var s, v := Stmt(0, 10, 10, 5), Vector(Some(0), 0, Standard);
      FindMinMaxTime(s, v) == Interval(-4, 0) && Uses(s.lookback, v, TopGrid(s), 0, 10, 10) && !Settled(v, TopGrid(s), 0)
  {
  }

  /** timestamp(foo @ 7 offset 3) looks at foo at 7, and the bounds end at 4. */
  lemma StampReadsPastBounds()
    ensures
      var s, v := Stmt(0, 10, 10, 5), Stamp(Some(7), 3, Standard);
      FindMinMaxTime(s, v) == Interval(0, 4) && Uses(s.lookback, v, TopGrid(s), 0, 0, 7) && !Settled(v, TopGrid(s), 0)
  {
  }
}
