/** What a query means and what evaluation makes of it, written out: the times that selectors refer to, the
    steps of a subquery, and the order of operands. */
module QueryMeaning {
  import opened Basics
  import opened Grid
  import opened StepInvariant

  /** The time that a modifier refers to, for an expression at time t. */
  ghost function TimeOf(at: At, q: Query, t: int): int {
    match at
    case NoAt => t
    case AtTime(ts) => ts
    case AtStart => q.start
    case AtEnd => q.end
  }

  // ---------------------------------------------------------------- meaning

  lemma SelectorMeans<V>(m: Model<V>, q: Query, sel: nat, at: At, offset: int, range: int, t: int)
    ensures Den(m, q, Vector(sel, at, offset), t) == m.vector(sel, TimeOf(at, q, t) - offset)
    ensures Den(m, q, Range(sel, at, offset, range), t) == m.range(sel, TimeOf(at, q, t) - offset, range)
    ensures Den(m, q, Call("timestamp", [Vector(sel, at, offset)]), t) == m.timestamp(sel, TimeOf(at, q, t) - offset)
  {
  }

  /** A subquery yields the values of its expression at the multiples of its step in the window, in the order
      of time, each with its own time. */
  lemma SubqueryMeans<V>(m: Model<V>, q: Query, x: Expr, at: At, offset: int, range: int, step: int, t: int)
    returns (points: seq<(int, V)>)
    requires Plain(x) && step > 0 && range > 0
    ensures Den(m, q, Subquery(x, at, offset, range, step), t) == m.points(points)
    ensures forall i, j :: 0 <= i < j < |points| ==> points[i].0 < points[j].0
    ensures
      var end := TimeOf(at, q, t) - offset;
      forall u, v :: (u, v) in points <==> u % step == 0 && end - range < u <= end && v == Den(m, q, x, u)
  {
    var end := TimeOf(at, q, t) - offset;
    points := PointsOf(m, q, x, WindowSteps(end, range, step));
    var w := WindowSteps(end, range, step);
    forall i, j | 0 <= i < j < |points| ensures points[i].0 < points[j].0 {
      MulOrder(i, j, step);
    }
    forall u, v ensures (u, v) in points <==> u % step == 0 && end - range < u <= end && v == Den(m, q, x, u) {
      PointOfWindow(m, q, x, w, u, v);
      InWindow(end, range, step, u);
    }
  }

  ghost function PointsOf<V>(m: Model<V>, q: Query, x: Expr, w: Steps): (r: seq<(int, V)>)
    requires Plain(x) && w.Valid()
    ensures |r| == w.Count() && forall k :: 0 <= k < |r| ==> r[k] == (w.At(k), Den(m, q, x, w.At(k)))
  {
    seq(w.Count(), k requires 0 <= k < w.Count() => (w.At(k), Den(m, q, x, w.At(k))))
  }

  lemma PointOfWindow<V>(m: Model<V>, q: Query, x: Expr, w: Steps, u: int, v: V)
    requires Plain(x) && w.Valid()
    ensures (u, v) in PointsOf(m, q, x, w) <==> w.Has(u) && v == Den(m, q, x, u)
  {
    var points := PointsOf(m, q, x, w);
    if (u, v) in points {
      var k :| 0 <= k < |points| && points[k] == (u, v);
      AtHas(w, k);
    }
    if w.Has(u) && v == Den(m, q, x, u) {
      var k := HasAt(w, u);
      assert points[k] == (u, v);
    }
  }

  lemma InWindow(end: int, range: int, step: int, u: int)
    requires step > 0
    ensures WindowSteps(end, range, step).Has(u) <==> u % step == 0 && end - range < u <= end
  {
    var s := WindowSteps(end, range, step).start;
    MultipleGap(s, u, step);
    if u % step == 0 && end - range < u < s {
      MultipleGap(u, s, step);
      DivModUnique(s - u, step, 0, s - u);
    }
  }

  /** Operators get the values of their operands in order, and functions the time and the values of their
      arguments; parentheses change nothing. */
  lemma OperatorMeans<V>(m: Model<V>, q: Query, op: string, x: Expr, y: Expr, f: string, t: int)
    requires Plain(x) && Plain(y) && f != "timestamp"
    ensures
      var a, b := Den(m, q, x, t), Den(m, q, y, t);
      && Den(m, q, Binary(op, x, y), t) == m.binary(op, a, b)
      && Den(m, q, Aggregate(op, x, y), t) == m.aggregate(op, a, b)
      && Den(m, q, Unary(op, x), t) == m.unary(op, a)
      && Den(m, q, Paren(x), t) == a
      && Den(m, q, Call(f, [x, y]), t) == m.call(f, t, [a, b])
  {
    var args := [x, y];
    assert seq(|args|, i requires 0 <= i < |args| => Den(m, q, args[i], t)) == [Den(m, q, x, t), Den(m, q, y, t)];
  }

  lemma LiteralMeans<V>(m: Model<V>, q: Query, v: real, s: string, t: int)
    ensures Den(m, q, Number(v), t) == m.number(v) && Den(m, q, Text(s), t) == m.text(s)
  {
  }

  // ---------------------------------------------------------------- evaluation

  /** At every step a selector is evaluated at the time it refers to, in every model. */
  lemma SelectorAtStep<V>(m: Model<V>, q: Query, sel: nat, at: At, offset: int, range: int, g: Steps, k: nat)
    requires g.Valid() && k < g.Count()
    ensures
      var t := TimeOf(at, q, g.start + k * g.step) - offset;
      && Eval(m, PreprocessExpr(q, Vector(sel, at, offset)), g, 0)[k] == m.vector(sel, t)
      && Eval(m, PreprocessExpr(q, Range(sel, at, offset, range)), g, 0)[k] == m.range(sel, t, range)
  {
    if !at.NoAt? {
      HoistedAt(m, Vector(sel, Resolve(at, q), offset), g, 0, k);
      assert Once(g).At(0) == g.start;
    }
  }

  lemma VectorAtStep<V>(m: Model<V>, sel: nat, offset: int, g: Steps, k: nat)
    requires g.Valid() && k < g.Count()
    ensures Eval(m, Vector(sel, NoAt, offset), g, 0)[k] == m.vector(sel, g.start + k * g.step - offset)
  {
  }

  /** The rewrite leaves x as it is. */
  ghost predicate Kept(q: Query, x: Expr) {
    !x.Paren? && Preprocess(q, x) == Pre(x, false, false)
  }

  lemma SelectorKept(q: Query, sel: nat, offset: int)
    ensures Kept(q, Vector(sel, NoAt, offset))
  {
  }

  lemma OperatorKept(q: Query, op: string, x: Expr, y: Expr)
    requires Kept(q, x) && Kept(q, y)
    ensures PreprocessExpr(q, Binary(op, x, y)) == Binary(op, x, y)
    ensures PreprocessExpr(q, Aggregate(op, x, y)) == Aggregate(op, x, y)
  {
  }

  lemma EvalOperator<V>(m: Model<V>, op: string, x: Expr, y: Expr, g: Steps, k: nat)
    requires g.Valid() && k < g.Count()
    ensures Eval(m, Binary(op, x, y), g, 0)[k] == m.binary(op, Eval(m, x, g, 0)[k], Eval(m, y, g, 0)[k])
    ensures Eval(m, Aggregate(op, x, y), g, 0)[k] == m.aggregate(op, Eval(m, x, g, 0)[k], Eval(m, y, g, 0)[k])
  {
  }

  /** So are the operands of an operator, which stay in order. */
  lemma OperatorAtStep<V>(m: Model<V>, q: Query, op: string, a: nat, b: nat, i: int, j: int, g: Steps, k: nat)
    requires g.Valid() && k < g.Count()
    ensures
      var x, y, t := Vector(a, NoAt, i), Vector(b, NoAt, j), g.start + k * g.step;
      && Eval(m, PreprocessExpr(q, Binary(op, x, y)), g, 0)[k] == m.binary(op, m.vector(a, t - i), m.vector(b, t - j))
      && Eval(m, PreprocessExpr(q, Aggregate(op, x, y)), g, 0)[k] == m.aggregate(op, m.vector(a, t - i), m.vector(b, t - j))
  {
    var x, y := Vector(a, NoAt, i), Vector(b, NoAt, j);
    VectorAtStep(m, a, i, g, k);
    VectorAtStep(m, b, j, g, k);
    SelectorKept(q, a, i);
    SelectorKept(q, b, j);
    OperatorKept(q, op, x, y);
    EvalOperator(m, op, x, y, g, k);
  }

  /** A subquery over a selector reads the selector at the multiples of the step in the window of each step;
      it, too, has the window that its own modifier refers to. */
  lemma SubqueryAtStep<V(!new)>(m: Model<V>, q: Query, sel: nat, inner: int, at: At, offset: int, range: int, step: int, g: Steps, k: nat)
    returns (points: seq<(int, V)>)
    requires g.Valid() && k < g.Count() && step > 0 && range > 0 && SafeFunctionsIgnoreTime(m)
    ensures Eval(m, PreprocessExpr(q, Subquery(Vector(sel, NoAt, inner), at, offset, range, step)), g, 0)[k] == m.points(points)
    ensures forall i, j :: 0 <= i < j < |points| ==> points[i].0 < points[j].0
    ensures
      var end := TimeOf(at, q, g.start + k * g.step) - offset;
      forall u, v :: (u, v) in points <==> u % step == 0 && end - range < u <= end && v == m.vector(sel, u - inner)
  {
    var x := Vector(sel, NoAt, inner);
    var e := Subquery(x, at, offset, range, step);
    QueryPreservesMeaning(m, q, e, g);
    points := SubqueryMeans(m, q, x, at, offset, range, step, g.At(k));
  }

  // ---------------------------------------------------------------- arguments as they stand

  /** In a tree that was not preprocessed, a call whose argument is a range or a subquery in parentheses gets
      something else than its value, and any other argument it gets. */
  lemma ArgumentInParentheses<V>(m: Model<V>, f: string, x: Expr, g: Steps, drift: int, k: nat)
    requires g.Valid() && k < g.Count() && f != "timestamp"
    ensures Eval(m, Call(f, [Paren(x)]), g, drift)[k] ==
      if Unwrap(x).Range? || Unwrap(x).Subquery? then m.misread(f, g.At(k))
      else m.call(f, g.At(k), [Eval(m, x, g, drift)[k]])
    ensures !x.Paren? ==> Eval(m, Call(f, [x]), g, drift)[k] == m.call(f, g.At(k), [Eval(m, x, g, drift)[k]])
  {
    var args := [Paren(x)];
    if Unwrap(x).Range? || Unwrap(x).Subquery? {
      assert HiddenRange(args[0]);
    } else {
      EvalCallAt(m, f, args, g, drift, k);
      assert seq(|args|, i requires 0 <= i < |args| => Eval(m, args[i], g, drift)[k]) == [Eval(m, x, g, drift)[k]];
    }
    if !x.Paren? {
      var bare := [x];
      EvalCallAt(m, f, bare, g, drift, k);
      assert seq(|bare|, i requires 0 <= i < |bare| => Eval(m, bare[i], g, drift)[k]) == [Eval(m, x, g, drift)[k]];
    }
  }
}
