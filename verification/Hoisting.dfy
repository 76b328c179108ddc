/** What is hoisted and what is not: everything invariant is, at the highest level, and the functions that
    look at the evaluation time are evaluated at every step, whatever their arguments. */
module Hoisting {
  import opened Basics
  import opened Grid
  import opened StepInvariant

  // ---------------------------------------------------------------- everything invariant is hoisted

  /** Every selector and subquery that counts has an @ timestamp, and no function looks at the time.  Parameters
      of aggregations and expressions inside subqueries do not count. */
  predicate Invariant(q: Query, e: Expr) {
    match e
    case Vector(_, at, _) => !at.NoAt?
    case Range(_, at, _, _) => !at.NoAt?
    case Subquery(_, at, _, _, _) => !at.NoAt?
    case Call(f, args) =>
      && (LooksAtTime(f) ==> f == "timestamp" && forall i :: 0 <= i < |args| ==> Unwrap(args[i]).Vector?)
      && forall i :: 0 <= i < |args| ==> Invariant(q, args[i])
    case Aggregate(_, x, _) => Invariant(q, x)
    case Binary(_, l, r) => Invariant(q, l) && Invariant(q, r)
    case Unary(_, x) => Invariant(q, x)
    case Paren(x) => Invariant(q, x)
    case StepInvariantExpr(_) => false
    case _ => true
  }

  lemma {:induction false} UnwrapInvariant(q: Query, e: Expr)
    ensures Invariant(q, Unwrap(e)) == Invariant(q, e)
  {
    if e.Paren? {
      UnwrapInvariant(q, e.expr);
    }
  }

  /** The rewrite reports exactly the invariant expressions. */
  lemma {:induction false} HoistableIff(q: Query, e: Expr)
    ensures Preprocess(q, e).hoistable <==> Invariant(q, e)
    decreases e
  {
    match e
    case Call(f, args) =>
      UnsafeLookAtTime(f);
      forall i | 0 <= i < |args| ensures Preprocess(q, Unwrap(args[i])).hoistable <==> Invariant(q, args[i]) {
        UnwrapInvariant(q, args[i]);
        HoistableIff(q, Unwrap(args[i]));
      }
    case Aggregate(_, x, _) =>
      UnwrapInvariant(q, x);
      HoistableIff(q, Unwrap(x));
    case Binary(_, l, r) =>
      HoistableIff(q, l);
      HoistableIff(q, r);
    case Unary(_, x) => HoistableIff(q, x);
    case Paren(x) => HoistableIff(q, x);
    case _ =>
  }

  /** What can be hoisted: neither a literal nor a range. */
  predicate InstantVector(e: Expr) {
    match e
    case Vector(_, _, _) => true
    case Call(_, _) => true
    case Aggregate(_, x, _) => InstantVector(x)
    case Binary(_, _, _) => true
    case Unary(_, x) => InstantVector(x)
    case Paren(x) => InstantVector(x)
    case _ => false
  }

  lemma {:induction false} UnwrapInstant(e: Expr)
    requires InstantVector(e)
    ensures InstantVector(Unwrap(e))
  {
    if e.Paren? {
      UnwrapInstant(e.expr);
    }
  }

  lemma {:induction false} InstantVectorWraps(q: Query, e: Expr)
    requires InstantVector(e) && Preprocess(q, e).hoistable
    ensures Preprocess(q, e).wrap
    decreases e
  {
    match e
    case Aggregate(_, x, _) =>
      UnwrapInstant(x);
      InstantVectorWraps(q, Unwrap(x));
    case Unary(_, x) => InstantVectorWraps(q, x);
    case Paren(x) => InstantVectorWraps(q, x);
    case _ =>
  }

  /** Nothing is hoisted in the tree, except inside subqueries; parameters are not looked at. */
  predicate Unhoisted(e: Expr) {
    match e
    case Call(_, args) => forall i :: 0 <= i < |args| ==> Unhoisted(args[i])
    case Aggregate(_, x, _) => Unhoisted(x)
    case Binary(_, l, r) => Unhoisted(l) && Unhoisted(r)
    case Unary(_, x) => Unhoisted(x)
    case Paren(x) => Unhoisted(x)
    case StepInvariantExpr(_) => false
    case _ => true
  }

  /** Below what is hoisted nothing else is. */
  lemma {:induction false} HoistableUnhoisted(q: Query, e: Expr)
    requires Preprocess(q, e).hoistable
    ensures Unhoisted(Preprocess(q, e).expr)
    decreases e
  {
    match e
    case Call(_, args) =>
      forall i | 0 <= i < |args| ensures Unhoisted(Preprocess(q, e).expr.args[i]) {
        HoistableUnhoisted(q, Unwrap(args[i]));
      }
    case Aggregate(_, x, _) => HoistableUnhoisted(q, Unwrap(x));
    case Binary(_, l, r) =>
      HoistableUnhoisted(q, l);
      HoistableUnhoisted(q, r);
    case Unary(_, x) => HoistableUnhoisted(q, x);
    case Paren(x) => HoistableUnhoisted(q, x);
    case _ =>
  }

  /** An invariant instant vector is hoisted as a whole: evaluated once, and nothing in it separately. */
  lemma HoistedAsWhole(q: Query, e: Expr)
    requires InstantVector(e) && Invariant(q, e)
    ensures PreprocessExpr(q, e).StepInvariantExpr? && Unhoisted(PreprocessExpr(q, e).expr)
  {
    HoistableIff(q, e);
    InstantVectorWraps(q, e);
    HoistableUnhoisted(q, e);
  }

  // ---------------------------------------------------------------- functions of the time are not

  /** Arguments as the rewrite leaves them in a call that is not hoisted. */
  function Arguments(q: Query, args: seq<Expr>): (r: seq<Expr>)
    ensures |r| == |args|
  {
    seq(|args|, i requires 0 <= i < |args| => Wrap(Preprocess(q, Unwrap(args[i]))))
  }

  ghost function ArgumentValues<V>(m: Model<V>, q: Query, args: seq<Expr>, g: Steps, k: nat): (r: seq<V>)
    requires g.Valid() && k < g.Count()
    ensures |r| == |args|
  {
    seq(|args|, i requires 0 <= i < |args| => Eval(m, Arguments(q, args)[i], g, 0)[k])
  }

  /** Any of these functions, with any arguments: it is called at every step with the time of that step. */
  lemma CalledAtEveryStep<V>(m: Model<V>, q: Query, f: string, args: seq<Expr>, g: Steps, k: nat)
    requires
      || f == "time" || f == "minute" || f == "hour" || f == "month" || f == "year"
      || f == "day_of_week" || f == "day_of_month" || f == "day_of_year" || f == "days_in_month"
      || f == "start" || f == "end" || f == "step" || f == "range" || f == "predict_linear"
    requires g.Valid() && k < g.Count()
    ensures PreprocessExpr(q, Call(f, args)) == Call(f, Arguments(q, args))
    ensures
      Eval(m, PreprocessExpr(q, Call(f, args)), g, 0)[k] ==
        m.call(f, g.At(k), ArgumentValues(m, q, args, g, k))
  {
    NotHoisted(m, q, f, args, g, k);
  }

  lemma NotHoisted<V>(m: Model<V>, q: Query, f: string, args: seq<Expr>, g: Steps, k: nat)
    requires LooksAtTime(f) && (f == "timestamp" ==> |args| == 1 && !Unwrap(args[0]).Vector?) && g.Valid() && k < g.Count()
    ensures PreprocessExpr(q, Call(f, args)) == Call(f, Arguments(q, args))
    ensures
      Eval(m, PreprocessExpr(q, Call(f, args)), g, 0)[k] ==
        m.call(f, g.At(k), ArgumentValues(m, q, args, g, k))
  {
    var args' := Arguments(q, args);
    UnsafeLookAtTime(f);
    assert PreprocessExpr(q, Call(f, args)) == Call(f, args');
    forall i | 0 <= i < |args'| ensures !HiddenRange(args'[i]) {
      ArgumentsUnwrapped(q, Call(f, args), i);
    }
    if f == "timestamp" {
      NotASelector(q, Unwrap(args[0]));
    }
    EvalCallAt(m, f, args', g, 0, k);
    assert ArgumentValues(m, q, args, g, k) == seq(|args'|, i requires 0 <= i < |args'| => Eval(m, args'[i], g, 0)[k]);
  }

  /** time() is the time of each step. */
  lemma TimeAtEveryStep<V>(m: Model<V>, q: Query, g: Steps, k: nat)
    requires g.Valid() && k < g.Count()
    ensures Eval(m, PreprocessExpr(q, Call("time", [])), g, 0)[k] == m.call("time", g.At(k), [])
  {
    CalledAtEveryStep(m, q, "time", [], g, k);
    assert ArgumentValues(m, q, [], g, k) == [];
  }

  /** So are the functions of the query context. */
  lemma ContextAtEveryStep<V>(m: Model<V>, q: Query, f: string, g: Steps, k: nat)
    requires (f == "start" || f == "end" || f == "step" || f == "range") && g.Valid() && k < g.Count()
    ensures Eval(m, PreprocessExpr(q, Call(f, [])), g, 0)[k] == m.call(f, g.At(k), [])
  {
    CalledAtEveryStep(m, q, f, [], g, k);
    assert ArgumentValues(m, q, [], g, k) == [];
  }

  /** What a hoisted selector is evaluated to. */
  lemma PinnedAt<V>(m: Model<V>, q: Query, sel: nat, ts: int, offset: int, g: Steps, k: nat)
    requires g.Valid() && k < g.Count()
    ensures
      var x := Wrap(Preprocess(q, Vector(sel, AtTime(ts), offset)));
      Eval(m, x, g, 0)[k] == m.vector(sel, ts - offset)
  {
    HoistedAt(m, Vector(sel, AtTime(ts), offset), g, 0, k);
    assert Once(g).At(0) == g.start;
  }

  /** The parts of the date, of a vector that is the same at every step. */
  lemma DateAtEveryStep<V>(m: Model<V>, q: Query, f: string, sel: nat, ts: int, offset: int, g: Steps, k: nat)
    requires
      || f == "minute" || f == "hour" || f == "month" || f == "year"
      || f == "day_of_week" || f == "day_of_month" || f == "day_of_year" || f == "days_in_month"
    requires g.Valid() && k < g.Count()
    ensures
      Eval(m, PreprocessExpr(q, Call(f, [Vector(sel, AtTime(ts), offset)])), g, 0)[k] ==
        m.call(f, g.At(k), [m.vector(sel, ts - offset)])
  {
    var args := [Vector(sel, AtTime(ts), offset)];
    CalledAtEveryStep(m, q, f, args, g, k);
    PinnedAt(m, q, sel, ts, offset, g, k);
    assert ArgumentValues(m, q, args, g, k) == [m.vector(sel, ts - offset)];
  }

  lemma RangePinnedAt<V>(m: Model<V>, q: Query, sel: nat, ts: int, offset: int, range: int, v: real, g: Steps, k: nat)
    requires g.Valid() && k < g.Count()
    ensures Eval(m, Wrap(Preprocess(q, Range(sel, AtTime(ts), offset, range))), g, 0)[k] == m.range(sel, ts - offset, range)
    ensures Eval(m, Wrap(Preprocess(q, Number(v))), g, 0)[k] == m.number(v)
  {
  }

  /** predict_linear over a range that is the same at every step. */
  lemma PredictionAtEveryStep<V>(m: Model<V>, q: Query, sel: nat, ts: int, offset: int, range: int, v: real, g: Steps, k: nat)
    requires g.Valid() && k < g.Count()
    ensures
      Eval(m, PreprocessExpr(q, Call("predict_linear", [Range(sel, AtTime(ts), offset, range), Number(v)])), g, 0)[k] ==
        m.call("predict_linear", g.At(k), [m.range(sel, ts - offset, range), m.number(v)])
  {
    var args := [Range(sel, AtTime(ts), offset, range), Number(v)];
    CalledAtEveryStep(m, q, "predict_linear", args, g, k);
    RangePinnedAt(m, q, sel, ts, offset, range, v, g, k);
    assert ArgumentValues(m, q, args, g, k) ==
      [m.range(sel, ts - offset, range), m.number(v)];
  }

  /** timestamp of anything but a selector, here of abs of one that is the same at every step: abs is evaluated
      at the first step, timestamp at each. */
  lemma TimestampAtEveryStep<V>(m: Model<V>, q: Query, sel: nat, ts: int, offset: int, g: Steps, k: nat)
    requires g.Valid() && k < g.Count()
    ensures
      Eval(m, PreprocessExpr(q, Call("timestamp", [Call("abs", [Vector(sel, AtTime(ts), offset)])])), g, 0)[k] ==
        m.call("timestamp", g.At(k), [m.call("abs", g.start, [m.vector(sel, ts - offset)])])
  {
    var abs := Call("abs", [Vector(sel, AtTime(ts), offset)]);
    NotHoisted(m, q, "timestamp", [abs], g, k);
    AbsOnce(m, q, sel, ts, offset, abs, g, k);
    assert ArgumentValues(m, q, [abs], g, k) ==
      [m.call("abs", g.start, [m.vector(sel, ts - offset)])];
  }

  lemma AbsOnce<V>(m: Model<V>, q: Query, sel: nat, ts: int, offset: int, abs: Expr, g: Steps, k: nat)
    requires g.Valid() && k < g.Count() && abs == Call("abs", [Vector(sel, AtTime(ts), offset)])
    ensures Eval(m, Wrap(Preprocess(q, abs)), g, 0)[k] == m.call("abs", g.start, [m.vector(sel, ts - offset)])
  {
    var v := Vector(sel, AtTime(ts), offset);
    HoistableIff(q, abs);
    assert Preprocess(q, abs).expr.args == [v];
    HoistedAt(m, Call("abs", [v]), g, 0, k);
    EvalCallAt(m, "abs", [v], Once(g), 0, 0);
    assert Once(g).At(0) == g.start;
    assert seq(1, i requires 0 <= i < 1 => Eval(m, [v][i], Once(g), 0)[0]) == [m.vector(sel, ts - offset)];
  }
}
