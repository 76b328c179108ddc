/** Two more ways in which stored offsets lead astray, with the exact conditions: the offset of a pinned
    selector under timestamp, and a pinned selector in a subquery whose child grid starts with its
    parent's. */
module StoredOffsets {
  import opened Basics
  import opened Grid
  import opened StepInvariant
  import opened Agreement

  // ---------------------------------------------------------------- timestamp

  function TimestampOf(sel: nat, at: At, offset: int): (e: Expr)
    ensures Plain(e)
  {
    var v := Vector(sel, at, offset);
    assert Plain(v);
    Call("timestamp", [v])
  }

  lemma TimestampDen(q: Query, sel: nat, at: At, offset: int, t: int)
    ensures Den(Free(), q, TimestampOf(sel, at, offset), t) ==
      TimestampTerm(sel, Reference(Pin(Resolve(at, q)), t) - offset)
  {
    assert Unwrap(TimestampOf(sel, at, offset).args[0]) == Vector(sel, at, offset);
  }

  lemma TimestampOk(q: Query, sel: nat, at: At, offset: int, g: Steps)
    requires g.Valid() && (Resolve(at, q).NoAt? || offset == 0)
    ensures Ok(q, TimestampOf(sel, at, offset), g, 0)
  {
    assert Unwrap(TimestampOf(sel, at, offset).args[0]) == Vector(sel, at, offset);
  }

  lemma TimestampForgets(q: Query, sel: nat, at: At, offset: int, g: Steps)
    requires g.Valid() && g.Count() > 0 && Resolve(at, q).AtTime?
    ensures Eval(Free(), PreprocessExpr(q, TimestampOf(sel, at, offset)), g, 0)[0] == TimestampTerm(sel, Resolve(at, q).ts)
  {
    var e, v := TimestampOf(sel, at, offset), Vector(sel, Resolve(at, q), offset);
    assert Unwrap(e.args[0]) == Vector(sel, at, offset);
    TimestampShape(q, e);
    assert Preprocess(q, e).wrap;
    HoistedAt(Free(), Preprocess(q, e).expr, g, 0, 0);
    TimestampEval(Free(), Preprocess(q, e).expr, v, Once(g), 0);
  }

  /** timestamp of a selector is right exactly if there is no @ timestamp or no offset. */
  lemma TimestampOffsetIff(q: Query, sel: nat, at: At, offset: int, g: Steps)
    requires g.Valid() && g.Count() > 0
    ensures
      var e := TimestampOf(sel, at, offset);
      Denotes(Free(), q, e, Eval(Free(), PreprocessExpr(q, e), g, 0), g) <==> Resolve(at, q).NoAt? || offset == 0
  {
    var e := TimestampOf(sel, at, offset);
    if Resolve(at, q).NoAt? || offset == 0 {
      FreeIsSafe();
      TimestampOk(q, sel, at, offset, g);
      QueryPreservesMeaning(Free(), q, e, g);
    } else {
      TimestampForgets(q, sel, at, offset, g);
      TimestampDen(q, sel, at, offset, g.At(0));
    }
  }

  /** In a query from 0 to 10 in steps of 10, timestamp(foo @ 7 offset 3) reads foo at 7. */
  lemma TimestampFails(foo: nat, g: Steps)
    requires g == Steps(0, 10, 10)
    ensures
      var q, e := Query(0, 10), TimestampOf(foo, AtTime(7), 3);
      !Denotes(Free(), q, e, Eval(Free(), PreprocessExpr(q, e), g, 0), g)
  {
    TimestampOffsetIff(Query(0, 10), foo, AtTime(7), 3, g);
  }

  // ---------------------------------------------------------------- drift

  /** A subquery over a pinned selector. */
  function OverPinned(sel: nat, ts: int, own: int, at: At, offset: int, range: int, step: int): (e: Expr)
    requires range > 0 && step > 0
    ensures Plain(e)
  {
    var v := Vector(sel, AtTime(ts), own);
    assert Plain(v);
    Subquery(v, at, offset, range, step)
  }

  /** The window of step k holds no step of the subquery. */
  predicate Blind(q: Query, e: Expr, g: Steps, k: int)
    requires e.Subquery? && e.step > 0
  {
    WindowSteps(Reference(Pin(Resolve(e.at, q)), g.At(k)) - e.offset, e.range, e.step).Count() == 0
  }

  ghost function Constant(c: Term): int -> Term {
    (u: int) => c
  }

  /** Every step of the child grid reads the selector at the @ timestamp plus the drift. */
  lemma PinnedChild(sel: nat, ts: int, own: int, child: Steps, drift: int)
    requires child.Valid()
    ensures Tabulates(Constant(VectorTerm(sel, ts - own + drift)),
                      Eval(Free(), StepInvariantExpr(Vector(sel, AtTime(ts), own)), child, drift), child)
  {
    var v := Vector(sel, AtTime(ts), own);
    forall k | 0 <= k < child.Count()
      ensures Eval(Free(), StepInvariantExpr(v), child, drift)[k] == VectorTerm(sel, ts - own + drift)
    {
      HoistedAt(Free(), v, child, drift, k);
      assert Once(child).At(0) == child.start;
    }
  }

  lemma OverPinnedShape(q: Query, sel: nat, ts: int, own: int, e: Expr)
    requires e.Subquery? && e.expr == Vector(sel, AtTime(ts), own)
    ensures PreprocessExpr(q, e) == Subquery(StepInvariantExpr(e.expr), Resolve(e.at, q), e.offset, e.range, e.step)
  {
    assert Preprocess(q, e.expr) == Pre(e.expr, true, true);
  }

  lemma PinnedWindow(sel: nat, ts: int, own: int, e: Expr, g: Steps, k: nat, drift: int)
    requires e.Subquery? && e.step > 0 && g.Valid() && k < g.Count() && drift == DriftBelow(e, g, 0)
    requires e.expr == StepInvariantExpr(Vector(sel, AtTime(ts), own))
    ensures Eval(Free(), e, g, 0)[k] ==
      PointsTerm(WindowValues(Constant(VectorTerm(sel, ts - own + drift)), Reference(Pin(e.at), g.At(k)) - e.offset, e.range, e.step))
  {
    PinnedChild(sel, ts, own, Below(e, g, 0), drift);
    SubqueryStep(Free(), Constant(VectorTerm(sel, ts - own + drift)), e, g, 0, k);
  }

  /** The value of a rewritten query at a step, and what the query means there. */
  ghost function Got(q: Query, e: Expr, g: Steps, k: nat): Term
    requires g.Valid() && k < g.Count()
  {
    Eval(Free(), PreprocessExpr(q, e), g, 0)[k]
  }

  ghost function Meant(q: Query, e: Expr, t: int): Term
    requires Plain(e)
  {
    Den(Free(), q, e, t)
  }

  /** What a subquery over a pinned selector is evaluated to. */
  lemma OverPinnedEval(q: Query, sel: nat, ts: int, own: int, e: Expr, g: Steps, k: nat)
    requires e.Subquery? && e.step > 0 && e.expr == Vector(sel, AtTime(ts), own) && g.Valid() && k < g.Count()
    ensures
      var ref := Reference(Pin(Resolve(e.at, q)), g.At(k)) - e.offset;
      var drift := DriftBelow(Resolved(q, e), g, 0);
      Got(q, e, g, k) == PointsTerm(WindowValues(Constant(VectorTerm(sel, ts - own + drift)), ref, e.range, e.step))
  {
    var e' := Subquery(StepInvariantExpr(e.expr), Resolve(e.at, q), e.offset, e.range, e.step);
    OverPinnedShape(q, sel, ts, own, e);
    PinnedWindow(sel, ts, own, e', g, k, DriftBelow(Resolved(q, e), g, 0));
  }

  lemma SubqueryDen(q: Query, e: Expr, t: int)
    requires e.Subquery? && Plain(e)
    ensures Den(Free(), q, e, t) ==
      PointsTerm(WindowValues((u: int) => Den(Free(), q, e.expr, u), Reference(Pin(Resolve(e.at, q)), t) - e.offset, e.range, e.step))
  {
    var ref := Reference(Pin(Resolve(e.at, q)), t) - e.offset;
    var w := WindowSteps(ref, e.range, e.step);
    assert WindowValues((u: int) => Den(Free(), q, e.expr, u), ref, e.range, e.step) ==
      seq(w.Count(), k requires 0 <= k < w.Count() => (w.At(k), Den(Free(), q, e.expr, w.At(k))));
  }

  /** What it means. */
  lemma OverPinnedDen(q: Query, sel: nat, ts: int, own: int, e: Expr, t: int)
    requires e.Subquery? && e.step > 0 && e.expr == Vector(sel, AtTime(ts), own) && Plain(e)
    ensures Meant(q, e, t) ==
      PointsTerm(WindowValues(Constant(VectorTerm(sel, ts - own)), Reference(Pin(Resolve(e.at, q)), t) - e.offset, e.range, e.step))
  {
    SubqueryDen(q, e, t);
    var ref := Reference(Pin(Resolve(e.at, q)), t) - e.offset;
    assert WindowValues((u: int) => Den(Free(), q, e.expr, u), ref, e.range, e.step) ==
      WindowValues(Constant(VectorTerm(sel, ts - own)), ref, e.range, e.step);
  }

  lemma ConstantsDiffer(a: Term, b: Term, ref: int, range: int, step: int, got: Term, want: Term)
    requires step > 0
    requires got == PointsTerm(WindowValues(Constant(a), ref, range, step))
    requires want == PointsTerm(WindowValues(Constant(b), ref, range, step))
    ensures got == want <==> a == b || WindowSteps(ref, range, step).Count() == 0
  {
    var x, y := WindowValues(Constant(a), ref, range, step), WindowValues(Constant(b), ref, range, step);
    if |x| > 0 && a != b {
      assert x[0] != y[0];
    }
    if |x| == 0 {
      assert x == y;
    }
  }

  lemma DriftDecides(q: Query, sel: nat, ts: int, own: int, e: Expr, g: Steps, k: nat, drift: int, got: Term, want: Term)
    requires e.Subquery? && e.step > 0
    requires
      var ref := Reference(Pin(Resolve(e.at, q)), g.At(k)) - e.offset;
      && got == PointsTerm(WindowValues(Constant(VectorTerm(sel, ts - own + drift)), ref, e.range, e.step))
      && want == PointsTerm(WindowValues(Constant(VectorTerm(sel, ts - own)), ref, e.range, e.step))
    ensures got == want <==> drift == 0 || Blind(q, e, g, k)
  {
    var ref := Reference(Pin(Resolve(e.at, q)), g.At(k)) - e.offset;
    ConstantsDiffer(VectorTerm(sel, ts - own + drift), VectorTerm(sel, ts - own), ref, e.range, e.step, got, want);
  }

  lemma DriftAt(q: Query, sel: nat, ts: int, own: int, e: Expr, g: Steps, k: nat)
    requires e.Subquery? && e.step > 0 && e.expr == Vector(sel, AtTime(ts), own) && Plain(e) && g.Valid() && k < g.Count()
    ensures Got(q, e, g, k) == Meant(q, e, g.At(k)) <==>
      DriftBelow(Resolved(q, e), g, 0) == 0 || Blind(q, e, g, k)
  {
    OverPinnedEval(q, sel, ts, own, e, g, k);
    OverPinnedDen(q, sel, ts, own, e, g.At(k));
    DriftDecides(q, sel, ts, own, e, g, k, DriftBelow(Resolved(q, e), g, 0),
                 Got(q, e, g, k), Meant(q, e, g.At(k)));
  }

  /** A subquery over a pinned selector is right exactly if its child grid does not start with the parent's,
      or it has no effective offset, or no step sees anything of it. */
  lemma DriftIff(q: Query, sel: nat, ts: int, own: int, e: Expr, g: Steps)
    requires e.Subquery? && e.step > 0 && e.expr == Vector(sel, AtTime(ts), own) && Plain(e) && g.Valid()
    ensures
      Denotes(Free(), q, e, Eval(Free(), PreprocessExpr(q, e), g, 0), g) <==>
        || Below(Resolved(q, e), g, 0).start != g.start
        || EffectiveOffset(Pin(Resolve(e.at, q)), e.offset, g.start) == 0
        || forall k :: 0 <= k < g.Count() ==> Blind(q, e, g, k)
  {
    var vals := Eval(Free(), PreprocessExpr(q, e), g, 0);
    forall k | 0 <= k < |vals|
      ensures vals[k] == Den(Free(), q, e, g.At(k)) <==> DriftBelow(Resolved(q, e), g, 0) == 0 || Blind(q, e, g, k)
    {
      DriftAt(q, sel, ts, own, e, g, k);
    }
  }

  /** (foo @ 5)[8:10] offset 2, in a query from 10 to 20 in steps of 5: at the second step the subquery
      shows foo at 7. */
  lemma DriftFails(q: Query, foo: nat, g: Steps, e: Expr)
    requires g == Steps(10, 20, 5) && e == OverPinned(foo, 5, 0, NoAt, 2, 8, 10)
    ensures !Denotes(Free(), q, e, Eval(Free(), PreprocessExpr(q, e), g, 0), g)
  {
    assert Below(Resolved(q, e), g, 0).start == 10;
    assert g.Count() == 3 && g.At(1) == 15;
    assert WindowSteps(13, 8, 10).Count() == 1;
    assert !Blind(q, e, g, 1);
    DriftIff(q, foo, 5, 0, e, g);
  }
}
