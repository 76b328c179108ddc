/** When an aggregation keeps its meaning, in terms of its parameter alone, exactly; and inputs at which it
    does not. */
module ParameterCondition {
  import opened Basics
  import opened Grid
  import opened StepInvariant
  import opened Agreement

  // ---------------------------------------------------------------- the same at two times

  /** Two grids with the same steps. */
  predicate SameSteps(a: Steps, b: Steps)
    requires a.Valid() && b.Valid()
  {
    a.Count() == b.Count() && forall j :: 0 <= j < a.Count() ==> a.At(j) == b.At(j)
  }

  /** e means the same at t and u, as far as times decide it. */
  predicate SameAt(q: Query, e: Expr, t: int, u: int)
    requires Plain(e)
  {
    match e
    case Vector(_, at, _) => Resolve(at, q).AtTime? || t == u
    case Range(_, at, _, _) => Resolve(at, q).AtTime? || t == u
    case Subquery(_, _, _, _, _) => SameSteps(MeantSteps(q, e, t), MeantSteps(q, e, u))
    case Call(f, args) =>
      if IsTimestampOfSelector(f, args) then Resolve(Unwrap(args[0]).at, q).AtTime? || t == u
      else (LooksAtTime(f) ==> t == u) && forall i :: 0 <= i < |args| ==> SameAt(q, args[i], t, u)
    case Aggregate(_, x, p) => SameAt(q, x, t, u) && SameAt(q, p, t, u)
    case Binary(_, l, r) => SameAt(q, l, t, u) && SameAt(q, r, t, u)
    case Unary(_, x) => SameAt(q, x, t, u)
    case Paren(x) => SameAt(q, x, t, u)
    case _ => true
  }

  lemma SamePoints<V>(m: Model<V>, q: Query, e: Expr, t: int, u: int)
    requires e.Subquery? && Plain(e) && SameAt(q, e, t, u)
    ensures Den(m, q, e, t) == Den(m, q, e, u)
  {
    DenMeans(m, q, e, t);
    DenMeans(m, q, e, u);
    assert MeantPoints(m, q, e, t) == MeantPoints(m, q, e, u);
  }

  lemma CallDen<V>(m: Model<V>, q: Query, e: Expr, t: int, args: seq<V>)
    requires e.Call? && Plain(e) && !IsTimestampOfSelector(e.func, e.args) && |args| == |e.args|
    requires forall i :: 0 <= i < |args| ==> args[i] == Den(m, q, e.args[i], t)
    ensures Den(m, q, e, t) == m.call(e.func, t, args)
  {
    assert args == seq(|e.args|, i requires 0 <= i < |e.args| => Den(m, q, e.args[i], t));
  }

  /** Then it has the same value at both times, in every model. */
  lemma {:induction false} SameMeans<V(!new)>(m: Model<V>, q: Query, e: Expr, t: int, u: int)
    requires Plain(e) && SafeFunctionsIgnoreTime(m) && SameAt(q, e, t, u)
    ensures Den(m, q, e, t) == Den(m, q, e, u)
    decreases e
  {
    match e
    case Subquery(_, _, _, _, _) => SamePoints(m, q, e, t, u);
    case Call(f, args) =>
      if !IsTimestampOfSelector(f, args) {
        var vals := seq(|args|, i requires 0 <= i < |args| => Den(m, q, args[i], t));
        forall i | 0 <= i < |args| ensures vals[i] == Den(m, q, args[i], u) {
          SameMeans(m, q, args[i], t, u);
        }
        CallDen(m, q, e, t, vals);
        CallDen(m, q, e, u, vals);
      }
    case Aggregate(_, x, p) =>
      SameMeans(m, q, x, t, u);
      SameMeans(m, q, p, t, u);
    case Binary(_, l, r) =>
      SameMeans(m, q, l, t, u);
      SameMeans(m, q, r, t, u);
    case Unary(_, x) => SameMeans(m, q, x, t, u);
    case Paren(x) => SameMeans(m, q, x, t, u);
    case _ =>
  }

  lemma SameTermsSamePoints(q: Query, e: Expr, t: int, u: int)
    requires e.Subquery? && Plain(e) && Den(Free(), q, e, t) == Den(Free(), q, e, u)
    ensures SameAt(q, e, t, u)
  {
    DenMeans(Free(), q, e, t);
    DenMeans(Free(), q, e, u);
    var a, b := MeantPoints(Free(), q, e, t), MeantPoints(Free(), q, e, u);
    assert a == b;
    forall j | 0 <= j < |a| ensures MeantSteps(q, e, t).At(j) == MeantSteps(q, e, u).At(j) {
      assert a[j] == b[j];
    }
  }

  lemma SameTermsSameCall(q: Query, e: Expr, t: int, u: int)
    requires e.Call? && Plain(e) && !IsTimestampOfSelector(e.func, e.args) && Den(Free(), q, e, t) == Den(Free(), q, e, u)
    ensures LooksAtTime(e.func) ==> t == u
    ensures forall i :: 0 <= i < |e.args| ==> Den(Free(), q, e.args[i], t) == Den(Free(), q, e.args[i], u)
  {
    var a := seq(|e.args|, i requires 0 <= i < |e.args| => Den(Free(), q, e.args[i], t));
    var b := seq(|e.args|, i requires 0 <= i < |e.args| => Den(Free(), q, e.args[i], u));
    CallDen(Free(), q, e, t, a);
    CallDen(Free(), q, e, u, b);
    assert a == b;
    forall i | 0 <= i < |e.args| ensures Den(Free(), q, e.args[i], t) == Den(Free(), q, e.args[i], u) {
      assert a[i] == b[i];
    }
  }

  /** And only then it has the same value in free terms. */
  lemma {:induction false} SameIsNeeded(q: Query, e: Expr, t: int, u: int)
    requires Plain(e) && Den(Free(), q, e, t) == Den(Free(), q, e, u)
    ensures SameAt(q, e, t, u)
    decreases e
  {
    match e
    case Subquery(_, _, _, _, _) => SameTermsSamePoints(q, e, t, u);
    case Call(f, args) =>
      if !IsTimestampOfSelector(f, args) {
        SameTermsSameCall(q, e, t, u);
        forall i | 0 <= i < |args| ensures SameAt(q, args[i], t, u) {
          SameIsNeeded(q, args[i], t, u);
        }
      }
    case Aggregate(_, x, p) =>
      SameIsNeeded(q, x, t, u);
      SameIsNeeded(q, p, t, u);
    case Binary(_, l, r) =>
      SameIsNeeded(q, l, t, u);
      SameIsNeeded(q, r, t, u);
    case Unary(_, x) => SameIsNeeded(q, x, t, u);
    case Paren(x) => SameIsNeeded(q, x, t, u);
    case _ =>
  }

  // ---------------------------------------------------------------- right without preprocessing

  /** A tree agrees with itself at every step of a grid. */
  predicate AgreesRaw(q: Query, e: Expr, g: Steps)
    requires Sized(e) && Plain(e) && g.Valid()
  {
    forall k: nat :: k < g.Count() ==> Agree(q, e, e, g, 0, k, g.At(k))
  }

  /** A tree that is evaluated as the parser left it is right on a grid: selectors with an @ timestamp are
      evaluated at one step only; `@ start()` and `@ end()` stand for the only step; no argument needs
      unwrapping; timestamp has no offset to forget; and every subquery shows what it means. */
  predicate Right(q: Query, e: Expr, g: Steps)
    requires Sized(e) && Plain(e) && g.Valid()
    decreases e
  {
    match e
    case Vector(_, at, _) => Ignorable(q, at, g) && (at.AtTime? ==> g.Count() <= 1)
    case Range(_, at, _, _) => Ignorable(q, at, g)
    case Subquery(_, _, _, _, _) => AgreesRaw(q, e, g)
    case Call(f, args) =>
      if ReadsTimestamp(f, args) then Ignorable(q, args[0].at, g) && (args[0].at.AtTime? ==> args[0].offset == 0)
      else forall i :: 0 <= i < |args| ==> Right(q, args[i], g) && !Obscured(f, args[i])
    case Aggregate(_, x, p) => Right(q, x, g) && Right(q, p, g)
    case Binary(_, l, r) => Right(q, l, g) && Right(q, r, g)
    case Unary(_, x) => Right(q, x, g)
    case Paren(x) => Right(q, x, g)
    case _ => true
  }

  lemma StepsDiffer(g: Steps, k: nat)
    requires g.Valid() && k < g.Count()
    ensures g.Count() <= 1 ==> g.At(k) == g.start
    ensures g.At(0) == g.start && (g.Count() > 1 ==> g.At(1) != g.start)
  {}

  lemma SelectorAgrees(q: Query, e: Expr, g: Steps, k: nat)
    requires (e.Vector? || e.Range?) && g.Valid() && k < g.Count() && Right(q, e, g)
    ensures Agree(q, e, e, g, 0, k, g.At(k))
  {
    StepsDiffer(g, k);
  }

  lemma TimestampAgrees(q: Query, e: Expr, g: Steps, k: nat)
    requires e.Call? && Plain(e) && Sized(e) && ReadsTimestamp(e.func, e.args) && g.Valid() && k < g.Count() && Right(q, e, g)
    ensures Agree(q, e, e, g, 0, k, g.At(k))
  {
    StepsDiffer(g, k);
    assert Unwrap(e.args[0]) == e.args[0];
  }

  lemma {:induction false} RightAgrees(q: Query, e: Expr, g: Steps, k: nat)
    requires Sized(e) && Plain(e) && g.Valid() && k < g.Count() && Right(q, e, g)
    ensures Agree(q, e, e, g, 0, k, g.At(k))
    decreases e
  {
    if Node(e) {
      AgreeSelf(q, e, g, k, g.At(k));
    }
    match e
    case Vector(_, _, _) => SelectorAgrees(q, e, g, k);
    case Range(_, _, _, _) => SelectorAgrees(q, e, g, k);
    case Call(f, args) =>
      if ReadsTimestamp(f, args) {
        TimestampAgrees(q, e, g, k);
      } else {
        assert f == "timestamp" ==> !IsTimestampOfSelector(f, args);
        forall i | 0 <= i < |args| ensures Agree(q, args[i], args[i], g, 0, k, g.At(k)) {
          RightAgrees(q, args[i], g, k);
        }
      }
    case Aggregate(_, x, p) =>
      RightAgrees(q, x, g, k);
      RightAgrees(q, p, g, k);
    case Binary(_, l, r) =>
      RightAgrees(q, l, g, k);
      RightAgrees(q, r, g, k);
    case Unary(_, x) => RightAgrees(q, x, g, k);
    case Paren(x) =>
      RightAgrees(q, x, g, k);
      UnwrapOnce(q, x, x, g, 0, k, g.At(k));
      UnwrapOnce(q, x, e, g, 0, k, g.At(k));
    case _ =>
  }

  lemma SelectorRight(q: Query, e: Expr, g: Steps)
    requires (e.Vector? || e.Range?) && g.Valid() && g.Count() > 0 && AgreesRaw(q, e, g)
    ensures Right(q, e, g)
  {
    StepsDiffer(g, 0);
    AgreeSelf(q, e, g, 0, g.At(0));
    assert Agree(q, e, e, g, 0, 0, g.At(0));
    if g.Count() > 1 {
      AgreeSelf(q, e, g, 1, g.At(1));
      assert Agree(q, e, e, g, 0, 1, g.At(1));
    }
  }

  lemma TimestampRight(q: Query, e: Expr, g: Steps)
    requires e.Call? && Plain(e) && Sized(e) && ReadsTimestamp(e.func, e.args) && g.Valid() && g.Count() > 0 && AgreesRaw(q, e, g)
    ensures Right(q, e, g)
  {
    StepsDiffer(g, 0);
    assert Unwrap(e.args[0]) == e.args[0];
    AgreeSelf(q, e, g, 0, g.At(0));
    assert Agree(q, e, e, g, 0, 0, g.At(0));
    if g.Count() > 1 {
      AgreeSelf(q, e, g, 1, g.At(1));
      assert Agree(q, e, e, g, 0, 1, g.At(1));
    }
  }

  /** What agrees as a whole agrees in its parts. */
  lemma PartAgrees(q: Query, e: Expr, part: Expr, g: Steps)
    requires Sized(e) && Plain(e) && g.Valid() && AgreesRaw(q, e, g)
    requires
      || (e.Aggregate? && part in {e.expr, e.param})
      || (e.Binary? && part in {e.lhs, e.rhs})
      || (e.Unary? && part == e.expr)
    ensures Sized(part) && Plain(part) && AgreesRaw(q, part, g)
  {
    forall k: nat | k < g.Count() ensures Agree(q, part, part, g, 0, k, g.At(k)) {
      assert Agree(q, e, e, g, 0, k, g.At(k));
      AgreeSelf(q, e, g, k, g.At(k));
    }
  }

  lemma InnerAgrees(q: Query, e: Expr, g: Steps)
    requires e.Paren? && Sized(e) && Plain(e) && g.Valid() && AgreesRaw(q, e, g)
    ensures AgreesRaw(q, e.expr, g)
  {
    forall k: nat | k < g.Count() ensures Agree(q, e.expr, e.expr, g, 0, k, g.At(k)) {
      assert Agree(q, e, e, g, 0, k, g.At(k));
      UnwrapOnce(q, e.expr, e.expr, g, 0, k, g.At(k));
      UnwrapOnce(q, e.expr, e, g, 0, k, g.At(k));
    }
  }

  lemma ArgumentAgrees(q: Query, e: Expr, g: Steps, i: nat)
    requires e.Call? && Sized(e) && Plain(e) && !ReadsTimestamp(e.func, e.args) && g.Valid() && g.Count() > 0
    requires i < |e.args| && AgreesRaw(q, e, g)
    ensures AgreesRaw(q, e.args[i], g) && !Obscured(e.func, e.args[i])
  {
    forall k: nat | k < g.Count()
      ensures Agree(q, e.args[i], e.args[i], g, 0, k, g.At(k)) && !Obscured(e.func, e.args[i])
    {
      assert Agree(q, e, e, g, 0, k, g.At(k));
      AgreeSelf(q, e, g, k, g.At(k));
    }
    assert Agree(q, e.args[i], e.args[i], g, 0, 0, g.At(0));
  }

  lemma {:induction false} AgreesRight(q: Query, e: Expr, g: Steps)
    requires Sized(e) && Plain(e) && g.Valid() && g.Count() > 0 && AgreesRaw(q, e, g)
    ensures Right(q, e, g)
    decreases e
  {
    match e
    case Vector(_, _, _) => SelectorRight(q, e, g);
    case Range(_, _, _, _) => SelectorRight(q, e, g);
    case Call(f, args) =>
      if ReadsTimestamp(f, args) {
        TimestampRight(q, e, g);
      } else {
        forall i | 0 <= i < |args| ensures Right(q, args[i], g) && !Obscured(f, args[i]) {
          ArgumentAgrees(q, e, g, i);
          AgreesRight(q, args[i], g);
        }
      }
    case Aggregate(_, x, p) =>
      PartAgrees(q, e, x, g);
      AgreesRight(q, x, g);
      PartAgrees(q, e, p, g);
      AgreesRight(q, p, g);
    case Binary(_, l, r) =>
      PartAgrees(q, e, l, g);
      AgreesRight(q, l, g);
      PartAgrees(q, e, r, g);
      AgreesRight(q, r, g);
    case Unary(_, x) =>
      PartAgrees(q, e, x, g);
      AgreesRight(q, x, g);
    case Paren(x) =>
      InnerAgrees(q, e, g);
      AgreesRight(q, x, g);
    case _ =>
  }

  /** A tree that is right has the value it means at every step, in every model. */
  lemma RightMeans<V(!new)>(m: Model<V>, q: Query, e: Expr, g: Steps)
    requires Sized(e) && Plain(e) && g.Valid() && Right(q, e, g) && SafeFunctionsIgnoreTime(m)
    ensures Denotes(m, q, e, Eval(m, e, g, 0), g)
  {
    forall k: nat | k < g.Count() ensures Eval(m, e, g, 0)[k] == Den(m, q, e, g.At(k)) {
      RightAgrees(q, e, g, k);
      AgreeMeans(m, q, e, e, g, 0, k, g.At(k));
    }
  }

  /** And only such a tree has, in free terms. */
  lemma RightIsNeeded(q: Query, e: Expr, g: Steps)
    requires Sized(e) && Plain(e) && g.Valid() && g.Count() > 0 && Denotes(Free(), q, e, Eval(Free(), e, g, 0), g)
    ensures Right(q, e, g)
  {
    forall k: nat | k < g.Count() ensures Agree(q, e, e, g, 0, k, g.At(k)) {
      AgreeIsNeeded(q, e, e, g, 0, k, g.At(k));
    }
    AgreesRight(q, e, g);
  }

  // ---------------------------------------------------------------- exactness

  /** The grid that the parameter of an aggregation over x is evaluated on: the first step, if the
      aggregation is hoisted. */
  function ParameterGrid(q: Query, x: Expr, g: Steps): Steps {
    if Preprocess(q, Unwrap(x)).wrap then Once(g) else g
  }

  /** The parameter is right where it is evaluated, and if that is the first step only, then it means the
      same at all others. */
  predicate ParamRight(q: Query, x: Expr, p: Expr, g: Steps)
    requires Plain(p) && Sized(Unwrap(p)) && g.Valid()
  {
    && Right(q, Unwrap(p), ParameterGrid(q, x, g))
    && (Preprocess(q, Unwrap(x)).wrap ==> forall k: nat :: k < g.Count() ==> SameAt(q, p, g.start, g.At(k)))
  }

  lemma AggregateAt<V>(m: Model<V>, op: string, x: Expr, p: Expr, g: Steps, k: nat)
    requires g.Valid() && k < g.Count()
    ensures Eval(m, Aggregate(op, x, p), g, 0)[k] == m.aggregate(op, Eval(m, x, g, 0)[k], Eval(m, p, g, 0)[k])
  {}

  /** The step of the parameter's grid that step k of the query uses. */
  function ParameterStep(q: Query, x: Expr, k: nat): nat {
    if Preprocess(q, Unwrap(x)).wrap then 0 else k
  }

  /** What a rewritten aggregation is evaluated to. */
  lemma AggregateUses<V>(m: Model<V>, q: Query, op: string, x: Expr, p: Expr, g: Steps, k: nat)
    requires g.Valid() && k < g.Count()
    ensures
      var h, j := ParameterGrid(q, x, g), ParameterStep(q, x, k);
      j < h.Count() && Eval(m, PreprocessExpr(q, Aggregate(op, x, p)), g, 0)[k] ==
        m.aggregate(op, Eval(m, Preprocess(q, Unwrap(x)).expr, h, 0)[j], Eval(m, Unwrap(p), h, 0)[j])
  {
    var e' := Aggregate(op, Preprocess(q, Unwrap(x)).expr, Unwrap(p));
    assert Preprocess(q, Aggregate(op, x, p)).expr == e';
    AggregateAt(m, op, e'.expr, Unwrap(p), ParameterGrid(q, x, g), ParameterStep(q, x, k));
    HoistedAt(m, e', g, 0, k);
  }

  /** What is aggregated is right. */
  lemma AggregatedMeans<V(!new)>(m: Model<V>, q: Query, x: Expr, g: Steps, k: nat)
    requires Plain(x) && g.Valid() && k < g.Count() && Ok(q, x, g, 0) && SafeFunctionsIgnoreTime(m)
    ensures
      var h, j := ParameterGrid(q, x, g), ParameterStep(q, x, k);
      j < h.Count() && Eval(m, Preprocess(q, Unwrap(x)).expr, h, 0)[j] == Den(m, q, x, g.At(k))
  {
    UnwrapOk(q, x, g, 0);
    RewritePreservesMeaning(m, q, Unwrap(x), g, 0);
    HoistedAt(m, Preprocess(q, Unwrap(x)).expr, g, 0, k);
    WrapImpliesInvariant(q, Unwrap(x));
    UnwrapDen(m, q, x, g.At(k));
  }

  /** A right parameter has the value it means at every step, in every model. */
  lemma ParameterMeans<V(!new)>(m: Model<V>, q: Query, x: Expr, p: Expr, g: Steps, k: nat)
    requires Plain(p) && Sized(Unwrap(p)) && g.Valid() && k < g.Count() && ParamRight(q, x, p, g) && SafeFunctionsIgnoreTime(m)
    ensures
      var h, j := ParameterGrid(q, x, g), ParameterStep(q, x, k);
      j < h.Count() && Eval(m, Unwrap(p), h, 0)[j] == Den(m, q, p, g.At(k))
  {
    var h, j := ParameterGrid(q, x, g), ParameterStep(q, x, k);
    RightMeans(m, q, Unwrap(p), h);
    UnwrapDen(m, q, p, h.At(j));
    if Preprocess(q, Unwrap(x)).wrap {
      assert h.At(j) == g.start;
      SameMeans(m, q, p, g.start, g.At(k));
    }
  }

  /** An aggregation with a right parameter keeps its meaning, in every model. */
  lemma RightParameterMeans<V(!new)>(m: Model<V>, q: Query, op: string, x: Expr, p: Expr, g: Steps)
    requires Plain(Aggregate(op, x, p)) && g.Valid() && Ok(q, x, g, 0) && SafeFunctionsIgnoreTime(m)
    requires Sized(Unwrap(p)) && ParamRight(q, x, p, g)
    ensures Denotes(m, q, Aggregate(op, x, p), Eval(m, PreprocessExpr(q, Aggregate(op, x, p)), g, 0), g)
  {
    var e := Aggregate(op, x, p);
    forall k: nat | k < g.Count() ensures Eval(m, PreprocessExpr(q, e), g, 0)[k] == Den(m, q, e, g.At(k)) {
      AggregateUses(m, q, op, x, p, g, k);
      AggregatedMeans(m, q, x, g, k);
      ParameterMeans(m, q, x, p, g, k);
    }
  }

  /** The parameter that a step uses, if the aggregation has the right value in free terms. */
  lemma ParameterShows(q: Query, op: string, x: Expr, p: Expr, g: Steps, k: nat)
    requires Plain(Aggregate(op, x, p)) && g.Valid() && k < g.Count()
    requires Eval(Free(), PreprocessExpr(q, Aggregate(op, x, p)), g, 0)[k] == Den(Free(), q, Aggregate(op, x, p), g.At(k))
    ensures ShowsAt(q, p, ParameterGrid(q, x, g), ParameterStep(q, x, k), g.At(k))
  {
    AggregateUses(Free(), q, op, x, p, g, k);
  }

  /** Step j of h evaluates a parameter to what it means at time t. */
  ghost predicate ShowsAt(q: Query, p: Expr, h: Steps, j: nat, t: int)
    requires Plain(p) && h.Valid()
  {
    j < h.Count() && Eval(Free(), Unwrap(p), h, 0)[j] == Den(Free(), q, p, t)
  }

  /** A parameter that is evaluated to what it means at every step of a grid is right there. */
  lemma ShownIsRight(q: Query, p: Expr, h: Steps)
    requires Plain(p) && Sized(Unwrap(p)) && h.Valid() && h.Count() > 0
    requires forall k: nat :: k < h.Count() ==> ShowsAt(q, p, h, k, h.At(k))
    ensures Right(q, Unwrap(p), h)
  {
    forall k: nat | k < h.Count() ensures Eval(Free(), Unwrap(p), h, 0)[k] == Den(Free(), q, Unwrap(p), h.At(k)) {
      assert ShowsAt(q, p, h, k, h.At(k));
      UnwrapDen(Free(), q, p, h.At(k));
    }
    RightIsNeeded(q, Unwrap(p), h);
  }

  lemma ShownIsSame(q: Query, p: Expr, h: Steps, t: int, u: int)
    requires Plain(p) && h.Valid() && ShowsAt(q, p, h, 0, t) && ShowsAt(q, p, h, 0, u)
    ensures SameAt(q, p, t, u)
  {
    SameIsNeeded(q, p, t, u);
  }

  lemma FirstStep(g: Steps)
    requires g.Valid() && g.Count() > 0
    ensures g.At(0) == g.start && Once(g).Count() == 1 && Once(g).start == g.start
  {}

  lemma OnceIsRight(q: Query, p: Expr, h: Steps)
    requires Plain(p) && Sized(Unwrap(p)) && h.Valid() && h.Count() == 1 && ShowsAt(q, p, h, 0, h.start)
    ensures Right(q, Unwrap(p), h)
  {
    FirstStep(h);
    ShownIsRight(q, p, h);
  }

  lemma AllSame(q: Query, p: Expr, h: Steps, g: Steps)
    requires Plain(p) && h.Valid() && g.Valid() && ShowsAt(q, p, h, 0, g.start)
    requires forall k: nat :: k < g.Count() ==> ShowsAt(q, p, h, 0, g.At(k))
    ensures forall k: nat :: k < g.Count() ==> SameAt(q, p, g.start, g.At(k))
  {
    forall k: nat | k < g.Count() ensures SameAt(q, p, g.start, g.At(k)) {
      ShownIsSame(q, p, h, g.start, g.At(k));
    }
  }

  lemma FrozenParameterIsRight(q: Query, p: Expr, g: Steps)
    requires Plain(p) && Sized(Unwrap(p)) && g.Valid() && g.Count() > 0
    requires forall k: nat :: k < g.Count() ==> ShowsAt(q, p, Once(g), 0, g.At(k))
    ensures Right(q, Unwrap(p), Once(g)) && forall k: nat :: k < g.Count() ==> SameAt(q, p, g.start, g.At(k))
  {
    FirstStep(g);
    var h := Once(g);
    assert ShowsAt(q, p, h, 0, g.At(0));
    OnceIsRight(q, p, h);
    AllSame(q, p, h, g);
  }

  lemma ParameterIsRight(q: Query, x: Expr, p: Expr, g: Steps)
    requires Plain(p) && Sized(Unwrap(p)) && g.Valid() && g.Count() > 0
    requires forall k: nat :: k < g.Count() ==> ShowsAt(q, p, ParameterGrid(q, x, g), ParameterStep(q, x, k), g.At(k))
    ensures ParamRight(q, x, p, g)
  {
    if Preprocess(q, Unwrap(x)).wrap {
      FrozenParameterIsRight(q, p, g);
    } else {
      ShownIsRight(q, p, g);
    }
  }

  /** On the grid of a query an aggregation keeps its meaning exactly if its parameter is right. */
  lemma ParameterConditionIsExact(q: Query, op: string, x: Expr, p: Expr, g: Steps)
    requires Plain(Aggregate(op, x, p)) && g.Valid() && g.Count() > 0 && Ok(q, x, g, 0)
    ensures Sized(Unwrap(p))
    ensures Denotes(Free(), q, Aggregate(op, x, p), Eval(Free(), PreprocessExpr(q, Aggregate(op, x, p)), g, 0), g) <==>
      ParamRight(q, x, p, g)
  {
    PlainSized(Unwrap(p));
    FreeIsSafe();
    if ParamRight(q, x, p, g) {
      RightParameterMeans(Free(), q, op, x, p, g);
    }
    if Denotes(Free(), q, Aggregate(op, x, p), Eval(Free(), PreprocessExpr(q, Aggregate(op, x, p)), g, 0), g) {
      forall k: nat | k < g.Count()
        ensures ShowsAt(q, p, ParameterGrid(q, x, g), ParameterStep(q, x, k), g.At(k))
      {
        ParameterShows(q, op, x, p, g, k);
      }
      ParameterIsRight(q, x, p, g);
    }
  }

  // ---------------------------------------------------------------- inputs

  /** scalar of something, as the types of PromQL want it for a parameter. */
  function Scalar(x: Expr): (p: Expr)
    ensures Unwrap(p) == p && (Plain(x) ==> Plain(p))
  {
    Call("scalar", [x])
  }

  function TimestampInParentheses(sel: nat): (p: Expr)
    ensures Plain(p) && Unwrap(p) == p
  {
    var v := Paren(Vector(sel, NoAt, 0));
    assert Plain(v.expr) && Plain(v);
    Call("timestamp", [v])
  }

  lemma ScalarEval(x: Expr, g: Steps, k: nat)
    requires g.Valid() && k < g.Count() && !x.Paren?
    ensures Eval(Free(), Scalar(x), g, 0)[k] == CallTerm("scalar", [Eval(Free(), x, g, 0)[k]])
  {
    EvalCallAt(Free(), "scalar", [x], g, 0, k);
    assert seq(1, i requires 0 <= i < 1 => Eval(Free(), [x][i], g, 0)[k]) == [Eval(Free(), x, g, 0)[k]];
  }

  lemma ScalarDen(q: Query, x: Expr, t: int)
    requires Plain(x)
    ensures Den(Free(), q, Scalar(x), t) == CallTerm("scalar", [Den(Free(), q, x, t)])
  {
    assert seq(1, i requires 0 <= i < 1 => Den(Free(), q, [x][i], t)) == [Den(Free(), q, x, t)];
  }

  lemma ScalarDiffers(q: Query, y: Expr, h: Steps, j: nat, t: int)
    requires Plain(y) && !y.Paren? && h.Valid() && j < h.Count() && Eval(Free(), y, h, 0)[j] != Den(Free(), q, y, t)
    ensures Eval(Free(), Scalar(y), h, 0)[j] != Den(Free(), q, Scalar(y), t)
  {
    ScalarEval(y, h, j);
    ScalarDen(q, y, t);
  }

  /** Where the parameter of a rewritten aggregation is read differently from its meaning. */
  lemma ParameterDiffers(q: Query, op: string, x: Expr, p: Expr, g: Steps, k: nat)
    requires Plain(Aggregate(op, x, p)) && Unwrap(p) == p && g.Valid() && k < g.Count()
    requires
      var h, j := ParameterGrid(q, x, g), ParameterStep(q, x, k);
      j < h.Count() && Eval(Free(), p, h, 0)[j] != Den(Free(), q, p, g.At(k))
    ensures DiffersAt(q, Aggregate(op, x, p), g, k)
  {
    AggregateUses(Free(), q, op, x, p, g, k);
  }

  lemma ScalarParameter(q: Query, op: string, x: Expr, y: Expr, g: Steps, k: nat)
    requires Plain(x) && Plain(y) && !y.Paren? && g.Valid() && k < g.Count()
    requires
      var h, j := ParameterGrid(q, x, g), ParameterStep(q, x, k);
      j < h.Count() && Eval(Free(), y, h, 0)[j] != Den(Free(), q, y, g.At(k))
    ensures DiffersAt(q, Aggregate(op, x, Scalar(y)), g, k)
  {
    ScalarDiffers(q, y, ParameterGrid(q, x, g), ParameterStep(q, x, k), g.At(k));
    ParameterDiffers(q, op, x, Scalar(y), g, k);
  }

  /** At step k of g the rewritten query and the query differ. */
  ghost predicate DiffersAt(q: Query, e: Expr, g: Steps, k: nat) {
    Plain(e) && g.Valid() && k < g.Count() && Eval(Free(), PreprocessExpr(q, e), g, 0)[k] != Den(Free(), q, e, g.At(k))
  }

  lemma SelectorAt(q: Query, e: Expr, g: Steps, k: nat)
    requires e.Vector? && g.Valid() && k < g.Count()
    ensures Eval(Free(), e, g, 0)[k] == VectorTerm(e.sel, g.At(k) - EffectiveOffset(Pin(e.at), e.offset, g.start))
    ensures Den(Free(), q, e, g.At(k)) == VectorTerm(e.sel, MeantTime(q, e.at, e.offset, g.At(k)))
  {}

  /** Whatever varies as the parameter of an aggregation over a pinned selector: the first step's
      parameter is used at every step. */
  lemma FrozenSelector(q: Query, op: string, foo: nat, bar: nat, ts: int, g: Steps, k: nat)
    requires g.Valid() && k < g.Count() && g.At(k) != g.start
    ensures DiffersAt(q, Aggregate(op, Vector(foo, AtTime(ts), 0), Scalar(Vector(bar, NoAt, 0))), g, k)
  {
    var y := Vector(bar, NoAt, 0);
    SelectorAt(q, y, Once(g), 0);
    SelectorAt(q, y, g, k);
    ScalarParameter(q, op, Vector(foo, AtTime(ts), 0), y, g, k);
  }

  /** A pinned selector in a parameter moves on with the steps. */
  lemma MovingSelector(q: Query, op: string, foo: nat, bar: nat, ts: int, g: Steps, k: nat)
    requires g.Valid() && k < g.Count() && g.At(k) != g.start
    ensures DiffersAt(q, Aggregate(op, Vector(foo, NoAt, 0), Scalar(Vector(bar, AtTime(ts), 0))), g, k)
  {
    var y := Vector(bar, AtTime(ts), 0);
    SelectorAt(q, y, g, k);
    ScalarParameter(q, op, Vector(foo, NoAt, 0), y, g, k);
  }

  /** A modifier in a parameter stays unresolved and is ignored. */
  lemma UnresolvedSelector(q: Query, op: string, foo: nat, bar: nat, g: Steps, k: nat)
    requires g.Valid() && k < g.Count() && g.At(k) != q.end
    ensures DiffersAt(q, Aggregate(op, Vector(foo, NoAt, 0), Scalar(Vector(bar, AtEnd, 0))), g, k)
  {
    var y := Vector(bar, AtEnd, 0);
    SelectorAt(q, y, g, k);
    ScalarParameter(q, op, Vector(foo, NoAt, 0), y, g, k);
  }

  /** timestamp in a parameter does not see a selector in parentheses. */
  lemma ObscuredSelector(q: Query, op: string, foo: nat, bar: nat, g: Steps, k: nat)
    requires g.Valid() && k < g.Count()
    ensures DiffersAt(q, Aggregate(op, Vector(foo, NoAt, 0), Scalar(TimestampInParentheses(bar))), g, k)
  {
    var y := TimestampInParentheses(bar);
    assert Unwrap(y.args[0]) == Vector(bar, NoAt, 0);
    EvalCallAt(Free(), y.func, y.args, g, 0, k);
    ScalarParameter(q, op, Vector(foo, NoAt, 0), y, g, k);
  }

  /** In a query from 0 to 10 in steps of 10, topk(scalar(bar), foo @ 0) is wrong at the second step, and so is
      any other operator in place of topk. */
  lemma FrozenFails(op: string, foo: nat, bar: nat, g: Steps)
    requires g == Steps(0, 10, 10)
    ensures DiffersAt(Query(0, 10), Aggregate(op, Vector(foo, AtTime(0), 0), Scalar(Vector(bar, NoAt, 0))), g, 1)
  {
    FrozenSelector(Query(0, 10), op, foo, bar, 0, g, 1);
  }

  /** In the same query topk(scalar(bar @ 0), foo) is wrong at the second step. */
  lemma MovingFails(op: string, foo: nat, bar: nat, g: Steps)
    requires g == Steps(0, 10, 10)
    ensures DiffersAt(Query(0, 10), Aggregate(op, Vector(foo, NoAt, 0), Scalar(Vector(bar, AtTime(0), 0))), g, 1)
  {
    MovingSelector(Query(0, 10), op, foo, bar, 0, g, 1);
  }

  /** In the same query topk(scalar(bar @ end()), foo) is wrong at the first step. */
  lemma UnresolvedFails(op: string, foo: nat, bar: nat, g: Steps)
    requires g == Steps(0, 10, 10)
    ensures DiffersAt(Query(0, 10), Aggregate(op, Vector(foo, NoAt, 0), Scalar(Vector(bar, AtEnd, 0))), g, 0)
  {
    UnresolvedSelector(Query(0, 10), op, foo, bar, g, 0);
  }

  /** In the same query topk(scalar(timestamp((bar))), foo) is wrong at the first step. */
  lemma ObscuredFails(op: string, foo: nat, bar: nat, g: Steps)
    requires g == Steps(0, 10, 10)
    ensures DiffersAt(Query(0, 10), Aggregate(op, Vector(foo, NoAt, 0), Scalar(TimestampInParentheses(bar))), g, 0)
  {
    ObscuredSelector(Query(0, 10), op, foo, bar, g, 0);
  }

  /** topk(scalar(bar @ start()), foo @ ts) is right in every query: the aggregation is hoisted to the first
      step, which is the start of the query. */
  lemma HoistedStartIsRight(q: Query, foo: nat, bar: nat, ts: int, g: Steps)
    requires g.Valid() && g.start == q.start
    ensures
      var p := Scalar(Vector(bar, AtStart, 0));
      Plain(p) && Sized(Unwrap(p)) && ParamRight(q, Vector(foo, AtTime(ts), 0), p, g)
  {
    var v := Vector(bar, AtStart, 0);
    assert Plain(v) && Sized(v);
    assert Right(q, v, Once(g));
    assert forall k: nat :: k < g.Count() ==> SameAt(q, v, g.start, g.At(k));
  }

  /** In an instant query topk(scalar(bar), foo) is right whatever modifier bar has. */
  lemma InstantIsRight(q: Query, foo: nat, bar: nat, at: At, g: Steps)
    requires g.Valid() && g.Count() == 1 && q == Query(g.start, g.start)
    ensures
      var p := Scalar(Vector(bar, at, 0));
      Plain(p) && Sized(Unwrap(p)) && ParamRight(q, Vector(foo, NoAt, 0), p, g)
  {
    var v := Vector(bar, at, 0);
    assert Plain(v) && Sized(v);
    assert Right(q, v, g);
  }
}
