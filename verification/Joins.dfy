/** Vector joins.  Series are matched on the signature of their labels; the evaluator replaces
    signatures by small ordinals once per query and then joins through arrays indexed by ordinal that
    it reuses from step to step.  The joins are proved to refine their relational definitions. */
module Joins {
  import opened Basics
  import opened Grid
  import opened Series
  import RangeEval

  type Signature = string

  // ---------------------------------------------------------------- ordinals

  ghost predicate Injective(ord: map<Signature, nat>) {
    forall a, b :: a in ord && b in ord && ord[a] == ord[b] ==> a == b
  }

  ghost predicate Numbered(ord: map<Signature, nat>, n: nat) {
    Injective(ord) && forall a :: a in ord ==> ord[a] < n
  }

  /** Numbers the signatures of one argument's series, continuing an earlier numbering. */
  method AssignOrdinals(sigs: seq<Signature>, ord0: map<Signature, nat>, n0: nat)
    returns (helpers: seq<nat>, ord: map<Signature, nat>, n: nat)
    requires Numbered(ord0, n0)
    ensures Numbered(ord, n) && n0 <= n && |helpers| == |sigs|
    ensures forall a :: a in ord0 ==> a in ord && ord[a] == ord0[a]
    ensures forall i :: 0 <= i < |sigs| ==> sigs[i] in ord && helpers[i] == ord[sigs[i]]
  {
    helpers, ord, n := [], ord0, n0;
    for i := 0 to |sigs|
      invariant Numbered(ord, n) && n0 <= n && |helpers| == i
      invariant forall a :: a in ord0 ==> a in ord && ord[a] == ord0[a]
      invariant forall j :: 0 <= j < i ==> sigs[j] in ord && helpers[j] == ord[sigs[j]]
    {
      if sigs[i] in ord {
        helpers := helpers + [ord[sigs[i]]];
      } else {
        ord := ord[sigs[i] := n];
        helpers := helpers + [n];
        n := n + 1;
      }
    }
  }

  /** Ordinals are equal iff signatures are, within and across the two sides of a join. */
  method NumberBothSides(left: seq<Signature>, right: seq<Signature>)
    returns (lh: seq<nat>, rh: seq<nat>, ord: map<Signature, nat>, n: nat)
    ensures |lh| == |left| && |rh| == |right|
    ensures forall i, j :: 0 <= i < |left| && 0 <= j < |right| ==> (lh[i] == rh[j] <==> left[i] == right[j])
    ensures forall i, j :: 0 <= i < |left| && 0 <= j < |left| ==> (lh[i] == lh[j] <==> left[i] == left[j])
    ensures forall i, j :: 0 <= i < |right| && 0 <= j < |right| ==> (rh[i] == rh[j] <==> right[i] == right[j])
    ensures Numbered(ord, n)
    ensures forall i :: 0 <= i < |left| ==> left[i] in ord && lh[i] == ord[left[i]]
    ensures forall i :: 0 <= i < |right| ==> right[i] in ord && rh[i] == ord[right[i]]
  {
    lh, ord, n := AssignOrdinals(left, map[], 0);
    rh, ord, n := AssignOrdinals(right, ord, n);
  }

  /** The helper of each sample of a vector is the ordinal of the sample's signature. */
  ghost predicate Aligned(v: Vector, h: seq<nat>, sig: Labels -> Signature, ord: map<Signature, nat>) {
    |h| == |v| && forall i :: 0 <= i < |v| ==> sig(v[i].metric) in ord && h[i] == ord[sig(v[i].metric)]
  }

  /** The helpers gathered along with the column of a matrix at time t. */
  function HelperColumn(m: Matrix, helpers: seq<nat>, t: int, n: nat): seq<nat>
    requires n <= |m| == |helpers|
  {
    if n == 0 then []
    else HelperColumn(m, helpers, t, n - 1) + if ValueAt(m[n - 1], t).Some? then [helpers[n - 1]] else []
  }

  lemma HelperStep(m: Matrix, helpers: seq<nat>, t: int, n: nat, v: Option<Value>)
    requires n < |m| == |helpers| && v == ValueAt(m[n], t)
    ensures HelperColumn(m, helpers, t, n + 1) ==
      if v.Some? then HelperColumn(m, helpers, t, n) + [helpers[n]] else HelperColumn(m, helpers, t, n)
  {}

  /** Gathering keeps samples and ordinals aligned at every step. */
  lemma {:induction false} GatheredAligned(m: Matrix, helpers: seq<nat>, sig: Labels -> Signature, ord: map<Signature, nat>, t: int, n: nat)
    requires n <= |m| == |helpers|
    requires forall i :: 0 <= i < |m| ==> sig(m[i].metric) in ord && helpers[i] == ord[sig(m[i].metric)]
    ensures Aligned(ColumnUpTo(m, t, n), HelperColumn(m, helpers, t, n), sig, ord)
  {
    if n > 0 {
      GatheredAligned(m, helpers, sig, ord, t, n - 1);
    }
  }

  // ---------------------------------------------------------------- relational definitions

  ghost predicate HasSignature(v: Vector, sig: Labels -> Signature, x: Signature) {
    exists i :: 0 <= i < |v| && sig(v[i].metric) == x
  }

  /** The samples among the first n of v whose signature occurs in w, or does not if !matched. */
  ghost function Select(v: Vector, w: Vector, sig: Labels -> Signature, matched: bool, n: nat): Vector
    requires n <= |v|
  {
    if n == 0 then []
    else Select(v, w, sig, matched, n - 1) +
         if HasSignature(w, sig, sig(v[n - 1].metric)) == matched then [v[n - 1]] else []
  }

  ghost function And(l: Vector, r: Vector, sig: Labels -> Signature): Vector { Select(l, r, sig, true, |l|) }

  ghost function Unless(l: Vector, r: Vector, sig: Labels -> Signature): Vector { Select(l, r, sig, false, |l|) }

  ghost function Or(l: Vector, r: Vector, sig: Labels -> Signature): Vector { l + Select(r, l, sig, false, |r|) }

  /** s is v with some samples left out. */
  ghost predicate Subsequence(s: Vector, v: Vector)
    decreases |v|
  {
    if |v| == 0 then |s| == 0
    else Subsequence(s, v[..|v| - 1]) || (|s| > 0 && s[|s| - 1] == v[|v| - 1] && Subsequence(s[..|s| - 1], v[..|v| - 1]))
  }

  lemma {:induction false} SelectIsSubsequence(l: Vector, r: Vector, sig: Labels -> Signature, matched: bool, n: nat)
    requires n <= |l|
    ensures Subsequence(Select(l, r, sig, matched, n), l[..n])
  {
    if n > 0 {
      SelectIsSubsequence(l, r, sig, matched, n - 1);
      var shorter, longer, v := Select(l, r, sig, matched, n - 1), Select(l, r, sig, matched, n), l[..n];
      assert v[..|v| - 1] == l[..n - 1];
      if longer == shorter {
        assert Subsequence(longer, v[..|v| - 1]);
      } else {
        assert longer == shorter + [l[n - 1]];
        assert longer[..|longer| - 1] == shorter;
      }
    }
  }

  ghost predicate Partition(a: Vector, b: Vector, all: Vector) {
    multiset(a) + multiset(b) == multiset(all)
  }

  lemma AppendToPart(a: Vector, b: Vector, all: Vector, x: Sample)
    requires Partition(a, b, all)
    ensures Partition(a + [x], b, all + [x]) && Partition(a, b + [x], all + [x])
  {
    var one := multiset{x};
    assert multiset(a + [x]) == multiset(a) + one && multiset(b + [x]) == multiset(b) + one;
    assert multiset(all + [x]) == multiset(all) + one;
  }

  lemma PrefixStep(l: Vector, n: nat)
    requires 0 < n <= |l|
    ensures l[..n] == l[..n - 1] + [l[n - 1]]
  {}

  /** Appending one sample to one part, or to the other. */
  ghost predicate Appends(a: Vector, b: Vector, x: Sample, a': Vector, b': Vector) {
    (a' == a + [x] && b' == b) || (a' == a && b' == b + [x])
  }

  lemma SelectStep(l: Vector, r: Vector, sig: Labels -> Signature, n: nat)
    requires 0 < n <= |l|
    ensures Appends(Select(l, r, sig, true, n - 1), Select(l, r, sig, false, n - 1), l[n - 1],
                    Select(l, r, sig, true, n), Select(l, r, sig, false, n))
  {
    var a, b := Select(l, r, sig, true, n - 1), Select(l, r, sig, false, n - 1);
    assert a + [] == a && b + [] == b;
  }

  lemma PartitionStep(a: Vector, b: Vector, all: Vector, x: Sample, a': Vector, b': Vector, all': Vector)
    requires Partition(a, b, all) && all' == all + [x] && Appends(a, b, x, a', b')
    ensures Partition(a', b', all')
  {
    AppendToPart(a, b, all, x);
  }

  lemma {:induction false} SelectPartitions(l: Vector, r: Vector, sig: Labels -> Signature, n: nat)
    requires n <= |l|
    ensures Partition(Select(l, r, sig, true, n), Select(l, r, sig, false, n), l[..n])
  {
    if n > 0 {
      SelectPartitions(l, r, sig, n - 1);
      SelectStep(l, r, sig, n);
      PrefixStep(l, n);
      PartitionStep(Select(l, r, sig, true, n - 1), Select(l, r, sig, false, n - 1), l[..n - 1], l[n - 1],
                    Select(l, r, sig, true, n), Select(l, r, sig, false, n), l[..n]);
    }
  }

  /** And and Unless partition the left side, each keeping its order. */
  lemma AndUnlessPartition(l: Vector, r: Vector, sig: Labels -> Signature)
    ensures multiset(And(l, r, sig)) + multiset(Unless(l, r, sig)) == multiset(l)
    ensures Subsequence(And(l, r, sig), l) && Subsequence(Unless(l, r, sig), l)
  {
    SelectPartitions(l, r, sig, |l|);
    SelectIsSubsequence(l, r, sig, true, |l|);
    SelectIsSubsequence(l, r, sig, false, |l|);
    assert l[..|l|] == l;
  }

  lemma {:induction false} SelectNothing(l: Vector, r: Vector, sig: Labels -> Signature, n: nat)
    requires n <= |l| && |r| == 0
    ensures Select(l, r, sig, true, n) == [] && Select(l, r, sig, false, n) == l[..n]
  {
    if n > 0 {
      SelectNothing(l, r, sig, n - 1);
    }
  }

  // ---------------------------------------------------------------- one-to-one arithmetic

  /** Outcome of a binary operation on two values. */
  datatype Elem = ElemError | Elem(value: Value, keep: bool)

  datatype Operation = Operation(
    elem: (Value, Value) -> Elem,
    returnBool: bool,
    metric: (Labels, Labels) -> Labels)

  datatype JoinResult = ManyToMany | MultipleMatches | Joined(out: Vector)

  /** What the operation contributes for one matching pair. */
  function Produced(op: Operation, l: Sample, r: Sample): Vector {
    match op.elem(l.value, r.value)
    case ElemError => []
    case Elem(v, keep) =>
      if op.returnBool then [Sample(op.metric(l.metric, r.metric), FloatValue(Num(if keep then 1.0 else 0.0)))]
      else if keep then [Sample(op.metric(l.metric, r.metric), v)]
      else []
  }

  ghost predicate Matches(sig: Labels -> Signature, l: Sample, r: Sample) {
    sig(l.metric) == sig(r.metric)
  }

  ghost predicate DuplicateRight(r: Vector, sig: Labels -> Signature, n: nat)
    requires n <= |r|
  {
    exists i, j :: 0 <= i < j < n && Matches(sig, r[i], r[j])
  }

  /** Left sample i takes part in the join: it has a partner and the operation applies to the two. */
  ghost predicate Takes(op: Operation, l: Vector, r: Vector, sig: Labels -> Signature, i: nat)
    requires i < |l|
  {
    exists j :: 0 <= j < |r| && Matches(sig, l[i], r[j]) && op.elem(l[i].value, r[j].value).Elem?
  }

  ghost predicate DuplicateLeft(op: Operation, l: Vector, r: Vector, sig: Labels -> Signature, n: nat)
    requires n <= |l|
  {
    exists i, j :: 0 <= i < j < n && Matches(sig, l[i], l[j]) && Takes(op, l, r, sig, i) && Takes(op, l, r, sig, j)
  }

  /** The joined samples of the first n left samples, in left order. */
  ghost function Pairs(op: Operation, l: Vector, r: Vector, sig: Labels -> Signature, n: nat): Vector
    requires n <= |l|
  {
    if n == 0 then []
    else
      Pairs(op, l, r, sig, n - 1) +
      if HasSignature(r, sig, sig(l[n - 1].metric)) then
        var j :| 0 <= j < |r| && sig(r[j].metric) == sig(l[n - 1].metric);
        Produced(op, l[n - 1], r[j])
      else []
  }

  /** Each sample of the result stems from a matching pair, and each matching pair contributes. */
  lemma {:induction false} PairsAreMatches(op: Operation, l: Vector, r: Vector, sig: Labels -> Signature, n: nat, x: Sample)
    requires n <= |l| && !DuplicateRight(r, sig, |r|)
    ensures x in Pairs(op, l, r, sig, n) <==>
            exists i, j :: 0 <= i < n && 0 <= j < |r| && Matches(sig, l[i], r[j]) && x in Produced(op, l[i], r[j])
  {
    if n > 0 {
      PairsAreMatches(op, l, r, sig, n - 1, x);
      if HasSignature(r, sig, sig(l[n - 1].metric)) {
        var j :| 0 <= j < |r| && sig(r[j].metric) == sig(l[n - 1].metric);
        UniquePartner(r, sig, l[n - 1], j);
      }
    }
  }

  lemma UniquePartner(r: Vector, sig: Labels -> Signature, l: Sample, j: nat)
    requires !DuplicateRight(r, sig, |r|) && j < |r| && Matches(sig, l, r[j])
    ensures forall j' :: 0 <= j' < |r| && sig(r[j'].metric) == sig(l.metric) ==> j' == j
  {
    forall j' | 0 <= j' < |r| && sig(r[j'].metric) == sig(l.metric) ensures j' == j {
      if j' < j {
        assert Matches(sig, r[j'], r[j]);
      } else if j < j' {
        assert Matches(sig, r[j], r[j']);
      }
    }
  }

  // ---------------------------------------------------------------- joins through reused arrays

  class EvalNodeHelper {
    const numSigs: nat
    var sigsPresent: array<bool>
    var matchedSigsPresent: array<bool>
    var rightSigs: array<Option<Sample>>

    constructor (n: nat)
      ensures numSigs == n && Valid() && fresh(sigsPresent) && fresh(matchedSigsPresent) && fresh(rightSigs)
    {
      numSigs := n;
      sigsPresent, matchedSigsPresent := new bool[0], new bool[0];
      rightSigs := new Option<Sample>[0];
    }

    /** Each array is either not yet allocated or has one slot per signature. */
    ghost predicate Valid()
      reads this
    {
      && (sigsPresent.Length == 0 || sigsPresent.Length == numSigs)
      && (matchedSigsPresent.Length == 0 || matchedSigsPresent.Length == numSigs)
      && (rightSigs.Length == 0 || rightSigs.Length == numSigs)
      && sigsPresent != matchedSigsPresent
    }

    /** Clears the array left by the previous step, or allocates it. */
    method ResetSigsPresent()
      requires Valid()
      modifies this`sigsPresent, sigsPresent
      ensures Valid() && sigsPresent.Length == numSigs && forall o :: 0 <= o < numSigs ==> !sigsPresent[o]
      ensures fresh(sigsPresent) || sigsPresent == old(sigsPresent)
    {
      if sigsPresent.Length == 0 {
        sigsPresent := new bool[numSigs](o => false);
      } else {
        forall o | 0 <= o < sigsPresent.Length {
          sigsPresent[o] := false;
        }
      }
    }

    method ResetMatchedSigsPresent()
      requires Valid()
      modifies this`matchedSigsPresent, matchedSigsPresent
      ensures Valid() && matchedSigsPresent.Length == numSigs && forall o :: 0 <= o < numSigs ==> !matchedSigsPresent[o]
      ensures fresh(matchedSigsPresent) || matchedSigsPresent == old(matchedSigsPresent)
    {
      if matchedSigsPresent.Length == 0 {
        matchedSigsPresent := new bool[numSigs](o => false);
      } else {
        forall o | 0 <= o < matchedSigsPresent.Length {
          matchedSigsPresent[o] := false;
        }
      }
    }

    method ResetRightSigs()
      requires Valid()
      modifies this`rightSigs, rightSigs
      ensures Valid() && rightSigs.Length == numSigs
      ensures fresh(rightSigs) || rightSigs == old(rightSigs)
    {
      if rightSigs.Length == 0 {
        rightSigs := new Option<Sample>[numSigs](o => None);
      } else {
        forall o | 0 <= o < rightSigs.Length {
          rightSigs[o] := None;
        }
      }
    }

    /** Marks the ordinals that occur in h. */
    method MarkPresent(h: seq<nat>)
      requires Valid() && forall i :: 0 <= i < |h| ==> h[i] < numSigs
      modifies this`sigsPresent, sigsPresent
      ensures Valid() && sigsPresent.Length == numSigs
      ensures forall o :: 0 <= o < numSigs ==> (sigsPresent[o] <==> o in h)
      ensures fresh(sigsPresent) || sigsPresent == old(sigsPresent)
    {
      ResetSigsPresent();
      var present := sigsPresent;
      for i := 0 to |h|
        invariant sigsPresent == present
        invariant forall o :: 0 <= o < numSigs ==> (present[o] <==> o in h[..i])
      {
        present[h[i]] := true;
        assert h[..i + 1] == h[..i] + [h[i]];
      }
      assert h[..|h|] == h;
    }

    /** The samples of v whose ordinal is marked, or is not if !matched. */
    method Pick(v: Vector, h: seq<nat>, matched: bool, ghost w: Vector, ghost wh: seq<nat>, ghost sig: Labels -> Signature,
                ghost ord: map<Signature, nat>)
      returns (out: Vector)
      requires Valid() && Numbered(ord, numSigs) && Aligned(v, h, sig, ord) && Aligned(w, wh, sig, ord)
      requires sigsPresent.Length == numSigs && forall o :: 0 <= o < numSigs ==> (sigsPresent[o] <==> o in wh)
      ensures out == Select(v, w, sig, matched, |v|)
    {
      out := [];
      for i := 0 to |v|
        invariant out == Select(v, w, sig, matched, i)
      {
        PresentMeansSignature(v[i], h[i], w, wh, sig, ord);
        if sigsPresent[h[i]] == matched {
          out := out + [v[i]];
        }
      }
    }

    method VectorAnd(l: Vector, r: Vector, lh: seq<nat>, rh: seq<nat>, ghost sig: Labels -> Signature, ghost ord: map<Signature, nat>)
      returns (out: Vector)
      requires Valid() && Numbered(ord, numSigs) && Aligned(l, lh, sig, ord) && Aligned(r, rh, sig, ord)
      modifies this`sigsPresent, sigsPresent
      ensures Valid() && out == And(l, r, sig)
      ensures fresh(sigsPresent) || sigsPresent == old(sigsPresent)
    {
      if |l| == 0 || |r| == 0 {
        if |r| == 0 { SelectNothing(l, r, sig, |l|); }
        return [];
      }
      MarkPresent(rh);
      out := Pick(l, lh, true, r, rh, sig, ord);
    }

    method VectorUnless(l: Vector, r: Vector, lh: seq<nat>, rh: seq<nat>, ghost sig: Labels -> Signature, ghost ord: map<Signature, nat>)
      returns (out: Vector)
      requires Valid() && Numbered(ord, numSigs) && Aligned(l, lh, sig, ord) && Aligned(r, rh, sig, ord)
      modifies this`sigsPresent, sigsPresent
      ensures Valid() && out == Unless(l, r, sig)
      ensures fresh(sigsPresent) || sigsPresent == old(sigsPresent)
    {
      if |l| == 0 || |r| == 0 {
        if |r| == 0 { SelectNothing(l, r, sig, |l|); assert l[..|l|] == l; }
        return l;
      }
      MarkPresent(rh);
      out := Pick(l, lh, false, r, rh, sig, ord);
    }

    method VectorOr(l: Vector, r: Vector, lh: seq<nat>, rh: seq<nat>, ghost sig: Labels -> Signature, ghost ord: map<Signature, nat>)
      returns (out: Vector)
      requires Valid() && Numbered(ord, numSigs) && Aligned(l, lh, sig, ord) && Aligned(r, rh, sig, ord)
      modifies this`sigsPresent, sigsPresent
      ensures Valid() && out == Or(l, r, sig)
      ensures fresh(sigsPresent) || sigsPresent == old(sigsPresent)
    {
      if |l| == 0 {
        SelectNothing(r, l, sig, |r|);
        assert r[..|r|] == r;
        return r;
      }
      if |r| == 0 {
        return l;
      }
      MarkPresent(lh);
      var rest := Pick(r, rh, false, l, lh, sig, ord);
      out := l + rest;
    }

    /** What the arrays say about the first n right samples: slot o is marked iff one of them has
        ordinal o, and each of them is stored under its ordinal. */
    ghost predicate Indexed(r: Vector, rh: seq<nat>, n: nat)
      requires n <= |r| == |rh|
      reads this, sigsPresent, rightSigs
    {
      && sigsPresent.Length == numSigs && rightSigs.Length == numSigs
      && (forall o :: 0 <= o < numSigs ==> (sigsPresent[o] <==> o in rh[..n]))
      && (forall i :: 0 <= i < n ==> rh[i] < numSigs && rightSigs[rh[i]] == Some(r[i]))
    }

    /** Stores the right samples by ordinal; fails iff two share a signature. */
    method IndexRight(r: Vector, rh: seq<nat>, ghost sig: Labels -> Signature, ghost ord: map<Signature, nat>) returns (ok: bool)
      requires Valid() && Numbered(ord, numSigs) && Aligned(r, rh, sig, ord)
      modifies this`sigsPresent, sigsPresent, this`rightSigs, rightSigs
      ensures Valid() && (ok <==> !DuplicateRight(r, sig, |r|))
      ensures ok ==> Indexed(r, rh, |r|)
      ensures fresh(sigsPresent) || sigsPresent == old(sigsPresent)
      ensures fresh(rightSigs) || rightSigs == old(rightSigs)
    {
      ResetRightSigs();
      ResetSigsPresent();
      var present, stored := sigsPresent, rightSigs;
      for n := 0 to |r|
        invariant sigsPresent == present && rightSigs == stored && Valid()
        invariant Indexed(r, rh, n) && !DuplicateRight(r, sig, n)
      {
        RepeatedOrdinal(r, rh, sig, ord, n);
        if present[rh[n]] {
          return false;
        }
        assert rh[..n + 1] == rh[..n] + [rh[n]];
        stored[rh[n]] := Some(r[n]);
        present[rh[n]] := true;
      }
      ok := true;
    }

    /** Joins one left sample with its stored partner. */
    method JoinOne(op: Operation, s: Sample, o: nat) returns (ok: bool, produced: Vector)
      requires Valid() && sigsPresent.Length == rightSigs.Length == matchedSigsPresent.Length == numSigs && o < numSigs
      requires sigsPresent[o] ==> rightSigs[o].Some?
      modifies matchedSigsPresent
      ensures
        var taken := sigsPresent[o] && op.elem(s.value, rightSigs[o].value.value).Elem?;
        && (ok <==> !(taken && old(matchedSigsPresent[o])))
        && (ok ==> produced == if sigsPresent[o] then Produced(op, s, rightSigs[o].value) else [])
        && (ok ==> matchedSigsPresent[..] == if taken then old(matchedSigsPresent[..])[o := true] else old(matchedSigsPresent[..]))
    {
      ok, produced := true, [];
      if sigsPresent[o] {
        var partner := rightSigs[o].value;
        match op.elem(s.value, partner.value)
        case ElemError =>
        case Elem(v, keep) =>
          if matchedSigsPresent[o] {
            return false, [];
          }
          matchedSigsPresent[o] := true;
          produced := Produced(op, s, partner);
      }
    }

    /** Joins the left samples one by one with the stored right side. */
    method JoinLeft(op: Operation, l: Vector, r: Vector, lh: seq<nat>, ghost rh: seq<nat>,
                    ghost sig: Labels -> Signature, ghost ord: map<Signature, nat>)
      returns (ok: bool, out: Vector)
      requires Valid() && Numbered(ord, numSigs) && Aligned(l, lh, sig, ord) && Aligned(r, rh, sig, ord)
      requires Indexed(r, rh, |r|) && !DuplicateRight(r, sig, |r|)
      requires matchedSigsPresent.Length == numSigs && forall o :: 0 <= o < numSigs ==> !matchedSigsPresent[o]
      modifies matchedSigsPresent
      ensures ok <==> !DuplicateLeft(op, l, r, sig, |l|)
      ensures ok ==> out == Pairs(op, l, r, sig, |l|)
    {
      out := [];
      assert rh[..|r|] == rh;
      for n := 0 to |l|
        invariant Indexed(r, rh, |r|)
        invariant !DuplicateLeft(op, l, r, sig, n) && out == Pairs(op, l, r, sig, n)
        invariant MatchedSoFar(op, l, r, lh, sig, n, matchedSigsPresent[..])
      {
        LeftStep(op, l, r, lh, rh, sig, ord, n, sigsPresent[..], rightSigs[..], matchedSigsPresent[..]);
        var produced;
        ok, produced := JoinOne(op, l[n], lh[n]);
        if !ok {
          return;
        }
        out := out + produced;
      }
      ok := true;
    }

    /** One-to-one arithmetic between two vectors.  With both sides non-empty it fails iff two right
        samples share a signature, or two left samples share one and both take part; otherwise every
        matching pair contributes once, in left order. */
    method VectorBinop(op: Operation, l: Vector, r: Vector, lh: seq<nat>, rh: seq<nat>,
                       ghost sig: Labels -> Signature, ghost ord: map<Signature, nat>)
      returns (res: JoinResult)
      requires Valid() && Numbered(ord, numSigs) && Aligned(l, lh, sig, ord) && Aligned(r, rh, sig, ord)
      modifies this, sigsPresent, matchedSigsPresent, rightSigs
      ensures Valid() && res == BinopSpec(op, l, r, sig)
      ensures res.Joined? ==> exists from :: JoinsPairs(res.out, op, l, |l|, r, sig, from)
      ensures fresh(sigsPresent) || sigsPresent == old(sigsPresent)
      ensures fresh(matchedSigsPresent) || matchedSigsPresent == old(matchedSigsPresent)
      ensures fresh(rightSigs) || rightSigs == old(rightSigs)
    {
      if |l| == 0 || |r| == 0 {
        EmptyJoin(op, l, r, sig, |l|);
        JoinedIsJoin(Arithmetic(op), l, r, sig);
        return Joined([]);
      }
      var unique := IndexRight(r, rh, sig, ord);
      if !unique {
        return ManyToMany;
      }
      ResetMatchedSigsPresent();
      var ok, out := JoinLeft(op, l, r, lh, rh, sig, ord);
      if ok {
        JoinedIsJoin(Arithmetic(op), l, r, sig);
      }
      res := if ok then Joined(out) else MultipleMatches;
    }

    /** One step of a join, with the arrays that the step before has left. */
    method JoinStep(join: Join, l: Vector, r: Vector, lh: seq<nat>, rh: seq<nat>,
                    ghost sig: Labels -> Signature, ghost ord: map<Signature, nat>)
      returns (res: JoinResult)
      requires Valid() && Numbered(ord, numSigs) && Aligned(l, lh, sig, ord) && Aligned(r, rh, sig, ord)
      modifies this, sigsPresent, matchedSigsPresent, rightSigs
      ensures Valid() && res == JoinSpec(join, l, r, sig)
      ensures fresh(sigsPresent) || sigsPresent == old(sigsPresent)
      ensures fresh(matchedSigsPresent) || matchedSigsPresent == old(matchedSigsPresent)
      ensures fresh(rightSigs) || rightSigs == old(rightSigs)
    {
      match join
      case AndJoin =>
        var out := VectorAnd(l, r, lh, rh, sig, ord);
        res := Joined(out);
      case OrJoin =>
        var out := VectorOr(l, r, lh, rh, sig, ord);
        res := Joined(out);
      case UnlessJoin =>
        var out := VectorUnless(l, r, lh, rh, sig, ord);
        res := Joined(out);
      case Arithmetic(op) =>
        res := VectorBinop(op, l, r, lh, rh, sig, ord);
    }
  }

  // ---------------------------------------------------------------- what a join yields

  /** Ascending positions before n. */
  ghost predicate Positions(from: seq<nat>, n: nat) {
    && (forall k :: 0 <= k < |from| ==> from[k] < n)
    && (forall a, b :: 0 <= a < b < |from| ==> from[a] < from[b])
  }

  /** Positions of the samples that a list built up to n got from its last step. */
  ghost function Extended(from: seq<nat>, n: nat, more: bool): seq<nat> {
    if more then from + [n] else from
  }

  lemma ExtendedPositions(from: seq<nat>, n: nat, more: bool)
    requires Positions(from, n)
    ensures Positions(Extended(from, n, more), n + 1)
    ensures forall i :: i in Extended(from, n, more) <==> i in from || (more && i == n)
  {}

  /** out has exactly those of the first n samples of v that share their signature with one of w, or
      with none of w, at the positions from. */
  ghost predicate PicksBySignature(out: Vector, v: Vector, n: nat, w: Vector, sig: Labels -> Signature, matched: bool, from: seq<nat>)
    requires n <= |v|
  {
    && |from| == |out| && Positions(from, n)
    && (forall k :: 0 <= k < |out| ==> out[k] == v[from[k]])
    && (forall i :: 0 <= i < n ==>
         (i in from <==> HasSignature(w, sig, sig(v[i].metric)) == matched))
  }

  lemma PicksOneMore(out: Vector, v: Vector, n: nat, w: Vector, sig: Labels -> Signature, matched: bool, from: seq<nat>)
    returns (from': seq<nat>)
    requires n < |v| && PicksBySignature(out, v, n, w, sig, matched, from)
    ensures
      var more := HasSignature(w, sig, sig(v[n].metric)) == matched;
      PicksBySignature(if more then out + [v[n]] else out, v, n + 1, w, sig, matched, from')
  {
    var more := HasSignature(w, sig, sig(v[n].metric)) == matched;
    from' := Extended(from, n, more);
    ExtendedPositions(from, n, more);
  }

  lemma SelectOneMore(v: Vector, w: Vector, sig: Labels -> Signature, matched: bool, n: nat)
    requires n < |v|
    ensures
      var before := Select(v, w, sig, matched, n);
      Select(v, w, sig, matched, n + 1) ==
        if HasSignature(w, sig, sig(v[n].metric)) == matched then before + [v[n]] else before
  {
    var before := Select(v, w, sig, matched, n);
    assert before + [] == before;
  }

  lemma {:induction false} SelectPicks(v: Vector, w: Vector, sig: Labels -> Signature, matched: bool, n: nat) returns (from: seq<nat>)
    requires n <= |v|
    ensures PicksBySignature(Select(v, w, sig, matched, n), v, n, w, sig, matched, from)
  {
    from := [];
    if n > 0 {
      var before := SelectPicks(v, w, sig, matched, n - 1);
      SelectOneMore(v, w, sig, matched, n - 1);
      from := PicksOneMore(Select(v, w, sig, matched, n - 1), v, n - 1, w, sig, matched, before);
    }
  }

  /** What a matching pair contributes: with bool a sample that says whether the operation keeps the
      pair, without bool the value of the operation if it does. */
  ghost predicate Contributes(op: Operation, a: Sample, b: Sample, x: Sample) {
    && x.metric == op.metric(a.metric, b.metric)
    && match op.elem(a.value, b.value)
       case ElemError => false
       case Elem(v, true) => x.value == if op.returnBool then FloatValue(Num(1.0)) else v
       case Elem(_, false) => op.returnBool && x.value == FloatValue(Num(0.0))
  }

  /** Sample x is the contribution of a and a sample of r with the signature of a. */
  ghost predicate StemsFrom(op: Operation, a: Sample, r: Vector, sig: Labels -> Signature, x: Sample) {
    exists j :: 0 <= j < |r| && sig(a.metric) == sig(r[j].metric) && Contributes(op, a, r[j], x)
  }

  /** out has one sample for each of the first n left samples with a partner that contributes, in their
      order; from has their positions. */
  ghost predicate JoinsPairs(out: Vector, op: Operation, l: Vector, n: nat, r: Vector, sig: Labels -> Signature, from: seq<nat>)
    requires n <= |l|
  {
    && |from| == |out| && Positions(from, n)
    && (forall k :: 0 <= k < |out| ==> StemsFrom(op, l[from[k]], r, sig, out[k]))
    && (forall i, x :: 0 <= i < n && StemsFrom(op, l[i], r, sig, x) ==> i in from)
  }

  /** What left sample a contributes is what the operation produces with its only partner. */
  lemma PartnerProduces(op: Operation, a: Sample, r: Vector, sig: Labels -> Signature, j: nat, x: Sample)
    requires !DuplicateRight(r, sig, |r|) && j < |r| && Matches(sig, a, r[j])
    ensures |Produced(op, a, r[j])| <= 1
    ensures StemsFrom(op, a, r, sig, x) <==> Produced(op, a, r[j]) == [x]
  {
    UniquePartner(r, sig, a, j);
    assert Contributes(op, a, r[j], x) <==> Produced(op, a, r[j]) == [x];
  }

  /** What left sample n adds to the pairs. */
  lemma PairsAdds(op: Operation, l: Vector, n: nat, r: Vector, sig: Labels -> Signature) returns (added: Vector)
    requires n < |l| && !DuplicateRight(r, sig, |r|)
    ensures Pairs(op, l, r, sig, n + 1) == Pairs(op, l, r, sig, n) + added && |added| <= 1
    ensures forall x :: StemsFrom(op, l[n], r, sig, x) <==> added == [x]
  {
    added := [];
    if HasSignature(r, sig, sig(l[n].metric)) {
      var j :| 0 <= j < |r| && sig(r[j].metric) == sig(l[n].metric);
      UniquePartner(r, sig, l[n], j);
      added := Produced(op, l[n], r[j]);
      forall x ensures StemsFrom(op, l[n], r, sig, x) <==> added == [x] {
        PartnerProduces(op, l[n], r, sig, j, x);
      }
      PartnerProduces(op, l[n], r, sig, j, l[n]);
    }
  }

  lemma JoinsOneMore(out: Vector, op: Operation, l: Vector, n: nat, r: Vector, sig: Labels -> Signature, from: seq<nat>, added: Vector)
    returns (from': seq<nat>)
    requires n < |l| && JoinsPairs(out, op, l, n, r, sig, from) && |added| <= 1
    requires forall x :: StemsFrom(op, l[n], r, sig, x) <==> added == [x]
    ensures JoinsPairs(out + added, op, l, n + 1, r, sig, from')
  {
    from' := Extended(from, n, added != []);
    ExtendedPositions(from, n, added != []);
    assert |added| == 1 ==> added == [added[0]];
  }

  lemma {:induction false} PairsJoin(op: Operation, l: Vector, n: nat, r: Vector, sig: Labels -> Signature) returns (from: seq<nat>)
    requires n <= |l| && !DuplicateRight(r, sig, |r|)
    ensures JoinsPairs(Pairs(op, l, r, sig, n), op, l, n, r, sig, from)
  {
    from := [];
    if n > 0 {
      var before := PairsJoin(op, l, n - 1, r, sig);
      var added := PairsAdds(op, l, n - 1, r, sig);
      from := JoinsOneMore(Pairs(op, l, r, sig, n - 1), op, l, n - 1, r, sig, before, added);
    }
  }

  /** What a join of two vectors has to yield, in terms of the signatures and the operation. */
  ghost predicate IsJoin(join: Join, l: Vector, r: Vector, sig: Labels -> Signature, out: Vector) {
    match join
    case AndJoin => exists from :: PicksBySignature(out, l, |l|, r, sig, true, from)
    case UnlessJoin => exists from :: PicksBySignature(out, l, |l|, r, sig, false, from)
    case OrJoin => l <= out && exists from :: PicksBySignature(out[|l|..], r, |r|, l, sig, false, from)
    case Arithmetic(op) => exists from :: JoinsPairs(out, op, l, |l|, r, sig, from)
  }

  lemma JoinedIsJoin(join: Join, l: Vector, r: Vector, sig: Labels -> Signature)
    requires JoinSpec(join, l, r, sig).Joined?
    ensures IsJoin(join, l, r, sig, JoinSpec(join, l, r, sig).out)
  {
    match join
    case AndJoin => var from := SelectPicks(l, r, sig, true, |l|);
    case UnlessJoin => var from := SelectPicks(l, r, sig, false, |l|);
    case OrJoin =>
      var from := SelectPicks(r, l, sig, false, |r|);
      assert Or(l, r, sig)[|l|..] == Select(r, l, sig, false, |r|);
    case Arithmetic(op) =>
      if |l| == 0 || |r| == 0 {
        EmptyJoin(op, l, r, sig, |l|);
        assert JoinsPairs([], op, l, |l|, r, sig, []);
      } else {
        var from := PairsJoin(op, l, |l|, r, sig);
      }
  }

  // ---------------------------------------------------------------- a join over all steps

  datatype Join = AndJoin | OrJoin | UnlessJoin | Arithmetic(op: Operation)

  /** The relational definition of a join of two vectors. */
  ghost function JoinSpec(join: Join, l: Vector, r: Vector, sig: Labels -> Signature): JoinResult {
    match join
    case AndJoin => Joined(And(l, r, sig))
    case OrJoin => Joined(Or(l, r, sig))
    case UnlessJoin => Joined(Unless(l, r, sig))
    case Arithmetic(op) => BinopSpec(op, l, r, sig)
  }

  /** Gathers the vector at time t together with the ordinals of its samples. */
  method GatherWithOrdinals(t: int, input: Matrix, helpers: seq<nat>, ghost source: Matrix)
    returns (output: Vector, ordinals: seq<nat>, rest: Matrix)
    requires RangeEval.InStep(source, input, t) && |helpers| == |source|
    ensures output == Column(source, t) && ordinals == HelperColumn(source, helpers, t, |source|)
    ensures rest == RangeEval.RemainingMatrix(source, t)
  {
    output, ordinals, rest := [], [], [];
    for i := 0 to |input|
      invariant output == ColumnUpTo(source, t, i) && ordinals == HelperColumn(source, helpers, t, i)
      invariant |rest| == i && RangeEval.Moved(source, t, rest)
    {
      var value, cursor := RangeEval.ReadCursor(input[i], t, source[i]);
      ColumnStep(source, t, i, value);
      HelperStep(source, helpers, t, i, value);
      if value.Some? {
        output := output + [Sample(input[i].metric, value.value)];
        ordinals := ordinals + [helpers[i]];
      }
      RangeEval.MovedOne(source, t, rest, cursor);
      rest := rest + [cursor];
    }
    RangeEval.MovedAll(source, t, rest);
  }

  ghost function JoinAt(join: Join, left: Matrix, right: Matrix, sig: Labels -> Signature, t: int): JoinResult {
    JoinSpec(join, Column(left, t), Column(right, t), sig)
  }

  function Signatures(m: Matrix, sig: Labels -> Signature): (r: seq<Signature>)
    ensures |r| == |m| && forall i :: 0 <= i < |m| ==> r[i] == sig(m[i].metric)
  {
    seq(|m|, i requires 0 <= i < |m| => sig(m[i].metric))
  }

  /** helpers holds the ordinals of the series of m. */
  ghost predicate NumberedSeries(m: Matrix, helpers: seq<nat>, sig: Labels -> Signature, ord: map<Signature, nat>) {
    |helpers| == |m| && forall i :: 0 <= i < |m| ==> sig(m[i].metric) in ord && helpers[i] == ord[sig(m[i].metric)]
  }

  /** One step of a join: gather both sides with their ordinals, and join them. */
  method GatherAndJoin(enh: EvalNodeHelper, join: Join, t: int, l: Matrix, r: Matrix, lh: seq<nat>, rh: seq<nat>,
                       ghost left: Matrix, ghost right: Matrix, ghost sig: Labels -> Signature, ghost ord: map<Signature, nat>)
    returns (res: JoinResult, l': Matrix, r': Matrix)
    requires RangeEval.InStep(left, l, t) && RangeEval.InStep(right, r, t)
    requires NumberedSeries(left, lh, sig, ord) && NumberedSeries(right, rh, sig, ord)
    requires enh.Valid() && Numbered(ord, enh.numSigs)
    modifies enh, enh.sigsPresent, enh.matchedSigsPresent, enh.rightSigs
    ensures enh.Valid()
    ensures fresh(enh.sigsPresent) || enh.sigsPresent == old(enh.sigsPresent)
    ensures fresh(enh.matchedSigsPresent) || enh.matchedSigsPresent == old(enh.matchedSigsPresent)
    ensures fresh(enh.rightSigs) || enh.rightSigs == old(enh.rightSigs)
    ensures res == JoinAt(join, left, right, sig, t)
    ensures l' == RangeEval.RemainingMatrix(left, t) && r' == RangeEval.RemainingMatrix(right, t)
  {
    var lv, rv, lo, ro;
    lv, lo, l' := GatherWithOrdinals(t, l, lh, left);
    rv, ro, r' := GatherWithOrdinals(t, r, rh, right);
    GatheredAligned(left, lh, sig, ord, t, |left|);
    GatheredAligned(right, rh, sig, ord, t, |right|);
    res := enh.JoinStep(join, lv, rv, lo, ro, sig, ord);
  }

  ghost predicate AllJoined(join: Join, left: Matrix, right: Matrix, sig: Labels -> Signature, g: Steps, results: seq<Vector>) {
    forall k :: 0 <= k < |results| ==> JoinAt(join, left, right, sig, g.At(k)) == Joined(results[k])
  }

  ghost predicate AllJoins(join: Join, left: Matrix, right: Matrix, sig: Labels -> Signature, g: Steps, results: seq<Vector>) {
    forall k :: 0 <= k < |results| ==> IsJoin(join, Column(left, g.At(k)), Column(right, g.At(k)), sig, results[k])
  }

  lemma OneMoreJoined(join: Join, left: Matrix, right: Matrix, sig: Labels -> Signature, g: Steps, results: seq<Vector>, out: Vector)
    requires AllJoined(join, left, right, sig, g, results) && AllJoins(join, left, right, sig, g, results)
    requires JoinAt(join, left, right, sig, g.At(|results|)) == Joined(out)
    ensures AllJoined(join, left, right, sig, g, results + [out]) && AllJoins(join, left, right, sig, g, results + [out])
  {
    JoinedIsJoin(join, Column(left, g.At(|results|)), Column(right, g.At(|results|)), sig);
  }

  /** A join over all steps of a query: signatures are numbered once, and the arrays are reused from step
      to step.  Every step yields the relational join of the two columns at that step; the first step
      at which that is an error ends the query. */
  method JoinRange(join: Join, g: Steps, left: Matrix, right: Matrix, sig: Labels -> Signature)
    returns (results: seq<Vector>, failure: Option<JoinResult>)
    requires g.Valid() && ValidMatrix(left, g) && ValidMatrix(right, g)
    ensures AllJoined(join, left, right, sig, g, results)
    ensures forall k :: 0 <= k < |results| ==> IsJoin(join, Column(left, g.At(k)), Column(right, g.At(k)), sig, results[k])
    ensures failure.None? ==> |results| == g.Count()
    ensures failure.Some? ==> |results| < g.Count() && !failure.value.Joined? && JoinAt(join, left, right, sig, g.At(|results|)) == failure.value
  {
    var lh, rh, ord, n := NumberBothSides(Signatures(left, sig), Signatures(right, sig));
    assert NumberedSeries(left, lh, sig, ord) && NumberedSeries(right, rh, sig, ord);
    var enh := new EvalNodeHelper(n);
    var l, r := left, right;
    RangeEval.Unread(left, g);
    RangeEval.Unread(right, g);
    results, failure := [], None;
    for k := 0 to g.Count()
      invariant |results| == k && fresh(enh) && enh.numSigs == n && enh.Valid()
      invariant fresh(enh.sigsPresent) && fresh(enh.matchedSigsPresent) && fresh(enh.rightSigs)
      invariant l == RangeEval.RemainingMatrix(left, g.At(k - 1)) && r == RangeEval.RemainingMatrix(right, g.At(k - 1))
      invariant AllJoined(join, left, right, sig, g, results) && AllJoins(join, left, right, sig, g, results)
    {
      RangeEval.CursorsInStep(left, g, k);
      RangeEval.CursorsInStep(right, g, k);
      var res;
      res, l, r := GatherAndJoin(enh, join, g.At(k), l, r, lh, rh, left, right, sig, ord);
      if !res.Joined? {
        failure := Some(res);
        return;
      }
      OneMoreJoined(join, left, right, sig, g, results, res.out);
      results := results + [res.out];
    }
  }

  /** The outcome of a one-to-one join. */
  ghost function BinopSpec(op: Operation, l: Vector, r: Vector, sig: Labels -> Signature): JoinResult {
    if |l| > 0 && |r| > 0 && DuplicateRight(r, sig, |r|) then ManyToMany
    else if DuplicateLeft(op, l, r, sig, |l|) then MultipleMatches
    else Joined(Pairs(op, l, r, sig, |l|))
  }

  lemma {:induction false} EmptyJoin(op: Operation, l: Vector, r: Vector, sig: Labels -> Signature, n: nat)
    requires n <= |l| && (|l| == 0 || |r| == 0)
    ensures Pairs(op, l, r, sig, n) == [] && !DuplicateLeft(op, l, r, sig, n)
  {
    if n > 0 {
      EmptyJoin(op, l, r, sig, n - 1);
    }
  }

  /** Slot o is matched iff one of the first n left samples has ordinal o and takes part. */
  ghost predicate MatchedSoFar(op: Operation, l: Vector, r: Vector, lh: seq<nat>, sig: Labels -> Signature, n: nat, matched: seq<bool>)
    requires n <= |l| == |lh|
  {
    forall o :: 0 <= o < |matched| ==>
      (matched[o] <==> exists i :: 0 <= i < n && lh[i] == o && Takes(op, l, r, sig, i))
  }

  /** The slot of left sample n holds its only partner. */
  lemma Partner(op: Operation, l: Vector, r: Vector, lh: seq<nat>, rh: seq<nat>, sig: Labels -> Signature, ord: map<Signature, nat>,
                n: nat, present: seq<bool>, stored: seq<Option<Sample>>)
    requires Injective(ord) && Aligned(l, lh, sig, ord) && Aligned(r, rh, sig, ord) && n < |l| && !DuplicateRight(r, sig, |r|)
    requires lh[n] < |present| == |stored| && (present[lh[n]] <==> lh[n] in rh)
    requires forall i :: 0 <= i < |r| ==> rh[i] < |stored| && stored[rh[i]] == Some(r[i])
    ensures present[lh[n]] ==> stored[lh[n]].Some?
    ensures Takes(op, l, r, sig, n) <==> present[lh[n]] && op.elem(l[n].value, stored[lh[n]].value.value).Elem?
    ensures Pairs(op, l, r, sig, n + 1) ==
            Pairs(op, l, r, sig, n) + if present[lh[n]] then Produced(op, l[n], stored[lh[n]].value) else []
  {
    PresentMeansSignature(l[n], lh[n], r, rh, sig, ord);
    if present[lh[n]] {
      var j :| 0 <= j < |rh| && rh[j] == lh[n];
      UniquePartner(r, sig, l[n], j);
    }
  }

  /** A left sample that takes part completes a forbidden pair iff its slot was already matched. */
  lemma TakenTwice(op: Operation, l: Vector, r: Vector, lh: seq<nat>, sig: Labels -> Signature, ord: map<Signature, nat>,
                   n: nat, matched: seq<bool>)
    requires Injective(ord) && Aligned(l, lh, sig, ord) && n < |l| && lh[n] < |matched|
    requires MatchedSoFar(op, l, r, lh, sig, n, matched) && !DuplicateLeft(op, l, r, sig, n)
    ensures DuplicateLeft(op, l, r, sig, n + 1) <==> matched[lh[n]] && Takes(op, l, r, sig, n)
    ensures DuplicateLeft(op, l, r, sig, n + 1) ==> DuplicateLeft(op, l, r, sig, |l|)
  {
    if matched[lh[n]] && Takes(op, l, r, sig, n) {
      var i :| 0 <= i < n && lh[i] == lh[n] && Takes(op, l, r, sig, i);
      assert Matches(sig, l[i], l[n]);
    }
    if DuplicateLeft(op, l, r, sig, n + 1) {
      var i, j :| 0 <= i < j < n + 1 && Matches(sig, l[i], l[j]) && Takes(op, l, r, sig, i) && Takes(op, l, r, sig, j);
      assert j == n && lh[i] == lh[n];
    }
  }

  /** What happens to left sample n, in terms of the three slots of its ordinal. */
  lemma LeftStep(op: Operation, l: Vector, r: Vector, lh: seq<nat>, rh: seq<nat>, sig: Labels -> Signature, ord: map<Signature, nat>,
                 n: nat, present: seq<bool>, stored: seq<Option<Sample>>, matched: seq<bool>)
    requires Injective(ord) && Aligned(l, lh, sig, ord) && Aligned(r, rh, sig, ord) && n < |l| && !DuplicateRight(r, sig, |r|)
    requires lh[n] < |present| == |stored| == |matched| && (present[lh[n]] <==> lh[n] in rh)
    requires forall i :: 0 <= i < |r| ==> rh[i] < |stored| && stored[rh[i]] == Some(r[i])
    requires MatchedSoFar(op, l, r, lh, sig, n, matched) && !DuplicateLeft(op, l, r, sig, n)
    ensures present[lh[n]] ==> stored[lh[n]].Some?
    ensures
      var taken := present[lh[n]] && op.elem(l[n].value, stored[lh[n]].value.value).Elem?;
      if taken && matched[lh[n]] then DuplicateLeft(op, l, r, sig, |l|)
      else
        && !DuplicateLeft(op, l, r, sig, n + 1)
        && MatchedSoFar(op, l, r, lh, sig, n + 1, if taken then matched[lh[n] := true] else matched)
        && Pairs(op, l, r, sig, n + 1) ==
           Pairs(op, l, r, sig, n) + if present[lh[n]] then Produced(op, l[n], stored[lh[n]].value) else []
  {
    Partner(op, l, r, lh, rh, sig, ord, n, present, stored);
    TakenTwice(op, l, r, lh, sig, ord, n, matched);
    MatchedStep(op, l, r, lh, sig, n, matched);
  }

  lemma MatchedStep(op: Operation, l: Vector, r: Vector, lh: seq<nat>, sig: Labels -> Signature, n: nat, matched: seq<bool>)
    requires n < |l| == |lh| && lh[n] < |matched| && MatchedSoFar(op, l, r, lh, sig, n, matched)
    ensures
      var next := if Takes(op, l, r, sig, n) then matched[lh[n] := true] else matched;
      MatchedSoFar(op, l, r, lh, sig, n + 1, next)
  {
    var next := if Takes(op, l, r, sig, n) then matched[lh[n] := true] else matched;
    forall o | 0 <= o < |matched|
      ensures next[o] <==> exists i :: 0 <= i < n + 1 && lh[i] == o && Takes(op, l, r, sig, i)
    {
      if matched[o] {
        var i :| 0 <= i < n && lh[i] == o && Takes(op, l, r, sig, i);
        assert 0 <= i < n + 1 && lh[i] == o;
      }
    }
  }

  lemma RepeatedOrdinal(r: Vector, rh: seq<nat>, sig: Labels -> Signature, ord: map<Signature, nat>, n: nat)
    requires Injective(ord) && Aligned(r, rh, sig, ord) && n < |r| && !DuplicateRight(r, sig, n)
    ensures rh[n] in rh[..n] <==> DuplicateRight(r, sig, n + 1)
    ensures rh[n] in rh[..n] ==> DuplicateRight(r, sig, |r|)
  {
    if rh[n] in rh[..n] {
      var i :| 0 <= i < n && rh[i] == rh[n];
      assert Matches(sig, r[i], r[n]);
    }
    if DuplicateRight(r, sig, n + 1) {
      var i, j :| 0 <= i < j < n + 1 && Matches(sig, r[i], r[j]);
      assert j == n && rh[..n][i] == rh[n];
    }
  }

  lemma PresentMeansSignature(s: Sample, o: nat, w: Vector, wh: seq<nat>, sig: Labels -> Signature, ord: map<Signature, nat>)
    requires Injective(ord) && sig(s.metric) in ord && o == ord[sig(s.metric)] && Aligned(w, wh, sig, ord)
    ensures o in wh <==> HasSignature(w, sig, sig(s.metric))
  {
    if o in wh {
      var i :| 0 <= i < |wh| && wh[i] == o;
      assert sig(w[i].metric) == sig(s.metric);
    }
    if HasSignature(w, sig, sig(s.metric)) {
      var i :| 0 <= i < |w| && sig(w[i].metric) == sig(s.metric);
      assert wh[i] == o;
    }
  }
}
