/** The order of fields in a message: fields with different numbers may change places, and of two values
    for a field that is not repeated the later one counts. */
module FieldOrder {
  import opened Basics
  import opened Wire
  import opened Messages
  import opened UnknownFields

  /** Taking in one field after another. */
  ghost function Both<M>(put: (M, Field) -> Option<M>, m: M, f: Field, g: Field): Option<M> {
    if put(m, f).None? then None else put(put(m, f).value, g)
  }

  ghost predicate Commute<M>(put: (M, Field) -> Option<M>, m: M, f: Field, g: Field) {
    Both(put, m, f, g) == Both(put, m, g, f)
  }

  ghost predicate Replaces<M>(put: (M, Field) -> Option<M>, m: M, f: Field, g: Field) {
    Both(put, m, f, g) == put(m, g)
  }

  /** Fields that messages of kind k expect, of which neither is an alternative to the other: a count is
      either an integer or a float. */
  ghost predicate Different(k: Kind, f: Field, g: Field) {
    && Shaped(k, f) && Shaped(k, g) && f.num != g.num
    && !(k == HistogramKind && f.num <= 2 && g.num <= 2)
    && !(k == HistogramKind && 6 <= f.num <= 7 && 6 <= g.num <= 7)
  }

  /** Two values for the same field, or for alternatives, of which there can be only one. */
  ghost predicate SameSingle(k: Kind, f: Field, g: Field) {
    && Shaped(k, f) && Shaped(k, g) && Single(k, f.num)
    && (f.num == g.num
        || (k == HistogramKind && f.num <= 2 && g.num <= 2)
        || (k == HistogramKind && 6 <= f.num <= 7 && 6 <= g.num <= 7))
  }

  /** Fields that are not repeated. */
  ghost predicate Single(k: Kind, num: int) {
    match k
    case LabelKind => num == 1 || num == 2
    case SampleKind => num == 1 || num == 2
    case ExemplarKind => num == 2 || num == 3
    case SpanKind => num == 1 || num == 2
    case HistogramKind => 1 <= num <= 7 || num == 14 || num == 15
    case SeriesKind => false
    case MetadataKind => num == 1 || num == 2 || num == 4 || num == 5
    case RequestKind => false
  }

  // ---------------------------------------------------------------- each message

  lemma LabelOrder(m: Label, f: Field, g: Field)
    ensures Different(LabelKind, f, g) ==> Commute(PutLabel, m, f, g)
    ensures SameSingle(LabelKind, f, g) ==> Replaces(PutLabel, m, f, g)
  {
  }

  lemma SampleOrder(m: Messages.Sample, f: Field, g: Field)
    ensures Different(SampleKind, f, g) ==> Commute(PutSample, m, f, g)
    ensures SameSingle(SampleKind, f, g) ==> Replaces(PutSample, m, f, g)
  {
  }

  lemma ExemplarOrder(m: Exemplar, f: Field, g: Field)
    ensures Different(ExemplarKind, f, g) ==> Commute(PutExemplar, m, f, g)
    ensures SameSingle(ExemplarKind, f, g) ==> Replaces(PutExemplar, m, f, g)
  {
  }

  lemma SpanOrder(m: BucketSpan, f: Field, g: Field)
    ensures Different(SpanKind, f, g) ==> Commute(PutSpan, m, f, g)
    ensures SameSingle(SpanKind, f, g) ==> Replaces(PutSpan, m, f, g)
  {
  }

  lemma HistogramVarintOrder(m: Messages.Histogram, f: Field, g: Field)
    requires f.VarintField? && Different(HistogramKind, f, g)
    ensures Commute(PutHistogram, m, f, g)
  {
    match g
    case VarintField(_, _) =>
    case FixedField(_, _) =>
    case BytesField(_, _) =>
    case PackedVarints(_, _) =>
    case PackedFixed(_, _) =>
  }

  lemma HistogramFixedOrder(m: Messages.Histogram, f: Field, g: Field)
    requires f.FixedField? && Different(HistogramKind, f, g)
    ensures Commute(PutHistogram, m, f, g)
  {
    match g
    case VarintField(_, _) =>
    case FixedField(_, _) =>
    case BytesField(_, _) =>
    case PackedVarints(_, _) =>
    case PackedFixed(_, _) =>
  }

  /** What a list of spans takes in. */
  lemma PutSpanField(m: Messages.Histogram, f: Field)
    requires f.BytesField?
    ensures
      var x := DecSpan(f.bytes);
      PutHistogram(m, f) ==
        if x.None? then None
        else Some(if f.num == 8 then m.(negativeSpans := m.negativeSpans + [x.value])
                  else m.(positiveSpans := m.positiveSpans + [x.value]))
  {
  }

  lemma TwoSpansOrder(m: Messages.Histogram, f: Field, g: Field)
    requires f.BytesField? && g.BytesField? && f.num == 8 && g.num == 11
    ensures Commute(PutHistogram, m, f, g)
  {
    var x, y := DecSpan(f.bytes), DecSpan(g.bytes);
    PutSpanField(m, f);
    PutSpanField(m, g);
    if x.Some? && y.Some? {
      PutSpanField(m.(negativeSpans := m.negativeSpans + [x.value]), g);
      PutSpanField(m.(positiveSpans := m.positiveSpans + [y.value]), f);
    } else if x.Some? {
      PutSpanField(m.(negativeSpans := m.negativeSpans + [x.value]), g);
    } else if y.Some? {
      PutSpanField(m.(positiveSpans := m.positiveSpans + [y.value]), f);
    }
  }

  lemma HistogramSpanOrder(m: Messages.Histogram, f: Field, g: Field)
    requires f.BytesField? && Different(HistogramKind, f, g)
    ensures Commute(PutHistogram, m, f, g)
  {
    match g
    case VarintField(_, _) => HistogramVarintOrder(m, g, f);
    case FixedField(_, _) => HistogramFixedOrder(m, g, f);
    case PackedVarints(_, _) => HistogramDeltaOrder(m, g, f);
    case PackedFixed(_, _) => HistogramFloatOrder(m, g, f);
    case BytesField(_, _) =>
      if f.num == 8 {
        TwoSpansOrder(m, f, g);
      } else {
        TwoSpansOrder(m, g, f);
      }
  }

  lemma HistogramDeltaOrder(m: Messages.Histogram, f: Field, g: Field)
    requires f.PackedVarints? && Different(HistogramKind, f, g)
    ensures Commute(PutHistogram, m, f, g)
  {
    match g
    case VarintField(_, _) =>
    case FixedField(_, _) =>
    case BytesField(_, _) =>
    case PackedVarints(_, _) =>
    case PackedFixed(_, _) =>
  }

  lemma HistogramFloatOrder(m: Messages.Histogram, f: Field, g: Field)
    requires f.PackedFixed? && Different(HistogramKind, f, g)
    ensures Commute(PutHistogram, m, f, g)
  {
    match g
    case VarintField(_, _) =>
    case FixedField(_, _) =>
    case BytesField(_, _) =>
    case PackedVarints(_, _) =>
    case PackedFixed(_, _) =>
  }

  lemma HistogramSingle(m: Messages.Histogram, f: Field, g: Field)
    requires SameSingle(HistogramKind, f, g)
    ensures Replaces(PutHistogram, m, f, g)
  {
  }

  lemma HistogramOrder(m: Messages.Histogram, f: Field, g: Field)
    ensures Different(HistogramKind, f, g) ==> Commute(PutHistogram, m, f, g)
    ensures SameSingle(HistogramKind, f, g) ==> Replaces(PutHistogram, m, f, g)
  {
    if SameSingle(HistogramKind, f, g) {
      HistogramSingle(m, f, g);
    }
    if Different(HistogramKind, f, g) {
      match f
      case VarintField(_, _) => HistogramVarintOrder(m, f, g);
      case FixedField(_, _) => HistogramFixedOrder(m, f, g);
      case BytesField(_, _) => HistogramSpanOrder(m, f, g);
      case PackedVarints(_, _) => HistogramDeltaOrder(m, f, g);
      case PackedFixed(_, _) => HistogramFloatOrder(m, f, g);
    }
  }

  lemma SeriesOrder(m: TimeSeries, f: Field, g: Field)
    ensures Different(SeriesKind, f, g) ==> Commute(PutSeries, m, f, g)
  {
  }

  lemma MetadataOrder(m: MetricMetadata, f: Field, g: Field)
    ensures Different(MetadataKind, f, g) ==> Commute(PutMetadata, m, f, g)
    ensures SameSingle(MetadataKind, f, g) ==> Replaces(PutMetadata, m, f, g)
  {
  }

  lemma RequestOrder(m: WriteRequest, f: Field, g: Field)
    ensures Different(RequestKind, f, g) ==> Commute(PutRequest, m, f, g)
  {
  }

  // ---------------------------------------------------------------- anywhere in a message

  lemma FoldTwo<M>(put: (M, Field) -> Option<M>, m: M, f: Field, g: Field, b: seq<Field>)
    requires !f.Raw? && !g.Raw?
    ensures Fold(put, m, [f, g] + b) == if Both(put, m, f, g).None? then None else Fold(put, Both(put, m, f, g).value, b)
  {
    var fs := [f, g] + b;
    assert fs[1..] == [g] + b && fs[1..][1..] == b;
  }

  lemma FoldNext<M>(put: (M, Field) -> Option<M>, m: M, g: Field, b: seq<Field>)
    requires !g.Raw?
    ensures Fold(put, m, [g] + b) == if put(m, g).None? then None else Fold(put, put(m, g).value, b)
  {
    assert ([g] + b)[1..] == b;
  }

  /** Neighbours that commute may change places wherever they stand. */
  lemma {:induction false} SwapAnywhere<M(!new)>(put: (M, Field) -> Option<M>, m: M, a: seq<Field>, f: Field, g: Field, b: seq<Field>)
    requires !f.Raw? && !g.Raw? && forall x: M :: Commute(put, x, f, g)
    ensures Fold(put, m, a + ([f, g] + b)) == Fold(put, m, a + ([g, f] + b))
    decreases |a|
  {
    if a == [] {
      assert Commute(put, m, f, g);
      assert a + ([f, g] + b) == [f, g] + b && a + ([g, f] + b) == [g, f] + b;
      FoldTwo(put, m, f, g, b);
      FoldTwo(put, m, g, f, b);
    } else {
      var next := if a[0].Raw? then Some(m) else put(m, a[0]);
      assert (a + ([f, g] + b))[1..] == a[1..] + ([f, g] + b) && (a + ([g, f] + b))[1..] == a[1..] + ([g, f] + b);
      if next.Some? {
        SwapAnywhere(put, next.value, a[1..], f, g, b);
      }
    }
  }

  /** A value that is replaced by its neighbour may as well be missing. */
  lemma {:induction false} ReplaceAnywhere<M(!new)>(put: (M, Field) -> Option<M>, m: M, a: seq<Field>, f: Field, g: Field, b: seq<Field>)
    requires !f.Raw? && !g.Raw? && forall x: M :: Replaces(put, x, f, g)
    ensures Fold(put, m, a + ([f, g] + b)) == Fold(put, m, a + ([g] + b))
    decreases |a|
  {
    if a == [] {
      assert Replaces(put, m, f, g);
      assert a + ([f, g] + b) == [f, g] + b && a + ([g] + b) == [g] + b;
      FoldTwo(put, m, f, g, b);
      FoldNext(put, m, g, b);
    } else {
      var next := if a[0].Raw? then Some(m) else put(m, a[0]);
      assert (a + ([f, g] + b))[1..] == a[1..] + ([f, g] + b) && (a + ([g] + b))[1..] == a[1..] + ([g] + b);
      if next.Some? {
        ReplaceAnywhere(put, next.value, a[1..], f, g, b);
      }
    }
  }

  /** What a message of kind k is read as, apart from its unknown fields. */
  ghost function ReadAs<M>(k: Kind, put: (M, Field) -> Option<M>, empty: M, fs: seq<Field>): Option<M> {
    var r := Unmarshal(k, put, empty, EncFields(fs));
    if r.None? then None else Some(r.value.0)
  }

  lemma ReadAsFold<M>(k: Kind, put: (M, Field) -> Option<M>, empty: M, fs: seq<Field>)
    requires forall i :: 0 <= i < |fs| ==> KnownOrUnknown(k, fs[i])
    ensures ReadAs(k, put, empty, fs) == Fold(put, empty, fs)
  {
    ParseAll(k, fs);
  }

  /** All fields of a list in a message of kind k are known to it or whole unknown ones. */
  ghost predicate Proper(k: Kind, fs: seq<Field>) {
    forall i :: 0 <= i < |fs| ==> KnownOrUnknown(k, fs[i])
  }

  lemma ProperParts(k: Kind, a: seq<Field>, mid: seq<Field>, b: seq<Field>)
    ensures Proper(k, a + (mid + b)) <==> Proper(k, a) && Proper(k, mid) && Proper(k, b)
  {
    var all := a + (mid + b);
    if Proper(k, all) {
      assert forall i :: 0 <= i < |a| ==> a[i] == all[i];
      assert forall i :: 0 <= i < |mid| ==> mid[i] == all[|a| + i];
      assert forall i :: 0 <= i < |b| ==> b[i] == all[|a| + |mid| + i];
    }
  }

  /** On the wire: neighbouring fields that commute are read alike in both orders. */
  lemma OrderIrrelevant<M(!new)>(k: Kind, put: (M, Field) -> Option<M>, empty: M, a: seq<Field>, f: Field, g: Field, b: seq<Field>)
    requires Proper(k, a + ([f, g] + b)) && !f.Raw? && !g.Raw? && forall x: M :: Commute(put, x, f, g)
    ensures ReadAs(k, put, empty, a + ([f, g] + b)) == ReadAs(k, put, empty, a + ([g, f] + b))
  {
    ProperParts(k, a, [f, g], b);
    ProperParts(k, a, [g, f], b);
    assert Proper(k, [g, f]) by {
      assert [f, g][0] == f && [f, g][1] == g;
    }
    ReadAsFold(k, put, empty, a + ([f, g] + b));
    ReadAsFold(k, put, empty, a + ([g, f] + b));
    SwapAnywhere(put, empty, a, f, g, b);
  }

  /** On the wire: of two values for a field that is not repeated the later one counts. */
  lemma LastOneCounts<M(!new)>(k: Kind, put: (M, Field) -> Option<M>, empty: M, a: seq<Field>, f: Field, g: Field, b: seq<Field>)
    requires Proper(k, a + ([f, g] + b)) && !f.Raw? && !g.Raw? && forall x: M :: Replaces(put, x, f, g)
    ensures ReadAs(k, put, empty, a + ([f, g] + b)) == ReadAs(k, put, empty, a + ([g] + b))
  {
    ProperParts(k, a, [f, g], b);
    ProperParts(k, a, [g], b);
    assert Proper(k, [g]) by {
      assert [f, g][1] == g;
    }
    ReadAsFold(k, put, empty, a + ([f, g] + b));
    ReadAsFold(k, put, empty, a + ([g] + b));
    ReplaceAnywhere(put, empty, a, f, g, b);
  }

  /** Both for labels; the other messages have what this needs in their own lemmas above. */
  lemma LabelFieldsInAnyOrder(a: seq<Field>, f: Field, g: Field, b: seq<Field>)
    requires Proper(LabelKind, a + ([f, g] + b))
    ensures Different(LabelKind, f, g) ==>
      ReadAs(LabelKind, PutLabel, EMPTY_LABEL, a + ([f, g] + b)) == ReadAs(LabelKind, PutLabel, EMPTY_LABEL, a + ([g, f] + b))
    ensures SameSingle(LabelKind, f, g) ==>
      ReadAs(LabelKind, PutLabel, EMPTY_LABEL, a + ([f, g] + b)) == ReadAs(LabelKind, PutLabel, EMPTY_LABEL, a + ([g] + b))
  {
    forall x: Label
      ensures Different(LabelKind, f, g) ==> Commute(PutLabel, x, f, g)
      ensures SameSingle(LabelKind, f, g) ==> Replaces(PutLabel, x, f, g)
    {
      LabelOrder(x, f, g);
    }
    if Different(LabelKind, f, g) {
      OrderIrrelevant(LabelKind, PutLabel, EMPTY_LABEL, a, f, g, b);
    }
    if SameSingle(LabelKind, f, g) {
      LastOneCounts(LabelKind, PutLabel, EMPTY_LABEL, a, f, g, b);
    }
  }

  /** And for histograms, whose counts are alternatives. */
  lemma HistogramFieldsInAnyOrder(a: seq<Field>, f: Field, g: Field, b: seq<Field>)
    requires Proper(HistogramKind, a + ([f, g] + b))
    ensures Different(HistogramKind, f, g) ==>
      ReadAs(HistogramKind, PutHistogram, EMPTY_HISTOGRAM, a + ([f, g] + b)) == ReadAs(HistogramKind, PutHistogram, EMPTY_HISTOGRAM, a + ([g, f] + b))
    ensures SameSingle(HistogramKind, f, g) ==>
      ReadAs(HistogramKind, PutHistogram, EMPTY_HISTOGRAM, a + ([f, g] + b)) == ReadAs(HistogramKind, PutHistogram, EMPTY_HISTOGRAM, a + ([g] + b))
  {
    forall x: Messages.Histogram
      ensures Different(HistogramKind, f, g) ==> Commute(PutHistogram, x, f, g)
      ensures SameSingle(HistogramKind, f, g) ==> Replaces(PutHistogram, x, f, g)
    {
      HistogramOrder(x, f, g);
    }
    if Different(HistogramKind, f, g) {
      OrderIrrelevant(HistogramKind, PutHistogram, EMPTY_HISTOGRAM, a, f, g, b);
    }
    if SameSingle(HistogramKind, f, g) {
      LastOneCounts(HistogramKind, PutHistogram, EMPTY_HISTOGRAM, a, f, g, b);
    }
  }
}
