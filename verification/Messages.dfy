/** The messages of remote write: what each one puts on the wire, how many bytes it says it needs, and
    what is made of the fields when they are read back. */
module Messages {
  import opened Basics
  import opened Wire

  // ---------------------------------------------------------------- messages

  /** Floats are 64-bit patterns, strings are bytes; unknown holds unrecognized fields as they came. */
  datatype Label = Label(name: Bytes, value: Bytes, unknown: Bytes)

  datatype Sample = Sample(value: U64, timestamp: I64, unknown: Bytes)

  datatype Exemplar = Exemplar(labels: seq<Label>, value: U64, timestamp: I64, unknown: Bytes)

  datatype BucketSpan = BucketSpan(offset: I32, length: U32, unknown: Bytes)

  datatype Count = NoCount | IntCount(n: U64) | FloatCount(f: U64)

  datatype Histogram = Histogram(
    count: Count, sum: U64, schema: I32, zeroThreshold: U64, zeroCount: Count,
    negativeSpans: seq<BucketSpan>, negativeDeltas: seq<I64>, negativeCounts: seq<U64>,
    positiveSpans: seq<BucketSpan>, positiveDeltas: seq<I64>, positiveCounts: seq<U64>,
    resetHint: I32, timestamp: I64, customValues: seq<U64>, unknown: Bytes)

  datatype TimeSeries = TimeSeries(
    labels: seq<Label>, samples: seq<Sample>, exemplars: seq<Exemplar>, histograms: seq<Histogram>, unknown: Bytes)

  datatype MetricMetadata = MetricMetadata(kind: I32, name: Bytes, help: Bytes, metricUnit: Bytes, unknown: Bytes)

  datatype WriteRequest = WriteRequest(timeseries: seq<TimeSeries>, metadata: seq<MetricMetadata>, unknown: Bytes)

  // ---------------------------------------------------------------- numbers

  /** A float is zero in both signs. */
  predicate IsZero(bits: U64) {
    bits == 0 || bits == TWO63
  }

  /** What a float field that is left out when zero comes back as. */
  function Zeroed(bits: U64): U64 {
    if IsZero(bits) then 0 else bits
  }

  function FromI64(x: I64): U64 {
    Pattern(x, TWO64)
  }

  function ToI64(v: U64): I64 {
    Signed(v, TWO64)
  }

  /** An enum is widened to 64 bits with its sign, and read back in 32 bits. */
  function ToI32(v: U64): I32 {
    Signed(v % TWO32, TWO32)
  }

  function Zig32(x: I32): U64 {
    ZigZagValue(x, TWO32);
    ZigZag(x, TWO32)
  }

  function UnZig32(v: U64): I32 {
    UnZigZag(v % TWO32, TWO32)
  }

  function Zig64(x: I64): U64 {
    ZigZagValue(x, TWO64);
    ZigZag(x, TWO64)
  }

  function UnZig64(v: U64): I64 {
    UnZigZag(v, TWO64)
  }

  lemma NumbersReadBack(x: I64, y: I32)
    ensures ToI64(FromI64(x)) == x && UnZig64(Zig64(x)) == x
    ensures ToI32(FromI64(y)) == y && UnZig32(Zig32(y)) == y
    ensures (FromI64(x) == 0 <==> x == 0) && (Zig32(y) == 0 <==> y == 0)
  {
    ZigZagValue(x, TWO64);
    ZigZagValue(y, TWO32);
  }

  function Zigs(ds: seq<I64>): seq<U64> {
    if |ds| == 0 then [] else [Zig64(ds[0])] + Zigs(ds[1..])
  }

  function UnZigs(vs: seq<U64>): seq<I64> {
    if |vs| == 0 then [] else [UnZig64(vs[0])] + UnZigs(vs[1..])
  }

  lemma {:induction false} ZigsReadBack(ds: seq<I64>)
    ensures UnZigs(Zigs(ds)) == ds && |Zigs(ds)| == |ds|
    decreases |ds|
  {
    if |ds| > 0 {
      ZigsReadBack(ds[1..]);
      NumbersReadBack(ds[0], 0);
      assert Zigs(ds)[1..] == Zigs(ds[1..]);
    }
  }

  // ---------------------------------------------------------------- the fields of a message

  function OptVarint(num: nat, v: U64): seq<Field> {
    if v == 0 then [] else [VarintField(num, v)]
  }

  function OptFixed(num: nat, bits: U64): seq<Field> {
    if IsZero(bits) then [] else [FixedField(num, bits)]
  }

  function OptBytes(num: nat, b: Bytes): seq<Field> {
    if |b| == 0 then [] else [BytesField(num, b)]
  }

  function OptZigs(num: nat, ds: seq<I64>): seq<Field> {
    if |ds| == 0 then [] else [PackedVarints(num, Zigs(ds))]
  }

  function OptFixeds(num: nat, fs: seq<U64>): seq<Field> {
    if |fs| == 0 then [] else [PackedFixed(num, fs)]
  }

  function OptCount(intNum: nat, floatNum: nat, c: Count): seq<Field> {
    match c
    case NoCount => []
    case IntCount(n) => [VarintField(intNum, n)]
    case FloatCount(f) => [FixedField(floatNum, f)]
  }

  /** A repeated field: one length-delimited field for each element. */
  function Repeat<T>(num: nat, enc: T -> Bytes, xs: seq<T>): (r: seq<Field>)
    ensures |r| == |xs|
  {
    if |xs| == 0 then [] else [BytesField(num, enc(xs[0]))] + Repeat(num, enc, xs[1..])
  }

  function LabelFields(m: Label): seq<Field> {
    OptBytes(1, m.name) + OptBytes(2, m.value)
  }

  function EncLabel(m: Label): Bytes {
    EncFields(LabelFields(m)) + m.unknown
  }

  function SampleFields(m: Sample): seq<Field> {
    OptFixed(1, m.value) + OptVarint(2, FromI64(m.timestamp))
  }

  function EncSample(m: Sample): Bytes {
    EncFields(SampleFields(m)) + m.unknown
  }

  function ExemplarFields(m: Exemplar): seq<Field> {
    Repeat(1, EncLabel, m.labels) + (OptFixed(2, m.value) + OptVarint(3, FromI64(m.timestamp)))
  }

  function EncExemplar(m: Exemplar): Bytes {
    EncFields(ExemplarFields(m)) + m.unknown
  }

  function SpanFields(m: BucketSpan): seq<Field> {
    OptVarint(1, Zig32(m.offset)) + OptVarint(2, m.length)
  }

  function EncSpan(m: BucketSpan): Bytes {
    EncFields(SpanFields(m)) + m.unknown
  }

  function HistogramFields(m: Histogram): seq<Field> {
    OptCount(1, 2, m.count) + (OptFixed(3, m.sum) + (OptVarint(4, Zig32(m.schema)) + (OptFixed(5, m.zeroThreshold)
    + (OptCount(6, 7, m.zeroCount) + NegativeFields(m)))))
  }

  function NegativeFields(m: Histogram): seq<Field> {
    Repeat(8, EncSpan, m.negativeSpans) + (OptZigs(9, m.negativeDeltas) + (OptFixeds(10, m.negativeCounts) + PositiveFields(m)))
  }

  function PositiveFields(m: Histogram): seq<Field> {
    Repeat(11, EncSpan, m.positiveSpans) + (OptZigs(12, m.positiveDeltas) + (OptFixeds(13, m.positiveCounts) + LastFields(m)))
  }

  function LastFields(m: Histogram): seq<Field> {
    OptVarint(14, FromI64(m.resetHint)) + (OptVarint(15, FromI64(m.timestamp)) + OptFixeds(16, m.customValues))
  }

  function EncHistogram(m: Histogram): Bytes {
    EncFields(HistogramFields(m)) + m.unknown
  }

  function SeriesFields(m: TimeSeries): seq<Field> {
    Repeat(1, EncLabel, m.labels) + (Repeat(2, EncSample, m.samples) + (Repeat(3, EncExemplar, m.exemplars) + Repeat(4, EncHistogram, m.histograms)))
  }

  function EncSeries(m: TimeSeries): Bytes {
    EncFields(SeriesFields(m)) + m.unknown
  }

  function MetadataFields(m: MetricMetadata): seq<Field> {
    OptVarint(1, FromI64(m.kind)) + (OptBytes(2, m.name) + (OptBytes(4, m.help) + OptBytes(5, m.metricUnit)))
  }

  function EncMetadata(m: MetricMetadata): Bytes {
    EncFields(MetadataFields(m)) + m.unknown
  }

  function RequestFields(m: WriteRequest): seq<Field> {
    Repeat(1, EncSeries, m.timeseries) + Repeat(3, EncMetadata, m.metadata)
  }

  function EncRequest(m: WriteRequest): Bytes {
    EncFields(RequestFields(m)) + m.unknown
  }

  // ---------------------------------------------------------------- reading fields back

  /** Take in the known fields, in order. */
  function Fold<M>(put: (M, Field) -> Option<M>, m: M, fs: seq<Field>): Option<M>
    decreases |fs|
  {
    if |fs| == 0 then Some(m)
    else if fs[0].Raw? then Fold(put, m, fs[1..])
    else
      var r := put(m, fs[0]);
      if r.None? then None else Fold(put, r.value, fs[1..])
  }

  /** The known fields taken in, and the bytes of the unknown ones. */
  function Unmarshal<M>(k: Kind, put: (M, Field) -> Option<M>, empty: M, s: Bytes): Option<(M, Bytes)> {
    var fs := ParseFields(k, s);
    if fs.None? then None
    else
      var m := Fold(put, empty, fs.value);
      if m.None? then None else Some((m.value, RawBytes(fs.value)))
  }

  const EMPTY_LABEL := Label([], [], [])

  function PutLabel(m: Label, f: Field): Option<Label> {
    match f
    case BytesField(num, bytes) => Some(if num == 1 then m.(name := bytes) else m.(value := bytes))
    case _ => None
  }

  function DecLabel(s: Bytes): Option<Label> {
    var r := Unmarshal(LabelKind, PutLabel, EMPTY_LABEL, s);
    if r.None? then None else Some(r.value.0.(unknown := r.value.1))
  }

  const EMPTY_SAMPLE := Sample(0, 0, [])

  function PutSample(m: Sample, f: Field): Option<Sample> {
    match f
    case FixedField(_, bits) => Some(m.(value := bits))
    case VarintField(_, v) => Some(m.(timestamp := ToI64(v)))
    case _ => None
  }

  function DecSample(s: Bytes): Option<Sample> {
    var r := Unmarshal(SampleKind, PutSample, EMPTY_SAMPLE, s);
    if r.None? then None else Some(r.value.0.(unknown := r.value.1))
  }

  const EMPTY_EXEMPLAR := Exemplar([], 0, 0, [])

  function PutExemplar(m: Exemplar, f: Field): Option<Exemplar> {
    match f
    case BytesField(_, bytes) =>
      var x := DecLabel(bytes);
      if x.None? then None else Some(m.(labels := m.labels + [x.value]))
    case FixedField(_, bits) => Some(m.(value := bits))
    case VarintField(_, v) => Some(m.(timestamp := ToI64(v)))
    case _ => None
  }

  function DecExemplar(s: Bytes): Option<Exemplar> {
    var r := Unmarshal(ExemplarKind, PutExemplar, EMPTY_EXEMPLAR, s);
    if r.None? then None else Some(r.value.0.(unknown := r.value.1))
  }

  const EMPTY_SPAN := BucketSpan(0, 0, [])

  function PutSpan(m: BucketSpan, f: Field): Option<BucketSpan> {
    match f
    case VarintField(num, v) => Some(if num == 1 then m.(offset := UnZig32(v)) else m.(length := v % TWO32))
    case _ => None
  }

  function DecSpan(s: Bytes): Option<BucketSpan> {
    var r := Unmarshal(SpanKind, PutSpan, EMPTY_SPAN, s);
    if r.None? then None else Some(r.value.0.(unknown := r.value.1))
  }

  const EMPTY_HISTOGRAM := Histogram(NoCount, 0, 0, 0, NoCount, [], [], [], [], [], [], 0, 0, [], [])

  function PutHistogram(m: Histogram, f: Field): Option<Histogram> {
    match f
    case VarintField(num, v) => Some(PutHistogramVarint(m, num, v))
    case FixedField(num, bits) => Some(PutHistogramFixed(m, num, bits))
    case BytesField(num, bytes) =>
      var x := DecSpan(bytes);
      if x.None? then None
      else if num == 8 then Some(m.(negativeSpans := m.negativeSpans + [x.value]))
      else Some(m.(positiveSpans := m.positiveSpans + [x.value]))
    case PackedVarints(num, vs) =>
      Some(if num == 9 then m.(negativeDeltas := m.negativeDeltas + UnZigs(vs))
           else m.(positiveDeltas := m.positiveDeltas + UnZigs(vs)))
    case PackedFixed(num, fs) =>
      Some(if num == 10 then m.(negativeCounts := m.negativeCounts + fs)
           else if num == 13 then m.(positiveCounts := m.positiveCounts + fs)
           else m.(customValues := m.customValues + fs))
    case Raw(_) => None
  }

  /** Repeated numbers may also come one by one. */
  function PutHistogramVarint(m: Histogram, num: nat, v: U64): Histogram {
    if num == 1 then m.(count := IntCount(v))
    else if num == 4 then m.(schema := UnZig32(v))
    else if num == 6 then m.(zeroCount := IntCount(v))
    else if num == 9 then m.(negativeDeltas := m.negativeDeltas + [UnZig64(v)])
    else if num == 12 then m.(positiveDeltas := m.positiveDeltas + [UnZig64(v)])
    else if num == 14 then m.(resetHint := ToI32(v))
    else m.(timestamp := ToI64(v))
  }

  function PutHistogramFixed(m: Histogram, num: nat, bits: U64): Histogram {
    if num == 2 then m.(count := FloatCount(bits))
    else if num == 3 then m.(sum := bits)
    else if num == 5 then m.(zeroThreshold := bits)
    else if num == 7 then m.(zeroCount := FloatCount(bits))
    else if num == 10 then m.(negativeCounts := m.negativeCounts + [bits])
    else if num == 13 then m.(positiveCounts := m.positiveCounts + [bits])
    else m.(customValues := m.customValues + [bits])
  }

  function DecHistogram(s: Bytes): Option<Histogram> {
    var r := Unmarshal(HistogramKind, PutHistogram, EMPTY_HISTOGRAM, s);
    if r.None? then None else Some(r.value.0.(unknown := r.value.1))
  }

  const EMPTY_SERIES := TimeSeries([], [], [], [], [])

  function PutSeries(m: TimeSeries, f: Field): Option<TimeSeries> {
    match f
    case BytesField(num, bytes) =>
      if num == 1 then
        var x := DecLabel(bytes);
        if x.None? then None else Some(m.(labels := m.labels + [x.value]))
      else if num == 2 then
        var x := DecSample(bytes);
        if x.None? then None else Some(m.(samples := m.samples + [x.value]))
      else if num == 3 then
        var x := DecExemplar(bytes);
        if x.None? then None else Some(m.(exemplars := m.exemplars + [x.value]))
      else
        var x := DecHistogram(bytes);
        if x.None? then None else Some(m.(histograms := m.histograms + [x.value]))
    case _ => None
  }

  function DecSeries(s: Bytes): Option<TimeSeries> {
    var r := Unmarshal(SeriesKind, PutSeries, EMPTY_SERIES, s);
    if r.None? then None else Some(r.value.0.(unknown := r.value.1))
  }

  const EMPTY_METADATA := MetricMetadata(0, [], [], [], [])

  function PutMetadata(m: MetricMetadata, f: Field): Option<MetricMetadata> {
    match f
    case VarintField(_, v) => Some(m.(kind := ToI32(v)))
    case BytesField(num, bytes) =>
      Some(if num == 2 then m.(name := bytes) else if num == 4 then m.(help := bytes) else m.(metricUnit := bytes))
    case _ => None
  }

  function DecMetadata(s: Bytes): Option<MetricMetadata> {
    var r := Unmarshal(MetadataKind, PutMetadata, EMPTY_METADATA, s);
    if r.None? then None else Some(r.value.0.(unknown := r.value.1))
  }

  const EMPTY_REQUEST := WriteRequest([], [], [])

  function PutRequest(m: WriteRequest, f: Field): Option<WriteRequest> {
    match f
    case BytesField(num, bytes) =>
      if num == 1 then
        var x := DecSeries(bytes);
        if x.None? then None else Some(m.(timeseries := m.timeseries + [x.value]))
      else
        var x := DecMetadata(bytes);
        if x.None? then None else Some(m.(metadata := m.metadata + [x.value]))
    case _ => None
  }

  function DecRequest(s: Bytes): Option<WriteRequest> {
    var r := Unmarshal(RequestKind, PutRequest, EMPTY_REQUEST, s);
    if r.None? then None else Some(r.value.0.(unknown := r.value.1))
  }

  // ---------------------------------------------------------------- what is preserved

  function Each<T>(f: T -> T, xs: seq<T>): seq<T> {
    if |xs| == 0 then [] else [f(xs[0])] + Each(f, xs[1..])
  }

  /** Float fields that are left out when zero lose the sign of zero; nothing else changes. */
  function SameSample(m: Sample): Sample { m.(value := Zeroed(m.value)) }

  function SameExemplar(m: Exemplar): Exemplar { m.(value := Zeroed(m.value)) }

  function SameHistogram(m: Histogram): Histogram {
    m.(sum := Zeroed(m.sum), zeroThreshold := Zeroed(m.zeroThreshold))
  }

  function SameSeries(m: TimeSeries): TimeSeries {
    m.(samples := Each(SameSample, m.samples), exemplars := Each(SameExemplar, m.exemplars), histograms := Each(SameHistogram, m.histograms))
  }

  function SameRequest(m: WriteRequest): WriteRequest {
    m.(timeseries := Each(SameSeries, m.timeseries))
  }

  // ---------------------------------------------------------------- folding

  lemma {:induction false} FoldThen<M>(put: (M, Field) -> Option<M>, m: M, a: seq<Field>, mid: M, b: seq<Field>)
    requires Fold(put, m, a) == Some(mid)
    ensures Fold(put, m, a + b) == Fold(put, mid, b)
    decreases |a|
  {
    if |a| == 0 {
      assert a + b == b;
    } else {
      assert (a + b)[1..] == a[1..] + b;
      FoldThen(put, if a[0].Raw? then m else put(m, a[0]).value, a[1..], mid, b);
    }
  }

  lemma FoldOne<M>(put: (M, Field) -> Option<M>, m: M, f: Field, r: M)
    requires !f.Raw? && put(m, f) == Some(r)
    ensures Fold(put, m, [f]) == Some(r)
  {
    assert Fold(put, r, [f][1..]) == Some(r);
  }

  lemma {:induction false} FoldRaw<M>(put: (M, Field) -> Option<M>, m: M, fs: seq<Field>)
    requires AllRaw(fs)
    ensures Fold(put, m, fs) == Some(m)
    decreases |fs|
  {
    if |fs| > 0 {
      FoldRaw(put, m, fs[1..]);
    }
  }

  /** Fields that messages of kind k expect, and that turn m into r. */
  ghost predicate Loads<M>(k: Kind, put: (M, Field) -> Option<M>, m: M, fs: seq<Field>, r: M) {
    AllShaped(k, fs) && Fold(put, m, fs) == Some(r)
  }

  lemma LoadsThen<M>(k: Kind, put: (M, Field) -> Option<M>, m: M, a: seq<Field>, mid: M, b: seq<Field>, r: M)
    requires Loads(k, put, m, a, mid) && Loads(k, put, mid, b, r)
    ensures Loads(k, put, m, a + b, r)
  {
    AllShapedJoin(k, a, b);
    FoldThen(put, m, a, mid, b);
  }

  lemma LoadOne<M>(k: Kind, put: (M, Field) -> Option<M>, m: M, f: Field, r: M)
    requires Shaped(k, f) && put(m, f) == Some(r)
    ensures Loads(k, put, m, [f], r)
  {
    FoldOne(put, m, f, r);
  }

  lemma LoadOptBytes<M>(k: Kind, put: (M, Field) -> Option<M>, m: M, num: nat, b: Bytes, r: M)
    requires ShapeOf(k, num).BytesShape?
    requires if |b| == 0 then r == m else put(m, BytesField(num, b)) == Some(r)
    ensures Loads(k, put, m, OptBytes(num, b), r)
  {
    if |b| > 0 {
      LoadOne(k, put, m, BytesField(num, b), r);
    }
  }

  lemma LoadOptVarint<M>(k: Kind, put: (M, Field) -> Option<M>, m: M, num: nat, v: U64, r: M)
    requires ShapeOf(k, num).VarintShape?
    requires if v == 0 then r == m else put(m, VarintField(num, v)) == Some(r)
    ensures Loads(k, put, m, OptVarint(num, v), r)
  {
    if v != 0 {
      LoadOne(k, put, m, VarintField(num, v), r);
    }
  }

  lemma LoadOptFixed<M>(k: Kind, put: (M, Field) -> Option<M>, m: M, num: nat, bits: U64, r: M)
    requires ShapeOf(k, num).FixedShape?
    requires if IsZero(bits) then r == m else put(m, FixedField(num, bits)) == Some(r)
    ensures Loads(k, put, m, OptFixed(num, bits), r)
  {
    if !IsZero(bits) {
      LoadOne(k, put, m, FixedField(num, bits), r);
    }
  }

  /** A repeated field adds its elements one by one. */
  lemma LoadCons<M>(k: Kind, put: (M, Field) -> Option<M>, m: M, f: Field, mid: M, fs: seq<Field>, r: M)
    requires Shaped(k, f) && put(m, f) == Some(mid) && Loads(k, put, mid, fs, r)
    ensures Loads(k, put, m, [f] + fs, r)
  {
    LoadOne(k, put, m, f, mid);
    LoadsThen(k, put, m, [f], mid, fs, r);
  }

  /** Reading back known fields followed by unknown ones. */
  lemma UnmarshalEncoded<M>(k: Kind, put: (M, Field) -> Option<M>, empty: M, fs: seq<Field>, unknown: Bytes, m: M)
    requires Loads(k, put, empty, fs, m) && |EncFields(fs)| < TWO63 && UnknownOk(k, unknown)
    ensures Unmarshal(k, put, empty, EncFields(fs) + unknown) == Some((m, unknown))
  {
    var more := ParseFields(k, unknown).value;
    FieldsFit(k, fs);
    ParseEncoded(k, fs, unknown);
    FoldThen(put, empty, fs, m, more);
    FoldRaw(put, m, more);
    KnownHaveNoRaw(k, fs, more);
    UnknownBytes(k, unknown);
  }

  /** Fields that are not unknown take bytes of their own. */
  lemma {:induction false} RawBytesShort(k: Kind, s: Bytes)
    requires ParseFields(k, s).Some?
    ensures
      var fs := ParseFields(k, s).value;
      |RawBytes(fs)| <= |s| && (|RawBytes(fs)| == |s| ==> AllRaw(fs))
    decreases |s|
  {
    if |s| > 0 {
      var g := ReadField(k, s).value;
      ParseCons(k, s, g.v, g.n);
      RawIsPrefix(k, s);
      RawBytesShort(k, s[g.n..]);
      RawBytesCons(g.v, ParseFields(k, s[g.n..]).value);
    }
  }

  lemma RawBytesCons(f: Field, more: seq<Field>)
    ensures RawBytes([f] + more) == (if f.Raw? then f.raw else []) + RawBytes(more)
    ensures f.Raw? && AllRaw(more) ==> AllRaw([f] + more)
  {
    assert ([f] + more)[1..] == more;
  }

  /** Unknown bytes come back if and only if the message takes them as unknown fields. */
  lemma UnknownComesBackIff<M>(k: Kind, put: (M, Field) -> Option<M>, empty: M, fs: seq<Field>, unknown: Bytes, m: M)
    requires Loads(k, put, empty, fs, m) && |EncFields(fs)| < TWO63
    ensures Unmarshal(k, put, empty, EncFields(fs) + unknown) == Some((m, unknown)) <==> UnknownOk(k, unknown)
  {
    if UnknownOk(k, unknown) {
      UnmarshalEncoded(k, put, empty, fs, unknown, m);
    }
    if Unmarshal(k, put, empty, EncFields(fs) + unknown) == Some((m, unknown)) {
      FieldsFit(k, fs);
      ParseEncoded(k, fs, unknown);
      KnownHaveNoRaw(k, fs, ParseFields(k, unknown).value);
      RawBytesShort(k, unknown);
    }
  }

  lemma Shift<T>(a: seq<T>, xs: seq<T>)
    requires |xs| > 0
    ensures (a + [xs[0]]) + xs[1..] == a + xs
  {
  }

  // ---------------------------------------------------------------- flat messages

  ghost predicate LabelOk(m: Label) {
    UnknownOk(LabelKind, m.unknown) && |EncLabel(m)| < TWO63
  }

  lemma LabelLoads(m: Label)
    ensures Loads(LabelKind, PutLabel, EMPTY_LABEL, LabelFields(m), m.(unknown := []))
  {
    var a := EMPTY_LABEL.(name := m.name);
    var b := a.(value := m.value);
    LoadOptBytes(LabelKind, PutLabel, EMPTY_LABEL, 1, m.name, a);
    LoadOptBytes(LabelKind, PutLabel, a, 2, m.value, b);
    LoadsThen(LabelKind, PutLabel, EMPTY_LABEL, OptBytes(1, m.name), a, OptBytes(2, m.value), b);
  }

  lemma LabelRoundTrip(m: Label)
    requires LabelOk(m)
    ensures DecLabel(EncLabel(m)) == Some(m)
  {
    LabelLoads(m);
    UnmarshalEncoded(LabelKind, PutLabel, EMPTY_LABEL, LabelFields(m), m.unknown, m.(unknown := []));
  }

  lemma NameBytes(c: Byte)
    ensures EncFields([BytesField(1, [c])]) == [10, 1, c]
  {
    var name := BytesField(1, [c]);
    var tag, length := 10, 1;
    assert EncVarint(tag) == [tag] && EncVarint(length) == [length];
    assert EncField(name) == [10, 1, c];
    assert [name][1..] == [];
  }

  lemma NameIsKnown(c: Byte, u: Bytes)
    requires u == EncFields([BytesField(1, [c])])
    ensures !UnknownOk(LabelKind, u)
  {
    var name := BytesField(1, [c]);
    var rest: Bytes := [];
    ParseEncoded(LabelKind, [name], rest);
    assert u + rest == u && ParseFields(LabelKind, rest) == Some([]);
    var fs := ParseFields(LabelKind, u).value;
    assert fs == [name] + [];
    RawCons(name, []);
  }

  /** Unknown bytes that spell a field the message knows: a label with nothing but the field of a
      one-byte name among its unknown bytes is marshalled like the label with that name, and reads
      back as that one. */
  lemma KnownBytesDoNotComeBack(c: Byte)
    ensures EncLabel(Label([], [], [10, 1, c])) == [10, 1, c] == EncLabel(Label([c], [], []))
    ensures !UnknownOk(LabelKind, [10, 1, c])
    ensures DecLabel(EncLabel(Label([], [], [10, 1, c]))) == Some(Label([c], [], []))
  {
    var u := EncFields([BytesField(1, [c])]);
    NameBytes(c);
    NameIsKnown(c, u);
    var m := Label([c], [], []);
    assert LabelFields(m) == [BytesField(1, [c])];
    assert EncLabel(m) == u;
    LabelRoundTrip(m);
  }

  ghost predicate SampleOk(m: Sample) {
    UnknownOk(SampleKind, m.unknown) && |EncSample(m)| < TWO63
  }

  lemma SampleRoundTrip(m: Sample)
    requires SampleOk(m)
    ensures DecSample(EncSample(m)) == Some(SameSample(m))
  {
    var a := EMPTY_SAMPLE.(value := Zeroed(m.value));
    var b := a.(timestamp := m.timestamp);
    var ts := FromI64(m.timestamp);
    NumbersReadBack(m.timestamp, 0);
    LoadOptFixed(SampleKind, PutSample, EMPTY_SAMPLE, 1, m.value, a);
    LoadOptVarint(SampleKind, PutSample, a, 2, ts, b);
    LoadsThen(SampleKind, PutSample, EMPTY_SAMPLE, OptFixed(1, m.value), a, OptVarint(2, ts), b);
    UnmarshalEncoded(SampleKind, PutSample, EMPTY_SAMPLE, SampleFields(m), m.unknown, b);
  }

  ghost predicate SpanOk(m: BucketSpan) {
    UnknownOk(SpanKind, m.unknown) && |EncSpan(m)| < TWO63
  }

  lemma OffsetReadsBack(x: I32, zig: U64)
    requires zig == Zig32(x)
    ensures UnZig32(zig) == x && (zig == 0 <==> x == 0)
  {
    NumbersReadBack(0, x);
  }

  lemma OffsetLoads(x: I32)
    ensures Loads(SpanKind, PutSpan, EMPTY_SPAN, OptVarint(1, Zig32(x)), EMPTY_SPAN.(offset := x))
  {
    var zig := Zig32(x);
    OffsetReadsBack(x, zig);
    LoadOptVarint(SpanKind, PutSpan, EMPTY_SPAN, 1, zig, EMPTY_SPAN.(offset := x));
  }

  lemma SpanLoads(m: BucketSpan)
    ensures Loads(SpanKind, PutSpan, EMPTY_SPAN, SpanFields(m), m.(unknown := []))
  {
    var a := EMPTY_SPAN.(offset := m.offset);
    var b := a.(length := m.length);
    OffsetLoads(m.offset);
    LoadOptVarint(SpanKind, PutSpan, a, 2, m.length, b);
    LoadsThen(SpanKind, PutSpan, EMPTY_SPAN, OptVarint(1, Zig32(m.offset)), a, OptVarint(2, m.length), b);
  }

  lemma SpanRoundTrip(m: BucketSpan)
    requires SpanOk(m)
    ensures DecSpan(EncSpan(m)) == Some(m)
  {
    SpanLoads(m);
    UnmarshalEncoded(SpanKind, PutSpan, EMPTY_SPAN, SpanFields(m), m.unknown, m.(unknown := []));
  }

  ghost predicate MetadataOk(m: MetricMetadata) {
    UnknownOk(MetadataKind, m.unknown) && |EncMetadata(m)| < TWO63
  }

  lemma MetadataTextLoads(h: MetricMetadata, m: MetricMetadata)
    requires h.name == [] && h.help == [] && h.metricUnit == []
    ensures Loads(MetadataKind, PutMetadata, h, OptBytes(2, m.name) + (OptBytes(4, m.help) + OptBytes(5, m.metricUnit)),
                  h.(name := m.name, help := m.help, metricUnit := m.metricUnit))
  {
    var a := h.(name := m.name);
    var b := a.(help := m.help);
    var c := b.(metricUnit := m.metricUnit);
    LoadOptBytes(MetadataKind, PutMetadata, h, 2, m.name, a);
    LoadOptBytes(MetadataKind, PutMetadata, a, 4, m.help, b);
    LoadOptBytes(MetadataKind, PutMetadata, b, 5, m.metricUnit, c);
    LoadsThen(MetadataKind, PutMetadata, a, OptBytes(4, m.help), b, OptBytes(5, m.metricUnit), c);
    LoadsThen(MetadataKind, PutMetadata, h, OptBytes(2, m.name), a, OptBytes(4, m.help) + OptBytes(5, m.metricUnit), c);
  }

  lemma MetadataRoundTrip(m: MetricMetadata)
    requires MetadataOk(m)
    ensures DecMetadata(EncMetadata(m)) == Some(m)
  {
    var a := EMPTY_METADATA.(kind := m.kind);
    var kind := FromI64(m.kind);
    NumbersReadBack(m.kind, m.kind);
    LoadOptVarint(MetadataKind, PutMetadata, EMPTY_METADATA, 1, kind, a);
    MetadataTextLoads(a, m);
    var text := OptBytes(2, m.name) + (OptBytes(4, m.help) + OptBytes(5, m.metricUnit));
    var r := m.(unknown := []);
    LoadsThen(MetadataKind, PutMetadata, EMPTY_METADATA, OptVarint(1, kind), a, text, r);
    UnmarshalEncoded(MetadataKind, PutMetadata, EMPTY_METADATA, MetadataFields(m), m.unknown, r);
  }

  // ---------------------------------------------------------------- exemplars

  lemma ExemplarLabelLoads(m: Exemplar, b: Bytes, y: Label, fs: seq<Field>, r: Exemplar)
    requires DecLabel(b) == Some(y) && Loads(ExemplarKind, PutExemplar, m.(labels := m.labels + [y]), fs, r)
    ensures Loads(ExemplarKind, PutExemplar, m, [BytesField(1, b)] + fs, r)
  {
    LoadCons(ExemplarKind, PutExemplar, m, BytesField(1, b), m.(labels := m.labels + [y]), fs, r);
  }

  lemma {:induction false} ExemplarLabelsLoad(m: Exemplar, xs: seq<Label>, r: Exemplar)
    requires (forall i :: 0 <= i < |xs| ==> LabelOk(xs[i])) && r == m.(labels := m.labels + xs)
    ensures Loads(ExemplarKind, PutExemplar, m, Repeat(1, EncLabel, xs), r)
    decreases |xs|
  {
    if |xs| == 0 {
      assert r == m;
    } else {
      var mid := m.(labels := m.labels + [xs[0]]);
      Shift(m.labels, xs);
      ExemplarLabelsLoad(mid, xs[1..], r);
      LabelRoundTrip(xs[0]);
      ExemplarLabelLoads(m, EncLabel(xs[0]), xs[0], Repeat(1, EncLabel, xs[1..]), r);
    }
  }

  ghost predicate ExemplarOk(m: Exemplar) {
    && (forall i :: 0 <= i < |m.labels| ==> LabelOk(m.labels[i]))
    && UnknownOk(ExemplarKind, m.unknown) && |EncExemplar(m)| < TWO63
  }

  lemma ExemplarRoundTrip(m: Exemplar)
    requires ExemplarOk(m)
    ensures DecExemplar(EncExemplar(m)) == Some(SameExemplar(m))
  {
    var a := EMPTY_EXEMPLAR.(labels := m.labels);
    var b := a.(value := Zeroed(m.value));
    var c := b.(timestamp := m.timestamp);
    var ts := FromI64(m.timestamp);
    NumbersReadBack(m.timestamp, 0);
    assert EMPTY_EXEMPLAR.labels + m.labels == m.labels;
    ExemplarLabelsLoad(EMPTY_EXEMPLAR, m.labels, a);
    LoadOptFixed(ExemplarKind, PutExemplar, a, 2, m.value, b);
    LoadOptVarint(ExemplarKind, PutExemplar, b, 3, ts, c);
    LoadsThen(ExemplarKind, PutExemplar, a, OptFixed(2, m.value), b, OptVarint(3, ts), c);
    LoadsThen(ExemplarKind, PutExemplar, EMPTY_EXEMPLAR, Repeat(1, EncLabel, m.labels), a, OptFixed(2, m.value) + OptVarint(3, ts), c);
    UnmarshalEncoded(ExemplarKind, PutExemplar, EMPTY_EXEMPLAR, ExemplarFields(m), m.unknown, c);
  }

  // ---------------------------------------------------------------- histograms

  ghost predicate HistogramLoads(h: Histogram, fs: seq<Field>, r: Histogram) {
    Loads(HistogramKind, PutHistogram, h, fs, r)
  }

  lemma HistogramThen(h: Histogram, a: seq<Field>, mid: Histogram, b: seq<Field>, r: Histogram)
    requires HistogramLoads(h, a, mid) && HistogramLoads(mid, b, r)
    ensures HistogramLoads(h, a + b, r)
  {
    LoadsThen(HistogramKind, PutHistogram, h, a, mid, b, r);
  }

  lemma NegativeSpanLoads(m: Histogram, b: Bytes, y: BucketSpan, fs: seq<Field>, r: Histogram)
    requires DecSpan(b) == Some(y) && HistogramLoads(m.(negativeSpans := m.negativeSpans + [y]), fs, r)
    ensures HistogramLoads(m, [BytesField(8, b)] + fs, r)
  {
    LoadCons(HistogramKind, PutHistogram, m, BytesField(8, b), m.(negativeSpans := m.negativeSpans + [y]), fs, r);
  }

  lemma {:induction false} NegativeSpansLoad(m: Histogram, xs: seq<BucketSpan>, r: Histogram)
    requires (forall i :: 0 <= i < |xs| ==> SpanOk(xs[i])) && r == m.(negativeSpans := m.negativeSpans + xs)
    ensures HistogramLoads(m, Repeat(8, EncSpan, xs), r)
    decreases |xs|
  {
    if |xs| == 0 {
      assert r == m;
    } else {
      var mid := m.(negativeSpans := m.negativeSpans + [xs[0]]);
      Shift(m.negativeSpans, xs);
      NegativeSpansLoad(mid, xs[1..], r);
      SpanRoundTrip(xs[0]);
      NegativeSpanLoads(m, EncSpan(xs[0]), xs[0], Repeat(8, EncSpan, xs[1..]), r);
    }
  }

  lemma PositiveSpanLoads(m: Histogram, b: Bytes, y: BucketSpan, fs: seq<Field>, r: Histogram)
    requires DecSpan(b) == Some(y) && HistogramLoads(m.(positiveSpans := m.positiveSpans + [y]), fs, r)
    ensures HistogramLoads(m, [BytesField(11, b)] + fs, r)
  {
    LoadCons(HistogramKind, PutHistogram, m, BytesField(11, b), m.(positiveSpans := m.positiveSpans + [y]), fs, r);
  }

  lemma {:induction false} PositiveSpansLoad(m: Histogram, xs: seq<BucketSpan>, r: Histogram)
    requires (forall i :: 0 <= i < |xs| ==> SpanOk(xs[i])) && r == m.(positiveSpans := m.positiveSpans + xs)
    ensures HistogramLoads(m, Repeat(11, EncSpan, xs), r)
    decreases |xs|
  {
    if |xs| == 0 {
      assert r == m;
    } else {
      var mid := m.(positiveSpans := m.positiveSpans + [xs[0]]);
      Shift(m.positiveSpans, xs);
      PositiveSpansLoad(mid, xs[1..], r);
      SpanRoundTrip(xs[0]);
      PositiveSpanLoads(m, EncSpan(xs[0]), xs[0], Repeat(11, EncSpan, xs[1..]), r);
    }
  }

  lemma DeltasLoad(h: Histogram, num: nat, ds: seq<I64>)
    requires (num == 9 && h.negativeDeltas == []) || (num == 12 && h.positiveDeltas == [])
    ensures HistogramLoads(h, OptZigs(num, ds), if num == 9 then h.(negativeDeltas := ds) else h.(positiveDeltas := ds))
  {
    var r := if num == 9 then h.(negativeDeltas := ds) else h.(positiveDeltas := ds);
    ZigsReadBack(ds);
    if |ds| > 0 {
      assert [] + ds == ds;
      LoadOne(HistogramKind, PutHistogram, h, PackedVarints(num, Zigs(ds)), r);
    }
  }

  lemma CountsLoad(h: Histogram, num: nat, fs: seq<U64>)
    requires (num == 10 && h.negativeCounts == []) || (num == 13 && h.positiveCounts == []) || (num == 16 && h.customValues == [])
    ensures HistogramLoads(h, OptFixeds(num, fs),
      if num == 10 then h.(negativeCounts := fs) else if num == 13 then h.(positiveCounts := fs) else h.(customValues := fs))
  {
    var r := if num == 10 then h.(negativeCounts := fs) else if num == 13 then h.(positiveCounts := fs) else h.(customValues := fs);
    if |fs| > 0 {
      assert [] + fs == fs;
      LoadOne(HistogramKind, PutHistogram, h, PackedFixed(num, fs), r);
    }
  }

  lemma CountLoads(h: Histogram, c: Count)
    requires h.count == NoCount
    ensures HistogramLoads(h, OptCount(1, 2, c), h.(count := c))
  {
    if !c.NoCount? {
      LoadOne(HistogramKind, PutHistogram, h, OptCount(1, 2, c)[0], h.(count := c));
    }
  }

  lemma ZeroCountLoads(h: Histogram, c: Count)
    requires h.zeroCount == NoCount
    ensures HistogramLoads(h, OptCount(6, 7, c), h.(zeroCount := c))
  {
    if !c.NoCount? {
      LoadOne(HistogramKind, PutHistogram, h, OptCount(6, 7, c)[0], h.(zeroCount := c));
    }
  }

  lemma LastLoads(h: Histogram, m: Histogram)
    requires h.resetHint == 0 && h.timestamp == 0 && h.customValues == []
    ensures HistogramLoads(h, LastFields(m), h.(resetHint := m.resetHint, timestamp := m.timestamp, customValues := m.customValues))
  {
    var a := h.(resetHint := m.resetHint);
    var b := a.(timestamp := m.timestamp);
    var c := b.(customValues := m.customValues);
    var hint, ts, values := FromI64(m.resetHint), FromI64(m.timestamp), OptFixeds(16, m.customValues);
    NumbersReadBack(m.resetHint, m.resetHint);
    NumbersReadBack(m.timestamp, 0);
    LoadOptVarint(HistogramKind, PutHistogram, h, 14, hint, a);
    LoadOptVarint(HistogramKind, PutHistogram, a, 15, ts, b);
    CountsLoad(b, 16, m.customValues);
    HistogramThen(a, OptVarint(15, ts), b, values, c);
    HistogramThen(h, OptVarint(14, hint), a, OptVarint(15, ts) + values, c);
  }

  ghost predicate TailEmpty(h: Histogram) {
    h.resetHint == 0 && h.timestamp == 0 && h.customValues == []
  }

  ghost function WithTail(h: Histogram, m: Histogram): Histogram {
    h.(resetHint := m.resetHint, timestamp := m.timestamp, customValues := m.customValues)
  }

  lemma PositiveLoads(h: Histogram, m: Histogram)
    requires TailEmpty(h) && h.positiveSpans == [] && h.positiveDeltas == [] && h.positiveCounts == []
    requires forall i :: 0 <= i < |m.positiveSpans| ==> SpanOk(m.positiveSpans[i])
    ensures HistogramLoads(h, PositiveFields(m),
      WithTail(h.(positiveSpans := m.positiveSpans, positiveDeltas := m.positiveDeltas, positiveCounts := m.positiveCounts), m))
  {
    var a := h.(positiveSpans := m.positiveSpans);
    var b := a.(positiveDeltas := m.positiveDeltas);
    var c := b.(positiveCounts := m.positiveCounts);
    var deltas, counts, last := OptZigs(12, m.positiveDeltas), OptFixeds(13, m.positiveCounts), LastFields(m);
    assert h.positiveSpans + m.positiveSpans == m.positiveSpans;
    PositiveSpansLoad(h, m.positiveSpans, a);
    DeltasLoad(a, 12, m.positiveDeltas);
    CountsLoad(b, 13, m.positiveCounts);
    LastLoads(c, m);
    HistogramThen(b, counts, c, last, WithTail(c, m));
    HistogramThen(a, deltas, b, counts + last, WithTail(c, m));
    HistogramThen(h, Repeat(11, EncSpan, m.positiveSpans), a, deltas + (counts + last), WithTail(c, m));
  }

  ghost function WithPositive(h: Histogram, m: Histogram): Histogram {
    WithTail(h.(positiveSpans := m.positiveSpans, positiveDeltas := m.positiveDeltas, positiveCounts := m.positiveCounts), m)
  }

  ghost predicate PositiveEmpty(h: Histogram) {
    TailEmpty(h) && h.positiveSpans == [] && h.positiveDeltas == [] && h.positiveCounts == []
  }

  ghost predicate SpansOk(m: Histogram) {
    && (forall i :: 0 <= i < |m.positiveSpans| ==> SpanOk(m.positiveSpans[i]))
    && (forall i :: 0 <= i < |m.negativeSpans| ==> SpanOk(m.negativeSpans[i]))
  }

  lemma NegativeLoads(h: Histogram, m: Histogram)
    requires PositiveEmpty(h) && h.negativeSpans == [] && h.negativeDeltas == [] && h.negativeCounts == [] && SpansOk(m)
    ensures HistogramLoads(h, NegativeFields(m),
      WithPositive(h.(negativeSpans := m.negativeSpans, negativeDeltas := m.negativeDeltas, negativeCounts := m.negativeCounts), m))
  {
    var a := h.(negativeSpans := m.negativeSpans);
    var b := a.(negativeDeltas := m.negativeDeltas);
    var c := b.(negativeCounts := m.negativeCounts);
    var deltas, counts, rest := OptZigs(9, m.negativeDeltas), OptFixeds(10, m.negativeCounts), PositiveFields(m);
    assert h.negativeSpans + m.negativeSpans == m.negativeSpans;
    NegativeSpansLoad(h, m.negativeSpans, a);
    DeltasLoad(a, 9, m.negativeDeltas);
    CountsLoad(b, 10, m.negativeCounts);
    PositiveLoads(c, m);
    HistogramThen(b, counts, c, rest, WithPositive(c, m));
    HistogramThen(a, deltas, b, counts + rest, WithPositive(c, m));
    HistogramThen(h, Repeat(8, EncSpan, m.negativeSpans), a, deltas + (counts + rest), WithPositive(c, m));
  }

  lemma HeadLoads(m: Histogram)
    requires SpansOk(m)
    ensures HistogramLoads(EMPTY_HISTOGRAM, HistogramFields(m), SameHistogram(m).(unknown := []))
  {
    var r := SameHistogram(m).(unknown := []);
    var a := EMPTY_HISTOGRAM.(count := m.count);
    var b := a.(sum := Zeroed(m.sum));
    var c := b.(schema := m.schema);
    var d := c.(zeroThreshold := Zeroed(m.zeroThreshold));
    var e := d.(zeroCount := m.zeroCount);
    NumbersReadBack(0, m.schema);
    CountLoads(EMPTY_HISTOGRAM, m.count);
    LoadOptFixed(HistogramKind, PutHistogram, a, 3, m.sum, b);
    LoadOptVarint(HistogramKind, PutHistogram, b, 4, Zig32(m.schema), c);
    LoadOptFixed(HistogramKind, PutHistogram, c, 5, m.zeroThreshold, d);
    ZeroCountLoads(d, m.zeroCount);
    NegativeLoads(e, m);
    HeadJoin(m, a, b, c, d, e, r);
  }

  lemma HeadJoin(m: Histogram, a: Histogram, b: Histogram, c: Histogram, d: Histogram, e: Histogram, r: Histogram)
    requires HistogramLoads(EMPTY_HISTOGRAM, OptCount(1, 2, m.count), a) && HistogramLoads(a, OptFixed(3, m.sum), b)
    requires HistogramLoads(b, OptVarint(4, Zig32(m.schema)), c) && HistogramLoads(c, OptFixed(5, m.zeroThreshold), d)
    requires HistogramLoads(d, OptCount(6, 7, m.zeroCount), e) && HistogramLoads(e, NegativeFields(m), r)
    ensures HistogramLoads(EMPTY_HISTOGRAM, HistogramFields(m), r)
  {
    var f6 := OptCount(6, 7, m.zeroCount) + NegativeFields(m);
    var f5 := OptFixed(5, m.zeroThreshold) + f6;
    var f4 := OptVarint(4, Zig32(m.schema)) + f5;
    HistogramThen(d, OptCount(6, 7, m.zeroCount), e, NegativeFields(m), r);
    HistogramThen(c, OptFixed(5, m.zeroThreshold), d, f6, r);
    HistogramThen(b, OptVarint(4, Zig32(m.schema)), c, f5, r);
    HistogramThen(a, OptFixed(3, m.sum), b, f4, r);
    HistogramThen(EMPTY_HISTOGRAM, OptCount(1, 2, m.count), a, OptFixed(3, m.sum) + f4, r);
  }

  ghost predicate HistogramOk(m: Histogram) {
    SpansOk(m) && UnknownOk(HistogramKind, m.unknown) && |EncHistogram(m)| < TWO63
  }

  lemma HistogramRoundTrip(m: Histogram)
    requires HistogramOk(m)
    ensures DecHistogram(EncHistogram(m)) == Some(SameHistogram(m))
  {
    HeadLoads(m);
    UnmarshalEncoded(HistogramKind, PutHistogram, EMPTY_HISTOGRAM, HistogramFields(m), m.unknown, SameHistogram(m).(unknown := []));
  }

  // ---------------------------------------------------------------- time series

  lemma SeriesLabelLoads(m: TimeSeries, b: Bytes, y: Label, fs: seq<Field>, r: TimeSeries)
    requires DecLabel(b) == Some(y) && Loads(SeriesKind, PutSeries, m.(labels := m.labels + [y]), fs, r)
    ensures Loads(SeriesKind, PutSeries, m, [BytesField(1, b)] + fs, r)
  {
    LoadCons(SeriesKind, PutSeries, m, BytesField(1, b), m.(labels := m.labels + [y]), fs, r);
  }

  lemma {:induction false} SeriesLabelsLoad(m: TimeSeries, xs: seq<Label>, r: TimeSeries)
    requires (forall i :: 0 <= i < |xs| ==> LabelOk(xs[i])) && r == m.(labels := m.labels + xs)
    ensures Loads(SeriesKind, PutSeries, m, Repeat(1, EncLabel, xs), r)
    decreases |xs|
  {
    if |xs| == 0 {
      assert r == m;
    } else {
      Shift(m.labels, xs);
      SeriesLabelsLoad(m.(labels := m.labels + [xs[0]]), xs[1..], r);
      LabelRoundTrip(xs[0]);
      SeriesLabelLoads(m, EncLabel(xs[0]), xs[0], Repeat(1, EncLabel, xs[1..]), r);
    }
  }

  lemma SeriesSampleLoads(m: TimeSeries, b: Bytes, y: Sample, fs: seq<Field>, r: TimeSeries)
    requires DecSample(b) == Some(y) && Loads(SeriesKind, PutSeries, m.(samples := m.samples + [y]), fs, r)
    ensures Loads(SeriesKind, PutSeries, m, [BytesField(2, b)] + fs, r)
  {
    LoadCons(SeriesKind, PutSeries, m, BytesField(2, b), m.(samples := m.samples + [y]), fs, r);
  }

  lemma {:induction false} SeriesSamplesLoad(m: TimeSeries, xs: seq<Sample>, r: TimeSeries)
    requires (forall i :: 0 <= i < |xs| ==> SampleOk(xs[i])) && r == m.(samples := m.samples + Each(SameSample, xs))
    ensures Loads(SeriesKind, PutSeries, m, Repeat(2, EncSample, xs), r)
    decreases |xs|
  {
    if |xs| == 0 {
      assert r == m;
    } else {
      Shift(m.samples, Each(SameSample, xs));
      assert Each(SameSample, xs)[1..] == Each(SameSample, xs[1..]);
      SeriesSamplesLoad(m.(samples := m.samples + [SameSample(xs[0])]), xs[1..], r);
      SampleRoundTrip(xs[0]);
      SeriesSampleLoads(m, EncSample(xs[0]), SameSample(xs[0]), Repeat(2, EncSample, xs[1..]), r);
    }
  }

  lemma SeriesExemplarLoads(m: TimeSeries, b: Bytes, y: Exemplar, fs: seq<Field>, r: TimeSeries)
    requires DecExemplar(b) == Some(y) && Loads(SeriesKind, PutSeries, m.(exemplars := m.exemplars + [y]), fs, r)
    ensures Loads(SeriesKind, PutSeries, m, [BytesField(3, b)] + fs, r)
  {
    LoadCons(SeriesKind, PutSeries, m, BytesField(3, b), m.(exemplars := m.exemplars + [y]), fs, r);
  }

  lemma {:induction false} SeriesExemplarsLoad(m: TimeSeries, xs: seq<Exemplar>, r: TimeSeries)
    requires (forall i :: 0 <= i < |xs| ==> ExemplarOk(xs[i])) && r == m.(exemplars := m.exemplars + Each(SameExemplar, xs))
    ensures Loads(SeriesKind, PutSeries, m, Repeat(3, EncExemplar, xs), r)
    decreases |xs|
  {
    if |xs| == 0 {
      assert r == m;
    } else {
      Shift(m.exemplars, Each(SameExemplar, xs));
      assert Each(SameExemplar, xs)[1..] == Each(SameExemplar, xs[1..]);
      SeriesExemplarsLoad(m.(exemplars := m.exemplars + [SameExemplar(xs[0])]), xs[1..], r);
      ExemplarRoundTrip(xs[0]);
      SeriesExemplarLoads(m, EncExemplar(xs[0]), SameExemplar(xs[0]), Repeat(3, EncExemplar, xs[1..]), r);
    }
  }

  lemma SeriesHistogramLoads(m: TimeSeries, b: Bytes, y: Histogram, fs: seq<Field>, r: TimeSeries)
    requires DecHistogram(b) == Some(y) && Loads(SeriesKind, PutSeries, m.(histograms := m.histograms + [y]), fs, r)
    ensures Loads(SeriesKind, PutSeries, m, [BytesField(4, b)] + fs, r)
  {
    LoadCons(SeriesKind, PutSeries, m, BytesField(4, b), m.(histograms := m.histograms + [y]), fs, r);
  }

  lemma {:induction false} SeriesHistogramsLoad(m: TimeSeries, xs: seq<Histogram>, r: TimeSeries)
    requires (forall i :: 0 <= i < |xs| ==> HistogramOk(xs[i])) && r == m.(histograms := m.histograms + Each(SameHistogram, xs))
    ensures Loads(SeriesKind, PutSeries, m, Repeat(4, EncHistogram, xs), r)
    decreases |xs|
  {
    if |xs| == 0 {
      assert r == m;
    } else {
      Shift(m.histograms, Each(SameHistogram, xs));
      assert Each(SameHistogram, xs)[1..] == Each(SameHistogram, xs[1..]);
      SeriesHistogramsLoad(m.(histograms := m.histograms + [SameHistogram(xs[0])]), xs[1..], r);
      HistogramRoundTrip(xs[0]);
      SeriesHistogramLoads(m, EncHistogram(xs[0]), SameHistogram(xs[0]), Repeat(4, EncHistogram, xs[1..]), r);
    }
  }

  ghost predicate SeriesOk(m: TimeSeries) {
    && (forall i :: 0 <= i < |m.labels| ==> LabelOk(m.labels[i]))
    && (forall i :: 0 <= i < |m.samples| ==> SampleOk(m.samples[i]))
    && (forall i :: 0 <= i < |m.exemplars| ==> ExemplarOk(m.exemplars[i]))
    && (forall i :: 0 <= i < |m.histograms| ==> HistogramOk(m.histograms[i]))
    && UnknownOk(SeriesKind, m.unknown) && |EncSeries(m)| < TWO63
  }

  lemma SeriesLoads(m: TimeSeries)
    requires SeriesOk(m)
    ensures Loads(SeriesKind, PutSeries, EMPTY_SERIES, SeriesFields(m), SameSeries(m).(unknown := []))
  {
    var r := SameSeries(m).(unknown := []);
    var a := EMPTY_SERIES.(labels := [] + m.labels);
    var b := a.(samples := [] + r.samples);
    var c := b.(exemplars := [] + r.exemplars);
    var d := c.(histograms := [] + r.histograms);
    SeriesLabelsLoad(EMPTY_SERIES, m.labels, a);
    SeriesSamplesLoad(a, m.samples, b);
    SeriesExemplarsLoad(b, m.exemplars, c);
    SeriesHistogramsLoad(c, m.histograms, d);
    assert d == r;
    SeriesJoin(m, a, b, c, r);
  }

  lemma SeriesJoin(m: TimeSeries, a: TimeSeries, b: TimeSeries, c: TimeSeries, r: TimeSeries)
    requires Loads(SeriesKind, PutSeries, EMPTY_SERIES, Repeat(1, EncLabel, m.labels), a)
    requires Loads(SeriesKind, PutSeries, a, Repeat(2, EncSample, m.samples), b)
    requires Loads(SeriesKind, PutSeries, b, Repeat(3, EncExemplar, m.exemplars), c)
    requires Loads(SeriesKind, PutSeries, c, Repeat(4, EncHistogram, m.histograms), r)
    ensures Loads(SeriesKind, PutSeries, EMPTY_SERIES, SeriesFields(m), r)
  {
    var f3 := Repeat(3, EncExemplar, m.exemplars) + Repeat(4, EncHistogram, m.histograms);
    LoadsThen(SeriesKind, PutSeries, b, Repeat(3, EncExemplar, m.exemplars), c, Repeat(4, EncHistogram, m.histograms), r);
    LoadsThen(SeriesKind, PutSeries, a, Repeat(2, EncSample, m.samples), b, f3, r);
    LoadsThen(SeriesKind, PutSeries, EMPTY_SERIES, Repeat(1, EncLabel, m.labels), a, Repeat(2, EncSample, m.samples) + f3, r);
  }

  lemma SeriesRoundTrip(m: TimeSeries)
    requires SeriesOk(m)
    ensures DecSeries(EncSeries(m)) == Some(SameSeries(m))
  {
    SeriesLoads(m);
    UnmarshalEncoded(SeriesKind, PutSeries, EMPTY_SERIES, SeriesFields(m), m.unknown, SameSeries(m).(unknown := []));
  }

  // ---------------------------------------------------------------- write requests

  lemma RequestSeriesLoads(m: WriteRequest, b: Bytes, y: TimeSeries, fs: seq<Field>, r: WriteRequest)
    requires DecSeries(b) == Some(y) && Loads(RequestKind, PutRequest, m.(timeseries := m.timeseries + [y]), fs, r)
    ensures Loads(RequestKind, PutRequest, m, [BytesField(1, b)] + fs, r)
  {
    LoadCons(RequestKind, PutRequest, m, BytesField(1, b), m.(timeseries := m.timeseries + [y]), fs, r);
  }

  lemma {:induction false} RequestAllSeriesLoad(m: WriteRequest, xs: seq<TimeSeries>, r: WriteRequest)
    requires (forall i :: 0 <= i < |xs| ==> SeriesOk(xs[i])) && r == m.(timeseries := m.timeseries + Each(SameSeries, xs))
    ensures Loads(RequestKind, PutRequest, m, Repeat(1, EncSeries, xs), r)
    decreases |xs|
  {
    if |xs| == 0 {
      assert r == m;
    } else {
      Shift(m.timeseries, Each(SameSeries, xs));
      assert Each(SameSeries, xs)[1..] == Each(SameSeries, xs[1..]);
      RequestAllSeriesLoad(m.(timeseries := m.timeseries + [SameSeries(xs[0])]), xs[1..], r);
      SeriesRoundTrip(xs[0]);
      RequestSeriesLoads(m, EncSeries(xs[0]), SameSeries(xs[0]), Repeat(1, EncSeries, xs[1..]), r);
    }
  }

  lemma RequestMetadataLoads(m: WriteRequest, b: Bytes, y: MetricMetadata, fs: seq<Field>, r: WriteRequest)
    requires DecMetadata(b) == Some(y) && Loads(RequestKind, PutRequest, m.(metadata := m.metadata + [y]), fs, r)
    ensures Loads(RequestKind, PutRequest, m, [BytesField(3, b)] + fs, r)
  {
    LoadCons(RequestKind, PutRequest, m, BytesField(3, b), m.(metadata := m.metadata + [y]), fs, r);
  }

  lemma {:induction false} RequestAllMetadataLoad(m: WriteRequest, xs: seq<MetricMetadata>, r: WriteRequest)
    requires (forall i :: 0 <= i < |xs| ==> MetadataOk(xs[i])) && r == m.(metadata := m.metadata + xs)
    ensures Loads(RequestKind, PutRequest, m, Repeat(3, EncMetadata, xs), r)
    decreases |xs|
  {
    if |xs| == 0 {
      assert r == m;
    } else {
      Shift(m.metadata, xs);
      RequestAllMetadataLoad(m.(metadata := m.metadata + [xs[0]]), xs[1..], r);
      MetadataRoundTrip(xs[0]);
      RequestMetadataLoads(m, EncMetadata(xs[0]), xs[0], Repeat(3, EncMetadata, xs[1..]), r);
    }
  }

  ghost predicate RequestOk(m: WriteRequest) {
    && (forall i :: 0 <= i < |m.timeseries| ==> SeriesOk(m.timeseries[i]))
    && (forall i :: 0 <= i < |m.metadata| ==> MetadataOk(m.metadata[i]))
    && UnknownOk(RequestKind, m.unknown) && |EncRequest(m)| < TWO63
  }

  lemma RequestLoads(m: WriteRequest)
    requires RequestOk(m)
    ensures Loads(RequestKind, PutRequest, EMPTY_REQUEST, RequestFields(m), SameRequest(m).(unknown := []))
  {
    var a := EMPTY_REQUEST.(timeseries := [] + Each(SameSeries, m.timeseries));
    var b := a.(metadata := [] + m.metadata);
    RequestAllSeriesLoad(EMPTY_REQUEST, m.timeseries, a);
    RequestAllMetadataLoad(a, m.metadata, b);
    LoadsThen(RequestKind, PutRequest, EMPTY_REQUEST, Repeat(1, EncSeries, m.timeseries), a, Repeat(3, EncMetadata, m.metadata), b);
    assert b == SameRequest(m).(unknown := []);
  }

  lemma RequestRoundTrip(m: WriteRequest)
    requires RequestOk(m)
    ensures DecRequest(EncRequest(m)) == Some(SameRequest(m))
  {
    RequestLoads(m);
    UnmarshalEncoded(RequestKind, PutRequest, EMPTY_REQUEST, RequestFields(m), m.unknown, SameRequest(m).(unknown := []));
  }
}
