/** The messages of remote write byte by byte: the tags that mark their fields on the wire, and what the
    numbers in them are made of. */
module WireFormat {
  import opened Basics
  import opened Wire
  import opened Messages
  import opened UnknownFields

  // ---------------------------------------------------------------- numbers

  /** A varint spells its value in groups of seven bits, and no shorter one does. */
  lemma {:induction false} VarintSpells(v: nat)
    ensures
      var b := EncVarint(v);
      && Groups(b) == v && b[|b| - 1] < 128 && (forall i :: 0 <= i < |b| - 1 ==> b[i] >= 128)
      && (|b| > 1 ==> b[|b| - 1] > 0)
    decreases v
  {
    var b := EncVarint(v);
    if v < 128 {
      assert b == [v] && b[1..] == [];
    } else {
      var more := EncVarint(v / 128);
      VarintSpells(v / 128);
      assert b == [128 + v % 128] + more && b[1..] == more;
      assert forall i :: 1 <= i < |b| ==> b[i] == more[i - 1];
    }
  }

  /** Eight bytes, the least significant first. */
  lemma FixedSpells(v: U64)
    ensures
      var b := EncFixed(v);
      && |b| == 8
      && v == (b[0] as int) + 0x100 * (b[1] as int) + 0x1_0000 * (b[2] as int) + 0x100_0000 * (b[3] as int)
            + 0x1_0000_0000 * (b[4] as int) + 0x100_0000_0000 * (b[5] as int)
            + 0x1_0000_0000_0000 * (b[6] as int) + 0x100_0000_0000_0000 * (b[7] as int)
  {
    LowFour(v, 8);
    var rest := v / 0x1_0000_0000;
    assert LittleEndian(v, 8)[4..] == LittleEndian(rest, 4);
    LowFour(rest, 4);
  }

  lemma LowFour(v: nat, n: nat)
    requires n >= 4
    ensures
      var b := LittleEndian(v, n);
      && v == (b[0] as int) + 0x100 * (b[1] as int) + 0x1_0000 * (b[2] as int) + 0x100_0000 * (b[3] as int)
           + 0x1_0000_0000 * (v / 0x1_0000_0000)
      && b[4..] == LittleEndian(v / 0x1_0000_0000, n - 4)
  {
    var v1 := v / 256;
    var v2 := v1 / 256;
    var v3 := v2 / 256;
    var v4 := v3 / 256;
    assert LittleEndian(v, n) == [v % 256] + LittleEndian(v1, n - 1);
    assert LittleEndian(v1, n - 1) == [v1 % 256] + LittleEndian(v2, n - 2);
    assert LittleEndian(v2, n - 2) == [v2 % 256] + LittleEndian(v3, n - 3);
    assert LittleEndian(v3, n - 3) == [v3 % 256] + LittleEndian(v4, n - 4);
    assert v4 == v / 0x1_0000_0000;
  }

  // ---------------------------------------------------------------- fields

  ghost function VarintPart(tag: Bytes, v: nat): Bytes {
    if v == 0 then [] else tag + EncVarint(v)
  }

  /** Neither zero is written. */
  ghost function FixedPart(tag: Bytes, bits: U64): Bytes {
    if bits == 0 || bits == 0x8000_0000_0000_0000 then [] else tag + EncFixed(bits)
  }

  ghost function BytesPart(tag: Bytes, b: Bytes): Bytes {
    if |b| == 0 then [] else tag + (EncVarint(|b|) + b)
  }

  ghost function CountPart(intTag: Bytes, floatTag: Bytes, c: Count): Bytes {
    match c
    case NoCount => []
    case IntCount(n) => intTag + EncVarint(n)
    case FloatCount(f) => floatTag + EncFixed(f)
  }

  /** Length and bytes of each element, even of an empty one. */
  ghost function Parts<T>(tag: Bytes, enc: T -> Bytes, xs: seq<T>): Bytes {
    if |xs| == 0 then [] else (tag + (EncVarint(|enc(xs[0])|) + enc(xs[0]))) + Parts(tag, enc, xs[1..])
  }

  /** Signed numbers as unsigned ones: 0, -1, 1, -2, ... */
  ghost function Alternating(x: int): nat {
    if x < 0 then -2 * x - 1 else 2 * x
  }

  ghost function Deltas(ds: seq<I64>): Bytes {
    if |ds| == 0 then [] else EncVarint(Alternating(ds[0])) + Deltas(ds[1..])
  }

  ghost function Fixeds(fs: seq<U64>): Bytes {
    if |fs| == 0 then [] else EncFixed(fs[0]) + Fixeds(fs[1..])
  }

  ghost predicate IsTag(tag: Bytes, num: nat, wireType: nat) {
    0 < num <= 16 && wireType <= 2 && tag == if num == 16 then [128 + wireType, 1] else [8 * num + wireType]
  }

  lemma TagSpells(tag: Bytes, num: nat, wireType: nat)
    requires IsTag(tag, num, wireType)
    ensures EncVarint(8 * num + wireType) == tag
  {
    if num == 16 {
      assert (128 + wireType) / 128 == 1 && (128 + wireType) % 128 == wireType;
    }
  }

  lemma OneField(f: Field, tag: Bytes)
    requires !f.Raw? && IsTag(tag, f.num, WireType(f))
    ensures EncFields([f]) == tag + Payload(f)
  {
    TagSpells(tag, f.num, WireType(f));
    assert EncField(f) + EncFields([f][1..]) == EncField(f);
  }

  lemma VarintBytes(tag: Bytes, num: nat, v: U64)
    requires IsTag(tag, num, 0)
    ensures EncFields(OptVarint(num, v)) == VarintPart(tag, v)
  {
    OneField(VarintField(num, v), tag);
  }

  lemma FixedBytes(tag: Bytes, num: nat, bits: U64)
    requires IsTag(tag, num, 1)
    ensures EncFields(OptFixed(num, bits)) == FixedPart(tag, bits)
  {
    OneField(FixedField(num, bits), tag);
  }

  lemma TextBytes(tag: Bytes, num: nat, b: Bytes)
    requires IsTag(tag, num, 2)
    ensures EncFields(OptBytes(num, b)) == BytesPart(tag, b)
  {
    OneField(BytesField(num, b), tag);
  }

  lemma CountBytes(intTag: Bytes, floatTag: Bytes, intNum: nat, floatNum: nat, c: Count)
    requires IsTag(intTag, intNum, 0) && IsTag(floatTag, floatNum, 1)
    ensures EncFields(OptCount(intNum, floatNum, c)) == CountPart(intTag, floatTag, c)
  {
    match c
    case NoCount =>
    case IntCount(n) => OneField(VarintField(intNum, n), intTag);
    case FloatCount(f) => OneField(FixedField(floatNum, f), floatTag);
  }

  lemma {:induction false} DeltaBytes(ds: seq<I64>)
    ensures EncVarints(Zigs(ds)) == Deltas(ds) && (|ds| > 0 ==> |Deltas(ds)| > 0)
    decreases |ds|
  {
    if |ds| > 0 {
      ZigZagValue(ds[0], TWO64);
      assert Zigs(ds)[1..] == Zigs(ds[1..]);
      DeltaBytes(ds[1..]);
    }
  }

  lemma {:induction false} FixedsAre(fs: seq<U64>)
    ensures EncFixeds(fs) == Fixeds(fs)
    decreases |fs|
  {
    if |fs| > 0 {
      FixedsAre(fs[1..]);
    }
  }

  lemma ZigsBytes(tag: Bytes, num: nat, ds: seq<I64>)
    requires IsTag(tag, num, 2)
    ensures EncFields(OptZigs(num, ds)) == BytesPart(tag, Deltas(ds))
  {
    DeltaBytes(ds);
    OneField(PackedVarints(num, Zigs(ds)), tag);
  }

  lemma FixedsBytes(tag: Bytes, num: nat, fs: seq<U64>)
    requires IsTag(tag, num, 2)
    ensures EncFields(OptFixeds(num, fs)) == BytesPart(tag, Fixeds(fs))
  {
    FixedsAre(fs);
    OneField(PackedFixed(num, fs), tag);
  }

  lemma {:induction false} RepeatBytes<T>(tag: Bytes, num: nat, enc: T -> Bytes, xs: seq<T>)
    requires IsTag(tag, num, 2)
    ensures EncFields(Repeat(num, enc, xs)) == Parts(tag, enc, xs)
    decreases |xs|
  {
    if |xs| > 0 {
      RepeatBytes(tag, num, enc, xs[1..]);
      OneField(BytesField(num, enc(xs[0])), tag);
      EncFieldsJoin([BytesField(num, enc(xs[0]))], Repeat(num, enc, xs[1..]));
    }
  }

  // ---------------------------------------------------------------- messages

  lemma LabelBytes(m: Label)
    ensures EncLabel(m) == BytesPart([0x0a], m.name) + BytesPart([0x12], m.value) + m.unknown
  {
    TextBytes([0x0a], 1, m.name);
    TextBytes([0x12], 2, m.value);
    EncFieldsJoin(OptBytes(1, m.name), OptBytes(2, m.value));
  }

  /** Negative timestamps are written in two's complement. */
  lemma SampleBytes(m: Messages.Sample)
    ensures EncSample(m) ==
      FixedPart([0x09], m.value) + VarintPart([0x10], if m.timestamp < 0 then m.timestamp + TWO64 else m.timestamp) + m.unknown
  {
    FixedBytes([0x09], 1, m.value);
    VarintBytes([0x10], 2, FromI64(m.timestamp));
    EncFieldsJoin(OptFixed(1, m.value), OptVarint(2, FromI64(m.timestamp)));
  }

  lemma ExemplarBytes(m: Exemplar)
    ensures EncExemplar(m) ==
      Parts([0x0a], EncLabel, m.labels)
      + (FixedPart([0x11], m.value) + VarintPart([0x18], if m.timestamp < 0 then m.timestamp + TWO64 else m.timestamp))
      + m.unknown
  {
    var value, time := OptFixed(2, m.value), OptVarint(3, FromI64(m.timestamp));
    RepeatBytes([0x0a], 1, EncLabel, m.labels);
    FixedBytes([0x11], 2, m.value);
    VarintBytes([0x18], 3, FromI64(m.timestamp));
    EncFieldsJoin(value, time);
    EncFieldsJoin(Repeat(1, EncLabel, m.labels), value + time);
  }

  lemma SpanBytes(m: BucketSpan)
    ensures EncSpan(m) == VarintPart([0x08], Alternating(m.offset)) + VarintPart([0x10], m.length) + m.unknown
  {
    var offset, length := OptVarint(1, Zig32(m.offset)), OptVarint(2, m.length);
    ZigZagValue(m.offset, TWO32);
    VarintBytes([0x08], 1, Zig32(m.offset));
    VarintBytes([0x10], 2, m.length);
    EncFieldsJoin(offset, length);
  }

  ghost function LastParts(m: Messages.Histogram): Bytes {
    VarintPart([0x70], if m.resetHint < 0 then m.resetHint + TWO64 else m.resetHint)
    + (VarintPart([0x78], if m.timestamp < 0 then m.timestamp + TWO64 else m.timestamp)
    + BytesPart([0x82, 0x01], Fixeds(m.customValues)))
  }

  ghost function PositiveParts(m: Messages.Histogram): Bytes {
    Parts([0x5a], EncSpan, m.positiveSpans)
    + (BytesPart([0x62], Deltas(m.positiveDeltas))
    + (BytesPart([0x6a], Fixeds(m.positiveCounts)) + LastParts(m)))
  }

  ghost function NegativeParts(m: Messages.Histogram): Bytes {
    Parts([0x42], EncSpan, m.negativeSpans)
    + (BytesPart([0x4a], Deltas(m.negativeDeltas))
    + (BytesPart([0x52], Fixeds(m.negativeCounts)) + PositiveParts(m)))
  }

  lemma LastBytes(m: Messages.Histogram)
    ensures EncFields(LastFields(m)) == LastParts(m)
  {
    var time, custom := OptVarint(15, FromI64(m.timestamp)), OptFixeds(16, m.customValues);
    VarintBytes([0x70], 14, FromI64(m.resetHint));
    VarintBytes([0x78], 15, FromI64(m.timestamp));
    FixedsBytes([0x82, 0x01], 16, m.customValues);
    EncFieldsJoin(time, custom);
    EncFieldsJoin(OptVarint(14, FromI64(m.resetHint)), time + custom);
  }

  lemma PositiveBytes(m: Messages.Histogram)
    ensures EncFields(PositiveFields(m)) == PositiveParts(m)
  {
    var deltas, counts, last := OptZigs(12, m.positiveDeltas), OptFixeds(13, m.positiveCounts), LastFields(m);
    LastBytes(m);
    FixedsBytes([0x6a], 13, m.positiveCounts);
    ZigsBytes([0x62], 12, m.positiveDeltas);
    RepeatBytes([0x5a], 11, EncSpan, m.positiveSpans);
    EncFieldsJoin(counts, last);
    EncFieldsJoin(deltas, counts + last);
    EncFieldsJoin(Repeat(11, EncSpan, m.positiveSpans), deltas + (counts + last));
  }

  lemma NegativeBytes(m: Messages.Histogram)
    ensures EncFields(NegativeFields(m)) == NegativeParts(m)
  {
    var deltas, counts, rest := OptZigs(9, m.negativeDeltas), OptFixeds(10, m.negativeCounts), PositiveFields(m);
    PositiveBytes(m);
    FixedsBytes([0x52], 10, m.negativeCounts);
    ZigsBytes([0x4a], 9, m.negativeDeltas);
    RepeatBytes([0x42], 8, EncSpan, m.negativeSpans);
    EncFieldsJoin(counts, rest);
    EncFieldsJoin(deltas, counts + rest);
    EncFieldsJoin(Repeat(8, EncSpan, m.negativeSpans), deltas + (counts + rest));
  }

  ghost function ZeroParts(m: Messages.Histogram): Bytes {
    FixedPart([0x29], m.zeroThreshold) + (CountPart([0x30], [0x39], m.zeroCount) + NegativeParts(m))
  }

  lemma ZeroBytes(m: Messages.Histogram)
    ensures EncFields(OptFixed(5, m.zeroThreshold) + (OptCount(6, 7, m.zeroCount) + NegativeFields(m))) == ZeroParts(m)
  {
    NegativeBytes(m);
    CountBytes([0x30], [0x39], 6, 7, m.zeroCount);
    FixedBytes([0x29], 5, m.zeroThreshold);
    EncFieldsJoin(OptCount(6, 7, m.zeroCount), NegativeFields(m));
    EncFieldsJoin(OptFixed(5, m.zeroThreshold), OptCount(6, 7, m.zeroCount) + NegativeFields(m));
  }

  lemma FourParts(a: seq<Field>, b: seq<Field>, c: seq<Field>, d: seq<Field>)
    ensures EncFields(a + (b + (c + d))) == EncFields(a) + (EncFields(b) + (EncFields(c) + EncFields(d)))
  {
    EncFieldsJoin(c, d);
    EncFieldsJoin(b, c + d);
    EncFieldsJoin(a, b + (c + d));
  }

  lemma HistogramBytes(m: Messages.Histogram)
    ensures EncHistogram(m) ==
      CountPart([0x08], [0x11], m.count)
      + (FixedPart([0x19], m.sum) + (VarintPart([0x20], Alternating(m.schema)) + ZeroParts(m)))
      + m.unknown
  {
    var schema := Zig32(m.schema);
    ZigZagValue(m.schema, TWO32);
    ZeroBytes(m);
    VarintBytes([0x20], 4, schema);
    FixedBytes([0x19], 3, m.sum);
    CountBytes([0x08], [0x11], 1, 2, m.count);
    FourParts(OptCount(1, 2, m.count), OptFixed(3, m.sum), OptVarint(4, schema),
              OptFixed(5, m.zeroThreshold) + (OptCount(6, 7, m.zeroCount) + NegativeFields(m)));
  }

  lemma SeriesBytes(m: TimeSeries)
    ensures EncSeries(m) ==
      Parts([0x0a], EncLabel, m.labels)
      + (Parts([0x12], EncSample, m.samples)
      + (Parts([0x1a], EncExemplar, m.exemplars) + Parts([0x22], EncHistogram, m.histograms)))
      + m.unknown
  {
    var samples := Repeat(2, EncSample, m.samples);
    var exemplars, histograms := Repeat(3, EncExemplar, m.exemplars), Repeat(4, EncHistogram, m.histograms);
    RepeatBytes([0x0a], 1, EncLabel, m.labels);
    RepeatBytes([0x12], 2, EncSample, m.samples);
    RepeatBytes([0x1a], 3, EncExemplar, m.exemplars);
    RepeatBytes([0x22], 4, EncHistogram, m.histograms);
    EncFieldsJoin(exemplars, histograms);
    EncFieldsJoin(samples, exemplars + histograms);
    EncFieldsJoin(Repeat(1, EncLabel, m.labels), samples + (exemplars + histograms));
  }

  lemma MetadataBytes(m: MetricMetadata)
    ensures EncMetadata(m) ==
      VarintPart([0x08], if m.kind < 0 then m.kind + TWO64 else m.kind)
      + (BytesPart([0x12], m.name) + (BytesPart([0x22], m.help) + BytesPart([0x2a], m.metricUnit)))
      + m.unknown
  {
    var name, help, metricUnit := OptBytes(2, m.name), OptBytes(4, m.help), OptBytes(5, m.metricUnit);
    VarintBytes([0x08], 1, FromI64(m.kind));
    TextBytes([0x12], 2, m.name);
    TextBytes([0x22], 4, m.help);
    TextBytes([0x2a], 5, m.metricUnit);
    EncFieldsJoin(help, metricUnit);
    EncFieldsJoin(name, help + metricUnit);
    EncFieldsJoin(OptVarint(1, FromI64(m.kind)), name + (help + metricUnit));
  }

  lemma RequestBytes(m: WriteRequest)
    ensures EncRequest(m) ==
      Parts([0x0a], EncSeries, m.timeseries) + Parts([0x1a], EncMetadata, m.metadata) + m.unknown
  {
    RepeatBytes([0x0a], 1, EncSeries, m.timeseries);
    RepeatBytes([0x1a], 3, EncMetadata, m.metadata);
    EncFieldsJoin(Repeat(1, EncSeries, m.timeseries), Repeat(3, EncMetadata, m.metadata));
  }

  // ---------------------------------------------------------------- what the parser refuses or admits

  /** The wire types that the known fields of a message may have. */
  ghost predicate Admitted(k: Kind, num: int, wireType: int) {
    match k
    case LabelKind => wireType == 2
    case SampleKind => wireType == if num == 1 then 1 else 0
    case ExemplarKind => wireType == if num == 1 then 2 else if num == 2 then 1 else 0
    case SpanKind => wireType == 0
    case HistogramKind =>
      if num == 2 || num == 3 || num == 5 || num == 7 then wireType == 1
      else if num == 8 || num == 11 then wireType == 2
      else if num == 9 || num == 12 then wireType == 0 || wireType == 2
      else if num == 10 || num == 13 || num == 16 then wireType == 1 || wireType == 2
      else wireType == 0
    case SeriesKind => wireType == 2
    case MetadataKind => wireType == if num == 1 then 0 else 2
    case RequestKind => wireType == 2
  }

  /** A known number with a wire type it may not have, a number that is not positive, and an end of a
      group are errors. */
  lemma WrongField(k: Kind, tag: Bytes, rest: Bytes)
    requires IsVarint(tag)
    requires
      var num := NumberBits(tag);
      num == 0 || num >= 0x8000_0000 || tag[0] % 8 == 4 || (Knows(k, num) && !Admitted(k, num, tag[0] % 8))
    ensures ReadField(k, tag + rest) == None
  {
    assert (tag + rest)[0..|tag|] == tag && (tag + rest)[0..] == tag + rest;
    ReadVarintIff(tag + rest, 0, |tag|);
    LowBitsOfTag(tag);
    WrongTag(k, tag + rest, |tag|, Groups(tag) % TWO64);
  }

  lemma WrongTag(k: Kind, s: Bytes, n: nat, tag: U64)
    requires ReadVarint(s) == Some(Got(tag, n))
    requires
      var num, wireType := tag / 8 % TWO32, tag % 8;
      num == 0 || num >= TWO31 || wireType == 4 || (Knows(k, num) && !Admitted(k, num, wireType))
    ensures ReadField(k, s) == None
  {
  }

  // ---------------------------------------------------------------- numbers that are not packed

  /** A field with one of the numbers that a histogram repeats: deltas are varints, counts are fixed. */
  ghost function Single(num: nat, v: U64): Field {
    if num == 9 || num == 12 then VarintField(num, v) else FixedField(num, v)
  }

  ghost function Singles(num: nat, vs: seq<U64>): seq<Field> {
    if |vs| == 0 then [] else [Single(num, vs[0])] + Singles(num, vs[1..])
  }

  ghost predicate Repeats(num: nat) {
    num == 9 || num == 10 || num == 12 || num == 13 || num == 16
  }

  lemma ReadSingle(num: nat, v: U64, rest: Bytes)
    requires Repeats(num)
    ensures ParseFields(HistogramKind, EncField(Single(num, v)) + rest) == Prepend(Single(num, v), ParseFields(HistogramKind, rest))
  {
    var f := Single(num, v);
    var shape := ShapeOf(HistogramKind, num);
    if num == 9 || num == 12 {
      ReadEncoded(v, rest);
    } else {
      ReadFixedEncoded(v, rest);
    }
    assert ReadPayload(shape, num, WireType(f), Payload(f) + rest) == Some(Got(f, |Payload(f)|));
    var tag := 8 * num + WireType(f);
    TagParts(num, WireType(f), tag);
    ReadTagged(HistogramKind, tag, num, WireType(f), Payload(f), rest, EncField(f), f);
    ParseCons(HistogramKind, EncField(f) + rest, f, |EncField(f)|);
    DropPrefix(EncField(f), rest);
  }

  lemma {:induction false} ReadSingles(num: nat, vs: seq<U64>)
    requires Repeats(num)
    ensures ParseFields(HistogramKind, EncFields(Singles(num, vs))) == Some(Singles(num, vs))
    ensures RawBytes(Singles(num, vs)) == []
    decreases |vs|
  {
    if |vs| > 0 {
      ReadSingles(num, vs[1..]);
      ReadSingle(num, vs[0], EncFields(Singles(num, vs[1..])));
      RawBytesCons(Single(num, vs[0]), Singles(num, vs[1..]));
    }
  }

  ghost function WithDeltas(m: Messages.Histogram, num: nat, ds: seq<I64>): Messages.Histogram {
    if num == 9 then m.(negativeDeltas := m.negativeDeltas + ds) else m.(positiveDeltas := m.positiveDeltas + ds)
  }

  ghost function WithCounts(m: Messages.Histogram, num: nat, fs: seq<U64>): Messages.Histogram {
    if num == 10 then m.(negativeCounts := m.negativeCounts + fs)
    else if num == 13 then m.(positiveCounts := m.positiveCounts + fs)
    else m.(customValues := m.customValues + fs)
  }

  lemma {:induction false} FoldDeltas(m: Messages.Histogram, num: nat, ds: seq<I64>)
    requires num == 9 || num == 12
    ensures Fold(PutHistogram, m, Singles(num, Zigs(ds))) == Some(WithDeltas(m, num, ds))
    decreases |ds|
  {
    if |ds| == 0 {
      assert WithDeltas(m, num, ds) == m;
    } else {
      var fs, rest := Singles(num, Zigs(ds)), ds[1..];
      var next := WithDeltas(m, num, [ds[0]]);
      NumbersReadBack(ds[0], 0);
      assert Zigs(ds)[1..] == Zigs(rest) && fs[1..] == Singles(num, Zigs(rest));
      FoldDeltas(next, num, rest);
      assert m.negativeDeltas + [ds[0]] + rest == m.negativeDeltas + ds;
      assert m.positiveDeltas + [ds[0]] + rest == m.positiveDeltas + ds;
    }
  }

  lemma {:induction false} FoldCounts(m: Messages.Histogram, num: nat, vs: seq<U64>)
    requires num == 10 || num == 13 || num == 16
    ensures Fold(PutHistogram, m, Singles(num, vs)) == Some(WithCounts(m, num, vs))
    decreases |vs|
  {
    if |vs| == 0 {
      assert WithCounts(m, num, vs) == m;
    } else {
      var fs, rest := Singles(num, vs), vs[1..];
      assert fs[1..] == Singles(num, rest);
      FoldCounts(WithCounts(m, num, [vs[0]]), num, rest);
      Shift(m.negativeCounts, vs);
      Shift(m.positiveCounts, vs);
      Shift(m.customValues, vs);
    }
  }

  /** The repeated numbers of a histogram are also read when each is a field of its own. */
  lemma OneByOne(num: nat, ds: seq<I64>, vs: seq<U64>)
    requires Repeats(num)
    ensures num == 9 ==> DecHistogram(EncFields(Singles(num, Zigs(ds)))) == Some(EMPTY_HISTOGRAM.(negativeDeltas := ds))
    ensures num == 12 ==> DecHistogram(EncFields(Singles(num, Zigs(ds)))) == Some(EMPTY_HISTOGRAM.(positiveDeltas := ds))
    ensures num == 10 ==> DecHistogram(EncFields(Singles(num, vs))) == Some(EMPTY_HISTOGRAM.(negativeCounts := vs))
    ensures num == 13 ==> DecHistogram(EncFields(Singles(num, vs))) == Some(EMPTY_HISTOGRAM.(positiveCounts := vs))
    ensures num == 16 ==> DecHistogram(EncFields(Singles(num, vs))) == Some(EMPTY_HISTOGRAM.(customValues := vs))
  {
    if num == 9 || num == 12 {
      ReadSingles(num, Zigs(ds));
      FoldDeltas(EMPTY_HISTOGRAM, num, ds);
      assert [] + ds == ds;
    } else {
      ReadSingles(num, vs);
      FoldCounts(EMPTY_HISTOGRAM, num, vs);
      assert [] + vs == vs;
    }
  }
}
