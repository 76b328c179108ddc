/** Marshalling into a buffer from its end, the size calculation, and the parsing loops. */
module Codec {
  import opened Basics
  import opened Wire
  import opened Messages
  import Parser

  // ---------------------------------------------------------------- writing backwards

  /** What a writer leaves: the bytes before the old end, and the tail as it was. */
  ghost predicate Wrote(a: array<Byte>, end: nat, i: nat, bytes: Bytes, tail: Bytes)
    reads a
  {
    i + |bytes| == end <= a.Length && a[i..] == bytes + tail
  }

  /** Writes a varint so that it ends at offset; its bytes go forwards. */
  method EncodeVarint(a: array<Byte>, offset: nat, v: U64, ghost tail: Bytes) returns (base: nat)
    requires |EncVarint(v)| <= offset <= a.Length && a[offset..] == tail
    modifies a
    ensures Wrote(a, offset, base, EncVarint(v), tail)
  {
    SovIsLength(v);
    base := offset - Sov(v);
    var o: nat, rest: nat := base, v;
    ghost var all := EncVarint(v);
    while rest >= 128
      invariant base <= o < offset && rest < TWO64 && |EncVarint(rest)| == offset - o
      invariant a[base..o] + EncVarint(rest) == all && a[offset..] == tail
      decreases rest
    {
      FirstGroup(rest);
      ghost var done, more := a[base..o], EncVarint(rest / 128);
      o := WriteGroup(a, base, o, offset, rest % 128 + 128, tail);
      Assoc(done, [rest % 128 + 128], more);
      rest := rest / 128;
    }
    assert EncVarint(rest) == [rest];
    ghost var done := a[base..o];
    a[o] := rest;
    assert a[base..offset] == done + [rest];
    assert a[base..] == a[base..offset] + a[offset..];
  }

  /** Appends one byte to those written from base on. */
  method WriteGroup(a: array<Byte>, base: nat, o: nat, offset: nat, group: Byte, ghost tail: Bytes) returns (next: nat)
    requires base <= o < offset <= a.Length && a[offset..] == tail
    modifies a
    ensures next == o + 1 && a[base..next] == old(a[base..o]) + [group] && a[offset..] == tail
  {
    a[o] := group;
    next := o + 1;
  }

  lemma FirstGroup(v: nat)
    requires v >= 128
    ensures EncVarint(v) == [v % 128 + 128] + EncVarint(v / 128)
  {}

  method WriteByte(a: array<Byte>, end: nat, b: Byte, ghost tail: Bytes) returns (i: nat)
    requires 0 < end <= a.Length && a[end..] == tail
    modifies a
    ensures Wrote(a, end, i, [b], tail)
  {
    i := end - 1;
    a[i] := b;
  }

  method Copy(a: array<Byte>, end: nat, bytes: Bytes, ghost tail: Bytes) returns (i: nat)
    requires |bytes| <= end <= a.Length && a[end..] == tail
    modifies a
    ensures Wrote(a, end, i, bytes, tail)
  {
    i := end - |bytes|;
    for k := 0 to |bytes|
      invariant a[i..i + k] == bytes[..k] && a[end..] == tail
    {
      a[i + k] := bytes[k];
    }
    assert a[i..] == a[i..end] + a[end..];
  }

  /** The tags of fields 1 to 15 take one byte, and the one of field 16 takes two. */
  lemma TagBytes(num: nat, wireType: nat)
    requires num <= 16 && wireType <= 2
    ensures EncVarint(8 * num + wireType) == if num <= 15 then [8 * num + wireType] else [128 + wireType, 1]
  {
    if num == 16 {
      assert (128 + wireType) / 128 == 1 && (128 + wireType) % 128 == wireType;
    }
  }

  method WriteTag(a: array<Byte>, end: nat, num: nat, wireType: nat, ghost tail: Bytes) returns (i: nat)
    requires num <= 16 && wireType <= 2
    requires |EncVarint(8 * num + wireType)| <= end <= a.Length && a[end..] == tail
    modifies a
    ensures Wrote(a, end, i, EncVarint(8 * num + wireType), tail)
  {
    TagBytes(num, wireType);
    if num <= 15 {
      i := WriteByte(a, end, 8 * num + wireType, tail);
    } else {
      i := WriteByte(a, end, 1, tail);
      i := WriteByte(a, i, 128 + wireType, [1] + tail);
    }
  }

  lemma OneField(f: Field)
    ensures EncFields([f]) == EncField(f)
  {
    assert EncField(f) + EncFields([f][1..]) == EncField(f);
  }

  /** A tag before a payload that is already there. */
  method CloseField(a: array<Byte>, end: nat, ghost f: Field, num: nat, wireType: nat, ghost tail: Bytes) returns (i: nat)
    requires !f.Raw? && num == f.num <= 16 && wireType == WireType(f)
    requires |EncVarint(8 * num + wireType)| <= end <= a.Length && a[end..] == Payload(f) + tail
    modifies a
    ensures i + |EncVarint(8 * num + wireType)| == end && a[i..] == EncField(f) + tail
  {
    i := WriteTag(a, end, num, wireType, Payload(f) + tail);
    Assoc(EncVarint(8 * num + wireType), Payload(f), tail);
  }

  method WriteVarint(a: array<Byte>, end: nat, num: nat, v: U64, ghost tail: Bytes) returns (i: nat)
    requires num <= 16 && |EncFields(OptVarint(num, v))| <= end <= a.Length && a[end..] == tail
    modifies a
    ensures Wrote(a, end, i, EncFields(OptVarint(num, v)), tail)
  {
    i := end;
    if v != 0 {
      OneField(VarintField(num, v));
      i := EncodeVarint(a, i, v, tail);
      i := CloseField(a, i, VarintField(num, v), num, 0, tail);
    }
  }

  method WriteFixed(a: array<Byte>, end: nat, num: nat, bits: U64, ghost tail: Bytes) returns (i: nat)
    requires num <= 16 && |EncFields(OptFixed(num, bits))| <= end <= a.Length && a[end..] == tail
    modifies a
    ensures Wrote(a, end, i, EncFields(OptFixed(num, bits)), tail)
  {
    i := end;
    if !IsZero(bits) {
      OneField(FixedField(num, bits));
      i := Copy(a, i, EncFixed(bits), tail);
      i := CloseField(a, i, FixedField(num, bits), num, 1, tail);
    }
  }

  /** Length and tag before bytes that are already there. */
  method CloseBytes(a: array<Byte>, end: nat, num: nat, size: nat, ghost bytes: Bytes, ghost tail: Bytes) returns (i: nat)
    requires num <= 16 && size == |bytes| < TWO63
    requires |EncField(BytesField(num, bytes))| - |bytes| <= end <= a.Length && a[end..] == bytes + tail
    modifies a
    ensures i + |EncField(BytesField(num, bytes))| == end + |bytes| && a[i..] == EncField(BytesField(num, bytes)) + tail
  {
    i := EncodeVarint(a, end, size, bytes + tail);
    Assoc(EncVarint(size), bytes, tail);
    i := CloseField(a, i, BytesField(num, bytes), num, 2, tail);
  }

  method WriteBytes(a: array<Byte>, end: nat, num: nat, b: Bytes, ghost tail: Bytes) returns (i: nat)
    requires num <= 16 && |b| < TWO63 && |EncFields(OptBytes(num, b))| <= end <= a.Length && a[end..] == tail
    modifies a
    ensures Wrote(a, end, i, EncFields(OptBytes(num, b)), tail)
  {
    i := end;
    if |b| > 0 {
      OneField(BytesField(num, b));
      i := Copy(a, i, b, tail);
      i := CloseBytes(a, i, num, |b|, b, tail);
    }
  }

  method WriteCount(a: array<Byte>, end: nat, intNum: nat, floatNum: nat, c: Count, ghost tail: Bytes) returns (i: nat)
    requires intNum <= 16 && floatNum <= 16
    requires |EncFields(OptCount(intNum, floatNum, c))| <= end <= a.Length && a[end..] == tail
    modifies a
    ensures Wrote(a, end, i, EncFields(OptCount(intNum, floatNum, c)), tail)
  {
    i := end;
    match c
    case NoCount =>
    case IntCount(n) =>
      OneField(VarintField(intNum, n));
      i := EncodeVarint(a, i, n, tail);
      i := CloseField(a, i, VarintField(intNum, n), intNum, 0, tail);
    case FloatCount(f) =>
      OneField(FixedField(floatNum, f));
      i := Copy(a, i, EncFixed(f), tail);
      i := CloseField(a, i, FixedField(floatNum, f), floatNum, 1, tail);
  }

  /** Length and tag before the element that was written from j to end. */
  /** Puts tag and length before an element whose bytes end at mid, where the elements after it begin. */
  method CloseElement(a: array<Byte>, end: nat, mid: nat, j: nat, num: nat, ghost bytes: Bytes, ghost more: Bytes,
                      ghost whole: Bytes, ghost tail: Bytes)
    returns (i: nat)
    requires num <= 16 && |bytes| < TWO63 && whole == EncField(BytesField(num, bytes)) + more && |whole| <= end
    requires mid + |more| == end && Wrote(a, mid, j, bytes, more + tail)
    modifies a
    ensures Wrote(a, end, i, whole, tail)
  {
    i := CloseBytes(a, j, num, mid - j, bytes, more + tail);
    Assoc(EncField(BytesField(num, bytes)), more, tail);
  }

  // ---------------------------------------------------------------- packed fields

  lemma {:induction false} EncVarintsSnoc(vs: seq<U64>, v: U64)
    ensures EncVarints(vs + [v]) == EncVarints(vs) + EncVarint(v)
    decreases |vs|
  {
    if |vs| == 0 {
      assert vs + [v] == [v];
      assert [v][1..] == [];
      assert EncVarint(v) + EncVarints([v][1..]) == EncVarint(v);
    } else {
      assert (vs + [v])[1..] == vs[1..] + [v];
      EncVarintsSnoc(vs[1..], v);
      Assoc(EncVarint(vs[0]), EncVarints(vs[1..]), EncVarint(v));
    }
  }

  lemma {:induction false} ZigsSnoc(ds: seq<I64>, d: I64)
    ensures Zigs(ds + [d]) == Zigs(ds) + [Zig64(d)]
    decreases |ds|
  {
    if |ds| == 0 {
      assert ds + [d] == [d];
    } else {
      assert (ds + [d])[1..] == ds[1..] + [d];
      ZigsSnoc(ds[1..], d);
    }
  }

  /** The zigzag varints of all deltas, in a buffer of their own and forwards. */
  method EncodeZigs(ds: seq<I64>) returns (bytes: Bytes)
    ensures bytes == EncVarints(Zigs(ds))
  {
    bytes := [];
    for k := 0 to |ds|
      invariant bytes == EncVarints(Zigs(ds[..k]))
    {
      ghost var before := bytes;
      var x: nat := Zig64(ds[k]);
      while x >= 128
        invariant bytes + EncVarint(x) == before + EncVarint(Zig64(ds[k]))
        decreases x
      {
        Assoc(bytes, [x % 128 + 128], EncVarint(x / 128));
        bytes := bytes + [x % 128 + 128];
        x := x / 128;
      }
      bytes := bytes + [x];
      ZigsSnoc(ds[..k], ds[k]);
      EncVarintsSnoc(Zigs(ds[..k]), Zig64(ds[k]));
      assert ds[..k + 1] == ds[..k] + [ds[k]];
    }
    assert ds[..|ds|] == ds;
  }

  method WriteZigs(a: array<Byte>, end: nat, num: nat, ds: seq<I64>, ghost tail: Bytes) returns (i: nat)
    requires num <= 16 && |EncFields(OptZigs(num, ds))| <= end <= a.Length && a[end..] == tail
    requires |EncVarints(Zigs(ds))| < TWO63
    modifies a
    ensures Wrote(a, end, i, EncFields(OptZigs(num, ds)), tail)
  {
    i := end;
    if |ds| > 0 {
      OneField(PackedVarints(num, Zigs(ds)));
      var bytes := EncodeZigs(ds);
      i := Copy(a, i, bytes, tail);
      i := CloseBytes(a, i, num, |bytes|, bytes, tail);
    }
  }

  /** Eight bytes each, from the last value to the first. */
  method WriteFixedValues(a: array<Byte>, end: nat, fs: seq<U64>, ghost tail: Bytes) returns (i: nat)
    requires |EncFixeds(fs)| <= end <= a.Length && a[end..] == tail
    modifies a
    ensures Wrote(a, end, i, EncFixeds(fs), tail)
  {
    i := end;
    var k := |fs|;
    assert fs[k..] == [];
    while k > 0
      invariant 0 <= k <= |fs| && i + 8 * (|fs| - k) == end && a[i..] == EncFixeds(fs[k..]) + tail
    {
      k := k - 1;
      assert fs[k..][1..] == fs[k + 1..];
      i := Copy(a, i, EncFixed(fs[k]), EncFixeds(fs[k + 1..]) + tail);
      Assoc(EncFixed(fs[k]), EncFixeds(fs[k + 1..]), tail);
    }
    assert fs[0..] == fs;
  }

  method WriteFixeds(a: array<Byte>, end: nat, num: nat, fs: seq<U64>, ghost tail: Bytes) returns (i: nat)
    requires num <= 16 && |EncFields(OptFixeds(num, fs))| <= end <= a.Length && a[end..] == tail
    requires 8 * |fs| < TWO63
    modifies a
    ensures Wrote(a, end, i, EncFields(OptFixeds(num, fs)), tail)
  {
    i := end;
    if |fs| > 0 {
      OneField(PackedFixed(num, fs));
      i := WriteFixedValues(a, i, fs, tail);
      i := CloseBytes(a, i, num, 8 * |fs|, EncFixeds(fs), tail);
    }
  }

  // ---------------------------------------------------------------- messages

  lemma TwoParts(f: seq<Field>, g: seq<Field>, tail: Bytes)
    ensures EncFields(f + g) + tail == EncFields(f) + (EncFields(g) + tail)
    ensures |EncFields(f + g)| == |EncFields(f)| + |EncFields(g)|
  {
    EncFieldsJoin(f, g);
    Assoc(EncFields(f), EncFields(g), tail);
  }

  /** What is inside a field is not longer than the field. */
  lemma InnerFits(num: nat, b: Bytes, ds: seq<I64>, fs: seq<U64>)
    ensures |b| <= |EncFields(OptBytes(num, b))|
    ensures |EncVarints(Zigs(ds))| <= |EncFields(OptZigs(num, ds))|
    ensures 8 * |fs| <= |EncFields(OptFixeds(num, fs))|
  {
    OneField(BytesField(num, b));
    OneField(PackedVarints(num, Zigs(ds)));
    OneField(PackedFixed(num, fs));
  }

  lemma {:induction false} RepeatSuffix<T>(num: nat, enc: T -> Bytes, xs: seq<T>, k: nat)
    requires k < |xs|
    ensures EncFields(Repeat(num, enc, xs[k..])) == EncField(BytesField(num, enc(xs[k]))) + EncFields(Repeat(num, enc, xs[k + 1..]))
    ensures |enc(xs[k])| <= |EncField(BytesField(num, enc(xs[k])))|
    ensures |EncFields(Repeat(num, enc, xs[k..]))| <= |EncFields(Repeat(num, enc, xs))|
    decreases k
  {
    var fs := Repeat(num, enc, xs[k..]);
    assert xs[k..][1..] == xs[k + 1..];
    assert fs[1..] == Repeat(num, enc, xs[k + 1..]);
    if k > 0 {
      RepeatSuffix(num, enc, xs, k - 1);
    } else {
      assert xs[0..] == xs;
    }
  }

  method MarshalLabel(a: array<Byte>, end: nat, m: Label, ghost tail: Bytes) returns (i: nat)
    requires |EncLabel(m)| <= end <= a.Length && a[end..] == tail && |EncLabel(m)| < TWO63
    modifies a
    ensures Wrote(a, end, i, EncLabel(m), tail)
  {
    ghost var last := m.unknown + tail;
    TwoParts(OptBytes(1, m.name), OptBytes(2, m.value), last);
    InnerFits(1, m.name, [], []);
    InnerFits(2, m.value, [], []);
    Assoc(EncFields(LabelFields(m)), m.unknown, tail);
    i := Copy(a, end, m.unknown, tail);
    i := WriteBytes(a, i, 2, m.value, last);
    i := WriteBytes(a, i, 1, m.name, EncFields(OptBytes(2, m.value)) + last);
  }

  method MarshalSample(a: array<Byte>, end: nat, m: Sample, ghost tail: Bytes) returns (i: nat)
    requires |EncSample(m)| <= end <= a.Length && a[end..] == tail && |EncSample(m)| < TWO63
    modifies a
    ensures Wrote(a, end, i, EncSample(m), tail)
  {
    ghost var last := m.unknown + tail;
    TwoParts(OptFixed(1, m.value), OptVarint(2, FromI64(m.timestamp)), last);
    Assoc(EncFields(SampleFields(m)), m.unknown, tail);
    i := Copy(a, end, m.unknown, tail);
    i := WriteVarint(a, i, 2, FromI64(m.timestamp), last);
    i := WriteFixed(a, i, 1, m.value, EncFields(OptVarint(2, FromI64(m.timestamp))) + last);
  }

  method PrependLabel(a: array<Byte>, end: nat, mid: nat, num: nat, x: Label, ghost more: Bytes, ghost tail: Bytes)
    returns (i: nat)
    requires num <= 16 && |EncLabel(x)| <= |EncField(BytesField(num, EncLabel(x)))| && |EncField(BytesField(num, EncLabel(x))) + more| <= end
    requires |EncLabel(x)| < TWO63 && Wrote(a, end, mid, more, tail)
    modifies a
    ensures Wrote(a, end, i, EncField(BytesField(num, EncLabel(x))) + more, tail)
  {
    ghost var bytes := EncLabel(x);
    var j := MarshalLabel(a, mid, x, more + tail);
    i := CloseElement(a, end, mid, j, num, bytes, more, EncField(BytesField(num, bytes)) + more, tail);
  }

  method MarshalSpan(a: array<Byte>, end: nat, m: BucketSpan, ghost tail: Bytes) returns (i: nat)
    requires |EncSpan(m)| <= end <= a.Length && a[end..] == tail && |EncSpan(m)| < TWO63
    modifies a
    ensures Wrote(a, end, i, EncSpan(m), tail)
  {
    ghost var last := m.unknown + tail;
    TwoParts(OptVarint(1, Zig32(m.offset)), OptVarint(2, m.length), last);
    Assoc(EncFields(SpanFields(m)), m.unknown, tail);
    i := Copy(a, end, m.unknown, tail);
    i := WriteVarint(a, i, 2, m.length, last);
    i := WriteVarint(a, i, 1, Zig32(m.offset), EncFields(OptVarint(2, m.length)) + last);
  }

  method PrependSample(a: array<Byte>, end: nat, mid: nat, num: nat, x: Sample, ghost more: Bytes, ghost tail: Bytes)
    returns (i: nat)
    requires num <= 16 && |EncSample(x)| <= |EncField(BytesField(num, EncSample(x)))| && |EncField(BytesField(num, EncSample(x))) + more| <= end
    requires |EncSample(x)| < TWO63 && Wrote(a, end, mid, more, tail)
    modifies a
    ensures Wrote(a, end, i, EncField(BytesField(num, EncSample(x))) + more, tail)
  {
    ghost var bytes := EncSample(x);
    var j := MarshalSample(a, mid, x, more + tail);
    i := CloseElement(a, end, mid, j, num, bytes, more, EncField(BytesField(num, bytes)) + more, tail);
  }

  method MarshalLabels(a: array<Byte>, end: nat, num: nat, xs: seq<Label>, ghost tail: Bytes) returns (i: nat)
    requires num <= 16 && |EncFields(Repeat(num, EncLabel, xs))| <= end <= a.Length && a[end..] == tail
    requires |EncFields(Repeat(num, EncLabel, xs))| < TWO63
    modifies a
    ensures Wrote(a, end, i, EncFields(Repeat(num, EncLabel, xs)), tail)
  {
    i := end;
    var k := |xs|;
    while k > 0
      invariant 0 <= k <= |xs| && Wrote(a, end, i, EncFields(Repeat(num, EncLabel, xs[k..])), tail)
    {
      k := k - 1;
      RepeatSuffix(num, EncLabel, xs, k);
      i := PrependLabel(a, end, i, num, xs[k], EncFields(Repeat(num, EncLabel, xs[k + 1..])), tail);
    }
    assert xs[0..] == xs;
  }

  method PrependSpan(a: array<Byte>, end: nat, mid: nat, num: nat, x: BucketSpan, ghost more: Bytes, ghost tail: Bytes)
    returns (i: nat)
    requires num <= 16 && |EncSpan(x)| <= |EncField(BytesField(num, EncSpan(x)))| && |EncField(BytesField(num, EncSpan(x))) + more| <= end
    requires |EncSpan(x)| < TWO63 && Wrote(a, end, mid, more, tail)
    modifies a
    ensures Wrote(a, end, i, EncField(BytesField(num, EncSpan(x))) + more, tail)
  {
    ghost var bytes := EncSpan(x);
    var j := MarshalSpan(a, mid, x, more + tail);
    i := CloseElement(a, end, mid, j, num, bytes, more, EncField(BytesField(num, bytes)) + more, tail);
  }

  method MarshalSamples(a: array<Byte>, end: nat, num: nat, xs: seq<Sample>, ghost tail: Bytes) returns (i: nat)
    requires num <= 16 && |EncFields(Repeat(num, EncSample, xs))| <= end <= a.Length && a[end..] == tail
    requires |EncFields(Repeat(num, EncSample, xs))| < TWO63
    modifies a
    ensures Wrote(a, end, i, EncFields(Repeat(num, EncSample, xs)), tail)
  {
    i := end;
    var k := |xs|;
    while k > 0
      invariant 0 <= k <= |xs| && Wrote(a, end, i, EncFields(Repeat(num, EncSample, xs[k..])), tail)
    {
      k := k - 1;
      RepeatSuffix(num, EncSample, xs, k);
      i := PrependSample(a, end, i, num, xs[k], EncFields(Repeat(num, EncSample, xs[k + 1..])), tail);
    }
    assert xs[0..] == xs;
  }

  method MarshalSpans(a: array<Byte>, end: nat, num: nat, xs: seq<BucketSpan>, ghost tail: Bytes) returns (i: nat)
    requires num <= 16 && |EncFields(Repeat(num, EncSpan, xs))| <= end <= a.Length && a[end..] == tail
    requires |EncFields(Repeat(num, EncSpan, xs))| < TWO63
    modifies a
    ensures Wrote(a, end, i, EncFields(Repeat(num, EncSpan, xs)), tail)
  {
    i := end;
    var k := |xs|;
    while k > 0
      invariant 0 <= k <= |xs| && Wrote(a, end, i, EncFields(Repeat(num, EncSpan, xs[k..])), tail)
    {
      k := k - 1;
      RepeatSuffix(num, EncSpan, xs, k);
      i := PrependSpan(a, end, i, num, xs[k], EncFields(Repeat(num, EncSpan, xs[k + 1..])), tail);
    }
    assert xs[0..] == xs;
  }

  method MarshalExemplar(a: array<Byte>, end: nat, m: Exemplar, ghost tail: Bytes) returns (i: nat)
    requires |EncExemplar(m)| <= end <= a.Length && a[end..] == tail && |EncExemplar(m)| < TWO63
    modifies a
    ensures Wrote(a, end, i, EncExemplar(m), tail)
  {
    ghost var last := m.unknown + tail;
    ghost var f2, f3 := OptFixed(2, m.value), OptVarint(3, FromI64(m.timestamp));
    TwoParts(f2, f3, last);
    TwoParts(Repeat(1, EncLabel, m.labels), f2 + f3, last);
    Assoc(EncFields(ExemplarFields(m)), m.unknown, tail);
    i := Copy(a, end, m.unknown, tail);
    i := WriteVarint(a, i, 3, FromI64(m.timestamp), last);
    i := WriteFixed(a, i, 2, m.value, EncFields(f3) + last);
    i := MarshalLabels(a, i, 1, m.labels, EncFields(f2 + f3) + last);
  }

  method MarshalMetadata(a: array<Byte>, end: nat, m: MetricMetadata, ghost tail: Bytes) returns (i: nat)
    requires |EncMetadata(m)| <= end <= a.Length && a[end..] == tail && |EncMetadata(m)| < TWO63
    modifies a
    ensures Wrote(a, end, i, EncMetadata(m), tail)
  {
    ghost var last := m.unknown + tail;
    ghost var f1, f2, f4, f5 := OptVarint(1, FromI64(m.kind)), OptBytes(2, m.name), OptBytes(4, m.help), OptBytes(5, m.metricUnit);
    TwoParts(f4, f5, last);
    TwoParts(f2, f4 + f5, last);
    TwoParts(f1, f2 + (f4 + f5), last);
    InnerFits(2, m.name, [], []);
    InnerFits(4, m.help, [], []);
    InnerFits(5, m.metricUnit, [], []);
    Assoc(EncFields(MetadataFields(m)), m.unknown, tail);
    i := Copy(a, end, m.unknown, tail);
    i := WriteBytes(a, i, 5, m.metricUnit, last);
    i := WriteBytes(a, i, 4, m.help, EncFields(f5) + last);
    i := WriteBytes(a, i, 2, m.name, EncFields(f4 + f5) + last);
    i := WriteVarint(a, i, 1, FromI64(m.kind), EncFields(f2 + (f4 + f5)) + last);
  }

  method MarshalLast(a: array<Byte>, end: nat, m: Histogram, ghost tail: Bytes) returns (i: nat)
    requires |EncFields(LastFields(m))| <= end <= a.Length && a[end..] == tail && |EncFields(LastFields(m))| < TWO63
    modifies a
    ensures Wrote(a, end, i, EncFields(LastFields(m)), tail)
  {
    ghost var f14, f15, f16 := OptVarint(14, FromI64(m.resetHint)), OptVarint(15, FromI64(m.timestamp)), OptFixeds(16, m.customValues);
    TwoParts(f15, f16, tail);
    TwoParts(f14, f15 + f16, tail);
    InnerFits(16, [], [], m.customValues);
    i := WriteFixeds(a, end, 16, m.customValues, tail);
    i := WriteVarint(a, i, 15, FromI64(m.timestamp), EncFields(f16) + tail);
    i := WriteVarint(a, i, 14, FromI64(m.resetHint), EncFields(f15 + f16) + tail);
  }

  method MarshalPositive(a: array<Byte>, end: nat, m: Histogram, ghost tail: Bytes) returns (i: nat)
    requires |EncFields(PositiveFields(m))| <= end <= a.Length && a[end..] == tail && |EncFields(PositiveFields(m))| < TWO63
    modifies a
    ensures Wrote(a, end, i, EncFields(PositiveFields(m)), tail)
  {
    ghost var spans, deltas, counts := Repeat(11, EncSpan, m.positiveSpans), OptZigs(12, m.positiveDeltas), OptFixeds(13, m.positiveCounts);
    ghost var rest := LastFields(m);
    TwoParts(counts, rest, tail);
    TwoParts(deltas, counts + rest, tail);
    TwoParts(spans, deltas + (counts + rest), tail);
    InnerFits(12, [], m.positiveDeltas, []);
    InnerFits(13, [], [], m.positiveCounts);
    i := MarshalLast(a, end, m, tail);
    i := WriteFixeds(a, i, 13, m.positiveCounts, EncFields(rest) + tail);
    i := WriteZigs(a, i, 12, m.positiveDeltas, EncFields(counts + rest) + tail);
    i := MarshalSpans(a, i, 11, m.positiveSpans, EncFields(deltas + (counts + rest)) + tail);
  }

  method MarshalNegative(a: array<Byte>, end: nat, m: Histogram, ghost tail: Bytes) returns (i: nat)
    requires |EncFields(NegativeFields(m))| <= end <= a.Length && a[end..] == tail && |EncFields(NegativeFields(m))| < TWO63
    modifies a
    ensures Wrote(a, end, i, EncFields(NegativeFields(m)), tail)
  {
    ghost var spans, deltas, counts := Repeat(8, EncSpan, m.negativeSpans), OptZigs(9, m.negativeDeltas), OptFixeds(10, m.negativeCounts);
    ghost var rest := PositiveFields(m);
    TwoParts(counts, rest, tail);
    TwoParts(deltas, counts + rest, tail);
    TwoParts(spans, deltas + (counts + rest), tail);
    InnerFits(9, [], m.negativeDeltas, []);
    InnerFits(10, [], [], m.negativeCounts);
    i := MarshalPositive(a, end, m, tail);
    i := WriteFixeds(a, i, 10, m.negativeCounts, EncFields(rest) + tail);
    i := WriteZigs(a, i, 9, m.negativeDeltas, EncFields(counts + rest) + tail);
    i := MarshalSpans(a, i, 8, m.negativeSpans, EncFields(deltas + (counts + rest)) + tail);
  }

  method PrependExemplar(a: array<Byte>, end: nat, mid: nat, num: nat, x: Exemplar, ghost more: Bytes, ghost tail: Bytes)
    returns (i: nat)
    requires num <= 16 && |EncExemplar(x)| <= |EncField(BytesField(num, EncExemplar(x)))| && |EncField(BytesField(num, EncExemplar(x))) + more| <= end
    requires |EncExemplar(x)| < TWO63 && Wrote(a, end, mid, more, tail)
    modifies a
    ensures Wrote(a, end, i, EncField(BytesField(num, EncExemplar(x))) + more, tail)
  {
    ghost var bytes := EncExemplar(x);
    var j := MarshalExemplar(a, mid, x, more + tail);
    i := CloseElement(a, end, mid, j, num, bytes, more, EncField(BytesField(num, bytes)) + more, tail);
  }

  method MarshalHistogram(a: array<Byte>, end: nat, m: Histogram, ghost tail: Bytes) returns (i: nat)
    requires |EncHistogram(m)| <= end <= a.Length && a[end..] == tail && |EncHistogram(m)| < TWO63
    modifies a
    ensures Wrote(a, end, i, EncHistogram(m), tail)
  {
    ghost var last, rest := m.unknown + tail, NegativeFields(m);
    ghost var f1, f3, f4 := OptCount(1, 2, m.count), OptFixed(3, m.sum), OptVarint(4, Zig32(m.schema));
    ghost var f5, f6 := OptFixed(5, m.zeroThreshold), OptCount(6, 7, m.zeroCount);
    TwoParts(f6, rest, last);
    TwoParts(f5, f6 + rest, last);
    TwoParts(f4, f5 + (f6 + rest), last);
    TwoParts(f3, f4 + (f5 + (f6 + rest)), last);
    TwoParts(f1, f3 + (f4 + (f5 + (f6 + rest))), last);
    Assoc(EncFields(HistogramFields(m)), m.unknown, tail);
    i := Copy(a, end, m.unknown, tail);
    i := MarshalNegative(a, i, m, last);
    i := WriteCount(a, i, 6, 7, m.zeroCount, EncFields(rest) + last);
    i := WriteFixed(a, i, 5, m.zeroThreshold, EncFields(f6 + rest) + last);
    i := WriteVarint(a, i, 4, Zig32(m.schema), EncFields(f5 + (f6 + rest)) + last);
    i := WriteFixed(a, i, 3, m.sum, EncFields(f4 + (f5 + (f6 + rest))) + last);
    i := WriteCount(a, i, 1, 2, m.count, EncFields(f3 + (f4 + (f5 + (f6 + rest)))) + last);
  }

  method PrependHistogram(a: array<Byte>, end: nat, mid: nat, num: nat, x: Histogram, ghost more: Bytes, ghost tail: Bytes)
    returns (i: nat)
    requires num <= 16 && |EncHistogram(x)| <= |EncField(BytesField(num, EncHistogram(x)))| && |EncField(BytesField(num, EncHistogram(x))) + more| <= end
    requires |EncHistogram(x)| < TWO63 && Wrote(a, end, mid, more, tail)
    modifies a
    ensures Wrote(a, end, i, EncField(BytesField(num, EncHistogram(x))) + more, tail)
  {
    ghost var bytes := EncHistogram(x);
    var j := MarshalHistogram(a, mid, x, more + tail);
    i := CloseElement(a, end, mid, j, num, bytes, more, EncField(BytesField(num, bytes)) + more, tail);
  }

  method MarshalExemplars(a: array<Byte>, end: nat, num: nat, xs: seq<Exemplar>, ghost tail: Bytes) returns (i: nat)
    requires num <= 16 && |EncFields(Repeat(num, EncExemplar, xs))| <= end <= a.Length && a[end..] == tail
    requires |EncFields(Repeat(num, EncExemplar, xs))| < TWO63
    modifies a
    ensures Wrote(a, end, i, EncFields(Repeat(num, EncExemplar, xs)), tail)
  {
    i := end;
    var k := |xs|;
    while k > 0
      invariant 0 <= k <= |xs| && Wrote(a, end, i, EncFields(Repeat(num, EncExemplar, xs[k..])), tail)
    {
      k := k - 1;
      RepeatSuffix(num, EncExemplar, xs, k);
      i := PrependExemplar(a, end, i, num, xs[k], EncFields(Repeat(num, EncExemplar, xs[k + 1..])), tail);
    }
    assert xs[0..] == xs;
  }

  method MarshalHistograms(a: array<Byte>, end: nat, num: nat, xs: seq<Histogram>, ghost tail: Bytes) returns (i: nat)
    requires num <= 16 && |EncFields(Repeat(num, EncHistogram, xs))| <= end <= a.Length && a[end..] == tail
    requires |EncFields(Repeat(num, EncHistogram, xs))| < TWO63
    modifies a
    ensures Wrote(a, end, i, EncFields(Repeat(num, EncHistogram, xs)), tail)
  {
    i := end;
    var k := |xs|;
    while k > 0
      invariant 0 <= k <= |xs| && Wrote(a, end, i, EncFields(Repeat(num, EncHistogram, xs[k..])), tail)
    {
      k := k - 1;
      RepeatSuffix(num, EncHistogram, xs, k);
      i := PrependHistogram(a, end, i, num, xs[k], EncFields(Repeat(num, EncHistogram, xs[k + 1..])), tail);
    }
    assert xs[0..] == xs;
  }

  method PrependSeries(a: array<Byte>, end: nat, mid: nat, num: nat, x: TimeSeries, ghost more: Bytes, ghost tail: Bytes)
    returns (i: nat)
    requires num <= 16 && |EncSeries(x)| <= |EncField(BytesField(num, EncSeries(x)))| && |EncField(BytesField(num, EncSeries(x))) + more| <= end
    requires |EncSeries(x)| < TWO63 && Wrote(a, end, mid, more, tail)
    modifies a
    ensures Wrote(a, end, i, EncField(BytesField(num, EncSeries(x))) + more, tail)
  {
    ghost var bytes := EncSeries(x);
    var j := MarshalSeries(a, mid, x, more + tail);
    i := CloseElement(a, end, mid, j, num, bytes, more, EncField(BytesField(num, bytes)) + more, tail);
  }

  method MarshalSeries(a: array<Byte>, end: nat, m: TimeSeries, ghost tail: Bytes) returns (i: nat)
    requires |EncSeries(m)| <= end <= a.Length && a[end..] == tail && |EncSeries(m)| < TWO63
    modifies a
    ensures Wrote(a, end, i, EncSeries(m), tail)
  {
    ghost var last := m.unknown + tail;
    ghost var f1, f2 := Repeat(1, EncLabel, m.labels), Repeat(2, EncSample, m.samples);
    ghost var f3, f4 := Repeat(3, EncExemplar, m.exemplars), Repeat(4, EncHistogram, m.histograms);
    TwoParts(f3, f4, last);
    TwoParts(f2, f3 + f4, last);
    TwoParts(f1, f2 + (f3 + f4), last);
    Assoc(EncFields(SeriesFields(m)), m.unknown, tail);
    i := Copy(a, end, m.unknown, tail);
    i := MarshalHistograms(a, i, 4, m.histograms, last);
    i := MarshalExemplars(a, i, 3, m.exemplars, EncFields(f4) + last);
    i := MarshalSamples(a, i, 2, m.samples, EncFields(f3 + f4) + last);
    i := MarshalLabels(a, i, 1, m.labels, EncFields(f2 + (f3 + f4)) + last);
  }

  method PrependMetadata(a: array<Byte>, end: nat, mid: nat, num: nat, x: MetricMetadata, ghost more: Bytes, ghost tail: Bytes)
    returns (i: nat)
    requires num <= 16 && |EncMetadata(x)| <= |EncField(BytesField(num, EncMetadata(x)))| && |EncField(BytesField(num, EncMetadata(x))) + more| <= end
    requires |EncMetadata(x)| < TWO63 && Wrote(a, end, mid, more, tail)
    modifies a
    ensures Wrote(a, end, i, EncField(BytesField(num, EncMetadata(x))) + more, tail)
  {
    ghost var bytes := EncMetadata(x);
    var j := MarshalMetadata(a, mid, x, more + tail);
    i := CloseElement(a, end, mid, j, num, bytes, more, EncField(BytesField(num, bytes)) + more, tail);
  }

  method MarshalAllSeries(a: array<Byte>, end: nat, num: nat, xs: seq<TimeSeries>, ghost tail: Bytes) returns (i: nat)
    requires num <= 16 && |EncFields(Repeat(num, EncSeries, xs))| <= end <= a.Length && a[end..] == tail
    requires |EncFields(Repeat(num, EncSeries, xs))| < TWO63
    modifies a
    ensures Wrote(a, end, i, EncFields(Repeat(num, EncSeries, xs)), tail)
  {
    i := end;
    var k := |xs|;
    while k > 0
      invariant 0 <= k <= |xs| && Wrote(a, end, i, EncFields(Repeat(num, EncSeries, xs[k..])), tail)
    {
      k := k - 1;
      RepeatSuffix(num, EncSeries, xs, k);
      i := PrependSeries(a, end, i, num, xs[k], EncFields(Repeat(num, EncSeries, xs[k + 1..])), tail);
    }
    assert xs[0..] == xs;
  }

  method MarshalAllMetadata(a: array<Byte>, end: nat, num: nat, xs: seq<MetricMetadata>, ghost tail: Bytes) returns (i: nat)
    requires num <= 16 && |EncFields(Repeat(num, EncMetadata, xs))| <= end <= a.Length && a[end..] == tail
    requires |EncFields(Repeat(num, EncMetadata, xs))| < TWO63
    modifies a
    ensures Wrote(a, end, i, EncFields(Repeat(num, EncMetadata, xs)), tail)
  {
    i := end;
    var k := |xs|;
    while k > 0
      invariant 0 <= k <= |xs| && Wrote(a, end, i, EncFields(Repeat(num, EncMetadata, xs[k..])), tail)
    {
      k := k - 1;
      RepeatSuffix(num, EncMetadata, xs, k);
      i := PrependMetadata(a, end, i, num, xs[k], EncFields(Repeat(num, EncMetadata, xs[k + 1..])), tail);
    }
    assert xs[0..] == xs;
  }

  method MarshalRequest(a: array<Byte>, end: nat, m: WriteRequest, ghost tail: Bytes) returns (i: nat)
    requires |EncRequest(m)| <= end <= a.Length && a[end..] == tail && |EncRequest(m)| < TWO63
    modifies a
    ensures Wrote(a, end, i, EncRequest(m), tail)
  {
    ghost var last := m.unknown + tail;
    TwoParts(Repeat(1, EncSeries, m.timeseries), Repeat(3, EncMetadata, m.metadata), last);
    Assoc(EncFields(RequestFields(m)), m.unknown, tail);
    i := Copy(a, end, m.unknown, tail);
    i := MarshalAllMetadata(a, i, 3, m.metadata, last);
    i := MarshalAllSeries(a, i, 1, m.timeseries, EncFields(Repeat(3, EncMetadata, m.metadata)) + last);
  }

  // ---------------------------------------------------------------- sizes

  function SizeBytes(l: nat): nat {
    if l > 0 then 1 + l + Sov(l) else 0
  }

  function SizeVarint(isSet: bool, sov: nat): nat {
    if isSet then 1 + sov else 0
  }

  function SizeFixed(bits: U64): nat {
    if IsZero(bits) then 0 else 9
  }

  function SizeLabel(m: Label): nat {
    SizeBytes(|m.name|) + SizeBytes(|m.value|) + |m.unknown|
  }

  function SizeSample(m: Sample): nat {
    SizeFixed(m.value) + SizeVarint(m.timestamp != 0, Sov(FromI64(m.timestamp))) + |m.unknown|
  }

  /** Elements of a repeated message field. */
  function SizeAll<T>(size: T -> nat, xs: seq<T>): nat {
    if |xs| == 0 then 0 else 1 + size(xs[0]) + Sov(size(xs[0])) + SizeAll(size, xs[1..])
  }

  function SizeExemplar(m: Exemplar): nat {
    SizeAll(SizeLabel, m.labels) + SizeFixed(m.value) + SizeVarint(m.timestamp != 0, Sov(FromI64(m.timestamp))) + |m.unknown|
  }

  /** The offset is zigzagged in 64 bits here, and in 32 bits where it is written. */
  function SizeSpan(m: BucketSpan): nat {
    SizeVarint(m.offset != 0, Soz(m.offset)) + SizeVarint(m.length != 0, Sov(m.length)) + |m.unknown|
  }

  function SumSoz(ds: seq<I64>): nat {
    if |ds| == 0 then 0 else Soz(ds[0]) + SumSoz(ds[1..])
  }

  function SizeZigs(ds: seq<I64>): nat {
    if |ds| == 0 then 0 else 1 + Sov(SumSoz(ds)) + SumSoz(ds)
  }

  function SizeFixeds(tag: nat, fs: seq<U64>): nat {
    if |fs| == 0 then 0 else tag + Sov(8 * |fs|) + 8 * |fs|
  }

  function SizeCount(c: Count): nat {
    match c
    case NoCount => 0
    case IntCount(n) => 1 + Sov(n)
    case FloatCount(_) => 9
  }

  function SizeHistogram(m: Histogram): nat {
    SizeCount(m.count) + SizeFixed(m.sum) + SizeVarint(m.schema != 0, Soz(m.schema)) + SizeFixed(m.zeroThreshold)
    + SizeCount(m.zeroCount)
    + (SizeAll(SizeSpan, m.negativeSpans) + SizeZigs(m.negativeDeltas) + SizeFixeds(1, m.negativeCounts))
    + (SizeAll(SizeSpan, m.positiveSpans) + SizeZigs(m.positiveDeltas) + SizeFixeds(1, m.positiveCounts))
    + (SizeVarint(m.resetHint != 0, Sov(FromI64(m.resetHint))) + SizeVarint(m.timestamp != 0, Sov(FromI64(m.timestamp)))
       + SizeFixeds(2, m.customValues))
    + |m.unknown|
  }

  function SizeSeries(m: TimeSeries): nat {
    SizeAll(SizeLabel, m.labels) + SizeAll(SizeSample, m.samples) + SizeAll(SizeExemplar, m.exemplars)
    + SizeAll(SizeHistogram, m.histograms) + |m.unknown|
  }

  function SizeMetadata(m: MetricMetadata): nat {
    SizeVarint(m.kind != 0, Sov(FromI64(m.kind))) + SizeBytes(|m.name|) + SizeBytes(|m.help|) + SizeBytes(|m.metricUnit|)
    + |m.unknown|
  }

  function SizeRequest(m: WriteRequest): nat {
    SizeAll(SizeSeries, m.timeseries) + SizeAll(SizeMetadata, m.metadata) + |m.unknown|
  }

  // ---------------------------------------------------------------- sizes are exact

  lemma TagSize(num: nat, wireType: nat)
    requires num <= 16 && wireType <= 2
    ensures |EncVarint(8 * num + wireType)| == if num <= 15 then 1 else 2
  {
    TagBytes(num, wireType);
  }

  lemma BytesSize(num: nat, b: Bytes)
    requires num <= 15
    ensures |EncFields(OptBytes(num, b))| == SizeBytes(|b|)
    ensures |EncField(BytesField(num, b))| == 1 + |b| + Sov(|b|)
  {
    OneField(BytesField(num, b));
    TagSize(num, 2);
    SovIsLength(|b|);
  }

  lemma VarintSize(num: nat, v: U64, isSet: bool)
    requires num <= 15 && (isSet <==> v != 0)
    ensures |EncFields(OptVarint(num, v))| == SizeVarint(isSet, Sov(v))
  {
    OneField(VarintField(num, v));
    TagSize(num, 0);
    SovIsLength(v);
  }

  lemma FixedSize(num: nat, bits: U64)
    requires num <= 15
    ensures |EncFields(OptFixed(num, bits))| == SizeFixed(bits)
  {
    OneField(FixedField(num, bits));
    TagSize(num, 1);
  }

  lemma ZigSize(num: nat, x: I32)
    requires num <= 15
    ensures |EncFields(OptVarint(num, Zig32(x)))| == SizeVarint(x != 0, Soz(x))
  {
    NumbersReadBack(0, x);
    ZigZagWidths(x);
    SovIsLength(Zig32(x));
    VarintSize(num, Zig32(x), x != 0);
  }

  lemma CountSize(intNum: nat, floatNum: nat, c: Count)
    requires intNum <= 15 && floatNum <= 15
    ensures |EncFields(OptCount(intNum, floatNum, c))| == SizeCount(c)
  {
    TagSize(intNum, 0);
    TagSize(floatNum, 1);
    match c
    case NoCount =>
    case IntCount(n) =>
      OneField(VarintField(intNum, n));
      SovIsLength(n);
    case FloatCount(f) =>
      OneField(FixedField(floatNum, f));
  }

  lemma {:induction false} ZigsSize(ds: seq<I64>)
    ensures |EncVarints(Zigs(ds))| == SumSoz(ds)
    decreases |ds|
  {
    if |ds| > 0 {
      ZigsSize(ds[1..]);
      SovIsLength(Zig64(ds[0]));
      assert Zigs(ds)[1..] == Zigs(ds[1..]);
    }
  }

  lemma PackedZigsSize(num: nat, ds: seq<I64>)
    requires num <= 15
    ensures |EncFields(OptZigs(num, ds))| == SizeZigs(ds)
  {
    ZigsSize(ds);
    OneField(PackedVarints(num, Zigs(ds)));
    TagSize(num, 2);
    SovIsLength(SumSoz(ds));
  }

  lemma PackedFixedSize(num: nat, fs: seq<U64>)
    requires num <= 16
    ensures |EncFields(OptFixeds(num, fs))| == SizeFixeds(if num <= 15 then 1 else 2, fs)
  {
    OneField(PackedFixed(num, fs));
    TagSize(num, 2);
    SovIsLength(8 * |fs|);
  }

  lemma {:induction false} RepeatSize<T>(num: nat, enc: T -> Bytes, size: T -> nat, xs: seq<T>)
    requires num <= 15 && forall i :: 0 <= i < |xs| ==> size(xs[i]) == |enc(xs[i])|
    ensures |EncFields(Repeat(num, enc, xs))| == SizeAll(size, xs)
    decreases |xs|
  {
    if |xs| > 0 {
      BytesSize(num, enc(xs[0]));
      RepeatSize(num, enc, size, xs[1..]);
      assert Repeat(num, enc, xs)[1..] == Repeat(num, enc, xs[1..]);
    }
  }

  lemma LabelSize(m: Label)
    ensures SizeLabel(m) == |EncLabel(m)|
  {
    TwoParts(OptBytes(1, m.name), OptBytes(2, m.value), []);
    BytesSize(1, m.name);
    BytesSize(2, m.value);
  }

  lemma SampleSize(m: Sample)
    ensures SizeSample(m) == |EncSample(m)|
  {
    var ts := FromI64(m.timestamp);
    TwoParts(OptFixed(1, m.value), OptVarint(2, ts), []);
    FixedSize(1, m.value);
    VarintSize(2, ts, m.timestamp != 0);
  }

  lemma SpanSize(m: BucketSpan)
    ensures SizeSpan(m) == |EncSpan(m)|
  {
    TwoParts(OptVarint(1, Zig32(m.offset)), OptVarint(2, m.length), []);
    ZigSize(1, m.offset);
    VarintSize(2, m.length, m.length != 0);
  }

  lemma LabelsSize(num: nat, xs: seq<Label>)
    requires num <= 15
    ensures |EncFields(Repeat(num, EncLabel, xs))| == SizeAll(SizeLabel, xs)
  {
    forall i | 0 <= i < |xs| ensures SizeLabel(xs[i]) == |EncLabel(xs[i])| {
      LabelSize(xs[i]);
    }
    RepeatSize(num, EncLabel, SizeLabel, xs);
  }

  lemma SpansSize(num: nat, xs: seq<BucketSpan>)
    requires num <= 15
    ensures |EncFields(Repeat(num, EncSpan, xs))| == SizeAll(SizeSpan, xs)
  {
    forall i | 0 <= i < |xs| ensures SizeSpan(xs[i]) == |EncSpan(xs[i])| {
      SpanSize(xs[i]);
    }
    RepeatSize(num, EncSpan, SizeSpan, xs);
  }

  lemma ExemplarSize(m: Exemplar)
    ensures SizeExemplar(m) == |EncExemplar(m)|
  {
    var f1, f2, ts := Repeat(1, EncLabel, m.labels), OptFixed(2, m.value), FromI64(m.timestamp);
    TwoParts(f2, OptVarint(3, ts), []);
    TwoParts(f1, f2 + OptVarint(3, ts), []);
    LabelsSize(1, m.labels);
    FixedSize(2, m.value);
    VarintSize(3, ts, m.timestamp != 0);
  }

  lemma LastSize(m: Histogram)
    ensures |EncFields(LastFields(m))| ==
      SizeVarint(m.resetHint != 0, Sov(FromI64(m.resetHint))) + SizeVarint(m.timestamp != 0, Sov(FromI64(m.timestamp)))
      + SizeFixeds(2, m.customValues)
  {
    var hint, ts, values := FromI64(m.resetHint), FromI64(m.timestamp), OptFixeds(16, m.customValues);
    TwoParts(OptVarint(15, ts), values, []);
    TwoParts(OptVarint(14, hint), OptVarint(15, ts) + values, []);
    VarintSize(14, hint, m.resetHint != 0);
    VarintSize(15, ts, m.timestamp != 0);
    PackedFixedSize(16, m.customValues);
  }

  lemma BucketsSize(m: Histogram)
    ensures |EncFields(PositiveFields(m))| == |EncFields(LastFields(m))|
      + (SizeAll(SizeSpan, m.positiveSpans) + SizeZigs(m.positiveDeltas) + SizeFixeds(1, m.positiveCounts))
    ensures |EncFields(NegativeFields(m))| == |EncFields(PositiveFields(m))|
      + (SizeAll(SizeSpan, m.negativeSpans) + SizeZigs(m.negativeDeltas) + SizeFixeds(1, m.negativeCounts))
  {
    BucketSize(11, m.positiveSpans, m.positiveDeltas, m.positiveCounts, LastFields(m));
    BucketSize(8, m.negativeSpans, m.negativeDeltas, m.negativeCounts, PositiveFields(m));
  }

  lemma FourParts(a: seq<Field>, b: seq<Field>, c: seq<Field>, d: seq<Field>)
    ensures |EncFields(a + (b + (c + d)))| == |EncFields(a)| + |EncFields(b)| + |EncFields(c)| + |EncFields(d)|
  {
    EncFieldsJoin(c, d);
    EncFieldsJoin(b, c + d);
    EncFieldsJoin(a, b + (c + d));
  }

  lemma BucketSize(num: nat, spans: seq<BucketSpan>, deltas: seq<I64>, counts: seq<U64>, rest: seq<Field>)
    requires num <= 13
    ensures |EncFields(Repeat(num, EncSpan, spans) + (OptZigs(num + 1, deltas) + (OptFixeds(num + 2, counts) + rest)))|
      == SizeAll(SizeSpan, spans) + SizeZigs(deltas) + SizeFixeds(1, counts) + |EncFields(rest)|
  {
    FourParts(Repeat(num, EncSpan, spans), OptZigs(num + 1, deltas), OptFixeds(num + 2, counts), rest);
    SpansSize(num, spans);
    PackedZigsSize(num + 1, deltas);
    PackedFixedSize(num + 2, counts);
  }

  lemma HistogramSize(m: Histogram)
    ensures SizeHistogram(m) == |EncHistogram(m)|
  {
    var rest := NegativeFields(m);
    var f1, f3, f4 := OptCount(1, 2, m.count), OptFixed(3, m.sum), OptVarint(4, Zig32(m.schema));
    var f5, f6 := OptFixed(5, m.zeroThreshold), OptCount(6, 7, m.zeroCount);
    TwoParts(f6, rest, []);
    TwoParts(f5, f6 + rest, []);
    TwoParts(f4, f5 + (f6 + rest), []);
    TwoParts(f3, f4 + (f5 + (f6 + rest)), []);
    TwoParts(f1, f3 + (f4 + (f5 + (f6 + rest))), []);
    CountSize(1, 2, m.count);
    FixedSize(3, m.sum);
    ZigSize(4, m.schema);
    FixedSize(5, m.zeroThreshold);
    CountSize(6, 7, m.zeroCount);
    LastSize(m);
    BucketsSize(m);
  }

  lemma SamplesSize(num: nat, xs: seq<Sample>)
    requires num <= 15
    ensures |EncFields(Repeat(num, EncSample, xs))| == SizeAll(SizeSample, xs)
  {
    forall i | 0 <= i < |xs| ensures SizeSample(xs[i]) == |EncSample(xs[i])| {
      SampleSize(xs[i]);
    }
    RepeatSize(num, EncSample, SizeSample, xs);
  }

  lemma ExemplarsSize(num: nat, xs: seq<Exemplar>)
    requires num <= 15
    ensures |EncFields(Repeat(num, EncExemplar, xs))| == SizeAll(SizeExemplar, xs)
  {
    forall i | 0 <= i < |xs| ensures SizeExemplar(xs[i]) == |EncExemplar(xs[i])| {
      ExemplarSize(xs[i]);
    }
    RepeatSize(num, EncExemplar, SizeExemplar, xs);
  }

  lemma HistogramsSize(num: nat, xs: seq<Histogram>)
    requires num <= 15
    ensures |EncFields(Repeat(num, EncHistogram, xs))| == SizeAll(SizeHistogram, xs)
  {
    forall i | 0 <= i < |xs| ensures SizeHistogram(xs[i]) == |EncHistogram(xs[i])| {
      HistogramSize(xs[i]);
    }
    RepeatSize(num, EncHistogram, SizeHistogram, xs);
  }

  lemma SeriesSize(m: TimeSeries)
    ensures SizeSeries(m) == |EncSeries(m)|
  {
    var f1, f2 := Repeat(1, EncLabel, m.labels), Repeat(2, EncSample, m.samples);
    var f3, f4 := Repeat(3, EncExemplar, m.exemplars), Repeat(4, EncHistogram, m.histograms);
    TwoParts(f3, f4, []);
    TwoParts(f2, f3 + f4, []);
    TwoParts(f1, f2 + (f3 + f4), []);
    LabelsSize(1, m.labels);
    SamplesSize(2, m.samples);
    ExemplarsSize(3, m.exemplars);
    HistogramsSize(4, m.histograms);
  }

  lemma MetadataSize(m: MetricMetadata)
    ensures SizeMetadata(m) == |EncMetadata(m)|
  {
    var f2, f4, f5 := OptBytes(2, m.name), OptBytes(4, m.help), OptBytes(5, m.metricUnit);
    TwoParts(f4, f5, []);
    TwoParts(f2, f4 + f5, []);
    TwoParts(OptVarint(1, FromI64(m.kind)), f2 + (f4 + f5), []);
    VarintSize(1, FromI64(m.kind), m.kind != 0);
    BytesSize(2, m.name);
    BytesSize(4, m.help);
    BytesSize(5, m.metricUnit);
  }

  /** The size computed beforehand is the length of the encoding. */
  lemma RequestSize(m: WriteRequest)
    ensures SizeRequest(m) == |EncRequest(m)|
  {
    TwoParts(Repeat(1, EncSeries, m.timeseries), Repeat(3, EncMetadata, m.metadata), []);
    forall x: TimeSeries ensures SizeSeries(x) == |EncSeries(x)| { SeriesSize(x); }
    forall x: MetricMetadata ensures SizeMetadata(x) == |EncMetadata(x)| { MetadataSize(x); }
    RepeatSize(1, EncSeries, SizeSeries, m.timeseries);
    RepeatSize(3, EncMetadata, SizeMetadata, m.metadata);
  }

  /** Marshalling fills a buffer of the computed size, all of it. */
  method Marshal(m: WriteRequest) returns (a: array<Byte>)
    requires SizeRequest(m) < TWO63
    ensures fresh(a) && a.Length == SizeRequest(m) && a[..] == EncRequest(m)
  {
    RequestSize(m);
    var size := SizeRequest(m);
    a := new Byte[size](_ => 0);
    var i := MarshalRequest(a, size, m, []);
    assert a[0..] == a[..] && EncRequest(m) + [] == EncRequest(m);
  }

  /** Marshalling a request and parsing the buffer gives the request back, up to the sign of zero. */
  method Transfer(m: WriteRequest) returns (r: Option<WriteRequest>)
    requires RequestOk(m)
    ensures r == Some(SameRequest(m))
  {
    RequestSize(m);
    RequestRoundTrip(m);
    var a := Marshal(m);
    r := Parser.UnmarshalRequest(a[..]);
  }
}
