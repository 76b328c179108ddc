/** The protobuf wire format: varints, zigzag integers, fixed 64-bit values, length-delimited and packed
    fields, and the skipping of unknown fields.

    Encoders are functions to byte sequences; parsers take what is left of the input and say how many
    bytes they used. */
module Wire {
  import opened Basics

  type Byte = x: int | 0 <= x < 256

  type Bytes = seq<Byte>

  const TWO31 := 0x8000_0000
  const TWO32 := 0x1_0000_0000
  const TWO63 := 0x8000_0000_0000_0000
  const TWO64 := 0x1_0000_0000_0000_0000

  type U32 = x: int | 0 <= x < 0x1_0000_0000
  type U64 = x: int | 0 <= x < 0x1_0000_0000_0000_0000
  type I32 = x: int | -0x8000_0000 <= x < 0x8000_0000
  type I64 = x: int | -0x8000_0000_0000_0000 <= x < 0x8000_0000_0000_0000

  // ---------------------------------------------------------------- varints

  function EncVarint(v: nat): (r: Bytes)
    ensures |r| > 0
  {
    if v < 128 then [v] else [128 + v % 128] + EncVarint(v / 128)
  }

  /** A parsed value and the number of bytes it took. */
  datatype Got<T> = Got(v: T, n: nat)

  /** Groups of seven bits, least significant first, from index k up to the first byte below 128. */
  function Varint(s: Bytes, k: nat): (r: Option<Got<nat>>)
    ensures r.Some? ==> k < r.value.n <= |s|
    decreases |s| - k
  {
    if k >= |s| then None
    else if s[k] < 128 then Some(Got(s[k], k + 1))
    else
      var more := Varint(s, k + 1);
      if more.None? then None else Some(Got(s[k] - 128 + 128 * more.value.v, more.value.n))
  }

  /** The groups are collected in a 64-bit variable, and there can be ten. */
  function ReadVarint(s: Bytes): (r: Option<Got<U64>>)
    ensures r.Some? ==> 0 < r.value.n <= |s|
  {
    var g := Varint(s, 0);
    if g.None? || g.value.n > 10 then None else Some(Got(g.value.v % TWO64, g.value.n))
  }

  lemma {:induction false} VarintRoundTrip(s: Bytes, k: nat, v: nat)
    requires k + |EncVarint(v)| <= |s| && s[k..k + |EncVarint(v)|] == EncVarint(v)
    ensures Varint(s, k) == Some(Got(v, k + |EncVarint(v)|))
    decreases v
  {
    var e := EncVarint(v);
    assert s[k] == s[k..k + |e|][0] == e[0];
    if v >= 128 {
      assert s[k + 1..k + |e|] == s[k..k + |e|][1..] == EncVarint(v / 128);
      VarintRoundTrip(s, k + 1, v / 128);
    }
  }

  function Cap(n: nat): nat {
    if n == 0 then 1 else 128 * Cap(n - 1)
  }

  lemma {:induction false} VarintLength(v: nat, n: nat)
    requires n > 0 && v < Cap(n)
    ensures |EncVarint(v)| <= n
    decreases n
  {
    if v >= 128 {
      assert n > 1;
      VarintLength(v / 128, n - 1);
    }
  }

  lemma TenGroups()
    ensures TWO64 <= Cap(10)
  {
    assert Cap(5) == 128 * 128 * 128 * 128 * 128;
    assert Cap(10) == 128 * 128 * 128 * 128 * 128 * Cap(5);
  }

  lemma U64Length(v: U64)
    ensures 0 < |EncVarint(v)| <= 10
  {
    TenGroups();
    VarintLength(v, 10);
  }

  lemma VarintAtFront(s: Bytes, v: U64, n: nat)
    requires n <= 10 && Varint(s, 0) == Some(Got(v, n))
    ensures ReadVarint(s) == Some(Got(v, n))
  {
  }

  lemma TakePrefix(a: Bytes, b: Bytes)
    ensures (a + b)[0..|a|] == a
  {
  }

  /** Reading back a varint, whatever follows it. */
  lemma ReadEncoded(v: U64, rest: Bytes)
    ensures ReadVarint(EncVarint(v) + rest) == Some(Got(v, |EncVarint(v)|))
  {
    var e := EncVarint(v);
    U64Length(v);
    TakePrefix(e, rest);
    VarintRoundTrip(e + rest, 0, v);
    VarintAtFront(e + rest, v, |e|);
  }

  // ---------------------------------------------------------------- the size of a varint

  /** Number of bits up to the highest one that is set. */
  function BitLength(x: nat): nat {
    if x == 0 then 0 else 1 + BitLength(x / 2)
  }

  /** x | 1 */
  function SetLowBit(x: nat): nat {
    if x % 2 == 0 then x + 1 else x
  }

  function Sov(x: nat): nat {
    (BitLength(SetLowBit(x)) + 6) / 7
  }

  lemma BitLengthLowBit(x: nat)
    requires x > 0
    ensures BitLength(SetLowBit(x)) == BitLength(x)
  {
    assert SetLowBit(x) / 2 == x / 2;
  }

  lemma {:induction false} BitLengthSmall(x: nat, n: nat, p: nat)
    requires 0 < x < p && p == Pow2(n)
    ensures 1 <= BitLength(x) <= n
    decreases n
  {
    if x > 1 {
      assert n > 1;
      BitLengthSmall(x / 2, n - 1, p / 2);
    }
  }

  function Pow2(n: nat): nat {
    if n == 0 then 1 else 2 * Pow2(n - 1)
  }

  lemma SevenBits(x: nat)
    requires x >= 128
    ensures BitLength(x) == 7 + BitLength(x / 128)
  {
    var a := x / 2;
    var b := a / 2;
    var c := b / 2;
    var d := c / 2;
    var e := d / 2;
    var f := e / 2;
    assert BitLength(x) == 1 + BitLength(a) && BitLength(a) == 1 + BitLength(b) && BitLength(b) == 1 + BitLength(c);
    assert BitLength(c) == 1 + BitLength(d) && BitLength(d) == 1 + BitLength(e) && BitLength(e) == 1 + BitLength(f);
    assert f / 2 == x / 128;
  }

  /** The size computed from the bit length is the number of bytes written. */
  lemma {:induction false} SovIsLength(x: nat)
    ensures Sov(x) == |EncVarint(x)|
    decreases x
  {
    if x < 128 {
      assert Pow2(7) == 128;
      BitLengthSmall(SetLowBit(x), 7, 128);
    } else {
      BitLengthLowBit(x);
      SevenBits(x);
      SovIsLength(x / 128);
      BitLengthLowBit(x / 128);
    }
  }

  // ---------------------------------------------------------------- signed integers

  /** Two's complement: the pattern of a signed value, with modulus 2^32 or 2^64, and back. */
  function Pattern(x: int, modulus: nat): int {
    if x < 0 then x + modulus else x
  }

  function Signed(u: int, modulus: nat): int {
    if u >= modulus / 2 then u - modulus else u
  }

  /** u << 1, which loses the highest bit. */
  function Shift1(u: int, modulus: nat): int {
    if 2 * u >= modulus then 2 * u - modulus else 2 * u
  }

  /** (u << 1) ^ (x >> width-1), where the second operand is all ones or all zeros. */
  function ZigZag(x: int, modulus: nat): int {
    var shifted := Shift1(Pattern(x, modulus), modulus);
    if x < 0 then modulus - 1 - shifted else shifted
  }

  /** (v >> 1) ^ -(v & 1) */
  function UnZigZag(v: int, modulus: nat): int {
    Signed(if v % 2 == 1 then modulus - 1 - v / 2 else v / 2, modulus)
  }

  function Soz(x: I64): nat {
    Sov(ZigZag(x, TWO64))
  }

  lemma ZigZagValue(x: int, modulus: nat)
    requires modulus > 0 && modulus % 2 == 0 && 0 - modulus <= 2 * x < modulus
    ensures ZigZag(x, modulus) == if x < 0 then -2 * x - 1 else 2 * x
    ensures 0 <= ZigZag(x, modulus) < modulus && UnZigZag(ZigZag(x, modulus), modulus) == x
  {
  }

  /** The writer zigzags in 32 bits, the size calculation in 64: the same number of bytes. */
  lemma ZigZagWidths(x: I32)
    ensures ZigZag(x, TWO32) == ZigZag(x, TWO64) && Soz(x) == |EncVarint(ZigZag(x, TWO32))|
  {
    ZigZagValue(x, TWO32);
    ZigZagValue(x, TWO64);
    SovIsLength(ZigZag(x, TWO64));
  }

  // ---------------------------------------------------------------- fixed 64-bit values

  function LittleEndian(v: nat, n: nat): (r: Bytes)
    ensures |r| == n
  {
    if n == 0 then [] else [v % 256] + LittleEndian(v / 256, n - 1)
  }

  function FromLittleEndian(s: Bytes, n: nat): nat
    requires n <= |s|
  {
    if n == 0 then 0 else s[0] + 256 * FromLittleEndian(s[1..], n - 1)
  }

  function Cap256(n: nat): nat {
    if n == 0 then 1 else 256 * Cap256(n - 1)
  }

  lemma {:induction false} LittleEndianRoundTrip(v: nat, n: nat, rest: Bytes)
    requires v < Cap256(n)
    ensures FromLittleEndian(LittleEndian(v, n) + rest, n) == v
    decreases n
  {
    if n > 0 {
      LittleEndianRoundTrip(v / 256, n - 1, rest);
      assert (LittleEndian(v, n) + rest)[1..] == LittleEndian(v / 256, n - 1) + rest;
    }
  }

  lemma {:induction false} FromLittleEndianBound(s: Bytes, n: nat)
    requires n <= |s|
    ensures FromLittleEndian(s, n) < Cap256(n)
  {
    if n > 0 {
      FromLittleEndianBound(s[1..], n - 1);
    }
  }

  lemma EightBytes()
    ensures Cap256(8) == TWO64
  {
    assert Cap256(4) == 256 * 256 * 256 * 256;
    assert Cap256(8) == 256 * 256 * 256 * 256 * Cap256(4);
  }

  function EncFixed(v: U64): (r: Bytes)
    ensures |r| == 8
  {
    LittleEndian(v, 8)
  }

  function ReadFixed(s: Bytes): (r: Option<Got<U64>>)
    ensures r.Some? ==> r.value.n == 8 <= |s|
  {
    if |s| < 8 then None
    else
      FromLittleEndianBound(s, 8);
      EightBytes();
      Some(Got(FromLittleEndian(s, 8), 8))
  }

  lemma ReadFixedEncoded(v: U64, rest: Bytes)
    ensures ReadFixed(EncFixed(v) + rest) == Some(Got(v, 8))
  {
    EightBytes();
    LittleEndianRoundTrip(v, 8, rest);
  }

  // ---------------------------------------------------------------- fields

  datatype Kind = LabelKind | SampleKind | ExemplarKind | SpanKind | HistogramKind | SeriesKind | MetadataKind | RequestKind

  datatype Shape = VarintShape | FixedShape | BytesShape | PackedVarintShape | PackedFixedShape | Unknown

  /** The fields a message knows. */
  function ShapeOf(k: Kind, num: int): Shape {
    match k
    case LabelKind => if num == 1 || num == 2 then BytesShape else Unknown
    case SampleKind => if num == 1 then FixedShape else if num == 2 then VarintShape else Unknown
    case ExemplarKind =>
      if num == 1 then BytesShape else if num == 2 then FixedShape else if num == 3 then VarintShape else Unknown
    case SpanKind => if num == 1 || num == 2 then VarintShape else Unknown
    case HistogramKind =>
      if num == 1 || num == 4 || num == 6 || num == 14 || num == 15 then VarintShape
      else if num == 2 || num == 3 || num == 5 || num == 7 then FixedShape
      else if num == 8 || num == 11 then BytesShape
      else if num == 9 || num == 12 then PackedVarintShape
      else if num == 10 || num == 13 || num == 16 then PackedFixedShape
      else Unknown
    case SeriesKind => if 1 <= num <= 4 then BytesShape else Unknown
    case MetadataKind =>
      if num == 1 then VarintShape else if num == 2 || num == 4 || num == 5 then BytesShape else Unknown
    case RequestKind => if num == 1 || num == 3 then BytesShape else Unknown
  }

  /** A field as it is on the wire; raw is a whole unknown field, tag included. */
  datatype Field =
    | VarintField(num: nat, v: U64)
    | FixedField(num: nat, bits: U64)
    | BytesField(num: nat, bytes: Bytes)
    | PackedVarints(num: nat, vs: seq<U64>)
    | PackedFixed(num: nat, fs: seq<U64>)
    | Raw(raw: Bytes)

  function EncVarints(vs: seq<U64>): Bytes {
    if |vs| == 0 then [] else EncVarint(vs[0]) + EncVarints(vs[1..])
  }

  function EncFixeds(vs: seq<U64>): (r: Bytes)
    ensures |r| == 8 * |vs|
  {
    if |vs| == 0 then [] else EncFixed(vs[0]) + EncFixeds(vs[1..])
  }

  function EncBytes(b: Bytes): Bytes {
    EncVarint(|b|) + b
  }

  function WireType(f: Field): nat {
    match f
    case VarintField(_, _) => 0
    case FixedField(_, _) => 1
    case _ => 2
  }

  function Payload(f: Field): Bytes {
    match f
    case VarintField(_, v) => EncVarint(v)
    case FixedField(_, bits) => EncFixed(bits)
    case BytesField(_, bytes) => EncBytes(bytes)
    case PackedVarints(_, vs) => EncBytes(EncVarints(vs))
    case PackedFixed(_, fs) => EncBytes(EncFixeds(fs))
    case Raw(raw) => raw
  }

  function EncField(f: Field): Bytes {
    if f.Raw? then f.raw else EncVarint(8 * f.num + WireType(f)) + Payload(f)
  }

  function EncFields(fs: seq<Field>): Bytes {
    if |fs| == 0 then [] else EncField(fs[0]) + EncFields(fs[1..])
  }

  // ---------------------------------------------------------------- parsing

  /** End of the unknown field that starts at i, with depth groups open; it may lie past the input. */
  function Skip(s: Bytes, i: nat, depth: nat): (r: Option<nat>)
    ensures r.Some? ==> r.value > i
    decreases |s| - i
  {
    if i >= |s| then None
    else
      var tag := ReadVarint(s[i..]);
      if tag.None? then None
      else
        var j := i + tag.value.n;
        var end := SkipPayload(s, j, tag.value.v % 8);
        if end.None? || (tag.value.v % 8 == 4 && depth == 0) then None
        else
          var left := if tag.value.v % 8 == 3 then depth + 1 else if tag.value.v % 8 == 4 then depth - 1 else depth;
          if left == 0 then end else Skip(s, end.value, left)
  }

  function SkipPayload(s: Bytes, j: nat, wireType: int): (r: Option<nat>)
    requires j <= |s|
    ensures r.Some? ==> r.value >= j
  {
    if wireType == 0 then
      var g := ReadVarint(s[j..]);
      if g.None? then None else Some(j + g.value.n)
    else if wireType == 1 then Some(j + 8)
    else if wireType == 2 then
      var g := ReadVarint(s[j..]);
      if g.None? || g.value.v >= TWO63 then None else Some(j + g.value.n + g.value.v)
    else if wireType == 3 || wireType == 4 then Some(j)
    else if wireType == 5 then Some(j + 4)
    else None
  }

  /** Elements are appended to vs, which took n bytes, until length bytes are used up; the last one may
      use more. */
  function ReadVarints(s: Bytes, length: int, vs: seq<U64>, n: nat): (r: Option<Got<seq<U64>>>)
    ensures r.Some? ==> r.value.n <= n + |s|
    decreases |s|
  {
    if length <= 0 then Some(Got(vs, n))
    else
      var g := ReadVarint(s);
      if g.None? then None
      else ReadVarints(s[g.value.n..], length - g.value.n, vs + [g.value.v], n + g.value.n)
  }

  function ReadFixeds(s: Bytes, length: int, vs: seq<U64>, n: nat): (r: Option<Got<seq<U64>>>)
    ensures r.Some? ==> r.value.n <= n + |s|
    decreases |s|
  {
    if length <= 0 then Some(Got(vs, n))
    else
      var g := ReadFixed(s);
      if g.None? then None
      else ReadFixeds(s[8..], length - 8, vs + [g.value.v], n + 8)
  }

  /** A length that fits what is left. */
  function ReadLength(s: Bytes): (r: Option<Got<nat>>)
    ensures r.Some? ==> r.value.n + r.value.v <= |s|
  {
    var g := ReadVarint(s);
    if g.None? || g.value.v >= TWO63 || g.value.n + g.value.v > |s| then None else Some(Got(g.value.v, g.value.n))
  }

  function ReadDelimited(shape: Shape, num: nat, s: Bytes): (r: Option<Got<Field>>)
    ensures r.Some? ==> r.value.n <= |s|
  {
    var length := ReadLength(s);
    if length.None? then None
    else if shape.BytesShape? then
      Some(Got(BytesField(num, s[length.value.n..][..length.value.v]), length.value.n + length.value.v))
    else if shape.PackedVarintShape? then
      var g := ReadVarints(s[length.value.n..], length.value.v, [], length.value.n);
      if g.None? then None else Some(Got(PackedVarints(num, g.value.v), g.value.n))
    else if shape.PackedFixedShape? then
      var g := ReadFixeds(s[length.value.n..], length.value.v, [], length.value.n);
      if g.None? then None else Some(Got(PackedFixed(num, g.value.v), g.value.n))
    else None
  }

  function ReadPayload(shape: Shape, num: nat, wireType: int, s: Bytes): (r: Option<Got<Field>>)
    ensures r.Some? ==> r.value.n <= |s|
  {
    if wireType == 0 && (shape.VarintShape? || shape.PackedVarintShape?) then
      var g := ReadVarint(s);
      if g.None? then None else Some(Got(VarintField(num, g.value.v), g.value.n))
    else if wireType == 1 && (shape.FixedShape? || shape.PackedFixedShape?) then
      var g := ReadFixed(s);
      if g.None? then None else Some(Got(FixedField(num, g.value.v), 8))
    else if wireType == 2 then ReadDelimited(shape, num, s)
    else None
  }

  /** The field number of a tag, as a 32-bit signed integer. */
  function FieldNumber(tag: U64): int {
    Signed(tag / 8 % TWO32, TWO32)
  }

  function ReadUnknown(s: Bytes): (r: Option<Got<Field>>)
    ensures r.Some? ==> 0 < r.value.n <= |s| && r.value.v == Raw(s[..r.value.n])
  {
    var end := Skip(s, 0, 0);
    if end.None? || end.value > |s| then None else Some(Got(Raw(s[..end.value]), end.value))
  }

  /** The next field of a message of kind k. */
  function ReadField(k: Kind, s: Bytes): (r: Option<Got<Field>>)
    ensures r.Some? ==> 0 < r.value.n <= |s|
  {
    var tag := ReadVarint(s);
    if tag.None? then None
    else
      var num, wireType := FieldNumber(tag.value.v), tag.value.v % 8;
      if wireType == 4 || num <= 0 then None
      else if ShapeOf(k, num).Unknown? then ReadUnknown(s)
      else
        var g := ReadPayload(ShapeOf(k, num), num, wireType, s[tag.value.n..]);
        if g.None? then None else Some(Got(g.value.v, tag.value.n + g.value.n))
  }

  function ParseFields(k: Kind, s: Bytes): Option<seq<Field>>
    decreases |s|
  {
    if |s| == 0 then Some([])
    else
      var g := ReadField(k, s);
      if g.None? then None
      else
        var more := ParseFields(k, s[g.value.n..]);
        if more.None? then None else Some([g.value.v] + more.value)
  }

  // ---------------------------------------------------------------- parsing undoes encoding

  /** A field with the shape that messages of kind k expect under its number. */
  ghost predicate Shaped(k: Kind, f: Field) {
    match f
    case VarintField(num, _) => ShapeOf(k, num).VarintShape?
    case FixedField(num, _) => ShapeOf(k, num).FixedShape?
    case BytesField(num, _) => ShapeOf(k, num).BytesShape?
    case PackedVarints(num, _) => ShapeOf(k, num).PackedVarintShape?
    case PackedFixed(num, _) => ShapeOf(k, num).PackedFixedShape?
    case Raw(_) => false
  }

  ghost predicate FieldOk(k: Kind, f: Field) {
    Shaped(k, f) && |EncField(f)| < TWO63
  }

  lemma VarintsStep(t: Bytes, u: Bytes, left: int, vs: seq<U64>, n: nat, g: Got<U64>)
    requires left > 0 && ReadVarint(t) == Some(g) && g.n <= |t| && u == t[g.n..]
    ensures ReadVarints(t, left, vs, n) == ReadVarints(u, left - g.n, vs + [g.v], n + g.n)
  {
  }

  lemma FixedsStep(t: Bytes, u: Bytes, left: int, vs: seq<U64>, n: nat, g: Got<U64>)
    requires left > 0 && ReadFixed(t) == Some(g) && g.n <= |t| && u == t[g.n..]
    ensures ReadFixeds(t, left, vs, n) == ReadFixeds(u, left - g.n, vs + [g.v], n + g.n)
  {
  }

  /** Reading one varint off the front of several. */
  lemma ReadVarintsCons(v: U64, more: Bytes, rest: Bytes, before: seq<U64>, n: nat)
    ensures
      var e := EncVarint(v);
      ReadVarints((e + more) + rest, |e + more|, before, n) == ReadVarints(more + rest, |more|, before + [v], n + |e|)
  {
    var e := EncVarint(v);
    Assoc(e, more, rest);
    DropPrefix(e, more + rest);
    ReadEncoded(v, more + rest);
    VarintsStep((e + more) + rest, more + rest, |e + more|, before, n, Got(v, |e|));
  }

  lemma {:induction false} ReadVarintsEncoded(vs: seq<U64>, rest: Bytes, before: seq<U64>, n: nat)
    ensures ReadVarints(EncVarints(vs) + rest, |EncVarints(vs)|, before, n) == Some(Got(before + vs, n + |EncVarints(vs)|))
    decreases |vs|
  {
    if |vs| > 0 {
      ReadVarintsCons(vs[0], EncVarints(vs[1..]), rest, before, n);
      ReadVarintsEncoded(vs[1..], rest, before + [vs[0]], n + |EncVarint(vs[0])|);
      assert (before + [vs[0]]) + vs[1..] == before + vs;
    } else {
      assert before + vs == before;
    }
  }

  lemma {:induction false} ReadFixedsEncoded(vs: seq<U64>, rest: Bytes, before: seq<U64>, n: nat)
    ensures ReadFixeds(EncFixeds(vs) + rest, |EncFixeds(vs)|, before, n) == Some(Got(before + vs, n + |EncFixeds(vs)|))
    decreases |vs|
  {
    if |vs| > 0 {
      var e, more := EncFixed(vs[0]), EncFixeds(vs[1..]);
      Assoc(e, more, rest);
      DropPrefix(e, more + rest);
      ReadFixedEncoded(vs[0], more + rest);
      FixedsStep(EncFixeds(vs) + rest, more + rest, |EncFixeds(vs)|, before, n, Got(vs[0], |e|));
      ReadFixedsEncoded(vs[1..], rest, before + [vs[0]], n + |e|);
      assert (before + [vs[0]]) + vs[1..] == before + vs;
    } else {
      assert before + vs == before;
    }
  }

  lemma ReadLengthEncoded(b: Bytes, rest: Bytes)
    requires |b| < TWO63
    ensures ReadLength(EncBytes(b) + rest) == Some(Got(|b|, |EncVarint(|b|)|))
    ensures (EncBytes(b) + rest)[|EncVarint(|b|)|..] == b + rest
  {
    var s := EncBytes(b) + rest;
    assert s == EncVarint(|b|) + (b + rest);
    ReadEncoded(|b|, b + rest);
  }

  lemma ReadPackedVarints(num: nat, b: Bytes, vs: seq<U64>, rest: Bytes)
    requires |b| < TWO63
    requires ReadVarints(b + rest, |b|, [], |EncVarint(|b|)|) == Some(Got(vs, |EncBytes(b)|))
    ensures ReadDelimited(PackedVarintShape, num, EncBytes(b) + rest) == Some(Got(PackedVarints(num, vs), |EncBytes(b)|))
  {
    ReadLengthEncoded(b, rest);
  }

  lemma ReadPackedFixed(num: nat, b: Bytes, fs: seq<U64>, rest: Bytes)
    requires |b| < TWO63
    requires ReadFixeds(b + rest, |b|, [], |EncVarint(|b|)|) == Some(Got(fs, |EncBytes(b)|))
    ensures ReadDelimited(PackedFixedShape, num, EncBytes(b) + rest) == Some(Got(PackedFixed(num, fs), |EncBytes(b)|))
  {
    ReadLengthEncoded(b, rest);
  }

  lemma ReadPackedVarintsEncoded(num: nat, vs: seq<U64>, rest: Bytes)
    requires |EncVarints(vs)| < TWO63
    ensures
      var p := EncBytes(EncVarints(vs));
      ReadDelimited(PackedVarintShape, num, p + rest) == Some(Got(PackedVarints(num, vs), |p|))
  {
    ReadVarintsEncoded(vs, rest, [], |EncVarint(|EncVarints(vs)|)|);
    assert [] + vs == vs;
    ReadPackedVarints(num, EncVarints(vs), vs, rest);
  }

  lemma ReadPackedFixedEncoded(num: nat, fs: seq<U64>, rest: Bytes)
    requires |EncFixeds(fs)| < TWO63
    ensures
      var p := EncBytes(EncFixeds(fs));
      ReadDelimited(PackedFixedShape, num, p + rest) == Some(Got(PackedFixed(num, fs), |p|))
  {
    var bytes := EncFixeds(fs);
    ReadFixedsEncoded(fs, rest, [], |EncVarint(|bytes|)|);
    assert [] + fs == fs;
    ReadPackedFixed(num, bytes, fs, rest);
  }

  lemma ReadBytes(num: nat, bytes: Bytes, rest: Bytes)
    requires |bytes| < TWO63
    ensures
      var p := EncBytes(bytes);
      ReadDelimited(BytesShape, num, p + rest) == Some(Got(BytesField(num, bytes), |p|))
  {
    ReadLengthEncoded(bytes, rest);
    assert (bytes + rest)[..|bytes|] == bytes;
  }

  lemma ReadPayloadEncoded(k: Kind, f: Field, rest: Bytes)
    requires FieldOk(k, f)
    ensures ReadPayload(ShapeOf(k, f.num), f.num, WireType(f), Payload(f) + rest) == Some(Got(f, |Payload(f)|))
  {
    match f
    case VarintField(_, v) => ReadEncoded(v, rest);
    case FixedField(_, bits) => ReadFixedEncoded(bits, rest);
    case BytesField(num, bytes) => ReadBytes(num, bytes, rest);
    case PackedVarints(num, vs) => ReadPackedVarintsEncoded(num, vs, rest);
    case PackedFixed(num, fs) => ReadPackedFixedEncoded(num, fs, rest);
  }

  lemma ReadKnown(k: Kind, s: Bytes, n: nat, tag: U64, num: nat, wireType: nat, u: Bytes, g: Got<Field>)
    requires num > 0 && wireType <= 2 && !ShapeOf(k, num).Unknown?
    requires FieldNumber(tag) == num && tag % 8 == wireType
    requires ReadVarint(s) == Some(Got(tag, n)) && n <= |s| && s[n..] == u
    requires ReadPayload(ShapeOf(k, num), num, wireType, u) == Some(g)
    ensures ReadField(k, s) == Some(Got(g.v, n + g.n))
  {
  }

  lemma TagParts(num: nat, wireType: nat, tag: U64)
    requires num <= 16 && wireType < 8 && tag == 8 * num + wireType
    ensures FieldNumber(tag) == num && tag % 8 == wireType
  {
  }

  lemma KnownNumber(k: Kind, f: Field)
    requires Shaped(k, f)
    ensures 1 <= f.num <= 16 && !ShapeOf(k, f.num).Unknown?
    ensures EncField(f) == EncVarint(8 * f.num + WireType(f)) + Payload(f) && WireType(f) <= 2
  {
  }

  lemma ReadFieldEncoded(k: Kind, f: Field, rest: Bytes)
    requires FieldOk(k, f)
    ensures ReadField(k, EncField(f) + rest) == Some(Got(f, |EncField(f)|))
  {
    ReadPayloadEncoded(k, f, rest);
    ReadTaggedField(k, f, rest);
  }

  lemma ReadTaggedField(k: Kind, f: Field, rest: Bytes)
    requires Shaped(k, f)
    requires ReadPayload(ShapeOf(k, f.num), f.num, WireType(f), Payload(f) + rest) == Some(Got(f, |Payload(f)|))
    ensures ReadField(k, EncField(f) + rest) == Some(Got(f, |EncField(f)|))
  {
    KnownNumber(k, f);
    var tag := 8 * f.num + WireType(f);
    TagParts(f.num, WireType(f), tag);
    ReadTagged(k, tag, f.num, WireType(f), Payload(f), rest, EncField(f), f);
  }

  /** A field is read back, given that its payload is. */
  lemma ReadTagged(k: Kind, tag: U64, num: nat, wireType: nat, payload: Bytes, rest: Bytes, e: Bytes, f: Field)
    requires num > 0 && wireType <= 2 && !ShapeOf(k, num).Unknown?
    requires FieldNumber(tag) == num && tag % 8 == wireType && e == EncVarint(tag) + payload
    requires ReadPayload(ShapeOf(k, num), num, wireType, payload + rest) == Some(Got(f, |payload|))
    ensures ReadField(k, e + rest) == Some(Got(f, |e|))
  {
    TagEncoded(tag, payload, rest, e + rest);
    ReadKnown(k, e + rest, |e| - |payload|, tag, num, wireType, payload + rest, Got(f, |payload|));
  }

  lemma TagEncoded(tag: U64, payload: Bytes, rest: Bytes, s: Bytes)
    requires s == (EncVarint(tag) + payload) + rest
    ensures
      var n := |EncVarint(tag)|;
      n <= |s| && ReadVarint(s) == Some(Got(tag, n)) && s[n..] == payload + rest
  {
    var head := EncVarint(tag);
    ReadEncoded(tag, payload + rest);
    Assoc(head, payload, rest);
    DropPrefix(head, payload + rest);
  }

  lemma DropPrefix(a: Bytes, b: Bytes)
    ensures (a + b)[|a|..] == b
  {
  }

  lemma ParseCons(k: Kind, s: Bytes, f: Field, n: nat)
    requires ReadField(k, s) == Some(Got(f, n)) && 0 < n <= |s|
    ensures ParseFields(k, s) == Prepend(f, ParseFields(k, s[n..]))
  {
  }

  function Prepend(f: Field, more: Option<seq<Field>>): Option<seq<Field>> {
    if more.None? then None else Some([f] + more.value)
  }

  function Join(fs: seq<Field>, more: Option<seq<Field>>): Option<seq<Field>> {
    if more.None? then None else Some(fs + more.value)
  }

  lemma JoinCons(fs: seq<Field>, more: Option<seq<Field>>)
    ensures |fs| > 0 ==> Join(fs, more) == Prepend(fs[0], Join(fs[1..], more))
    ensures |fs| == 0 ==> Join(fs, more) == more
  {
    if |fs| > 0 && more.Some? {
      assert [fs[0]] + (fs[1..] + more.value) == fs + more.value;
    } else if more.Some? {
      assert fs + more.value == more.value;
    }
  }

  lemma ParseStep(k: Kind, f: Field, tail: Bytes)
    requires FieldOk(k, f)
    ensures ParseFields(k, EncField(f) + tail) == Prepend(f, ParseFields(k, tail))
  {
    var e := EncField(f);
    ReadFieldEncoded(k, f, tail);
    ParseCons(k, e + tail, f, |e|);
    assert (e + tail)[|e|..] == tail;
  }

  lemma EncFieldsCons(fs: seq<Field>, rest: Bytes)
    ensures |fs| > 0 ==> EncFields(fs) + rest == EncField(fs[0]) + (EncFields(fs[1..]) + rest)
    ensures |fs| == 0 ==> EncFields(fs) + rest == rest
  {
    if |fs| > 0 {
      Assoc(EncField(fs[0]), EncFields(fs[1..]), rest);
    }
  }

  lemma Assoc(a: Bytes, b: Bytes, c: Bytes)
    ensures (a + b) + c == a + (b + c)
  {
  }

  /** Parsing the encoding of known fields gives them back, and then parses what follows. */
  lemma {:induction false} ParseEncoded(k: Kind, fs: seq<Field>, rest: Bytes)
    requires forall i :: 0 <= i < |fs| ==> FieldOk(k, fs[i])
    ensures ParseFields(k, EncFields(fs) + rest) == Join(fs, ParseFields(k, rest))
    decreases |fs|
  {
    EncFieldsCons(fs, rest);
    JoinCons(fs, ParseFields(k, rest));
    if |fs| > 0 {
      ParseStep(k, fs[0], EncFields(fs[1..]) + rest);
      ParseEncoded(k, fs[1..], rest);
    }
  }

  /** The bytes of unknown fields, one after the other. */
  function RawBytes(fs: seq<Field>): Bytes {
    if |fs| == 0 then [] else (if fs[0].Raw? then fs[0].raw else []) + RawBytes(fs[1..])
  }

  ghost predicate AllRaw(fs: seq<Field>) {
    forall i :: 0 <= i < |fs| ==> fs[i].Raw?
  }

  /** Bytes that a message of kind k takes as nothing but unknown fields. */
  ghost predicate UnknownOk(k: Kind, s: Bytes) {
    ParseFields(k, s).Some? && AllRaw(ParseFields(k, s).value)
  }

  lemma RawCons(f: Field, more: seq<Field>)
    ensures AllRaw([f] + more) ==> f.Raw? && AllRaw(more) && RawBytes([f] + more) == f.raw + RawBytes(more)
  {
    var fs := [f] + more;
    assert fs[1..] == more;
    if AllRaw(fs) {
      assert fs[0].Raw?;
      forall i | 0 <= i < |more| ensures more[i].Raw? {
        assert fs[i + 1].Raw?;
      }
    }
  }

  lemma RawIsPrefix(k: Kind, s: Bytes)
    ensures
      var g := ReadField(k, s);
      g.Some? && g.value.v.Raw? ==> g.value.v.raw == s[..g.value.n]
  {
  }

  lemma {:induction false} UnknownBytes(k: Kind, s: Bytes)
    requires UnknownOk(k, s)
    ensures RawBytes(ParseFields(k, s).value) == s
    decreases |s|
  {
    if |s| > 0 {
      var g := ReadField(k, s).value;
      ParseCons(k, s, g.v, g.n);
      RawIsPrefix(k, s);
      var rest := s[g.n..];
      RawCons(g.v, ParseFields(k, rest).value);
      UnknownBytes(k, rest);
      Split(s, g.n);
    }
  }

  lemma Split(s: Bytes, n: nat)
    requires n <= |s|
    ensures s == s[..n] + s[n..]
  {
  }

  // ---------------------------------------------------------------- lists of fields

  ghost predicate AllShaped(k: Kind, fs: seq<Field>) {
    forall i :: 0 <= i < |fs| ==> Shaped(k, fs[i])
  }

  lemma AllShapedJoin(k: Kind, a: seq<Field>, b: seq<Field>)
    requires AllShaped(k, a) && AllShaped(k, b)
    ensures AllShaped(k, a + b)
  {
  }

  lemma {:induction false} FieldsFit(k: Kind, fs: seq<Field>)
    requires AllShaped(k, fs) && |EncFields(fs)| < TWO63
    ensures forall i :: 0 <= i < |fs| ==> FieldOk(k, fs[i])
    decreases |fs|
  {
    if |fs| > 0 {
      var rest := fs[1..];
      assert AllShaped(k, rest);
      FieldsFit(k, rest);
      forall i | 0 <= i < |fs| ensures FieldOk(k, fs[i]) {
        if i > 0 {
          assert fs[i] == rest[i - 1];
        }
      }
    }
  }

  lemma {:induction false} EncFieldsJoin(a: seq<Field>, b: seq<Field>)
    ensures EncFields(a + b) == EncFields(a) + EncFields(b)
    decreases |a|
  {
    if |a| == 0 {
      assert a + b == b;
    } else {
      assert (a + b)[1..] == a[1..] + b;
      EncFieldsJoin(a[1..], b);
      Assoc(EncField(a[0]), EncFields(a[1..]), EncFields(b));
    }
  }

  lemma {:induction false} KnownHaveNoRaw(k: Kind, fs: seq<Field>, more: seq<Field>)
    requires AllShaped(k, fs)
    ensures RawBytes(fs + more) == RawBytes(more)
    decreases |fs|
  {
    if |fs| == 0 {
      assert fs + more == more;
    } else {
      assert (fs + more)[1..] == fs[1..] + more;
      KnownHaveNoRaw(k, fs[1..], more);
    }
  }
}
