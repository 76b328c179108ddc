/** The parsing loops, which walk an index through the input, against the specification of what each
    part of the input means. */
module Parser {
  import opened Basics
  import opened Wire
  import opened Messages
  import UnknownFields

  lemma Drop(s: Bytes, i: nat, n: nat)
    requires i + n <= |s|
    ensures s[i..][n..] == s[i + n..]
  {
  }

  lemma Distribute(v: int, mul: int, b: int, r: int)
    ensures v + mul * (b + 128 * r) == (v + mul * b) + (128 * mul) * r
  {
    assert mul * (128 * r) == (128 * mul) * r;
    assert mul * (b + 128 * r) == mul * b + mul * (128 * r);
  }

  /** What the groups read so far and the rest make up together. */
  ghost function Combined(v: nat, mul: nat, rest: Option<Got<nat>>): Option<Got<nat>> {
    if rest.None? then None else Some(Got(v + mul * rest.value.v, rest.value.n))
  }

  lemma LowBits(b: Byte)
    ensures b % 128 == if b < 128 then b else b - 128
  {
  }

  lemma VarintMore(s: Bytes, k: nat)
    requires k < |s| && s[k] >= 128
    ensures
      var rest := Varint(s, k + 1);
      Varint(s, k) == if rest.None? then None else Some(Got((s[k] - 128) + 128 * rest.value.v, rest.value.n))
  {
  }

  lemma CombinedStep(s: Bytes, k: nat, v: nat, mul: nat, c: nat)
    requires k < |s| && c == s[k] % 128
    ensures s[k] >= 128 ==> Combined(v, mul, Varint(s, k)) == Combined(v + mul * c, 128 * mul, Varint(s, k + 1))
    ensures s[k] < 128 ==> Combined(v, mul, Varint(s, k)) == Some(Got(v + mul * c, k + 1))
  {
    LowBits(s[k]);
    if s[k] >= 128 {
      VarintMore(s, k);
      CombinedOnce(v, mul, c, Varint(s, k + 1), Varint(s, k));
    }
  }

  lemma CombinedOnce(v: nat, mul: nat, b: nat, rest: Option<Got<nat>>, all: Option<Got<nat>>)
    requires all == if rest.None? then None else Some(Got(b + 128 * rest.value.v, rest.value.n))
    ensures Combined(v, mul, all) == Combined(v + mul * b, 128 * mul, rest)
  {
    if rest.Some? {
      Distribute(v, mul, b, rest.value.v);
    }
  }

  /** Seven bits at a time; putting groups together by or is addition, since they do not overlap. */
  method DecodeVarint(s: Bytes, i: nat) returns (r: Option<Got<U64>>)
    requires i <= |s|
    ensures r == ReadVarint(s[i..])
  {
    ghost var t := s[i..];
    var v: nat, mul: nat, shift: nat, k: nat := 0, 1, 0, 0;
    while true
      invariant k <= |t| && shift == 7 * k && k <= 10
      invariant Varint(t, 0) == Combined(v, mul, Varint(t, k))
      decreases 10 - k
    {
      if shift >= 64 || i + k >= |s| {
        return None;
      }
      var b := s[i + k];
      CombinedStep(t, k, v, mul, b % 128);
      v := v + mul * (b % 128);
      k := k + 1;
      if b < 128 {
        return Some(Got(v % TWO64, k));
      }
      mul := 128 * mul;
      shift := shift + 7;
    }
  }

  method DecodeFixed(s: Bytes, i: nat) returns (r: Option<Got<U64>>)
    requires i <= |s|
    ensures r == ReadFixed(s[i..])
  {
    if i + 8 > |s| {
      return None;
    }
    return ReadFixed(s[i..]);
  }

  // ---------------------------------------------------------------- unknown fields

  method SkipPayloadAt(s: Bytes, j: nat, wireType: nat) returns (r: Option<nat>)
    requires j <= |s|
    ensures r == SkipPayload(s, j, wireType)
  {
    match wireType
    case 0 =>
      var g := DecodeVarint(s, j);
      r := if g.None? then None else Some(j + g.value.n);
    case 1 => r := Some(j + 8);
    case 2 =>
      var g := DecodeVarint(s, j);
      r := if g.None? || g.value.v >= TWO63 then None else Some(j + g.value.n + g.value.v);
    case 3 => r := Some(j);
    case 4 => r := Some(j);
    case 5 => r := Some(j + 4);
    case _ => r := None;
  }

  /** The loop over tags, counting the groups that are open. */
  method SkipTags(s: Bytes) returns (r: Option<nat>)
    ensures r == Skip(s, 0, 0)
  {
    var i: nat, depth: nat := 0, 0;
    while i < |s|
      invariant Skip(s, i, depth) == Skip(s, 0, 0)
      decreases |s| - i
    {
      var tag := DecodeVarint(s, i);
      if tag.None? {
        return None;
      }
      var wireType := tag.value.v % 8;
      var end := SkipPayloadAt(s, i + tag.value.n, wireType);
      if end.None? || (wireType == 4 && depth == 0) {
        return None;
      }
      var left := if wireType == 3 then depth + 1 else if wireType == 4 then depth - 1 else depth;
      if left == 0 {
        return end;
      }
      i, depth := end.value, left;
    }
    return None;
  }

  /** Finds the end of the field at the front, and only of a whole field. */
  method SkipField(s: Bytes) returns (r: Option<nat>)
    ensures r == Skip(s, 0, 0)
    ensures forall n :: 0 <= n <= |s| ==> (r == Some(n) <==> UnknownFields.IsField(s[..n]))
  {
    r := SkipTags(s);
    forall n | 0 <= n <= |s| ensures r == Some(n) <==> UnknownFields.IsField(s[..n]) {
      UnknownFields.SkipIff(s, n);
    }
  }

  // ---------------------------------------------------------------- packed fields

  method NextVarint(s: Bytes, i: nat, ghost t: Bytes, ghost left: int, ghost vs: seq<U64>, ghost n: nat)
    returns (g: Option<Got<U64>>, ghost u: Bytes)
    requires i <= |s| && t == s[i..] && left > 0
    ensures g.None? ==> ReadVarints(t, left, vs, n) == None
    ensures g.Some? ==>
      && g.value.n > 0 && i + g.value.n <= |s| && u == s[i + g.value.n..]
      && ReadVarints(t, left, vs, n) == ReadVarints(u, left - g.value.n, vs + [g.value.v], n + g.value.n)
  {
    g := DecodeVarint(s, i);
    if g.Some? {
      Drop(s, i, g.value.n);
      u := s[i + g.value.n..];
      VarintsStep(t, u, left, vs, n, g.value);
    } else {
      u := [];
    }
  }

  method DecodeVarints(s: Bytes, start: nat, length: nat, first: nat) returns (r: Option<Got<seq<U64>>>)
    requires start + length <= |s|
    ensures r == ReadVarints(s[start..], length, [], first)
  {
    var vs: seq<U64>, i, post := [], start, start + length;
    var n: nat, left: int := first, length;
    ghost var target, t := ReadVarints(s[start..], length, [], first), s[start..];
    while i < post
      invariant start <= i <= |s| && left == post - i && t == s[i..]
      invariant ReadVarints(t, left, vs, n) == target
      decreases |s| - i
    {
      ghost var u: Bytes;
      var g: Option<Got<U64>>;
      g, u := NextVarint(s, i, t, left, vs, n);
      if g.None? {
        return None;
      }
      vs, i := vs + [g.value.v], i + g.value.n;
      n, left, t := n + g.value.n, left - g.value.n, u;
    }
    r := Some(Got(vs, n));
  }

  method NextFixed(s: Bytes, i: nat, ghost t: Bytes, ghost left: int, ghost vs: seq<U64>, ghost n: nat)
    returns (g: Option<Got<U64>>, ghost u: Bytes)
    requires i <= |s| && t == s[i..] && left > 0
    ensures g.None? ==> ReadFixeds(t, left, vs, n) == None
    ensures g.Some? ==>
      && g.value.n > 0 && i + g.value.n <= |s| && u == s[i + g.value.n..]
      && ReadFixeds(t, left, vs, n) == ReadFixeds(u, left - g.value.n, vs + [g.value.v], n + g.value.n)
  {
    g := DecodeFixed(s, i);
    if g.Some? {
      Drop(s, i, g.value.n);
      u := s[i + g.value.n..];
      FixedsStep(t, u, left, vs, n, g.value);
    } else {
      u := [];
    }
  }

  method DecodeFixeds(s: Bytes, start: nat, length: nat, first: nat) returns (r: Option<Got<seq<U64>>>)
    requires start + length <= |s|
    ensures r == ReadFixeds(s[start..], length, [], first)
  {
    var vs: seq<U64>, i, post := [], start, start + length;
    var n: nat, left: int := first, length;
    ghost var target, t := ReadFixeds(s[start..], length, [], first), s[start..];
    while i < post
      invariant start <= i <= |s| && left == post - i && t == s[i..]
      invariant ReadFixeds(t, left, vs, n) == target
      decreases |s| - i
    {
      ghost var u: Bytes;
      var g: Option<Got<U64>>;
      g, u := NextFixed(s, i, t, left, vs, n);
      if g.None? {
        return None;
      }
      vs, i := vs + [g.value.v], i + g.value.n;
      n, left, t := n + g.value.n, left - g.value.n, u;
    }
    r := Some(Got(vs, n));
  }

  // ---------------------------------------------------------------- fields

  method DecodeLength(s: Bytes, i: nat) returns (r: Option<Got<nat>>)
    requires i <= |s|
    ensures r == ReadLength(s[i..])
  {
    var g := DecodeVarint(s, i);
    if g.None? || g.value.v >= TWO63 || i + g.value.n + g.value.v > |s| {
      return None;
    }
    r := Some(Got(g.value.v, g.value.n));
  }

  method DecodeDelimited(shape: Shape, num: nat, s: Bytes, i: nat) returns (r: Option<Got<Field>>)
    requires i <= |s|
    ensures r == ReadDelimited(shape, num, s[i..])
  {
    var length := DecodeLength(s, i);
    if length.None? {
      return None;
    }
    var n, v := length.value.n, length.value.v;
    var j := i + n;
    Drop(s, i, n);
    DelimitedParts(shape, num, s[i..], s[j..], length.value);
    match shape
    case BytesShape =>
      r := Some(Got(BytesField(num, s[j..][..v]), n + v));
    case PackedVarintShape =>
      var g := DecodeVarints(s, j, v, n);
      r := if g.None? then None else Some(Got(PackedVarints(num, g.value.v), g.value.n));
    case PackedFixedShape =>
      var g := DecodeFixeds(s, j, v, n);
      r := if g.None? then None else Some(Got(PackedFixed(num, g.value.v), g.value.n));
    case _ => r := None;
  }

  /** What follows a length, u, as each shape reads it. */
  lemma DelimitedParts(shape: Shape, num: nat, t: Bytes, u: Bytes, length: Got<nat>)
    requires ReadLength(t) == Some(length) && length.n + length.v <= |t| && u == t[length.n..]
    ensures shape.BytesShape? ==>
      ReadDelimited(shape, num, t) == Some(Got(BytesField(num, u[..length.v]), length.n + length.v))
    ensures shape.PackedVarintShape? ==>
      ReadDelimited(shape, num, t) ==
      var g := ReadVarints(u, length.v, [], length.n);
      if g.None? then None else Some(Got(PackedVarints(num, g.value.v), g.value.n))
    ensures shape.PackedFixedShape? ==>
      ReadDelimited(shape, num, t) ==
      var g := ReadFixeds(u, length.v, [], length.n);
      if g.None? then None else Some(Got(PackedFixed(num, g.value.v), g.value.n))
    ensures shape.VarintShape? || shape.FixedShape? || shape.Unknown? ==> ReadDelimited(shape, num, t) == None
  {
  }

  method DecodePayload(shape: Shape, num: nat, wireType: nat, s: Bytes, i: nat) returns (r: Option<Got<Field>>)
    requires i <= |s|
    ensures r == ReadPayload(shape, num, wireType, s[i..])
  {
    if wireType == 0 && (shape.VarintShape? || shape.PackedVarintShape?) {
      var g := DecodeVarint(s, i);
      r := if g.None? then None else Some(Got(VarintField(num, g.value.v), g.value.n));
    } else if wireType == 1 && (shape.FixedShape? || shape.PackedFixedShape?) {
      var g := DecodeFixed(s, i);
      r := if g.None? then None else Some(Got(FixedField(num, g.value.v), 8));
    } else if wireType == 2 {
      r := DecodeDelimited(shape, num, s, i);
    } else {
      r := None;
    }
  }

  /** Skip from the tag on, and keep the bytes. */
  method DecodeUnknown(s: Bytes, i: nat) returns (r: Option<Got<Field>>)
    requires i < |s|
    ensures r == ReadUnknown(s[i..])
  {
    var end := SkipField(s[i..]);
    if end.None? || i + end.value > |s| {
      return None;
    }
    assert s[i..][..end.value] == s[i..i + end.value];
    r := Some(Got(Raw(s[i..i + end.value]), end.value));
  }

  /** What follows the tag of a known field, u. */
  lemma KnownParts(k: Kind, t: Bytes, u: Bytes, tag: Got<U64>)
    requires ReadVarint(t) == Some(tag) && tag.n <= |t| && u == t[tag.n..]
    ensures
      var num, wireType := FieldNumber(tag.v), tag.v % 8;
      num > 0 && wireType != 4 && !ShapeOf(k, num).Unknown? ==>
        var g := ReadPayload(ShapeOf(k, num), num, wireType, u);
        ReadField(k, t) == if g.None? then None else Some(Got(g.value.v, tag.n + g.value.n))
  {
  }

  method DecodeField(k: Kind, s: Bytes, i: nat) returns (r: Option<Got<Field>>)
    requires i < |s|
    ensures r == ReadField(k, s[i..])
  {
    var tag := DecodeVarint(s, i);
    if tag.None? {
      return None;
    }
    var num, wireType := FieldNumber(tag.value.v), tag.value.v % 8;
    if wireType == 4 || num <= 0 {
      return None;
    }
    if ShapeOf(k, num).Unknown? {
      r := DecodeUnknown(s, i);
      return;
    }
    var j := i + tag.value.n;
    Drop(s, i, tag.value.n);
    KnownParts(k, s[i..], s[j..], tag.value);
    var g := DecodePayload(ShapeOf(k, num), num, wireType, s, j);
    r := if g.None? then None else Some(Got(g.value.v, tag.value.n + g.value.n));
  }

  // ---------------------------------------------------------------- messages

  /** A message that has taken in some fields takes in the rest, if it could be parsed. */
  ghost function Complete<M>(put: (M, Field) -> Option<M>, m: M, unknown: Bytes, rest: Option<seq<Field>>): Option<(M, Bytes)> {
    if rest.None? then None
    else
      var r := Fold(put, m, rest.value);
      if r.None? then None else Some((r.value, unknown + RawBytes(rest.value)))
  }

  lemma CompleteStep<M>(put: (M, Field) -> Option<M>, m: M, unknown: Bytes, f: Field, rest: Option<seq<Field>>)
    ensures Complete(put, m, unknown, Prepend(f, rest)) == Taken(put, m, unknown, f, rest)
  {
    if rest.Some? {
      var fs := [f] + rest.value;
      assert fs[1..] == rest.value;
      if f.Raw? {
        Assoc(unknown, f.raw, RawBytes(rest.value));
      } else {
        assert RawBytes(fs) == RawBytes(rest.value);
      }
    }
  }

  lemma CompleteEnds<M>(k: Kind, put: (M, Field) -> Option<M>, m: M, unknown: Bytes, s: Bytes)
    ensures Complete(put, m, [], ParseFields(k, s)) == Unmarshal(k, put, m, s)
    ensures Complete(put, m, unknown, Some([])) == Some((m, unknown))
    ensures |s| == 0 ==> ParseFields(k, s) == Some([])
    ensures |s| > 0 && ReadField(k, s).None? ==> ParseFields(k, s).None?
  {
    var fs := ParseFields(k, s);
    if fs.Some? {
      assert [] + RawBytes(fs.value) == RawBytes(fs.value);
    }
    assert unknown + RawBytes([]) == unknown;
  }

  ghost function Taken<M>(put: (M, Field) -> Option<M>, m: M, unknown: Bytes, f: Field, rest: Option<seq<Field>>): Option<(M, Bytes)> {
    if f.Raw? then Complete(put, m, unknown + f.raw, rest)
    else if put(m, f).None? then None
    else Complete(put, put(m, f).value, unknown, rest)
  }

  /** One field from t, and the others from what is left, u. */
  lemma FieldAdvance<M>(k: Kind, put: (M, Field) -> Option<M>, m: M, unknown: Bytes, t: Bytes, u: Bytes, g: Got<Field>)
    requires ReadField(k, t) == Some(g) && 0 < g.n <= |t| && u == t[g.n..]
    ensures Complete(put, m, unknown, ParseFields(k, t)) == Taken(put, m, unknown, g.v, ParseFields(k, u))
  {
    ParseCons(k, t, g.v, g.n);
    CompleteStep(put, m, unknown, g.v, ParseFields(k, u));
  }

  /** Take in one field. */
  method TakeField<M>(put: (M, Field) -> Option<M>, m: M, unknown: Bytes, f: Field, ghost rest: Option<seq<Field>>)
    returns (ok: bool, m': M, unknown': Bytes)
    ensures Taken(put, m, unknown, f, rest) == if ok then Complete(put, m', unknown', rest) else None
  {
    ok, m', unknown' := true, m, unknown;
    if f.Raw? {
      unknown' := unknown + f.raw;
    } else {
      var next := put(m, f);
      if next.None? {
        ok := false;
      } else {
        m' := next.value;
      }
    }
  }

  /** The loop over all fields, for any kind of message; m grows field by field. */
  method UnmarshalMessage<M>(k: Kind, put: (M, Field) -> Option<M>, empty: M, s: Bytes) returns (r: Option<(M, Bytes)>)
    ensures r == Unmarshal(k, put, empty, s)
  {
    var m, unknown: Bytes, i: nat := empty, [], 0;
    ghost var target := Unmarshal(k, put, empty, s);
    assert s[0..] == s;
    CompleteEnds(k, put, empty, [], s);
    while i < |s|
      invariant i <= |s| && Complete(put, m, unknown, ParseFields(k, s[i..])) == target
      decreases |s| - i
    {
      var g := DecodeField(k, s, i);
      if g.None? {
        CompleteEnds(k, put, m, unknown, s[i..]);
        return None;
      }
      var j := i + g.value.n;
      Drop(s, i, g.value.n);
      FieldAdvance(k, put, m, unknown, s[i..], s[j..], g.value);
      var ok: bool;
      ok, m, unknown := TakeField(put, m, unknown, g.value.v, ParseFields(k, s[j..]));
      if !ok {
        return None;
      }
      i := j;
    }
    CompleteEnds(k, put, m, unknown, s[i..]);
    r := Some((m, unknown));
  }

  method UnmarshalRequest(s: Bytes) returns (r: Option<WriteRequest>)
    ensures r == DecRequest(s)
  {
    var g := UnmarshalMessage(RequestKind, PutRequest, EMPTY_REQUEST, s);
    r := if g.None? then None else Some(g.value.0.(unknown := g.value.1));
  }
}
