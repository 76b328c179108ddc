/** Fields that a message does not know: which bytes are skipped as one field, whatever the field holds,
    and that such fields may stand anywhere among the known ones. */
module UnknownFields {
  import opened Basics
  import opened Wire
  import opened Messages

  // ---------------------------------------------------------------- what one field looks like

  /** Every byte but the last has its highest bit set, and there are at most ten. */
  ghost predicate IsVarint(b: Bytes) {
    0 < |b| <= 10 && b[|b| - 1] < 128 && forall i :: 0 <= i < |b| - 1 ==> b[i] >= 128
  }

  /** Seven bits of each byte, least significant first. */
  ghost function Groups(b: Bytes): nat {
    if |b| == 0 then 0 else b[0] % 128 + 128 * Groups(b[1..])
  }

  /** A field on the wire: a tag and a payload, or fields between the tags of a group. */
  datatype Element = Scalar(tag: Bytes, payload: Bytes) | Group(tag: Bytes, elements: seq<Element>, end: Bytes)

  /** The low three bits of a tag say how its payload ends. */
  ghost predicate IsElement(e: Element) {
    match e
    case Scalar(tag, payload) => IsVarint(tag) && IsPayload(tag[0] % 8, payload)
    case Group(tag, elements, end) =>
      && IsVarint(tag) && tag[0] % 8 == 3 && IsVarint(end) && end[0] % 8 == 4
      && forall i :: 0 <= i < |elements| ==> IsElement(elements[i])
  }

  ghost predicate IsPayload(wireType: int, b: Bytes) {
    match wireType
    case 0 => IsVarint(b)
    case 1 => |b| == 8
    case 2 => exists n :: IsDelimited(b, n)
    case 5 => |b| == 4
    case _ => false
  }

  /** A length of n bytes and as many bytes as it says. */
  ghost predicate IsDelimited(b: Bytes, n: nat) {
    && 0 < n <= |b| && IsVarint(b[..n])
    && Groups(b[..n]) % 0x1_0000_0000_0000_0000 == |b| - n < 0x8000_0000_0000_0000
  }

  ghost function ElementBytes(e: Element): Bytes {
    match e
    case Scalar(tag, payload) => tag + payload
    case Group(tag, elements, end) => tag + (AllBytes(elements) + end)
  }

  ghost function AllBytes(es: seq<Element>): Bytes {
    if |es| == 0 then [] else ElementBytes(es[0]) + AllBytes(es[1..])
  }

  // ---------------------------------------------------------------- varints

  /** Bytes k to n of s form a varint, but for the number of bytes. */
  ghost predicate VarintAt(s: Bytes, k: nat, n: nat) {
    k < n <= |s| && s[n - 1] < 128 && forall i :: k <= i < n - 1 ==> s[i] >= 128
  }

  lemma {:induction false} VarintReads(s: Bytes, k: nat, n: nat)
    requires VarintAt(s, k, n)
    ensures Varint(s, k) == Some(Got(Groups(s[k..n]), n))
    decreases n - k
  {
    assert s[k..n][1..] == s[k + 1..n];
    if k + 1 < n {
      VarintReads(s, k + 1, n);
    } else {
      assert s[k + 1..n] == [];
    }
  }

  lemma {:induction false} VarintFound(s: Bytes, k: nat)
    requires Varint(s, k).Some?
    ensures VarintAt(s, k, Varint(s, k).value.n)
    decreases |s| - k
  {
    if s[k] >= 128 {
      VarintFound(s, k + 1);
    }
  }

  lemma VarintIsAt(s: Bytes, i: nat, n: nat)
    requires i <= n <= |s|
    ensures IsVarint(s[i..n]) <==> VarintAt(s[i..], 0, n - i) && n - i <= 10
  {
    var b, t := s[i..n], s[i..];
    assert forall k :: 0 <= k < |b| ==> b[k] == t[k];
  }

  /** A varint is read iff there is one. */
  lemma ReadVarintIff(s: Bytes, i: nat, n: nat)
    requires i <= n <= |s|
    ensures IsVarint(s[i..n]) ==> ReadVarint(s[i..]) == Some(Got(Groups(s[i..n]) % TWO64, n - i))
    ensures ReadVarint(s[i..]).Some? && ReadVarint(s[i..]).value.n == n - i ==> IsVarint(s[i..n])
  {
    VarintIsAt(s, i, n);
    if IsVarint(s[i..n]) {
      VarintReads(s[i..], 0, n - i);
      assert s[i..][0..n - i] == s[i..n];
    } else if Varint(s[i..], 0).Some? {
      VarintFound(s[i..], 0);
    }
  }

  lemma ReadVarintEnds(s: Bytes, i: nat)
    requires i <= |s| && ReadVarint(s[i..]).Some?
    ensures
      var n := i + ReadVarint(s[i..]).value.n;
      i < n <= |s| && IsVarint(s[i..n]) && ReadVarint(s[i..]).value.v == Groups(s[i..n]) % TWO64
  {
    ReadVarintIff(s, i, i + ReadVarint(s[i..]).value.n);
  }

  lemma LowBitsOfTag(b: Bytes)
    requires |b| > 0
    ensures Groups(b) % TWO64 % 8 == b[0] % 8
  {
    LowBits(b[0], Groups(b[1..]), Groups(b));
  }

  lemma LowBits(low: Byte, more: nat, all: nat)
    requires all == low % 128 + 128 * more
    ensures all % TWO64 % 8 == low % 8
  {
    var x, q := all % TWO64, all / TWO64;
    Euclid(all, x, q);
    EightsGone(low % 128, 16 * more - 0x2000_0000_0000_0000 * q, x);
    EightsGone(low % 128, if low < 128 then 0 else 16, low);
  }

  lemma Euclid(a: nat, x: nat, q: nat)
    requires x == a % TWO64 && q == a / TWO64
    ensures a == x + TWO64 * q
  {
  }

  lemma EightsGone(low: nat, m: int, x: int)
    requires x == low + 8 * m
    ensures x % 8 == low % 8
  {
  }

  // ---------------------------------------------------------------- payloads

  lemma PayloadSkipped(s: Bytes, j: nat, wireType: int, n: nat)
    requires j <= n <= |s| && IsPayload(wireType, s[j..n])
    ensures SkipPayload(s, j, wireType) == Some(n)
  {
    if wireType == 0 {
      ReadVarintIff(s, j, n);
    } else if wireType == 2 {
      var k: nat :| IsDelimited(s[j..n], k);
      assert s[j..n][..k] == s[j..j + k];
      ReadVarintIff(s, j, j + k);
    }
  }

  lemma PayloadFound(s: Bytes, j: nat, wireType: int, n: nat)
    requires j <= n <= |s| && SkipPayload(s, j, wireType) == Some(n) && wireType != 3 && wireType != 4
    ensures IsPayload(wireType, s[j..n])
  {
    if wireType == 0 {
      ReadVarintEnds(s, j);
    } else if wireType == 2 {
      ReadVarintEnds(s, j);
      var k := ReadVarint(s[j..]).value.n;
      assert s[j..n][..k] == s[j..j + k];
      assert IsDelimited(s[j..n], k);
    }
  }

  // ---------------------------------------------------------------- skipping, tag by tag

  /** What follows position n, up to which skipping got with depth groups open. */
  ghost function After(skip: (nat, nat) -> Option<nat>, n: nat, depth: nat): Option<nat> {
    if depth == 0 then Some(n) else skip(n, depth)
  }

  /** A tag from i to j and its payload up to k. */
  ghost predicate ScalarStep(s: Bytes, skip: (nat, nat) -> Option<nat>, i: nat, j: nat, k: nat, depth: nat) {
    i < j <= k <= |s| && IsVarint(s[i..j]) && IsPayload(s[i] % 8, s[j..k]) ==>
      skip(i, depth) == After(skip, k, depth)
  }

  ghost predicate StartStep(s: Bytes, skip: (nat, nat) -> Option<nat>, i: nat, j: nat, depth: nat) {
    i < j <= |s| && IsVarint(s[i..j]) && s[i] % 8 == 3 ==> skip(i, depth) == skip(j, depth + 1)
  }

  ghost predicate EndStep(s: Bytes, skip: (nat, nat) -> Option<nat>, i: nat, j: nat, depth: nat) {
    i < j <= |s| && IsVarint(s[i..j]) && s[i] % 8 == 4 && depth > 0 ==> skip(i, depth) == After(skip, j, depth - 1)
  }

  ghost predicate IsToken(s: Bytes, i: nat, depth: nat, j: nat, k: nat) {
    && i < j <= k <= |s| && IsVarint(s[i..j])
    && (s[i] % 8 == 3 || (s[i] % 8 == 4 && depth > 0) || IsPayload(s[i] % 8, s[j..k]))
  }

  ghost predicate FoundStep(s: Bytes, skip: (nat, nat) -> Option<nat>, i: nat, depth: nat) {
    skip(i, depth).Some? && skip(i, depth).value <= |s| ==> exists j, k :: IsToken(s, i, depth, j, k)
  }

  /** What is needed of skipping in s. */
  ghost predicate Skips(s: Bytes, skip: (nat, nat) -> Option<nat>) {
    && (forall i, j, k, depth :: ScalarStep(s, skip, i, j, k, depth))
    && (forall i, j, depth :: StartStep(s, skip, i, j, depth))
    && (forall i, j, depth :: EndStep(s, skip, i, j, depth))
    && (forall i, depth :: FoundStep(s, skip, i, depth))
  }

  lemma SkipTag(s: Bytes, i: nat, j: nat, depth: nat)
    requires i < j <= |s| && IsVarint(s[i..j])
    ensures
      var wireType := s[i] % 8;
      var end := SkipPayload(s, j, wireType);
      && (end.None? || (wireType == 4 && depth == 0) ==> Skip(s, i, depth) == None)
      && (wireType != 3 && wireType != 4 && end.Some? ==>
          Skip(s, i, depth) == if depth == 0 then end else Skip(s, end.value, depth))
      && (wireType == 3 ==> Skip(s, i, depth) == Skip(s, j, depth + 1))
      && (wireType == 4 && depth > 0 ==>
          Skip(s, i, depth) == if depth == 1 then Some(j) else Skip(s, j, depth - 1))
  {
    ReadVarintIff(s, i, j);
    LowBitsOfTag(s[i..j]);
    assert s[i..j][0] == s[i];
  }

  lemma TokenFound(s: Bytes, i: nat, depth: nat)
    requires Skip(s, i, depth).Some? && Skip(s, i, depth).value <= |s|
    ensures exists j, k :: IsToken(s, i, depth, j, k)
  {
    ReadVarintEnds(s, i);
    var j := i + ReadVarint(s[i..]).value.n;
    var wireType := s[i] % 8;
    SkipTag(s, i, j, depth);
    if wireType == 3 || wireType == 4 {
      assert IsToken(s, i, depth, j, j);
    } else {
      var k := SkipPayload(s, j, wireType).value;
      PayloadFound(s, j, wireType, k);
      assert IsToken(s, i, depth, j, k);
    }
  }

  ghost function Skipper(s: Bytes): (nat, nat) -> Option<nat> {
    (i: nat, depth: nat) => Skip(s, i, depth)
  }

  lemma SkipperScalar(s: Bytes, i: nat, j: nat, k: nat, depth: nat)
    ensures ScalarStep(s, Skipper(s), i, j, k, depth)
  {
    if i < j <= k <= |s| && IsVarint(s[i..j]) && IsPayload(s[i] % 8, s[j..k]) {
      SkipTag(s, i, j, depth);
      PayloadSkipped(s, j, s[i] % 8, k);
    }
  }

  lemma SkipperGroup(s: Bytes, i: nat, j: nat, depth: nat)
    ensures StartStep(s, Skipper(s), i, j, depth) && EndStep(s, Skipper(s), i, j, depth)
  {
    if i < j <= |s| && IsVarint(s[i..j]) {
      SkipTag(s, i, j, depth);
    }
  }

  lemma SkipperFound(s: Bytes, i: nat, depth: nat)
    ensures FoundStep(s, Skipper(s), i, depth)
  {
    if Skip(s, i, depth).Some? && Skip(s, i, depth).value <= |s| {
      TokenFound(s, i, depth);
    }
  }

  lemma SkipperSkips(s: Bytes)
    ensures Skips(s, Skipper(s))
  {
    var skip := Skipper(s);
    forall i: nat, j: nat, k: nat, depth: nat ensures ScalarStep(s, skip, i, j, k, depth) {
      SkipperScalar(s, i, j, k, depth);
    }
    forall i: nat, j: nat, depth: nat ensures StartStep(s, skip, i, j, depth) && EndStep(s, skip, i, j, depth) {
      SkipperGroup(s, i, j, depth);
    }
    forall i: nat, depth: nat ensures FoundStep(s, skip, i, depth) {
      SkipperFound(s, i, depth);
    }
  }

  // ---------------------------------------------------------------- skipping a field

  ghost predicate Stands(b: Bytes, s: Bytes, i: nat) {
    i + |b| <= |s| && s[i..i + |b|] == b
  }

  lemma StandsParts(a: Bytes, b: Bytes, s: Bytes, i: nat)
    requires Stands(a + b, s, i)
    ensures Stands(a, s, i) && Stands(b, s, i + |a|)
    ensures |a| > 0 ==> s[i] == a[0]
  {
    assert (a + b)[..|a|] == a && (a + b)[|a|..] == b;
    assert |a| > 0 ==> s[i..i + |a + b|][0] == a[0];
  }

  lemma SkipScalar(s: Bytes, skip: (nat, nat) -> Option<nat>, i: nat, depth: nat, tag: Bytes, payload: Bytes)
    requires Skips(s, skip) && IsVarint(tag) && IsPayload(tag[0] % 8, payload) && Stands(tag + payload, s, i)
    ensures skip(i, depth) == After(skip, i + |tag| + |payload|, depth)
  {
    StandsParts(tag, payload, s, i);
    assert ScalarStep(s, skip, i, i + |tag|, i + |tag| + |payload|, depth);
  }

  lemma SkipStart(s: Bytes, skip: (nat, nat) -> Option<nat>, i: nat, depth: nat, tag: Bytes)
    requires Skips(s, skip) && IsVarint(tag) && tag[0] % 8 == 3 && Stands(tag, s, i)
    ensures skip(i, depth) == skip(i + |tag|, depth + 1)
  {
    assert s[i..i + |tag|][0] == s[i];
    assert StartStep(s, skip, i, i + |tag|, depth);
  }

  lemma SkipEnd(s: Bytes, skip: (nat, nat) -> Option<nat>, i: nat, depth: nat, end: Bytes)
    requires Skips(s, skip) && IsVarint(end) && end[0] % 8 == 4 && Stands(end, s, i)
    ensures skip(i, depth + 1) == After(skip, i + |end|, depth)
  {
    assert s[i..i + |end|][0] == s[i];
    assert EndStep(s, skip, i, i + |end|, depth + 1);
  }

  lemma InnerStands(s: Bytes, i: nat, tag: Bytes, inner: Bytes, end: Bytes)
    requires Stands(tag + (inner + end), s, i)
    ensures Stands(inner, s, i + |tag|)
  {
    StandsParts(tag, inner + end, s, i);
    StandsParts(inner, end, s, i + |tag|);
  }

  lemma SkipGroup(s: Bytes, skip: (nat, nat) -> Option<nat>, i: nat, depth: nat, tag: Bytes, inner: Bytes, end: Bytes)
    requires Skips(s, skip) && Stands(tag + (inner + end), s, i)
    requires IsVarint(tag) && tag[0] % 8 == 3 && IsVarint(end) && end[0] % 8 == 4
    requires skip(i + |tag|, depth + 1) == skip(i + |tag| + |inner|, depth + 1)
    ensures skip(i, depth) == After(skip, i + |tag + (inner + end)|, depth)
  {
    StandsParts(tag, inner + end, s, i);
    StandsParts(inner, end, s, i + |tag|);
    SkipStart(s, skip, i, depth, tag);
    SkipEnd(s, skip, i + |tag| + |inner|, depth, end);
  }

  lemma {:induction false} SkipElement(s: Bytes, skip: (nat, nat) -> Option<nat>, i: nat, depth: nat, e: Element)
    requires Skips(s, skip) && IsElement(e) && Stands(ElementBytes(e), s, i)
    ensures skip(i, depth) == After(skip, i + |ElementBytes(e)|, depth)
    decreases e
  {
    match e
    case Scalar(tag, payload) =>
      SkipScalar(s, skip, i, depth, tag, payload);
    case Group(tag, elements, end) =>
      var inner := AllBytes(elements);
      assert ElementBytes(e) == tag + (inner + end);
      InnerStands(s, i, tag, inner, end);
      SkipElements(s, skip, i + |tag|, depth + 1, elements);
      SkipGroup(s, skip, i, depth, tag, inner, end);
  }

  lemma {:induction false} SkipElements(s: Bytes, skip: (nat, nat) -> Option<nat>, i: nat, depth: nat, es: seq<Element>)
    requires Skips(s, skip) && depth > 0 && Stands(AllBytes(es), s, i) && forall k :: 0 <= k < |es| ==> IsElement(es[k])
    ensures skip(i, depth) == skip(i + |AllBytes(es)|, depth)
    decreases es
  {
    if |es| > 0 {
      StandsParts(ElementBytes(es[0]), AllBytes(es[1..]), s, i);
      SkipElement(s, skip, i, depth, es[0]);
      SkipElements(s, skip, i + |ElementBytes(es[0])|, depth, es[1..]);
    }
  }

  // ---------------------------------------------------------------- finding the field that was skipped

  /** b has the elements of a group and its end. */
  ghost predicate GroupRest(elements: seq<Element>, end: Bytes, b: Bytes) {
    && IsVarint(end) && end[0] % 8 == 4 && AllBytes(elements) + end == b
    && forall i :: 0 <= i < |elements| ==> IsElement(elements[i])
  }

  lemma ScalarFound(s: Bytes, i: nat, j: nat, k: nat) returns (e: Element)
    requires i < j <= k <= |s| && IsVarint(s[i..j]) && IsPayload(s[i] % 8, s[j..k])
    ensures IsElement(e) && ElementBytes(e) == s[i..k]
  {
    e := Scalar(s[i..j], s[j..k]);
    assert s[i..j][0] == s[i];
    assert s[i..j] + s[j..k] == s[i..k];
  }

  lemma GroupFound(s: Bytes, i: nat, j: nat, k: nat, elements: seq<Element>, end: Bytes) returns (e: Element)
    requires i < j <= k <= |s| && IsVarint(s[i..j]) && s[i] % 8 == 3
    requires GroupRest(elements, end, s[j..k])
    ensures IsElement(e) && ElementBytes(e) == s[i..k]
  {
    e := Group(s[i..j], elements, end);
    assert s[i..j][0] == s[i];
    assert s[i..j] + s[j..k] == s[i..k];
  }

  lemma GroupEndFound(s: Bytes, i: nat, j: nat)
    requires i < j <= |s| && IsVarint(s[i..j]) && s[i] % 8 == 4
    ensures GroupRest([], s[i..j], s[i..j])
  {
    assert s[i..j][0] == s[i];
    assert [] + s[i..j] == s[i..j];
  }

  lemma GroupRestCons(e: Element, elements: seq<Element>, end: Bytes, s: Bytes, i: nat, m: nat, k: nat)
    requires i <= m <= k <= |s| && IsElement(e) && ElementBytes(e) == s[i..m] && GroupRest(elements, end, s[m..k])
    ensures GroupRest([e] + elements, end, s[i..k])
  {
    assert ([e] + elements)[1..] == elements;
    Assoc(ElementBytes(e), AllBytes(elements), end);
    assert s[i..m] + s[m..k] == s[i..k];
  }

  /** With groups open, skipping gets through the innermost one first. */
  lemma {:induction false} RestFound(s: Bytes, skip: (nat, nat) -> Option<nat>, i: nat, depth: nat, n: nat)
    returns (elements: seq<Element>, end: Bytes, k: nat)
    requires Skips(s, skip) && depth > 0 && skip(i, depth) == Some(n) && n <= |s|
    ensures i < k <= |s| && GroupRest(elements, end, s[i..k]) && After(skip, k, depth - 1) == Some(n)
    decreases |s| - i, 1
  {
    assert FoundStep(s, skip, i, depth);
    var j: nat, first: nat :| IsToken(s, i, depth, j, first);
    if s[i] % 8 == 4 {
      GroupEndFound(s, i, j);
      assert EndStep(s, skip, i, j, depth);
      elements, end, k := [], s[i..j], j;
    } else {
      var e, m := FirstFound(s, skip, i, j, depth, n, first);
      elements, end, k := RestFound(s, skip, m, depth, n);
      GroupRestCons(e, elements, end, s, i, m, k);
      elements := [e] + elements;
    }
  }

  lemma {:induction false} FirstFound(s: Bytes, skip: (nat, nat) -> Option<nat>, i: nat, j: nat, depth: nat, n: nat, k: nat)
    returns (e: Element, m: nat)
    requires Skips(s, skip) && skip(i, depth) == Some(n) && n <= |s|
    requires IsToken(s, i, depth, j, k) && s[i] % 8 != 4
    ensures i < m <= |s| && IsElement(e) && ElementBytes(e) == s[i..m] && After(skip, m, depth) == Some(n)
    decreases |s| - i, 0
  {
    if s[i] % 8 == 3 {
      assert StartStep(s, skip, i, j, depth);
      var elements, end;
      elements, end, m := RestFound(s, skip, j, depth + 1, n);
      e := GroupFound(s, i, j, m, elements, end);
    } else {
      assert ScalarStep(s, skip, i, j, k, depth);
      m := k;
      e := ScalarFound(s, i, j, k);
    }
  }

  /** One whole field. */
  ghost predicate IsField(b: Bytes) {
    exists e :: IsElement(e) && ElementBytes(e) == b
  }

  lemma FieldSkipped(s: Bytes, skip: (nat, nat) -> Option<nat>, n: nat)
    requires n <= |s| && Skips(s, skip) && IsField(s[..n])
    ensures skip(0, 0) == Some(n)
  {
    var e :| IsElement(e) && ElementBytes(e) == s[..n];
    assert s[0..n] == s[..n];
    SkipElement(s, skip, 0, 0, e);
  }

  lemma FieldFound(s: Bytes, skip: (nat, nat) -> Option<nat>, n: nat)
    requires n <= |s| && Skips(s, skip) && skip(0, 0) == Some(n)
    ensures IsField(s[..n])
  {
    assert FoundStep(s, skip, 0, 0);
    var j: nat, k: nat :| IsToken(s, 0, 0, j, k);
    var e, m := FirstFound(s, skip, 0, j, 0, n, k);
    assert s[0..m] == s[..n];
  }

  /** Exactly the bytes of one field are skipped, whatever follows them. */
  lemma SkipIff(s: Bytes, n: nat)
    requires n <= |s|
    ensures Skip(s, 0, 0) == Some(n) <==> IsField(s[..n])
  {
    var skip := Skipper(s);
    SkipperSkips(s);
    if IsField(s[..n]) {
      FieldSkipped(s, skip, n);
    }
    if skip(0, 0) == Some(n) {
      FieldFound(s, skip, n);
    }
  }

  // ---------------------------------------------------------------- fields that a message does not know

  ghost predicate Knows(k: Kind, num: int) {
    match k
    case LabelKind => 1 <= num <= 2
    case SampleKind => 1 <= num <= 2
    case ExemplarKind => 1 <= num <= 3
    case SpanKind => 1 <= num <= 2
    case HistogramKind => 1 <= num <= 16
    case SeriesKind => 1 <= num <= 4
    case MetadataKind => num == 1 || num == 2 || num == 4 || num == 5
    case RequestKind => num == 1 || num == 3
  }

  /** The number of a field: 64 bits of the tag without the low three, as a 32-bit integer. */
  ghost function NumberBits(tag: Bytes): int {
    Groups(tag) % 0x1_0000_0000_0000_0000 / 8 % 0x1_0000_0000
  }

  /** One whole field with a positive number that messages of kind k do not have. */
  ghost predicate IsUnknownTo(k: Kind, b: Bytes) {
    exists e :: IsElement(e) && ElementBytes(e) == b && 0 < NumberBits(e.tag) < 0x8000_0000 && !Knows(k, NumberBits(e.tag))
  }

  /** The tag at the front of a field, whatever follows the field. */
  lemma TagOfElement(e: Element, rest: Bytes)
    requires IsElement(e)
    ensures ReadVarint(ElementBytes(e) + rest) == Some(Got(Groups(e.tag) % TWO64, |e.tag|))
    ensures Groups(e.tag) % TWO64 % 8 != 4
  {
    var s := ElementBytes(e) + rest;
    var after := s[|e.tag|..];
    match e {
      case Scalar(tag, payload) => Assoc(tag, payload, rest);
      case Group(tag, elements, end) => Assoc(tag, AllBytes(elements) + end, rest);
    }
    assert s == e.tag + after && s[0..|e.tag|] == e.tag && s[0..] == s;
    ReadVarintIff(s, 0, |e.tag|);
    LowBitsOfTag(e.tag);
  }

  lemma UnknownIsRead(k: Kind, b: Bytes, rest: Bytes)
    requires IsUnknownTo(k, b)
    ensures ReadField(k, b + rest) == Some(Got(Raw(b), |b|)) && |b| > 0
  {
    var e :| IsElement(e) && ElementBytes(e) == b && 0 < NumberBits(e.tag) < TWO31 && !Knows(k, NumberBits(e.tag));
    TagOfElement(e, rest);
    assert (b + rest)[..|b|] == b;
    assert IsField(b);
    SkipIff(b + rest, |b|);
    UnknownNumber(k, Groups(e.tag) % TWO64);
  }

  lemma UnknownNumber(k: Kind, tag: U64)
    requires 0 < tag / 8 % TWO32 < TWO31 && !Knows(k, tag / 8 % TWO32)
    ensures FieldNumber(tag) > 0 && ShapeOf(k, FieldNumber(tag)).Unknown?
  {
  }

  /** A field that messages of kind k expect, or one whole field that they do not know. */
  ghost predicate KnownOrUnknown(k: Kind, f: Field) {
    if f.Raw? then IsUnknownTo(k, f.raw) else FieldOk(k, f)
  }

  lemma ParseOne(k: Kind, f: Field, rest: Bytes)
    requires KnownOrUnknown(k, f)
    ensures ParseFields(k, EncField(f) + rest) == Prepend(f, ParseFields(k, rest))
  {
    if f.Raw? {
      UnknownIsRead(k, f.raw, rest);
      ParseCons(k, f.raw + rest, f, |f.raw|);
      DropPrefix(f.raw, rest);
    } else {
      ParseStep(k, f, rest);
    }
  }

  /** Known and unknown fields in any order are parsed to themselves, and then what follows them. */
  lemma {:induction false} ParseMixed(k: Kind, fs: seq<Field>, rest: Bytes)
    requires forall i :: 0 <= i < |fs| ==> KnownOrUnknown(k, fs[i])
    ensures ParseFields(k, EncFields(fs) + rest) == Join(fs, ParseFields(k, rest))
    decreases |fs|
  {
    EncFieldsCons(fs, rest);
    JoinCons(fs, ParseFields(k, rest));
    if |fs| > 0 {
      ParseOne(k, fs[0], EncFields(fs[1..]) + rest);
      ParseMixed(k, fs[1..], rest);
    }
  }

  lemma ParseAll(k: Kind, fs: seq<Field>)
    requires forall i :: 0 <= i < |fs| ==> KnownOrUnknown(k, fs[i])
    ensures ParseFields(k, EncFields(fs)) == Some(fs)
  {
    var rest: Bytes := [];
    ParseMixed(k, fs, rest);
    assert ParseFields(k, rest) == Some([]);
    assert EncFields(fs) + rest == EncFields(fs) && fs + [] == fs;
  }

  // ---------------------------------------------------------------- messages with unknown fields anywhere

  /** The fields other than the unknown ones. */
  ghost function KnownFields(fs: seq<Field>): seq<Field> {
    if |fs| == 0 then []
    else (if fs[0].Raw? then [] else [fs[0]]) + KnownFields(fs[1..])
  }

  lemma {:induction false} FoldKnown<M>(put: (M, Field) -> Option<M>, m: M, fs: seq<Field>)
    ensures Fold(put, m, fs) == Fold(put, m, KnownFields(fs))
    decreases |fs|
  {
    if |fs| > 0 {
      if fs[0].Raw? {
        FoldKnown(put, m, fs[1..]);
        assert KnownFields(fs) == KnownFields(fs[1..]);
      } else {
        assert KnownFields(fs)[1..] == KnownFields(fs[1..]);
        if put(m, fs[0]).Some? {
          FoldKnown(put, put(m, fs[0]).value, fs[1..]);
        }
      }
    }
  }

  /** All unknown fields among fs, put one after the other. */
  ghost predicate UnknownParts(fs: seq<Field>, unknown: Bytes) {
    if |fs| == 0 then unknown == []
    else if fs[0].Raw? then fs[0].raw <= unknown && UnknownParts(fs[1..], unknown[|fs[0].raw|..])
    else UnknownParts(fs[1..], unknown)
  }

  lemma {:induction false} RawBytesAreParts(fs: seq<Field>)
    ensures UnknownParts(fs, RawBytes(fs))
    decreases |fs|
  {
    if |fs| > 0 {
      RawBytesAreParts(fs[1..]);
      if fs[0].Raw? {
        DropPrefix(fs[0].raw, RawBytes(fs[1..]));
      } else {
        assert RawBytes(fs) == RawBytes(fs[1..]);
      }
    }
  }

  lemma UnmarshalParsed<M>(k: Kind, put: (M, Field) -> Option<M>, empty: M, s: Bytes, fs: seq<Field>, m: M)
    requires ParseFields(k, s) == Some(fs) && Fold(put, empty, fs) == Some(m)
    ensures Unmarshal(k, put, empty, s) == Some((m, RawBytes(fs)))
  {
  }

  /** A message whose known fields load m is read as m wherever unknown fields stand among them, and
      has kept those. */
  lemma UnmarshalMixed<M>(k: Kind, put: (M, Field) -> Option<M>, empty: M, fs: seq<Field>, m: M)
    requires (forall i :: 0 <= i < |fs| ==> KnownOrUnknown(k, fs[i])) && Loads(k, put, empty, KnownFields(fs), m)
    ensures
      var r := Unmarshal(k, put, empty, EncFields(fs));
      r.Some? && r.value.0 == m && UnknownParts(fs, r.value.1)
  {
    var s := EncFields(fs);
    ParseAll(k, fs);
    FoldKnown(put, empty, fs);
    UnmarshalParsed(k, put, empty, s, fs, m);
    RawBytesAreParts(fs);
  }

  lemma LabelMixed(m: Label, fs: seq<Field>)
    requires KnownFields(fs) == LabelFields(m) && forall i :: 0 <= i < |fs| ==> KnownOrUnknown(LabelKind, fs[i])
    ensures
      var r := DecLabel(EncFields(fs));
      r.Some? && r.value.name == m.name && r.value.value == m.value && UnknownParts(fs, r.value.unknown)
  {
    LabelLoads(m);
    UnmarshalMixed(LabelKind, PutLabel, EMPTY_LABEL, fs, m.(unknown := []));
  }

  lemma RequestMixed(m: WriteRequest, fs: seq<Field>)
    requires RequestOk(m) && KnownFields(fs) == RequestFields(m)
    requires forall i :: 0 <= i < |fs| ==> KnownOrUnknown(RequestKind, fs[i])
    ensures
      var r := DecRequest(EncFields(fs));
      && r.Some? && r.value == SameRequest(m).(unknown := r.value.unknown)
      && UnknownParts(fs, r.value.unknown)
  {
    RequestLoads(m);
    UnmarshalMixed(RequestKind, PutRequest, EMPTY_REQUEST, fs, SameRequest(m).(unknown := []));
  }

  /** An unknown field before anything else is kept, and what follows is read as without it. */
  lemma UnknownFirst<M>(k: Kind, put: (M, Field) -> Option<M>, empty: M, b: Bytes, s: Bytes)
    requires IsUnknownTo(k, b)
    ensures
      var r := Unmarshal(k, put, empty, s);
      Unmarshal(k, put, empty, b + s) == if r.None? then None else Some((r.value.0, b + r.value.1))
  {
    ParseOne(k, Raw(b), s);
    if ParseFields(k, s).Some? {
      var fs := ParseFields(k, s).value;
      assert ([Raw(b)] + fs)[1..] == fs;
    }
  }

  /** A string field with number 3, and then the name of a label. */
  lemma StringFieldKept(b: Byte, c: Byte)
    ensures DecLabel([26, 1, b, 10, 1, c]) == Some(Label([c], [], [26, 1, b]))
  {
    var unknown, name := [26, 1, b], [10, 1, c];
    StringFieldIsUnknown(b);
    OneByteName(c);
    UnknownFirst(LabelKind, PutLabel, EMPTY_LABEL, unknown, name);
    assert unknown + name == [26, 1, b, 10, 1, c] && unknown + [] == unknown;
  }

  lemma OneByteName(c: Byte)
    ensures DecLabel([10, 1, c]) == Some(Label([c], [], []))
  {
    var m := Label([c], [], []);
    NameBytes(c);
    assert LabelFields(m) == [BytesField(1, [c])];
    assert EncLabel(m) == [10, 1, c];
    LabelRoundTrip(m);
  }

  lemma StringFieldIsUnknown(b: Byte)
    ensures IsUnknownTo(LabelKind, [26, 1, b])
  {
    var e := Scalar([26], [1, b]);
    assert [1, b][..1] == [1] && [1][1..] == [] && [26][1..] == [];
    assert IsDelimited([1, b], 1);
    assert IsElement(e) && ElementBytes(e) == [26, 1, b];
    assert Groups([26]) == 26;
    assert NumberBits([26]) == 3;
  }
}
