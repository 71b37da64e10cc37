/**
  The AMF0 values of `srs_protocol_amf0.cpp`, their encoding (Adobe AMF 0 specification, sections
  2.2 to 2.13), the reader as a function on bytes, and what the two have to do with each other.
 */
module Amf0 {
  import opened Wrappers
  import opened ByteBuffer

  /** The eight bytes of a double. */
  type Bits64 = x: int | 0 <= x < 0x1_0000_0000_0000_0000

  datatype Property = Property(key: seq<byte>, value: Value)

  /** `count` is the `_count` that the source stores and writes; the reader takes it from the wire. */
  datatype Value =
    | String(text: seq<byte>)
    | Boolean(flag: bool)
    | Number(bits: Bits64)
    | Null
    | Undefined
    | Object(props: seq<Property>)
    | EcmaArray(count: Int32, props: seq<Property>)
    | StrictArray(count: Int32, elems: seq<Value>)
    | Date(ms: Int64, zone: Int16)
    | ObjectEof

  const NUMBER: byte := 0x00
  const BOOLEAN: byte := 0x01
  const STRING: byte := 0x02
  const OBJECT: byte := 0x03
  const NULL: byte := 0x05
  const UNDEFINED: byte := 0x06
  const ECMA_ARRAY: byte := 0x08
  const OBJECT_END: byte := 0x09
  const STRICT_ARRAY: byte := 0x0A
  const DATE: byte := 0x0B

  /** The widths of a length or time zone, of a count, and of a number or date. */
  const LENGTH_BYTES: nat := 2
  const COUNT_BYTES: nat := 4
  const NUMBER_BYTES: nat := 8

  const EOF: seq<byte> := [0, 0, OBJECT_END]

  // ---------------------------------------------------------------- the hash table

  /** The properties without the first one named key. */
  function Erase(props: seq<Property>, key: seq<byte>): seq<Property> {
    if props == [] then []
    else if props[0].key == key then props[1..]
    else [props[0]] + Erase(props[1..], key)
  }

  /** `SrsUnSortedHashtable::set`: an old property of that name is erased, the new one is the last. */
  function Set(props: seq<Property>, key: seq<byte>, value: Value): seq<Property> {
    Erase(props, key) + [Property(key, value)]
  }

  function KeyOf(p: Property): seq<byte> {
    p.key
  }

  // ---------------------------------------------------------------- encoding

  /** The low 16 bits of n. */
  function Low16(n: nat): (r: nat)
    ensures r < 0x1_0000
  {
    if n < 0x1_0000 then n else Low16(n - 0x1_0000)
  }

  /** A string of more than 65535 bytes is written in full after the low 16 bits of its length. */
  function EncodeUtf8(s: seq<byte>): seq<byte> {
    ToBytes(Low16(|s|), LENGTH_BYTES) + s
  }

  function Encode(v: Value): seq<byte> {
    match v
    case String(s) => [STRING] + EncodeUtf8(s)
    case Boolean(b) => [BOOLEAN, if b then 1 else 0]
    case Number(bits) => [NUMBER] + ToBytes(bits, NUMBER_BYTES)
    case Null => [NULL]
    case Undefined => [UNDEFINED]
    case Object(props) => [OBJECT] + EncodeProps(props) + EOF
    case EcmaArray(count, props) => [ECMA_ARRAY] + ToBytes(Unsigned(count, 4), COUNT_BYTES) + EncodeProps(props) + EOF
    case StrictArray(count, elems) => [STRICT_ARRAY] + ToBytes(Unsigned(count, 4), COUNT_BYTES) + EncodeElems(elems)
    case Date(ms, zone) => [DATE] + ToBytes(Unsigned(ms, 8), NUMBER_BYTES) + ToBytes(Unsigned(zone, 2), LENGTH_BYTES)
    case ObjectEof => EOF
  }

  function EncodeProperty(p: Property): seq<byte> {
    EncodeUtf8(p.key) + Encode(p.value)
  }

  function EncodeProps(props: seq<Property>): seq<byte> {
    if props == [] then [] else EncodeProperty(props[0]) + EncodeProps(props[1..])
  }

  function EncodeElems(elems: seq<Value>): seq<byte> {
    if elems == [] then [] else Encode(elems[0]) + EncodeElems(elems[1..])
  }

  // ---------------------------------------------------------------- size

  function Utf8Size(s: seq<byte>): nat {
    2 + |s|
  }

  /** `total_size`. */
  function TotalSize(v: Value): nat {
    match v
    case String(s) => 1 + Utf8Size(s)
    case Boolean(_) => 1 + 1
    case Number(_) => 1 + 8
    case Null => 1
    case Undefined => 1
    case Object(props) => 1 + PropsSize(props) + 3
    case EcmaArray(_, props) => 1 + 4 + PropsSize(props) + 3
    case StrictArray(_, elems) => 1 + 4 + ElemsSize(elems)
    case Date(_, _) => 1 + 8 + 2
    case ObjectEof => 3
  }

  function PropertySize(p: Property): nat {
    Utf8Size(p.key) + TotalSize(p.value)
  }

  function PropsSize(props: seq<Property>): nat {
    if props == [] then 0 else PropertySize(props[0]) + PropsSize(props[1..])
  }

  function ElemsSize(elems: seq<Value>): nat {
    if elems == [] then 0 else TotalSize(elems[0]) + ElemsSize(elems[1..])
  }

  /** `total_size` is the exact length of the encoding, for every value. */
  lemma {:induction false} SizeIsExact(v: Value)
    ensures |Encode(v)| == TotalSize(v)
  {
    match v
    case Object(props) => PropsSizeIsExact(props);
    case EcmaArray(_, props) => PropsSizeIsExact(props);
    case StrictArray(_, elems) => ElemsSizeIsExact(elems);
    case _ =>
  }

  lemma {:induction false} PropertySizeIsExact(p: Property)
    ensures |EncodeProperty(p)| == PropertySize(p)
  {
    SizeIsExact(p.value);
  }

  lemma {:induction false} PropsSizeIsExact(props: seq<Property>)
    ensures |EncodeProps(props)| == PropsSize(props)
  {
    if props != [] {
      PropertySizeIsExact(props[0]);
      PropsSizeIsExact(props[1..]);
    }
  }

  lemma {:induction false} ElemsSizeIsExact(elems: seq<Value>)
    ensures |EncodeElems(elems)| == ElemsSize(elems)
  {
    if elems != [] {
      SizeIsExact(elems[0]);
      ElemsSizeIsExact(elems[1..]);
    }
  }

  // ---------------------------------------------------------------- reading

  /** `srs_amf0_is_object_eof`. */
  predicate IsEof(b: seq<byte>) {
    |b| >= 3 && b[..3] == EOF
  }

  /** `srs_amf0_read_utf8`: a length above 32767 is negative and reads as the empty string. */
  function ReadUtf8(b: seq<byte>): (r: Option<(seq<byte>, seq<byte>)>)
    ensures r.Some? ==> |r.value.1| + 2 <= |b|
  {
    if |b| < 2 then None
    else
      var len := Signed(FromBytes(b[..2]), 2);
      if len <= 0 then Some(([], b[2..]))
      else if |b| - 2 < len then None
      else Some((b[2..2 + len], b[2 + len..]))
  }

  /**
    `srs_amf0_read_any`: the value at the front of b and the bytes after it. The three bytes of
    an object end are looked for before the marker.
   */
  function Read(b: seq<byte>): (r: Option<(Value, seq<byte>)>)
    ensures r.Some? ==> |r.value.1| < |b|
    decreases |b|, 0
  {
    if IsEof(b) then Some((ObjectEof, b[3..]))
    else if b == [] then None
    else if b[0] == STRING then
      match ReadUtf8(b[1..])
      case None => None
      case Some((s, rest)) => Some((String(s), rest))
    else if b[0] == BOOLEAN then
      if |b| < 2 then None else Some((Boolean(b[1] != 0), b[2..]))
    else if b[0] == NUMBER then
      if |b| < 9 then None else Some((Number(FromBytes(b[1..9])), b[9..]))
    else if b[0] == NULL then Some((Null, b[1..]))
    else if b[0] == UNDEFINED then Some((Undefined, b[1..]))
    else if b[0] == OBJECT then
      match ReadProps(b[1..], [])
      case None => None
      case Some((props, rest)) => Some((Object(props), rest))
    else if b[0] == ECMA_ARRAY then
      if |b| < 5 then None
      else
        match ReadProps(b[5..], [])
        case None => None
        case Some((props, rest)) => Some((EcmaArray(Signed(FromBytes(b[1..5]), 4), props), rest))
    else if b[0] == STRICT_ARRAY then
      if |b| < 5 then None
      else
        var count := Signed(FromBytes(b[1..5]), 4);
        match ReadElems(b[5..], count, [])
        case None => None
        case Some((elems, rest)) => Some((StrictArray(count, elems), rest))
    else if b[0] == DATE then
      if |b| < 11 then None
      else Some((Date(Signed(FromBytes(b[1..9]), 8), Signed(FromBytes(b[9..11]), 2)), b[11..]))
    else None
  }

  /** The loop that reads properties, with those read before it; it also ends at the end of the bytes. */
  function ReadProps(b: seq<byte>, acc: seq<Property>): (r: Option<(seq<Property>, seq<byte>)>)
    ensures r.Some? ==> |r.value.1| <= |b|
    decreases |b|, 1
  {
    if b == [] then Some((acc, []))
    else if IsEof(b) then Some((acc, b[3..]))
    else
      match ReadUtf8(b)
      case None => None
      case Some((key, b1)) =>
        match Read(b1)
        case None => None
        case Some((value, b2)) => ReadProps(b2, Set(acc, key, value))
  }

  /** The loop that reads elements: at most `count` more, and it also ends at the end of the bytes. */
  function ReadElems(b: seq<byte>, count: int, acc: seq<Value>): (r: Option<(seq<Value>, seq<byte>)>)
    ensures r.Some? ==> |r.value.1| <= |b|
    decreases |b|, 1
  {
    if count <= 0 || b == [] then Some((acc, b))
    else
      match Read(b)
      case None => None
      case Some((elem, b1)) => ReadElems(b1, count - 1, acc + [elem])
  }

  // ---------------------------------------------------------------- round trip

  const MAX_TEXT := 0x7FFF

  /** No two properties have the same name. */
  ghost predicate DistinctKeys(props: seq<Property>) {
    forall i, j :: 0 <= i < j < |props| ==> props[i].key != props[j].key
  }

  /** A number that does not start with 00 09 after its marker. */
  predicate NotLikeEof(bits: Bits64) {
    bits / 0x1_0000_0000_0000 != OBJECT_END
  }

  /** The values that the format can carry. */
  ghost predicate Faithful(v: Value) {
    match v
    case String(s) => |s| <= MAX_TEXT
    case Number(bits) => NotLikeEof(bits)
    case Object(props) => FaithfulProps(props)
    case EcmaArray(_, props) => FaithfulProps(props)
    case StrictArray(count, elems) =>
      |elems| == (if count < 0 then 0 else count) && forall i :: 0 <= i < |elems| ==> Faithful(elems[i])
    case _ => true
  }

  ghost predicate FaithfulProps(props: seq<Property>) {
    DistinctKeys(props) && forall i :: 0 <= i < |props| ==> FaithfulProperty(props[i])
  }

  ghost predicate FaithfulProperty(p: Property) {
    |p.key| <= MAX_TEXT && Faithful(p.value)
  }

  /** The length field of a short string. */
  lemma LengthField(n: nat)
    requires n <= 0x7FFF
    ensures FromBytes(ToBytes(n, LENGTH_BYTES)) == n && Signed(n, 2) == n
  {
    BytesRoundTrip(n, 2);
  }

  lemma Utf8RoundTrip(s: seq<byte>, rest: seq<byte>)
    requires |s| <= MAX_TEXT
    ensures ReadUtf8(EncodeUtf8(s) + rest) == Some((s, rest))
  {
    LengthField(|s|);
    ReadCounted(ToBytes(|s|, LENGTH_BYTES), s, rest);
  }

  lemma ReadCounted(len: seq<byte>, s: seq<byte>, rest: seq<byte>)
    requires |len| == 2 && Signed(FromBytes(len), 2) == |s|
    ensures ReadUtf8(len + s + rest) == Some((s, rest))
  {
    var b := len + s + rest;
    assert b[..2] == len && b[2..] == s + rest;
    assert b[2..2 + |s|] == s && b[2 + |s|..] == rest;
  }

  lemma {:induction false} EraseAbsent(props: seq<Property>, key: seq<byte>)
    requires forall i :: 0 <= i < |props| ==> props[i].key != key
    ensures Erase(props, key) == props
  {
    if props != [] {
      EraseAbsent(props[1..], key);
    }
  }

  lemma NumberRoundTrips(bits: Bits64, rest: seq<byte>)
    requires NotLikeEof(bits)
    ensures Read(Encode(Number(bits)) + rest) == Some((Number(bits), rest))
  {
    var e := ToBytes(bits, NUMBER_BYTES);
    var b := Encode(Number(bits)) + rest;
    BytesRoundTrip(bits, 8);
    TopBytes(e);
    assert b[1..9] == e && b[9..] == rest;
    assert b[..3] == [NUMBER, e[0], e[1]];
  }

  lemma StringRoundTrips(s: seq<byte>, rest: seq<byte>)
    requires |s| <= MAX_TEXT
    ensures Read(Encode(String(s)) + rest) == Some((String(s), rest))
  {
    var b := Encode(String(s)) + rest;
    Utf8RoundTrip(s, rest);
    assert b[1..] == EncodeUtf8(s) + rest;
    assert |b| >= 3 ==> b[..3][0] == STRING;
  }

  lemma DateRoundTrips(ms: Int64, zone: Int16, rest: seq<byte>)
    ensures Read(Encode(Date(ms, zone)) + rest) == Some((Date(ms, zone), rest))
  {
    SignedRoundTrip(ms, 8);
    BytesRoundTrip(Unsigned(ms, 8), 8);
    SignedRoundTrip(zone, 2);
    BytesRoundTrip(Unsigned(zone, 2), 2);
    DateReads(ToBytes(Unsigned(ms, 8), NUMBER_BYTES), ToBytes(Unsigned(zone, 2), LENGTH_BYTES), rest);
  }

  lemma DateReads(ms: seq<byte>, zone: seq<byte>, rest: seq<byte>)
    requires |ms| == 8 && |zone| == 2
    ensures Read([DATE] + ms + zone + rest) == Some((Date(Signed(FromBytes(ms), 8), Signed(FromBytes(zone), 2)), rest))
  {
    var b := [DATE] + ms + zone + rest;
    assert b[1..9] == ms && b[9..11] == zone && b[11..] == rest && b[..3][0] == DATE;
  }

  /**
    Every value that the format can carry is read back from its encoding, and the cursor is then
    exactly behind it, whatever follows.
   */
  lemma {:induction false} RoundTrip(v: Value, rest: seq<byte>)
    requires Faithful(v)
    ensures Read(Encode(v) + rest) == Some((v, rest))
    decreases v, 0
  {
    var b := Encode(v) + rest;
    match v
    case String(s) => StringRoundTrips(s, rest);
    case Boolean(flag) =>
      assert b[2..] == rest && b[..2] == Encode(v);
      assert |b| >= 3 ==> b[..3][0] == BOOLEAN;
    case Number(bits) => NumberRoundTrips(bits, rest);
    case Null => assert b[1..] == rest && (|b| >= 3 ==> b[..3][0] == NULL);
    case Undefined => assert b[1..] == rest && (|b| >= 3 ==> b[..3][0] == UNDEFINED);
    case Object(props) =>
      PropsRoundTrip(props, [], rest);
      ObjectRoundTrips(props, rest);
    case EcmaArray(count, props) =>
      PropsRoundTrip(props, [], rest);
      EcmaArrayRoundTrips(count, props, rest);
    case StrictArray(count, elems) =>
      ElemsRoundTrip(elems, [], count, rest);
      StrictArrayRoundTrips(count, elems, rest);
    case Date(ms, zone) => DateRoundTrips(ms, zone, rest);
    case ObjectEof => assert b[..3] == EOF && b[3..] == rest;
  }

  lemma ObjectRoundTrips(props: seq<Property>, rest: seq<byte>)
    requires ReadProps(EncodeProps(props) + EOF + rest, []) == Some(([] + props, rest))
    ensures Read(Encode(Object(props)) + rest) == Some((Object(props), rest))
  {
    ObjectReads(EncodeProps(props) + EOF + rest);
    Regroup([OBJECT], EncodeProps(props), EOF, rest);
    assert [] + props == props;
  }

  lemma ObjectReads(body: seq<byte>)
    ensures var r := ReadProps(body, []);
            Read([OBJECT] + body) == if r.None? then None else Some((Object(r.value.0), r.value.1))
  {
    var b := [OBJECT] + body;
    assert b[1..] == body && (|b| >= 3 ==> b[..3][0] == OBJECT);
  }

  /** The four bytes of a count. */
  lemma CountField(count: Int32)
    ensures Signed(FromBytes(ToBytes(Unsigned(count, 4), COUNT_BYTES)), 4) == count
  {
    SignedRoundTrip(count, 4);
    BytesRoundTrip(Unsigned(count, 4), 4);
  }

  lemma EcmaArrayRoundTrips(count: Int32, props: seq<Property>, rest: seq<byte>)
    requires ReadProps(EncodeProps(props) + EOF + rest, []) == Some(([] + props, rest))
    ensures Read(Encode(EcmaArray(count, props)) + rest) == Some((EcmaArray(count, props), rest))
  {
    CountField(count);
    var field := ToBytes(Unsigned(count, 4), COUNT_BYTES);
    EcmaArrayReads(field, EncodeProps(props) + EOF + rest);
    Regroup([ECMA_ARRAY] + field, EncodeProps(props), EOF, rest);
    assert [] + props == props;
  }

  lemma EcmaArrayReads(field: seq<byte>, body: seq<byte>)
    requires |field| == 4
    ensures var r := ReadProps(body, []);
            Read([ECMA_ARRAY] + field + body) ==
            if r.None? then None else Some((EcmaArray(Signed(FromBytes(field), 4), r.value.0), r.value.1))
  {
    var b := [ECMA_ARRAY] + field + body;
    assert b[1..5] == field && b[5..] == body && b[..3][0] == ECMA_ARRAY;
  }

  lemma StrictArrayRoundTrips(count: Int32, elems: seq<Value>, rest: seq<byte>)
    requires ReadElems(EncodeElems(elems) + rest, count, []) == Some(([] + elems, rest))
    ensures Read(Encode(StrictArray(count, elems)) + rest) == Some((StrictArray(count, elems), rest))
  {
    CountField(count);
    var field := ToBytes(Unsigned(count, 4), COUNT_BYTES);
    StrictArrayReads(field, EncodeElems(elems) + rest);
    Associative([STRICT_ARRAY] + field, EncodeElems(elems), rest);
    assert [] + elems == elems;
  }

  lemma StrictArrayReads(field: seq<byte>, body: seq<byte>)
    requires |field| == 4
    ensures var count := Signed(FromBytes(field), 4); var r := ReadElems(body, count, []);
            Read([STRICT_ARRAY] + field + body) ==
            if r.None? then None else Some((StrictArray(count, r.value.0), r.value.1))
  {
    var b := [STRICT_ARRAY] + field + body;
    assert b[1..5] == field && b[5..] == body && b[..3][0] == STRICT_ARRAY;
  }

  lemma {:induction false} PropertyRoundTrip(p: Property, rest: seq<byte>)
    requires FaithfulProperty(p)
    ensures var b := EncodeProperty(p) + rest;
            && !IsEof(b) && b != []
            && ReadUtf8(b) == Some((p.key, Encode(p.value) + rest))
            && Read(Encode(p.value) + rest) == Some((p.value, rest))
  {
    var b := EncodeProperty(p) + rest;
    assert b == EncodeUtf8(p.key) + (Encode(p.value) + rest);
    Utf8RoundTrip(p.key, Encode(p.value) + rest);
    RoundTrip(p.value, rest);
    KeyIsNotEof(p, rest);
  }

  /** A key and the value behind it never look like an object end. */
  lemma KeyIsNotEof(p: Property, rest: seq<byte>)
    requires |p.key| <= MAX_TEXT
    ensures !IsEof(EncodeProperty(p) + rest)
  {
    ZeroLength(|p.key|);
    FieldIsNotEof(ToBytes(|p.key|, LENGTH_BYTES), p.key, Encode(p.value), rest);
  }

  lemma ZeroLength(n: nat)
    requires n <= 0x7FFF
    ensures var len := ToBytes(n, LENGTH_BYTES); len[0] == 0 && len[1] == 0 ==> n == 0
  {
    LengthField(n);
    FromTwo(ToBytes(n, LENGTH_BYTES));
  }

  lemma FieldIsNotEof(len: seq<byte>, key: seq<byte>, e: seq<byte>, rest: seq<byte>)
    requires |len| == 2 && |e| > 0 && (len[0] == 0 && len[1] == 0 ==> key == [] && e[0] != OBJECT_END)
    ensures !IsEof(len + key + e + rest)
  {
    var b := len + key + e + rest;
    assert b[0] == len[0] && b[1] == len[1];
    if key == [] {
      assert b[2] == e[0];
    }
  }

  lemma {:induction false} PropsRoundTrip(props: seq<Property>, acc: seq<Property>, rest: seq<byte>)
    requires FaithfulProps(props) && DistinctKeys(acc + props)
    ensures ReadProps(EncodeProps(props) + EOF + rest, acc) == Some((acc + props, rest))
    decreases props, 1
  {
    var b := EncodeProps(props) + EOF + rest;
    if props == [] {
      assert b[..3] == EOF && b[3..] == rest && acc + [] == acc;
    } else {
      var p := props[0];
      var tail := EncodeProps(props[1..]) + EOF + rest;
      assert b == EncodeProperty(p) + tail;
      PropertyRoundTrip(p, tail);
      assert forall i :: 0 <= i < |acc| ==> (acc + props)[i] == acc[i];
      assert (acc + props)[|acc|] == p;
      EraseAbsent(acc, p.key);
      assert Set(acc, p.key, p.value) == acc + [p];
      assert (acc + [p]) + props[1..] == acc + props;
      PropsRoundTrip(props[1..], acc + [p], rest);
    }
  }

  lemma {:induction false} ElemsRoundTrip(elems: seq<Value>, acc: seq<Value>, count: int, rest: seq<byte>)
    requires forall i :: 0 <= i < |elems| ==> Faithful(elems[i])
    requires |elems| == if count < 0 then 0 else count
    ensures ReadElems(EncodeElems(elems) + rest, count, acc) == Some((acc + elems, rest))
    decreases elems, 1
  {
    var b := EncodeElems(elems) + rest;
    if elems == [] {
      assert b == rest && acc + [] == acc;
    } else {
      var tail := EncodeElems(elems[1..]) + rest;
      assert b == Encode(elems[0]) + tail;
      RoundTrip(elems[0], tail);
      assert (acc + [elems[0]]) + elems[1..] == acc + elems;
      ElemsRoundTrip(elems[1..], acc + [elems[0]], count - 1, rest);
    }
  }

  // ---------------------------------------------------------------- what reading can return

  lemma Utf8IsShort(b: seq<byte>)
    requires ReadUtf8(b).Some?
    ensures |ReadUtf8(b).value.0| <= MAX_TEXT
  {
  }

  lemma {:induction false} EraseFaithful(props: seq<Property>, key: seq<byte>)
    requires FaithfulProps(props)
    ensures FaithfulProps(Erase(props, key))
    ensures forall i :: 0 <= i < |Erase(props, key)| ==> Erase(props, key)[i].key != key && Erase(props, key)[i] in props
  {
    if props != [] {
      EraseFaithful(props[1..], key);
      if props[0].key == key {
        assert forall i :: 0 <= i < |props[1..]| ==> props[1..][i] == props[i + 1];
      } else {
        assert forall i :: 0 <= i < |Erase(props[1..], key)| ==> Erase(props[1..], key)[i] in props[1..];
        assert forall p :: p in props[1..] ==> p.key != props[0].key;
      }
    }
  }

  lemma SetFaithful(props: seq<Property>, key: seq<byte>, value: Value)
    requires FaithfulProps(props) && |key| <= MAX_TEXT && Faithful(value)
    ensures FaithfulProps(Set(props, key, value))
  {
    EraseFaithful(props, key);
  }

  /** A value that was read before the end of the bytes can be carried by the format. */
  lemma {:induction false} ReadIsFaithful(b: seq<byte>)
    requires Read(b).Some? && Read(b).value.1 != []
    ensures Faithful(Read(b).value.0)
    decreases |b|, 0
  {
    if IsEof(b) {
    } else if b[0] == STRING {
      Utf8IsShort(b[1..]);
    } else if b[0] == NUMBER {
      TopBytes(b[1..9]);
      assert b[..3] == [b[0], b[1], b[2]];
    } else if b[0] == OBJECT {
      PropsAreFaithful(b[1..], []);
    } else if b[0] == ECMA_ARRAY {
      PropsAreFaithful(b[5..], []);
    } else if b[0] == STRICT_ARRAY {
      ElemsAreFaithful(b[5..], Signed(FromBytes(b[1..5]), 4), []);
    }
  }

  lemma {:induction false} PropsAreFaithful(b: seq<byte>, acc: seq<Property>)
    requires FaithfulProps(acc) && ReadProps(b, acc).Some? && ReadProps(b, acc).value.1 != []
    ensures FaithfulProps(ReadProps(b, acc).value.0)
    decreases |b|, 1
  {
    if !IsEof(b) {
      var (key, b1) := ReadUtf8(b).value;
      var (value, b2) := Read(b1).value;
      Utf8IsShort(b);
      ReadIsFaithful(b1);
      SetFaithful(acc, key, value);
      PropsAreFaithful(b2, Set(acc, key, value));
    }
  }

  lemma {:induction false} ElemsAreFaithful(b: seq<byte>, count: int, acc: seq<Value>)
    requires forall i :: 0 <= i < |acc| ==> Faithful(acc[i])
    requires ReadElems(b, count, acc).Some? && ReadElems(b, count, acc).value.1 != []
    ensures var elems := ReadElems(b, count, acc).value.0;
            && |elems| == |acc| + (if count < 0 then 0 else count)
            && forall i :: 0 <= i < |elems| ==> Faithful(elems[i])
    decreases |b|, 1
  {
    if count > 0 {
      var (elem, b1) := Read(b).value;
      ReadIsFaithful(b);
      ElemsAreFaithful(b1, count - 1, acc + [elem]);
    }
  }

  /**
    Exactly when a value survives: reading its encoding gives it back, whatever bytes follow, iff
    it and the values in it have short strings and keys, distinct keys, as many elements as a
    strict array counts, and no number that starts like an object end.
   */
  lemma SurvivesIffFaithful(v: Value)
    ensures Faithful(v) <==> forall rest :: Read(Encode(v) + rest) == Some((v, rest))
  {
    if Faithful(v) {
      forall rest
        ensures Read(Encode(v) + rest) == Some((v, rest))
      {
        RoundTrip(v, rest);
      }
    }
    if forall rest :: Read(Encode(v) + rest) == Some((v, rest)) {
      var rest: seq<byte> := [0];
      assert Read(Encode(v) + rest) == Some((v, rest));
      ReadIsFaithful(Encode(v) + rest);
    }
  }

  /** Two values with the same bytes are the same, and no encoding is a proper prefix of another. */
  lemma EncodingIsPrefixFree(v: Value, w: Value, rest: seq<byte>)
    requires Faithful(v) && Faithful(w) && Encode(v) + rest == Encode(w)
    ensures v == w && rest == []
  {
    RoundTrip(v, rest);
    RoundTrip(w, []);
    assert Encode(w) + [] == Encode(w);
  }

  /** A number that starts like an object end is read as one, and most of its bytes are left over. */
  lemma NumberLikeEofIsLost(bits: Bits64, rest: seq<byte>)
    requires !NotLikeEof(bits)
    ensures Read(Encode(Number(bits)) + rest) == Some((ObjectEof, Encode(Number(bits))[3..] + rest))
  {
    var e := ToBytes(bits, NUMBER_BYTES);
    var b := Encode(Number(bits)) + rest;
    BytesRoundTrip(bits, 8);
    TopBytes(e);
    assert b[..3] == [NUMBER, e[0], e[1]];
    assert b[3..] == Encode(Number(bits))[3..] + rest;
  }
}
