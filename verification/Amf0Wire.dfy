/**
  The bytes of AMF0 values as the Adobe AMF 0 specification lays them out (sections 1.3.1 and 2.2 to
  2.13): the markers, the widths of the fields and the order of their bytes.
 */
module Amf0Wire {
  import opened Wrappers
  import opened ByteBuffer
  import opened Amf0

  /** Byte i of a number in n bytes is worth 256^(n-1-i). */
  lemma {:induction false} ByteIsWorth(v: nat, n: nat, i: nat)
    requires i < n
    ensures ToBytes(v, n)[i] == v / Pow256(n - 1 - i) % 256
  {
    if i < n - 1 {
      ByteIsWorth(v / 256, n - 1, i);
      assert ToBytes(v, n)[i] == ToBytes(v / 256, n - 1)[i];
      DivideTwice(v, 256, Pow256(n - 2 - i));
      assert Pow256(n - 1 - i) == 256 * Pow256(n - 2 - i);
    }
  }

  /** The bytes of a field, the highest first. */
  ghost predicate BigEndian(b: seq<byte>, v: nat) {
    forall i :: 0 <= i < |b| ==> b[i] == v / Pow256(|b| - 1 - i) % 256
  }

  lemma FieldIsBigEndian(v: nat, n: nat)
    ensures BigEndian(ToBytes(v, n), v)
  {
    forall i | 0 <= i < n
      ensures ToBytes(v, n)[i] == v / Pow256(n - 1 - i) % 256
    {
      ByteIsWorth(v, n, i);
    }
  }

  /** A length in two bytes and the text. */
  predicate TextOf(b: seq<byte>, s: seq<byte>) {
    |b| == 2 + |s| && b[0] == |s| / 256 % 256 && b[1] == |s| % 256 && b[2..] == s
  }

  lemma {:induction false} Low16IsRemainder(n: nat)
    ensures Low16(n) == n % 0x1_0000
  {
    if n >= 0x1_0000 {
      Low16IsRemainder(n - 0x1_0000);
    }
  }

  lemma TextIsLaidOut(s: seq<byte>)
    ensures TextOf(EncodeUtf8(s), s)
  {
    Low16IsRemainder(|s|);
    LengthBytes(|s|);
    var field := ToBytes(Low16(|s|), LENGTH_BYTES);
    assert (field + s)[0] == field[0] && (field + s)[1] == field[1] && (field + s)[2..] == s;
  }

  lemma LengthBytes(n: nat)
    ensures var field := ToBytes(n % 0x1_0000, 2); field[0] == n / 256 % 256 && field[1] == n % 256
  {
    var low := n % 0x1_0000;
    assert Pow256(0) == 1 && Pow256(1) == 256;
    ByteIsWorth(low, 2, 0);
    ByteIsWorth(low, 2, 1);
    HighByte(n / 0x1_0000, low);
  }

  lemma HighByte(q: nat, low: nat)
    requires low < 0x1_0000
    ensures (q * 0x1_0000 + low) / 256 % 256 == low / 256 && (q * 0x1_0000 + low) % 256 == low % 256
  {
    assert (q * 0x1_0000 + low) / 256 == q * 256 + low / 256;
  }

  /** Values without parts. */
  lemma PlainValuesAreLaidOut()
    ensures Encode(Boolean(false)) == [1, 0] && Encode(Boolean(true)) == [1, 1]
    ensures Encode(Null) == [5] && Encode(Undefined) == [6] && Encode(ObjectEof) == [0, 0, 9]
    ensures Encode(Object([])) == [3, 0, 0, 9]
  {
  }

  lemma NumberIsLaidOut(bits: Bits64)
    ensures var b := Encode(Number(bits)); |b| == 9 && b[0] == 0 && BigEndian(b[1..], bits)
  {
    FieldIsBigEndian(bits, NUMBER_BYTES);
  }

  lemma StringIsLaidOut(s: seq<byte>)
    ensures var b := Encode(String(s)); b != [] && b[0] == 2 && TextOf(b[1..], s)
  {
    TextIsLaidOut(s);
  }

  /** Milliseconds and a time zone, as two's complements. */
  lemma DateIsLaidOut(ms: Int64, zone: Int16)
    ensures var b := Encode(Date(ms, zone));
            && |b| == 11 && b[0] == 11
            && BigEndian(b[1..9], if ms < 0 then ms + 0x1_0000_0000_0000_0000 else ms)
            && BigEndian(b[9..], if zone < 0 then zone + 0x1_0000 else zone)
  {
    FieldIsBigEndian(Unsigned(ms, 8), NUMBER_BYTES);
    FieldIsBigEndian(Unsigned(zone, 2), LENGTH_BYTES);
    var b := Encode(Date(ms, zone));
    assert b[1..9] == ToBytes(Unsigned(ms, 8), NUMBER_BYTES) && b[9..] == ToBytes(Unsigned(zone, 2), LENGTH_BYTES);
  }

  /** The fields of a marker and a count, and what follows them. */
  predicate CountedOf(b: seq<byte>, marker: byte, count: Int32, body: seq<byte>) {
    && |b| == 5 + |body| && b[0] == marker && b[5..] == body
    && var v := if count < 0 then count + 0x1_0000_0000 else count;
       b[1] == v / 0x100_0000 && b[2] == v / 0x1_0000 % 256 && b[3] == v / 256 % 256 && b[4] == v % 256
  }

  lemma CountIsLaidOut(marker: byte, count: Int32, body: seq<byte>)
    ensures CountedOf([marker] + ToBytes(Unsigned(count, 4), COUNT_BYTES) + body, marker, count, body)
  {
    var v := Unsigned(count, 4);
    var field := ToBytes(v, COUNT_BYTES);
    assert Pow256(0) == 1 && Pow256(1) == 256 && Pow256(2) == 0x1_0000 && Pow256(3) == 0x100_0000 && Pow256(4) == 0x1_0000_0000;
    ByteIsWorth(v, 4, 0);
    ByteIsWorth(v, 4, 1);
    ByteIsWorth(v, 4, 2);
    ByteIsWorth(v, 4, 3);
    var b := [marker] + field + body;
    assert forall i :: 0 <= i < 4 ==> b[1 + i] == field[i];
    assert v / 0x100_0000 < 256;
  }

  /** Properties are texts with values behind them; an empty text and the end marker close an object. */
  lemma {:induction false} PropsAreLaidOut(props: seq<Property>)
    ensures EncodeProps([]) == []
    ensures props != [] ==> exists text :: TextOf(text, props[0].key)
                                           && EncodeProps(props) == text + Encode(props[0].value) + EncodeProps(props[1..])
  {
    if props != [] {
      var text := EncodeUtf8(props[0].key);
      TextIsLaidOut(props[0].key);
      assert TextOf(text, props[0].key) && EncodeProps(props) == text + Encode(props[0].value) + EncodeProps(props[1..]);
    }
  }

  lemma {:induction false} ElemsAreLaidOut(elems: seq<Value>)
    ensures EncodeElems([]) == []
    ensures elems != [] ==> EncodeElems(elems) == Encode(elems[0]) + EncodeElems(elems[1..])
  {
  }

  lemma ContainersAreLaidOut(count: Int32, props: seq<Property>, elems: seq<Value>)
    ensures Encode(Object(props)) == [3] + EncodeProps(props) + [0, 0, 9]
    ensures CountedOf(Encode(EcmaArray(count, props)), 8, count, EncodeProps(props) + [0, 0, 9])
    ensures CountedOf(Encode(StrictArray(count, elems)), 10, count, EncodeElems(elems))
  {
    CountIsLaidOut(8, count, EncodeProps(props) + [0, 0, 9]);
    CountIsLaidOut(10, count, EncodeElems(elems));
    var head := [ECMA_ARRAY] + ToBytes(Unsigned(count, 4), COUNT_BYTES);
    Associative(head, EncodeProps(props), EOF);
  }

  // ---------------------------------------------------------------- what has been read

  /** What the bytes in front of `rest` must be for a value to be read from them. */
  ghost predicate ReadFrom(b: seq<byte>, v: Value, rest: seq<byte>) {
    match v
    case ObjectEof => b == [0, 0, 9] + rest
    case Null => b == [5] + rest
    case Undefined => b == [6] + rest
    case Boolean(flag) => |b| >= 2 && b == [1, b[1]] + rest && (flag <==> b[1] != 0)
    case Number(bits) => b == Encode(v) + rest
    case Date(_, _) => b == Encode(v) + rest
    case String(s) => |b| >= 3 && b[0] == 2 && if b[1] < 0x80 then b == Encode(v) + rest else s == [] && rest == b[3..]
    case Object(_) => b != [] && b[0] == 3
    case EcmaArray(count, _) => |b| >= 5 && CountedOf(b, 8, count, b[5..])
    case StrictArray(count, _) => |b| >= 5 && CountedOf(b, 10, count, b[5..])
  }

  /** A value is read only from its marker and its fields; a string whose length looks negative is read as empty. */
  lemma {:induction false} ReadIsThere(b: seq<byte>)
    requires Read(b).Some?
    ensures ReadFrom(b, Read(b).value.0, Read(b).value.1)
  {
    if IsEof(b) {
      assert b == b[..3] + b[3..];
    } else if b[0] == STRING {
      StringIsThere(b);
    } else if b[0] == NUMBER {
      NumberRoundTrip(b[1..9]);
      assert b == [NUMBER] + b[1..9] + b[9..];
    } else if b[0] == ECMA_ARRAY || b[0] == STRICT_ARRAY {
      CountIsThere(b);
    } else if b[0] == DATE {
      DateIsThere(b);
    }
  }

  lemma StringIsThere(b: seq<byte>)
    requires b != [] && b[0] == STRING && ReadUtf8(b[1..]).Some?
    ensures ReadFrom(b, String(ReadUtf8(b[1..]).value.0), ReadUtf8(b[1..]).value.1)
  {
    var t := b[1..];
    LengthSign(t[..2]);
    if b[1] < 0x80 {
      TextIsThere(t);
      assert b == [STRING] + t;
    }
  }

  lemma LengthSign(field: seq<byte>)
    requires |field| == 2
    ensures field[0] < 0x80 ==> Signed(FromBytes(field), 2) == FromBytes(field) < 0x8000
    ensures field[0] >= 0x80 ==> Signed(FromBytes(field), 2) < 0
  {
    FromTwo(field);
    assert Pow256(2) == 0x1_0000;
  }

  lemma TextIsThere(t: seq<byte>)
    requires |t| >= 2 && t[0] < 0x80 && ReadUtf8(t).Some?
    ensures t == EncodeUtf8(ReadUtf8(t).value.0) + ReadUtf8(t).value.1
  {
    var field := t[..2];
    LengthSign(field);
    var s, rest := ReadUtf8(t).value.0, ReadUtf8(t).value.1;
    assert t == field + t[2..];
    assert |s| == FromBytes(field) && t[2..] == s + rest;
    EncodedFrom(field, s);
    Associative(field, s, rest);
  }

  lemma EncodedFrom(field: seq<byte>, s: seq<byte>)
    requires |field| == 2 && FromBytes(field) == |s| < 0x8000
    ensures EncodeUtf8(s) == field + s
  {
    NumberRoundTrip(field);
    Low16IsRemainder(|s|);
  }

  lemma TwosComplement(v: nat, n: nat)
    requires v < Pow256(n)
    ensures 0 <= Signed(v, n) + Pow256(n) && Unsigned(Signed(v, n), n) == v
  {
  }

  lemma CountIsThere(b: seq<byte>)
    requires |b| >= 5
    ensures CountedOf(b, b[0], Signed(FromBytes(b[1..5]), 4), b[5..])
  {
    var field := b[1..5];
    assert Pow256(4) == 0x1_0000_0000;
    NumberRoundTrip(field);
    TwosComplement(FromBytes(field), 4);
    CountIsLaidOut(b[0], Signed(FromBytes(field), 4), b[5..]);
    assert b == [b[0]] + field + b[5..];
  }

  lemma DateIsThere(b: seq<byte>)
    requires |b| >= 11 && b[0] == DATE
    ensures b == Encode(Date(Signed(FromBytes(b[1..9]), 8), Signed(FromBytes(b[9..11]), 2))) + b[11..]
  {
    NumberRoundTrip(b[1..9]);
    NumberRoundTrip(b[9..11]);
    TwosComplement(FromBytes(b[1..9]), 8);
    TwosComplement(FromBytes(b[9..11]), 2);
    assert b == [DATE] + b[1..9] + b[9..11] + b[11..];
  }
}
