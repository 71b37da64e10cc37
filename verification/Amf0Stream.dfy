/**
  The AMF0 reader and writer of `srs_protocol_amf0.cpp` on a `SrsBuffer`, proved against the
  functions of `Amf0`: they move the cursor and store bytes in place.
 */
module Amf0Stream {
  import opened Wrappers
  import opened ByteBuffer
  import opened Amf0
  import opened KeyedLists
  import Amf0Keys

  // ---------------------------------------------------------------- the hash table

  /** `SrsUnSortedHashtable`. */
  class Hashtable {
    var properties: seq<Property>

    constructor ()
      ensures properties == []
    {
      properties := [];
    }

    method Set(key: seq<byte>, value: Value)
      modifies this
      ensures properties == Amf0.Set(old(properties), key, value)
      ensures Replaced(old(properties), properties, KeyOf, Property(key, value))
    {
      Amf0Keys.SetReplaces(properties, key, value);
      var i := 0;
      ghost var all := properties;
      assert all[0..] == all && all[..0] == [];
      while i < |properties|
        invariant 0 <= i <= |properties| && properties == all
        invariant Erase(all, key) == all[..i] + Erase(all[i..], key)
      {
        EraseStep(all, i, key);
        if properties[i].key == key {
          properties := properties[..i] + properties[i + 1..];
          break;
        }
        i := i + 1;
      }
      assert properties == Erase(all, key);
      properties := properties + [Property(key, value)];
    }

    /** The first property of that name. */
    method GetProperty(name: seq<byte>) returns (r: Option<Value>)
      ensures r == Lookup(properties, name)
      ensures r == None <==> forall i :: 0 <= i < |properties| ==> properties[i].key != name
      ensures r.Some? ==> exists i :: 0 <= i < |properties| && properties[i] == Property(name, r.value)
                                      && forall j :: 0 <= j < i ==> properties[j].key != name
    {
      var i := 0;
      assert properties[0..] == properties;
      while i < |properties|
        invariant 0 <= i <= |properties|
        invariant forall j :: 0 <= j < i ==> properties[j].key != name
        invariant Lookup(properties, name) == Lookup(properties[i..], name)
      {
        if properties[i].key == name {
          return Some(properties[i].value);
        }
        i := i + 1;
      }
      return None;
    }
  }

  lemma EraseStep(all: seq<Property>, i: nat, key: seq<byte>)
    requires i < |all|
    ensures all[..i] + Erase(all[i..], key) ==
            if all[i].key == key then all[..i] + all[i + 1..] else all[..i + 1] + Erase(all[i + 1..], key)
  {
    assert all[i..] == [all[i]] + all[i + 1..] && all[i..][1..] == all[i + 1..];
    FrontAndOne(all, i);
    Associative(all[..i], [all[i]], Erase(all[i + 1..], key));
  }

  /** The value of the first property of that name. */
  function Lookup(props: seq<Property>, name: seq<byte>): Option<Value> {
    if props == [] then None
    else if props[0].key == name then Some(props[0].value)
    else Lookup(props[1..], name)
  }

  lemma {:induction false} LookupAppended(props: seq<Property>, p: Property, name: seq<byte>)
    ensures Lookup(props + [p], name) ==
            if Lookup(props, name).Some? then Lookup(props, name) else if p.key == name then Some(p.value) else None
  {
    if props != [] {
      assert (props + [p])[1..] == props[1..] + [p];
      LookupAppended(props[1..], p, name);
    } else {
      assert props + [p] == [p];
    }
  }

  lemma {:induction false} LookupErased(props: seq<Property>, key: seq<byte>, name: seq<byte>)
    requires DistinctKeys(props)
    ensures Lookup(Erase(props, key), name) == if name == key then None else Lookup(props, name)
  {
    if props != [] {
      LookupErased(props[1..], key, name);
      if props[0].key == key {
        LookupAbsent(props[1..], key);
      }
    }
  }

  lemma {:induction false} LookupAbsent(props: seq<Property>, key: seq<byte>)
    requires forall i :: 0 <= i < |props| ==> props[i].key != key
    ensures Lookup(props, key) == None
  {
    if props != [] {
      LookupAbsent(props[1..], key);
    }
  }

  /** A property that was set is the one found under its name; all others are found as before. */
  lemma SetThenLookup(props: seq<Property>, key: seq<byte>, value: Value, name: seq<byte>)
    requires DistinctKeys(props)
    ensures Lookup(Amf0.Set(props, key, value), name) == if name == key then Some(value) else Lookup(props, name)
  {
    LookupErased(props, key, name);
    LookupAppended(Erase(props, key), Property(key, value), name);
  }

  // ---------------------------------------------------------------- reading

  /** `srs_amf0_is_object_eof`: looks ahead and goes back. */
  method IsObjectEof(stream: SrsBuffer) returns (r: bool)
    requires stream.Valid()
    modifies stream
    ensures stream.Valid() && stream.p == old(stream.p)
    ensures r == IsEof(stream.Rest())
  {
    if stream.Require(3) {
      ghost var was := stream.Rest();
      var flag := stream.Read3Bytes();
      stream.Skip(-3);
      FromThree(was[..3]);
      return flag == 0x09;
    }
    return false;
  }

  /** `srs_amf0_read_utf8`. */
  method ReadText(stream: SrsBuffer) returns (r: Option<seq<byte>>)
    requires stream.Valid()
    modifies stream
    ensures stream.Valid() && stream.p >= old(stream.p)
    ensures r.None? ==> ReadUtf8(old(stream.Rest())) == None
    ensures r.Some? ==> ReadUtf8(old(stream.Rest())) == Some((r.value, stream.Rest()))
  {
    if !stream.Require(2) {
      return None;
    }
    ghost var was := stream.Rest();
    var len := stream.Read2Bytes();
    if len <= 0 {
      return Some([]);
    }
    if !stream.Require(len) {
      return None;
    }
    BehindLength(was, len);
    var text := stream.ReadString(len);
    return Some(text);
  }

  lemma BehindLength(b: seq<byte>, len: nat)
    requires len + 2 <= |b|
    ensures b[2..][..len] == b[2..2 + len] && b[2..][len..] == b[2 + len..]
  {
  }

  /** Fields behind the marker, counted from the marker and from what follows it. */
  lemma BehindMarker(b: seq<byte>)
    requires b != []
    ensures |b| >= 5 ==> b[1..5] == b[1..][..4] && b[5..] == b[1..][4..]
    ensures |b| >= 9 ==> b[1..9] == b[1..][..8] && b[9..] == b[1..][8..]
    ensures |b| >= 11 ==> b[9..11] == b[1..][8..10] && b[11..] == b[1..][10..]
    ensures |b| >= 2 ==> b[1] == b[1..][0] && b[2..] == b[1..][1..]
  {
  }

  /** `srs_amf0_read_any`; whatever the bytes are, it ends. */
  method ReadAny(stream: SrsBuffer) returns (r: Option<Value>)
    requires stream.Valid()
    modifies stream
    ensures stream.Valid() && stream.p >= old(stream.p)
    ensures r.None? ==> Read(old(stream.Rest())) == None
    ensures r.Some? ==> Read(old(stream.Rest())) == Some((r.value, stream.Rest()))
    decreases stream.bytes.Length - stream.p, 0
  {
    var eof := IsObjectEof(stream);
    if eof {
      stream.Skip(3);
      return Some(ObjectEof);
    }
    if !stream.Require(1) {
      return None;
    }
    BehindMarker(stream.Rest());
    var marker := stream.Read1Bytes();
    if marker == STRING {
      var text := ReadText(stream);
      r := if text.Some? then Some(String(text.value)) else None;
    } else if marker == BOOLEAN {
      if !stream.Require(1) {
        return None;
      }
      var flag := stream.Read1Bytes();
      r := Some(Boolean(flag != 0));
    } else if marker == NUMBER {
      r := ReadNumber(stream);
    } else if marker == NULL {
      r := Some(Null);
    } else if marker == UNDEFINED {
      r := Some(Undefined);
    } else if marker == OBJECT {
      var props := ReadProperties(stream);
      r := if props.Some? then Some(Object(props.value)) else None;
    } else if marker == ECMA_ARRAY {
      r := ReadEcmaArray(stream);
    } else if marker == STRICT_ARRAY {
      r := ReadStrictArray(stream);
    } else if marker == DATE {
      r := ReadDate(stream);
    } else {
      r := None;
    }
  }

  method ReadEcmaArray(stream: SrsBuffer) returns (r: Option<Value>)
    requires stream.Valid()
    modifies stream
    ensures stream.Valid() && stream.p >= old(stream.p)
    ensures var b := old(stream.Rest());
            if |b| < 4 then r == None
            else match ReadProps(b[4..], [])
                 case None => r == None
                 case Some((props, rest)) => r == Some(EcmaArray(Signed(FromBytes(b[..4]), 4), props)) && stream.Rest() == rest
    decreases stream.bytes.Length - stream.p, 2
  {
    if !stream.Require(4) {
      return None;
    }
    var count := stream.Read4Bytes();
    var props := ReadProperties(stream);
    r := if props.Some? then Some(EcmaArray(count, props.value)) else None;
  }

  method ReadStrictArray(stream: SrsBuffer) returns (r: Option<Value>)
    requires stream.Valid()
    modifies stream
    ensures stream.Valid() && stream.p >= old(stream.p)
    ensures var b := old(stream.Rest());
            if |b| < 4 then r == None
            else var count := Signed(FromBytes(b[..4]), 4);
                 match ReadElems(b[4..], count, [])
                 case None => r == None
                 case Some((elems, rest)) => r == Some(StrictArray(count, elems)) && stream.Rest() == rest
    decreases stream.bytes.Length - stream.p, 2
  {
    if !stream.Require(4) {
      return None;
    }
    var count := stream.Read4Bytes();
    var elems := ReadElements(stream, count);
    r := if elems.Some? then Some(StrictArray(count, elems.value)) else None;
  }

  method ReadNumber(stream: SrsBuffer) returns (r: Option<Value>)
    requires stream.Valid()
    modifies stream
    ensures stream.Valid() && stream.p >= old(stream.p)
    ensures r.None? <==> |old(stream.Rest())| < 8
    ensures r.Some? ==> r.value == Number(FromBytes(old(stream.Rest())[..8])) && stream.Rest() == old(stream.Rest())[8..]
  {
    if !stream.Require(8) {
      return None;
    }
    ghost var was := stream.Rest();
    var bits := stream.Read8Bytes();
    return Some(Number(Unsigned(bits, 8)));
  }

  method ReadDate(stream: SrsBuffer) returns (r: Option<Value>)
    requires stream.Valid()
    modifies stream
    ensures stream.Valid() && stream.p >= old(stream.p)
    ensures r.None? <==> |old(stream.Rest())| < 10
    ensures r.Some? ==>
              var b := old(stream.Rest());
              r.value == Date(Signed(FromBytes(b[..8]), 8), Signed(FromBytes(b[8..10]), 2)) && stream.Rest() == b[10..]
  {
    if !stream.Require(8) {
      return None;
    }
    ghost var was := stream.Rest();
    var ms := stream.Read8Bytes();
    if !stream.Require(2) {
      return None;
    }
    assert stream.Rest()[..2] == was[8..10];
    var zone := stream.Read2Bytes();
    return Some(Date(ms, zone));
  }

  /** The loop of `SrsAmf0Object::read` and `SrsAmf0EcmaArray::read`. */
  method ReadProperties(stream: SrsBuffer) returns (r: Option<seq<Property>>)
    requires stream.Valid()
    modifies stream
    ensures stream.Valid() && stream.p >= old(stream.p)
    ensures r.None? ==> ReadProps(old(stream.Rest()), []) == None
    ensures r.Some? ==> ReadProps(old(stream.Rest()), []) == Some((r.value, stream.Rest()))
    decreases stream.bytes.Length - stream.p, 1
  {
    var table := new Hashtable();
    ghost var all := ReadProps(stream.Rest(), []);
    while !stream.Empty()
      invariant stream.Valid() && stream.p >= old(stream.p)
      invariant ReadProps(stream.Rest(), table.properties) == all
      decreases stream.bytes.Length - stream.p
    {
      var eof := IsObjectEof(stream);
      if eof {
        stream.Skip(3);
        return Some(table.properties);
      }
      var name := ReadText(stream);
      if name.None? {
        return None;
      }
      var value := ReadAny(stream);
      if value.None? {
        return None;
      }
      table.Set(name.value, value.value);
    }
    return Some(table.properties);
  }

  /** The loop of `SrsAmf0StrictArray::read`. */
  method ReadElements(stream: SrsBuffer, count: Int32) returns (r: Option<seq<Value>>)
    requires stream.Valid()
    modifies stream
    ensures stream.Valid() && stream.p >= old(stream.p)
    ensures r.None? ==> ReadElems(old(stream.Rest()), count, []) == None
    ensures r.Some? ==> ReadElems(old(stream.Rest()), count, []) == Some((r.value, stream.Rest()))
    decreases stream.bytes.Length - stream.p, 1
  {
    var elems: seq<Value> := [];
    ghost var all := ReadElems(stream.Rest(), count, []);
    var i := 0;
    while i < count && !stream.Empty()
      invariant stream.Valid() && stream.p >= old(stream.p) && 0 <= i
      invariant ReadElems(stream.Rest(), count - i, elems) == all
      decreases count - i
    {
      var elem := ReadAny(stream);
      if elem.None? {
        return None;
      }
      elems := elems + [elem.value];
      i := i + 1;
    }
    return Some(elems);
  }

  // ---------------------------------------------------------------- writing

  /** e has been written from position p on if there was room for all of it, and otherwise only in part. */
  ghost predicate Sent(was: seq<byte>, p: nat, now: seq<byte>, p': nat, e: seq<byte>, ok: bool) {
    Wrote(was, p, now, p', e) && (ok <==> p + |e| <= |was|) && (ok ==> p' == p + |e|)
  }

  lemma SentThen(was: seq<byte>, p: nat, mid: seq<byte>, p1: nat, now: seq<byte>, p2: nat, e1: seq<byte>, e2: seq<byte>, ok: bool)
    requires Sent(was, p, mid, p1, e1, true) && Sent(mid, p1, now, p2, e2, ok)
    ensures Sent(was, p, now, p2, e1 + e2, ok)
  {
    WroteMore(was, p, mid, p1, now, p2, e1, e2);
  }

  lemma SentFails(was: seq<byte>, p: nat, now: seq<byte>, p': nat, e1: seq<byte>, e2: seq<byte>)
    requires Sent(was, p, now, p', e1, false)
    ensures Sent(was, p, now, p', e1 + e2, false)
  {
    WroteLess(was, p, now, p', e1, e2);
  }

  /** Stores e if there is room for it. */
  method TryWrite(stream: SrsBuffer, e: seq<byte>) returns (ok: bool)
    requires stream.Valid()
    modifies stream, stream.bytes
    ensures stream.Valid()
    ensures Sent(old(stream.bytes[..]), old(stream.p), stream.bytes[..], stream.p, e, ok)
  {
    if !stream.Require(|e|) {
      return false;
    }
    stream.WriteString(e);
    return true;
  }

  /** `srs_amf0_write_utf8`. */
  method WriteText(stream: SrsBuffer, s: seq<byte>) returns (ok: bool)
    requires stream.Valid()
    modifies stream, stream.bytes
    ensures stream.Valid()
    ensures Sent(old(stream.bytes[..]), old(stream.p), stream.bytes[..], stream.p, EncodeUtf8(s), ok)
  {
    var len := ToBytes(Low16(|s|), LENGTH_BYTES);
    ok := TryWrite(stream, len);
    if !ok {
      SentFails(old(stream.bytes[..]), old(stream.p), stream.bytes[..], stream.p, len, s);
      return;
    }
    if |s| == 0 {
      assert len + s == len;
      return;
    }
    ghost var mid, at := stream.bytes[..], stream.p;
    ok := TryWrite(stream, s);
    SentThen(old(stream.bytes[..]), old(stream.p), mid, at, stream.bytes[..], stream.p, len, s, ok);
  }

  /** `srs_amf0_write_any`: it succeeds iff `total_size` bytes are left, and then advances by exactly that. */
  method WriteAny(stream: SrsBuffer, v: Value) returns (ok: bool)
    requires stream.Valid()
    modifies stream, stream.bytes
    ensures stream.Valid()
    ensures Sent(old(stream.bytes[..]), old(stream.p), stream.bytes[..], stream.p, Encode(v), ok)
    ensures ok <==> TotalSize(v) <= old(stream.Left())
    ensures ok ==> stream.p == old(stream.p) + TotalSize(v)
    decreases v, 0
  {
    SizeIsExact(v);
    match v
    case String(s) => ok := WriteString(stream, s);
    case Boolean(flag) => ok := WriteTwo(stream, [BOOLEAN], [if flag then 1 else 0]);
    case Number(bits) => ok := WriteTwo(stream, [NUMBER], ToBytes(bits, NUMBER_BYTES));
    case Null => ok := TryWrite(stream, [NULL]);
    case Undefined => ok := TryWrite(stream, [UNDEFINED]);
    case Object(props) => ok := WriteObject(stream, [OBJECT], props);
    case EcmaArray(count, props) =>
      ok := WriteEcmaArray(stream, count, props);
    case StrictArray(count, elems) =>
      ok := WriteStrictArray(stream, count, elems);
    case Date(ms, zone) => ok := WriteDate(stream, ms, zone);
    case ObjectEof => ok := WriteTwo(stream, [0, 0], [OBJECT_END]);
  }

  method WriteEcmaArray(stream: SrsBuffer, count: Int32, props: seq<Property>) returns (ok: bool)
    requires stream.Valid()
    modifies stream, stream.bytes
    ensures stream.Valid()
    ensures Sent(old(stream.bytes[..]), old(stream.p), stream.bytes[..], stream.p, Encode(EcmaArray(count, props)), ok)
    decreases props, 3
  {
    ok := WriteCount(stream, ECMA_ARRAY, count);
    ghost var head := [ECMA_ARRAY] + ToBytes(Unsigned(count, 4), COUNT_BYTES);
    assert head + (EncodeProps(props) + EOF) == Encode(EcmaArray(count, props));
    if !ok {
      SentFails(old(stream.bytes[..]), old(stream.p), stream.bytes[..], stream.p, head, EncodeProps(props) + EOF);
      return;
    }
    ghost var mid, at := stream.bytes[..], stream.p;
    ok := WriteObject(stream, [], props);
    assert [] + EncodeProps(props) + EOF == EncodeProps(props) + EOF;
    SentThen(old(stream.bytes[..]), old(stream.p), mid, at, stream.bytes[..], stream.p, head, EncodeProps(props) + EOF, ok);
  }

  method WriteStrictArray(stream: SrsBuffer, count: Int32, elems: seq<Value>) returns (ok: bool)
    requires stream.Valid()
    modifies stream, stream.bytes
    ensures stream.Valid()
    ensures Sent(old(stream.bytes[..]), old(stream.p), stream.bytes[..], stream.p, Encode(StrictArray(count, elems)), ok)
    decreases elems, 3
  {
    ok := WriteCount(stream, STRICT_ARRAY, count);
    ghost var head := [STRICT_ARRAY] + ToBytes(Unsigned(count, 4), COUNT_BYTES);
    if !ok {
      SentFails(old(stream.bytes[..]), old(stream.p), stream.bytes[..], stream.p, head, EncodeElems(elems));
      return;
    }
    ghost var mid, at := stream.bytes[..], stream.p;
    ok := WriteElements(stream, elems);
    SentThen(old(stream.bytes[..]), old(stream.p), mid, at, stream.bytes[..], stream.p, head, EncodeElems(elems), ok);
  }

  /** Two fields, each with its own check for room. */
  method WriteTwo(stream: SrsBuffer, e1: seq<byte>, e2: seq<byte>) returns (ok: bool)
    requires stream.Valid()
    modifies stream, stream.bytes
    ensures stream.Valid()
    ensures Sent(old(stream.bytes[..]), old(stream.p), stream.bytes[..], stream.p, e1 + e2, ok)
  {
    ok := TryWrite(stream, e1);
    if !ok {
      SentFails(old(stream.bytes[..]), old(stream.p), stream.bytes[..], stream.p, e1, e2);
      return;
    }
    ghost var mid, at := stream.bytes[..], stream.p;
    ok := TryWrite(stream, e2);
    SentThen(old(stream.bytes[..]), old(stream.p), mid, at, stream.bytes[..], stream.p, e1, e2, ok);
  }

  method WriteCount(stream: SrsBuffer, marker: byte, count: Int32) returns (ok: bool)
    requires stream.Valid()
    modifies stream, stream.bytes
    ensures stream.Valid()
    ensures Sent(old(stream.bytes[..]), old(stream.p), stream.bytes[..], stream.p, [marker] + ToBytes(Unsigned(count, 4), COUNT_BYTES), ok)
  {
    ok := WriteTwo(stream, [marker], ToBytes(Unsigned(count, 4), COUNT_BYTES));
  }

  method WriteDate(stream: SrsBuffer, ms: Int64, zone: Int16) returns (ok: bool)
    requires stream.Valid()
    modifies stream, stream.bytes
    ensures stream.Valid()
    ensures Sent(old(stream.bytes[..]), old(stream.p), stream.bytes[..], stream.p, Encode(Date(ms, zone)), ok)
  {
    var e1, e2 := ToBytes(Unsigned(ms, 8), NUMBER_BYTES), ToBytes(Unsigned(zone, 2), LENGTH_BYTES);
    ok := WriteTwo(stream, [DATE], e1);
    if !ok {
      SentFails(old(stream.bytes[..]), old(stream.p), stream.bytes[..], stream.p, [DATE] + e1, e2);
      return;
    }
    ghost var mid, at := stream.bytes[..], stream.p;
    ok := TryWrite(stream, e2);
    SentThen(old(stream.bytes[..]), old(stream.p), mid, at, stream.bytes[..], stream.p, [DATE] + e1, e2, ok);
  }

  method WriteString(stream: SrsBuffer, s: seq<byte>) returns (ok: bool)
    requires stream.Valid()
    modifies stream, stream.bytes
    ensures stream.Valid()
    ensures Sent(old(stream.bytes[..]), old(stream.p), stream.bytes[..], stream.p, Encode(String(s)), ok)
  {
    ok := TryWrite(stream, [STRING]);
    if !ok {
      SentFails(old(stream.bytes[..]), old(stream.p), stream.bytes[..], stream.p, [STRING], EncodeUtf8(s));
      return;
    }
    ghost var mid, at := stream.bytes[..], stream.p;
    ok := WriteText(stream, s);
    SentThen(old(stream.bytes[..]), old(stream.p), mid, at, stream.bytes[..], stream.p, [STRING], EncodeUtf8(s), ok);
  }

  /** The properties and the end of an object or ecma array, behind `head`. */
  method WriteObject(stream: SrsBuffer, head: seq<byte>, props: seq<Property>) returns (ok: bool)
    requires stream.Valid()
    modifies stream, stream.bytes
    ensures stream.Valid()
    ensures Sent(old(stream.bytes[..]), old(stream.p), stream.bytes[..], stream.p, head + EncodeProps(props) + EOF, ok)
    decreases props, 2
  {
    ok := TryWrite(stream, head);
    if !ok {
      SentFails(old(stream.bytes[..]), old(stream.p), stream.bytes[..], stream.p, head, EncodeProps(props) + EOF);
      assert head + (EncodeProps(props) + EOF) == head + EncodeProps(props) + EOF;
      return;
    }
    ghost var mid, at := stream.bytes[..], stream.p;
    ok := WriteProperties(stream, props);
    SentThen(old(stream.bytes[..]), old(stream.p), mid, at, stream.bytes[..], stream.p, head, EncodeProps(props), ok);
    if !ok {
      SentFails(old(stream.bytes[..]), old(stream.p), stream.bytes[..], stream.p, head + EncodeProps(props), EOF);
      return;
    }
    mid, at := stream.bytes[..], stream.p;
    ok := WriteTwo(stream, [0, 0], [OBJECT_END]);
    assert [0, 0] + [OBJECT_END] == EOF;
    SentThen(old(stream.bytes[..]), old(stream.p), mid, at, stream.bytes[..], stream.p, head + EncodeProps(props), EOF, ok);
  }

  method WriteProperty(stream: SrsBuffer, p: Property) returns (ok: bool)
    requires stream.Valid()
    modifies stream, stream.bytes
    ensures stream.Valid()
    ensures Sent(old(stream.bytes[..]), old(stream.p), stream.bytes[..], stream.p, EncodeProperty(p), ok)
    decreases p, 1
  {
    ok := WriteText(stream, p.key);
    if !ok {
      SentFails(old(stream.bytes[..]), old(stream.p), stream.bytes[..], stream.p, EncodeUtf8(p.key), Encode(p.value));
      return;
    }
    ghost var mid, at := stream.bytes[..], stream.p;
    ok := WriteAny(stream, p.value);
    SentThen(old(stream.bytes[..]), old(stream.p), mid, at, stream.bytes[..], stream.p, EncodeUtf8(p.key), Encode(p.value), ok);
  }

  lemma {:induction false} PropsSplit(a: seq<Property>, b: seq<Property>)
    ensures EncodeProps(a + b) == EncodeProps(a) + EncodeProps(b)
  {
    if a == [] {
      assert a + b == b;
    } else {
      assert (a + b)[1..] == a[1..] + b;
      PropsSplit(a[1..], b);
    }
  }

  lemma PropsOne(p: Property)
    ensures EncodeProps([p]) == EncodeProperty(p)
  {
    assert [p][1..] == [];
    assert EncodeProps([p]) == EncodeProperty(p) + EncodeProps([]);
  }

  lemma PropsAround(props: seq<Property>, i: nat)
    requires i < |props|
    ensures EncodeProps(props[..i + 1]) == EncodeProps(props[..i]) + EncodeProperty(props[i])
    ensures EncodeProps(props) == EncodeProps(props[..i + 1]) + EncodeProps(props[i + 1..])
  {
    FrontAndOne(props, i);
    PropsAppended(props[..i + 1], props[..i], props[i]);
    PropsJoined(props, props[..i + 1], props[i + 1..]);
  }

  lemma PropsAppended(all: seq<Property>, front: seq<Property>, p: Property)
    requires all == front + [p]
    ensures EncodeProps(all) == EncodeProps(front) + EncodeProperty(p)
  {
    PropsSplit(front, [p]);
    PropsOne(p);
  }

  lemma PropsJoined(all: seq<Property>, front: seq<Property>, back: seq<Property>)
    requires all == front + back
    ensures EncodeProps(all) == EncodeProps(front) + EncodeProps(back)
  {
    PropsSplit(front, back);
  }

  method WriteProperties(stream: SrsBuffer, props: seq<Property>) returns (ok: bool)
    requires stream.Valid()
    modifies stream, stream.bytes
    ensures stream.Valid()
    ensures Sent(old(stream.bytes[..]), old(stream.p), stream.bytes[..], stream.p, EncodeProps(props), ok)
    decreases props, 1
  {
    var i := 0;
    while i < |props|
      invariant 0 <= i <= |props|
      invariant stream.Valid()
      invariant Sent(old(stream.bytes[..]), old(stream.p), stream.bytes[..], stream.p, EncodeProps(props[..i]), true)
    {
      PropsAround(props, i);
      ghost var mid, at := stream.bytes[..], stream.p;
      ok := WriteProperty(stream, props[i]);
      SentThen(old(stream.bytes[..]), old(stream.p), mid, at, stream.bytes[..], stream.p,
               EncodeProps(props[..i]), EncodeProperty(props[i]), ok);
      if !ok {
        SentFails(old(stream.bytes[..]), old(stream.p), stream.bytes[..], stream.p,
                  EncodeProps(props[..i + 1]), EncodeProps(props[i + 1..]));
        return;
      }
      i := i + 1;
    }
    assert props[..i] == props;
    return true;
  }

  lemma {:induction false} ElemsSplit(a: seq<Value>, b: seq<Value>)
    ensures EncodeElems(a + b) == EncodeElems(a) + EncodeElems(b)
  {
    if a == [] {
      assert a + b == b;
    } else {
      assert (a + b)[1..] == a[1..] + b;
      ElemsSplit(a[1..], b);
    }
  }

  lemma ElemsAround(elems: seq<Value>, i: nat)
    requires i < |elems|
    ensures EncodeElems(elems[..i + 1]) == EncodeElems(elems[..i]) + Encode(elems[i])
    ensures EncodeElems(elems) == EncodeElems(elems[..i + 1]) + EncodeElems(elems[i + 1..])
  {
    FrontAndOne(elems, i);
    ElemsAppended(elems[..i + 1], elems[..i], elems[i]);
    ElemsJoined(elems, elems[..i + 1], elems[i + 1..]);
  }

  lemma ElemsAppended(all: seq<Value>, front: seq<Value>, v: Value)
    requires all == front + [v]
    ensures EncodeElems(all) == EncodeElems(front) + Encode(v)
  {
    ElemsSplit(front, [v]);
    ElemsOne(v);
  }

  lemma ElemsJoined(all: seq<Value>, front: seq<Value>, back: seq<Value>)
    requires all == front + back
    ensures EncodeElems(all) == EncodeElems(front) + EncodeElems(back)
  {
    ElemsSplit(front, back);
  }

  lemma ElemsOne(v: Value)
    ensures EncodeElems([v]) == Encode(v)
  {
    assert [v][1..] == [];
    assert EncodeElems([v]) == Encode(v) + EncodeElems([]);
  }

  method WriteElements(stream: SrsBuffer, elems: seq<Value>) returns (ok: bool)
    requires stream.Valid()
    modifies stream, stream.bytes
    ensures stream.Valid()
    ensures Sent(old(stream.bytes[..]), old(stream.p), stream.bytes[..], stream.p, EncodeElems(elems), ok)
    decreases elems, 1
  {
    var i := 0;
    while i < |elems|
      invariant 0 <= i <= |elems|
      invariant stream.Valid()
      invariant Sent(old(stream.bytes[..]), old(stream.p), stream.bytes[..], stream.p, EncodeElems(elems[..i]), true)
    {
      ElemsAround(elems, i);
      ghost var mid, at := stream.bytes[..], stream.p;
      ok := WriteAny(stream, elems[i]);
      SentThen(old(stream.bytes[..]), old(stream.p), mid, at, stream.bytes[..], stream.p,
               EncodeElems(elems[..i]), Encode(elems[i]), ok);
      if !ok {
        SentFails(old(stream.bytes[..]), old(stream.p), stream.bytes[..], stream.p,
                  EncodeElems(elems[..i + 1]), EncodeElems(elems[i + 1..]));
        return;
      }
      i := i + 1;
    }
    assert elems[..i] == elems;
    return true;
  }

  /** What was written in full is read back from the place where it was written, up to its last byte. */
  lemma WrittenIsRead(was: seq<byte>, p: nat, now: seq<byte>, p': nat, v: Value)
    requires Faithful(v) && Sent(was, p, now, p', Encode(v), true)
    ensures Read(now[p..]) == Some((v, now[p'..]))
  {
    RoundTrip(v, now[p'..]);
    assert now[p..] == Encode(v) + now[p'..];
  }
}
