/**
  Where the properties of an AMF0 object end up: in the order in which they were set last.
 */
module Amf0Keys {
  import opened Wrappers
  import opened KeyedLists
  import opened ByteBuffer
  import opened Amf0

  /** An old property of the name is taken out, all others keep their order, and the new one is the last. */
  lemma SetReplaces(props: seq<Property>, key: seq<byte>, value: Value)
    ensures Replaced(props, Set(props, key, value), KeyOf, Property(key, value))
  {
    var i := ErasesFirst(props, key);
    assert i < |props| ==> IsFirst(props, KeyOf, key, i);
  }

  /** The number of the property that is taken out. */
  lemma {:induction false} ErasesFirst(props: seq<Property>, key: seq<byte>) returns (i: nat)
    ensures i <= |props| && forall j :: 0 <= j < i ==> props[j].key != key
    ensures if i < |props| then props[i].key == key && Erase(props, key) == props[..i] + props[i + 1..] else Erase(props, key) == props
  {
    i := 0;
    if props != [] && props[0].key != key {
      var rest := props[1..];
      var k := ErasesFirst(rest, key);
      i := k + 1;
      assert forall j :: 1 <= j < i ==> props[j] == rest[j - 1];
      if k < |rest| {
        TakenOutBehind(props, rest, k);
      }
    }
  }

  lemma OneIsRead(p: Property, tail: seq<byte>, acc: seq<Property>)
    requires FaithfulProperty(p)
    ensures ReadProps(EncodeProperty(p) + tail, acc) == ReadProps(tail, Set(acc, p.key, p.value))
  {
    PropertyRoundTrip(p, tail);
  }

  lemma SetBehind(done: seq<Property>, p: Property)
    ensures Set(Latest(done, KeyOf), p.key, p.value) == Latest(done + [p], KeyOf)
  {
    SetReplaces(Latest(done, KeyOf), p.key, p.value);
    SetIsLatest(done, Set(Latest(done, KeyOf), p.key, p.value), KeyOf, p);
  }

  lemma FirstOnWire(props: seq<Property>, rest: seq<byte>)
    requires props != []
    ensures EncodeProps(props) + EOF + rest == EncodeProperty(props[0]) + (EncodeProps(props[1..]) + EOF + rest)
  {
  }

  lemma WireStep(done: seq<Property>, p: Property, tail: seq<byte>)
    requires FaithfulProperty(p)
    ensures ReadProps(EncodeProperty(p) + tail, Latest(done, KeyOf)) == ReadProps(tail, Latest(done + [p], KeyOf))
  {
    OneIsRead(p, tail, Latest(done, KeyOf));
    SetBehind(done, p);
  }

  lemma WireEnd(done: seq<Property>, rest: seq<byte>)
    ensures ReadProps(EncodeProps([]) + EOF + rest, Latest(done, KeyOf)) == Some((Latest(done, KeyOf), rest))
  {
    var b := EncodeProps([]) + EOF + rest;
    assert b[..3] == EOF && b[3..] == rest;
  }

  /** What is read of the bytes b behind the properties `done`. */
  ghost predicate ReadsLatest(done: seq<Property>, b: seq<byte>, all: seq<Property>, rest: seq<byte>) {
    ReadProps(b, Latest(done, KeyOf)) == Some((Latest(all, KeyOf), rest))
  }

  /** Properties with any keys on the wire, behind others: of each key the latest is read. */
  lemma {:induction false} WireIsReadLatest(done: seq<Property>, props: seq<Property>, rest: seq<byte>)
    requires forall i :: 0 <= i < |props| ==> FaithfulProperty(props[i])
    ensures ReadsLatest(done, EncodeProps(props) + EOF + rest, done + props, rest)
    decreases |props|
  {
    if props == [] {
      WireEnd(done, rest);
      assert done + [] == done;
    } else {
      var p, tail := props[0], EncodeProps(props[1..]) + EOF + rest;
      FirstOnWire(props, rest);
      WireStep(done, p, tail);
      WireIsReadLatest(done + [p], props[1..], rest);
      FirstBehind(done, props);
      ReadsBehind(done, p, EncodeProperty(p) + tail, tail, done + props, rest);
    }
  }

  lemma FirstBehind(done: seq<Property>, props: seq<Property>)
    requires props != []
    ensures (done + [props[0]]) + props[1..] == done + props
  {
  }

  lemma ReadsBehind(done: seq<Property>, p: Property, b: seq<byte>, tail: seq<byte>, all: seq<Property>, rest: seq<byte>)
    requires ReadsLatest(done + [p], tail, all, rest) && ReadProps(b, Latest(done, KeyOf)) == ReadProps(tail, Latest(done + [p], KeyOf))
    ensures ReadsLatest(done, b, all, rest)
  {
  }

  /**
    An object whose keys repeat is read with the latest property of each key, in the order in which
    these come; no others are lost.
   */
  lemma RepeatedKeysAreRead(props: seq<Property>, rest: seq<byte>)
    requires forall i :: 0 <= i < |props| ==> FaithfulProperty(props[i])
    ensures Read(Encode(Object(props)) + rest) == Some((Object(Latest(props, KeyOf)), rest))
  {
    var none: seq<Property> := [];
    WireIsReadLatest(none, props, rest);
    ObjectReads(EncodeProps(props) + EOF + rest);
    Regroup([OBJECT], EncodeProps(props), EOF, rest);
    assert none + props == props && Latest(none, KeyOf) == [];
  }

  lemma RepeatedKeysOfArrayAreRead(count: Int32, props: seq<Property>, rest: seq<byte>)
    requires forall i :: 0 <= i < |props| ==> FaithfulProperty(props[i])
    ensures Read(Encode(EcmaArray(count, props)) + rest) == Some((EcmaArray(count, Latest(props, KeyOf)), rest))
  {
    var none: seq<Property> := [];
    WireIsReadLatest(none, props, rest);
    CountField(count);
    var field := ToBytes(Unsigned(count, 4), COUNT_BYTES);
    EcmaArrayReads(field, EncodeProps(props) + EOF + rest);
    Regroup([ECMA_ARRAY] + field, EncodeProps(props), EOF, rest);
    assert none + props == props && Latest(none, KeyOf) == [];
  }
}
