/**
  Reading JSON (`srs_json_parse_tree`, `loads`, `SrsJsonObject::set`): a printed value is read back.
 */
module JsonRoundTrip {
  import opened Wrappers
  import opened KeyedLists
  import opened JsonScan
  import opened JsonParse
  import opened JsonBuild
  import opened JsonText

  lemma MergedConcat(a1: seq<Event>, b1: seq<Event>, a2: seq<Event>, b2: seq<Event>)
    requires |a1| == |a2| && |b1| == |b2|
    ensures MergedAll(a1 + b1, a2 + b2) == MergedAll(a1, a2) + MergedAll(b1, b2)
    decreases |a1|
  {
    if a1 == [] {
      assert a1 + b1 == b1 && a2 + b2 == b2;
    } else {
      assert (a1 + b1)[1..] == a1[1..] + b1 && (a2 + b2)[1..] == a2[1..] + b2;
      MergedConcat(a1[1..], b1, a2[1..], b2);
    }
  }

  lemma MergedOne(e1: Event, e2: Event)
    ensures MergedAll([e1], [e2]) == [Merged(e1, e2)]
  {
  }

  lemma MergedInside(e: Event, es1: seq<Event>, es2: seq<Event>)
    requires |es1| == |es2| && e.Open?
    ensures MergedAll([e] + es1 + [Close], [e] + es2 + [Close]) == [e] + MergedAll(es1, es2) + [Close]
  {
    MergedConcat([e], es1, [e], es2);
    MergedConcat([e] + es1, [Close], [e] + es2, [Close]);
    MergedOne(e, e);
    MergedOne(Close, Close);
  }

  /** What both passes know of a value together is the whole value. */
  lemma {:induction false} EventsMerge(v: Json)
    ensures |Events(v, false, true)| == |Events(v, true, false)|
    ensures MergedAll(Events(v, false, true), Events(v, true, false)) == Events(v, true, true)
    decreases v, 0
  {
    match v
    case JArray(elems) =>
      ElemEventsMerge(elems);
      MergedInside(Open(Arr), ElemEvents(elems, false, true), ElemEvents(elems, true, false));
    case JObject(members) =>
      MemberEventsMerge(members);
      MergedInside(Open(Obj), MemberEvents(members, false, true), MemberEvents(members, true, false));
    case _ => MergedOne(Events(v, false, true)[0], Events(v, true, false)[0]);
  }

  lemma {:induction false} ElemEventsMerge(elems: seq<Json>)
    ensures |ElemEvents(elems, false, true)| == |ElemEvents(elems, true, false)|
    ensures MergedAll(ElemEvents(elems, false, true), ElemEvents(elems, true, false)) == ElemEvents(elems, true, true)
    decreases elems, 1
  {
    if elems != [] {
      EventsMerge(elems[0]);
      ElemEventsMerge(elems[1..]);
      MergedConcat(Events(elems[0], false, true), ElemEvents(elems[1..], false, true),
                   Events(elems[0], true, false), ElemEvents(elems[1..], true, false));
    }
  }

  lemma {:induction false} OneMemberEventsMerge(m: Member)
    ensures |OneMemberEvents(m, false, true)| == |OneMemberEvents(m, true, false)|
    ensures MergedAll(OneMemberEvents(m, false, true), OneMemberEvents(m, true, false)) == OneMemberEvents(m, true, true)
    decreases m, 1
  {
    EventsMerge(m.value);
    MergedOne(Key(|m.key|, ""), Key(|m.key|, m.key));
    MergedConcat([Key(|m.key|, "")], Events(m.value, false, true), [Key(|m.key|, m.key)], Events(m.value, true, false));
  }

  lemma {:induction false} MemberEventsMerge(members: seq<Member>)
    ensures |MemberEvents(members, false, true)| == |MemberEvents(members, true, false)|
    ensures MergedAll(MemberEvents(members, false, true), MemberEvents(members, true, false)) == MemberEvents(members, true, true)
    decreases members, 2
  {
    if members != [] {
      OneMemberEventsMerge(members[0]);
      MemberEventsMerge(members[1..]);
      MergedConcat(OneMemberEvents(members[0], false, true), MemberEvents(members[1..], false, true),
                   OneMemberEvents(members[0], true, false), MemberEvents(members[1..], true, false));
    }
  }

  // ---- the tree is built

  function Nodes(v: Json): nat {
    match v
    case JArray(elems) => 1 + ElemNodes(elems)
    case JObject(members) => 1 + MemberNodes(members)
    case _ => 1
  }

  function ElemNodes(elems: seq<Json>): nat {
    if elems == [] then 0 else Nodes(elems[0]) + ElemNodes(elems[1..])
  }

  function OneMemberNodes(m: Member): nat {
    Nodes(m.value)
  }

  function MemberNodes(members: seq<Member>): nat {
    if members == [] then 0 else OneMemberNodes(members[0]) + MemberNodes(members[1..])
  }

  lemma FillConcat(f: Fill, a: seq<Event>, b: seq<Event>)
    ensures FillDirect(f, a + b) == FillDirect(FillDirect(f, a), b)
    decreases |a|
  {
    if a == [] {
      assert a + b == b;
    } else {
      assert (a + b)[1..] == a[1..] + b;
      FillConcat(Put(f, a[0], if a[0].Number? then a[0].value else None), a[1..], b);
    }
  }

  lemma FillOne(f: Fill, e: Event)
    ensures FillDirect(f, [e]) == Put(f, e, if e.Number? then e.value else None)
  {
    assert [e][1..] == [];
  }

  function Keys(members: seq<Member>): seq<string> {
    if members == [] then [] else [members[0].key] + Keys(members[1..])
  }

  function Values(members: seq<Member>): seq<Json> {
    if members == [] then [] else [members[0].value] + Values(members[1..])
  }

  lemma {:induction false} MembersOfBoth(members: seq<Member>)
    ensures Members(Keys(members), Values(members)) == members
  {
    if members != [] {
      MembersOfBoth(members[1..]);
    }
  }

  /** The frame on top, with more keys and values. */
  function Extended(f: Fill, keys: seq<string>, kids: seq<Json>, nodes: nat): Fill
    requires f.stack != []
  {
    var n := |f.stack| - 1;
    var top := f.stack[n];
    Fill(f.next + nodes, f.stack[..n] + [top.(keys := top.keys + keys, kids := top.kids + kids)], f.root)
  }

  lemma ExtendedTwice(f: Fill, k1: seq<string>, v1: seq<Json>, n1: nat, k2: seq<string>, v2: seq<Json>, n2: nat)
    requires f.stack != []
    ensures Extended(Extended(f, k1, v1, n1), k2, v2, n2) == Extended(f, k1 + k2, v1 + v2, n1 + n2)
  {
    var n := |f.stack| - 1;
    Associative(f.stack[n].keys, k1, k2);
    Associative(f.stack[n].kids, v1, v2);
    assert Extended(f, k1, v1, n1).stack[..n] == f.stack[..n];
  }

  lemma ExtendedByNothing(f: Fill)
    requires f.stack != []
    ensures Extended(f, [], [], 0) == f
  {
    var n := |f.stack| - 1;
    assert f.stack == f.stack[..n] + [f.stack[n]];
    assert f.stack[n].keys + [] == f.stack[n].keys && f.stack[n].kids + [] == f.stack[n].kids;
  }

  lemma AttachExtends(f: Fill, v: Json, nodes: nat)
    requires f.stack != []
    ensures Attach(f.(next := f.next + nodes), v) == Extended(f, [], [v], nodes)
  {
    var n := |f.stack| - 1;
    assert f.stack[n].keys + [] == f.stack[n].keys;
  }

  /** A container is closed and becomes an entry of what is around it. */
  lemma ClosedContainer(f: Fill, k: Kind, keys: seq<string>, kids: seq<Json>, nodes: nat)
    ensures var inner := Put(f, Open(k), None);
            Put(Extended(inner, keys, kids, nodes), Close, None) ==
            Attach(f.(next := f.next + 1 + nodes), Finished(Frame(f.next, k, keys, kids)))
  {
    var inner := Put(f, Open(k), None);
    assert inner.stack[..|f.stack|] == f.stack;
    assert [] + keys == keys && [] + kids == kids;
    assert Extended(inner, keys, kids, nodes).stack[..|f.stack|] == f.stack;
  }

  lemma {:induction false} FillContainer(f: Fill, k: Kind, es: seq<Event>, keys: seq<string>, kids: seq<Json>, nodes: nat)
    requires FillDirect(Put(f, Open(k), None), es) == Extended(Put(f, Open(k), None), keys, kids, nodes)
    ensures FillDirect(f, [Open(k)] + es + [Close]) ==
            Attach(f.(next := f.next + 1 + nodes), Finished(Frame(f.next, k, keys, kids)))
  {
    var inner := Put(f, Open(k), None);
    var full := Extended(inner, keys, kids, nodes);
    FillOne(f, Open(k));
    FillOne(full, Close);
    FillThree(f, [Open(k)], es, [Close], inner, full);
    ClosedContainer(f, k, keys, kids, nodes);
  }

  lemma FillThree(f: Fill, a: seq<Event>, b: seq<Event>, c: seq<Event>, f1: Fill, f2: Fill)
    requires FillDirect(f, a) == f1 && FillDirect(f1, b) == f2
    ensures FillDirect(f, a + b + c) == FillDirect(f2, c)
  {
    FillConcat(f, a + b, c);
    FillConcat(f, a, b);
  }

  /** The events of a value build that value and attach it. */
  lemma {:induction false} ValueIsBuilt(v: Json, f: Fill)
    ensures FillDirect(f, Events(v, true, true)) == Attach(f.(next := f.next + Nodes(v)), v)
    ensures f.stack == [] ==> FillDirect(f, Events(v, true, true)).root == Some(v)
    decreases v, 0
  {
    match v
    case JArray(elems) =>
      ElemsAreBuilt(elems, Put(f, Open(Arr), None));
      FillContainer(f, Arr, ElemEvents(elems, true, true), [], elems, ElemNodes(elems));
    case JObject(members) =>
      MembersAreBuilt(members, Put(f, Open(Obj), None));
      FillContainer(f, Obj, MemberEvents(members, true, true), Keys(members), Values(members), MemberNodes(members));
      MembersOfBoth(members);
    case _ => FillOne(f, Events(v, true, true)[0]);
  }

  lemma {:induction false} ElemsAreBuilt(elems: seq<Json>, f: Fill)
    requires f.stack != []
    ensures FillDirect(f, ElemEvents(elems, true, true)) == Extended(f, [], elems, ElemNodes(elems))
    decreases elems, 1
  {
    if elems == [] {
      ExtendedByNothing(f);
    } else {
      var f1 := Extended(f, [], [elems[0]], Nodes(elems[0]));
      ValueIsBuilt(elems[0], f);
      AttachExtends(f, elems[0], Nodes(elems[0]));
      ElemsAreBuilt(elems[1..], f1);
      FillConcat(f, Events(elems[0], true, true), ElemEvents(elems[1..], true, true));
      ElemsJoin(f, elems);
    }
  }

  lemma {:induction false} ElemsJoin(f: Fill, elems: seq<Json>)
    requires f.stack != [] && elems != []
    ensures Extended(Extended(f, [], [elems[0]], Nodes(elems[0])), [], elems[1..], ElemNodes(elems[1..])) ==
            Extended(f, [], elems, ElemNodes(elems))
  {
    ExtendedTwice(f, [], [elems[0]], Nodes(elems[0]), [], elems[1..], ElemNodes(elems[1..]));
    assert [elems[0]] + elems[1..] == elems;
    var none: seq<string> := [];
    assert none + none == none;
  }

  lemma {:induction false} MemberIsBuilt(m: Member, f: Fill)
    requires f.stack != []
    ensures FillDirect(f, OneMemberEvents(m, true, true)) == Extended(f, [m.key], [m.value], OneMemberNodes(m))
    decreases m, 1
  {
    var e := Key(|m.key|, m.key);
    var f1 := Extended(f, [m.key], [], 0);
    FillConcat(f, [e], Events(m.value, true, true));
    FillOne(f, e);
    KeyExtends(f, m.key);
    ValueIsBuilt(m.value, f1);
    AttachExtends(f1, m.value, Nodes(m.value));
    ExtendedTwice(f, [m.key], [], 0, [], [m.value], Nodes(m.value));
    assert [m.key] + [] == [m.key] && [] + [m.value] == [m.value];
  }

  lemma KeyExtends(f: Fill, key: string)
    requires f.stack != []
    ensures Put(f, Key(|key|, key), None) == Extended(f, [key], [], 0)
  {
    var n := |f.stack| - 1;
    assert f.stack[n].kids + [] == f.stack[n].kids;
  }

  lemma {:induction false} MembersAreBuilt(members: seq<Member>, f: Fill)
    requires f.stack != []
    ensures FillDirect(f, MemberEvents(members, true, true)) == Extended(f, Keys(members), Values(members), MemberNodes(members))
    decreases members, 2
  {
    if members == [] {
      ExtendedByNothing(f);
    } else {
      var m := members[0];
      var f1 := Extended(f, [m.key], [m.value], OneMemberNodes(m));
      FillConcat(f, OneMemberEvents(m, true, true), MemberEvents(members[1..], true, true));
      MemberIsBuilt(m, f);
      MembersAreBuilt(members[1..], f1);
      ExtendedTwice(f, [m.key], [m.value], OneMemberNodes(m), Keys(members[1..]), Values(members[1..]), MemberNodes(members[1..]));
    }
  }

  // ---------------------------------------------------------------- loads

  function KeyOf(m: Member): string {
    m.key
  }

  /** `SrsJsonObject::set`: an old property of that name is erased, the new one is the last. */
  function SetMember(members: seq<Member>, m: Member): seq<Member> {
    Without(members, m.key) + [m]
  }

  function Without(members: seq<Member>, key: string): seq<Member> {
    if members == [] then []
    else if members[0].key == key then members[1..]
    else [members[0]] + Without(members[1..], key)
  }

  /** `srs_json_parse_tree`. */
  function ParseTree(v: Json): Json {
    match v
    case JArray(elems) => JArray(TreeElems(elems))
    case JObject(members) => JObject(TreeMembers(members))
    case _ => v
  }

  function TreeElems(elems: seq<Json>): seq<Json> {
    if elems == [] then [] else [ParseTree(elems[0])] + TreeElems(elems[1..])
  }

  function TreeMember(m: Member): Member {
    Member(m.key, ParseTree(m.value))
  }

  /** The members are set one after the other. */
  function TreeMembers(members: seq<Member>): seq<Member> {
    if members == [] then []
    else SetMember(TreeMembers(members[..|members| - 1]), TreeMember(members[|members| - 1]))
  }

  function Loads(text: string): Option<Json> {
    if text == "" then None
    else
      match ParseEx(text)
      case None => None
      case Some(v) => Some(ParseTree(v))
  }

  /** No object in v has two members of one name. */
  predicate DistinctKeys(v: Json) {
    match v
    case JArray(elems) => forall i :: 0 <= i < |elems| ==> DistinctKeys(elems[i])
    case JObject(members) =>
      && (forall i, j :: 0 <= i < j < |members| ==> members[i].key != members[j].key)
      && forall i :: 0 <= i < |members| ==> DistinctKeys(members[i].value)
    case _ => true
  }

  lemma {:induction false} WithoutAbsent(members: seq<Member>, key: string)
    requires forall i :: 0 <= i < |members| ==> members[i].key != key
    ensures Without(members, key) == members
  {
    if members != [] {
      WithoutAbsent(members[1..], key);
    }
  }

  lemma {:induction false} TreeIsKept(v: Json)
    requires DistinctKeys(v)
    ensures ParseTree(v) == v
    decreases v, 0
  {
    match v
    case JArray(elems) => ElemsAreKept(elems);
    case JObject(members) => MembersAreKept(members);
    case _ =>
  }

  lemma {:induction false} ElemsAreKept(elems: seq<Json>)
    requires forall i :: 0 <= i < |elems| ==> DistinctKeys(elems[i])
    ensures TreeElems(elems) == elems
    decreases elems, 1
  {
    if elems != [] {
      TreeIsKept(elems[0]);
      ElemsAreKept(elems[1..]);
    }
  }

  lemma {:induction false} MemberIsKept(m: Member)
    requires DistinctKeys(m.value)
    ensures TreeMember(m) == m
    decreases m, 1
  {
    TreeIsKept(m.value);
  }

  lemma {:induction false} MembersAreKept(members: seq<Member>)
    requires forall i, j :: 0 <= i < j < |members| ==> members[i].key != members[j].key
    requires forall i :: 0 <= i < |members| ==> DistinctKeys(members[i].value)
    ensures TreeMembers(members) == members
    decreases members, 2
  {
    if members != [] {
      var n := |members| - 1;
      MemberIsKept(members[n]);
      MembersAreKept(members[..n]);
      WithoutAbsent(members[..n], members[n].key);
      assert members == members[..n] + [members[n]];
    }
  }

  // ---------------------------------------------------------------- round trip

  /** A pass over the whole printed text. */
  lemma {:induction false} PassOverText(v: Json, first: bool)
    requires Plain(v) && NoDouble(v)
    ensures Run(START, Dumps(v), first) == Some(Events(v, !first, first))
  {
    ValueIsMet(v, START, "", first);
    assert Dumps(v) + "" == Dumps(v);
    assert Run(AfterValue([]), "", first) == Some([]);
    assert Events(v, !first, first) + [] == Events(v, !first, first);
  }

  lemma NoBom(v: Json)
    requires NoDouble(v)
    ensures Dumps(v) != "" && SkipBom(Dumps(v)) == Dumps(v)
  {
    if v.JInteger? {
      NatTextIsDigits(if v.value < 0 then -v.value else v.value, 0);
    }
    assert |Dumps(v)| >= 3 ==> Dumps(v)[..3][0] == Dumps(v)[0];
  }

  /**
    A printed value is read back: for every value of objects, arrays, strings without NUL, booleans,
    nulls and integers that can be negated, whose keys are plain and distinct in each object.
   */
  lemma {:induction false} LoadsOfDumps(v: Json)
    requires Plain(v) && DistinctKeys(v)
    ensures NoDouble(v) && Loads(Dumps(v)) == Some(v)
  {
    PlainHasNoDouble(v);
    NoBom(v);
    PrintedIsParsed(v, Dumps(v));
    TreeIsKept(v);
  }

  lemma {:induction false} PrintedIsParsed(v: Json, text: string)
    requires Plain(v) && NoDouble(v) && text == Dumps(v) && SkipBom(text) == text
    ensures ParseEx(text) == Some(v)
  {
    PassOverText(v, true);
    PassOverText(v, false);
    ParserFillsExactly(text);
    EventsMerge(v);
    ValueIsBuilt(v, NO_FILL);
  }

  // ---------------------------------------------------------------- setting a property in place

  lemma {:induction false} WithoutStep(all: seq<Member>, i: nat, key: string)
    requires i < |all|
    ensures all[..i] + Without(all[i..], key) ==
            if all[i].key == key then all[..i] + all[i + 1..] else all[..i + 1] + Without(all[i + 1..], key)
  {
    assert all[i..][1..] == all[i + 1..];
    FrontAndOne(all, i);
    Associative(all[..i], [all[i]], Without(all[i + 1..], key));
  }

  /** An old property of the name is taken out, all others keep their order, and the new one is the last. */
  lemma SetReplaces(members: seq<Member>, m: Member)
    ensures Replaced(members, SetMember(members, m), KeyOf, m)
  {
    var i := TakesOutFirst(members, m.key);
    assert i < |members| ==> IsFirst(members, KeyOf, m.key, i);
  }

  /** The number of the member that is taken out. */
  lemma {:induction false} TakesOutFirst(members: seq<Member>, key: string) returns (i: nat)
    ensures i <= |members| && forall j :: 0 <= j < i ==> members[j].key != key
    ensures if i < |members| then members[i].key == key && Without(members, key) == members[..i] + members[i + 1..]
            else Without(members, key) == members
  {
    i := 0;
    if members != [] && members[0].key != key {
      var rest := members[1..];
      var k := TakesOutFirst(rest, key);
      i := k + 1;
      assert forall j :: 1 <= j < i ==> members[j] == rest[j - 1];
      if k < |rest| {
        TakenOutBehind(members, rest, k);
      }
    }
  }

  function EachTreeMember(members: seq<Member>): (r: seq<Member>)
    ensures |r| == |members|
    ensures forall i :: 0 <= i < |members| ==> r[i] == TreeMember(members[i])
  {
    if members == [] then [] else EachTreeMember(members[..|members| - 1]) + [TreeMember(members[|members| - 1])]
  }

  /** A converted object has the latest member of each key, in the order in which these come in the text. */
  lemma {:induction false} TreeKeepsLatest(members: seq<Member>)
    ensures TreeMembers(members) == Latest(EachTreeMember(members), KeyOf)
  {
    if members != [] {
      var n := |members| - 1;
      TreeKeepsLatest(members[..n]);
      SetReplaces(TreeMembers(members[..n]), TreeMember(members[n]));
      SetIsLatest(EachTreeMember(members[..n]), TreeMembers(members), KeyOf, TreeMember(members[n]));
    }
  }

  class SrsJsonObject {
    var properties: seq<Member>

    constructor ()
      ensures properties == []
    {
      properties := [];
    }

    method Set(key: string, value: Json)
      modifies this
      ensures properties == SetMember(old(properties), Member(key, value))
      ensures Replaced(old(properties), properties, KeyOf, Member(key, value))
    {
      SetReplaces(properties, Member(key, value));
      var i := 0;
      ghost var all := properties;
      assert all[0..] == all && all[..0] == [];
      while i < |properties|
        invariant 0 <= i <= |properties| && properties == all
        invariant Without(all, key) == all[..i] + Without(all[i..], key)
      {
        WithoutStep(all, i, key);
        if properties[i].key == key {
          properties := properties[..i] + properties[i + 1..];
          break;
        }
        i := i + 1;
      }
      assert properties == Without(all, key);
      properties := properties + [Member(key, value)];
    }
  }
}
