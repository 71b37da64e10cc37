/**
  Exactly which values are read back from their printed text. What the parser makes of a text can
  never cost more than the text; a key that needs escapes would have to. A control character that
  is printed as an escape counts twice, also where a text holds it as it is.
 */
module JsonExact {
  import opened Wrappers
  import opened JsonScan
  import opened JsonParse
  import opened JsonBuild
  import opened JsonText
  import opened JsonRoundTrip

  // ---------------------------------------------------------------- the size of a text

  /** The control characters with a short escape. */
  predicate ShortEscape(c: char) {
    c == '\U{8}' || c == '\U{C}' || c == '\n' || c == '\r' || c == '\t'
  }

  function CharSize(c: char): nat {
    if ShortEscape(c) then 2 else 1
  }

  function Size(s: string): nat {
    if s == "" then 0 else CharSize(s[0]) + Size(s[1..])
  }

  lemma {:induction false} SizeConcat(a: string, b: string)
    ensures Size(a + b) == Size(a) + Size(b)
  {
    if a == "" {
      assert a + b == b;
    } else {
      assert (a + b)[0] == a[0] && (a + b)[1..] == a[1..] + b;
      SizeConcat(a[1..], b);
    }
  }

  lemma {:induction false} SizeDrop(s: string, k: nat)
    requires k <= |s|
    ensures k + Size(s[k..]) <= Size(s)
  {
    if k > 0 {
      SizeDrop(s[1..], k - 1);
      assert s[1..][k - 1..] == s[k..];
    } else {
      assert s[0..] == s;
    }
  }

  lemma {:induction false} SizeIsLength(s: string)
    requires forall i :: 0 <= i < |s| ==> !ShortEscape(s[i])
    ensures Size(s) == |s|
  {
    if s != "" {
      SizeIsLength(s[1..]);
    }
  }

  // ---------------------------------------------------------------- the cost of a value

  /** What a byte of a string costs in its token, at least. */
  function CharCost(c: char): nat {
    if c == '\0' then 6 else if c == '"' || c == '\\' || ShortEscape(c) then 2 else 1
  }

  function CharsCost(s: string): nat {
    if s == "" then 0 else CharCost(s[0]) + CharsCost(s[1..])
  }

  /** A string token with its quotes. */
  function TokenCost(s: string): nat {
    CharsCost(s) + 2
  }

  /** A key with its colon. */
  function KeyCost(key: string): nat {
    TokenCost(key) + 1
  }

  function Commas(n: nat): nat {
    if n == 0 then 0 else n - 1
  }

  function Cost(v: Json): nat {
    match v
    case JNull => 4
    case JBool(b) => if b then 4 else 5
    case JInteger(i) => |IntText(i)|
    case JDouble => 1
    case JString(s) => TokenCost(s)
    case JArray(elems) => 2 + ElemsCost(elems) + Commas(|elems|)
    case JObject(members) => 2 + MembersCost(members) + Commas(|members|)
  }

  function ElemsCost(elems: seq<Json>): nat {
    if elems == [] then 0 else Cost(elems[0]) + ElemsCost(elems[1..])
  }

  function MemberCost(m: Member): nat {
    KeyCost(m.key) + Cost(m.value)
  }

  function MembersCost(members: seq<Member>): nat {
    if members == [] then 0 else MemberCost(members[0]) + MembersCost(members[1..])
  }

  function KeysCost(keys: seq<string>): nat {
    if keys == [] then 0 else KeyCost(keys[0]) + KeysCost(keys[1..])
  }

  lemma {:induction false} ElemsCostMore(elems: seq<Json>, v: Json)
    ensures ElemsCost(elems + [v]) == ElemsCost(elems) + Cost(v)
  {
    if elems == [] {
      assert elems + [v] == [v];
    } else {
      assert (elems + [v])[0] == elems[0] && (elems + [v])[1..] == elems[1..] + [v];
      ElemsCostMore(elems[1..], v);
    }
  }

  lemma {:induction false} KeysCostMore(keys: seq<string>, key: string)
    ensures KeysCost(keys + [key]) == KeysCost(keys) + KeyCost(key)
  {
    if keys == [] {
      assert keys + [key] == [key];
    } else {
      assert (keys + [key])[0] == keys[0] && (keys + [key])[1..] == keys[1..] + [key];
      KeysCostMore(keys[1..], key);
    }
  }

  lemma {:induction false} MembersCostOf(keys: seq<string>, kids: seq<Json>)
    requires |keys| == |kids|
    ensures |Members(keys, kids)| == |keys| && MembersCost(Members(keys, kids)) == KeysCost(keys) + ElemsCost(kids)
  {
    if keys != [] {
      MembersCostOf(keys[1..], kids[1..]);
    }
  }

  lemma {:induction false} CharsCostConcat(a: string, b: string)
    ensures CharsCost(a + b) == CharsCost(a) + CharsCost(b)
  {
    if a == "" {
      assert a + b == b;
    } else {
      assert (a + b)[0] == a[0] && (a + b)[1..] == a[1..] + b;
      CharsCostConcat(a[1..], b);
    }
  }

  // ---------------------------------------------------------------- tokens

  lemma Utf8Cost(u: nat)
    requires u < 0x10_0000
    ensures CharsCost(Utf8(u)) <= 6
  {
    var b := Utf8(u);
    if |b| > 1 {
      assert forall i :: 0 <= i < |b| ==> CharCost(b[i]) == 1;
      PlainCost(b);
    } else {
      assert b == [b[0]] && b[1..] == [];
    }
  }

  lemma {:induction false} PlainCost(b: string)
    requires forall i :: 0 <= i < |b| ==> CharCost(b[i]) == 1
    ensures CharsCost(b) == |b|
  {
    if b != "" {
      PlainCost(b[1..]);
    }
  }

  /** The bytes of a token cost no more than the token. */
  lemma {:induction false} TokenPaysForBytes(s: string)
    requires FillString(s).Some?
    ensures var (bytes, rest) := FillString(s).value; CharsCost(bytes) + 1 + Size(rest) <= Size(s)
    decreases |s|, 1
  {
    var b := Peek(s, 0);
    if b == '\\' {
      EscapePaysForBytes(s);
    } else if b != '"' {
      TokenPaysForBytes(s[1..]);
      FirstByte(b, FillString(s[1..]).value.0);
    }
  }

  lemma FirstByte(b: char, bytes: string)
    ensures CharsCost([b] + bytes) == CharCost(b) + CharsCost(bytes)
  {
    assert ([b] + bytes)[1..] == bytes;
  }

  lemma {:induction false} EscapePaysForBytes(s: string)
    requires Peek(s, 0) == '\\' && FillString(s).Some?
    ensures var (bytes, rest) := FillString(s).value; CharsCost(bytes) + 1 + Size(rest) <= Size(s)
    decreases |s|, 0
  {
    var e := s[1..];
    if e[0] == 'u' {
      CodePointPays(e);
      var (u, t) := CodePoint(e).value;
      Utf8Cost(u);
      TokenPaysForBytes(t);
      CharsCostConcat(Utf8(u), FillString(t).value.0);
    } else {
      TokenPaysForBytes(e[1..]);
      FirstByte(Unescape(e[0]), FillString(e[1..]).value.0);
    }
  }

  lemma CodePointPays(e: string)
    requires CodePoint(e).Some?
    ensures 5 + Size(CodePoint(e).value.1) <= Size(e)
  {
    SizeDrop(e, 4);
    if Hex4(e, 1).value / 0x800 != 0x1B {
      SizeDrop(e, 5);
    } else {
      SizeDrop(e[4..], 7);
    }
  }

  function Max(a: nat, b: nat): nat {
    if a < b then b else a
  }

  lemma {:induction false} NatTextGrows(n: nat, d: nat)
    requires d < 10
    ensures |NatText(10 * n + d)| <= 1 + |NatText(n)|
    ensures n == 0 ==> |NatText(10 * n + d)| == 1
  {
  }

  /** An integer is no longer than the digits from which it was read. */
  lemma {:induction false} DigitsPayForNumber(s: string, n: NumState)
    requires ScanFrom(s, n).Some? && !ScanFrom(s, n).value.0 && !n.isDouble && !n.e
    requires |NatText(n.value)| <= Max(1, n.digits) && (n.digits == 0 ==> n.value == 0)
    ensures var (isDouble, value, rest) := ScanFrom(s, n).value;
            && Size(rest) <= Size(s) && |NatText(value)| <= Max(1, n.digits + Size(s) - Size(rest))
            && (value != n.value ==> Size(rest) < Size(s))
    decreases |s|
  {
    var b := Peek(s, 0);
    match NumStep(n, b)
    case MoreNumber(n') =>
      if IsDigit(b) {
        DigitPays(n, n', DigitValue(b));
        DigitsPayForNumber(s[1..], n');
      } else {
        DoubleStays(s[1..], n');
      }
    case _ =>
  }

  lemma DigitPays(n: NumState, n': NumState, d: nat)
    requires d < 10 && |NatText(n.value)| <= Max(1, n.digits) && n'.value == 10 * n.value + d && n'.digits == n.digits + 1
    requires n.digits == 0 ==> n.value == 0
    ensures |NatText(n'.value)| <= Max(1, n'.digits)
  {
    NatTextGrows(n.value, d);
  }

  lemma {:induction false} DoubleStays(s: string, n: NumState)
    requires ScanFrom(s, n).Some? && n.isDouble
    ensures ScanFrom(s, n).value.0
    decreases |s|
  {
    match NumStep(n, Peek(s, 0))
    case MoreNumber(n') => DoubleStays(s[1..], n');
    case _ =>
  }

  lemma {:induction false} ScannedIsShorter(s: string, n: NumState)
    requires ScanFrom(s, n).Some?
    ensures Size(ScanFrom(s, n).value.2) <= Size(s)
    decreases |s|
  {
    match NumStep(n, Peek(s, 0))
    case MoreNumber(n') => ScannedIsShorter(s[1..], n');
    case _ =>
  }

  lemma {:induction false} NumberPays(s: string)
    requires StartsNumber(s) && ScanNumber(s).Some?
    ensures var (i, rest) := ScanNumber(s).value;
            (i.Some? ==> |IntText(i.value)| + Size(rest) <= Size(s)) && 1 + Size(rest) <= Size(s)
  {
    var negative := s[0] == '-';
    var digits := if negative then s[1..] else s;
    var (isDouble, value, rest) := ScanFrom(digits, NUM_START).value;
    SizeDrop(s, 1);
    ScannedIsShorter(digits, NUM_START);
    if !negative {
      FirstDigitIsTaken(s);
    }
    if !isDouble {
      DigitsPayForNumber(digits, NUM_START);
    }
  }

  lemma FirstDigitIsTaken(s: string)
    requires IsDigit(Peek(s, 0)) && ScanFrom(s, NUM_START).Some?
    ensures 1 + Size(ScanFrom(s, NUM_START).value.2) <= Size(s)
  {
    var n' := NumStep(NUM_START, Peek(s, 0)).n;
    ScannedIsShorter(s[1..], n');
  }

  // ---------------------------------------------------------------- what a pass has read so far

  /** What an open container has cost: its bracket, its keys, its entries, and a comma for every entry. */
  function FrameCost(f: Frame): nat {
    1 + KeysCost(f.keys) + ElemsCost(f.kids) + |f.kids|
  }

  function FramesCost(stack: seq<Frame>): nat {
    if stack == [] then 0 else FramesCost(stack[..|stack| - 1]) + FrameCost(stack[|stack| - 1])
  }

  /** What has been read, less the comma or colon that is still to come. */
  function Paid(c: Ctl, f: Fill): int {
    FramesCost(f.stack) + (if f.root.Some? then Cost(f.root.value) else 0)
    - (if c.needComma && f.stack != [] then 1 else 0) - (if c.needColon then 1 else 0)
  }

  predicate FrameFits(f: Frame, k: Kind, open: bool) {
    && f.kind == k
    && (k == Arr ==> f.keys == [])
    && (k == Obj ==> |f.keys| == |f.kids| + if open then 1 else 0)
  }

  predicate Fitting(c: Ctl, f: Fill) {
    var n := |c.stack| - 1;
    && ValidCtl(c) && |f.stack| == |c.stack|
    && (forall j :: 0 <= j < |f.stack| ==> FrameFits(f.stack[j], c.stack[j], j < n || Pending(c)))
    && (c.needComma && c.stack != [] ==> f.stack[n].kids != [])
    && (!c.done ==> f.root == None)
    && (c.done ==> f.root.Some?)
  }

  lemma FramesCostMore(stack: seq<Frame>, f: Frame)
    ensures FramesCost(stack + [f]) == FramesCost(stack) + FrameCost(f)
  {
    assert (stack + [f])[..|stack|] == stack;
  }

  lemma {:induction false} TopFrame(stack: seq<Frame>)
    requires stack != []
    ensures stack == stack[..|stack| - 1] + [stack[|stack| - 1]]
    ensures FramesCost(stack) == FramesCost(stack[..|stack| - 1]) + FrameCost(stack[|stack| - 1])
  {
  }

  /** A place where a value was expected, and the place behind it. */
  lemma AttachPays(f: Fill, v: Json, stack: seq<Kind>, c: Ctl)
    requires Fitting(c, f) && !c.done && !c.needComma && !c.needColon && c.stack == stack && c.seek
    ensures Fitting(AfterValue(stack), Attach(f, v))
    ensures Paid(AfterValue(stack), Attach(f, v)) == Paid(c, f) + Cost(v)
  {
    if stack != [] {
      var n := |stack| - 1;
      var top := f.stack[n];
      var top' := top.(kids := top.kids + [v]);
      TopFrame(f.stack);
      FramesCostMore(f.stack[..n], top');
      ElemsCostMore(top.kids, v);
    }
  }

  /** Only the counter of nodes differs. */
  lemma NextIsFree(c: Ctl, f: Fill, next: nat)
    requires Fitting(c, f)
    ensures Fitting(c, f.(next := next)) && Paid(c, f.(next := next)) == Paid(c, f)
  {
  }

  /** One iteration: the flags behind it and what it adds are paid for by the text that it takes. */
  ghost predicate Pays(c: Ctl, s: string, f: Fill, c': Ctl, rest: string, f': Fill) {
    Fitting(c', f') && Paid(c', f') + Size(rest) <= Paid(c, f) + Size(s)
  }

  lemma LeafPays(c: Ctl, s: string, f: Fill, v: Json, rest: string)
    requires Fitting(c, f) && !c.done && c.seek && !c.needComma && !c.needColon && Cost(v) + Size(rest) <= Size(s)
    ensures Pays(c, s, f, AfterValue(c.stack), rest, Attach(f.(next := f.next + 1), v))
  {
    NextIsFree(c, f, f.next + 1);
    AttachPays(f.(next := f.next + 1), v, c.stack, c);
  }

  lemma OpenPays(c: Ctl, s: string, f: Fill, k: Kind, rest: string)
    requires Fitting(c, f) && !c.done && c.seek && !c.needComma && !c.needColon && 1 + Size(rest) <= Size(s)
    ensures Pays(c, s, f, Ctl(c.stack + [k], k == Arr, false, false, false), rest, Put(f, Open(k), None))
  {
    FramesCostMore(f.stack, Frame(f.next, k, [], []));
  }

  lemma ClosePays(c: Ctl, s: string, f: Fill, rest: string)
    requires Fitting(c, f) && !c.done && !Pending(c) && c.stack != [] && !c.needColon && 1 + Size(rest) <= Size(s)
    ensures Pays(c, s, f, AfterValue(c.stack[..|c.stack| - 1]), rest, Put(f, Close, None))
  {
    var n := |c.stack| - 1;
    var top := f.stack[n];
    var f1 := f.(stack := f.stack[..n]);
    assert FrameFits(top, c.stack[n], false);
    TopFrame(f.stack);
    ClosedCost(top);
    AttachPopped(c.stack[..n], f1, Finished(top));
  }

  lemma ClosedCost(top: Frame)
    requires top.kind == Obj ==> |top.keys| == |top.kids|
    requires top.kind == Arr ==> top.keys == []
    ensures Cost(Finished(top)) == FrameCost(top) + if top.kids == [] then 1 else 0
  {
    if top.kind == Obj {
      MembersCostOf(top.keys, top.kids);
    }
  }

  lemma AttachPopped(stack: seq<Kind>, f: Fill, v: Json)
    requires |f.stack| == |stack| && f.root == None
    requires forall j :: 0 <= j < |stack| ==> FrameFits(f.stack[j], stack[j], true)
    ensures Fitting(AfterValue(stack), Attach(f, v))
    ensures Paid(AfterValue(stack), Attach(f, v)) == FramesCost(f.stack) + Cost(v)
  {
    if stack != [] {
      var n := |stack| - 1;
      var top := f.stack[n];
      TopFrame(f.stack);
      FramesCostMore(f.stack[..n], top.(kids := top.kids + [v]));
      ElemsCostMore(top.kids, v);
    }
  }

  lemma KeyPays(c: Ctl, s: string, f: Fill, bytes: string, n: nat, rest: string)
    requires Fitting(c, f) && !c.done && !c.seek && !c.needComma && TokenCost(bytes) + Size(rest) <= Size(s)
    ensures Pays(c, s, f, c.(seek := true, needColon := true), rest, Put(f, Key(n, bytes), None))
  {
    var n := |f.stack| - 1;
    var top := f.stack[n];
    TopFrame(f.stack);
    FramesCostMore(f.stack[..n], top.(keys := top.keys + [bytes]));
    KeysCostMore(top.keys, bytes);
  }

  /** The two passes in the same iteration, which both go on. */
  predicate BothNext(c: Ctl, s: string) {
    var r1, r2 := Iterate(c, s, true), Iterate(c, s, false);
    r1.Next? && r2.Next? && r2.c == r1.c && r2.rest == r1.rest && SameEvents(r1.events, r2.events)
  }

  /** The tree behind an iteration. */
  function Filled(f: Fill, es1: seq<Event>, es2: seq<Event>): Fill
    requires |es1| == |es2|
  {
    FillDirect(f, MergedAll(es1, es2))
  }

  lemma FilledOne(f: Fill, e1: Event, e2: Event)
    requires SameEvent(e1, e2)
    ensures Filled(f, [e1], [e2]) == Put(f, Merged(e1, e2), if e1.Number? then e1.value else None)
    ensures Filled(f, [], []) == f
  {
    MergedFirst(f, e1, e2, [], [], if e1.Number? then e1.value else None);
    assert [e1] + [] == [e1] && [e2] + [] == [e2];
  }

  lemma SeparatorPays(c: Ctl, s: string, f: Fill)
    requires Fitting(c, f) && BothNext(c, s) && Iterate(c, s, true).events == []
    ensures Pays(c, s, f, Iterate(c, s, true).c, Iterate(c, s, true).rest, f)
  {
    IterateValid(c, s, true);
    SizeDrop(s, 1);
  }

  /** What a value token takes off the text. */
  lemma {:induction false} ValueToken(c: Ctl, s: string, r1: Outcome, r2: Outcome)
    requires r1 == IterateValue(c, s, true) && r2 == IterateValue(c, s, false)
    requires r1.Next? && r2.Next? && r2.rest == r1.rest
    ensures |r1.events| == 1 && |r2.events| == 1 && !r1.events[0].Key? && !r1.events[0].Close?
    ensures match r1.events[0]
            case Open(k) => r1.c == Ctl(c.stack + [k], k == Arr, false, false, false) && 1 + Size(r1.rest) <= Size(s)
            case Text(_, _) => r1.c == AfterValue(c.stack) && r2.events[0].Text? && TokenCost(r2.events[0].bytes) + Size(r1.rest) <= Size(s)
            case Number(i) => r1.c == AfterValue(c.stack) && Cost(NumberOf(i)) + Size(r1.rest) <= Size(s)
            case Bool(b) => r1.c == AfterValue(c.stack) && Cost(JBool(b)) + Size(r1.rest) <= Size(s)
            case Null => r1.c == AfterValue(c.stack) && 4 + Size(r1.rest) <= Size(s)
            case _ => false
  {
    forall k | k in {1, 4, 5} && k <= |s| ensures k + Size(s[k..]) <= Size(s) {
      SizeDrop(s, k);
    }
    if Peek(s, 0) == '"' {
      TokenPaysForBytes(s[1..]);
    } else if StartsNumber(s) {
      NumberIterates(c, s, true);
      NumberPays(s);
    }
  }

  lemma {:induction false} ValuePays(c: Ctl, s: string, f: Fill, r1: Outcome, r2: Outcome)
    requires Fitting(c, f) && !c.done && c.seek && !c.needComma && !c.needColon
    requires r1 == IterateValue(c, s, true) && r2 == IterateValue(c, s, false)
    requires r1.Next? && r2.Next? && r2.rest == r1.rest && SameEvents(r1.events, r2.events)
    ensures Pays(c, s, f, r1.c, r1.rest, Filled(f, r1.events, r2.events))
  {
    ValueToken(c, s, r1, r2);
    var e1, e2 := r1.events[0], r2.events[0];
    FilledOne(f, e1, e2);
    assert r1.events == [e1] && r2.events == [e2];
    EventPays(c, s, f, e1, e2, r1.c, r1.rest);
  }

  lemma {:induction false} EventPays(c: Ctl, s: string, f: Fill, e1: Event, e2: Event, c': Ctl, rest: string)
    requires Fitting(c, f) && !c.done && c.seek && !c.needComma && !c.needColon && SameEvent(e1, e2)
    requires match e1
             case Open(k) => c' == Ctl(c.stack + [k], k == Arr, false, false, false) && 1 + Size(rest) <= Size(s)
             case Text(_, _) => c' == AfterValue(c.stack) && TokenCost(e2.bytes) + Size(rest) <= Size(s)
             case Number(i) => c' == AfterValue(c.stack) && Cost(NumberOf(i)) + Size(rest) <= Size(s)
             case Bool(b) => c' == AfterValue(c.stack) && Cost(JBool(b)) + Size(rest) <= Size(s)
             case Null => c' == AfterValue(c.stack) && 4 + Size(rest) <= Size(s)
             case _ => false
    ensures Pays(c, s, f, c', rest, Put(f, Merged(e1, e2), if e1.Number? then e1.value else None))
  {
    match e1
    case Open(k) => OpenPays(c, s, f, k, rest);
    case Text(_, _) => LeafPays(c, s, f, JString(e2.bytes), rest);
    case Number(i) => LeafPays(c, s, f, NumberOf(i), rest);
    case Bool(b) => LeafPays(c, s, f, JBool(b), rest);
    case Null => LeafPays(c, s, f, JNull, rest);
  }

  lemma {:induction false} KeyTokenPays(c: Ctl, s: string, f: Fill)
    requires Fitting(c, f) && BothNext(c, s) && !c.done && !c.seek && Peek(s, 0) == '"'
    ensures var r1, r2 := Iterate(c, s, true), Iterate(c, s, false);
            Pays(c, s, f, r1.c, r1.rest, Filled(f, r1.events, r2.events))
  {
    var r1, r2 := Iterate(c, s, true), Iterate(c, s, false);
    FilledOne(f, r1.events[0], r2.events[0]);
    SizeDrop(s, 1);
    TokenPaysForBytes(s[1..]);
    KeyPays(c, s, f, r2.events[0].bytes, r2.events[0].size, r1.rest);
  }

  lemma {:induction false} CloseTokenPays(c: Ctl, s: string, f: Fill)
    requires Fitting(c, f) && BothNext(c, s) && Iterate(c, s, true).events == [Close]
    ensures var r1, r2 := Iterate(c, s, true), Iterate(c, s, false);
            Pays(c, s, f, r1.c, r1.rest, Filled(f, r1.events, r2.events))
  {
    FilledOne(f, Close, Close);
    SizeDrop(s, 1);
    CloseToken(c, s, true);
    CloseToken(c, s, false);
    ClosePays(c, s, f, s[1..]);
  }

  lemma {:induction false} CloseToken(c: Ctl, s: string, first: bool)
    requires ValidCtl(c) && Iterate(c, s, first).Next? && |Iterate(c, s, first).events| == 1 && Iterate(c, s, first).events[0].Close?
    ensures s != "" && !c.done && !Pending(c) && c.stack != [] && !c.needColon
    ensures Iterate(c, s, first) == Next(AfterValue(c.stack[..|c.stack| - 1]), [Close], s[1..])
  {
  }

  lemma {:induction false} IterationPays(c: Ctl, s: string, f: Fill)
    requires Fitting(c, f) && BothNext(c, s)
    ensures var r1, r2 := Iterate(c, s, true), Iterate(c, s, false);
            Pays(c, s, f, r1.c, r1.rest, Filled(f, r1.events, r2.events))
  {
    var r1, r2 := Iterate(c, s, true), Iterate(c, s, false);
    if r1.events == [] {
      assert Filled(f, [], []) == f;
      SeparatorPays(c, s, f);
    } else if r1.events == [Close] {
      assert r2.events == [Close];
      CloseTokenPays(c, s, f);
    } else if c.seek {
      ValuePays(c, s, f, r1, r2);
    } else {
      KeyTokenPays(c, s, f);
    }
  }

  lemma {:induction false} FilledConcat(f: Fill, a1: seq<Event>, a2: seq<Event>, b1: seq<Event>, b2: seq<Event>)
    requires |a1| == |a2| && |b1| == |b2|
    ensures Filled(f, a1 + b1, a2 + b2) == Filled(Filled(f, a1, a2), b1, b2)
  {
    MergedConcat(a1, b1, a2, b2);
    FillConcat(f, MergedAll(a1, a2), MergedAll(b1, b2));
  }

  /** The tree that both passes make of a text costs no more than the text. */
  lemma {:induction false} TextPays(c: Ctl, s: string, f: Fill)
    requires Fitting(c, f) && Run(c, s, true).Some?
    ensures Run(c, s, false).Some? && SameEvents(Run(c, s, true).value, Run(c, s, false).value)
    ensures var f' := Filled(f, Run(c, s, true).value, Run(c, s, false).value);
            f'.root.Some? && Cost(f'.root.value) <= Paid(c, f) + Size(s)
    decreases |s|
  {
    PassesAgree(c, s);
    var r1, r2 := Iterate(c, s, true), Iterate(c, s, false);
    if r1.Next? {
      IterationsAgree(c, s);
      IterationPays(c, s, f);
      var f1 := Filled(f, r1.events, r2.events);
      TextPays(r1.c, r1.rest, f1);
      FilledConcat(f, r1.events, r2.events, Run(r1.c, r1.rest, true).value, Run(r2.c, r2.rest, false).value);
    }
  }

  lemma {:induction false} ParsedIsNoLonger(text: string)
    requires ParseEx(text).Some?
    ensures Cost(ParseEx(text).value) <= Size(text)
  {
    var s := SkipBom(text);
    ParserFillsExactly(text);
    TextPays(START, s, NO_FILL);
    SizeDrop(text, |text| - |s|);
  }

  // ---------------------------------------------------------------- the conversion of the tree

  lemma {:induction false} WithoutCostsLess(members: seq<Member>, key: string)
    ensures |Without(members, key)| <= |members| && MembersCost(Without(members, key)) <= MembersCost(members)
  {
    if members != [] && members[0].key != key {
      WithoutCostsLess(members[1..], key);
    }
  }

  lemma {:induction false} MembersCostMore(members: seq<Member>, m: Member)
    ensures MembersCost(members + [m]) == MembersCost(members) + MemberCost(m)
  {
    if members == [] {
      assert members + [m] == [m];
    } else {
      assert (members + [m])[0] == members[0] && (members + [m])[1..] == members[1..] + [m];
      MembersCostMore(members[1..], m);
    }
  }

  lemma {:induction false} TreeCostsLess(v: Json)
    ensures Cost(ParseTree(v)) <= Cost(v)
    decreases v, 0
  {
    match v
    case JArray(elems) => TreeElemsCostLess(elems);
    case JObject(members) => TreeMembersCostLess(members);
    case _ =>
  }

  lemma {:induction false} TreeElemsCostLess(elems: seq<Json>)
    ensures |TreeElems(elems)| == |elems| && ElemsCost(TreeElems(elems)) <= ElemsCost(elems)
    decreases elems, 1
  {
    if elems != [] {
      TreeCostsLess(elems[0]);
      TreeElemsCostLess(elems[1..]);
    }
  }

  lemma {:induction false} TreeMemberCostsLess(m: Member)
    ensures MemberCost(TreeMember(m)) <= MemberCost(m)
    decreases m, 1
  {
    TreeCostsLess(m.value);
  }

  lemma {:induction false} TreeMembersCostLess(members: seq<Member>)
    ensures |TreeMembers(members)| <= |members| && MembersCost(TreeMembers(members)) <= MembersCost(members)
    decreases members, 2
  {
    if members != [] {
      var n := |members| - 1;
      var front := TreeMembers(members[..n]);
      TreeMembersCostLess(members[..n]);
      TreeMemberCostsLess(members[n]);
      WithoutCostsLess(front, members[n].key);
      MembersCostMore(Without(front, members[n].key), TreeMember(members[n]));
      MembersCostMore(members[..n], members[n]);
      assert members == members[..n] + [members[n]];
    }
  }

  /** No two properties of an object have one name after the conversion. */
  lemma {:induction false} TreeHasDistinctKeys(v: Json)
    ensures DistinctKeys(ParseTree(v))
    decreases v, 0
  {
    match v
    case JArray(elems) => TreeElemsDistinct(elems);
    case JObject(members) => TreeMembersDistinct(members);
    case _ =>
  }

  lemma {:induction false} TreeElemsDistinct(elems: seq<Json>)
    ensures forall i :: 0 <= i < |TreeElems(elems)| ==> DistinctKeys(TreeElems(elems)[i])
    decreases elems, 1
  {
    if elems != [] {
      TreeHasDistinctKeys(elems[0]);
      TreeElemsDistinct(elems[1..]);
    }
  }

  lemma {:induction false} TreeMemberDistinct(m: Member)
    ensures DistinctKeys(TreeMember(m).value)
    decreases m, 1
  {
    TreeHasDistinctKeys(m.value);
  }

  predicate DistinctMembers(members: seq<Member>) {
    && (forall i, j :: 0 <= i < j < |members| ==> members[i].key != members[j].key)
    && forall i :: 0 <= i < |members| ==> DistinctKeys(members[i].value)
  }

  lemma {:induction false} WithoutDistinct(members: seq<Member>, key: string)
    requires DistinctMembers(members)
    ensures DistinctMembers(Without(members, key))
    ensures forall m :: m in Without(members, key) ==> m in members && m.key != key
  {
    if members != [] {
      assert members == [members[0]] + members[1..];
      if members[0].key != key {
        WithoutDistinct(members[1..], key);
      }
    }
  }

  lemma {:induction false} TreeMembersDistinct(members: seq<Member>)
    ensures DistinctMembers(TreeMembers(members))
    decreases members, 2
  {
    if members != [] {
      var n := |members| - 1;
      TreeMembersDistinct(members[..n]);
      TreeMemberDistinct(members[n]);
      WithoutDistinct(TreeMembers(members[..n]), members[n].key);
      AppendDistinct(Without(TreeMembers(members[..n]), members[n].key), TreeMember(members[n]));
    }
  }

  lemma AppendDistinct(members: seq<Member>, m: Member)
    requires DistinctMembers(members) && DistinctKeys(m.value) && forall x :: x in members ==> x.key != m.key
    ensures DistinctMembers(members + [m])
  {
    var all := members + [m];
    forall i, j | 0 <= i < j < |all|
      ensures all[i].key != all[j].key
    {
      assert all[i] in members;
    }
  }

  // ---------------------------------------------------------------- what the printed text costs

  /** What a character that is printed as it is would cost more. */
  function Unpaid(s: string): nat {
    if s == "" then 0 else CharCost(s[0]) - CharSize(s[0]) + Unpaid(s[1..])
  }

  /** NUL characters, which no escape is printed for. */
  function UnpaidNuls(s: string): nat {
    if s == "" then 0 else (if s[0] == '\0' then 5 else 0) + UnpaidNuls(s[1..])
  }

  /** What the printed text is short of. */
  function Extra(v: Json): nat {
    match v
    case JString(s) => UnpaidNuls(s)
    case JArray(elems) => ElemsExtra(elems)
    case JObject(members) => MembersExtra(members)
    case _ => 0
  }

  function ElemsExtra(elems: seq<Json>): nat {
    if elems == [] then 0 else Extra(elems[0]) + ElemsExtra(elems[1..])
  }

  function MemberExtra(m: Member): nat {
    Unpaid(m.key) + Extra(m.value)
  }

  function MembersExtra(members: seq<Member>): nat {
    if members == [] then 0 else MemberExtra(members[0]) + MembersExtra(members[1..])
  }

  lemma {:induction false} EscapedCost(s: string)
    ensures CharsCost(s) == Size(Escaped(s)) + UnpaidNuls(s)
  {
    if s != "" {
      EscapedCost(s[1..]);
      SizeConcat(EscapedChar(s[0]), Escaped(s[1..]));
      OneEscapedCost(s[0]);
    }
  }

  lemma OneEscapedCost(c: char)
    ensures CharCost(c) == Size(EscapedChar(c)) + if c == '\0' then 5 else 0
  {
    var e := EscapedChar(c);
    SizeIsLength(e);
  }

  lemma {:induction false} RawCost(s: string)
    ensures CharsCost(s) == Size(s) + Unpaid(s)
  {
    if s != "" {
      RawCost(s[1..]);
    }
  }

  lemma {:induction false} IntTextSize(i: int)
    ensures Size(IntText(i)) == |IntText(i)|
  {
    var n := if i < 0 then -i else i;
    forall k | 0 <= k < |NatText(n)| ensures IsDigit(NatText(n)[k]) {
      NatTextIsDigits(n, k);
    }
    SizeIsLength(IntText(i));
  }

  /** A text between two characters. */
  lemma {:induction false} EnclosedSize(a: string, body: string, b: string)
    requires |a| == |b| == 1 && !ShortEscape(a[0]) && !ShortEscape(b[0])
    ensures Size(a + body + b) == 2 + Size(body)
  {
    SizeConcat(a + body, b);
    SizeConcat(a, body);
    SizeIsLength(a);
    SizeIsLength(b);
  }

  lemma {:induction false} PrintedCost(v: Json)
    requires NoDouble(v)
    ensures Cost(v) == Size(Dumps(v)) + Extra(v)
    decreases v, 0
  {
    match v
    case JInteger(i) => IntTextSize(i);
    case JString(s) =>
      EscapedCost(s);
      EnclosedSize("\"", Escaped(s), "\"");
    case JArray(elems) =>
      PrintedElemsCost(elems);
      EnclosedSize("[", DumpElems(elems), "]");
    case JObject(members) =>
      PrintedMembersCost(members);
      EnclosedSize("{", DumpMembers(members), "}");
    case JNull => SizeIsLength("null");
    case JBool(b) =>
      SizeIsLength("true");
      SizeIsLength("false");
  }

  lemma {:induction false} CommaSize(first: string, more: string)
    ensures Size(first + ("," + more)) == Size(first) + 1 + Size(more)
  {
    SizeConcat(first, "," + more);
    SizeConcat(",", more);
    SizeIsLength(",");
  }

  lemma {:induction false} PrintedElemsCost(elems: seq<Json>)
    requires forall i :: 0 <= i < |elems| ==> NoDouble(elems[i])
    ensures ElemsCost(elems) + Commas(|elems|) == Size(DumpElems(elems)) + ElemsExtra(elems)
    decreases elems, 1
  {
    if elems != [] {
      PrintedCost(elems[0]);
      PrintedElemsCost(elems[1..]);
      if |elems| == 1 {
        assert Dumps(elems[0]) + "" == Dumps(elems[0]);
      } else {
        CommaSize(Dumps(elems[0]), DumpElems(elems[1..]));
      }
    }
  }

  lemma {:induction false} PrintedMemberCost(m: Member)
    requires NoDouble(m.value)
    ensures MemberCost(m) == Size(DumpMember(m)) + MemberExtra(m)
    decreases m, 1
  {
    PrintedCost(m.value);
    RawCost(m.key);
    SizeConcat("\"" + m.key + "\":", Dumps(m.value));
    SizeConcat("\"" + m.key, "\":");
    SizeConcat("\"", m.key);
    SizeIsLength("\"");
    SizeIsLength("\":");
  }

  lemma {:induction false} PrintedMembersCost(members: seq<Member>)
    requires forall i :: 0 <= i < |members| ==> NoDouble(members[i].value)
    ensures MembersCost(members) + Commas(|members|) == Size(DumpMembers(members)) + MembersExtra(members)
    decreases members, 2
  {
    if members != [] {
      PrintedMemberCost(members[0]);
      PrintedMembersCost(members[1..]);
      if |members| == 1 {
        assert DumpMember(members[0]) + "" == DumpMember(members[0]);
      } else {
        CommaSize(DumpMember(members[0]), DumpMembers(members[1..]));
      }
    }
  }

  // ---------------------------------------------------------------- exactly which values are read back

  /** The integers in v can be negated by the source. */
  predicate IntsFit(v: Json) {
    match v
    case JInteger(i) => InRange(i)
    case JArray(elems) => forall i :: 0 <= i < |elems| ==> IntsFit(elems[i])
    case JObject(members) => forall i :: 0 <= i < |members| ==> IntsFit(members[i].value)
    case _ => true
  }

  lemma {:induction false} UnpaidIffPlain(s: string)
    ensures Unpaid(s) == 0 <==> PlainKey(s)
    ensures UnpaidNuls(s) == 0 <==> NulFree(s)
  {
    if s != "" {
      UnpaidIffPlain(s[1..]);
      assert s == [s[0]] + s[1..];
    }
  }

  /** Nothing is missing from the printed text exactly when the keys are plain and the strings free of NUL. */
  lemma {:induction false} PaidIffPlain(v: Json)
    requires NoDouble(v) && IntsFit(v)
    ensures Extra(v) == 0 <==> Plain(v)
    decreases v, 0
  {
    match v
    case JString(s) => UnpaidIffPlain(s);
    case JArray(elems) => ElemsPaidIffPlain(elems);
    case JObject(members) => MembersPaidIffPlain(members);
    case _ =>
  }

  lemma {:induction false} ElemsPaidIffPlain(elems: seq<Json>)
    requires forall i :: 0 <= i < |elems| ==> NoDouble(elems[i]) && IntsFit(elems[i])
    ensures ElemsExtra(elems) == 0 <==> forall i :: 0 <= i < |elems| ==> Plain(elems[i])
    decreases elems, 1
  {
    if elems != [] {
      PaidIffPlain(elems[0]);
      ElemsPaidIffPlain(elems[1..]);
      assert forall i :: 1 <= i < |elems| ==> elems[i] == elems[1..][i - 1];
    }
  }

  lemma {:induction false} MemberPaidIffPlain(m: Member)
    requires NoDouble(m.value) && IntsFit(m.value)
    ensures MemberExtra(m) == 0 <==> PlainMember(m)
    decreases m, 1
  {
    PaidIffPlain(m.value);
    UnpaidIffPlain(m.key);
  }

  lemma {:induction false} MembersPaidIffPlain(members: seq<Member>)
    requires forall i :: 0 <= i < |members| ==> NoDouble(members[i].value) && IntsFit(members[i].value)
    ensures MembersExtra(members) == 0 <==> forall i :: 0 <= i < |members| ==> PlainMember(members[i])
    decreases members, 2
  {
    if members != [] {
      MemberPaidIffPlain(members[0]);
      MembersPaidIffPlain(members[1..]);
      assert forall i :: 1 <= i < |members| ==> members[i] == members[1..][i - 1];
    }
  }

  /** Whatever is read back costs no more than its printed text. */
  lemma {:induction false} ReadBackIsPaid(v: Json)
    requires NoDouble(v) && Loads(Dumps(v)) == Some(v)
    ensures DistinctKeys(v) && Extra(v) == 0
  {
    var w := ParseEx(Dumps(v)).value;
    ParsedIsNoLonger(Dumps(v));
    TreeCostsLess(w);
    TreeHasDistinctKeys(w);
    PrintedCost(v);
  }

  /**
    The exact condition of the round trip: a value is read back from its printed text if and only
    if the keys of every object are plain and distinct and no string holds a NUL.
   */
  lemma {:induction false} ReadBackIff(v: Json)
    requires NoDouble(v) && IntsFit(v)
    ensures Loads(Dumps(v)) == Some(v) <==> Plain(v) && DistinctKeys(v)
  {
    PaidIffPlain(v);
    if Plain(v) && DistinctKeys(v) {
      LoadsOfDumps(v);
    }
    if Loads(Dumps(v)) == Some(v) {
      ReadBackIsPaid(v);
    }
  }
}
