/**
  Printing JSON (`dumps`, `json_serialize_string`), and what the two passes of the parser meet in
  printed text.
 */
module JsonText {
  import opened Wrappers
  import opened JsonScan
  import opened JsonParse
  import opened JsonBuild

  // ---------------------------------------------------------------- printing

  function EscapedChar(c: char): string {
    match c
    case '"' => "\\\""
    case '\\' => "\\\\"
    case '\U{8}' => "\\b"
    case '\U{C}' => "\\f"
    case '\n' => "\\n"
    case '\r' => "\\r"
    case '\t' => "\\t"
    case _ => [c]
  }

  function Escaped(s: string): string {
    if s == "" then "" else EscapedChar(s[0]) + Escaped(s[1..])
  }

  /** `json_serialize_string`. */
  function Quoted(s: string): string {
    "\"" + Escaped(s) + "\""
  }

  function DigitChar(d: nat): (c: char)
    requires d < 10
    ensures IsDigit(c) && DigitValue(c) == d
  {
    (d + '0' as int) as char
  }

  function NatText(n: nat): (r: string)
    ensures r != ""
  {
    if n < 10 then [DigitChar(n)] else NatText(n / 10) + [DigitChar(n % 10)]
  }

  /** `srs_int2str`. */
  function IntText(i: int): string {
    if i < 0 then "-" + NatText(-i) else NatText(i)
  }

  /** There is no double in v: their text is rounded and is not modelled. */
  predicate NoDouble(v: Json) {
    match v
    case JDouble => false
    case JArray(elems) => forall i :: 0 <= i < |elems| ==> NoDouble(elems[i])
    case JObject(members) => forall i :: 0 <= i < |members| ==> NoDouble(members[i].value)
    case _ => true
  }

  /** `dumps`; keys are printed as they are. */
  function Dumps(v: Json): string
    requires NoDouble(v)
  {
    match v
    case JNull => "null"
    case JBool(b) => if b then "true" else "false"
    case JInteger(i) => IntText(i)
    case JString(s) => Quoted(s)
    case JArray(elems) => "[" + DumpElems(elems) + "]"
    case JObject(members) => "{" + DumpMembers(members) + "}"
  }

  function DumpElems(elems: seq<Json>): string
    requires forall i :: 0 <= i < |elems| ==> NoDouble(elems[i])
  {
    if elems == [] then ""
    else Dumps(elems[0]) + (if |elems| == 1 then "" else "," + DumpElems(elems[1..]))
  }

  function DumpMember(m: Member): string
    requires NoDouble(m.value)
  {
    "\"" + m.key + "\":" + Dumps(m.value)
  }

  function DumpMembers(members: seq<Member>): string
    requires forall i :: 0 <= i < |members| ==> NoDouble(members[i].value)
  {
    if members == [] then ""
    else DumpMember(members[0]) + (if |members| == 1 then "" else "," + DumpMembers(members[1..]))
  }

  // ---------------------------------------------------------------- what can be read back

  predicate NulFree(s: string) {
    forall i :: 0 <= i < |s| ==> s[i] != '\0'
  }

  /** A key that is the same when it is printed without escapes. */
  predicate PlainKey(s: string) {
    forall i :: 0 <= i < |s| ==> s[i] != '\0' && s[i] != '"' && s[i] != '\\'
  }

  /** The integers that the source can negate. */
  predicate InRange(i: int) {
    -0x8000_0000_0000_0000 < i < 0x8000_0000_0000_0000
  }

  predicate Plain(v: Json) {
    match v
    case JDouble => false
    case JInteger(i) => InRange(i)
    case JString(s) => NulFree(s)
    case JArray(elems) => forall i :: 0 <= i < |elems| ==> Plain(elems[i])
    case JObject(members) => forall i :: 0 <= i < |members| ==> PlainMember(members[i])
    case _ => true
  }

  predicate PlainMember(m: Member) {
    PlainKey(m.key) && Plain(m.value)
  }

  lemma {:induction false} PlainHasNoDouble(v: Json)
    requires Plain(v)
    ensures NoDouble(v)
  {
    match v
    case JArray(elems) =>
      forall i | 0 <= i < |elems|
        ensures NoDouble(elems[i])
      {
        PlainHasNoDouble(elems[i]);
      }
    case JObject(members) =>
      forall i | 0 <= i < |members|
        ensures NoDouble(members[i].value)
      {
        assert PlainMember(members[i]);
        PlainHasNoDouble(members[i].value);
      }
    case _ =>
  }

  // ---------------------------------------------------------------- tokens

  lemma {:induction false} QuotedIsRead(s: string, rest: string)
    requires NulFree(s)
    ensures FillString(Escaped(s) + "\"" + rest) == Some((s, rest))
  {
    var t := Escaped(s) + "\"" + rest;
    if s == "" {
      assert t == "\"" + rest;
    } else {
      var tail := Escaped(s[1..]) + "\"" + rest;
      QuotedIsRead(s[1..], rest);
      assert t == EscapedChar(s[0]) + tail;
      OneCharIsRead(s[0], tail);
      assert s == [s[0]] + s[1..];
    }
  }

  lemma EscapeIsUndone(c: char)
    requires c != '\0'
    ensures var e := EscapedChar(c);
            if |e| == 2 then e[0] == '\\' && e[1] != 'u' && e[1] != '\0' && Unescape(e[1]) == c
            else e == [c] && c != '"' && c != '\\'
  {
  }

  lemma OneCharIsRead(c: char, tail: string)
    requires c != '\0' && FillString(tail).Some?
    ensures FillString(EscapedChar(c) + tail) == Some(([c] + FillString(tail).value.0, FillString(tail).value.1))
  {
    EscapeIsUndone(c);
    var e := EscapedChar(c);
    if |e| == 2 {
      EscapeIsRead(e, tail);
    } else {
      RawIsRead(c, tail);
    }
  }

  lemma EscapeIsRead(e: string, tail: string)
    requires |e| == 2 && e[0] == '\\' && e[1] != 'u' && e[1] != '\0' && FillString(tail).Some?
    ensures FillString(e + tail) == Some(([Unescape(e[1])] + FillString(tail).value.0, FillString(tail).value.1))
  {
    var t := e + tail;
    assert t[1..][1..] == tail && t[1..][0] == e[1];
  }

  lemma RawIsRead(c: char, tail: string)
    requires c != '\0' && c != '"' && c != '\\' && FillString(tail).Some?
    ensures FillString([c] + tail) == Some(([c] + FillString(tail).value.0, FillString(tail).value.1))
  {
    assert ([c] + tail)[1..] == tail;
  }

  lemma {:induction false} KeyIsRead(key: string, rest: string)
    requires PlainKey(key)
    ensures FillString(key + "\"" + rest) == Some((key, rest))
  {
    var t := key + "\"" + rest;
    if key == "" {
      assert t == "\"" + rest;
    } else {
      KeyIsRead(key[1..], rest);
      assert t[1..] == key[1..] + "\"" + rest;
      assert key == [key[0]] + key[1..];
    }
  }

  /** A string is never longer than its token, and as long only if nothing in it was escaped. */
  lemma {:induction false} TokenIsLonger(s: string)
    requires FillString(s).Some?
    ensures var (bytes, rest) := FillString(s).value;
            && |bytes| + 1 + |rest| <= |s|
            && (|bytes| + 1 + |rest| == |s| ==> PlainKey(bytes))
    decreases |s|
  {
    if s[0] == '\\' {
      EscapeIsLonger(s);
    } else if s[0] != '"' {
      TokenIsLonger(s[1..]);
    }
  }

  lemma {:induction false} EscapeIsLonger(s: string)
    requires Peek(s, 0) == '\\' && FillString(s).Some?
    ensures |FillString(s).value.0| + 1 + |FillString(s).value.1| < |s|
    decreases |s|, 0
  {
    var e := s[1..];
    if e[0] == 'u' {
      CodePointIsLonger(e);
      var (u, t) := CodePoint(e).value;
      CodePointPassesAgree(u);
      TokenIsLonger(t);
    } else {
      TokenIsLonger(e[1..]);
    }
  }

  lemma CodePointIsLonger(e: string)
    requires CodePoint(e).Some?
    ensures |CodePoint(e).value.1| + 5 <= |e|
  {
  }

  /** Exactly the plain keys are read back from a key that is printed without escapes. */
  lemma KeyIsReadIffPlain(key: string, rest: string)
    ensures FillString(key + "\"" + rest) == Some((key, rest)) <==> PlainKey(key)
  {
    if PlainKey(key) {
      KeyIsRead(key, rest);
    }
    if FillString(key + "\"" + rest) == Some((key, rest)) {
      TokenIsLonger(key + "\"" + rest);
    }
  }

  /** Exactly the strings without NUL are read back from their quoted text. */
  lemma {:induction false} QuotedIsReadIffNulFree(s: string, rest: string)
    ensures FillString(Escaped(s) + "\"" + rest) == Some((s, rest)) <==> NulFree(s)
    ensures !NulFree(s) ==> FillString(Escaped(s) + "\"" + rest) == None
    decreases |s|
  {
    if NulFree(s) {
      QuotedIsRead(s, rest);
    } else {
      NulIsNotRead(s, rest);
    }
  }

  lemma {:induction false} NulIsNotRead(s: string, rest: string)
    requires !NulFree(s)
    ensures FillString(Escaped(s) + "\"" + rest) == None
    decreases |s|
  {
    var tail := Escaped(s[1..]) + "\"" + rest;
    assert Escaped(s) + "\"" + rest == EscapedChar(s[0]) + tail;
    if s[0] == '\0' {
      assert EscapedChar(s[0]) == ['\0'];
    } else {
      NulIsNotRead(s[1..], rest);
      AfterOneChar(s[0], tail);
    }
  }

  lemma {:induction false} AfterOneChar(c: char, tail: string)
    requires c != '\0' && FillString(tail) == None
    ensures FillString(EscapedChar(c) + tail) == None
  {
    EscapeIsUndone(c);
    var e := EscapedChar(c);
    var t := e + tail;
    if |e| == 2 {
      assert t[1..][1..] == tail && t[1..][0] == e[1];
    } else {
      assert t[1..] == tail;
    }
  }

  /** The events of a token, by what the pass knows. */
  function BytesKnown(s: string, bytes: bool): string {
    if bytes then s else ""
  }

  lemma TokenIsRead(t: string, s: string, rest: string, first: bool)
    requires FillString(t) == Some((s, rest))
    ensures StringToken(t, first) == Some((|s|, BytesKnown(s, !first), rest))
  {
    StringPassesAgree(t);
  }

  /** The digits of a number as the state machine accumulates them. */
  function DigitsState(n: nat): NumState {
    NumState(false, |NatText(n)|, n == 0, false, false, n)
  }

  /** One more digit, which is not the first. */
  lemma {:induction false} DigitStep(q: nat, d: nat, n: nat, rest: string)
    requires q > 0 && d < 10 && n == 10 * q + d && |NatText(n)| == |NatText(q)| + 1
    ensures ScanFrom([DigitChar(d)] + rest, DigitsState(q)) == ScanFrom(rest, DigitsState(n))
  {
    var s := [DigitChar(d)] + rest;
    assert s[1..] == rest && Peek(s, 0) == DigitChar(d);
    assert NumStep(DigitsState(q), DigitChar(d)) == MoreNumber(DigitsState(n));
  }

  lemma DigitCharZero(d: nat)
    requires d < 10
    ensures DigitChar(d) == '0' <==> d == 0
  {
  }

  lemma {:induction false} FirstDigit(d: nat, rest: string, start: NumState)
    requires d < 10 && start == NUM_START
    ensures ScanFrom([DigitChar(d)] + rest, start) == ScanFrom(rest, NumState(false, 1, d == 0, false, false, d))
  {
    var s := [DigitChar(d)] + rest;
    DigitCharZero(d);
    assert s[1..] == rest && Peek(s, 0) == DigitChar(d);
    FirstStep(d, DigitChar(d), start);
  }

  lemma FirstStep(d: nat, b: char, start: NumState)
    requires IsDigit(b) && DigitValue(b) == d && (b == '0' <==> d == 0)
    requires !start.isDouble && start.digits == 0 && !start.zero && !start.e && !start.gotSign && start.value == 0
    ensures NumStep(start, b) == MoreNumber(NumState(false, 1, d == 0, false, false, d))
  {
    assert NumStep(start, b) == MoreNumber(start.(digits := 1, zero := b == '0', value := 10 * start.value + DigitValue(b)));
    assert 10 * start.value == 0;
  }

  lemma {:induction false} DigitsAreScanned(n: nat, rest: string)
    ensures ScanFrom(NatText(n) + rest, NUM_START) == ScanFrom(rest, DigitsState(n))
    decreases n
  {
    if n < 10 {
      FirstDigit(n, rest, NUM_START);
    } else {
      var q, d := n / 10, n % 10;
      DigitsAreScanned(q, [DigitChar(d)] + rest);
      Associative(NatText(q), [DigitChar(d)], rest);
      DigitStep(q, d, n, rest);
    }
  }

  lemma {:induction false} NatTextIsDigits(n: nat, i: nat)
    requires i < |NatText(n)|
    ensures IsDigit(NatText(n)[i])
  {
    if n >= 10 && i < |NatText(n)| - 1 {
      NatTextIsDigits(n / 10, i);
    }
  }

  lemma NatIsScanned(n: nat, rest: string)
    requires !IsNumeric(Peek(rest, 0))
    ensures ScanFrom(NatText(n) + rest, NUM_START) == Some((false, n, rest))
  {
    DigitsAreScanned(n, rest);
  }

  lemma {:induction false} NegativeIsScanned(n: nat, rest: string)
    requires !IsNumeric(Peek(rest, 0))
    ensures ScanNumber("-" + NatText(n) + rest) == Some((Some(0 - n), rest))
  {
    var t := "-" + NatText(n) + rest;
    NatIsScanned(n, rest);
    assert t[1..] == NatText(n) + rest;
  }

  lemma {:induction false} NaturalIsScanned(n: nat, rest: string)
    requires !IsNumeric(Peek(rest, 0))
    ensures IsDigit(Peek(NatText(n) + rest, 0))
    ensures ScanNumber(NatText(n) + rest) == Some((Some(n), rest))
  {
    NatIsScanned(n, rest);
    NatTextIsDigits(n, 0);
  }

  lemma {:induction false} IntIsScanned(i: int, rest: string)
    requires !IsNumeric(Peek(rest, 0))
    ensures StartsNumber(IntText(i) + rest)
    ensures ScanNumber(IntText(i) + rest) == Some((Some(i), rest))
    ensures SkipNumber(IntText(i) + rest) == rest
  {
    if i < 0 {
      NegativeIsScanned(-i, rest);
    } else {
      NaturalIsScanned(i, rest);
    }
    NumberPassesAgree(IntText(i) + rest);
  }

  // ---------------------------------------------------------------- what a pass meets in printed text

  /** The events of a value, with the bytes of strings and the values of numbers or without. */
  function Events(v: Json, bytes: bool, numbers: bool): seq<Event> {
    match v
    case JNull => [Null]
    case JBool(b) => [Bool(b)]
    case JInteger(i) => [Number(if numbers then Some(i) else None)]
    case JDouble => [Number(None)]
    case JString(s) => [Text(|s|, BytesKnown(s, bytes))]
    case JArray(elems) => [Open(Arr)] + ElemEvents(elems, bytes, numbers) + [Close]
    case JObject(members) => [Open(Obj)] + MemberEvents(members, bytes, numbers) + [Close]
  }

  function ElemEvents(elems: seq<Json>, bytes: bool, numbers: bool): seq<Event> {
    if elems == [] then [] else Events(elems[0], bytes, numbers) + ElemEvents(elems[1..], bytes, numbers)
  }

  function OneMemberEvents(m: Member, bytes: bool, numbers: bool): seq<Event> {
    [Key(|m.key|, BytesKnown(m.key, bytes))] + Events(m.value, bytes, numbers)
  }

  function MemberEvents(members: seq<Member>, bytes: bool, numbers: bool): seq<Event> {
    if members == [] then []
    else OneMemberEvents(members[0], bytes, numbers) + MemberEvents(members[1..], bytes, numbers)
  }

  function Prepend(es: seq<Event>, r: Option<seq<Event>>): Option<seq<Event>> {
    match r
    case None => None
    case Some(more) => Some(es + more)
  }

  lemma PrependTwice(a: seq<Event>, b: seq<Event>, r: Option<seq<Event>>)
    ensures Prepend(a, Prepend(b, r)) == Prepend(a + b, r)
  {
    if r.Some? {
      Associative(a, b, r.value);
    }
  }

  /** A place where a value is expected. */
  predicate AtValue(c: Ctl) {
    ValidCtl(c) && !c.done && c.seek && !c.needComma && !c.needColon
  }

  lemma OneIteration(c: Ctl, s: string, first: bool, c': Ctl, es: seq<Event>, rest: string)
    requires Iterate(c, s, first) == Next(c', es, rest)
    ensures Run(c, s, first) == Prepend(es, Run(c', rest, first))
  {
  }

  /** A pass meets exactly the events of a printed value, and goes on behind it. */
  lemma {:induction false} ValueIsMet(v: Json, c: Ctl, rest: string, first: bool)
    requires Plain(v) && NoDouble(v) && AtValue(c) && !IsNumeric(Peek(rest, 0))
    ensures Run(c, Dumps(v) + rest, first) == Prepend(Events(v, !first, first), Run(AfterValue(c.stack), rest, first))
    decreases v, 0
  {
    match v
    case JNull => WordIsMet(c, "null", Null, rest, first);
    case JBool(b) => WordIsMet(c, Dumps(v), Bool(b), rest, first);
    case JInteger(i) => IntegerIsMet(c, i, rest, first);
    case JString(s) => StringIsMet(c, s, rest, first);
    case JArray(elems) =>
      ElemsAreMet(elems, c.stack, rest, first);
      ArrayIsMet(c, DumpElems(elems) + "]" + rest, first);
      Enclosed("[", DumpElems(elems), "]", rest);
      PrependInside(Open(Arr), ElemEvents(elems, !first, first), Run(AfterValue(c.stack), rest, first));
    case JObject(members) =>
      MembersAreMet(members, c.stack, rest, first);
      ObjectIsMet(c, DumpMembers(members) + "}" + rest, first);
      Enclosed("{", DumpMembers(members), "}", rest);
      PrependInside(Open(Obj), MemberEvents(members, !first, first), Run(AfterValue(c.stack), rest, first));
  }

  lemma Enclosed(a: string, body: string, b: string, rest: string)
    ensures (a + body + b) + rest == a + (body + b + rest)
  {
  }

  lemma PrependInside(e: Event, es: seq<Event>, r: Option<seq<Event>>)
    ensures Prepend([e], Prepend(es + [Close], r)) == Prepend([e] + es + [Close], r)
  {
    PrependTwice([e], es + [Close], r);
    Associative([e], es, [Close]);
  }

  lemma WordIsMet(c: Ctl, word: string, e: Event, rest: string, first: bool)
    requires AtValue(c)
    requires (word == "null" && e == Null) || (word == "true" && e == Bool(true)) || (word == "false" && e == Bool(false))
    ensures Run(c, word + rest, first) == Prepend([e], Run(AfterValue(c.stack), rest, first))
  {
    var t := word + rest;
    assert t[..|word|] == word && t[|word|..] == rest;
    assert Peek(t, 0) == word[0];
    WordIterates(c, word, e, t, rest, first);
    OneIteration(c, t, first, AfterValue(c.stack), [e], rest);
  }

  lemma WordIterates(c: Ctl, word: string, e: Event, t: string, rest: string, first: bool)
    requires AtValue(c) && StartsWith(t, word) && t[|word|..] == rest
    requires (word == "null" && e == Null) || (word == "true" && e == Bool(true)) || (word == "false" && e == Bool(false))
    ensures Iterate(c, t, first) == Next(AfterValue(c.stack), [e], rest)
  {
    assert Peek(t, 0) == t[..|word|][0] == word[0];
  }

  lemma IntegerIsMet(c: Ctl, i: int, rest: string, first: bool)
    requires AtValue(c) && !IsNumeric(Peek(rest, 0))
    ensures Run(c, IntText(i) + rest, first) ==
            Prepend([Number(if first then Some(i) else None)], Run(AfterValue(c.stack), rest, first))
  {
    var t := IntText(i) + rest;
    IntIsScanned(i, rest);
    assert Peek(t, 0) == t[0];
    assert !StartsWith(t, "true") && !StartsWith(t, "false") && !StartsWith(t, "null") by {
      assert |t| >= 4 ==> t[..4][0] == t[0];
      assert |t| >= 5 ==> t[..5][0] == t[0];
    }
    OneIteration(c, t, first, AfterValue(c.stack), [Number(if first then Some(i) else None)], rest);
  }

  lemma StringIsMet(c: Ctl, s: string, rest: string, first: bool)
    requires AtValue(c) && NulFree(s)
    ensures Run(c, Quoted(s) + rest, first) ==
            Prepend([Text(|s|, BytesKnown(s, !first))], Run(AfterValue(c.stack), rest, first))
  {
    var t := Quoted(s) + rest;
    QuotedIsRead(s, rest);
    assert t[1..] == Escaped(s) + "\"" + rest;
    TokenIsRead(t[1..], s, rest, first);
    OneIteration(c, t, first, AfterValue(c.stack), [Text(|s|, BytesKnown(s, !first))], rest);
  }

  lemma ArrayIsMet(c: Ctl, body: string, first: bool)
    requires AtValue(c)
    ensures Run(c, "[" + body, first) == Prepend([Open(Arr)], Run(Ctl(c.stack + [Arr], true, false, false, false), body, first))
  {
    OneIteration(c, "[" + body, first, Ctl(c.stack + [Arr], true, false, false, false), [Open(Arr)], body);
  }

  lemma ObjectIsMet(c: Ctl, body: string, first: bool)
    requires AtValue(c)
    ensures Run(c, "{" + body, first) == Prepend([Open(Obj)], Run(Ctl(c.stack + [Obj], false, false, false, false), body, first))
  {
    OneIteration(c, "{" + body, first, Ctl(c.stack + [Obj], false, false, false, false), [Open(Obj)], body);
  }

  /** A separator, which is no event. */
  lemma CommaIsMet(c: Ctl, body: string, first: bool)
    requires ValidCtl(c) && !c.done && c.needComma
    ensures Run(c, "," + body, first) == Run(c.(needComma := false), body, first)
  {
    OneIteration(c, "," + body, first, c.(needComma := false), [], body);
    var r := Run(c.(needComma := false), body, first);
    assert r.Some? ==> [] + r.value == r.value;
  }

  /** The closing bracket or brace, with or without a value right before it. */
  lemma CloseIsMet(stack: seq<Kind>, k: Kind, needComma: bool, rest: string, first: bool)
    ensures Run(Ctl(stack + [k], k == Arr, needComma, false, false), (if k == Arr then "]" else "}") + rest, first) ==
            Prepend([Close], Run(AfterValue(stack), rest, first))
  {
    var c := Ctl(stack + [k], k == Arr, needComma, false, false);
    assert (stack + [k])[..|stack|] == stack;
    OneIteration(c, (if k == Arr then "]" else "}") + rest, first, AfterValue(stack), [Close], rest);
  }

  lemma {:induction false} ElemsAreMet(elems: seq<Json>, stack: seq<Kind>, rest: string, first: bool)
    requires forall i :: 0 <= i < |elems| ==> Plain(elems[i]) && NoDouble(elems[i])
    ensures Run(Ctl(stack + [Arr], true, false, false, false), DumpElems(elems) + "]" + rest, first) ==
            Prepend(ElemEvents(elems, !first, first) + [Close], Run(AfterValue(stack), rest, first))
    decreases elems, 1
  {
    var c := Ctl(stack + [Arr], true, false, false, false);
    if elems == [] {
      CloseIsMet(stack, Arr, false, rest, first);
      assert DumpElems(elems) + "]" + rest == "]" + rest;
      assert ElemEvents(elems, !first, first) + [Close] == [Close];
    } else if |elems| == 1 {
      ValueIsMet(elems[0], c, "]" + rest, first);
      CloseIsMet(stack, Arr, true, rest, first);
      OnlyElem(elems, rest, first, Run(AfterValue(stack), rest, first));
    } else {
      var tail := DumpElems(elems[1..]) + "]" + rest;
      ValueIsMet(elems[0], c, "," + tail, first);
      CommaIsMet(AfterValue(stack + [Arr]), tail, first);
      ElemsAreMet(elems[1..], stack, rest, first);
      FirstElem(elems, rest, first, Run(AfterValue(stack), rest, first));
    }
  }

  lemma {:induction false} OnlyElem(elems: seq<Json>, rest: string, first: bool, r: Option<seq<Event>>)
    requires |elems| == 1 && NoDouble(elems[0])
    ensures DumpElems(elems) + "]" + rest == Dumps(elems[0]) + ("]" + rest)
    ensures Prepend(Events(elems[0], !first, first), Prepend([Close], r)) ==
            Prepend(ElemEvents(elems, !first, first) + [Close], r)
  {
    var es := Events(elems[0], !first, first);
    PrependTwice(es, [Close], r);
    assert ElemEvents(elems, !first, first) == es + [] == es;
  }

  lemma {:induction false} FirstElem(elems: seq<Json>, rest: string, first: bool, r: Option<seq<Event>>)
    requires |elems| > 1 && forall i :: 0 <= i < |elems| ==> NoDouble(elems[i])
    ensures DumpElems(elems) + "]" + rest == Dumps(elems[0]) + ("," + (DumpElems(elems[1..]) + "]" + rest))
    ensures Prepend(Events(elems[0], !first, first), Prepend(ElemEvents(elems[1..], !first, first) + [Close], r)) ==
            Prepend(ElemEvents(elems, !first, first) + [Close], r)
  {
    var es, more := Events(elems[0], !first, first), ElemEvents(elems[1..], !first, first);
    PrependTwice(es, more + [Close], r);
    Associative(es, more, [Close]);
  }

  lemma {:induction false} ColonIsMet(c: Ctl, body: string, first: bool)
    requires ValidCtl(c) && !c.done && c.needColon
    ensures Run(c, ":" + body, first) == Run(c.(needColon := false), body, first)
  {
    OneIteration(c, ":" + body, first, c.(needColon := false), [], body);
    var r := Run(c.(needColon := false), body, first);
    assert r.Some? ==> [] + r.value == r.value;
  }

  /** A key with its colon. */
  lemma {:induction false} KeyIsMet(stack: seq<Kind>, key: string, body: string, first: bool)
    requires PlainKey(key)
    ensures Run(Ctl(stack + [Obj], false, false, false, false), "\"" + key + "\":" + body, first) ==
            Prepend([Key(|key|, BytesKnown(key, !first))], Run(Ctl(stack + [Obj], true, false, false, false), body, first))
  {
    var c := Ctl(stack + [Obj], false, false, false, false);
    var tail := key + "\"" + (":" + body);
    KeyIsRead(key, ":" + body);
    TokenIsRead(tail, key, ":" + body, first);
    assert "\"" + key + "\":" + body == "\"" + tail;
    KeyToken(c, key, tail, ":" + body, first);
    ColonIsMet(c.(seek := true, needColon := true), body, first);
  }

  lemma {:induction false} KeyToken(c: Ctl, key: string, tail: string, rest: string, first: bool)
    requires ValidCtl(c) && !c.done && !c.seek && !c.needComma
    requires StringToken(tail, first) == Some((|key|, BytesKnown(key, !first), rest))
    ensures Run(c, "\"" + tail, first) ==
            Prepend([Key(|key|, BytesKnown(key, !first))], Run(c.(seek := true, needColon := true), rest, first))
  {
    var t := "\"" + tail;
    assert t[1..] == tail;
    OneIteration(c, t, first, c.(seek := true, needColon := true), [Key(|key|, BytesKnown(key, !first))], rest);
  }

  lemma {:induction false} MemberIsMet(m: Member, stack: seq<Kind>, rest: string, first: bool)
    requires PlainMember(m) && NoDouble(m.value) && !IsNumeric(Peek(rest, 0))
    ensures Run(Ctl(stack + [Obj], false, false, false, false), DumpMember(m) + rest, first) ==
            Prepend(OneMemberEvents(m, !first, first), Run(AfterValue(stack + [Obj]), rest, first))
    decreases m, 1
  {
    var body := Dumps(m.value) + rest;
    KeyIsMet(stack, m.key, body, first);
    ValueIsMet(m.value, Ctl(stack + [Obj], true, false, false, false), rest, first);
    assert DumpMember(m) + rest == "\"" + m.key + "\":" + body;
    PrependTwice([Key(|m.key|, BytesKnown(m.key, !first))], Events(m.value, !first, first), Run(AfterValue(stack + [Obj]), rest, first));
  }

  lemma {:induction false} MembersAreMet(members: seq<Member>, stack: seq<Kind>, rest: string, first: bool)
    requires forall i :: 0 <= i < |members| ==> PlainMember(members[i]) && NoDouble(members[i].value)
    ensures Run(Ctl(stack + [Obj], false, false, false, false), DumpMembers(members) + "}" + rest, first) ==
            Prepend(MemberEvents(members, !first, first) + [Close], Run(AfterValue(stack), rest, first))
    decreases members, 2
  {
    if members == [] {
      CloseIsMet(stack, Obj, false, rest, first);
      assert DumpMembers(members) + "}" + rest == "}" + rest;
      assert MemberEvents(members, !first, first) + [Close] == [Close];
    } else if |members| == 1 {
      MemberIsMet(members[0], stack, "}" + rest, first);
      CloseIsMet(stack, Obj, true, rest, first);
      OnlyMember(members, rest, first, Run(AfterValue(stack), rest, first));
    } else {
      var tail := DumpMembers(members[1..]) + "}" + rest;
      MemberIsMet(members[0], stack, "," + tail, first);
      CommaIsMet(AfterValue(stack + [Obj]), tail, first);
      MembersAreMet(members[1..], stack, rest, first);
      FirstMember(members, rest, first, Run(AfterValue(stack), rest, first));
    }
  }

  lemma {:induction false} OnlyMember(members: seq<Member>, rest: string, first: bool, r: Option<seq<Event>>)
    requires |members| == 1 && NoDouble(members[0].value)
    ensures DumpMembers(members) + "}" + rest == DumpMember(members[0]) + ("}" + rest)
    ensures Prepend(OneMemberEvents(members[0], !first, first), Prepend([Close], r)) ==
            Prepend(MemberEvents(members, !first, first) + [Close], r)
  {
    var es := OneMemberEvents(members[0], !first, first);
    PrependTwice(es, [Close], r);
    assert MemberEvents(members, !first, first) == es + [] == es;
  }

  lemma {:induction false} FirstMember(members: seq<Member>, rest: string, first: bool, r: Option<seq<Event>>)
    requires |members| > 1 && forall i :: 0 <= i < |members| ==> NoDouble(members[i].value)
    ensures DumpMembers(members) + "}" + rest == DumpMember(members[0]) + ("," + (DumpMembers(members[1..]) + "}" + rest))
    ensures Prepend(OneMemberEvents(members[0], !first, first), Prepend(MemberEvents(members[1..], !first, first) + [Close], r)) ==
            Prepend(MemberEvents(members, !first, first) + [Close], r)
  {
    var es, more := OneMemberEvents(members[0], !first, first), MemberEvents(members[1..], !first, first);
    PrependTwice(es, more + [Close], r);
    Associative(es, more, [Close]);
  }
}
