/**
  The two passes of `json_parse_ex` over a text, as the sequence of values and keys that each
  pass meets. Both passes follow the same flags and the same chain of open containers; they use
  different scanners for strings and numbers.
 */
module JsonParse {
  import opened Wrappers
  import opened JsonScan

  datatype Kind = Obj | Arr

  /** The first pass knows the size of a text or key and the value of a number; the second pass knows the bytes. */
  datatype Event =
    | Open(kind: Kind)
    | Close
    | Text(size: nat, bytes: string)
    | Key(size: nat, bytes: string)
    | Number(value: Option<int>)
    | Bool(flag: bool)
    | Null

  /** The flags between two tokens, and the containers from the root to the innermost open one. */
  datatype Ctl = Ctl(stack: seq<Kind>, seek: bool, needComma: bool, needColon: bool, done: bool)

  const START := Ctl([], true, false, false, false)

  datatype Outcome = Fail | Halt | Next(c: Ctl, events: seq<Event>, rest: string)

  predicate IsSpace(c: char) {
    c == ' ' || c == '\t' || c == '\r' || c == '\n'
  }

  predicate TopIs(stack: seq<Kind>, k: Kind) {
    stack != [] && stack[|stack| - 1] == k
  }

  /** What the flags rule out between two tokens. */
  predicate ValidCtl(c: Ctl) {
    && (c.done ==> c.stack == [])
    && (!c.done && !c.seek ==> TopIs(c.stack, Obj))
    && (c.needColon ==> c.seek && !c.needComma && TopIs(c.stack, Obj))
    && (!c.done && c.seek && c.needComma ==> TopIs(c.stack, Arr))
  }

  /** `flag_next`: a value is complete; `stack` is what encloses it. */
  function AfterValue(stack: seq<Kind>): (c: Ctl)
    ensures ValidCtl(c)
  {
    Ctl(stack, TopIs(stack, Arr), true, false, stack == [])
  }

  /** A string token behind its opening quote: its size and bytes as far as the pass knows them. */
  function StringToken(s: string, first: bool): (r: Option<(nat, string, string)>)
    ensures r.Some? ==> |r.value.2| < |s|
  {
    if first then
      match CountString(s)
      case None => None
      case Some((n, rest)) => Some((n, "", rest))
    else
      match FillString(s)
      case None => None
      case Some((bytes, rest)) => Some((|bytes|, bytes, rest))
  }

  function NumberToken(s: string, first: bool): (r: Option<(Option<int>, string)>)
    requires StartsNumber(s)
    ensures r.Some? ==> |r.value.1| < |s|
  {
    if first then ScanNumber(s) else Some((None, SkipNumber(s)))
  }

  /** The text s starts with the characters of w. */
  predicate StartsWith(s: string, w: string) {
    |w| <= |s| && s[..|w|] == w
  }

  /** A value at the current character, which is not white space. */
  function IterateValue(c: Ctl, s: string, first: bool): (r: Outcome)
    ensures r.Next? ==> |r.rest| < |s|
  {
    var b := Peek(s, 0);
    if b == '{' then Next(Ctl(c.stack + [Obj], false, false, false, false), [Open(Obj)], s[1..])
    else if b == '[' then Next(Ctl(c.stack + [Arr], true, false, false, false), [Open(Arr)], s[1..])
    else if b == '"' then
      match StringToken(s[1..], first)
      case None => Fail
      case Some((n, bytes, rest)) => Next(AfterValue(c.stack), [Text(n, bytes)], rest)
    else if StartsWith(s, "true") then Next(AfterValue(c.stack), [Bool(true)], s[4..])
    else if StartsWith(s, "false") then Next(AfterValue(c.stack), [Bool(false)], s[5..])
    else if StartsWith(s, "null") then Next(AfterValue(c.stack), [Null], s[4..])
    else if StartsNumber(s) then
      match NumberToken(s, first)
      case None => Fail
      case Some((v, rest)) => Next(AfterValue(c.stack), [Number(v)], rest)
    else Fail
  }

  /** The iterations of the main loop up to the next token or separator. */
  function Iterate(c: Ctl, s: string, first: bool): (r: Outcome)
    ensures r.Next? ==> |r.rest| < |s|
  {
    var b := Peek(s, 0);
    if c.done then
      if b == '\0' then Halt else if IsSpace(b) then Next(c, [], s[1..]) else Fail
    else if IsSpace(b) then Next(c, [], s[1..])
    else if c.seek then
      if b == ']' then
        if TopIs(c.stack, Arr) then Next(AfterValue(c.stack[..|c.stack| - 1]), [Close], s[1..]) else Fail
      else if c.needComma then
        if b == ',' then Next(c.(needComma := false), [], s[1..]) else Fail
      else if c.needColon then
        if b == ':' then Next(c.(needColon := false), [], s[1..]) else Fail
      else IterateValue(c, s, first)
    else if b == '"' then
      if c.needComma then Fail
      else
        match StringToken(s[1..], first)
        case None => Fail
        case Some((n, bytes, rest)) => Next(c.(seek := true, needColon := true), [Key(n, bytes)], rest)
    else if b == '}' then
      if c.stack != [] then Next(AfterValue(c.stack[..|c.stack| - 1]), [Close], s[1..]) else Fail
    else if b == ',' && c.needComma then Next(c.(needComma := false), [], s[1..])
    else Fail
  }

  /** A pass from the given flags on: what it meets until it ends, or nothing when it fails. */
  function Run(c: Ctl, s: string, first: bool): Option<seq<Event>>
    decreases |s|
  {
    match Iterate(c, s, first)
    case Fail => None
    case Halt => Some([])
    case Next(c', events, rest) =>
      match Run(c', rest, first)
      case None => None
      case Some(more) => Some(events + more)
  }

  lemma IterateValid(c: Ctl, s: string, first: bool)
    requires ValidCtl(c) && Iterate(c, s, first).Next?
    ensures ValidCtl(Iterate(c, s, first).c)
  {
  }

  // ---------------------------------------------------------------- the passes agree

  /** The same value or key, seen by the first and the second pass. */
  predicate SameEvent(e1: Event, e2: Event) {
    match e1
    case Text(n, _) => e2.Text? && e2.size == n && |e2.bytes| == n
    case Key(n, _) => e2.Key? && e2.size == n && |e2.bytes| == n
    case Number(_) => e2.Number?
    case _ => e2 == e1
  }

  predicate SameEvents(es1: seq<Event>, es2: seq<Event>) {
    |es1| == |es2| && forall i :: 0 <= i < |es1| ==> SameEvent(es1[i], es2[i])
  }

  lemma SameAppended(a1: seq<Event>, b1: seq<Event>, a2: seq<Event>, b2: seq<Event>)
    requires SameEvents(a1, a2) && SameEvents(b1, b2)
    ensures SameEvents(a1 + b1, a2 + b2)
  {
  }

  /** Behind a value no character of a number can be accepted. */
  lemma NoNumberBehindValue(stack: seq<Kind>, s: string, first: bool)
    requires Iterate(AfterValue(stack), s, first) != Fail
    ensures !IsNumeric(Peek(s, 0))
  {
  }

  /** One iteration of the two passes, if the first one does not fail right behind it. */
  lemma IterationsAgree(c: Ctl, s: string)
    requires var r := Iterate(c, s, true); r.Next? && Iterate(r.c, r.rest, true) != Fail
    ensures var r1, r2 := Iterate(c, s, true), Iterate(c, s, false);
            r2.Next? && r2.c == r1.c && r2.rest == r1.rest && SameEvents(r1.events, r2.events)
  {
    var b := Peek(s, 0);
    if !c.done && !IsSpace(b) {
      if b == '"' {
        StringPassesAgree(s[1..]);
      } else if c.seek && b != ']' && !c.needComma && !c.needColon && StartsNumber(s) {
        ValuesAgree(c, s);
      }
    }
  }

  lemma NumberIterates(c: Ctl, s: string, first: bool)
    requires StartsNumber(s)
    ensures IterateValue(c, s, first) ==
            match NumberToken(s, first)
            case None => Fail
            case Some((v, rest)) => Next(AfterValue(c.stack), [Number(v)], rest)
  {
    var b := Peek(s, 0);
    assert s[0] == b;
    assert |s| >= 4 ==> s[..4][0] == b;
    assert |s| >= 5 ==> s[..5][0] == b;
  }

  lemma ValuesAgree(c: Ctl, s: string)
    requires StartsNumber(s)
    requires var r := IterateValue(c, s, true); r.Next? && Iterate(r.c, r.rest, true) != Fail
    ensures var r1, r2 := IterateValue(c, s, true), IterateValue(c, s, false);
            r2.Next? && r2.c == r1.c && r2.rest == r1.rest && SameEvents(r1.events, r2.events)
  {
    NumberIterates(c, s, true);
    NumberIterates(c, s, false);
    NoNumberBehindValue(c.stack, ScanNumber(s).value.1, true);
    NumberPassesAgree(s);
  }

  /**
    On every text that the first pass accepts, the second pass meets the same values and keys in
    the same order, with exactly the sizes that were counted, and it accepts the text as well.
   */
  lemma {:induction false} PassesAgree(c: Ctl, s: string)
    requires Run(c, s, true).Some?
    ensures Run(c, s, false).Some? && SameEvents(Run(c, s, true).value, Run(c, s, false).value)
    decreases |s|
  {
    var r := Iterate(c, s, true);
    if r.Next? {
      IterationsAgree(c, s);
      PassesAgree(r.c, r.rest);
      var r2 := Iterate(c, s, false);
      SameAppended(r.events, Run(r.c, r.rest, true).value, r2.events, Run(r.c, r.rest, false).value);
    }
  }

  // ---------------------------------------------------------------- the shape of what is met

  /** A value may come here: at the start, in an array, or behind a key. */
  predicate MayHaveValue(stack: seq<Kind>, pending: bool) {
    stack == [] || TopIs(stack, Arr) || pending
  }

  /** From this point on the events are one value with balanced containers, and a key before each member. */
  predicate Proper(es: seq<Event>, stack: seq<Kind>, pending: bool, done: bool)
    decreases |es|
  {
    if es == [] then done && stack == []
    else if done then false
    else
      match es[0]
      case Key(_, _) => TopIs(stack, Obj) && !pending && Proper(es[1..], stack, true, false)
      case Open(k) => MayHaveValue(stack, pending) && Proper(es[1..], stack + [k], false, false)
      case Close =>
        && stack != [] && !pending
        && Proper(es[1..], stack[..|stack| - 1], false, |stack| == 1)
      case _ => MayHaveValue(stack, pending) && Proper(es[1..], stack, false, stack == [])
  }

  /** A key has been read and its value has not. */
  predicate Pending(c: Ctl) {
    c.seek && TopIs(c.stack, Obj)
  }

  lemma {:induction false} RunIsProper(c: Ctl, s: string, first: bool)
    requires ValidCtl(c) && Run(c, s, first).Some?
    ensures Proper(Run(c, s, first).value, c.stack, Pending(c), c.done)
    decreases |s|
  {
    var r := Iterate(c, s, first);
    if r.Next? {
      IterateValid(c, s, first);
      RunIsProper(r.c, r.rest, first);
      var more := Run(r.c, r.rest, first).value;
      if r.events == [] {
        assert r.events + more == more;
      } else {
        OneEvent(c, s, first);
        assert (r.events + more)[0] == r.events[0] && (r.events + more)[1..] == more;
      }
    }
  }

  lemma OneEvent(c: Ctl, s: string, first: bool)
    requires ValidCtl(c) && Iterate(c, s, first).Next?
    ensures var r := Iterate(c, s, first);
            && |r.events| <= 1
            && (r.events == [] ==> r.c.stack == c.stack && Pending(r.c) == Pending(c) && r.c.done == c.done)
            && (r.events != [] ==> !c.done && Follows(c, r.events[0], r.c))
  {
  }

  /** What an event asks of the flags and does to them. */
  predicate Follows(c: Ctl, e: Event, c': Ctl) {
    match e
    case Key(_, _) => TopIs(c.stack, Obj) && !Pending(c) && c'.stack == c.stack && Pending(c') && !c'.done
    case Open(k) => MayHaveValue(c.stack, Pending(c)) && c'.stack == c.stack + [k] && !Pending(c') && !c'.done
    case Close => c.stack != [] && !Pending(c) && c' == AfterValue(c.stack[..|c.stack| - 1])
    case _ => MayHaveValue(c.stack, Pending(c)) && c' == AfterValue(c.stack)
  }

  /** The text behind a byte order mark. */
  function SkipBom(text: string): string {
    if |text| >= 3 && text[..3] == [0xEF as char, 0xBB as char, 0xBF as char] then text[3..] else text
  }
}
