/**
  The texts that `json_parse_ex` accepts, by recursive descent: a reference for the loop with its
  flags. White space may stand between any two tokens, and a comma behind the last element.
 */
module JsonGrammar {
  import opened Wrappers
  import opened JsonScan
  import opened JsonParse

  /** Space, tab, line feed and carriage return (RFC 8259, section 2). */
  predicate IsWhite(c: char) {
    c as int == 0x20 || c as int == 0x09 || c as int == 0x0A || c as int == 0x0D
  }

  function SkipWhite(s: string): (r: string)
    ensures |r| <= |s|
  {
    if s != "" && IsWhite(s[0]) then SkipWhite(s[1..]) else s
  }

  /** The text starts with c. */
  predicate At(s: string, c: char) {
    s != "" && s[0] == c
  }

  type Met = Option<(seq<Event>, string)>

  /** What is met with these events before it. */
  function Prefixed(es: seq<Event>, met: Met): (r: Met)
    ensures r.Some? <==> met.Some?
    ensures r.Some? ==> r.value == (es + met.value.0, met.value.1)
  {
    match met
    case None => None
    case Some((more, rest)) => Some((es + more, rest))
  }

  /** A value at the start of the text: what is met in it, and the text behind it. */
  function Value(s: string, first: bool): (r: Met)
    ensures r.Some? ==> |r.value.1| < |s|
    decreases |s|, 1
  {
    if At(s, '{') then Prefixed([Open(Obj)], Members(SkipWhite(s[1..]), first))
    else if At(s, '[') then Prefixed([Open(Arr)], Elements(SkipWhite(s[1..]), first))
    else if At(s, '"') then
      match StringToken(s[1..], first)
      case None => None
      case Some((n, bytes, rest)) => Some(([Text(n, bytes)], rest))
    else if |s| >= 4 && s[..4] == "true" then Some(([Bool(true)], s[4..]))
    else if |s| >= 5 && s[..5] == "false" then Some(([Bool(false)], s[5..]))
    else if |s| >= 4 && s[..4] == "null" then Some(([Null], s[4..]))
    else if StartsNumber(s) then
      match NumberToken(s, first)
      case None => None
      case Some((v, rest)) => Some(([Number(v)], rest))
    else None
  }

  /** The elements of an array, up to its end. */
  function Elements(s: string, first: bool): (r: Met)
    ensures r.Some? ==> |r.value.1| < |s|
    decreases |s|, 2
  {
    if At(s, ']') then Some(([Close], s[1..]))
    else
      match Value(s, first)
      case None => None
      case Some((es, rest)) =>
        var t := SkipWhite(rest);
        if At(t, ']') then Some((es + [Close], t[1..]))
        else if At(t, ',') then Prefixed(es, Elements(SkipWhite(t[1..]), first))
        else None
  }

  /** The members of an object, up to its end. */
  function Members(s: string, first: bool): (r: Met)
    ensures r.Some? ==> |r.value.1| < |s|
    decreases |s|, 2
  {
    if At(s, '}') then Some(([Close], s[1..]))
    else if !At(s, '"') then None
    else
      match StringToken(s[1..], first)
      case None => None
      case Some((n, bytes, rest)) =>
        var t := SkipWhite(rest);
        if At(t, ':') then Prefixed([Key(n, bytes)], Member(SkipWhite(t[1..]), first)) else None
  }

  /** A member behind its colon, and the members behind it. */
  function Member(s: string, first: bool): (r: Met)
    ensures r.Some? ==> |r.value.1| < |s|
    decreases |s|, 3
  {
    match Value(s, first)
    case None => None
    case Some((es, rest)) =>
      var t := SkipWhite(rest);
      if At(t, '}') then Some((es + [Close], t[1..]))
      else if At(t, ',') then Prefixed(es, Members(SkipWhite(t[1..]), first))
      else None
  }

  /** One value; behind it nothing but white space, up to the end of the text or a NUL. */
  function Document(s: string, first: bool): Option<seq<Event>> {
    match Value(SkipWhite(s), first)
    case None => None
    case Some((es, rest)) => if Peek(SkipWhite(rest), 0) == '\0' then Some(es) else None
  }

  // ---------------------------------------------------------------- the loop follows the grammar

  /** What is met from now on, behind what has been met. */
  function Behind(es: seq<Event>, more: Option<seq<Event>>): Option<seq<Event>> {
    match more
    case None => None
    case Some(ms) => Some(es + ms)
  }

  lemma BehindTwice(a: seq<Event>, b: seq<Event>, more: Option<seq<Event>>)
    ensures Behind(a, Behind(b, more)) == Behind(a + b, more)
    ensures Behind([], more) == more
  {
    if more.Some? {
      Associative(a, b, more.value);
      assert [] + more.value == more.value;
    }
  }

  /** White space between two tokens is skipped, whatever the flags. */
  lemma {:induction false} WhiteIsSkipped(c: Ctl, s: string, first: bool)
    ensures Run(c, s, first) == Run(c, SkipWhite(s), first)
    decreases |s|
  {
    if s != "" && IsWhite(s[0]) {
      WhiteIsSkipped(c, s[1..], first);
      BehindTwice([], [], Run(c, s[1..], first));
    }
  }

  lemma StepThen(c: Ctl, s: string, first: bool)
    ensures var r := Iterate(c, s, first);
            && (r.Next? ==> Run(c, s, first) == Behind(r.events, Run(r.c, r.rest, first)))
            && (r.Fail? ==> Run(c, s, first) == None)
  {
  }

  /** The flags where a value may begin; in an array its end may come instead. */
  function Seeking(stack: seq<Kind>): Ctl {
    Ctl(stack, true, false, false, false)
  }

  /** The flags where a member may begin. */
  function InObject(stack: seq<Kind>): Ctl {
    Ctl(stack + [Obj], false, false, false, false)
  }

  /** What a pass meets when `met` is what it meets next, and a value ends behind that. */
  function Continues(stack: seq<Kind>, met: Met, first: bool): Option<seq<Event>> {
    match met
    case None => None
    case Some((es, rest)) => Behind(es, Run(AfterValue(stack), rest, first))
  }

  lemma PrefixedContinues(stack: seq<Kind>, es: seq<Event>, met: Met, first: bool)
    ensures Continues(stack, Prefixed(es, met), first) == Behind(es, Continues(stack, met, first))
  {
    if met.Some? {
      BehindTwice(es, met.value.0, Run(AfterValue(stack), met.value.1, first));
    }
  }

  /** The text begins with a token, or is at its end. */
  predicate AtToken(s: string) {
    s == "" || !IsSpace(s[0])
  }

  lemma {:induction false} SkipsAll(s: string)
    ensures AtToken(SkipWhite(s))
  {
    if s != "" && IsWhite(s[0]) {
      SkipsAll(s[1..]);
    }
  }

  lemma {:induction false} RunOverValue(stack: seq<Kind>, s: string, first: bool)
    requires AtToken(s) && !(At(s, ']') && TopIs(stack, Arr))
    ensures Run(Seeking(stack), s, first) == Continues(stack, Value(s, first), first)
    decreases |s|, 1
  {
    StepThen(Seeking(stack), s, first);
    if At(s, '{') {
      SkipsAll(s[1..]);
      WhiteIsSkipped(InObject(stack), s[1..], first);
      RunOverMembers(stack, SkipWhite(s[1..]), first);
      PrefixedContinues(stack, [Open(Obj)], Members(SkipWhite(s[1..]), first), first);
    } else if At(s, '[') {
      SkipsAll(s[1..]);
      WhiteIsSkipped(Seeking(stack + [Arr]), s[1..], first);
      RunOverElements(stack, SkipWhite(s[1..]), first);
      PrefixedContinues(stack, [Open(Arr)], Elements(SkipWhite(s[1..]), first), first);
    } else {
      ScalarIsMet(Seeking(stack), s, first);
    }
  }

  lemma ScalarIsMet(c: Ctl, s: string, first: bool)
    requires AtToken(s) && !At(s, '{') && !At(s, '[')
    requires c == Seeking(c.stack) && !(At(s, ']') && TopIs(c.stack, Arr))
    ensures Value(s, first).None? <==> Iterate(c, s, first).Fail?
    ensures Value(s, first).Some? ==>
              Iterate(c, s, first) == Next(AfterValue(c.stack), Value(s, first).value.0, Value(s, first).value.1)
  {
  }

  lemma {:induction false} RunOverElements(stack: seq<Kind>, s: string, first: bool)
    requires AtToken(s)
    ensures Run(Seeking(stack + [Arr]), s, first) == Continues(stack, Elements(s, first), first)
    decreases |s|, 2
  {
    if At(s, ']') {
      ArrayEnds(stack, s, first);
    } else {
      RunOverValue(stack + [Arr], s, first);
      if Value(s, first).Some? {
        var (es, rest) := Value(s, first).value;
        var t := SkipWhite(rest);
        WhiteIsSkipped(AfterValue(stack + [Arr]), rest, first);
        SkipsAll(rest);
        BehindElement(stack, t, first);
        if At(t, ',') {
          SkipsAll(t[1..]);
          RunOverElements(stack, SkipWhite(t[1..]), first);
          PrefixedContinues(stack, es, Elements(SkipWhite(t[1..]), first), first);
        } else if At(t, ']') {
          BehindTwice(es, [Close], Run(AfterValue(stack), t[1..], first));
        }
      }
    }
  }

  lemma ArrayEnds(stack: seq<Kind>, s: string, first: bool)
    requires At(s, ']')
    ensures Run(Seeking(stack + [Arr]), s, first) == Behind([Close], Run(AfterValue(stack), s[1..], first))
  {
    var inner := stack + [Arr];
    assert inner[..|inner| - 1] == stack;
    StepThen(Seeking(inner), s, first);
  }

  /** Behind an element comes the end of the array, or a comma. */
  lemma BehindElement(stack: seq<Kind>, t: string, first: bool)
    requires AtToken(t)
    ensures Run(AfterValue(stack + [Arr]), t, first) ==
            if At(t, ']') then Behind([Close], Run(AfterValue(stack), t[1..], first))
            else if At(t, ',') then Run(Seeking(stack + [Arr]), SkipWhite(t[1..]), first)
            else None
  {
    var inner := stack + [Arr];
    assert inner[..|inner| - 1] == stack;
    StepThen(AfterValue(inner), t, first);
    if At(t, ',') {
      WhiteIsSkipped(Seeking(inner), t[1..], first);
      BehindTwice([], [], Run(Seeking(inner), t[1..], first));
    }
  }

  lemma {:induction false} RunOverMembers(stack: seq<Kind>, s: string, first: bool)
    requires AtToken(s)
    ensures Run(InObject(stack), s, first) == Continues(stack, Members(s, first), first)
    decreases |s|, 2
  {
    StepThen(InObject(stack), s, first);
    if At(s, '}') {
      var inner := stack + [Obj];
      assert inner[..|inner| - 1] == stack;
    } else if At(s, '"') && StringToken(s[1..], first).Some? {
      var (n, bytes, rest) := StringToken(s[1..], first).value;
      var t := SkipWhite(rest);
      BehindKey(stack, rest, first);
      if At(t, ':') {
        SkipsAll(t[1..]);
        RunOverMember(stack, SkipWhite(t[1..]), first);
        PrefixedContinues(stack, [Key(n, bytes)], Member(SkipWhite(t[1..]), first), first);
      }
    }
  }

  lemma {:induction false} RunOverMember(stack: seq<Kind>, s: string, first: bool)
    requires AtToken(s)
    ensures Run(Seeking(stack + [Obj]), s, first) == Continues(stack, Member(s, first), first)
    decreases |s|, 3
  {
    RunOverValue(stack + [Obj], s, first);
    if Value(s, first).Some? {
      var (es, rest) := Value(s, first).value;
      var t := SkipWhite(rest);
      WhiteIsSkipped(AfterValue(stack + [Obj]), rest, first);
      SkipsAll(rest);
      BehindMember(stack, t, first);
      if At(t, ',') {
        SkipsAll(t[1..]);
        RunOverMembers(stack, SkipWhite(t[1..]), first);
        PrefixedContinues(stack, es, Members(SkipWhite(t[1..]), first), first);
      } else if At(t, '}') {
        BehindTwice(es, [Close], Run(AfterValue(stack), t[1..], first));
      }
    }
  }

  /** Behind a key comes a colon. */
  lemma BehindKey(stack: seq<Kind>, rest: string, first: bool)
    ensures Run(Ctl(stack + [Obj], true, false, true, false), rest, first) ==
            var t := SkipWhite(rest); if At(t, ':') then Run(Seeking(stack + [Obj]), SkipWhite(t[1..]), first) else None
  {
    var c := Ctl(stack + [Obj], true, false, true, false);
    var t := SkipWhite(rest);
    WhiteIsSkipped(c, rest, first);
    SkipsAll(rest);
    StepThen(c, t, first);
    if At(t, ':') {
      WhiteIsSkipped(Seeking(stack + [Obj]), t[1..], first);
      BehindTwice([], [], Run(Seeking(stack + [Obj]), t[1..], first));
    }
  }

  /** Behind a member comes the end of the object, or a comma. */
  lemma BehindMember(stack: seq<Kind>, t: string, first: bool)
    requires AtToken(t)
    ensures Run(AfterValue(stack + [Obj]), t, first) ==
            if At(t, '}') then Behind([Close], Run(AfterValue(stack), t[1..], first))
            else if At(t, ',') then Run(InObject(stack), SkipWhite(t[1..]), first)
            else None
  {
    var inner := stack + [Obj];
    assert inner[..|inner| - 1] == stack;
    StepThen(AfterValue(inner), t, first);
    if At(t, ',') {
      WhiteIsSkipped(InObject(stack), t[1..], first);
      BehindTwice([], [], Run(InObject(stack), t[1..], first));
    }
  }

  /**
    Each pass accepts exactly the texts of the grammar, and meets in them exactly the values and
    keys that the grammar finds, in order.
   */
  lemma PassIsDescent(s: string, first: bool)
    ensures Run(START, s, first) == Document(s, first)
  {
    var t := SkipWhite(s);
    WhiteIsSkipped(START, s, first);
    SkipsAll(s);
    RunOverValue([], t, first);
    if Value(t, first).Some? {
      var (es, rest) := Value(t, first).value;
      WhiteIsSkipped(AfterValue([]), rest, first);
      SkipsAll(rest);
      StepThen(AfterValue([]), SkipWhite(rest), first);
      assert es + [] == es;
    }
  }

  /** A byte order mark in front of the text (RFC 3629, section 6) is skipped, and nothing else is. */
  lemma BomIsSkipped(text: string)
    ensures if |text| >= 3 && text[0] as int == 0xEF && text[1] as int == 0xBB && text[2] as int == 0xBF
            then SkipBom(text) == text[3..] else SkipBom(text) == text
  {
    if |text| >= 3 {
      assert text[..3] == [text[0], text[1], text[2]];
    }
  }
}
