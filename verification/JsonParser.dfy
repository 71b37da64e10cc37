/**
  `json_parse_ex` as the loop over the text that it is: a pointer, flags, the chain of open
  containers, and the nodes. Each method is proved to do what the functions of `JsonScan`,
  `JsonParse` and `JsonBuild` say.
 */
module JsonParser {
  import opened Wrappers
  import opened JsonScan
  import opened JsonParse
  import opened JsonBuild

  lemma Shifted(text: string, p: nat, k: nat)
    requires p <= |text|
    ensures Peek(text[p..], k) == Peek(text, p + k)
    ensures p + k <= |text| ==> text[p..][k..] == text[p + k..]
  {
  }

  lemma ShiftedHex(text: string, p: nat, k: nat)
    requires p <= |text|
    ensures Hex4(text[p..], k) == Hex4(text, p + k)
  {
    Shifted(text, p, k);
    Shifted(text, p, k + 1);
    Shifted(text, p, k + 2);
    Shifted(text, p, k + 3);
  }

  /** A string token of which a front part has been scanned. */
  function Behind(size: nat, bytes: string, r: Option<(nat, string, string)>): Option<(nat, string, string)> {
    match r
    case None => None
    case Some((n, more, rest)) => Some((size + n, bytes + more, rest))
  }

  lemma BehindTwice(n1: nat, b1: string, n2: nat, b2: string, r: Option<(nat, string, string)>)
    ensures Behind(n1, b1, Behind(n2, b2, r)) == Behind(n1 + n2, b1 + b2, r)
  {
    if r.Some? {
      Associative(b1, b2, r.value.1);
    }
  }

  lemma BehindNothing(r: Option<(nat, string, string)>)
    ensures Behind(0, "", r) == r
  {
    assert r.Some? ==> "" + r.value.1 == r.value.1;
  }

  /** The end of a string token, or of the text. */
  lemma {:induction false} StringEnds(s: string, first: bool)
    ensures Peek(s, 0) == '\0' ==> StringToken(s, first) == None
    ensures Peek(s, 0) == '"' ==> StringToken(s, first) == Some((0, "", s[1..]))
  {
  }

  lemma {:induction false} ClosingQuote(text: string, ptr: nat, first: bool, size: nat, bytes: string, all: Option<(nat, string, string)>)
    requires ptr <= |text| && Peek(text, ptr) == '"' && all == Behind(size, bytes, StringToken(text[ptr..], first))
    ensures ptr < |text| && all == Some((size, bytes, text[ptr + 1..]))
  {
    StringEnds(text[ptr..], first);
    Shifted(text, ptr, 0);
    Shifted(text, ptr, 1);
    assert bytes + "" == bytes;
  }

  /** One plain character of a string token. */
  lemma {:induction false} PlainStep(s: string, first: bool)
    requires var b := Peek(s, 0); b != '\0' && b != '\\' && b != '"'
    ensures StringToken(s, first) == Behind(1, if first then "" else [s[0]], StringToken(s[1..], first))
  {
  }

  /** One escaped character other than a code point. */
  lemma {:induction false} EscapeStep(s: string, first: bool)
    requires Peek(s, 0) == '\\' && Peek(s, 1) != '\0' && Peek(s, 1) != 'u'
    ensures StringToken(s, first) == Behind(1, if first then "" else [Unescape(s[1])], StringToken(s[2..], first))
  {
    var e := s[1..];
    assert e[0] == s[1] && e[1..] == s[2..] && Peek(e, 0) == s[1];
    assert CountString(s).Some? <==> CountString(s[2..]).Some?;
    assert FillString(s).Some? <==> FillString(s[2..]).Some?;
    assert FillString(s).Some? ==> FillString(s).value.0 == [Unescape(s[1])] + FillString(s[2..]).value.0;
    assert "" + "" == "";
  }

  /** One code point. */
  lemma {:induction false} CodePointStep(s: string, first: bool)
    requires Peek(s, 0) == '\\' && Peek(s, 1) == 'u'
    ensures match CodePoint(s[1..])
            case None => StringToken(s, first) == None
            case Some((u, t)) =>
              StringToken(s, first) == Behind(Utf8Length(u), if first then "" else Utf8(u), StringToken(t, first))
  {
    assert s[1..][0] == s[1];
    assert "" + "" == "";
    match CodePoint(s[1..])
    case None =>
    case Some((u, t)) =>
      CodePointPassesAgree(u);
      assert CountString(s).Some? <==> CountString(t).Some?;
      assert FillString(s).Some? <==> FillString(t).Some?;
  }

  lemma {:induction false} OneDigit(text: string, ptr: nat, n: NumState, n': NumState)
    requires ptr <= |text| && NumStep(n, Peek(text, ptr)) == MoreNumber(n')
    ensures ptr < |text| && ScanFrom(text[ptr..], n) == ScanFrom(text[ptr + 1..], n')
  {
    Shifted(text, ptr, 0);
    Shifted(text, ptr, 1);
  }

  class Parser {
    const text: string
    var ptr: nat
    var stack: seq<Kind>
    var seek: bool
    var needComma: bool
    var needColon: bool
    var done: bool
    /** The nodes of the first pass. */
    var counts: Counts
    /** The tree of the second pass. */
    var fill: Fill

    /** A byte order mark is skipped. */
    constructor (t: string)
      ensures text == SkipBom(t)
    {
      text := SkipBom(t);
      ptr := 0;
      stack, seek, needComma, needColon, done := [], true, false, false, false;
      counts, fill := NO_COUNTS, NO_FILL;
    }

    function View(): Ctl
      reads this
    {
      Ctl(stack, seek, needComma, needColon, done)
    }

    /** The text from the pointer on. */
    function Rest(): string
      reads this
    {
      if ptr <= |text| then text[ptr..] else ""
    }

    function Char(k: nat): char
      reads this
    {
      Peek(text, ptr + k)
    }

    // -------------------------------------------------------------- strings

    /** The second escape of a surrogate pair, with the pointer at the last digit of the first. */
    method ReadSurrogate(hi: nat) returns (u: Option<nat>)
      requires ptr < |text| && hi < 0x1_0000
      modifies this`ptr
      ensures old(ptr) <= ptr < |text|
      ensures var t := old(Rest()); var u2 := Hex4(t, 3);
              if |t| < 6 || Peek(t, 1) != '\\' || Peek(t, 2) != 'u' || u2.None? then u == None
              else u == Some(SetBit16(hi % 0x400 * 0x400 + u2.value % 0x400)) && |t| >= 7 && text[ptr + 1..] == t[7..]
    {
      Shifted(text, ptr, 1);
      Shifted(text, ptr, 2);
      ShiftedHex(text, ptr, 3);
      if |text| - ptr < 6 || Char(1) != '\\' || Char(2) != 'u' {
        return None;
      }
      var u2 := Hex4(text, ptr + 3);
      if u2.None? {
        return None;
      }
      Shifted(text, ptr, 7);
      u := Some(SetBit16(hi % 0x400 * 0x400 + u2.value % 0x400));
      ptr := ptr + 6;
    }

    /** The `\u` case, with the pointer at the `u`; it is left behind the last digit. */
    method ReadCodePoint() returns (u: Option<nat>)
      requires ptr < |text|
      modifies this`ptr
      ensures ptr <= |text| && ptr >= old(ptr)
      ensures match old(CodePoint(Rest()))
              case None => u == None
              case Some((v, t)) => u == Some(v) && Rest() == t
    {
      ShiftedHex(text, ptr, 1);
      if |text| - ptr < 4 {
        return None;
      }
      u := Hex4(text, ptr + 1);
      if u.None? {
        return;
      }
      Shifted(text, ptr, 4);
      Shifted(text, ptr, 5);
      ptr := ptr + 4;
      if u.value / 0x800 == 0x1B {
        u := ReadSurrogate(u.value);
        if u.None? {
          return;
        }
      }
      ptr := ptr + 1;
    }

    /** One round under `flag_escaped`, with the pointer at the backslash: the bytes it stands for. */
    method ReadEscape(first: bool) returns (more: Option<string>)
      requires ptr < |text| && Char(0) == '\\'
      modifies this`ptr
      ensures old(ptr) <= ptr <= |text|
      ensures match more
              case None => old(StringToken(Rest(), first)) == None
              case Some(bytes) =>
                && ptr > old(ptr)
                && old(StringToken(Rest(), first)) == Behind(|bytes|, if first then "" else bytes, StringToken(Rest(), first))
    {
      ghost var s := Rest();
      Shifted(text, ptr, 0);
      Shifted(text, ptr, 1);
      Shifted(text, ptr, 2);
      var e := Char(1);
      if e == '\0' {
        return None;
      }
      if e != 'u' {
        EscapeStep(s, first);
        ptr := ptr + 2;
        return Some([Unescape(e)]);
      }
      CodePointStep(s, first);
      ptr := ptr + 1;
      var u := ReadCodePoint();
      if u.None? {
        return None;
      }
      CodePointPassesAgree(u.value);
      return Some(Utf8(u.value));
    }

    /** One character of a string, escaped or not. */
    method ReadChar(first: bool) returns (more: Option<string>)
      requires ptr < |text| && Char(0) != '\0' && Char(0) != '"'
      modifies this`ptr
      ensures old(ptr) <= ptr <= |text|
      ensures match more
              case None => old(StringToken(Rest(), first)) == None
              case Some(bytes) =>
                && ptr > old(ptr)
                && old(StringToken(Rest(), first)) == Behind(|bytes|, if first then "" else bytes, StringToken(Rest(), first))
    {
      if Char(0) == '\\' {
        more := ReadEscape(first);
      } else {
        Shifted(text, ptr, 0);
        Shifted(text, ptr, 1);
        PlainStep(Rest(), first);
        more := Some([Char(0)]);
        ptr := ptr + 1;
      }
    }

    /** One round of the loop below: a character is added to what is known of the string. */
    method ReadOne(first: bool, size: nat, bytes: string, ghost all: Option<(nat, string, string)>)
      returns (ok: bool, size': nat, bytes': string)
      requires ptr <= |text| && Char(0) != '"' && all == Behind(size, bytes, StringToken(Rest(), first))
      modifies this`ptr
      ensures old(ptr) <= ptr <= |text|
      ensures !ok ==> all == None
      ensures ok ==> ptr > old(ptr) && all == Behind(size', bytes', StringToken(Rest(), first))
    {
      StringEnds(Rest(), first);
      Shifted(text, ptr, 0);
      if Char(0) == '\0' {
        return false, size, bytes;
      }
      var more := ReadChar(first);
      if more.None? {
        return false, size, bytes;
      }
      var known := if first then "" else more.value;
      BehindTwice(size, bytes, |more.value|, known, StringToken(Rest(), first));
      return true, size + |more.value|, bytes + known;
    }

    /** The iterations under `flag_string`, with the pointer behind the opening quote. */
    method ReadString(first: bool) returns (r: Option<(nat, string)>)
      requires ptr <= |text|
      modifies this`ptr
      ensures ptr <= |text|
      ensures match old(StringToken(Rest(), first))
              case None => r == None
              case Some((n, bytes, rest)) => r == Some((n, bytes)) && Rest() == rest
    {
      var size: nat := 0;
      var bytes := "";
      ghost var all := StringToken(Rest(), first);
      BehindNothing(all);
      while Char(0) != '"'
        invariant ptr <= |text|
        invariant all == Behind(size, bytes, StringToken(Rest(), first))
        decreases |text| - ptr
      {
        var ok;
        ok, size, bytes := ReadOne(first, size, bytes, all);
        if !ok {
          return None;
        }
      }
      ClosingQuote(text, ptr, first, size, bytes, all);
      ptr := ptr + 1;
      return Some((size, bytes));
    }

    // -------------------------------------------------------------- numbers

    /** One iteration of the first pass inside a number. */
    method NumberStep(n: NumState) returns (r: NumOutcome)
      ensures r == NumStep(n, Char(0))
    {
      var b := Char(0);
      if IsDigit(b) {
        var n' := n.(digits := n.digits + 1);
        if n.e {
          n' := n'.(gotSign := true);
        } else if !n.isDouble {
          if n.zero {
            return BadNumber;
          }
          n' := n'.(zero := n.digits == 0 && b == '0', value := 10 * n.value + DigitValue(b));
        }
        return MoreNumber(n');
      }
      if b == '+' || b == '-' {
        if n.e && !n.gotSign {
          return MoreNumber(n.(gotSign := true));
        }
      } else if b == '.' && !n.isDouble {
        if n.digits == 0 {
          return BadNumber;
        }
        return MoreNumber(n.(isDouble := true, digits := 0));
      }
      if (n.e || n.isDouble) && n.digits == 0 {
        return BadNumber;
      }
      if !n.e && (b == 'e' || b == 'E') {
        return MoreNumber(n.(isDouble := true, e := true, digits := 0, zero := false));
      }
      return EndOfNumber;
    }

    /** The iterations of the first pass inside a number, with the pointer behind a minus sign. */
    method ScanDigits() returns (r: Option<(bool, nat)>)
      requires ptr <= |text|
      modifies this`ptr
      ensures ptr <= |text|
      ensures match old(ScanFrom(Rest(), NUM_START))
              case None => r == None
              case Some((isDouble, value, rest)) => r == Some((isDouble, value)) && Rest() == rest
    {
      var n := NUM_START;
      ghost var all := ScanFrom(Rest(), n);
      var step := NumberStep(n);
      while step.MoreNumber?
        invariant ptr <= |text|
        invariant step == NumStep(n, Char(0)) && ScanFrom(Rest(), n) == all
        decreases |text| - ptr
      {
        OneDigit(text, ptr, n, step.n);
        n := step.n;
        ptr := ptr + 1;
        step := NumberStep(n);
      }
      Shifted(text, ptr, 0);
      return if step.BadNumber? then None else Some((n.isDouble, n.value));
    }

    /** A number in either pass. */
    method ReadNumber(first: bool) returns (r: Option<Option<int>>)
      requires ptr < |text| && StartsNumber(Rest())
      modifies this`ptr
      ensures ptr <= |text|
      ensures match old(NumberToken(Rest(), first))
              case None => r == None
              case Some((v, rest)) => r == Some(v) && Rest() == rest
    {
      Shifted(text, ptr, 0);
      Shifted(text, ptr, 1);
      if first {
        var negative := Char(0) == '-';
        if negative {
          ptr := ptr + 1;
        }
        var scanned := ScanDigits();
        if scanned.None? {
          return None;
        }
        var (isDouble, value) := scanned.value;
        return Some(if isDouble then None else Some(if negative then 0 - value else value));
      }
      SkipDigits();
      return Some(None);
    }

    /** The loop of the second pass over a number. */
    method SkipDigits()
      requires ptr <= |text|
      modifies this`ptr
      ensures ptr <= |text| && Rest() == SkipNumber(old(Rest()))
    {
      ghost var all := SkipNumber(Rest());
      while ptr < |text| && IsNumeric(Char(0))
        invariant ptr <= |text| && SkipNumber(Rest()) == all
      {
        Shifted(text, ptr, 0);
        Shifted(text, ptr, 1);
        ptr := ptr + 1;
      }
      Shifted(text, ptr, 0);
    }

    // -------------------------------------------------------------- the main loop

    /** What a pass does with a value, a key or the end of a container. */
    method Act(first: bool, e: Event)
      requires first ==> ValidCounts(counts)
      modifies this`counts, this`fill
      ensures first ==> ValidCounts(counts) && counts == Count(old(counts), e) && fill == old(fill)
      ensures !first ==> counts == old(counts) && fill == Put(old(fill), e, NumberAt(counts.nodes, old(fill.next)))
    {
      if first {
        counts := Count(counts, e);
      } else {
        fill := Put(fill, e, NumberAt(counts.nodes, fill.next));
      }
    }

    /** `flag_next`. */
    method ValueDone()
      modifies this`seek, this`needComma, this`needColon, this`done
      ensures View() == AfterValue(stack)
    {
      seek, needColon := TopIs(stack, Arr), false;
      needComma := true;
      done := stack == [];
    }

    method Word(w: string) returns (ok: bool)
      requires ptr <= |text|
      modifies this`ptr
      ensures ptr <= |text| && ok == StartsWith(old(Rest()), w)
      ensures if ok then Rest() == old(Rest())[|w|..] else ptr == old(ptr)
    {
      ok := |text| - ptr >= |w| && text[ptr..ptr + |w|] == w;
      if |text| - ptr >= |w| {
        Shifted(text, ptr, |w|);
        assert Rest()[..|w|] == text[ptr..ptr + |w|];
      }
      if ok {
        ptr := ptr + |w|;
      }
    }

    /** The cases under `flag_seek_value` that begin a value. */
    method ReadValue(first: bool) returns (e: Option<Event>)
      requires ptr < |text| && Char(0) != '\0'
      modifies this`ptr, this`stack, this`seek, this`needComma, this`needColon, this`done
      ensures ptr <= |text|
      ensures match old(IterateValue(View(), Rest(), first))
              case Fail => e == None
              case Halt => false
              case Next(c, events, rest) => e.Some? && events == [e.value] && View() == c && Rest() == rest
    {
      Shifted(text, ptr, 0);
      Shifted(text, ptr, 1);
      var b := Char(0);
      ghost var s, c := Rest(), View();
      if b == '{' {
        stack, seek, needComma, needColon, done := stack + [Obj], false, false, false, false;
        ptr := ptr + 1;
        return Some(Open(Obj));
      }
      if b == '[' {
        stack, seek, needComma, needColon, done := stack + [Arr], true, false, false, false;
        ptr := ptr + 1;
        return Some(Open(Arr));
      }
      if b == '"' {
        ptr := ptr + 1;
        var token := ReadString(first);
        if token.None? {
          return None;
        }
        e := Some(Text(token.value.0, token.value.1));
        ValueDone();
        return;
      }
      e := ReadScalar(first);
      if e.Some? {
        ValueDone();
      }
    }

    /** The words and numbers. */
    method ReadScalar(first: bool) returns (e: Option<Event>)
      requires ptr < |text| && Char(0) !in {'{', '[', '"'}
      modifies this`ptr
      ensures ptr <= |text|
      ensures match old(IterateValue(View(), Rest(), first))
              case Fail => e == None
              case Halt => false
              case Next(c, events, rest) => e.Some? && events == [e.value] && c == AfterValue(stack) && Rest() == rest
    {
      Shifted(text, ptr, 0);
      ghost var s := Rest();
      var isTrue := Word("true");
      if isTrue {
        return Some(Bool(true));
      }
      var isFalse := Word("false");
      if isFalse {
        return Some(Bool(false));
      }
      var isNull := Word("null");
      if isNull {
        return Some(Null);
      }
      if !StartsNumber(Rest()) {
        return None;
      }
      var v := ReadNumber(first);
      if v.None? {
        return None;
      }
      return Some(Number(v.value));
    }

    /** One iteration: the event that was met, if any. `halted` tells that the text has been read. */
    method Step(first: bool) returns (ok: bool, halted: bool, e: Option<Event>)
      requires ptr <= |text|
      modifies this`ptr, this`stack, this`seek, this`needComma, this`needColon, this`done
      ensures ptr <= |text|
      ensures match old(Iterate(View(), Rest(), first))
              case Fail => !ok
              case Halt => ok && halted
              case Next(c, events, rest) =>
                ok && !halted && View() == c && Rest() == rest && events == (if e.Some? then [e.value] else [])
    {
      Shifted(text, ptr, 0);
      Shifted(text, ptr, 1);
      var b := Char(0);
      ok, halted, e := true, false, None;
      if b == '\0' {
        return done, true, None;
      }
      if done {
        ok := IsSpace(b);
        ptr := ptr + 1;
      } else if IsSpace(b) {
        ptr := ptr + 1;
      } else if seek {
        ok, e := StepSeeking(first);
      } else {
        ok, e := StepInObject(first);
      }
    }

    /** The cases under `flag_seek_value`. */
    method StepSeeking(first: bool) returns (ok: bool, e: Option<Event>)
      requires ptr < |text| && Char(0) != '\0' && !IsSpace(Char(0)) && !done && seek
      modifies this`ptr, this`stack, this`seek, this`needComma, this`needColon, this`done
      ensures ptr <= |text|
      ensures match old(Iterate(View(), Rest(), first))
              case Fail => !ok
              case Halt => false
              case Next(c, events, rest) =>
                ok && View() == c && Rest() == rest && events == (if e.Some? then [e.value] else [])
    {
      Shifted(text, ptr, 0);
      Shifted(text, ptr, 1);
      var b := Char(0);
      e := None;
      if b == ']' {
        if !TopIs(stack, Arr) {
          return false, None;
        }
        stack := stack[..|stack| - 1];
        ptr := ptr + 1;
        ValueDone();
        return true, Some(Close);
      }
      if needComma {
        if b != ',' {
          return false, None;
        }
        needComma := false;
        ptr := ptr + 1;
        return true, None;
      }
      if needColon {
        if b != ':' {
          return false, None;
        }
        needColon := false;
        ptr := ptr + 1;
        return true, None;
      }
      e := ReadValue(first);
      ok := e.Some?;
    }

    /** The cases inside an object, between its members. */
    method StepInObject(first: bool) returns (ok: bool, e: Option<Event>)
      requires ptr < |text| && Char(0) != '\0' && !IsSpace(Char(0)) && !done && !seek
      modifies this`ptr, this`stack, this`seek, this`needComma, this`needColon, this`done
      ensures ptr <= |text|
      ensures match old(Iterate(View(), Rest(), first))
              case Fail => !ok
              case Halt => false
              case Next(c, events, rest) =>
                ok && View() == c && Rest() == rest && events == (if e.Some? then [e.value] else [])
    {
      Shifted(text, ptr, 0);
      Shifted(text, ptr, 1);
      var b := Char(0);
      ok, e := true, None;
      if b == '"' {
        if needComma {
          return false, None;
        }
        ptr := ptr + 1;
        var token := ReadString(first);
        if token.None? {
          return false, None;
        }
        seek, needColon := true, true;
        e := Some(Key(token.value.0, token.value.1));
      } else if b == '}' {
        if stack == [] {
          return false, None;
        }
        stack := stack[..|stack| - 1];
        ptr := ptr + 1;
        ValueDone();
        e := Some(Close);
      } else if b == ',' && needComma {
        needComma := false;
        ptr := ptr + 1;
      } else {
        ok := false;
      }
    }

    /** One pass over the text. */
    method Pass(first: bool) returns (ok: bool)
      requires first ==> counts == NO_COUNTS
      requires !first ==> fill == NO_FILL
      modifies this
      ensures ok == Run(START, text, first).Some?
      ensures ok && first ==> counts == CountAll(NO_COUNTS, Run(START, text, true).value) && fill == old(fill)
      ensures !first ==> counts == old(counts)
      ensures ok && !first ==> fill == FillAll(counts.nodes, NO_FILL, Run(START, text, false).value)
    {
      ptr := 0;
      stack, seek, needComma, needColon, done := [], true, false, false, false;
      ghost var es: seq<Event> := [];
      ghost var all := Run(START, text, first);
      assert text[0..] == text;
      assert all.Some? ==> [] + all.value == all.value;
      while true
        invariant ptr <= |text|
        invariant first ==> counts == CountAll(NO_COUNTS, es) && fill == old(fill)
        invariant !first ==> counts == old(counts) && fill == FillAll(counts.nodes, NO_FILL, es)
        invariant MoreOf(all, es, Run(View(), Rest(), first))
        decreases |Rest()|
      {
        IterationOf(all, es, View(), Rest(), first);
        var going, halted, e := Step(first);
        if !going {
          return false;
        }
        if halted {
          assert es + [] == es;
          return true;
        }
        if e.Some? {
          CountOneMore(es, e.value);
          FillOneMore(counts.nodes, es, e.value);
          Act(first, e.value);
          es := es + [e.value];
        } else {
          assert es + [] == es;
        }
      }
    }

    /** `json_parse_ex`: the first pass, and if it accepts the text the second one over its nodes. */
    method Parse() returns (root: Option<Json>)
      requires counts == NO_COUNTS && fill == NO_FILL
      modifies this
      ensures root == TwoPasses(text)
    {
      var ok := Pass(true);
      if !ok {
        return None;
      }
      ok := Pass(false);
      if !ok {
        return None;
      }
      return fill.root;
    }
  }

  /** The events of a pass are those met so far and those to come. */
  predicate MoreOf(all: Option<seq<Event>>, es: seq<Event>, r: Option<seq<Event>>) {
    match r
    case None => all == None
    case Some(more) => all == Some(es + more)
  }

  lemma {:induction false} IterationOf(all: Option<seq<Event>>, es: seq<Event>, c: Ctl, s: string, first: bool)
    requires MoreOf(all, es, Run(c, s, first))
    ensures match Iterate(c, s, first)
            case Fail => all == None
            case Halt => all == Some(es)
            case Next(c', events, rest) => MoreOf(all, es + events, Run(c', rest, first))
  {
    match Iterate(c, s, first)
    case Fail =>
    case Halt => assert es + [] == es;
    case Next(c', events, rest) =>
      if Run(c', rest, first).Some? {
        Associative(es, events, Run(c', rest, first).value);
      }
  }

  lemma {:induction false} CountConcat(c: Counts, a: seq<Event>, e: Event)
    requires ValidCounts(c)
    ensures CountAll(c, a + [e]) == Count(CountAll(c, a), e)
    decreases |a|
  {
    if a == [] {
      assert a + [e] == [e] && [e][1..] == [];
    } else {
      assert (a + [e])[1..] == a[1..] + [e];
      CountConcat(Count(c, a[0]), a[1..], e);
    }
  }

  lemma {:induction false} CountOneMore(es: seq<Event>, e: Event)
    ensures CountAll(NO_COUNTS, es + [e]) == Count(CountAll(NO_COUNTS, es), e)
  {
    CountConcat(NO_COUNTS, es, e);
  }

  lemma {:induction false} FillMore(nodes: seq<Node>, f: Fill, a: seq<Event>, e: Event)
    ensures var g := FillAll(nodes, f, a); FillAll(nodes, f, a + [e]) == Put(g, e, NumberAt(nodes, g.next))
    decreases |a|
  {
    if a == [] {
      assert a + [e] == [e] && [e][1..] == [];
    } else {
      assert (a + [e])[1..] == a[1..] + [e];
      FillMore(nodes, Put(f, a[0], NumberAt(nodes, f.next)), a[1..], e);
    }
  }

  lemma {:induction false} FillOneMore(nodes: seq<Node>, es: seq<Event>, e: Event)
    ensures var g := FillAll(nodes, NO_FILL, es); FillAll(nodes, NO_FILL, es + [e]) == Put(g, e, NumberAt(nodes, g.next))
  {
    FillMore(nodes, NO_FILL, es, e);
  }
}
