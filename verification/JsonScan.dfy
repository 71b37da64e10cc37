/**
  The tokens of `json_parse_ex` (`srs_protocol_json.cpp`): strings and numbers, each with the two
  scanners of the two passes. The first pass counts the bytes of a string and runs a state machine
  over a number; the second pass stores the bytes and merely skips the number. A text is the
  characters that are left; behind its end there is a NUL.
 */
module JsonScan {
  import opened Wrappers

  function Peek(s: string, i: nat): char {
    if i < |s| then s[i] else '\0'
  }

  predicate IsDigit(c: char) {
    '0' <= c <= '9'
  }

  function DigitValue(c: char): (r: nat)
    requires IsDigit(c)
    ensures r <= 9
  {
    c as int - '0' as int
  }

  // ---------------------------------------------------------------- strings

  /** `hex_value`. */
  function HexValue(c: char): (r: Option<nat>)
    ensures r.Some? ==> r.value < 16
    ensures r.Some? ==> c != '\0'
  {
    if IsDigit(c) then Some(DigitValue(c))
    else if 'a' <= c <= 'f' then Some(10 + (c as int - 'a' as int))
    else if 'A' <= c <= 'F' then Some(10 + (c as int - 'A' as int))
    else None
  }

  /** Four hexadecimal digits from position i on. */
  function Hex4(s: string, i: nat): (r: Option<nat>)
    ensures r.Some? ==> r.value < 0x1_0000 && i + 4 <= |s|
  {
    var b1, b2, b3, b4 := HexValue(Peek(s, i)), HexValue(Peek(s, i + 1)), HexValue(Peek(s, i + 2)), HexValue(Peek(s, i + 3));
    if b1.None? || b2.None? || b3.None? || b4.None? then None
    else Some(((b1.value * 16 + b2.value) * 16 + b3.value) * 16 + b4.value)
  }

  /** n with bit 16 set. */
  function SetBit16(n: nat): (r: nat)
    requires n < 0x10_0000
    ensures r < 0x10_0000
  {
    if (n / 0x1_0000) % 2 == 1 then n else n + 0x1_0000
  }

  /** The code point behind the `u` of an escape, and the text after it; a first surrogate needs a second escape. */
  function CodePoint(s: string): (r: Option<(nat, string)>)
    ensures r.Some? ==> |r.value.1| < |s| && r.value.0 < 0x10_0000
  {
    if |s| < 4 then None
    else
      var u := Hex4(s, 1);
      if u.None? then None
      else if u.value / 0x800 != 0x1B then Some((u.value, s[5..]))
      else
        var t := s[4..];
        var u2 := Hex4(t, 3);
        if |t| < 6 || Peek(t, 1) != '\\' || Peek(t, 2) != 'u' || u2.None? then None
        else Some((SetBit16(u.value % 0x400 * 0x400 + u2.value % 0x400), t[7..]))
  }

  /** The bytes that the second pass stores for a code point. */
  function Utf8(u: nat): string
    requires u < 0x10_0000
  {
    if u <= 0x7F then [u as char]
    else if u <= 0x7FF then [(0xC0 + u / 0x40) as char, (0x80 + u % 0x40) as char]
    else if u <= 0xFFFF then [(0xE0 + u / 0x1000) as char, (0x80 + u / 0x40 % 0x40) as char, (0x80 + u % 0x40) as char]
    else [(0xF0 + u / 0x4_0000) as char, (0x80 + u / 0x1000 % 0x40) as char, (0x80 + u / 0x40 % 0x40) as char, (0x80 + u % 0x40) as char]
  }

  /** The bytes that the first pass counts for a code point. */
  function Utf8Length(u: nat): nat {
    if u <= 0x7F then 1 else if u <= 0x7FF then 2 else if u <= 0xFFFF then 3 else 4
  }

  function Unescape(c: char): char {
    match c
    case 'b' => '\U{8}'
    case 'f' => '\U{C}'
    case 'n' => '\n'
    case 'r' => '\r'
    case 't' => '\t'
    case _ => c
  }

  /** First pass: the number of bytes up to the closing quote, and the text after it. */
  function CountString(s: string): (r: Option<(nat, string)>)
    ensures r.Some? ==> |r.value.1| < |s|
    decreases |s|
  {
    var b := Peek(s, 0);
    if b == '\0' then None
    else if b == '\\' then
      var e := s[1..];
      if Peek(e, 0) == '\0' then None
      else if e[0] == 'u' then
        match CodePoint(e)
        case None => None
        case Some((u, t)) =>
          match CountString(t)
          case None => None
          case Some((n, rest)) => Some((Utf8Length(u) + n, rest))
      else
        match CountString(e[1..])
        case None => None
        case Some((n, rest)) => Some((1 + n, rest))
    else if b == '"' then Some((0, s[1..]))
    else
      match CountString(s[1..])
      case None => None
      case Some((n, rest)) => Some((1 + n, rest))
  }

  /** Second pass: the bytes up to the closing quote, and the text after it. */
  function FillString(s: string): (r: Option<(string, string)>)
    ensures r.Some? ==> |r.value.1| < |s|
    decreases |s|
  {
    var b := Peek(s, 0);
    if b == '\0' then None
    else if b == '\\' then
      var e := s[1..];
      if Peek(e, 0) == '\0' then None
      else if e[0] == 'u' then
        match CodePoint(e)
        case None => None
        case Some((u, t)) =>
          match FillString(t)
          case None => None
          case Some((bytes, rest)) => Some((Utf8(u) + bytes, rest))
      else
        match FillString(e[1..])
        case None => None
        case Some((bytes, rest)) => Some(([Unescape(e[0])] + bytes, rest))
    else if b == '"' then Some(([], s[1..]))
    else
      match FillString(s[1..])
      case None => None
      case Some((bytes, rest)) => Some(([b] + bytes, rest))
  }

  lemma CodePointPassesAgree(u: nat)
    requires u < 0x10_0000
    ensures |Utf8(u)| == Utf8Length(u)
  {
  }

  /** The passes agree on every string: they end at the same place, and as many bytes are stored as were counted. */
  lemma {:induction false} StringPassesAgree(s: string)
    ensures CountString(s).None? <==> FillString(s).None?
    ensures CountString(s).Some? ==>
              CountString(s).value == (|FillString(s).value.0|, FillString(s).value.1)
    decreases |s|, 1
  {
    var b := Peek(s, 0);
    if b == '\\' {
      EscapePassesAgree(s);
    } else if b != '\0' && b != '"' {
      StringPassesAgree(s[1..]);
    }
  }

  lemma {:induction false} EscapePassesAgree(s: string)
    requires Peek(s, 0) == '\\'
    ensures CountString(s).None? <==> FillString(s).None?
    ensures CountString(s).Some? ==>
              CountString(s).value == (|FillString(s).value.0|, FillString(s).value.1)
    decreases |s|, 0
  {
    var e := s[1..];
    if Peek(e, 0) != '\0' {
      if e[0] != 'u' {
        StringPassesAgree(e[1..]);
      } else {
        match CodePoint(e)
        case None =>
        case Some((u, t)) =>
          CodePointPassesAgree(u);
          StringPassesAgree(t);
      }
    }
  }

  // ---------------------------------------------------------------- numbers

  /** The characters that the second pass skips. */
  predicate IsNumeric(c: char) {
    IsDigit(c) || c == '+' || c == '-' || c == 'e' || c == 'E' || c == '.'
  }

  /** The flags and counters of a number in the first pass. */
  datatype NumState = NumState(isDouble: bool, digits: nat, zero: bool, e: bool, gotSign: bool, value: nat)

  const NUM_START := NumState(false, 0, false, false, false, 0)

  datatype NumOutcome = BadNumber | EndOfNumber | MoreNumber(n: NumState)

  /** One character of the state machine of the first pass. */
  function NumStep(n: NumState, b: char): (r: NumOutcome)
    ensures r.MoreNumber? ==> b != '\0' && IsNumeric(b)
  {
    if IsDigit(b) then
      if n.isDouble && !n.e then MoreNumber(n.(digits := n.digits + 1))
      else if n.e then MoreNumber(n.(digits := n.digits + 1, gotSign := true))
      else if n.zero then BadNumber
      else MoreNumber(n.(digits := n.digits + 1, zero := n.digits == 0 && b == '0', value := 10 * n.value + DigitValue(b)))
    else if (b == '+' || b == '-') && n.e && !n.gotSign then MoreNumber(n.(gotSign := true))
    else if b == '.' && !n.isDouble then
      if n.digits == 0 then BadNumber else MoreNumber(n.(isDouble := true, digits := 0))
    else if (n.e || n.isDouble) && n.digits == 0 then BadNumber
    else if !n.e && (b == 'e' || b == 'E') then MoreNumber(n.(isDouble := true, e := true, digits := 0, zero := false))
    else EndOfNumber
  }

  /**
    A number in the first pass: whether it is a double, the digits before the point as an integer,
    and the text from the character on that ends the number.
   */
  function ScanFrom(s: string, n: NumState): (r: Option<(bool, nat, string)>)
    ensures r.Some? ==> |r.value.2| <= |s|
    decreases |s|
  {
    match NumStep(n, Peek(s, 0))
    case BadNumber => None
    case EndOfNumber => Some((n.isDouble, n.value, s))
    case MoreNumber(n') => ScanFrom(s[1..], n')
  }

  predicate StartsNumber(s: string) {
    IsDigit(Peek(s, 0)) || Peek(s, 0) == '-'
  }

  /** First pass: the integer, or nothing for a double, and the text after the number. */
  function ScanNumber(s: string): (r: Option<(Option<int>, string)>)
    requires StartsNumber(s)
    ensures r.Some? ==> |r.value.1| < |s|
  {
    var negative := s[0] == '-';
    match ScanFrom(if negative then s[1..] else s, NUM_START)
    case None => None
    case Some((isDouble, value, rest)) =>
      Some((if isDouble then None else Some(if negative then 0 - value else value), rest))
  }

  /** Second pass. */
  function SkipNumber(s: string): (rest: string)
    ensures |rest| <= |s|
    ensures StartsNumber(s) ==> |rest| < |s|
  {
    if IsNumeric(Peek(s, 0)) then SkipNumber(s[1..]) else s
  }

  lemma {:induction false} ScanFromIsSkip(s: string, n: NumState)
    requires ScanFrom(s, n).Some? && !IsNumeric(Peek(ScanFrom(s, n).value.2, 0))
    ensures SkipNumber(s) == ScanFrom(s, n).value.2
    decreases |s|
  {
    match NumStep(n, Peek(s, 0))
    case MoreNumber(n') => ScanFromIsSkip(s[1..], n');
    case _ =>
  }

  /**
    The two scanners of a number stop at the same character whenever the character at which the
    first one stops cannot belong to a number.
   */
  lemma NumberPassesAgree(s: string)
    requires StartsNumber(s) && ScanNumber(s).Some? && !IsNumeric(Peek(ScanNumber(s).value.1, 0))
    ensures SkipNumber(s) == ScanNumber(s).value.1
  {
    ScanFromIsSkip(if s[0] == '-' then s[1..] else s, NUM_START);
  }
}
