/**
  The strings of `json_parse_ex`: which texts are string tokens, and which bytes are stored for
  them. The bytes of a code point are those of UTF-8 (RFC 3629, section 3), told by a decoder of
  their own.
 */
module JsonStrings {
  import opened Wrappers
  import opened JsonScan

  // ---------------------------------------------------------------- UTF-8

  predicate IsTail(c: char) {
    0x80 <= c as int <= 0xBF
  }

  /** The low six bits of a byte behind the first one. */
  function TailBits(c: char): (r: nat)
    requires IsTail(c)
    ensures r < 0x40
  {
    c as int - 0x80
  }

  /** How many bytes follow the first byte of a sequence. */
  function TailsBehind(lead: char): Option<nat> {
    var b := lead as int;
    if b <= 0x7F then Some(0)
    else if 0xC0 <= b <= 0xDF then Some(1)
    else if 0xE0 <= b <= 0xEF then Some(2)
    else if 0xF0 <= b <= 0xF7 then Some(3)
    else None
  }

  /** The bits of the first byte. */
  function LeadBits(lead: char): int {
    var b := lead as int;
    if b <= 0x7F then b else if b <= 0xDF then b - 0xC0 else if b <= 0xEF then b - 0xE0 else b - 0xF0
  }

  function AddTails(bits: int, tails: string): int
    requires forall i :: 0 <= i < |tails| ==> IsTail(tails[i])
  {
    if tails == "" then bits else AddTails(bits, tails[..|tails| - 1]) * 0x40 + TailBits(tails[|tails| - 1])
  }

  /** The first code point of a sequence of bytes, and the bytes behind it. */
  function Decode(s: string): Option<(int, string)> {
    if s == "" then None
    else
      match TailsBehind(s[0])
      case None => None
      case Some(n) =>
        if |s| < 1 + n || exists i :: 1 <= i < 1 + n && !IsTail(s[i]) then None
        else Some((AddTails(LeadBits(s[0]), s[1..1 + n]), s[1 + n..]))
  }

  lemma AddTailsOf(bits: int, tails: string)
    requires |tails| <= 3 && forall i :: 0 <= i < |tails| ==> IsTail(tails[i])
    ensures AddTails(bits, tails) ==
            match |tails|
            case 0 => bits
            case 1 => bits * 0x40 + TailBits(tails[0])
            case 2 => (bits * 0x40 + TailBits(tails[0])) * 0x40 + TailBits(tails[1])
            case _ => ((bits * 0x40 + TailBits(tails[0])) * 0x40 + TailBits(tails[1])) * 0x40 + TailBits(tails[2])
  {
    if |tails| > 0 {
      AddTailsOf(bits, tails[..|tails| - 1]);
    }
  }

  /** The shape of the bytes of a code point: a first byte, and as many others as it announces. */
  lemma Utf8Shape(u: nat)
    requires u < 0x10_0000
    ensures var s := Utf8(u); s != "" && TailsBehind(s[0]) == Some(|s| - 1) && forall i :: 1 <= i < |s| ==> IsTail(s[i])
  {
  }

  lemma Utf8Bits(u: nat)
    requires u < 0x10_0000
    ensures var s := Utf8(u);
            && s != "" && (forall i :: 1 <= i < |s| ==> IsTail(s[i]))
            && AddTails(LeadBits(s[0]), s[1..]) == u
  {
    var s := Utf8(u);
    Utf8Shape(u);
    AddTailsOf(LeadBits(s[0]), s[1..]);
    assert u / 0x40 / 0x40 == u / 0x1000 && u / 0x1000 / 0x40 == u / 0x4_0000;
  }

  /** The bytes stored for a code point are decoded to it, whatever follows them. */
  lemma Utf8IsDecoded(u: nat, rest: string)
    requires u < 0x10_0000
    ensures Decode(Utf8(u) + rest) == Some((u, rest))
  {
    var s := Utf8(u);
    Utf8Shape(u);
    Utf8Bits(u);
    var all := s + rest;
    assert all[0] == s[0] && all[1..|s|] == s[1..] && all[|s|..] == rest;
    assert forall i :: 1 <= i < |s| ==> all[i] == s[i];
  }

  /** Any other sequence of bytes for the code point is longer. */
  lemma Utf8IsShortest(u: nat, s: string, rest: string)
    requires u < 0x10_0000 && Decode(s) == Some((u, rest)) && |s| - |rest| <= |Utf8(u)|
    ensures s == Utf8(u) + rest
  {
    var n := TailsBehind(s[0]).value;
    AddTailsOf(LeadBits(s[0]), s[1..1 + n]);
    assert s == s[..1 + n] + s[1 + n..];
    SameBytes(u, s[..1 + n]);
  }

  lemma SameBytes(u: nat, s: string)
    requires u < 0x10_0000 && s != "" && TailsBehind(s[0]) == Some(|s| - 1) && |s| <= |Utf8(u)|
    requires (forall i :: 1 <= i < |s| ==> IsTail(s[i])) && AddTails(LeadBits(s[0]), s[1..]) == u
    ensures s == Utf8(u)
  {
    AddTailsOf(LeadBits(s[0]), s[1..]);
    match |s|
    case 1 =>
    case 2 => TwoBytes(u, s);
    case 3 => ThreeBytes(u, s);
    case _ => FourBytes(u, s);
  }

  lemma DivideBack(a: int, b: nat)
    requires a >= 0 && b < 0x40
    ensures (a * 0x40 + b) / 0x40 == a && (a * 0x40 + b) % 0x40 == b
  {
  }

  lemma TwoBytes(u: nat, s: string)
    requires |s| == 2 && TailsBehind(s[0]) == Some(1) && IsTail(s[1]) && 0x80 <= u < 0x10_0000
    requires u == LeadBits(s[0]) * 0x40 + TailBits(s[1])
    ensures s == Utf8(u)
  {
    DivideBack(LeadBits(s[0]), TailBits(s[1]));
  }

  lemma ThreeBytes(u: nat, s: string)
    requires |s| == 3 && TailsBehind(s[0]) == Some(2) && IsTail(s[1]) && IsTail(s[2]) && 0x800 <= u < 0x10_0000
    requires u == (LeadBits(s[0]) * 0x40 + TailBits(s[1])) * 0x40 + TailBits(s[2])
    ensures s == Utf8(u)
  {
    DivideBack(LeadBits(s[0]), TailBits(s[1]));
    DivideBack(LeadBits(s[0]) * 0x40 + TailBits(s[1]), TailBits(s[2]));
    assert u / 0x1000 == u / 0x40 / 0x40;
  }

  lemma FourBytes(u: nat, s: string)
    requires |s| == 4 && TailsBehind(s[0]) == Some(3) && IsTail(s[1]) && IsTail(s[2]) && IsTail(s[3]) && 0x1_0000 <= u < 0x10_0000
    requires u == ((LeadBits(s[0]) * 0x40 + TailBits(s[1])) * 0x40 + TailBits(s[2])) * 0x40 + TailBits(s[3])
    ensures s == Utf8(u)
  {
    var a := LeadBits(s[0]) * 0x40 + TailBits(s[1]);
    DivideBack(LeadBits(s[0]), TailBits(s[1]));
    DivideBack(a, TailBits(s[2]));
    DivideBack(a * 0x40 + TailBits(s[2]), TailBits(s[3]));
    assert u / 0x1000 == u / 0x40 / 0x40 && u / 0x4_0000 == u / 0x1000 / 0x40;
  }

  // ---------------------------------------------------------------- hexadecimal digits

  const HEX_LOWER := "0123456789abcdef"
  const HEX_UPPER := "0123456789ABCDEF"

  /** The value of a digit is its place among the digits, in either case; nothing else is a digit. */
  lemma HexDigits(c: char)
    ensures HexValue(c).Some? <==> c in HEX_LOWER || c in HEX_UPPER
    ensures HexValue(c).Some? ==> HEX_LOWER[HexValue(c).value] == c || HEX_UPPER[HexValue(c).value] == c
    ensures forall d :: 0 <= d < 16 && (HEX_LOWER[d] == c || HEX_UPPER[d] == c) ==> HexValue(c) == Some(d)
  {
  }

  /** Four hexadecimal digits. */
  predicate FourDigits(h: string) {
    |h| == 4 && forall i :: 0 <= i < 4 ==> HexValue(h[i]).Some?
  }

  /** The number that digits spell. */
  function HexNumber(h: string): (r: nat)
    requires forall i :: 0 <= i < |h| ==> HexValue(h[i]).Some?
  {
    if h == "" then 0 else HexNumber(h[..|h| - 1]) * 16 + HexValue(h[|h| - 1]).value
  }

  lemma HexNumberOfFour(h: string)
    requires FourDigits(h)
    ensures HexNumber(h) == ((HexValue(h[0]).value * 16 + HexValue(h[1]).value) * 16 + HexValue(h[2]).value) * 16 + HexValue(h[3]).value
    ensures HexNumber(h) < 0x1_0000
  {
    var h3, h2, h1 := h[..3], h[..2], h[..1];
    assert h3[..2] == h2 && h2[..1] == h1 && h1[..0] == "";
    assert HexNumber(h1) == HexValue(h[0]).value;
    assert HexNumber(h2) == HexNumber(h1) * 16 + HexValue(h[1]).value;
    assert HexNumber(h3) == HexNumber(h2) * 16 + HexValue(h[2]).value;
  }

  lemma Hex4Reads(s: string, i: nat)
    ensures Hex4(s, i).Some? <==> i + 4 <= |s| && FourDigits(s[i..i + 4])
    ensures Hex4(s, i).Some? ==> Hex4(s, i).value == HexNumber(s[i..i + 4])
  {
    if Hex4(s, i).Some? {
      HexNumberOfFour(s[i..i + 4]);
    } else if i + 4 <= |s| {
      var h := s[i..i + 4];
      assert h[0] == Peek(s, i) && h[1] == Peek(s, i + 1) && h[2] == Peek(s, i + 2) && h[3] == Peek(s, i + 3);
    }
  }

  // ---------------------------------------------------------------- escapes

  /**
    What a string token is made of: characters as they are, a backslash and a character, a code
    point by its four digits, and two surrogates.
   */
  datatype Part = Plain(c: char) | Escape(c: char) | Code(h: string) | Pair(first: string, second: string)

  /** The numbers that announce a second surrogate. */
  predicate IsSurrogate(n: nat) {
    0xD800 <= n <= 0xDFFF
  }

  predicate ValidPart(p: Part) {
    match p
    case Plain(c) => c != '\0' && c != '\\' && c != '"'
    case Escape(c) => c != '\0' && c != 'u'
    case Code(h) => FourDigits(h) && !IsSurrogate(HexNumber(h))
    case Pair(h1, h2) => FourDigits(h1) && FourDigits(h2) && IsSurrogate(HexNumber(h1))
  }

  function Spelling(p: Part): string {
    match p
    case Plain(c) => [c]
    case Escape(c) => "\\" + [c]
    case Code(h) => "\\" + ("u" + h)
    case Pair(h1, h2) => "\\" + ("u" + h1 + "\\u" + h2)
  }

  /**
    The code point that the parser takes two surrogates for: it sets the bit 16 that it should add,
    so that bit 6 of the first surrogate and the offset of the supplementary planes are one bit.
   */
  function Joined(n1: nat, n2: nat): nat {
    n1 % 0x400 * 0x400 + n2 % 0x400 + if n1 / 0x40 % 2 == 0 then 0x1_0000 else 0
  }

  /** The code point of a surrogate pair (RFC 2781, section 2.2) is read exactly when bit 6 of the first surrogate is zero. */
  lemma PairIsReadIff(n1: nat, n2: nat)
    requires 0xD800 <= n1 <= 0xDBFF && 0xDC00 <= n2 <= 0xDFFF
    ensures Joined(n1, n2) == 0x1_0000 + (n1 - 0xD800) * 0x400 + (n2 - 0xDC00) <==> n1 / 0x40 % 2 == 0
  {
    assert n1 % 0x400 == n1 - 0xD800 && n2 % 0x400 == n2 - 0xDC00;
  }

  /** The code of the character that a backslash and c stand for. */
  function EscapeCode(c: char): int {
    if c == 'b' then 8 else if c == 't' then 9 else if c == 'n' then 10 else if c == 'f' then 12 else if c == 'r' then 13
    else c as int
  }

  /** The bytes are those of UTF-8 for the code point, in the shortest form. */
  predicate IsUtf8(u: nat, bytes: string) {
    && Decode(bytes) == Some((u, ""))
    && |bytes| == if u < 0x80 then 1 else if u < 0x800 then 2 else if u < 0x1_0000 then 3 else 4
  }

  /** What is stored for a part. */
  predicate Stored(p: Part, bytes: string) {
    match p
    case Plain(c) => bytes == [c]
    case Escape(c) => |bytes| == 1 && bytes[0] as int == EscapeCode(c)
    case Code(h) => FourDigits(h) && IsUtf8(HexNumber(h), bytes)
    case Pair(h1, h2) => FourDigits(h1) && FourDigits(h2) && IsUtf8(Joined(HexNumber(h1), HexNumber(h2)), bytes)
  }

  ghost predicate StoredAll(ps: seq<Part>, bytes: string) {
    if ps == [] then bytes == ""
    else exists k :: 0 <= k <= |bytes| && Stored(ps[0], bytes[..k]) && StoredAll(ps[1..], bytes[k..])
  }

  predicate AllValid(ps: seq<Part>) {
    forall i :: 0 <= i < |ps| ==> ValidPart(ps[i])
  }

  function SpellAll(ps: seq<Part>): string {
    if ps == [] then "" else Spelling(ps[0]) + SpellAll(ps[1..])
  }

  lemma JoinedIsSetBit(n1: nat, n2: nat)
    requires n1 < 0x1_0000
    ensures n1 % 0x400 * 0x400 + n2 % 0x400 < 0x10_0000
    ensures SetBit16(n1 % 0x400 * 0x400 + n2 % 0x400) == Joined(n1, n2)
  {
    var x, y := n1 % 0x400, n2 % 0x400;
    assert (x * 0x400 + y) / 0x1_0000 == x / 0x40;
    assert x / 0x40 % 2 == n1 / 0x40 % 2;
  }

  /** What the parser adds for a part. */
  function BytesOf(p: Part): string
    requires ValidPart(p)
  {
    match p
    case Plain(c) => [c]
    case Escape(c) => [Unescape(c)]
    case Code(h) => HexNumberOfFour(h); Utf8(HexNumber(h))
    case Pair(h1, h2) =>
      HexNumberOfFour(h1);
      JoinedIsSetBit(HexNumber(h1), HexNumber(h2));
      Utf8(Joined(HexNumber(h1), HexNumber(h2)))
  }

  lemma BytesAreStored(p: Part)
    requires ValidPart(p)
    ensures Stored(p, BytesOf(p))
  {
    match p
    case Plain(_) =>
    case Escape(_) =>
    case Code(h) =>
      HexNumberOfFour(h);
      Utf8IsUtf8(HexNumber(h));
    case Pair(h1, h2) =>
      HexNumberOfFour(h1);
      JoinedIsSetBit(HexNumber(h1), HexNumber(h2));
      Utf8IsUtf8(Joined(HexNumber(h1), HexNumber(h2)));
  }

  lemma Utf8IsUtf8(u: nat)
    requires u < 0x10_0000
    ensures IsUtf8(u, Utf8(u))
  {
    Utf8IsDecoded(u, "");
    assert Utf8(u) + "" == Utf8(u);
  }

  /** The code point behind the `u` of an escape is told by the digits. */
  lemma CodeIsRead(h: string, rest: string)
    requires FourDigits(h) && !IsSurrogate(HexNumber(h))
    ensures CodePoint("u" + h + rest) == Some((HexNumber(h), rest))
  {
    var s := "u" + h + rest;
    HexNumberOfFour(h);
    Hex4Reads(s, 1);
    assert s[1..5] == h && s[5..] == rest;
  }

  lemma PairIsRead(h1: string, h2: string, rest: string)
    requires FourDigits(h1) && FourDigits(h2) && IsSurrogate(HexNumber(h1))
    ensures CodePoint("u" + h1 + "\\u" + h2 + rest) == Some((Joined(HexNumber(h1), HexNumber(h2)), rest))
  {
    var s := "u" + h1 + "\\u" + h2 + rest;
    HexNumberOfFour(h1);
    Hex4Reads(s, 1);
    assert s[1..5] == h1;
    var t := s[4..];
    Hex4Reads(t, 3);
    assert t[3..7] == h2 && t[7..] == rest && t[1] == '\\' && t[2] == 'u';
    JoinedIsSetBit(HexNumber(h1), HexNumber(h2));
  }

  lemma PartIsRead(p: Part, rest: string)
    requires ValidPart(p)
    ensures FillString(Spelling(p) + rest) ==
            match FillString(rest)
            case None => None
            case Some((more, behind)) => Some((BytesOf(p) + more, behind))
  {
    match p
    case Plain(c) => assert ([c] + rest)[1..] == rest;
    case Escape(c) => EscapeIsRead(c, rest);
    case Code(h) =>
      CodeIsRead(h, rest);
      BehindU("u" + h, rest);
    case Pair(h1, h2) =>
      PairIsRead(h1, h2, rest);
      BehindU("u" + h1 + "\\u" + h2, rest);
  }

  lemma EscapeIsRead(c: char, rest: string)
    requires c != '\0' && c != 'u'
    ensures FillString("\\" + [c] + rest) ==
            match FillString(rest)
            case None => None
            case Some((more, behind)) => Some(([Unescape(c)] + more, behind))
  {
    var s := "\\" + [c] + rest;
    assert s[1..] == [c] + rest && ([c] + rest)[1..] == rest;
  }

  lemma BehindU(e: string, rest: string)
    requires e != "" && e[0] == 'u' && CodePoint(e + rest).Some? && CodePoint(e + rest).value.1 == rest
    ensures FillString("\\" + e + rest) ==
            match FillString(rest)
            case None => None
            case Some((more, behind)) => Some((Utf8(CodePoint(e + rest).value.0) + more, behind))
  {
    assert ("\\" + e + rest)[1..] == e + rest;
  }

  /** Every sequence of parts with a closing quote behind it is a string token, and is stored part by part. */
  lemma {:induction false} SpeltIsRead(ps: seq<Part>, rest: string)
    requires AllValid(ps)
    ensures var r := FillString(SpellAll(ps) + ("\"" + rest));
            r.Some? && r.value.1 == rest && StoredAll(ps, r.value.0)
  {
    if ps == [] {
      assert "" + ("\"" + rest) == "\"" + rest && ("\"" + rest)[1..] == rest;
    } else {
      SpeltIsRead(ps[1..], rest);
      PartIsRead(ps[0], SpellAll(ps[1..]) + ("\"" + rest));
      Associative(Spelling(ps[0]), SpellAll(ps[1..]), "\"" + rest);
      BytesAreStored(ps[0]);
      StoredFirst(ps, BytesOf(ps[0]), FillString(SpellAll(ps[1..]) + ("\"" + rest)).value.0);
    }
  }

  lemma StoredFirst(ps: seq<Part>, bytes: string, more: string)
    requires ps != [] && Stored(ps[0], bytes) && StoredAll(ps[1..], more)
    ensures StoredAll(ps, bytes + more)
  {
    var k := |bytes|;
    assert (bytes + more)[..k] == bytes && (bytes + more)[k..] == more;
  }

  /** The parts of a string token. */
  lemma FirstPart(s: string) returns (p: Part, rest: string)
    requires FillString(s).Some? && s[0] != '"'
    ensures ValidPart(p) && s == Spelling(p) + rest && FillString(rest).Some?
  {
    if s[0] != '\\' {
      p, rest := Plain(s[0]), s[1..];
    } else if s[1] != 'u' {
      p, rest := Escape(s[1]), s[2..];
      assert s[1..][1..] == s[2..];
    } else {
      p, rest := CodePart(s[1..]);
      assert s == "\\" + s[1..];
    }
  }

  lemma CodePart(e: string) returns (p: Part, rest: string)
    requires e != "" && e[0] == 'u' && CodePoint(e).Some? && FillString(CodePoint(e).value.1).Some?
    ensures ValidPart(p) && "\\" + e == Spelling(p) + rest && FillString(rest).Some?
  {
    var h1 := e[1..5];
    Hex4Reads(e, 1);
    HexNumberOfFour(h1);
    if !IsSurrogate(HexNumber(h1)) {
      p, rest := Code(h1), e[5..];
      assert e == "u" + h1 + rest;
    } else {
      var t := e[4..];
      Hex4Reads(t, 3);
      var h2 := t[3..7];
      p, rest := Pair(h1, h2), t[7..];
      assert e == "u" + h1 + "\\u" + h2 + rest;
    }
  }

  /** Every string token is a sequence of parts with a closing quote behind it, and is stored part by part. */
  lemma {:induction false} ReadIsSpelt(s: string) returns (ps: seq<Part>)
    requires FillString(s).Some?
    ensures AllValid(ps) && s == SpellAll(ps) + ("\"" + FillString(s).value.1) && StoredAll(ps, FillString(s).value.0)
    decreases |s|
  {
    if s[0] == '"' {
      ps := [];
      assert s == "" + ("\"" + s[1..]);
    } else {
      var p, rest := FirstPart(s);
      assert |rest| < |s|;
      var more := ReadIsSpelt(rest);
      ps := [p] + more;
      assert ps[1..] == more;
      PartIsRead(p, rest);
      BytesAreStored(p);
      StoredFirst(ps, BytesOf(p), FillString(rest).value.0);
      Associative(Spelling(p), SpellAll(more), "\"" + FillString(rest).value.1);
    }
  }
}
