/**
  The numbers of `json_parse_ex`: which texts the first pass takes for one, where it ends, and which
  of them are integers.
 */
module JsonNumbers {
  import opened Wrappers
  import opened JsonScan

  predicate AllDigits(s: string) {
    forall i :: 0 <= i < |s| ==> '0' <= s[i] <= '9'
  }

  /** The number that decimal digits spell. */
  function Decimal(s: string): nat
    requires AllDigits(s)
  {
    if s == "" then 0 else 10 * Decimal(s[..|s| - 1]) + (s[|s| - 1] as int - '0' as int)
  }

  /** The digits before the point, those behind it, and an exponent with its marker; each may be missing. */
  datatype NumberText = NumberText(whole: string, fraction: string, exponent: string)

  predicate ValidWhole(w: string) {
    AllDigits(w) && (|w| > 1 ==> w[0] != '0')
  }

  /** The digits of an exponent, behind its marker and sign. */
  function ExponentDigits(x: string): string
    requires x != ""
  {
    if |x| >= 2 && (x[1] == '+' || x[1] == '-') then x[2..] else x[1..]
  }

  predicate ValidExponent(x: string) {
    x != "" && (x[0] == 'e' || x[0] == 'E') && AllDigits(ExponentDigits(x))
  }

  /**
    The numbers of JSON (RFC 8259, section 6) without their sign, and more: the digits before the
    point may be missing if there is no fraction.
   */
  predicate ValidNumber(t: NumberText) {
    && ValidWhole(t.whole) && AllDigits(t.fraction)
    && (t.fraction != "" ==> t.whole != "")
    && (t.exponent != "" ==> ValidExponent(t.exponent) && ExponentDigits(t.exponent) != "")
  }

  predicate IsInteger(t: NumberText) {
    t.fraction == "" && t.exponent == ""
  }

  function Spelling(t: NumberText): string {
    t.whole + (if t.fraction == "" then "" else "." + t.fraction) + t.exponent
  }

  /** The number does not go on with the character c. */
  predicate StopsAt(t: NumberText, c: char) {
    && !('0' <= c <= '9')
    && (t.exponent == "" ==> c != 'e' && c != 'E')
    && (t.exponent == "" && t.fraction == "" ==> c != '.')
  }

  // ---------------------------------------------------------------- the state machine

  /** What has been read of a number: digits before the point, some behind it, or some of an exponent. */
  datatype Prefix = Whole(w: string) | Fraction(w: string, f: string) | Exponent(w: string, f: string, x: string)

  predicate ValidPrefix(p: Prefix) {
    match p
    case Whole(w) => ValidWhole(w)
    case Fraction(w, f) => ValidWhole(w) && w != "" && AllDigits(f)
    case Exponent(w, f, x) => ValidWhole(w) && AllDigits(f) && (f != "" ==> w != "") && ValidExponent(x)
  }

  function PrefixText(p: Prefix): string {
    match p
    case Whole(w) => w
    case Fraction(w, f) => w + "." + f
    case Exponent(w, f, x) => w + (if f == "" then "" else "." + f) + x
  }

  /** The flags and counters of the first pass. */
  function StateOf(p: Prefix): NumState
    requires ValidPrefix(p)
  {
    match p
    case Whole(w) => NumState(false, |w|, w == "0", false, false, Decimal(w))
    case Fraction(w, f) => NumState(true, |f|, w == "0", false, false, Decimal(w))
    case Exponent(w, f, x) => NumState(true, |ExponentDigits(x)|, false, true, |x| > 1, Decimal(w))
  }

  /** The number is complete if nothing follows. */
  predicate Complete(p: Prefix) {
    match p
    case Whole(_) => true
    case Fraction(_, f) => f != ""
    case Exponent(_, _, x) => x != "" && ExponentDigits(x) != ""
  }

  function TextOf(p: Prefix): NumberText {
    match p
    case Whole(w) => NumberText(w, "", "")
    case Fraction(w, f) => NumberText(w, f, "")
    case Exponent(w, f, x) => NumberText(w, f, x)
  }

  lemma DecimalMore(w: string, b: char)
    requires AllDigits(w) && '0' <= b <= '9'
    ensures AllDigits(w + [b]) && Decimal(w + [b]) == 10 * Decimal(w) + (b as int - '0' as int)
  {
    assert (w + [b])[..|w|] == w;
  }

  lemma ExponentMore(x: string, b: char)
    requires ValidExponent(x) && (IsDigit(b) || ((b == '+' || b == '-') && |x| == 1))
    ensures ValidExponent(x + [b])
    ensures |ExponentDigits(x + [b])| == |ExponentDigits(x)| + if IsDigit(b) then 1 else 0
  {
    if |x| > 1 {
      assert (x + [b])[2..] == x[2..] + [b] && (x + [b])[1..] == x[1..] + [b];
    }
  }

  /** One character more of a number. */
  lemma StepGoesOn(p: Prefix, b: char) returns (p': Prefix)
    requires ValidPrefix(p) && NumStep(StateOf(p), b).MoreNumber?
    ensures ValidPrefix(p') && PrefixText(p') == PrefixText(p) + [b] && NumStep(StateOf(p), b).n == StateOf(p')
  {
    match p
    case Whole(w) =>
      p' := WholeGoesOn(w, b);
    case Fraction(w, f) =>
      p' := FractionGoesOn(w, f, b);
    case Exponent(w, f, x) =>
      ExponentMore(x, b);
      p' := Exponent(w, f, x + [b]);
  }

  lemma WholeGoesOn(w: string, b: char) returns (p': Prefix)
    requires ValidWhole(w) && NumStep(StateOf(Whole(w)), b).MoreNumber?
    ensures ValidPrefix(p') && PrefixText(p') == w + [b] && NumStep(StateOf(Whole(w)), b).n == StateOf(p')
  {
    if IsDigit(b) {
      DecimalMore(w, b);
      p' := Whole(w + [b]);
    } else if b == '.' {
      p' := Fraction(w, "");
    } else {
      p' := Exponent(w, "", [b]);
    }
  }

  lemma FractionGoesOn(w: string, f: string, b: char) returns (p': Prefix)
    requires ValidPrefix(Fraction(w, f)) && NumStep(StateOf(Fraction(w, f)), b).MoreNumber?
    ensures ValidPrefix(p') && PrefixText(p') == w + "." + f + [b] && NumStep(StateOf(Fraction(w, f)), b).n == StateOf(p')
  {
    if IsDigit(b) {
      p' := Fraction(w, f + [b]);
    } else {
      p' := Exponent(w, f, [b]);
      assert w + ("." + f) + [b] == w + "." + f + [b];
    }
  }

  /** The machine stops at the end of a complete number. */
  lemma StepStops(p: Prefix, b: char)
    requires ValidPrefix(p)
    ensures NumStep(StateOf(p), b) == EndOfNumber <==> Complete(p) && StopsAt(TextOf(p), b)
  {
    match p
    case Whole(_) =>
    case Fraction(_, _) =>
    case Exponent(_, _, x) =>
      assert |ExponentDigits(x)| > 0 ==> |x| > 1;
  }

  lemma CompleteIsValid(p: Prefix)
    requires ValidPrefix(p) && Complete(p)
    ensures ValidNumber(TextOf(p)) && Spelling(TextOf(p)) == PrefixText(p)
  {
    match p
    case Whole(w) => assert w + "" + "" == w;
    case Fraction(w, f) => assert w + ("." + f) + "" == w + "." + f;
    case Exponent(_, _, _) =>
  }

  /** A number has been scanned as far as it goes. */
  predicate EndsAt(p: Prefix, isDouble: bool, value: nat, rest: string) {
    && ValidPrefix(p) && Complete(p) && StopsAt(TextOf(p), Peek(rest, 0))
    && StateOf(p).isDouble == isDouble && StateOf(p).value == value
  }

  /** What is scanned from a state on continues what has been read, to the end of a number. */
  lemma {:induction false} ScanFromContinues(p: Prefix, s: string) returns (p': Prefix)
    requires ValidPrefix(p) && ScanFrom(s, StateOf(p)).Some?
    ensures var (isDouble, value, rest) := ScanFrom(s, StateOf(p)).value;
            EndsAt(p', isDouble, value, rest) && PrefixText(p') + rest == PrefixText(p) + s
    decreases |s|
  {
    var b := Peek(s, 0);
    if NumStep(StateOf(p), b) == EndOfNumber {
      StepStops(p, b);
      p' := p;
    } else {
      var next := StepGoesOn(p, b);
      p' := ScanFromContinues(next, s[1..]);
      TextMovesOn(PrefixText(p), b, s);
    }
  }

  lemma TextMovesOn(text: string, b: char, s: string)
    requires s != "" && b == s[0]
    ensures (text + [b]) + s[1..] == text + s
  {
  }

  /** Every number that is scanned is one of the grammar, and is scanned as far as it goes. */
  lemma ScannedIsSpelt(s: string) returns (t: NumberText)
    requires ScanFrom(s, NUM_START).Some?
    ensures var (isDouble, value, rest) := ScanFrom(s, NUM_START).value;
            && ValidNumber(t) && s == Spelling(t) + rest && StopsAt(t, Peek(rest, 0))
            && (isDouble <==> !IsInteger(t)) && value == Decimal(t.whole)
  {
    var p := ScanFromContinues(Whole(""), s);
    CompleteIsValid(p);
    t := TextOf(p);
    assert "" + s == s;
  }

  // ---------------------------------------------------------------- every number of the grammar is scanned

  lemma {:induction false} WholeIsScanned(w: string, d: string, rest: string)
    requires ValidWhole(w + d)
    ensures ValidWhole(w) && ScanFrom(d + rest, StateOf(Whole(w))) == ScanFrom(rest, StateOf(Whole(w + d)))
    decreases |d|
  {
    FrontIsWhole(w, d);
    if d == "" {
      assert d + rest == rest && w + d == w;
    } else {
      DigitsMoveOn(w, d, rest);
      DigitIsScanned(w, d[0], d[1..] + rest);
      WholeIsScanned(w + [d[0]], d[1..], rest);
    }
  }

  lemma FrontIsWhole(w: string, d: string)
    requires ValidWhole(w + d)
    ensures ValidWhole(w)
  {
    assert forall i :: 0 <= i < |w| ==> w[i] == (w + d)[i];
  }

  lemma DigitsMoveOn(w: string, d: string, rest: string)
    requires d != ""
    ensures (w + [d[0]]) + d[1..] == w + d && d + rest == [d[0]] + (d[1..] + rest)
  {
  }

  lemma DigitIsScanned(w: string, b: char, tail: string)
    requires ValidWhole(w) && (exists d :: ValidWhole((w + [b]) + d))
    ensures ValidWhole(w + [b]) && ScanFrom([b] + tail, StateOf(Whole(w))) == ScanFrom(tail, StateOf(Whole(w + [b])))
  {
    var d :| ValidWhole((w + [b]) + d);
    FrontIsWhole(w + [b], d);
    assert (w + [b])[|w|] == b && (|w| > 0 ==> (w + [b])[0] == w[0]);
    DecimalMore(w, b);
    OneIsScanned(StateOf(Whole(w)), b, tail);
  }

  lemma {:induction false} FractionIsScanned(w: string, f: string, d: string, rest: string)
    requires ValidWhole(w) && w != "" && AllDigits(f + d)
    ensures AllDigits(f) && ScanFrom(d + rest, StateOf(Fraction(w, f))) == ScanFrom(rest, StateOf(Fraction(w, f + d)))
    decreases |d|
  {
    assert forall i :: 0 <= i < |f| ==> f[i] == (f + d)[i];
    if d == "" {
      assert d + rest == rest && f + d == f;
    } else {
      var b := d[0];
      assert b == (f + d)[|f|] && (f + [b]) + d[1..] == f + d;
      assert (d + rest)[1..] == d[1..] + rest && Peek(d + rest, 0) == b;
      FractionIsScanned(w, f + [b], d[1..], rest);
    }
  }

  lemma {:induction false} ExponentIsScanned(w: string, f: string, x: string, d: string, rest: string)
    requires ValidPrefix(Exponent(w, f, x)) && AllDigits(d)
    ensures ValidExponent(x + d) && ScanFrom(d + rest, StateOf(Exponent(w, f, x))) == ScanFrom(rest, StateOf(Exponent(w, f, x + d)))
    decreases |d|
  {
    if d == "" {
      assert d + rest == rest && x + d == x;
    } else {
      var b := d[0];
      assert (x + [b]) + d[1..] == x + d;
      ExponentMore(x, b);
      assert (d + rest)[1..] == d[1..] + rest && Peek(d + rest, 0) == b;
      ExponentIsScanned(w, f, x + [b], d[1..], rest);
    }
  }

  /** One character that the machine takes. */
  lemma OneIsScanned(n: NumState, b: char, rest: string)
    requires NumStep(n, b).MoreNumber?
    ensures ScanFrom([b] + rest, n) == ScanFrom(rest, NumStep(n, b).n)
  {
    assert ([b] + rest)[1..] == rest;
  }

  lemma FractionPart(w: string, f: string, tail: string)
    requires ValidWhole(w) && AllDigits(f) && (f != "" ==> w != "")
    ensures var p := if f == "" then Whole(w) else Fraction(w, f);
            ScanFrom((if f == "" then "" else "." + f) + tail, StateOf(Whole(w))) == ScanFrom(tail, StateOf(p))
  {
    if f == "" {
      assert "" + tail == tail;
    } else {
      assert "." + f + tail == ['.'] + (f + tail);
      OneIsScanned(StateOf(Whole(w)), '.', f + tail);
      assert "" + f == f;
      FractionIsScanned(w, "", f, tail);
    }
  }

  /** The marker, the sign if there is one, and the digits of an exponent. */
  lemma SplitExponent(x: string) returns (sign: string, d: string)
    requires ValidExponent(x)
    ensures (sign == "" || sign == "+" || sign == "-") && AllDigits(d) && x == [x[0]] + sign + d
  {
    d := ExponentDigits(x);
    sign := if |x| >= 2 && (x[1] == '+' || x[1] == '-') then [x[1]] else "";
  }

  lemma ExponentPart(p: Prefix, x: string, rest: string)
    requires ValidPrefix(p) && !p.Exponent? && Complete(p) && ValidExponent(x)
    ensures var q := Exponent(p.w, if p.Whole? then "" else p.f, x);
            ValidPrefix(q) && ScanFrom(x + rest, StateOf(p)) == ScanFrom(rest, StateOf(q))
  {
    var f := if p.Whole? then "" else p.f;
    var sign, d := SplitExponent(x);
    var m := [x[0]];
    ThreeParts(x, m, sign, d, rest);
    MarkerIsScanned(p, f, x[0], sign + (d + rest));
    SignIsScanned(p.w, f, m, sign, d + rest);
    ExponentIsScanned(p.w, f, m + sign, d, rest);
  }

  lemma ThreeParts(x: string, m: string, sign: string, d: string, rest: string)
    requires x == m + sign + d
    ensures x + rest == m + (sign + (d + rest))
  {
  }

  lemma MarkerIsScanned(p: Prefix, f: string, e: char, tail: string)
    requires ValidPrefix(p) && !p.Exponent? && Complete(p) && (e == 'e' || e == 'E') && f == if p.Whole? then "" else p.f
    ensures ValidPrefix(Exponent(p.w, f, [e]))
    ensures ScanFrom([e] + tail, StateOf(p)) == ScanFrom(tail, StateOf(Exponent(p.w, f, [e])))
  {
    assert ExponentDigits([e]) == "";
    OneIsScanned(StateOf(p), e, tail);
  }

  lemma SignIsScanned(w: string, f: string, m: string, sign: string, tail: string)
    requires ValidPrefix(Exponent(w, f, m)) && |m| == 1 && (sign == "" || sign == "+" || sign == "-")
    ensures ValidPrefix(Exponent(w, f, m + sign))
    ensures ScanFrom(sign + tail, StateOf(Exponent(w, f, m))) == ScanFrom(tail, StateOf(Exponent(w, f, m + sign)))
  {
    if sign == "" {
      assert m + sign == m && sign + tail == tail;
    } else {
      ExponentMore(m, sign[0]);
      assert sign == [sign[0]];
      OneIsScanned(StateOf(Exponent(w, f, m)), sign[0], tail);
    }
  }

  /** Every number of the grammar is scanned whole, unless it goes on. */
  lemma SpeltIsScanned(t: NumberText, rest: string)
    requires ValidNumber(t) && StopsAt(t, Peek(rest, 0))
    ensures ScanFrom(Spelling(t) + rest, NUM_START) == Some((!IsInteger(t), Decimal(t.whole), rest))
  {
    var dot := if t.fraction == "" then "" else "." + t.fraction;
    var p := if t.fraction == "" then Whole(t.whole) else Fraction(t.whole, t.fraction);
    assert Spelling(t) + rest == t.whole + (dot + (t.exponent + rest));
    assert "" + t.whole == t.whole;
    WholeIsScanned("", t.whole, dot + (t.exponent + rest));
    FractionPart(t.whole, t.fraction, t.exponent + rest);
    if t.exponent == "" {
      assert t.exponent + rest == rest;
      StepStops(p, Peek(rest, 0));
    } else {
      ExponentPart(p, t.exponent, rest);
      StepStops(Exponent(t.whole, t.fraction, t.exponent), Peek(rest, 0));
    }
  }

  /** A minus sign alone is read as the integer 0, which is no number of JSON. */
  lemma BareMinusIsZero(rest: string)
    requires !IsNumeric(Peek(rest, 0))
    ensures ScanNumber("-" + rest) == Some((Some(0), rest))
  {
    var t := NumberText("", "", "");
    SpeltIsScanned(t, rest);
    assert ("-" + rest)[1..] == rest && Spelling(t) + rest == rest;
  }
}
