/**
  The spectral codebooks of AAC (ISO/IEC 14496-3, tables 4.A.2 to 4.A.12): the lengths of their code
  words, and the bits that quantised coefficients take under each.
 */
module AacCodewords {
  import opened AacSections

  // ---------------------------------------------------------------- the code words

  // The lengths of the code words, in rows: of the first half of a vector, by its second half.

  const BITS_1: seq<seq<nat>> := [
    [11, 9, 11, 10, 7, 10, 11, 9, 11],
    [10, 7, 10, 7, 5, 7, 9, 7, 10],
    [11, 9, 11, 9, 7, 9, 11, 9, 11],
    [9, 7, 9, 7, 5, 7, 9, 7, 9],
    [7, 5, 7, 5, 1, 5, 7, 5, 7],
    [9, 7, 9, 7, 5, 7, 9, 7, 9],
    [11, 9, 11, 9, 7, 9, 11, 9, 11],
    [10, 7, 9, 7, 5, 7, 9, 7, 10],
    [11, 9, 11, 10, 7, 9, 11, 9, 11]
  ]

  const BITS_2: seq<seq<nat>> := [
    [9, 7, 9, 8, 6, 8, 9, 8, 9],
    [8, 6, 7, 6, 5, 6, 7, 6, 8],
    [9, 7, 8, 8, 6, 8, 9, 7, 9],
    [8, 6, 7, 6, 5, 6, 7, 6, 8],
    [6, 5, 6, 5, 3, 5, 6, 5, 6],
    [8, 6, 7, 6, 5, 6, 8, 6, 8],
    [9, 7, 9, 8, 6, 8, 8, 7, 9],
    [8, 6, 7, 6, 4, 6, 8, 6, 7],
    [9, 7, 9, 7, 6, 8, 9, 7, 9]
  ]

  const BITS_3: seq<seq<nat>> := [
    [1, 4, 8, 4, 5, 8, 9, 9, 10],
    [4, 6, 9, 6, 6, 9, 9, 9, 10],
    [9, 10, 13, 9, 9, 11, 11, 10, 12],
    [4, 6, 10, 6, 7, 10, 10, 10, 12],
    [5, 7, 11, 6, 7, 10, 9, 9, 11],
    [9, 10, 13, 8, 9, 12, 10, 11, 12],
    [8, 10, 15, 9, 11, 15, 13, 14, 16],
    [8, 10, 14, 9, 10, 14, 12, 12, 15],
    [11, 12, 16, 10, 11, 15, 12, 12, 15]
  ]

  const BITS_4: seq<seq<nat>> := [
    [4, 5, 8, 5, 4, 8, 9, 8, 11],
    [5, 5, 8, 5, 4, 8, 8, 7, 10],
    [9, 8, 11, 8, 8, 10, 11, 10, 11],
    [4, 5, 8, 4, 4, 8, 8, 8, 10],
    [4, 4, 8, 4, 4, 7, 8, 7, 9],
    [8, 8, 10, 7, 7, 9, 10, 9, 10],
    [8, 8, 11, 8, 7, 10, 11, 10, 12],
    [8, 7, 10, 7, 7, 9, 10, 9, 11],
    [11, 10, 12, 10, 9, 11, 11, 10, 11]
  ]

  const BITS_5: seq<seq<nat>> := [
    [13, 12, 11, 11, 10, 11, 11, 12, 13],
    [12, 11, 10, 9, 8, 9, 10, 11, 12],
    [12, 10, 9, 8, 7, 8, 9, 10, 11],
    [11, 9, 8, 5, 4, 5, 8, 9, 11],
    [10, 8, 7, 4, 1, 4, 7, 8, 11],
    [11, 9, 8, 5, 4, 5, 8, 9, 11],
    [11, 10, 9, 8, 7, 8, 9, 10, 11],
    [12, 11, 10, 9, 8, 9, 10, 11, 12],
    [13, 12, 12, 11, 10, 10, 11, 12, 13]
  ]

  const BITS_6: seq<seq<nat>> := [
    [11, 10, 9, 9, 9, 9, 9, 10, 11],
    [10, 9, 8, 7, 7, 7, 8, 9, 10],
    [9, 8, 6, 6, 6, 6, 6, 8, 9],
    [9, 7, 6, 4, 4, 4, 6, 7, 9],
    [9, 7, 6, 4, 4, 4, 6, 7, 9],
    [9, 7, 6, 4, 4, 4, 6, 7, 9],
    [9, 8, 6, 6, 6, 6, 6, 8, 9],
    [10, 9, 8, 7, 7, 7, 7, 8, 10],
    [11, 10, 9, 9, 9, 9, 9, 10, 11]
  ]

  const BITS_7: seq<seq<nat>> := [
    [1, 3, 6, 7, 8, 9, 10, 11],
    [3, 4, 6, 7, 8, 8, 9, 9],
    [6, 6, 7, 8, 8, 9, 9, 10],
    [7, 7, 8, 8, 9, 9, 10, 10],
    [8, 8, 9, 9, 10, 10, 10, 11],
    [9, 8, 9, 9, 10, 10, 11, 11],
    [10, 9, 9, 10, 10, 11, 12, 12],
    [11, 10, 10, 10, 11, 11, 12, 12]
  ]

  const BITS_8: seq<seq<nat>> := [
    [5, 4, 5, 6, 7, 8, 9, 10],
    [4, 3, 4, 5, 6, 7, 7, 8],
    [5, 4, 4, 5, 6, 7, 7, 8],
    [6, 5, 5, 6, 6, 7, 8, 8],
    [7, 6, 6, 6, 7, 7, 8, 9],
    [8, 7, 6, 7, 7, 8, 8, 10],
    [9, 7, 7, 8, 8, 8, 9, 9],
    [10, 8, 8, 8, 9, 9, 9, 10]
  ]

  const BITS_9: seq<seq<nat>> := [
    [1, 3, 6, 8, 9, 10, 10, 11, 11, 12, 12, 13, 13],
    [3, 4, 6, 7, 8, 8, 9, 10, 10, 10, 11, 12, 12],
    [6, 6, 7, 8, 8, 9, 10, 10, 10, 11, 12, 12, 12],
    [8, 7, 8, 9, 9, 10, 10, 11, 11, 11, 12, 12, 13],
    [9, 8, 9, 9, 10, 10, 11, 11, 11, 12, 12, 12, 13],
    [10, 9, 9, 10, 11, 11, 11, 12, 11, 12, 12, 13, 13],
    [11, 9, 10, 11, 11, 11, 12, 12, 12, 12, 13, 13, 13],
    [11, 10, 10, 11, 11, 12, 12, 13, 13, 13, 13, 13, 13],
    [11, 10, 10, 11, 11, 11, 12, 12, 13, 13, 14, 13, 14],
    [11, 10, 11, 11, 12, 12, 12, 12, 13, 13, 14, 14, 14],
    [12, 11, 11, 12, 12, 12, 13, 13, 13, 14, 14, 14, 15],
    [12, 11, 12, 12, 12, 13, 13, 13, 13, 14, 14, 15, 15],
    [13, 12, 12, 12, 13, 13, 13, 13, 14, 14, 14, 14, 15]
  ]

  const BITS_10: seq<seq<nat>> := [
    [6, 5, 6, 6, 7, 8, 9, 10, 10, 10, 11, 11, 12],
    [5, 4, 4, 5, 6, 7, 7, 8, 8, 9, 10, 10, 11],
    [6, 4, 5, 5, 6, 6, 7, 8, 8, 9, 9, 10, 10],
    [6, 5, 5, 5, 6, 7, 7, 8, 8, 9, 9, 10, 10],
    [7, 6, 6, 6, 6, 7, 7, 8, 8, 9, 9, 10, 10],
    [8, 7, 6, 7, 7, 7, 8, 8, 8, 9, 10, 10, 11],
    [9, 7, 7, 7, 7, 8, 8, 9, 9, 9, 10, 10, 11],
    [9, 8, 8, 8, 8, 8, 9, 9, 9, 10, 10, 11, 11],
    [9, 8, 8, 8, 8, 8, 9, 9, 10, 10, 10, 11, 11],
    [10, 9, 9, 9, 9, 9, 9, 10, 10, 10, 11, 11, 12],
    [10, 9, 9, 9, 9, 10, 10, 10, 10, 11, 11, 11, 12],
    [11, 10, 9, 10, 10, 10, 10, 10, 11, 11, 11, 11, 12],
    [11, 10, 10, 10, 10, 10, 10, 11, 11, 12, 12, 12, 12]
  ]

  const BITS_11: seq<seq<nat>> := [
    [4, 5, 6, 7, 8, 8, 9, 10, 10, 10, 11, 11, 12, 11, 12, 12, 10],
    [5, 4, 5, 6, 7, 7, 8, 8, 9, 9, 9, 10, 10, 10, 10, 11, 8],
    [6, 5, 5, 6, 7, 7, 8, 8, 8, 9, 9, 9, 10, 10, 10, 10, 8],
    [7, 6, 6, 6, 7, 7, 8, 8, 8, 9, 9, 9, 10, 10, 10, 10, 8],
    [8, 7, 7, 7, 7, 8, 8, 8, 8, 9, 9, 9, 10, 10, 10, 10, 8],
    [8, 7, 7, 7, 7, 8, 8, 8, 9, 9, 9, 9, 10, 10, 10, 10, 8],
    [9, 8, 8, 8, 8, 8, 8, 8, 9, 9, 9, 10, 10, 10, 10, 10, 8],
    [9, 8, 8, 8, 8, 8, 8, 9, 9, 9, 10, 10, 10, 10, 10, 10, 8],
    [10, 9, 8, 8, 9, 9, 9, 9, 9, 10, 10, 10, 10, 10, 10, 11, 8],
    [10, 9, 9, 9, 9, 9, 9, 9, 10, 10, 10, 10, 10, 10, 11, 11, 8],
    [11, 9, 9, 9, 9, 9, 9, 10, 10, 10, 10, 10, 11, 10, 11, 11, 8],
    [11, 10, 9, 9, 10, 9, 10, 10, 10, 10, 10, 11, 11, 11, 11, 11, 8],
    [11, 10, 10, 10, 10, 10, 10, 10, 10, 10, 10, 11, 11, 11, 11, 11, 9],
    [11, 10, 9, 9, 10, 10, 10, 10, 10, 10, 11, 11, 11, 11, 11, 11, 9],
    [11, 10, 10, 10, 10, 10, 10, 10, 10, 10, 11, 11, 11, 11, 11, 11, 9],
    [12, 10, 10, 10, 10, 10, 10, 10, 11, 11, 11, 11, 11, 11, 12, 12, 9],
    [9, 8, 8, 8, 8, 8, 8, 8, 8, 8, 8, 8, 8, 8, 8, 9, 5]
  ]

  /** The codebooks that have code words. */
  type Book = b: nat | 1 <= b <= 11 witness 1

  const LARGEST_BOOK: Book := 11

  function CodeLengths(b: Book): seq<seq<nat>> {
    match b
    case 1 => BITS_1
    case 2 => BITS_2
    case 3 => BITS_3
    case 4 => BITS_4
    case 5 => BITS_5
    case 6 => BITS_6
    case 7 => BITS_7
    case 8 => BITS_8
    case 9 => BITS_9
    case 10 => BITS_10
    case 11 => BITS_11
  }

  /** `aac_cb_maxval`: the largest magnitude. */
  function MaxVal(b: Book): nat {
    if b <= 2 then 1 else if b <= 4 then 2 else if b <= 6 then 4 else if b <= 8 then 7 else if b <= 10 then 12 else 16
  }

  /** Whether signs are written behind the code word instead of being part of it. */
  predicate IsUnsigned(b: Book) {
    b == 3 || b == 4 || b >= 7
  }

  /** Whether the vectors are pairs; otherwise they are quadruples. */
  predicate IsPair(b: Book) {
    b >= 5
  }

  /** `aac_cb_range`. */
  function ValueRange(b: Book): nat {
    if IsUnsigned(b) then MaxVal(b) + 1 else 2 * MaxVal(b) + 1
  }

  function Side(b: Book): nat {
    if IsPair(b) then ValueRange(b) else ValueRange(b) * ValueRange(b)
  }

  lemma CodeLengthsFit(b: Book)
    ensures |CodeLengths(b)| == Side(b) && forall i :: 0 <= i < Side(b) ==> |CodeLengths(b)[i]| == Side(b)
  {
  }

  // ---------------------------------------------------------------- the bits of coefficients

  function Abs(x: int): nat {
    if x < 0 then -x else x
  }

  function Min(a: nat, b: nat): (r: nat)
    ensures r <= a && r <= b && (r == a || r == b)
  {
    if a < b then a else b
  }

  /** What stands for a coefficient in the index of the code word: larger magnitudes are cut. */
  function Symbol(b: Book, x: int): (r: nat)
    ensures r < ValueRange(b)
  {
    var m := Min(Abs(x), MaxVal(b));
    if IsUnsigned(b) then m else if x < 0 then MaxVal(b) - m else MaxVal(b) + m
  }

  /** The magnitude from which on the value follows the code word of codebook 11. */
  const ESCAPED: nat := 16

  const LARGEST_VALUE: nat := 8191

  function Log2(v: nat): nat {
    if v < 2 then 0 else 1 + Log2(v / 2)
  }

  /** The bits behind the code word: the escape of a magnitude of 13 bits at most, and a sign. */
  function ExtraBits(b: Book, x: int): int {
    (if b == LARGEST_BOOK && Abs(x) >= ESCAPED then 2 * Log2(Min(Abs(x), LARGEST_VALUE)) - 3 else 0)
    + if IsUnsigned(b) && x != 0 then 1 else 0
  }

  function CodeLength(b: Book, row: nat, column: nat): nat
    requires row < Side(b) && column < Side(b)
  {
    CodeLengthsFit(b);
    CodeLengths(b)[row][column]
  }

  function PairBits(b: Book, x: int, y: int): int
    requires IsPair(b)
  {
    CodeLength(b, Symbol(b, x), Symbol(b, y)) + ExtraBits(b, x) + ExtraBits(b, y)
  }

  /** The index of two coefficients of a quadruple. */
  function HalfIndex(b: Book, x: int, y: int): (r: nat)
    requires !IsPair(b)
    ensures r < Side(b)
  {
    Symbol(b, x) * 3 + Symbol(b, y)
  }

  function QuadBits(b: Book, x: int, y: int, z: int, w: int): int
    requires !IsPair(b)
  {
    CodeLength(b, HalfIndex(b, x, y), HalfIndex(b, z, w))
    + ExtraBits(b, x) + ExtraBits(b, y) + ExtraBits(b, z) + ExtraBits(b, w)
  }

  /** The bits of quantised coefficients under a codebook number of the standard; only 1 to 11 take any. */
  function BookBits(cb: nat, q: seq<int>): int
    decreases |q|
  {
    if cb == 0 || cb > LARGEST_BOOK || |q| < 2 then 0
    else if IsPair(cb) then PairBits(cb, q[0], q[1]) + BookBits(cb, q[2..])
    else if |q| < 4 then 0
    else QuadBits(cb, q[0], q[1], q[2], q[3]) + BookBits(cb, q[4..])
  }

  // ---------------------------------------------------------------- codebook 11 is never too dear

  lemma LongestOfEleven(i: nat, j: nat)
    requires i < 17 && j < 17
    ensures |BITS_11| == 17 && |BITS_11[i]| == 17 && BITS_11[i][j] <= 12
  {
    var row := BITS_11[i];
    assert |row| == 17;
  }

  lemma {:induction false} Log2Below(v: nat, k: nat)
    requires v < Pow2(k + 1)
    ensures Log2(v) <= k
    decreases k
  {
    if v >= 2 {
      assert Pow2(k + 1) == 2 * Pow2(k);
      Log2Below(v / 2, k - 1);
    }
  }

  lemma {:induction false} ExtraBitsAreFew(b: Book, x: int)
    ensures ExtraBits(b, x) <= 22
  {
    assert Pow2(13) == 8192;
    Log2Below(Min(Abs(x), LARGEST_VALUE), 12);
  }

  /** Codebook 11 takes at most 28 bits for a coefficient. */
  lemma {:induction false} EscapeBookIsAffordable(q: seq<int>)
    ensures BookBits(LARGEST_BOOK, q) <= 28 * |q|
    decreases |q|
  {
    if |q| >= 2 {
      LongestOfEleven(Symbol(LARGEST_BOOK, q[0]), Symbol(LARGEST_BOOK, q[1]));
      ExtraBitsAreFew(LARGEST_BOOK, q[0]);
      ExtraBitsAreFew(LARGEST_BOOK, q[1]);
      EscapeBookIsAffordable(q[2..]);
    }
  }
}
