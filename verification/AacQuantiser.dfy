/**
  What the codebook search of the AAC encoder can be given: the bits of quantised coefficients under
  every codebook, for the bands of a window group, and the codebook that the quantiser has chosen.
 */
module AacQuantiser {
  import opened Wrappers
  import opened AacSections
  import opened AacCodewords
  import opened AacBandSizes
  import opened AacTrellis

  /** The bits of the band are those of the quantised coefficients q under each codebook that it may use. */
  ghost predicate Quantised(b: BandInput, q: seq<int>) {
    b.zero || forall cb: Cb {:trigger BookBits(CB_OUT_MAP[cb], q)} :: Allowed(b, cb) ==> BitsOf(b, cb) == BookBits(CB_OUT_MAP[cb], q)
  }

  /** The codebook for a largest magnitude: `aac_maxval_cb`, and codebook 11 behind its end. */
  function MinBook(m: nat): nat {
    if m >= 14 then 11 else [0, 1, 3, 5, 5, 7, 7, 7, 9, 9, 9, 9, 9, 11][m]
  }

  function Largest(q: seq<int>): (r: nat)
    ensures forall x :: x in q ==> Abs(x) <= r
    ensures q != [] ==> exists x :: x in q && Abs(x) == r
  {
    if q == [] then 0
    else
      var rest := Largest(q[1..]);
      if Abs(q[0]) > rest then Abs(q[0]) else rest
  }

  /** A band type as the quantiser sets it; bands of noise, intensity stereo and prediction are left aside. */
  predicate Chosen(b: BandInput, q: seq<int>) {
    b.zero || b.bandType == MinBook(Largest(q))
  }

  /**
    The bands of a group of windows: the coefficients of a band are those of all windows of the
    group, and there are as many of them as the band has in each window.
   */
  ghost predicate Grouped(bands: seq<BandInput>, quants: seq<seq<int>>, sizes: seq<nat>, windows: nat) {
    && |quants| == |bands| <= |sizes|
    && forall p {:trigger quants[p]} :: 0 <= p < |bands| ==>
         Quantised(bands[p], quants[p]) && |quants[p]| == sizes[p] * windows
  }

  predicate AllChosen(bands: seq<BandInput>, quants: seq<seq<int>>) {
    |quants| == |bands| && forall p {:trigger quants[p]} :: 0 <= p < |bands| ==> Chosen(bands[p], quants[p])
  }

  /** Bands of a window group, with any band types. */
  ghost predicate FromFrame(bands: seq<BandInput>, n: Width, rate: Rate) {
    exists quants: seq<seq<int>>, windows: nat ::
      1 <= windows <= Windows(n) && Grouped(bands, quants, BandSizes(n, rate), windows)
  }

  /** Bands of a window group, with the band types that the quantiser chooses. */
  ghost predicate FromCoder(bands: seq<BandInput>, n: Width, rate: Rate) {
    exists quants: seq<seq<int>>, windows: nat ::
      1 <= windows <= Windows(n) && Grouped(bands, quants, BandSizes(n, rate), windows) && AllChosen(bands, quants)
  }

  /** The number of coefficients. */
  function Coefficients(quants: seq<seq<int>>): nat {
    if quants == [] then 0 else Coefficients(quants[..|quants| - 1]) + |quants[|quants| - 1]|
  }

  lemma {:induction false} GroupedCoefficients(bands: seq<BandInput>, quants: seq<seq<int>>, sizes: seq<nat>, windows: nat)
    requires Grouped(bands, quants, sizes, windows)
    ensures Coefficients(quants) == Sum(sizes[..|bands|]) * windows
  {
    if bands != [] {
      var k := |bands| - 1;
      GroupedCoefficients(bands[..k], quants[..k], sizes, windows);
      assert sizes[..|bands|][..k] == sizes[..k];
    }
  }

  /** A group has at most the coefficients of a frame. */
  lemma {:induction false} FewCoefficients(bands: seq<BandInput>, quants: seq<seq<int>>, n: Width, rate: Rate, windows: nat)
    requires windows <= Windows(n) && Grouped(bands, quants, BandSizes(n, rate), windows)
    ensures Coefficients(quants) <= FRAME_COEFFICIENTS && |bands| < TableEnd(n)
  {
    GroupedCoefficients(bands, quants, BandSizes(n, rate), windows);
    BandsFillWindow(n, rate);
    SumOfFront(BandSizes(n, rate), |bands|);
    Product(Sum(BandSizes(n, rate)[..|bands|]), Sum(BandSizes(n, rate)), windows, Windows(n));
  }

  lemma Product(a: nat, b: nat, c: nat, d: nat)
    requires a <= b && c <= d
    ensures a * c <= b * d
  {
    assert a * c <= b * c <= b * d;
  }

  // ---------------------------------------------------------------- bands of pairs

  /** Bands of a single window, with the band types that the quantiser chooses. */
  ghost predicate InWindow(bands: seq<BandInput>, quants: seq<seq<int>>, sizes: seq<nat>) {
    Grouped(bands, quants, sizes, 1) && AllChosen(bands, quants)
  }

  lemma {:induction false} OneMoreBand(bands: seq<BandInput>, quants: seq<seq<int>>, b: BandInput, q: seq<int>, sizes: seq<nat>)
    requires InWindow(bands, quants, sizes) && |bands| < |sizes|
    requires Quantised(b, q) && Chosen(b, q) && |q| == sizes[|bands|]
    ensures InWindow(bands + [b], quants + [q], sizes) && Coefficients(quants + [q]) == Coefficients(quants) + |q|
  {
    assert (quants + [q])[..|quants|] == quants;
  }

  const ZERO_BAND: BandInput := BandData(true, 0, Repeat(0, 15))

  lemma {:induction false} MoreZeroBands(bands: seq<BandInput>, quants: seq<seq<int>>, sizes: seq<nat>, k: nat)
    returns (more: seq<seq<int>>)
    requires InWindow(bands, quants, sizes) && |bands| + k <= |sizes|
    ensures InWindow(bands + Repeat(ZERO_BAND, k), more, sizes)
    decreases k
  {
    if k == 0 {
      more := quants;
      assert bands + Repeat(ZERO_BAND, k) == bands;
    } else {
      more := MoreZeroBands(bands, quants, sizes, k - 1);
      var q := Repeat(0, sizes[|bands| + k - 1]);
      OneMoreBand(bands + Repeat(ZERO_BAND, k - 1), more, ZERO_BAND, q, sizes);
      assert bands + Repeat(ZERO_BAND, k - 1) + [ZERO_BAND] == bands + Repeat(ZERO_BAND, k);
      more := more + [q];
    }
  }

  /** A pair of coefficients, several times. */
  function Pairs(x: int, y: int, count: nat): (q: seq<int>)
    ensures |q| == 2 * count && (count > 0 ==> q[0] == x) && forall z :: z in q ==> z == x || z == y
  {
    if count == 0 then [] else [x, y] + Pairs(x, y, count - 1)
  }

  lemma {:induction false} PairsBits(b: Book, x: int, y: int, count: nat, rest: seq<int>)
    requires IsPair(b)
    ensures BookBits(b, Pairs(x, y, count) + rest) == count * PairBits(b, x, y) + BookBits(b, rest)
  {
    if count == 0 {
      assert Pairs(x, y, count) + rest == rest;
    } else {
      var more := Pairs(x, y, count - 1) + rest;
      PairsBits(b, x, y, count - 1, rest);
      Associative([x, y], Pairs(x, y, count - 1), rest);
      assert ([x, y] + more)[2..] == more;
      OneMore(count, PairBits(b, x, y));
    }
  }

  lemma OneMore(count: nat, x: int)
    requires count > 0
    ensures count * x == x + (count - 1) * x
  {
  }

  lemma {:induction false} OnlyPairsBits(b: Book, x: int, y: int, count: nat)
    requires IsPair(b)
    ensures BookBits(b, Pairs(x, y, count)) == count * PairBits(b, x, y)
  {
    var none: seq<int> := [];
    PairsBits(b, x, y, count, none);
    assert Pairs(x, y, count) + none == Pairs(x, y, count);
  }

  /** Pairs of two kinds. */
  lemma {:induction false} TwoKindsBits(b: Book, x: int, y: int, count: nat, x': int, y': int, count': nat, c: int, c': int, sum: int)
    requires IsPair(b) && PairBits(b, x, y) == c && PairBits(b, x', y') == c' && count * c + count' * c' == sum
    ensures BookBits(b, Pairs(x, y, count) + Pairs(x', y', count')) == sum
  {
    PairsBits(b, x, y, count, Pairs(x', y', count'));
    OnlyPairsBits(b, x', y', count');
  }

  lemma LargestIs(q: seq<int>, m: nat)
    requires q != [] && Abs(q[0]) == m && forall x :: x in q ==> Abs(x) <= m
    ensures Largest(q) == m
  {
    assert q[0] in q;
  }

  /** The coefficients of k pairs, d of which take a bit more in codebook 11 than the others. */
  function MixedValues(d: nat, k: nat): (q: seq<int>)
    requires d <= k
    ensures |q| == 2 * k && (k > 0 ==> q[0] == 8) && forall x :: x in q ==> x in {1, 2, 8}
  {
    Pairs(8, 1, d) + Pairs(8, 2, k - d)
  }

  /** A band of largest magnitude 8: codebook 9 is chosen, and codebook 10 is the best for it. */
  function MixedBand(d: nat, k: nat): BandInput {
    BandData(false, 9, Repeat(0, 9) + [MixedSum(9, d, k), MixedSum(10, d, k), MixedSum(11, d, k), 0, 0, 0])
  }

  lemma MixedCosts(b: Book)
    requires b >= 9
    ensures PairBits(b, 8, 1) == if b == 9 then 12 else b
    ensures PairBits(b, 8, 2) == if b == 9 then 12 else 10
  {
  }

  /** The bits of a mixed band under codebooks 9, 10 and 11. */
  function MixedSum(b: Book, d: nat, k: nat): nat {
    if b == 9 then 12 * k else if b == 10 then 10 * k else 10 * k + d
  }

  lemma {:induction false} MixedPairs(b: Book, d: nat, k: nat, c: int, c': int, sum: int)
    requires d <= k && IsPair(b) && PairBits(b, 8, 1) == c && PairBits(b, 8, 2) == c' && d * c + (k - d) * c' == sum
    ensures BookBits(b, MixedValues(d, k)) == sum
  {
    TwoKindsBits(b, 8, 1, d, 8, 2, k - d, c, c', sum);
  }

  lemma {:induction false} MixedInNine(b: Book, d: nat, k: nat)
    requires d <= k && IsPair(b) && PairBits(b, 8, 1) == 12 && PairBits(b, 8, 2) == 12
    ensures BookBits(b, MixedValues(d, k)) == 12 * k
  {
    MixedPairs(b, d, k, 12, 12, 12 * k);
  }

  lemma {:induction false} MixedInTen(b: Book, d: nat, k: nat)
    requires d <= k && IsPair(b) && PairBits(b, 8, 1) == 10 && PairBits(b, 8, 2) == 10
    ensures BookBits(b, MixedValues(d, k)) == 10 * k
  {
    MixedPairs(b, d, k, 10, 10, 10 * k);
  }

  lemma {:induction false} MixedInEleven(b: Book, d: nat, k: nat)
    requires d <= k && IsPair(b) && PairBits(b, 8, 1) == 11 && PairBits(b, 8, 2) == 10
    ensures BookBits(b, MixedValues(d, k)) == 10 * k + d
  {
    MixedPairs(b, d, k, 11, 10, 10 * k + d);
  }

  lemma {:induction false} MixedBits(b: Book, d: nat, k: nat)
    requires d <= k && b >= 9
    ensures BookBits(b, MixedValues(d, k)) == MixedSum(b, d, k)
  {
    MixedCosts(b);
    if b == 9 {
      MixedInNine(b, d, k);
    } else if b == 10 {
      MixedInTen(b, d, k);
    } else {
      MixedInEleven(b, d, k);
    }
  }

  lemma MixedAllows(d: nat, k: nat)
    ensures forall cb: Cb :: Allowed(MixedBand(d, k), cb) <==> 9 <= cb <= 11
    ensures BitsOf(MixedBand(d, k), 9) == 12 * k && BitsOf(MixedBand(d, k), 10) == 10 * k
    ensures BitsOf(MixedBand(d, k), 11) == 10 * k + d
  {
  }

  lemma {:induction false} MixedIsQuantised(d: nat, k: nat)
    requires d <= k && k > 0
    ensures Quantised(MixedBand(d, k), MixedValues(d, k)) && Chosen(MixedBand(d, k), MixedValues(d, k))
  {
    MixedAllows(d, k);
    forall cb: Cb | Allowed(MixedBand(d, k), cb) ensures BitsOf(MixedBand(d, k), cb) == BookBits(CB_OUT_MAP[cb], MixedValues(d, k)) {
      MixedBits(cb, d, k);
      assert CB_OUT_MAP[cb] == cb;
    }
    LargestIs(MixedValues(d, k), 8);
  }

  /** A band of k pairs of largest magnitude 13, for codebook 11 alone. */
  function ElevenBand(k: nat): BandInput {
    BandData(false, 11, Repeat(0, 11) + [12 * k, 0, 0, 0])
  }

  lemma ElevenAllows(k: nat)
    ensures forall cb: Cb :: Allowed(ElevenBand(k), cb) <==> cb == 11
    ensures BitsOf(ElevenBand(k), 11) == 12 * k
  {
  }

  lemma ElevenCosts()
    ensures PairBits(11, 13, 0) == 12
  {
  }

  lemma {:induction false} ElevenIsQuantised(k: nat)
    requires k > 0
    ensures Quantised(ElevenBand(k), Pairs(13, 0, k)) && Chosen(ElevenBand(k), Pairs(13, 0, k))
  {
    ElevenAllows(k);
    ElevenCosts();
    OnlyPairsBits(11, 13, 0, k);
    LargestIs(Pairs(13, 0, k), 13);
  }
}
