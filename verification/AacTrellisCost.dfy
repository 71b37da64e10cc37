/**
  What the codebook search of the AAC encoder costs: the bits that are written for the path it
  finds, the paths it misses, and the inputs for which it finds one.
 */
module AacTrellisCost {
  import opened Wrappers
  import opened AacSections
  import opened AacBandSizes
  import opened AacTrellis
  import opened AacQuantiser

  // ---------------------------------------------------------------- the cost of what is written

  /** The sections with the codebook numbers of the standard. */
  function Coded(secs: seq<Section>): (r: seq<Section>)
    requires forall i :: 0 <= i < |secs| ==> secs[i].cb < CB_TOT_ALL
    ensures |r| == |secs|
  {
    seq(|secs|, i requires 0 <= i < |secs| => Section(CB_OUT_MAP[secs[i].cb], secs[i].len))
  }

  /** The bits of the coefficients. */
  function Spectral(secs: seq<Section>, bands: seq<BandInput>): nat
    requires Covers(secs, bands)
  {
    if secs == [] then 0
    else
      var s := secs[|secs| - 1];
      var k := |bands| - s.len;
      Spectral(secs[..|secs| - 1], bands[..k]) + SumBits(bands[k..], s.cb)
  }

  /** The bits that the search does not count: one field for every run of exactly two escapes. */
  function Missed(secs: seq<Section>, n: Width): nat {
    if secs == [] then 0
    else Missed(secs[..|secs| - 1], n) + if secs[|secs| - 1].len == 2 * Esc(n) then n else 0
  }

  lemma {:induction false} MissedNothing(secs: seq<Section>, n: Width)
    ensures Missed(secs, n) == 0 <==> forall i :: 0 <= i < |secs| ==> secs[i].len != 2 * Esc(n)
  {
    if secs != [] {
      MissedNothing(secs[..|secs| - 1], n);
    }
  }

  lemma {:induction false} CoveredCodebooks(secs: seq<Section>, bands: seq<BandInput>)
    requires Covers(secs, bands)
    ensures forall i :: 0 <= i < |secs| ==> secs[i].cb < CB_TOT_ALL && 1 <= secs[i].len <= |bands|
  {
    if secs != [] {
      CoveredCodebooks(secs[..|secs| - 1], bands[..|bands| - secs[|secs| - 1].len]);
      assert forall i :: 0 <= i < |secs| - 1 ==> secs[i] == secs[..|secs| - 1][i];
    }
  }

  lemma {:induction false} SectionsCodeLast(secs: seq<Section>, s: Section, n: Width)
    ensures SectionsCode(secs + [s], n) == SectionsCode(secs, n) + SectionCode(s, n)
    ensures Length(secs + [s]) == Length(secs) + s.len
  {
    if secs == [] {
      assert secs + [s] == [s] && [s][1..] == [];
      assert SectionsCode([s], n) == SectionCode(s, n) + SectionsCode([], n);
      assert SectionCode(s, n) + [] == SectionCode(s, n);
    } else {
      assert (secs + [s])[1..] == secs[1..] + [s];
      SectionsCodeLast(secs[1..], s, n);
      Associative(SectionCode(secs[0], n), SectionsCode(secs[1..], n), SectionCode(s, n));
    }
  }

  /** A path is a partition of the bands into runs that can be written. */
  lemma {:induction false} CoversIsPartition(secs: seq<Section>, bands: seq<BandInput>)
    requires Covers(secs, bands)
    requires forall i :: 0 <= i < |secs| ==> secs[i].cb < CB_TOT_ALL
    ensures Partition(Coded(secs), |bands|)
  {
    if secs != [] {
      var s := secs[|secs| - 1];
      var front := secs[..|secs| - 1];
      CoversIsPartition(front, bands[..|bands| - s.len]);
      var c := Section(CB_OUT_MAP[s.cb], s.len);
      assert Coded(secs) == Coded(front) + [c];
      SectionsCodeLast(Coded(front), c, 3);
      assert Writable(c);
    }
  }

  lemma {:induction false} SectionCodeLength(cb: Cb, len: nat, n: Width)
    requires len < TableEnd(n)
    ensures |SectionCode(Section(CB_OUT_MAP[cb], len), n)| == 4 + TableBits(len, n) + if len == 2 * Esc(n) then n else 0
  {
    RunCodeLength(len, n);
    TablesAreRunBits(len, n);
  }

  /** The cost of a path, and the bits that are really written for it. */
  lemma {:induction false} CostOfWriting(secs: seq<Section>, bands: seq<BandInput>, n: Width)
    requires Covers(secs, bands) && |bands| < TableEnd(n)
    requires forall i :: 0 <= i < |secs| ==> secs[i].cb < CB_TOT_ALL
    ensures |SectionsCode(Coded(secs), n)| + Spectral(secs, bands) == PathCost(secs, bands, n) + Missed(secs, n)
  {
    if secs != [] {
      var s := secs[|secs| - 1];
      var front := secs[..|secs| - 1];
      CostOfWriting(front, bands[..|bands| - s.len], n);
      CodeOfLast(secs, n);
      SectionCodeLength(s.cb, s.len, n);
    }
  }

  lemma {:induction false} CodeOfLast(secs: seq<Section>, n: Width)
    requires secs != [] && forall i :: 0 <= i < |secs| ==> secs[i].cb < CB_TOT_ALL
    ensures var s := secs[|secs| - 1]; var front := secs[..|secs| - 1];
            |SectionsCode(Coded(secs), n)| == |SectionsCode(Coded(front), n)| + |SectionCode(Section(CB_OUT_MAP[s.cb], s.len), n)|
  {
    var s := secs[|secs| - 1];
    var front := secs[..|secs| - 1];
    var c := Section(CB_OUT_MAP[s.cb], s.len);
    assert Coded(secs) == Coded(front) + [c];
    SectionsCodeLast(Coded(front), c, n);
  }

  /** The end that the search chooses: the first cheapest cell of the last row. */
  predicate IsEnd(row: Row, end: Cb) {
    forall cb: Cb :: row[end].cost <= row[cb].cost && (cb < end ==> row[end].cost < row[cb].cost)
  }

  /** The sections found by going back from a cell of the last row. */
  function Found(bands: seq<BandInput>, n: Width, end: Cb): seq<Section> {
    Backtrack(Trellis(bands, n).0, |bands|, end)
  }

  /** Going back from a cell of the last row comes to its end. */
  predicate Reaches(bands: seq<BandInput>, n: Width, end: Cb) {
    Rooted(Trellis(bands, n).0, |bands|, end)
  }

  /**
    The path found by going back: runs of at least one band that partition the bands, with
    codebooks that the bands may use; the cost of the cell is the number of bits of the section
    data and of the coefficients, short of one field per run of exactly two escapes; and the
    decoder reads the section data back to the codebook and run end of every band. Without bands
    the path is empty, and so is what is written.
   */
  lemma {:induction false} PathIsWrittenAndRead(bands: seq<BandInput>, n: Width, end: Cb, rest: seq<bool>)
    requires |bands| < TableEnd(n) && Reaches(bands, n, end)
    ensures var secs := Found(bands, n, end);
            && Covers(secs, bands)
            && (forall i :: 0 <= i < |secs| ==> secs[i].cb < CB_TOT_ALL)
            && Partition(Coded(secs), |bands|)
            && (if bands == [] then 0 else Trellis(bands, n).0[|bands|][end].cost) + Missed(secs, n)
               == |SectionsCode(Coded(secs), n)| + Spectral(secs, bands)
            && ReadGroup(SectionsCode(Coded(secs), n) + rest, 0, |bands|, n, []) == Some((Bands(Coded(secs), 0), rest))
  {
    var secs := Found(bands, n, end);
    FoundPath(bands, n, end);
    CoveredCodebooks(secs, bands);
    CoversIsPartition(secs, bands);
    CostOfWriting(secs, bands, n);
    GroupRoundTrip(Coded(secs), 0, |bands|, n, [], rest);
    assert [] + Bands(Coded(secs), 0) == Bands(Coded(secs), 0);
  }

  lemma {:induction false} FoundPath(bands: seq<BandInput>, n: Width, end: Cb)
    requires |bands| < TableEnd(n) && Reaches(bands, n, end)
    ensures Covers(Found(bands, n, end), bands)
    ensures PathCost(Found(bands, n, end), bands, n) == if bands == [] then 0 else Trellis(bands, n).0[|bands|][end].cost
  {
    var (rows, bests) := Trellis(bands, n);
    TrellisIsFilled(bands, n);
    RootedIsSound(rows, bests, bands, n, |bands|, end);
    assert bands[..|bands|] == bands;
  }

  /** The cost of the path is the number of bits that are written for it. */
  predicate CostIsExact(bands: seq<BandInput>, n: Width, end: Cb) {
    var secs := Found(bands, n, end);
    && Covers(secs, bands) && (forall i :: 0 <= i < |secs| ==> secs[i].cb < CB_TOT_ALL)
    && Trellis(bands, n).0[|bands|][end].cost == |SectionsCode(Coded(secs), n)| + Spectral(secs, bands)
  }

  /** Which paths have an exact cost: those without a run of exactly two escapes. */
  lemma CostIsExactIff(bands: seq<BandInput>, n: Width, end: Cb)
    requires 0 < |bands| < TableEnd(n) && Reaches(bands, n, end)
    ensures var secs := Found(bands, n, end);
            CostIsExact(bands, n, end) <==> forall i :: 0 <= i < |secs| ==> secs[i].len != 2 * Esc(n)
  {
    PathIsWrittenAndRead(bands, n, end, []);
    MissedNothing(Found(bands, n, end), n);
  }

  lemma FewBandsAreExact(bands: seq<BandInput>, n: Width, end: Cb)
    requires 0 < |bands| < 2 * Esc(n) && Reaches(bands, n, end)
    ensures CostIsExact(bands, n, end)
  {
    FoundPath(bands, n, end);
    CoveredCodebooks(Found(bands, n, end), bands);
    CostIsExactIff(bands, n, end);
  }

  // ---------------------------------------------------------------- bands for which the cost is wrong

  /** The trellis ends with k zero bands in one run, which started at cost `first`. */
  ghost predicate ZeroRun(bands: seq<BandInput>, n: Width, first: nat, k: nat)
    requires k < TableEnd(n)
  {
    var (rows, bests) := Trellis(bands, n);
    var row := rows[|bands|];
    var cost := first + TableBits(k, n) - n;
    && row[0].cost == cost && row[0].run == k
    && (forall cb: Cb :: cb > 0 ==> row[cb] == NO_PATH)
    && bests[|bands|] == Best(Some(cost), 0)
  }

  lemma {:induction false} LastRow(bands: seq<BandInput>, b: BandInput, n: Width)
    ensures var (rows, bests) := Trellis(bands, n);
            var (rows', bests') := Trellis(bands + [b], n);
            && rows'[|bands| + 1] == NextRow(rows[|bands|], b, bests[|bands|], n)
            && bests'[|bands| + 1] == Least(rows'[|bands| + 1], b, CB_TOT_ALL)
  {
    assert (bands + [b])[..|bands|] == bands;
  }

  /** The only allowed cell is the least one. */
  lemma {:induction false} OnlyOneAllowed(row: Row, b: BandInput, only: Cb, m: nat)
    requires m <= CB_TOT_ALL && forall cb: Cb :: Allowed(b, cb) <==> cb == only
    ensures Least(row, b, m) == if only < m then Best(Some(row[only].cost), only) else Best(None, 0)
  {
    if m > 0 {
      OnlyOneAllowed(row, b, only, m - 1);
    }
  }

  lemma {:induction false} MoreZeros(bands: seq<BandInput>, n: Width, first: nat, k: nat)
    requires 1 <= k && k + 1 < TableEnd(n) && ZeroRun(bands, n, first, k)
    ensures ZeroRun(bands + [ZERO_BAND], n, first, k + 1)
  {
    LastRow(bands, ZERO_BAND, n);
    TableGrows(k, n);
    OnlyOneAllowed(Trellis(bands + [ZERO_BAND], n).0[|bands| + 1], ZERO_BAND, 0, CB_TOT_ALL);
  }

  lemma {:induction false} ManyZeros(bands: seq<BandInput>, n: Width, first: nat, k: nat)
    requires 1 <= k < TableEnd(n) && ZeroRun(bands + [ZERO_BAND], n, first, 1)
    ensures ZeroRun(bands + Repeat(ZERO_BAND, k), n, first, k)
  {
    if k == 1 {
      assert Repeat(ZERO_BAND, k) == [ZERO_BAND];
    } else {
      ManyZeros(bands, n, first, k - 1);
      MoreZeros(bands + Repeat(ZERO_BAND, k - 1), n, first, k - 1);
      assert bands + Repeat(ZERO_BAND, k - 1) + [ZERO_BAND] == bands + Repeat(ZERO_BAND, k);
    }
  }

  lemma {:induction false} FirstZero(n: Width)
    ensures ZeroRun([] + [ZERO_BAND], n, n + 4, 1)
  {
    LastRow([], ZERO_BAND, n);
    TableGrows(0, n);
    OnlyOneAllowed(Trellis([] + [ZERO_BAND], n).0[1], ZERO_BAND, 0, CB_TOT_ALL);
  }

  /** The trellis ends with a run of k bands of codebook 11 alone. */
  ghost predicate ElevenRow(row: Row, best: Best, cost: nat, k: nat) {
    row[11].cost == cost && row[11].run == k && (forall cb: Cb :: cb != 11 ==> row[cb] == NO_PATH) && best == Best(Some(cost), 11)
  }

  ghost predicate EndsEleven(bands: seq<BandInput>, n: Width, cost: nat, k: nat) {
    ElevenRow(Trellis(bands, n).0[|bands|], Trellis(bands, n).1[|bands|], cost, k)
  }

  lemma {:induction false} FirstEleven(n: Width, k: nat)
    ensures EndsEleven([] + [ElevenBand(k)], n, n + 4 + 12 * k, 1)
  {
    LastRow([], ElevenBand(k), n);
    ElevenAllows(k);
    TableGrows(0, n);
    OnlyOneAllowed(Trellis([] + [ElevenBand(k)], n).0[1], ElevenBand(k), 11, CB_TOT_ALL);
  }

  lemma {:induction false} ZeroBehindEleven(bands: seq<BandInput>, n: Width, cost: nat, k: nat)
    requires cost < 60000 && EndsEleven(bands, n, cost, k)
    ensures ZeroRun(bands + [ZERO_BAND], n, cost + n + 4, 1)
  {
    LastRow(bands, ZERO_BAND, n);
    TableGrows(0, n);
    OnlyOneAllowed(Trellis(bands + [ZERO_BAND], n).0[|bands| + 1], ZERO_BAND, 0, CB_TOT_ALL);
  }

  /** A run of exactly two escapes at the end. */
  lemma {:induction false} RunOfTwoEscapes(bands: seq<BandInput>, n: Width, first: nat)
    requires 0 < |bands| < TableEnd(n) && first < 60000 && ZeroRun(bands, n, first, 2 * Esc(n))
    ensures IsEnd(Trellis(bands, n).0[|bands|], 0) && Reaches(bands, n, 0) && !CostIsExact(bands, n, 0)
  {
    var (rows, bests) := Trellis(bands, n);
    TrellisIsFilled(bands, n);
    CheapIsRooted(rows, bests, bands, n, |bands|, 0);
    CostIsExactIff(bands, n, 0);
    var secs := Found(bands, n, 0);
    assert secs[|secs| - 1].len == 2 * Esc(n);
  }

  /** Two escapes of zero bands. */
  lemma {:induction false} ZerosAreInexact(none: seq<BandInput>, no: seq<seq<int>>, n: Width, rate: Rate) returns (bands: seq<BandInput>)
    requires none == [] && no == [] && 2 * Esc(n) <= |BandSizes(n, rate)|
    ensures |bands| == 2 * Esc(n) && FromCoder(bands, n, rate)
    ensures IsEnd(Trellis(bands, n).0[|bands|], 0) && Reaches(bands, n, 0) && !CostIsExact(bands, n, 0)
  {
    bands := none + Repeat(ZERO_BAND, 2 * Esc(n));
    var quants := MoreZeroBands(none, no, BandSizes(n, rate), 2 * Esc(n));
    FirstZero(n);
    ManyZeros(none, n, n + 4, 2 * Esc(n));
    RunOfTwoEscapes(bands, n, n + 4);
  }

  lemma {:induction false} ZerosBehindEleven(one: seq<BandInput>, n: Width, k: nat)
    requires one == [ElevenBand(k)] && k < 1000
    ensures ZeroRun(one + Repeat(ZERO_BAND, 2 * Esc(n)), n, n + 4 + 12 * k + n + 4, 2 * Esc(n))
  {
    assert [] + [ElevenBand(k)] == one;
    FirstEleven(n, k);
    ZeroBehindEleven(one, n, n + 4 + 12 * k, 1);
    ManyZeros(one, n, n + 4 + 12 * k + n + 4, 2 * Esc(n));
  }

  /** Two escapes of zero bands behind a band of codebook 11. */
  lemma {:induction false} MoreAreInexact(none: seq<BandInput>, no: seq<seq<int>>, n: Width, rate: Rate, k: nat) returns (bands: seq<BandInput>)
    requires none == [] && no == [] && 2 * Esc(n) + 1 <= |BandSizes(n, rate)| && 0 < k < 1000 && BandSizes(n, rate)[0] == 2 * k
    ensures |bands| == 2 * Esc(n) + 1 && FromCoder(bands, n, rate)
    ensures IsEnd(Trellis(bands, n).0[|bands|], 0) && Reaches(bands, n, 0) && !CostIsExact(bands, n, 0)
  {
    var sizes, one := BandSizes(n, rate), none + [ElevenBand(k)];
    ElevenIsQuantised(k);
    OneMoreBand(none, no, ElevenBand(k), Pairs(13, 0, k), sizes);
    bands := one + Repeat(ZERO_BAND, 2 * Esc(n));
    var quants := MoreZeroBands(one, no + [Pairs(13, 0, k)], sizes, 2 * Esc(n));
    ZerosBehindEleven(one, n, k);
    RunOfTwoEscapes(bands, n, n + 4 + 12 * k + n + 4);
  }

  /**
    As many bands as two escapes, or more: quantised coefficients with the codebooks that are chosen
    for them, for which the search takes its best path to cost a field less than is written.
   */
  lemma {:induction false} BandsAreInexact(m: nat, n: Width, rate: Rate) returns (bands: seq<BandInput>)
    requires 2 * Esc(n) <= m <= |BandSizes(n, rate)|
    ensures |bands| == m && FromCoder(bands, n, rate)
    ensures IsEnd(Trellis(bands, n).0[m], 0) && Reaches(bands, n, 0) && !CostIsExact(bands, n, 0)
  {
    BandsFillWindow(n, rate);
    if m == 2 * Esc(n) {
      bands := ZerosAreInexact([], [], n, rate);
    } else {
      SumOfFront(BandSizes(n, rate), 1);
      bands := MoreAreInexact([], [], n, rate, BandSizes(n, rate)[0] / 2);
    }
  }

  /**
    The number of bands decides: with fewer than two escapes of them the cost of the chosen path
    is always the number of bits written, and with any larger number that the sampling rate has it
    is not for some quantised coefficients. That takes short windows with 14 or 15 bands; the bands
    of long windows are never so many.
   */
  lemma {:induction false} ExactIffFewBands(m: nat, n: Width, rate: Rate)
    requires 0 < m <= |BandSizes(n, rate)|
    ensures m < 2 * Esc(n) <==>
            forall bands: seq<BandInput>, end: Cb ::
              |bands| == m && FromCoder(bands, n, rate) && IsEnd(Trellis(bands, n).0[m], end) && Reaches(bands, n, end) ==>
                CostIsExact(bands, n, end)
  {
    if m < 2 * Esc(n) {
      forall bands: seq<BandInput>, end: Cb | |bands| == m && Reaches(bands, n, end) ensures CostIsExact(bands, n, end) {
        FewBandsAreExact(bands, n, end);
      }
    } else {
      var bands := BandsAreInexact(m, n, rate);
    }
  }
}
