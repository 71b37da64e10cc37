/**
  Is the path found by the codebook search the cheapest one? The search keeps one run per
  codebook and position, so it does not see what the next escape of a run will cost.
 */
module AacTrellisOptimal {
  import opened Wrappers
  import opened AacSections
  import opened AacBandSizes
  import opened AacTrellis
  import opened AacQuantiser
  import opened AacTrellisCost
  import opened AacTrellisEnds

  // ---------------------------------------------------------------- fewer bands than an escape

  /** The last section of a path without its last band, or the path without it. */
  function Shortened(secs: seq<Section>): seq<Section>
    requires secs != []
  {
    var s := secs[|secs| - 1];
    var front := secs[..|secs| - 1];
    if s.len > 1 then front + [Section(s.cb, s.len - 1)] else front
  }

  lemma {:induction false} ShortenedCovers(secs: seq<Section>, bands: seq<BandInput>, b: BandInput)
    requires secs != [] && Covers(secs, bands + [b])
    ensures Covers(Shortened(secs), bands) && Allowed(b, secs[|secs| - 1].cb)
  {
    var s := secs[|secs| - 1];
    var front := secs[..|secs| - 1];
    var all := bands + [b];
    var k := |all| - s.len;
    assert all[..k] == bands[..k] && all[|all| - 1] == b;
    if s.len > 1 {
      var secs' := Shortened(secs);
      assert secs'[|secs'| - 1] == Section(s.cb, s.len - 1) && secs'[..|secs'| - 1] == front;
      assert forall p :: k <= p < |bands| ==> bands[p] == all[p];
    } else {
      assert bands[..k] == bands;
    }
  }

  lemma {:induction false} ShortenedCost(secs: seq<Section>, bands: seq<BandInput>, b: BandInput, n: Width)
    requires secs != [] && Covers(secs, bands + [b]) && |bands| + 1 < Esc(n)
    ensures Covers(Shortened(secs), bands)
    ensures var s := secs[|secs| - 1];
            s.cb < CB_TOT_ALL && s.len >= 1
            && PathCost(secs, bands + [b], n) ==
               PathCost(Shortened(secs), bands, n) + BitsOf(b, s.cb) + if s.len > 1 then 0 else n + 4
  {
    var s := secs[|secs| - 1];
    var front := secs[..|secs| - 1];
    ShortenedCovers(secs, bands, b);
    if s.len > 1 {
      LongerRunCost(secs, front, Shortened(secs), s.cb, s.len - 1, bands, b, n);
    } else {
      NewRunCost(secs, front, s.cb, bands, b, n);
    }
  }

  lemma {:induction false} LongerRunCost(secs: seq<Section>, front: seq<Section>, shorter: seq<Section>, cb: Cb, run: nat,
                                         bands: seq<BandInput>, b: BandInput, n: Width)
    requires secs == front + [Section(cb, run + 1)] && shorter == front + [Section(cb, run)]
    requires run >= 1 && Covers(shorter, bands) && Covers(secs, bands + [b]) && Allowed(b, cb) && |bands| + 1 < Esc(n)
    requires run + 1 <= |bands| + 1
    ensures PathCost(secs, bands + [b], n) == PathCost(shorter, bands, n) + BitsOf(b, cb)
  {
    LongerRun(front, cb, run, bands, b, n);
  }

  lemma {:induction false} NewRunCost(secs: seq<Section>, front: seq<Section>, cb: Cb, bands: seq<BandInput>, b: BandInput, n: Width)
    requires secs == front + [Section(cb, 1)] && Covers(front, bands) && Covers(secs, bands + [b]) && Allowed(b, cb)
    ensures PathCost(secs, bands + [b], n) == PathCost(front, bands, n) + BitsOf(b, cb) + n + 4
  {
    NewRun(front, cb, bands, b, n);
  }

  lemma {:induction false} StayStep(rows: seq<Row>, bests: seq<Best>, bands: seq<BandInput>, n: Width, pos: nat, cb: Cb, cost: nat)
    requires Filled(rows, bests, bands, n) && 1 < pos <= |bands| < Esc(n) && Allowed(bands[pos - 1], cb)
    requires rows[pos - 1][cb].cost <= cost
    ensures rows[pos][cb].cost <= cost + BitsOf(bands[pos - 1], cb)
  {
    CellAtMost(rows, bests, bands, n, pos, cb);
    RunAtMost(rows, bests, bands, n, pos - 1, cb);
  }

  lemma {:induction false} SwitchStep(rows: seq<Row>, bests: seq<Best>, bands: seq<BandInput>, n: Width, pos: nat, cb: Cb, prev: Cb, cost: nat)
    requires Filled(rows, bests, bands, n) && 1 < pos <= |bands|
    requires Allowed(bands[pos - 1], cb) && Allowed(bands[pos - 2], prev) && rows[pos - 1][prev].cost <= cost
    ensures rows[pos][cb].cost <= cost + BitsOf(bands[pos - 1], cb) + n + 4
  {
    CellAtMost(rows, bests, bands, n, pos, cb);
    CellAtMost(rows, bests, bands, n, pos - 1, prev);
  }

  /** One band more in the run of codebook cb, or a new section behind codebook prev. */
  lemma {:induction false} LastStep(rows: seq<Row>, bests: seq<Best>, bands: seq<BandInput>, n: Width, pos: nat, cb: Cb, prev: Cb, stays: bool, cost: nat)
    requires Filled(rows, bests, bands, n) && 1 < pos <= |bands| < Esc(n) && Allowed(bands[pos - 1], cb)
    requires Allowed(bands[pos - 2], prev) && rows[pos - 1][prev].cost <= cost && (stays ==> prev == cb)
    ensures rows[pos][cb].cost <= cost + BitsOf(bands[pos - 1], cb) + if stays then 0 else n + 4
  {
    if stays {
      StayStep(rows, bests, bands, n, pos, cb, cost);
    } else {
      SwitchStep(rows, bests, bands, n, pos, cb, prev, cost);
    }
  }

  /** A path without its last band: what the band has cost, in the run that it has lengthened or in a new section. */
  lemma {:induction false} PathStep(secs: seq<Section>, bands: seq<BandInput>, b: BandInput, n: Width)
    returns (shorter: seq<Section>, less: nat, stays: bool)
    requires bands != [] && |bands| + 1 < Esc(n) && Covers(secs, bands + [b])
    ensures Covers(shorter, bands) && less == PathCost(shorter, bands, n)
    ensures stays ==> LastCb(shorter, bands) == LastCb(secs, bands + [b])
    ensures PathCost(secs, bands + [b], n) == less + BitsOf(b, LastCb(secs, bands + [b])) + if stays then 0 else n + 4
  {
    shorter, stays := Shortened(secs), secs[|secs| - 1].len > 1;
    ShortenedCost(secs, bands, b, n);
    less := PathCost(shorter, bands, n);
  }

  /** No path that ends in a codebook is cheaper than the cell of the codebook. */
  lemma {:induction false} CellIsCheapest(rows: seq<Row>, bests: seq<Best>, bands: seq<BandInput>, n: Width, pos: nat,
                                          secs: seq<Section>, cost: nat)
    requires Filled(rows, bests, bands, n) && 0 < pos <= |bands| < Esc(n)
    requires Covers(secs, bands[..pos]) && cost == PathCost(secs, bands[..pos], n)
    ensures rows[pos][LastCb(secs, bands[..pos])].cost <= cost
    decreases pos
  {
    var front := bands[..pos - 1];
    var b := bands[pos - 1];
    var cb := LastCb(secs, bands[..pos]);
    assert bands[..pos] == front + [b];
    if pos == 1 {
      CellAtMost(rows, bests, bands, n, pos, cb);
      ShortestPath(secs, b, n, cost);
    } else {
      var shorter, less, stays := PathStep(secs, front, b, n);
      CellIsCheapest(rows, bests, bands, n, pos - 1, shorter, less);
      LastStep(rows, bests, bands, n, pos, cb, LastCb(shorter, front), stays, less);
    }
  }

  /** A path over one band. */
  lemma {:induction false} ShortestPath(secs: seq<Section>, b: BandInput, n: Width, cost: nat)
    requires Covers(secs, [] + [b]) && cost == PathCost(secs, [] + [b], n)
    ensures cost >= n + 4 + BitsOf(b, LastCb(secs, [] + [b]))
  {
    ShortenedCost(secs, [], b, n);
  }

  /** The codebook of the last section, which the last band may use. */
  function LastCb(secs: seq<Section>, bands: seq<BandInput>): (r: Cb)
    requires bands != [] && Covers(secs, bands)
    ensures secs != [] && r == secs[|secs| - 1].cb && Allowed(bands[|bands| - 1], r)
  {
    secs[|secs| - 1].cb
  }

  /** No path is cheaper than the chosen end. */
  ghost predicate Optimal(bands: seq<BandInput>, n: Width, end: Cb) {
    forall secs: seq<Section> :: Covers(secs, bands) ==> Trellis(bands, n).0[|bands|][end].cost <= PathCost(secs, bands, n)
  }

  lemma {:induction false} FewBandsAreOptimal(bands: seq<BandInput>, n: Width, end: Cb)
    requires 0 < |bands| < Esc(n) && IsEnd(Trellis(bands, n).0[|bands|], end)
    ensures Optimal(bands, n, end)
  {
    var (rows, bests) := Trellis(bands, n);
    TrellisIsFilled(bands, n);
    assert bands[..|bands|] == bands;
    forall secs: seq<Section> | Covers(secs, bands) ensures rows[|bands|][end].cost <= PathCost(secs, bands, n) {
      var cb := LastCb(secs, bands);
      CellIsCheapest(rows, bests, bands, n, |bands|, secs, PathCost(secs, bands, n));
      assert rows[|bands|][end].cost <= rows[|bands|][cb].cost;
    }
  }

  /**
    With fewer bands than an escape, going back is sure to end exactly when some path is cheaper
    than the sentinel; a path that costs exactly as much may lose against a cell without a path.
   */
  lemma {:induction false} EndsIffSomePathIsCheap(bands: seq<BandInput>, n: Width, end: Cb)
    requires 0 < |bands| < Esc(n) && IsEnd(Trellis(bands, n).0[|bands|], end)
    requires forall secs: seq<Section> :: Covers(secs, bands) ==> PathCost(secs, bands, n) != SENTINEL
    ensures SureToEnd(Trellis(bands, n).0, At(|bands|, end))
            <==> exists secs: seq<Section> :: Covers(secs, bands) && PathCost(secs, bands, n) < SENTINEL
  {
    var (rows, bests) := Trellis(bands, n);
    TrellisIsFilled(bands, n);
    EndsIffRooted(rows, bests, bands, n, end);
    EndAtMostSentinel(bands, n, end);
    FewBandsAreOptimal(bands, n, end);
    if Reaches(bands, n, end) {
      FoundPath(bands, n, end);
    }
    if secs: seq<Section> :| Covers(secs, bands) && PathCost(secs, bands, n) < SENTINEL {
      CheapIsRooted(rows, bests, bands, n, |bands|, end);
    }
  }

  // ---------------------------------------------------------------- one escape of bands, and more

  /**
    A row in which codebooks 10 and 11 have runs of k bands, codebook 11 at a cost higher by d, and
    nothing is cheaper than codebook 10.
   */
  ghost predicate EvenRow(row: Row, best: Best, cost: nat, d: nat, k: nat) {
    && row[9].cost >= cost
    && row[10].cost == cost && row[10].run == k
    && row[11].cost == cost + d && row[11].run == k
    && best.bits == Some(cost)
  }

  lemma {:induction false} LeastOfThree(row: Row, b: BandInput, m: nat)
    requires 12 <= m <= CB_TOT_ALL && forall cb: Cb :: Allowed(b, cb) <==> 9 <= cb <= 11
    requires row[10].cost <= row[9].cost && row[10].cost <= row[11].cost
    ensures Least(row, b, m).bits == Some(row[10].cost)
    decreases m
  {
    if m > 12 {
      LeastOfThree(row, b, m - 1);
    } else {
      NoneBelow(row, b, 9);
      assert Least(row, b, 10) == Best(Some(row[9].cost), 9);
      assert Least(row, b, 11).bits == Some(row[10].cost);
    }
  }

  lemma {:induction false} NoneBelow(row: Row, b: BandInput, m: nat)
    requires m <= CB_TOT_ALL && forall cb: Cb :: cb < m ==> !Allowed(b, cb)
    ensures Least(row, b, m) == Best(None, 0)
  {
    if m > 0 {
      NoneBelow(row, b, m - 1);
    }
  }

  lemma {:induction false} FirstEvenRow(n: Width, d: nat, k: nat)
    ensures var b := MixedBand(d, k);
            var row := NextRow(FirstRow(n), b, Best(None, 0), n);
            EvenRow(row, Least(row, b, CB_TOT_ALL), n + 4 + 10 * k, d, 1)
  {
    TableGrows(0, n);
    MixedAllows(d, k);
    LeastOfThree(NextRow(FirstRow(n), MixedBand(d, k), Best(None, 0), n), MixedBand(d, k), CB_TOT_ALL);
  }

  /** As long as codebook 11 is no dearer than a new section, its run goes on. */
  lemma {:induction false} NextEvenRow(row: Row, best: Best, n: Width, cost: nat, d: nat, run: nat, d': nat, k: nat)
    requires 1 <= run && run + 1 < Esc(n) && EvenRow(row, best, cost, d, run) && d <= n + 4
    ensures var b := MixedBand(d', k);
            var row' := NextRow(row, b, best, n);
            EvenRow(row', Least(row', b, CB_TOT_ALL), cost + 10 * k, d + d', run + 1)
  {
    var b := MixedBand(d', k);
    var row' := NextRow(row, b, best, n);
    MixedAllows(d', k);
    assert row'[9] == Extend(row[9], 9, best, 12 * k, n);
    assert row'[10] == Extend(row[10], 10, best, 10 * k, n) && row'[11] == Extend(row[11], 11, best, 10 * k + d', n);
    LeastOfThree(row', b, CB_TOT_ALL);
  }

  /** How many bits the first m bands take more in codebook 11: two for each, until it is the cost of a new section. */
  function Differences(m: nat, n: Width): nat {
    if 2 * m < n + 4 then 2 * m else n + 4
  }

  function Difference(m: nat, n: Width): (d: nat)
    ensures d <= 2 && Differences(m + 1, n) == Differences(m, n) + d
  {
    Differences(m + 1, n) - Differences(m, n)
  }

  /** The trellis ends with an even row. */
  ghost predicate EndsEven(bands: seq<BandInput>, n: Width, cost: nat, d: nat, k: nat) {
    EvenRow(Trellis(bands, n).0[|bands|], Trellis(bands, n).1[|bands|], cost, d, k)
  }

  lemma {:induction false} FirstEvenBand(n: Width, d: nat, k: nat)
    ensures EndsEven([] + [MixedBand(d, k)], n, n + 4 + 10 * k, d, 1)
  {
    FirstEvenRow(n, d, k);
    LastRow([], MixedBand(d, k), n);
  }

  lemma {:induction false} NextEvenBand(bands: seq<BandInput>, n: Width, cost: nat, d: nat, run: nat, d': nat, k: nat)
    requires 1 <= run && run + 1 < Esc(n) && EndsEven(bands, n, cost, d, run) && d <= n + 4
    ensures EndsEven(bands + [MixedBand(d', k)], n, cost + 10 * k, d + d', run + 1)
  {
    NextEvenRow(Trellis(bands, n).0[|bands|], Trellis(bands, n).1[|bands|], n, cost, d, run, d', k);
    LastRow(bands, MixedBand(d', k), n);
  }

  /** One section of codebook 10 over all m bands. */
  ghost predicate TenPath(none: seq<Section>, bands: seq<BandInput>, n: Width, m: nat, cost: nat) {
    none == [] && Covers(none + [Section(10, m)], bands) && PathCost(none + [Section(10, m)], bands, n) == cost
  }

  lemma {:induction false} FirstTenPath(none: seq<Section>, no: seq<BandInput>, n: Width, d: nat, k: nat)
    requires none == [] && no == []
    ensures TenPath(none, no + [MixedBand(d, k)], n, 1, n + 4 + 10 * k)
  {
    MixedAllows(d, k);
    NewRun(none, 10, no, MixedBand(d, k), n);
  }

  lemma {:induction false} NextTenPath(none: seq<Section>, bands: seq<BandInput>, n: Width, m: nat, cost: nat, d: nat, k: nat)
    requires 1 <= m && m + 1 < Esc(n) && TenPath(none, bands, n, m, cost)
    ensures TenPath(none, bands + [MixedBand(d, k)], n, m + 1, cost + 10 * k)
  {
    MixedAllows(d, k);
    OneBandMore(none, 10, m, bands, MixedBand(d, k), n);
  }

  /** m mixed bands: the search and the path through codebook 10 have the same cost, and codebook 11 is dearer. */
  ghost predicate Even(none: seq<Section>, bands: seq<BandInput>, n: Width, m: nat, cost: nat) {
    |bands| == m && EndsEven(bands, n, cost, Differences(m, n), m) && TenPath(none, bands, n, m, cost)
  }

  lemma {:induction false} FirstEven(none: seq<Section>, no: seq<BandInput>, n: Width, d: nat, k: nat)
    requires none == [] && no == [] && d == Differences(1, n)
    ensures Even(none, no + [MixedBand(d, k)], n, 1, n + 4 + 10 * k)
  {
    FirstEvenBand(n, d, k);
    FirstTenPath(none, no, n, d, k);
  }

  lemma {:induction false} NextEven(none: seq<Section>, bands: seq<BandInput>, n: Width, m: nat, cost: nat, d: nat, k: nat)
    requires 1 <= m && m + 1 < Esc(n) && Even(none, bands, n, m, cost) && d == Difference(m, n)
    ensures Even(none, bands + [MixedBand(d, k)], n, m + 1, cost + 10 * k)
  {
    NextEvenBand(bands, n, cost, Differences(m, n), m, d, k);
    NextTenPath(none, bands, n, m, cost, d, k);
  }

  /** The bands of a window: even sizes, enough of them for the trap, and no more coefficients than in a frame. */
  predicate Enough(sizes: seq<nat>, n: Width) {
    |sizes| >= Esc(n) && Sum(sizes) <= FRAME_COEFFICIENTS && forall p :: 0 <= p < |sizes| ==> sizes[p] % 2 == 0 && sizes[p] >= 4
  }

  /** Mixed bands of these sizes. */
  predicate AllMixed(bands: seq<BandInput>, sizes: seq<nat>, n: Width) {
    && |bands| <= |sizes|
    && forall p {:trigger Difference(p, n)} :: 0 <= p < |bands| ==> bands[p] == MixedBand(Difference(p, n), sizes[p] / 2)
  }

  lemma {:induction false} OneMoreMixed(bands: seq<BandInput>, sizes: seq<nat>, n: Width)
    requires AllMixed(bands, sizes, n) && |bands| < |sizes|
    ensures AllMixed(bands + [MixedBand(Difference(|bands|, n), sizes[|bands|] / 2)], sizes, n)
  {
  }

  /** The search has counted five bits for each coefficient of the bands. */
  ghost predicate EvenWindow(none: seq<Section>, bands: seq<BandInput>, sizes: seq<nat>, n: Width, m: nat, cost: nat) {
    m <= |sizes| && Even(none, bands, n, m, cost) && cost == n + 4 + 5 * Sum(sizes[..m])
  }

  lemma {:induction false} SumOfOneMore(sizes: seq<nat>, m: nat)
    requires m < |sizes|
    ensures Sum(sizes[..m + 1]) == Sum(sizes[..m]) + sizes[m] <= Sum(sizes)
  {
    assert sizes[..m + 1][..m] == sizes[..m];
    SumOfFront(sizes, m + 1);
  }

  lemma {:induction false} FiveForEach(sizes: seq<nat>, p: nat, m: nat, n: Width, less: nat, cost: nat)
    requires m == p + 1 <= |sizes| && less == n + 4 + 5 * Sum(sizes[..p]) && cost == less + 5 * sizes[p]
    ensures cost == n + 4 + 5 * Sum(sizes[..m])
  {
    SumOfOneMore(sizes, p);
  }

  lemma {:induction false} FirstEvenWindow(none: seq<Section>, bands: seq<BandInput>, n: Width, sizes: seq<nat>, d: nat, k: nat)
    requires none == [] && bands == [] + [MixedBand(d, k)] && Enough(sizes, n) && d == Difference(0, n) && sizes[0] == 2 * k
    ensures EvenWindow(none, bands, sizes, n, 1, n + 4 + 10 * k)
  {
    FirstEven(none, [], n, d, k);
    SumOfOneMore(sizes, 0);
  }

  lemma {:induction false} NextEvenWindow(none: seq<Section>, front: seq<BandInput>, b: BandInput, n: Width, p: nat, m: nat,
                                          sizes: seq<nat>, less: nat, cost: nat, d: nat, k: nat)
    requires 1 <= p && m == p + 1 < Esc(n) && EvenWindow(none, front, sizes, n, p, less) && p < |sizes|
    requires b == MixedBand(d, k) && d == Difference(p, n) && sizes[p] == 2 * k && cost == less + 10 * k
    ensures EvenWindow(none, front + [b], sizes, n, m, cost)
  {
    NextEven(none, front, n, p, less, d, k);
    FiveForEach(sizes, p, m, n, less, cost);
  }

  lemma {:induction false} EvenStart(none: seq<Section>, no: seq<BandInput>, n: Width, sizes: seq<nat>) returns (bands: seq<BandInput>, cost: nat)
    requires none == [] && no == [] && Enough(sizes, n)
    ensures AllMixed(bands, sizes, n) && EvenWindow(none, bands, sizes, n, 1, cost)
  {
    var d, k := Difference(0, n), sizes[0] / 2;
    bands, cost := no + [MixedBand(d, k)], n + 4 + 10 * k;
    FirstEvenWindow(none, bands, n, sizes, d, k);
    OneMoreMixed(no, sizes, n);
  }

  lemma {:induction false} EvenStep(none: seq<Section>, n: Width, p: nat, m: nat, sizes: seq<nat>, front: seq<BandInput>, less: nat)
    returns (bands: seq<BandInput>, cost: nat)
    requires 1 <= p && m == p + 1 < Esc(n) && Enough(sizes, n)
    requires AllMixed(front, sizes, n) && EvenWindow(none, front, sizes, n, p, less)
    ensures AllMixed(bands, sizes, n) && EvenWindow(none, bands, sizes, n, m, cost)
  {
    var d, k := Difference(p, n), sizes[p] / 2;
    cost := less + 10 * k;
    NextEvenWindow(none, front, MixedBand(d, k), n, p, m, sizes, less, cost, d, k);
    bands := front + [MixedBand(d, k)];
    OneMoreMixed(front, sizes, n);
  }

  lemma {:induction false} EvenBands(none: seq<Section>, no: seq<BandInput>, n: Width, m: nat, sizes: seq<nat>)
    returns (bands: seq<BandInput>, cost: nat)
    requires none == [] && no == [] && 1 <= m < Esc(n) && Enough(sizes, n)
    ensures AllMixed(bands, sizes, n) && EvenWindow(none, bands, sizes, n, m, cost)
    decreases m
  {
    if m == 1 {
      bands, cost := EvenStart(none, no, n, sizes);
    } else {
      var p := m - 1;
      bands, cost := EvenBands(none, no, n, p, sizes);
      bands, cost := EvenStep(none, n, p, m, sizes, bands, cost);
    }
  }

  lemma {:induction false} OneMoreOfWindow(bands: seq<BandInput>, quants: seq<seq<int>>, sizes: seq<nat>, d: nat, k: nat)
    requires InWindow(bands, quants, sizes) && |bands| < |sizes| && d <= k && k > 0 && sizes[|bands|] == 2 * k
    ensures InWindow(bands + [MixedBand(d, k)], quants + [MixedValues(d, k)], sizes)
  {
    MixedIsQuantised(d, k);
    OneMoreBand(bands, quants, MixedBand(d, k), MixedValues(d, k), sizes);
  }

  /** The mixed bands are bands of quantised coefficients, with the codebooks that are chosen for them. */
  lemma {:induction false} MixedWindow(bands: seq<BandInput>, sizes: seq<nat>, n: Width, m: nat) returns (quants: seq<seq<int>>)
    requires m <= |bands| && AllMixed(bands, sizes, n) && Enough(sizes, n)
    ensures InWindow(bands[..m], quants, sizes)
  {
    quants := [];
    if m > 0 {
      var k, d := sizes[m - 1] / 2, Difference(m - 1, n);
      var qs := MixedWindow(bands, sizes, n, m - 1);
      OneMoreOfWindow(bands[..m - 1], qs, sizes, d, k);
      assert bands[..m - 1] + [MixedBand(d, k)] == bands[..m];
      quants := qs + [MixedValues(d, k)];
    }
  }

  /** Going on in codebook 11 costs as much as a new section, and is preferred. */
  lemma {:induction false} EvenThenEleven(bands: seq<BandInput>, n: Width, cost: nat, k: nat)
    requires EndsEven(bands, n, cost, n + 4, Esc(n) - 2)
    ensures EndsEleven(bands + [ElevenBand(k)], n, cost + n + 4 + 12 * k, Esc(n) - 1)
  {
    LastRow(bands, ElevenBand(k), n);
    ElevenAllows(k);
    OnlyOneAllowed(Trellis(bands + [ElevenBand(k)], n).0[|bands| + 1], ElevenBand(k), 11, CB_TOT_ALL);
  }

  /** The next band makes the run an escape. */
  lemma {:induction false} EscapeIsPaid(bands: seq<BandInput>, n: Width, cost: nat, k: nat)
    requires EndsEleven(bands, n, cost, Esc(n) - 1)
    ensures EndsEleven(bands + [ElevenBand(k)], n, cost + n + 12 * k, Esc(n))
  {
    LastRow(bands, ElevenBand(k), n);
    ElevenAllows(k);
    OnlyOneAllowed(Trellis(bands + [ElevenBand(k)], n).0[|bands| + 1], ElevenBand(k), 11, CB_TOT_ALL);
  }

  /** A run may take one band more, as long as it is shorter than an escape. */
  lemma {:induction false} OneBandMore(front: seq<Section>, cb: Cb, run: nat, bands: seq<BandInput>, b: BandInput, n: Width)
    requires 1 <= run && run + 1 < Esc(n) && Covers(front + [Section(cb, run)], bands) && Allowed(b, cb)
    ensures Covers(front + [Section(cb, run + 1)], bands + [b])
    ensures PathCost(front + [Section(cb, run + 1)], bands + [b], n) == PathCost(front + [Section(cb, run)], bands, n) + BitsOf(b, cb)
  {
    LongerRun(front, cb, run, bands, b, n);
  }

  ghost predicate PathOf(secs: seq<Section>, bands: seq<BandInput>, n: Width, cost: nat) {
    Covers(secs, bands) && PathCost(secs, bands, n) == cost
  }

  lemma {:induction false} ElevensPath(front: seq<Section>, bands: seq<BandInput>, n: Width, cost: nat, k: nat, k': nat) returns (secs: seq<Section>)
    requires PathOf(front, bands, n, cost)
    ensures PathOf(secs, bands + [ElevenBand(k)] + [ElevenBand(k')], n, cost + n + 4 + 12 * k + 12 * k')
  {
    ElevenAllows(k);
    ElevenAllows(k');
    NewRun(front, 11, bands, ElevenBand(k), n);
    OneBandMore(front, 11, 1, bands + [ElevenBand(k)], ElevenBand(k'), n);
    secs := front + [Section(11, 2)];
  }

  /** The search ends at codebook 11 alone, one field above the cost of the path `secs`. */
  ghost predicate Trapped(bands: seq<BandInput>, secs: seq<Section>, n: Width, cost: nat) {
    |bands| == Esc(n) && EndsEleven(bands, n, cost + n, Esc(n)) && PathOf(secs, bands, n, cost) && cost < 20000
  }

  lemma {:induction false} TwoElevens(none: seq<Section>, even: seq<BandInput>, n: Width, cost: nat, k: nat, k': nat) returns (secs: seq<Section>)
    requires Even(none, even, n, Esc(n) - 2, cost) && cost < 6000 && k < 512 && k' < 512
    ensures Trapped(even + [ElevenBand(k)] + [ElevenBand(k')], secs, n, cost + n + 4 + 12 * k + 12 * k')
  {
    EvenThenEleven(even, n, cost, k);
    EscapeIsPaid(even + [ElevenBand(k)], n, cost + n + 4 + 12 * k, k');
    secs := ElevensPath(none + [Section(10, Esc(n) - 2)], even, n, cost, k, k');
  }

  /**
    One escape of bands for which the search finds a path that is one field longer than the
    cheapest: going on in codebook 11 costs as much as a new section, is preferred, and at the
    next band makes the run an escape.
   */
  lemma {:induction false} Trap(none: seq<Section>, even: seq<BandInput>, n: Width, sizes: seq<nat>, ten: nat, k: nat, k': nat)
    returns (secs: seq<Section>, cost: nat)
    requires Enough(sizes, n) && sizes[Esc(n) - 2] == 2 * k && sizes[Esc(n) - 1] == 2 * k'
    requires EvenWindow(none, even, sizes, n, Esc(n) - 2, ten)
    ensures Trapped(even + [ElevenBand(k)] + [ElevenBand(k')], secs, n, cost)
  {
    SumOfOneMore(sizes, Esc(n) - 2);
    SumOfOneMore(sizes, Esc(n) - 1);
    cost := ten + n + 4 + 12 * k + 12 * k';
    secs := TwoElevens(none, even, n, ten, k, k');
  }

  lemma {:induction false} MoreElevens(bands: seq<BandInput>, quants: seq<seq<int>>, sizes: seq<nat>, k: nat, k': nat) returns (more: seq<seq<int>>)
    requires InWindow(bands, quants, sizes) && |bands| + 1 < |sizes|
    requires k > 0 && k' > 0 && sizes[|bands|] == 2 * k && sizes[|bands| + 1] == 2 * k'
    ensures InWindow(bands + [ElevenBand(k)] + [ElevenBand(k')], more, sizes)
  {
    ElevenIsQuantised(k);
    ElevenIsQuantised(k');
    OneMoreBand(bands, quants, ElevenBand(k), Pairs(13, 0, k), sizes);
    OneMoreBand(bands + [ElevenBand(k)], quants + [Pairs(13, 0, k)], ElevenBand(k'), Pairs(13, 0, k'), sizes);
    more := quants + [Pairs(13, 0, k)] + [Pairs(13, 0, k')];
  }

  lemma {:induction false} ZerosAreFree(k: nat)
    ensures SumBits(Repeat(ZERO_BAND, k), 0) == 0
  {
    if k > 0 {
      ZerosAreFree(k - 1);
      assert Repeat(ZERO_BAND, k)[..k - 1] == Repeat(ZERO_BAND, k - 1);
    }
  }

  lemma {:induction false} ZeroSection(front: seq<Section>, bands: seq<BandInput>, k: nat, n: Width, cost: nat)
    requires PathOf(front, bands, n, cost) && k >= 1
    ensures PathOf(front + [Section(0, k)], bands + Repeat(ZERO_BAND, k), n, cost + 4 + TableBits(k, n))
  {
    var all := bands + Repeat(ZERO_BAND, k);
    assert all[..|bands|] == bands && all[|bands|..] == Repeat(ZERO_BAND, k);
    LastSection(front, Section(0, k), all, n);
    ZerosAreFree(k);
  }

  /** The zero cell is the only cheap one, and a path is cheaper. */
  lemma {:induction false} ZeroRunIsMissed(bands: seq<BandInput>, n: Width, first: nat, k: nat, secs: seq<Section>, cost: nat)
    requires k < TableEnd(n) && ZeroRun(bands, n, first, k) && first < 30000
    requires PathOf(secs, bands, n, cost) && cost < first + TableBits(k, n) - n
    ensures IsEnd(Trellis(bands, n).0[|bands|], 0) && !Optimal(bands, n, 0)
  {
  }

  lemma {:induction false} TrapIsMissed(bands: seq<BandInput>, secs: seq<Section>, n: Width, cost: nat)
    requires Trapped(bands, secs, n, cost)
    ensures IsEnd(Trellis(bands, n).0[|bands|], 11) && !Optimal(bands, n, 11)
  {
  }

  /** Behind the trap, zero bands up to any number of bands. */
  lemma {:induction false} ZerosBehindTrap(trap: seq<BandInput>, secs: seq<Section>, n: Width, cost: nat, k: nat)
    requires Trapped(trap, secs, n, cost) && 1 <= k && Esc(n) + k < TableEnd(n)
    ensures var bands := trap + Repeat(ZERO_BAND, k);
            IsEnd(Trellis(bands, n).0[|bands|], 0) && !Optimal(bands, n, 0)
  {
    ZeroBehindEleven(trap, n, cost + n, Esc(n));
    ManyZeros(trap, n, cost + n + n + 4, k);
    ZeroSection(secs, trap, k, n, cost);
    ZeroRunIsMissed(trap + Repeat(ZERO_BAND, k), n, cost + n + n + 4, k, secs + [Section(0, k)], cost + 4 + TableBits(k, n));
  }

  lemma {:induction false} MoreBandsAreMissed(trap: seq<BandInput>, quants: seq<seq<int>>, secs: seq<Section>, n: Width, cost: nat, m: nat, rate: Rate)
    returns (bands: seq<BandInput>)
    requires Trapped(trap, secs, n, cost) && InWindow(trap, quants, BandSizes(n, rate))
    requires Esc(n) < m <= |BandSizes(n, rate)| < TableEnd(n)
    ensures |bands| == m && FromCoder(bands, n, rate) && IsEnd(Trellis(bands, n).0[m], 0) && !Optimal(bands, n, 0)
  {
    var more := MoreZeroBands(trap, quants, BandSizes(n, rate), m - Esc(n));
    ZerosBehindTrap(trap, secs, n, cost, m - Esc(n));
    bands := trap + Repeat(ZERO_BAND, m - Esc(n));
  }

  lemma {:induction false} TrapAndMore(trap: seq<BandInput>, quants: seq<seq<int>>, secs: seq<Section>, n: Width, cost: nat, m: nat, rate: Rate)
    returns (bands: seq<BandInput>, end: Cb)
    requires Trapped(trap, secs, n, cost) && InWindow(trap, quants, BandSizes(n, rate))
    requires Esc(n) <= m <= |BandSizes(n, rate)| < TableEnd(n)
    ensures |bands| == m && FromCoder(bands, n, rate) && IsEnd(Trellis(bands, n).0[m], end) && !Optimal(bands, n, end)
  {
    if m == Esc(n) {
      TrapIsMissed(trap, secs, n, cost);
      bands, end := trap, 11;
    } else {
      bands := MoreBandsAreMissed(trap, quants, secs, n, cost, m, rate);
      end := 0;
    }
  }

  lemma {:induction false} SizesAreEnough(sizes: seq<nat>, n: Width)
    requires Sum(sizes) * Windows(n) == FRAME_COEFFICIENTS
    requires forall p :: 0 <= p < |sizes| ==> sizes[p] % 4 == 0 && sizes[p] >= 4
    requires |sizes| >= if n == 3 then 12 else 40
    ensures Enough(sizes, n)
  {
  }

  lemma {:induction false} BandsFit(n: Width, rate: Rate)
    ensures Enough(BandSizes(n, rate), n) && |BandSizes(n, rate)| < TableEnd(n)
  {
    BandsFillWindow(n, rate);
    SizesAreEnough(BandSizes(n, rate), n);
  }

  /**
    As many bands as an escape, or more: quantised coefficients with the codebooks that are chosen
    for them, for which a path is cheaper than the one that the search finds.
   */
  lemma {:induction false} BandsAreMissed(m: nat, n: Width, rate: Rate) returns (bands: seq<BandInput>, end: Cb)
    requires Esc(n) <= m <= |BandSizes(n, rate)|
    ensures |bands| == m && FromCoder(bands, n, rate) && IsEnd(Trellis(bands, n).0[m], end) && !Optimal(bands, n, end)
  {
    BandsFit(n, rate);
    var sizes := BandSizes(n, rate);
    var k, k' := sizes[Esc(n) - 2] / 2, sizes[Esc(n) - 1] / 2;
    var none: seq<Section> := [];
    var even, ten := EvenBands(none, [], n, Esc(n) - 2, sizes);
    var secs, cost := Trap(none, even, n, sizes, ten, k, k');
    var quants := MixedWindow(even, sizes, n, |even|);
    assert even[..|even|] == even;
    quants := MoreElevens(even, quants, sizes, k, k');
    bands, end := TrapAndMore(even + [ElevenBand(k)] + [ElevenBand(k')], quants, secs, n, cost, m, rate);
  }

  /**
    The number of bands decides, for every sampling rate and either kind of window: with fewer
    bands than an escape the search always finds a cheapest path, and with any larger number that
    the sampling rate has it does not for some quantised coefficients, with the codebooks that are
    chosen for them.
   */
  lemma {:induction false} OptimalIffFewBands(m: nat, n: Width, rate: Rate)
    requires 0 < m <= |BandSizes(n, rate)|
    ensures m < Esc(n) <==>
            forall bands: seq<BandInput>, end: Cb ::
              |bands| == m && FromCoder(bands, n, rate) && IsEnd(Trellis(bands, n).0[m], end) ==> Optimal(bands, n, end)
  {
    if m < Esc(n) {
      forall bands: seq<BandInput>, end: Cb | |bands| == m && IsEnd(Trellis(bands, n).0[m], end) ensures Optimal(bands, n, end) {
        FewBandsAreOptimal(bands, n, end);
      }
    } else {
      var bands, end := BandsAreMissed(m, n, rate);
    }
  }
}
