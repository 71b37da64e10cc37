/**
  The inputs for which the codebook search finds a path and going back comes to its end: bounds on
  the bits of the bands, and any quantised coefficients.
 */
module AacTrellisEnds {
  import opened Wrappers
  import opened AacSections
  import opened AacCodewords
  import opened AacBandSizes
  import opened AacTrellis
  import opened AacQuantiser
  import opened AacTrellisCost

  // ---------------------------------------------------------------- the fewest bits of a band

  /** A codebook that the band may use. */
  function SomeCb(b: BandInput): (r: Cb)
    ensures Allowed(b, r)
  {
    if b.zero then 0 else if b.bandType <= 12 then 11 else CB_IN_MAP[b.bandType]
  }

  /** The cheapest of the first m codebooks that the band may use. */
  function LeastOf(b: BandInput, m: nat): (r: Option<Cb>)
    requires m <= CB_TOT_ALL
    ensures r.Some? ==> Allowed(b, r.value)
    ensures forall cb: Cb :: cb < m && Allowed(b, cb) ==> r.Some? && BitsOf(b, r.value) <= BitsOf(b, cb)
  {
    if m == 0 then None
    else
      var best := LeastOf(b, m - 1);
      if Allowed(b, m - 1) && (best.None? || BitsOf(b, m - 1) < BitsOf(b, best.value)) then Some(m - 1) else best
  }

  /** The cheapest codebook that the band may use. */
  function LeastCb(b: BandInput): (r: Cb)
    ensures Allowed(b, r)
    ensures forall cb: Cb :: Allowed(b, cb) ==> BitsOf(b, r) <= BitsOf(b, cb)
  {
    var some := SomeCb(b);
    LeastOf(b, CB_TOT_ALL).value
  }

  function LeastBits(b: BandInput): nat {
    BitsOf(b, LeastCb(b))
  }

  function SumLeast(bands: seq<BandInput>): nat {
    if bands == [] then 0 else SumLeast(bands[..|bands| - 1]) + LeastBits(bands[|bands| - 1])
  }

  /** The bits of a section of its own for every band, in its cheapest codebook. */
  function Budget(bands: seq<BandInput>, n: Width): nat {
    SumLeast(bands) + |bands| * (n + 4)
  }

  // ---------------------------------------------------------------- enough: the budget is below the sentinel

  lemma {:induction false} LeastIsLeast(row: Row, b: BandInput, m: nat, cb: Cb)
    requires cb < m <= CB_TOT_ALL && Allowed(b, cb)
    ensures Least(row, b, m).bits.Some? && Least(row, b, m).bits.value <= row[cb].cost
  {
    if cb < m - 1 {
      LeastIsLeast(row, b, m - 1, cb);
    }
  }

  /** A new section is never cheaper than the cell that the search stores. */
  lemma {:induction false} CellAtMost(rows: seq<Row>, bests: seq<Best>, bands: seq<BandInput>, n: Width, pos: nat, cb: Cb)
    requires Filled(rows, bests, bands, n) && 0 < pos <= |bands| && Allowed(bands[pos - 1], cb)
    ensures pos == 1 ==> rows[pos][cb].cost <= n + 4 + BitsOf(bands[pos - 1], cb)
    ensures pos > 1 && bests[pos - 1].bits.Some? ==>
              rows[pos][cb].cost <= bests[pos - 1].bits.value + BitsOf(bands[pos - 1], cb) + n + 4
    ensures rows[pos][cb].cost <= StayCost(rows[pos - 1][cb], BitsOf(bands[pos - 1], cb), n)
    ensures bests[pos].bits.Some? && bests[pos].bits.value <= rows[pos][cb].cost
  {
    var p := pos - 1;
    assert rows[pos] == NextRow(rows[p], bands[p], bests[p], n) && bests[pos] == Least(rows[pos], bands[p], CB_TOT_ALL);
    LeastIsLeast(rows[pos], bands[p], CB_TOT_ALL, cb);
    TableGrows(0, n);
  }

  lemma {:induction false} LeastIsFirst(row: Row, b: BandInput, m: nat, cb: Cb)
    requires cb < m <= CB_TOT_ALL && Allowed(b, cb) && Least(row, b, m).bits.Some? && cb < Least(row, b, m).cb
    ensures row[cb].cost > Least(row, b, m).bits.value
  {
    if cb < m - 1 && Least(row, b, m).cb < m - 1 {
      LeastIsFirst(row, b, m - 1, cb);
    } else {
      LeastIsLeast(row, b, m - 1, cb);
    }
  }

  /** The first of the cheapest codebooks that band b may use. */
  ghost predicate FirstCheapest(row: Row, b: BandInput, prev: Cb) {
    Allowed(b, prev)
    && forall c: Cb :: Allowed(b, c) ==> row[prev].cost <= row[c].cost && (c < prev ==> row[prev].cost < row[c].cost)
  }

  /**
    Which of equal costs the search takes: a new section is begun only if it is cheaper than one
    band more, and then behind the first of the cheapest codebooks.
   */
  lemma {:induction false} TiesStay(rows: seq<Row>, bests: seq<Best>, bands: seq<BandInput>, n: Width, pos: nat, cb: Cb)
    requires Filled(rows, bests, bands, n) && 1 < pos <= |bands| && Allowed(bands[pos - 1], cb)
    ensures var stay := StayCost(rows[pos - 1][cb], BitsOf(bands[pos - 1], cb), n); var cell := rows[pos][cb];
            && cell.cost <= stay
            && (cell != Cell(cb, stay, rows[pos - 1][cb].run + 1) ==>
                  && 0 <= cell.prev < CB_TOT_ALL && FirstCheapest(rows[pos - 1], bands[pos - 2], cell.prev)
                  && cell == Cell(cell.prev, rows[pos - 1][cell.prev].cost + BitsOf(bands[pos - 1], cb) + n + 4, 1)
                  && cell.cost < stay)
  {
    var p := pos - 1;
    assert rows[pos] == NextRow(rows[p], bands[p], bests[p], n);
    assert bests[p] == Least(rows[p], bands[p - 1], CB_TOT_ALL);
    if bests[p].bits.Some? {
      BestIsFirst(rows[p], bands[p - 1]);
    }
  }

  lemma {:induction false} BestIsFirst(row: Row, b: BandInput)
    requires Least(row, b, CB_TOT_ALL).bits.Some?
    ensures FirstCheapest(row, b, Least(row, b, CB_TOT_ALL).cb)
  {
    var prev := Least(row, b, CB_TOT_ALL).cb;
    forall c: Cb | Allowed(b, c)
      ensures row[prev].cost <= row[c].cost && (c < prev ==> row[prev].cost < row[c].cost)
    {
      LeastIsLeast(row, b, CB_TOT_ALL, c);
      if c < prev {
        LeastIsFirst(row, b, CB_TOT_ALL, c);
      }
    }
  }

  lemma {:induction false} SumLeastOfFront(bands: seq<BandInput>, pos: nat)
    requires 0 < pos <= |bands|
    ensures SumLeast(bands[..pos]) == SumLeast(bands[..pos - 1]) + LeastBits(bands[pos - 1])
  {
    assert bands[..pos][..pos - 1] == bands[..pos - 1];
  }

  lemma {:induction false} BestWithinBudget(rows: seq<Row>, bests: seq<Best>, bands: seq<BandInput>, n: Width, pos: nat)
    requires Filled(rows, bests, bands, n) && 0 < pos <= |bands|
    ensures bests[pos].bits.Some? && bests[pos].bits.value <= SumLeast(bands[..pos]) + pos * (n + 4)
    decreases pos
  {
    SumLeastOfFront(bands, pos);
    CellAtMost(rows, bests, bands, n, pos, LeastCb(bands[pos - 1]));
    if pos > 1 {
      BestWithinBudget(rows, bests, bands, n, pos - 1);
    }
  }

  /** Going back from the chosen end comes to its end when a section for every band stays below the sentinel. */
  lemma {:induction false} AffordableEnds(bands: seq<BandInput>, n: Width, end: Cb)
    requires |bands| < TableEnd(n) && Budget(bands, n) < SENTINEL && IsEnd(Trellis(bands, n).0[|bands|], end)
    ensures bands != [] ==> Trellis(bands, n).0[|bands|][end].cost <= Budget(bands, n)
    ensures Reaches(bands, n, end)
  {
    if bands != [] {
      var (rows, bests) := Trellis(bands, n);
      TrellisIsFilled(bands, n);
      BestWithinBudget(rows, bests, bands, n, |bands|);
      assert bands[..|bands|] == bands;
      assert bests[|bands|] == Least(rows[|bands|], bands[|bands| - 1], CB_TOT_ALL);
      CheapIsRooted(rows, bests, bands, n, |bands|, end);
    }
  }

  // ---------------------------------------------------------------- quantised coefficients are affordable

  lemma {:induction false} LeastOfQuantised(b: BandInput, q: seq<int>)
    requires Quantised(b, q)
    ensures LeastBits(b) <= 28 * |q|
  {
    var cb := SomeCb(b);
    EscapeBookIsAffordable(q);
    assert b.zero || BitsOf(b, cb) == BookBits(CB_OUT_MAP[cb], q);
  }

  lemma {:induction false} QuantisedBudget(bands: seq<BandInput>, quants: seq<seq<int>>, sizes: seq<nat>, windows: nat)
    requires Grouped(bands, quants, sizes, windows)
    ensures SumLeast(bands) <= 28 * Coefficients(quants)
  {
    if bands != [] {
      var k := |bands| - 1;
      QuantisedBudget(bands[..k], quants[..k], sizes, windows);
      LeastOfQuantised(bands[k], quants[k]);
    }
  }

  /** Whatever the coefficients and band types of a frame, the search finds a path and going back comes to its end. */
  lemma {:induction false} QuantisedEnds(bands: seq<BandInput>, n: Width, rate: Rate, end: Cb)
    requires FromFrame(bands, n, rate) && IsEnd(Trellis(bands, n).0[|bands|], end)
    ensures |bands| < TableEnd(n) && Budget(bands, n) < SENTINEL
    ensures Reaches(bands, n, end) && SureToEnd(Trellis(bands, n).0, At(|bands|, end))
  {
    var quants: seq<seq<int>>, windows: nat :|
      1 <= windows <= Windows(n) && Grouped(bands, quants, BandSizes(n, rate), windows);
    FewCoefficients(bands, quants, n, rate, windows);
    QuantisedBudget(bands, quants, BandSizes(n, rate), windows);
    assert |bands| * (n + 4) <= 64 * 9;
    AffordableEnds(bands, n, end);
    TrellisIsFilled(bands, n);
    EndsIffRooted(Trellis(bands, n).0, Trellis(bands, n).1, bands, n, end);
  }

  // ---------------------------------------------------------------- not enough: the coefficients alone are above it

  lemma {:induction false} SumLeastSplit(bands: seq<BandInput>, k: nat)
    requires k <= |bands|
    ensures SumLeast(bands) == SumLeast(bands[..k]) + SumLeast(bands[k..])
  {
    if k == |bands| {
      assert bands[..k] == bands;
    } else {
      var e := |bands| - 1;
      var tail := bands[k..];
      SumLeastSplit(bands[..e], k);
      assert bands[..e][..k] == bands[..k];
      assert bands[..e][k..] == tail[..|tail| - 1];
      assert tail[|tail| - 1] == bands[e];
    }
  }

  lemma {:induction false} SumBitsAtLeast(bands: seq<BandInput>, cb: Cb)
    requires forall i :: 0 <= i < |bands| ==> Allowed(bands[i], cb)
    ensures SumBits(bands, cb) >= SumLeast(bands)
  {
    if bands != [] {
      SumBitsAtLeast(bands[..|bands| - 1], cb);
    }
  }

  lemma {:induction false} PathCostAtLeast(secs: seq<Section>, bands: seq<BandInput>, n: Width)
    requires Covers(secs, bands)
    ensures PathCost(secs, bands, n) >= SumLeast(bands)
    ensures bands != [] ==> PathCost(secs, bands, n) >= SumLeast(bands) + n + 4
  {
    if secs != [] {
      var s := secs[|secs| - 1];
      var k := |bands| - s.len;
      PathCostAtLeast(secs[..|secs| - 1], bands[..k], n);
      SumBitsAtLeast(bands[k..], s.cb);
      SumLeastSplit(bands, k);
    }
  }

  lemma {:induction false} EndAtMostSentinel(bands: seq<BandInput>, n: Width, end: Cb)
    requires 0 < |bands| && IsEnd(Trellis(bands, n).0[|bands|], end)
    ensures Trellis(bands, n).0[|bands|][end].cost <= SENTINEL
  {
    var (rows, bests) := Trellis(bands, n);
    TrellisIsFilled(bands, n);
    var b := bands[|bands| - 1];
    var barred: Cb := if b.zero then 1 else if b.bandType == 13 then 13 else 12;
    Origin(rows, bests, bands, n, |bands|, barred);
  }

  /** Going back is not sure to end when even the cheapest codebooks of all bands exceed the sentinel in one section. */
  lemma {:induction false} TooDearMayNotEnd(bands: seq<BandInput>, n: Width, end: Cb)
    requires 0 < |bands| < TableEnd(n) && IsEnd(Trellis(bands, n).0[|bands|], end)
    requires SumLeast(bands) + n + 4 > SENTINEL
    ensures !SureToEnd(Trellis(bands, n).0, At(|bands|, end))
  {
    EndAtMostSentinel(bands, n, end);
    TrellisIsFilled(bands, n);
    EndsIffRooted(Trellis(bands, n).0, Trellis(bands, n).1, bands, n, end);
    if Reaches(bands, n, end) {
      FoundPath(bands, n, end);
      PathCostAtLeast(Found(bands, n, end), bands, n);
      assert false;
    }
  }
}
