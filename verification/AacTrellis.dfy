/**
  The codebook search of the AAC encoder, `codebook_trellis_rate`: the trellis, the path found in
  it by going back from its end, and the section data written for that path. The number of bits
  that a codebook takes for the coefficients of a band is an input.
 */
module AacTrellis {
  import opened Wrappers
  import opened AacSections

  const CB_TOT_ALL := 15

  /** The cost of a path that must not be taken. */
  const SENTINEL := 61450

  const CB_OUT_MAP: seq<nat> := [0, 1, 2, 3, 4, 5, 6, 7, 8, 9, 10, 11, 13, 14, 15]

  const CB_IN_MAP: seq<nat> := [0, 1, 2, 3, 4, 5, 6, 7, 8, 9, 10, 11, 0, 12, 13, 14]

  const RUN_VALUE_BITS_LONG: seq<nat> := Repeat(5, 31) + Repeat(10, 32) + [15]

  const RUN_VALUE_BITS_SHORT: seq<nat> := Repeat(3, 7) + Repeat(6, 8) + [9]

  function RunValueBits(n: Width): seq<nat> {
    if n == 5 then RUN_VALUE_BITS_LONG else RUN_VALUE_BITS_SHORT
  }

  /** The first run length behind the end of the tables. */
  function TableEnd(n: Width): nat {
    2 * Esc(n) + 2
  }

  /** What the search takes a run length to cost. */
  function TableBits(len: nat, n: Width): nat {
    if len < Esc(n) then n else if len <= 2 * Esc(n) then 2 * n else 3 * n
  }

  lemma TablesHold(n: Width)
    ensures |RunValueBits(n)| == TableEnd(n)
    ensures forall len :: 0 <= len < TableEnd(n) ==> RunValueBits(n)[len] == TableBits(len, n)
  {
  }

  /** The bits of a run length with its escapes. */
  function RunBits(len: nat, n: Width): nat {
    if len >= Esc(n) then n + RunBits(len - Esc(n), n) else n
  }

  lemma {:induction false} RunCodeLength(len: nat, n: Width)
    ensures |RunCode(len, n)| == RunBits(len, n)
    decreases len
  {
    if len >= Esc(n) {
      RunCodeLength(len - Esc(n), n);
    }
  }

  /**
    The tables hold the number of bits that a run length takes when it is written, except for a
    run of exactly two escapes (14 bands, or 62): its empty third field is not counted.
   */
  lemma TablesAreRunBits(len: nat, n: Width)
    requires len < |RunValueBits(n)|
    ensures RunBits(len, n) == RunValueBits(n)[len] + if len == 2 * Esc(n) then n else 0
  {
    TablesHold(n);
    var e := Esc(n);
    if len >= e {
      assert RunBits(len, n) == n + RunBits(len - e, n);
      if len - e >= e {
        assert RunBits(len - e, n) == n + RunBits(len - e - e, n);
        assert RunBits(len - e - e, n) == n;
      }
    }
  }

  /** One band more lengthens the field of the run by one increment or not at all. */
  lemma TableGrows(len: nat, n: Width)
    requires len + 1 < TableEnd(n)
    ensures TableBits(len + 1, n) == TableBits(len, n) || TableBits(len + 1, n) == TableBits(len, n) + n
    ensures TableBits(0, n) == n && TableBits(1, n) == n
  {
  }

  // ---------------------------------------------------------------- the trellis

  datatype Cell = Cell(prev: int, cost: int, run: nat)

  const NO_PATH := Cell(-1, SENTINEL, 0)

  type Row = r: seq<Cell> | |r| == 15 witness seq(15, _ => NO_PATH)

  type Cb = c: nat | c < 15

  datatype BandData = BandData(zero: bool, bandType: nat, bits: seq<nat>)

  /** A band: whether it is all zero, its codebook, and the bits it takes under each trellis codebook. */
  type BandInput = b: BandData | b.bandType < 16 && |b.bits| == 15 witness BandData(true, 0, seq(15, _ => 0))

  function StartCb(b: BandInput): nat
  {
    CB_IN_MAP[b.bandType]
  }

  /** The codebooks that a band may use. */
  predicate Allowed(b: BandInput, cb: Cb)
  {
    if b.zero then cb == 0
    else cb >= StartCb(b) && !(cb >= 12 && b.bandType != CB_OUT_MAP[cb])
  }

  /**
    The same by the codebook numbers of the standard: a zero band takes codebook 0, a band of noise
    or intensity stereo its own, and any other band its codebook and those above it with code words.
   */
  lemma AllowedCodebooks(b: BandInput, cb: Cb)
    ensures b.zero ==> (Allowed(b, cb) <==> CB_OUT_MAP[cb] == 0)
    ensures !b.zero && b.bandType >= 13 ==> (Allowed(b, cb) <==> CB_OUT_MAP[cb] == b.bandType)
    ensures !b.zero && b.bandType <= 11 ==> (Allowed(b, cb) <==> b.bandType <= CB_OUT_MAP[cb] <= 11)
  {
  }

  function BitsOf(b: BandInput, cb: Cb): nat
  {
    if b.zero then 0 else b.bits[cb]
  }

  /** `next_minbits` and `next_mincb`; no number stands for infinity. */
  datatype Best = Best(bits: Option<int>, cb: Cb)

  function StayCost(from: Cell, bits: nat, n: Width): int {
    from.cost + bits + (if TableBits(from.run, n) != TableBits(from.run + 1, n) then n else 0)
  }

  /** The path that reaches codebook cb at the next band: a new section behind the best path, or one band more. */
  function Extend(from: Cell, cb: nat, min: Best, bits: nat, n: Width): Cell {
    var stay := StayCost(from, bits, n);
    if min.bits.Some? && min.bits.value + bits + n + 4 < stay
    then Cell(min.cb, min.bits.value + bits + n + 4, 1)
    else Cell(cb, stay, from.run + 1)
  }

  function NewCell(row: Row, b: BandInput, cb: Cb, min: Best, n: Width): Cell {
    if Allowed(b, cb) then Extend(row[cb], cb, min, BitsOf(b, cb), n) else NO_PATH
  }

  function NextRow(row: Row, b: BandInput, min: Best, n: Width): (r: Row)
    ensures forall cb: Cb :: r[cb] == NewCell(row, b, cb, min, n)
  {
    seq(15, cb requires 0 <= cb < 15 => NewCell(row, b, cb, min, n))
  }

  /** The cheapest of the first m allowed codebooks, the first one among equals. */
  function Least(row: Row, b: BandInput, m: nat): (r: Best)
    requires m <= CB_TOT_ALL
    ensures r.bits.Some? ==> r.cb < m && Allowed(b, r.cb) && r.bits.value == row[r.cb].cost
  {
    if m == 0 then Best(None, 0)
    else
      var best := Least(row, b, m - 1);
      if Allowed(b, m - 1) && (best.bits.None? || row[m - 1].cost < best.bits.value)
      then Best(Some(row[m - 1].cost), m - 1) else best
  }

  function FirstRow(n: Width): (r: Row)
    ensures forall cb: Cb :: r[cb] == Cell(-1, n + 4, 0)
  {
    Repeat(Cell(-1, n + 4, 0), 15)
  }

  /** The rows of the trellis for these bands, and the best of each row. */
  ghost predicate Filled(rows: seq<Row>, bests: seq<Best>, bands: seq<BandInput>, n: Width) {
    && |rows| == |bands| + 1 && |bests| == |bands| + 1
    && rows[0] == FirstRow(n) && bests[0] == Best(None, 0)
    && (forall p {:trigger bands[p]} :: 0 <= p < |bands| ==>
          rows[p + 1] == NextRow(rows[p], bands[p], bests[p], n) && bests[p + 1] == Least(rows[p + 1], bands[p], CB_TOT_ALL))
  }

  // ---------------------------------------------------------------- the path found by going back

  /** The sections, by trellis codebook, of the path that ends in codebook cb at position pos. */
  function Backtrack(rows: seq<Row>, pos: nat, cb: Cb): seq<Section>
    requires pos < |rows|
  {
    var run := rows[pos][cb].run;
    if run == 0 || run > pos then []
    else
      var prev := rows[pos - run + 1][cb].prev;
      if 0 <= prev < CB_TOT_ALL then Backtrack(rows, pos - run, prev) + [Section(cb, run)] else []
  }

  function SumBits(bands: seq<BandInput>, cb: Cb): nat {
    if bands == [] then 0
    else SumBits(bands[..|bands| - 1], cb) + BitsOf(bands[|bands| - 1], cb)
  }

  /** The sections cover the bands, from the last one back, with codebooks that the bands may use. */
  predicate Covers(secs: seq<Section>, bands: seq<BandInput>) {
    if secs == [] then bands == []
    else
      var s := secs[|secs| - 1];
      var k := |bands| - s.len;
      && 1 <= s.len <= |bands| && s.cb < CB_TOT_ALL
      && (forall p :: k <= p < |bands| ==> Allowed(bands[p], s.cb))
      && Covers(secs[..|secs| - 1], bands[..k])
  }

  /** The bits of the section data, by the tables, and of the coefficients. */
  function PathCost(secs: seq<Section>, bands: seq<BandInput>, n: Width): nat
    requires Covers(secs, bands)
  {
    if secs == [] then 0
    else
      var s := secs[|secs| - 1];
      var k := |bands| - s.len;
      PathCost(secs[..|secs| - 1], bands[..k], n) + 4 + TableBits(s.len, n) + SumBits(bands[k..], s.cb)
  }

  /** One section behind others. */
  lemma {:induction false} LastSection(front: seq<Section>, s: Section, bands: seq<BandInput>, n: Width)
    requires s.cb < CB_TOT_ALL && 1 <= s.len <= |bands|
    ensures var k := |bands| - s.len;
            && (Covers(front + [s], bands) <==>
                Covers(front, bands[..k]) && forall p :: k <= p < |bands| ==> Allowed(bands[p], s.cb))
            && (Covers(front + [s], bands) ==>
                  PathCost(front + [s], bands, n) ==
                  PathCost(front, bands[..k], n) + 4 + TableBits(s.len, n) + SumBits(bands[k..], s.cb))
  {
    assert (front + [s])[..|front|] == front && (front + [s])[|front|] == s;
  }

  lemma SumBitsMore(bands: seq<BandInput>, b: BandInput, cb: Cb)
    ensures SumBits(bands + [b], cb) == SumBits(bands, cb) + BitsOf(b, cb)
  {
    assert (bands + [b])[..|bands|] == bands;
  }

  lemma AppendSlices<T>(s: seq<T>, x: T, k: nat)
    requires k <= |s|
    ensures (s + [x])[..k] == s[..k] && (s + [x])[k..] == s[k..] + [x]
  {
  }

  /** One band more in the last section. */
  lemma {:induction false} LongerRun(front: seq<Section>, cb: Cb, run: nat, bands: seq<BandInput>, b: BandInput, n: Width)
    requires 1 <= run && run + 1 < TableEnd(n) && Covers(front + [Section(cb, run)], bands) && Allowed(b, cb)
    ensures Covers(front + [Section(cb, run + 1)], bands + [b])
    ensures PathCost(front + [Section(cb, run + 1)], bands + [b], n) ==
            PathCost(front + [Section(cb, run)], bands, n) + BitsOf(b, cb)
            + (if TableBits(run, n) != TableBits(run + 1, n) then n else 0)
  {
    LongerRunCovers(front, cb, run, bands, b);
    var k := |bands| - run;
    LastSection(front, Section(cb, run), bands, n);
    LastSection(front, Section(cb, run + 1), bands + [b], n);
    AppendSlices(bands, b, k);
    SumBitsMore(bands[k..], b, cb);
    TableGrows(run, n);
  }

  lemma {:induction false} LongerRunCovers(front: seq<Section>, cb: Cb, run: nat, bands: seq<BandInput>, b: BandInput)
    requires run >= 1 && Covers(front + [Section(cb, run)], bands) && Allowed(b, cb)
    ensures run <= |bands| && Covers(front + [Section(cb, run + 1)], bands + [b])
  {
    var k := |bands| - run;
    assert (front + [Section(cb, run)])[|front|] == Section(cb, run);
    assert (front + [Section(cb, run)])[..|front|] == front;
    assert (front + [Section(cb, run + 1)])[|front|] == Section(cb, run + 1);
    assert (front + [Section(cb, run + 1)])[..|front|] == front;
    AppendSlices(bands, b, k);
  }

  /** A new section of one band. */
  lemma {:induction false} NewRun(front: seq<Section>, cb: Cb, bands: seq<BandInput>, b: BandInput, n: Width)
    requires Covers(front, bands) && Allowed(b, cb)
    ensures var secs' := front + [Section(cb, 1)];
            && Covers(secs', bands + [b])
            && PathCost(secs', bands + [b], n) == PathCost(front, bands, n) + 4 + n + BitsOf(b, cb)
  {
    LastSection(front, Section(cb, 1), bands + [b], n);
    assert (bands + [b])[..|bands|] == bands && (bands + [b])[|bands|..] == [b];
    assert [b][..0] == [];
    assert SumBits([b], cb) == SumBits([], cb) + BitsOf(b, cb);
    TableGrows(0, n);
  }

  /** Going back from a cell moves on at every round and reaches the first row. */
  predicate Rooted(rows: seq<Row>, pos: nat, cb: Cb)
    requires pos < |rows|
  {
    pos == 0 ||
    var run := rows[pos][cb].run;
    && 1 <= run <= pos
    && var prev := rows[pos - run + 1][cb].prev;
       0 <= prev < CB_TOT_ALL && Rooted(rows, pos - run, prev)
  }

  /** What going back from a cell finds. */
  ghost predicate Sound(rows: seq<Row>, bands: seq<BandInput>, n: Width, pos: nat, cb: Cb)
    requires |rows| == |bands| + 1 && pos <= |bands|
  {
    var c := rows[pos][cb];
    if pos == 0 then c.run == 0 && c.cost == n + 4
    else
      && 1 <= c.run <= pos
      && 0 <= rows[pos - c.run + 1][cb].prev < CB_TOT_ALL
      && Covers(Backtrack(rows, pos, cb), bands[..pos])
      && c.cost == PathCost(Backtrack(rows, pos, cb), bands[..pos], n)
  }

  // ---------------------------------------------------------------- where a cell comes from

  /** The cell was reached by one band more of the same codebook. */
  predicate Stays(rows: seq<Row>, b: BandInput, n: Width, pos: nat, cb: Cb)
    requires 0 < pos < |rows|
  {
    var from := rows[pos - 1][cb];
    rows[pos][cb] == Cell(cb, StayCost(from, BitsOf(b, cb), n), from.run + 1)
  }

  /** The cell was reached by a new section behind the cell of an allowed codebook. */
  predicate Switches(rows: seq<Row>, bands: seq<BandInput>, n: Width, pos: nat, cb: Cb)
    requires |rows| == |bands| + 1 && 0 < pos <= |bands|
  {
    var prev := rows[pos][cb].prev;
    && pos > 1 && 0 <= prev < CB_TOT_ALL && Allowed(bands[pos - 2], prev)
    && rows[pos][cb] == Cell(prev, rows[pos - 1][prev].cost + BitsOf(bands[pos - 1], cb) + n + 4, 1)
  }

  lemma {:induction false} Origin(rows: seq<Row>, bests: seq<Best>, bands: seq<BandInput>, n: Width, pos: nat, cb: Cb)
    requires Filled(rows, bests, bands, n) && 0 < pos <= |bands|
    ensures !Allowed(bands[pos - 1], cb) ==> rows[pos][cb] == NO_PATH
    ensures Allowed(bands[pos - 1], cb) ==> Stays(rows, bands[pos - 1], n, pos, cb) || Switches(rows, bands, n, pos, cb)
  {
    assert rows[pos] == NextRow(rows[pos - 1], bands[pos - 1], bests[pos - 1], n);
    if pos > 1 {
      assert bests[pos - 1] == Least(rows[pos - 1], bands[pos - 2], CB_TOT_ALL);
    }
  }

  /** A run is no longer than the bands before it. */
  lemma {:induction false} RunAtMost(rows: seq<Row>, bests: seq<Best>, bands: seq<BandInput>, n: Width, pos: nat, cb: Cb)
    requires Filled(rows, bests, bands, n) && pos <= |bands|
    ensures rows[pos][cb].run <= pos
    decreases pos
  {
    if pos > 0 {
      Origin(rows, bests, bands, n, pos, cb);
      RunAtMost(rows, bests, bands, n, pos - 1, cb);
    }
  }

  lemma {:induction false} FirstIsSound(rows: seq<Row>, bands: seq<BandInput>, n: Width, cb: Cb)
    requires |rows| == |bands| + 1 && 1 <= |bands| && Allowed(bands[0], cb)
    requires rows[1][cb] == Cell(cb, n + 4 + BitsOf(bands[0], cb), 1) && rows[0][cb].run == 0
    ensures Sound(rows, bands, n, 1, cb)
  {
    var front := Backtrack(rows, 0, cb);
    assert front == [] && bands[..0] == [];
    assert Backtrack(rows, 1, cb) == front + [Section(cb, 1)];
    assert bands[..1] == bands[..0] + [bands[0]];
    NewRun(front, cb, bands[..0], bands[0], n);
  }

  lemma {:induction false} StayIsSound(rows: seq<Row>, bands: seq<BandInput>, n: Width, pos: nat, cb: Cb)
    requires |rows| == |bands| + 1 && 1 < pos <= |bands| < TableEnd(n)
    requires Sound(rows, bands, n, pos - 1, cb) && Allowed(bands[pos - 1], cb) && Stays(rows, bands[pos - 1], n, pos, cb)
    ensures Sound(rows, bands, n, pos, cb)
  {
    var run := rows[pos - 1][cb].run;
    var k := pos - 1 - run;
    var front := Backtrack(rows, k, rows[k + 1][cb].prev);
    assert Backtrack(rows, pos - 1, cb) == front + [Section(cb, run)];
    assert Backtrack(rows, pos, cb) == front + [Section(cb, run + 1)];
    assert bands[..pos] == bands[..pos - 1] + [bands[pos - 1]];
    LongerRun(front, cb, run, bands[..pos - 1], bands[pos - 1], n);
  }

  lemma {:induction false} SwitchIsSound(rows: seq<Row>, bands: seq<BandInput>, n: Width, pos: nat, cb: Cb, prev: Cb)
    requires |rows| == |bands| + 1 && 1 < pos <= |bands| && prev == rows[pos][cb].prev
    requires Sound(rows, bands, n, pos - 1, prev) && Allowed(bands[pos - 1], cb) && Switches(rows, bands, n, pos, cb)
    ensures Sound(rows, bands, n, pos, cb)
  {
    var front := Backtrack(rows, pos - 1, prev);
    assert Backtrack(rows, pos, cb) == front + [Section(cb, 1)];
    assert bands[..pos] == bands[..pos - 1] + [bands[pos - 1]];
    NewRun(front, cb, bands[..pos - 1], bands[pos - 1], n);
  }

  /** Every cell from which going back reaches the first row ends a path of exactly the cost in the cell. */
  lemma {:induction false} RootedIsSound(rows: seq<Row>, bests: seq<Best>, bands: seq<BandInput>, n: Width, pos: nat, cb: Cb)
    requires Filled(rows, bests, bands, n) && pos <= |bands| < TableEnd(n) && Rooted(rows, pos, cb)
    ensures Sound(rows, bands, n, pos, cb)
    decreases pos
  {
    if pos > 0 {
      Origin(rows, bests, bands, n, pos, cb);
      if Switches(rows, bands, n, pos, cb) {
        RootedIsSound(rows, bests, bands, n, pos - 1, rows[pos][cb].prev);
        SwitchIsSound(rows, bands, n, pos, cb, rows[pos][cb].prev);
      } else if pos == 1 {
        TableGrows(0, n);
        FirstIsSound(rows, bands, n, cb);
      } else {
        RootedIsSound(rows, bests, bands, n, pos - 1, cb);
        StayIsSound(rows, bands, n, pos, cb);
      }
    }
  }

  /** A cell whose cost is below the sentinel was not reached through a cell without a path. */
  lemma {:induction false} CheapIsRooted(rows: seq<Row>, bests: seq<Best>, bands: seq<BandInput>, n: Width, pos: nat, cb: Cb)
    requires Filled(rows, bests, bands, n) && pos <= |bands| < TableEnd(n) && rows[pos][cb].cost < SENTINEL
    ensures Rooted(rows, pos, cb)
    decreases pos
  {
    if pos > 0 {
      Origin(rows, bests, bands, n, pos, cb);
      if Switches(rows, bands, n, pos, cb) {
        CheapIsRooted(rows, bests, bands, n, pos - 1, rows[pos][cb].prev);
      } else {
        CheapIsRooted(rows, bests, bands, n, pos - 1, cb);
      }
    }
  }

  // ---------------------------------------------------------------- when going back ends

  /** The position and codebook after some rounds of going back; Off behind a link that is no codebook. */
  datatype Place = At(pos: nat, cb: Cb) | Off

  /** One round of the loop, which ends at position 0. */
  function Back(rows: seq<Row>, p: Place): (r: Place)
    requires p.At? ==> p.pos < |rows|
    ensures r.At? ==> r.pos < |rows|
  {
    if p.Off? || p.pos == 0 then p
    else
      var run := rows[p.pos][p.cb].run;
      if run > p.pos || p.pos - run + 1 >= |rows| then Off
      else
        var prev := rows[p.pos - run + 1][p.cb].prev;
        if 0 <= prev < CB_TOT_ALL then At(p.pos - run, prev) else Off
  }

  function Rounds(rows: seq<Row>, p: Place, k: nat): (r: Place)
    requires p.At? ==> p.pos < |rows|
    ensures r.At? ==> r.pos < |rows|
    decreases k
  {
    if k == 0 then p else Rounds(rows, Back(rows, p), k - 1)
  }

  /** Going back from a place reaches the first row in some number of rounds. */
  ghost predicate Ends(rows: seq<Row>, p: Place)
    requires p.At? ==> p.pos < |rows|
  {
    exists k: nat :: Rounds(rows, p, k).At? && Rounds(rows, p, k).pos == 0
  }

  lemma {:induction false} RootedEnds(rows: seq<Row>, pos: nat, cb: Cb)
    requires pos < |rows| && Rooted(rows, pos, cb)
    ensures Ends(rows, At(pos, cb))
    decreases pos
  {
    if pos == 0 {
      assert Rounds(rows, At(pos, cb), 0) == At(pos, cb);
    } else {
      var run := rows[pos][cb].run;
      var prev := rows[pos - run + 1][cb].prev;
      RootedEnds(rows, pos - run, prev);
      var k: nat :| Rounds(rows, At(pos - run, prev), k).At? && Rounds(rows, At(pos - run, prev), k).pos == 0;
      assert Rounds(rows, At(pos, cb), k + 1) == Rounds(rows, At(pos - run, prev), k);
    }
  }

  /**
    Going back from a place of the trellis ends whatever is in the row behind the last one: the
    search never stores that row, but a run of no bands in the last row makes a round read it.
   */
  ghost predicate SureToEnd(rows: seq<Row>, p: Place)
    requires p.At? ==> p.pos < |rows|
  {
    forall beyond: Row :: Ends(rows + [beyond], p)
  }

  lemma {:induction false} RootedInFront(rows: seq<Row>, beyond: Row, pos: nat, cb: Cb)
    requires pos < |rows|
    ensures Rooted(rows + [beyond], pos, cb) <==> Rooted(rows, pos, cb)
    decreases pos
  {
    if pos > 0 && 1 <= rows[pos][cb].run <= pos {
      var run := rows[pos][cb].run;
      var prev := rows[pos - run + 1][cb].prev;
      if 0 <= prev < CB_TOT_ALL {
        RootedInFront(rows, beyond, pos - run, prev);
      }
    }
  }

  /** A place without a way to the first row; a cell without a path is entered from one more band of its own codebook. */
  ghost predicate Lost(rows: seq<Row>, beyond: Row, p: Place) {
    p.Off? ||
    (&& 0 < p.pos < |rows| && !Rooted(rows, p.pos, p.cb)
     && (rows[p.pos][p.cb].run == 0 ==> (rows + [beyond])[p.pos + 1][p.cb].prev == p.cb))
  }

  /** The row in which a run starts: a new section, or one more band behind a cell without a path. */
  lemma {:induction false} RunStart(rows: seq<Row>, bests: seq<Best>, bands: seq<BandInput>, n: Width, pos: nat, cb: Cb)
    requires Filled(rows, bests, bands, n) && 0 < pos <= |bands| && rows[pos][cb].run > 0
    ensures var run := rows[pos][cb].run;
            && run <= pos
            && var prev := rows[pos - run + 1][cb].prev;
               && 0 <= prev < CB_TOT_ALL
               && (pos - run > 0 && rows[pos - run][prev].run == 0 ==> prev == cb)
    decreases pos
  {
    Origin(rows, bests, bands, n, pos, cb);
    if Switches(rows, bands, n, pos, cb) {
      Origin(rows, bests, bands, n, pos - 1, rows[pos][cb].prev);
    } else if pos > 1 && rows[pos - 1][cb].run > 0 {
      RunStart(rows, bests, bands, n, pos - 1, cb);
    }
  }

  lemma {:induction false} LostStaysLost(rows: seq<Row>, beyond: Row, bests: seq<Best>, bands: seq<BandInput>, n: Width, p: Place, k: nat)
    requires Filled(rows, bests, bands, n) && Lost(rows, beyond, p)
    ensures Lost(rows, beyond, Rounds(rows + [beyond], p, k))
    decreases k
  {
    if k > 0 {
      LostMovesOn(rows, beyond, bests, bands, n, p);
      LostStaysLost(rows, beyond, bests, bands, n, Back(rows + [beyond], p), k - 1);
    }
  }

  lemma {:induction false} RootedFromPrev(rows: seq<Row>, pos: nat, cb: Cb, prev: Cb)
    requires 0 < pos < |rows| && 1 <= rows[pos][cb].run <= pos && prev == rows[pos - rows[pos][cb].run + 1][cb].prev
    ensures Rooted(rows, pos - rows[pos][cb].run, prev) ==> Rooted(rows, pos, cb)
    ensures Rooted(rows, 0, prev)
  {
  }

  lemma {:induction false} LostMovesOn(rows: seq<Row>, beyond: Row, bests: seq<Best>, bands: seq<BandInput>, n: Width, p: Place)
    requires Filled(rows, bests, bands, n) && Lost(rows, beyond, p)
    ensures Lost(rows, beyond, Back(rows + [beyond], p))
  {
    if p.At? {
      var run := rows[p.pos][p.cb].run;
      if run > 0 {
        RunStart(rows, bests, bands, n, p.pos, p.cb);
        var prev: Cb := rows[p.pos - run + 1][p.cb].prev;
        RootedFromPrev(rows, p.pos, p.cb, prev);
        assert Back(rows + [beyond], p) == At(p.pos - run, prev);
      }
    }
  }

  /** The row that keeps the search where it is. */
  const STUCK: Row := seq(15, cb => Cell(cb, 0, 0))

  /** Exactly when the loop that goes back from the end of a path is sure to come to its end. */
  lemma {:induction false} EndsIffRooted(rows: seq<Row>, bests: seq<Best>, bands: seq<BandInput>, n: Width, end: Cb)
    requires Filled(rows, bests, bands, n)
    ensures SureToEnd(rows, At(|bands|, end)) <==> Rooted(rows, |bands|, end)
  {
    if Rooted(rows, |bands|, end) {
      forall beyond: Row ensures Ends(rows + [beyond], At(|bands|, end)) {
        RootedInFront(rows, beyond, |bands|, end);
        RootedEnds(rows + [beyond], |bands|, end);
      }
    } else {
      forall k: nat ensures Lost(rows, STUCK, Rounds(rows + [STUCK], At(|bands|, end), k)) {
        LostStaysLost(rows, STUCK, bests, bands, n, At(|bands|, end), k);
      }
      assert !Ends(rows + [STUCK], At(|bands|, end));
    }
  }

  // ---------------------------------------------------------------- the whole search

  /** The trellis for these bands. */
  function Trellis(bands: seq<BandInput>, n: Width): (r: (seq<Row>, seq<Best>))
    ensures |r.0| == |bands| + 1 && |r.1| == |bands| + 1
  {
    if bands == [] then ([FirstRow(n)], [Best(None, 0)])
    else
      var k := |bands| - 1;
      var (rows, bests) := Trellis(bands[..k], n);
      var row := NextRow(rows[k], bands[k], bests[k], n);
      (rows + [row], bests + [Least(row, bands[k], CB_TOT_ALL)])
  }

  lemma {:induction false} TrellisIsFilled(bands: seq<BandInput>, n: Width)
    ensures Filled(Trellis(bands, n).0, Trellis(bands, n).1, bands, n)
  {
    if bands != [] {
      var k := |bands| - 1;
      TrellisIsFilled(bands[..k], n);
      assert bands == bands[..k] + [bands[k]];
      FilledMore(Trellis(bands[..k], n).0, Trellis(bands[..k], n).1, bands[..k], bands[k], n);
    }
  }

  lemma {:induction false} FilledMore(rows: seq<Row>, bests: seq<Best>, bands: seq<BandInput>, b: BandInput, n: Width)
    requires Filled(rows, bests, bands, n)
    ensures var row := NextRow(rows[|bands|], b, bests[|bands|], n);
            Filled(rows + [row], bests + [Least(row, b, CB_TOT_ALL)], bands + [b], n)
  {
  }
}
