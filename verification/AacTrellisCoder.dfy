/**
  The codebook search of the AAC encoder as it runs, `codebook_trellis_rate`: the loops that fill
  the table, the one that goes back through it, and the one that writes the sections.
 */
module AacTrellisCoder {
  import opened Wrappers
  import opened AacSections
  import opened AacTrellis
  import opened AacTrellisCost
  import opened AacTrellisEnds

  class PutBits {
    var bits: seq<bool>

    constructor ()
      ensures bits == []
    {
      bits := [];
    }

    method Put(n: nat, v: nat)
      requires v < Pow2(n)
      modifies this
      ensures bits == old(bits) + ToBits(v, n)
    {
      bits := bits + ToBits(v, n);
    }
  }

  /** The first k rows of the table are those of the trellis. */
  ghost predicate Holds(path: array2<Cell>, rows: seq<Row>, k: nat)
    reads path
  {
    && k <= |rows| && k <= path.Length0 && path.Length1 == 15
    && forall p: nat, cb: Cb :: p < k ==> path[p, cb] == rows[p][cb]
  }

  /** The first loop of `codebook_trellis_rate`. */
  method FillFirst(path: array2<Cell>, n: Width)
    requires path.Length0 > 0 && path.Length1 == 15
    modifies path
    ensures Holds(path, [FirstRow(n)], 1)
  {
    var cb := 0;
    while cb < CB_TOT_ALL
      invariant 0 <= cb <= CB_TOT_ALL
      invariant forall c: Cb :: c < cb ==> path[0, c] == Cell(-1, n + 4, 0)
    {
      path[0, cb] := Cell(-1, n + 4, 0);
      cb := cb + 1;
    }
  }

  /** The loop over the bands. */
  method FillTrellis(bands: seq<BandInput>, n: Width) returns (path: array2<Cell>)
    requires |bands| < TableEnd(n)
    ensures fresh(path) && path.Length0 == |bands| + 1 && Holds(path, Trellis(bands, n).0, |bands| + 1)
  {
    path := new Cell[|bands| + 1, 15]((_, _) => NO_PATH);
    FillFirst(path, n);
    var next := Best(None, 0);
    var swb := 0;
    ghost var rows, bests := [FirstRow(n)], [next];
    assert bands[..0] == [];
    while swb < |bands|
      invariant 0 <= swb <= |bands| && |rows| == |bests| == swb + 1
      invariant Trellis(bands[..swb], n) == (rows, bests)
      invariant Holds(path, rows, swb + 1) && next == bests[swb]
    {
      next, rows, bests := FillNext(path, bands, swb, next, n, rows, bests);
      swb := swb + 1;
    }
    assert bands[..|bands|] == bands;
  }

  /** One more row, with what it adds to the trellis. */
  method FillNext(path: array2<Cell>, bands: seq<BandInput>, swb: nat, min: Best, n: Width, ghost rows: seq<Row>, ghost bests: seq<Best>)
    returns (next: Best, ghost rows': seq<Row>, ghost bests': seq<Best>)
    requires swb < |bands| < path.Length0 && |bands| < TableEnd(n) && |rows| == |bests| == swb + 1
    requires Trellis(bands[..swb], n) == (rows, bests) && Holds(path, rows, swb + 1) && min == bests[swb]
    modifies path
    ensures |rows'| == |bests'| == swb + 2 && next == bests'[swb + 1]
    ensures Trellis(bands[..swb + 1], n) == (rows', bests') && Holds(path, rows', swb + 2)
  {
    OneRowMore(bands, swb, n, rows, bests);
    RunsFit(bands[..swb], n);
    ghost var row := NextRow(rows[swb], bands[swb], min, n);
    next := FillRow(path, swb, bands[swb], min, n, rows);
    rows', bests' := rows + [row], bests + [next];
  }

  /** The runs of the last row stay within the tables. */
  lemma {:induction false} RunsFit(bands: seq<BandInput>, n: Width)
    ensures forall cb: Cb :: Trellis(bands, n).0[|bands|][cb].run <= |bands|
  {
    var (rows, bests) := Trellis(bands, n);
    TrellisIsFilled(bands, n);
    forall cb: Cb ensures rows[|bands|][cb].run <= |bands| {
      RunAtMost(rows, bests, bands, n, |bands|, cb);
    }
  }

  lemma {:induction false} OneRowMore(bands: seq<BandInput>, swb: nat, n: Width, rows: seq<Row>, bests: seq<Best>)
    requires swb < |bands| && |rows| == |bests| == swb + 1 && Trellis(bands[..swb], n) == (rows, bests)
    ensures var row := NextRow(rows[swb], bands[swb], bests[swb], n);
            Trellis(bands[..swb + 1], n) == (rows + [row], bests + [Least(row, bands[swb], CB_TOT_ALL)])
  {
    assert bands[..swb + 1][..swb] == bands[..swb];
  }

  /** The cell of an allowed codebook, from the cell of the same codebook in the row before. */
  method ReachCell(from: Cell, cb: Cb, min: Best, bits: nat, n: Width) returns (c: Cell)
    requires from.run + 1 < |RunValueBits(n)|
    ensures c == Extend(from, cb, min, bits, n)
  {
    TablesHold(n);
    var stay := from.cost + bits;
    if RunValueBits(n)[from.run] != RunValueBits(n)[from.run + 1] {
      stay := stay + n;
    }
    if min.bits.Some? && min.bits.value + bits + n + 4 < stay {
      c := Cell(min.cb, min.bits.value + bits + n + 4, 1);
    } else {
      c := Cell(cb, stay, from.run + 1);
    }
  }

  /** The cell of one codebook in row swb + 1. */
  method FillCell(path: array2<Cell>, swb: nat, b: BandInput, cb: Cb, min: Best, n: Width)
    requires swb + 1 < path.Length0 && path.Length1 == 15 && path[swb, cb].run + 1 < TableEnd(n)
    modifies path
    ensures path[swb + 1, cb] == if Allowed(b, cb) then Extend(old(path[swb, cb]), cb, min, BitsOf(b, cb), n) else NO_PATH
    ensures forall p: nat, c: Cb :: p < path.Length0 && (p != swb + 1 || c != cb) ==> path[p, c] == old(path[p, c])
  {
    var cell := NO_PATH;
    if Allowed(b, cb) {
      TablesHold(n);
      cell := ReachCell(path[swb, cb], cb, min, BitsOf(b, cb), n);
    }
    path[swb + 1, cb] := cell;
  }

  /** The body of the loop over the bands: row swb + 1 from row swb. */
  method FillRow(path: array2<Cell>, swb: nat, b: BandInput, min: Best, n: Width, ghost rows: seq<Row>) returns (next: Best)
    requires swb + 1 < path.Length0 && swb + 1 < TableEnd(n) && |rows| == swb + 1 && Holds(path, rows, swb + 1)
    requires forall cb: Cb :: rows[swb][cb].run <= swb
    modifies path
    ensures var row := NextRow(rows[swb], b, min, n);
            Holds(path, rows + [row], swb + 2) && next == Least(row, b, CB_TOT_ALL)
  {
    ghost var row := NextRow(rows[swb], b, min, n);
    next := Best(None, 0);
    var cb := 0;
    while cb < CB_TOT_ALL
      invariant 0 <= cb <= CB_TOT_ALL
      invariant forall p: nat, c: Cb :: p < swb + 1 ==> path[p, c] == rows[p][c]
      invariant forall c: Cb :: c < cb ==> path[swb + 1, c] == row[c]
      invariant next == Least(row, b, cb)
    {
      assert path[swb, cb] == rows[swb][cb];
      FillCell(path, swb, b, cb, min, n);
      assert path[swb + 1, cb] == row[cb];
      if Allowed(b, cb) && (next.bits.None? || path[swb + 1, cb].cost < next.bits.value) {
        next := Best(Some(path[swb + 1, cb].cost), cb);
      }
      cb := cb + 1;
    }
  }

  /** The cheapest cell of the last row, the first one among equals. */
  method CheapestEnd(path: array2<Cell>, max: nat) returns (idx: Cb)
    requires max < path.Length0 && path.Length1 == 15
    ensures forall cb: Cb :: path[max, idx].cost <= path[max, cb].cost
    ensures forall cb: Cb :: cb < idx ==> path[max, idx].cost < path[max, cb].cost
  {
    idx := 0;
    var cb: Cb := 0;
    var i := 1;
    while i < CB_TOT_ALL
      invariant 1 <= i <= CB_TOT_ALL && idx < i
      invariant forall c: Cb :: c < i ==> path[max, idx].cost <= path[max, c].cost
      invariant forall c: Cb :: c < idx ==> path[max, idx].cost < path[max, c].cost
    {
      if path[max, i].cost < path[max, idx].cost {
        idx := i;
      }
      i := i + 1;
    }
  }

  /** The loop that goes back from the end of the path; the stack is listed from its top. */
  method GoBack(path: array2<Cell>, ghost rows: seq<Row>, max: nat, end: Cb) returns (stack: seq<Section>)
    requires |rows| == max + 1 && path.Length0 == max + 1 && Holds(path, rows, max + 1)
    requires Rooted(rows, max, end)
    ensures stack == Backtrack(rows, max, end)
  {
    stack := [];
    var idx: Cb := end;
    var ppos: nat := max;
    while ppos > 0
      invariant 0 <= ppos <= max && Rooted(rows, ppos, idx)
      invariant Backtrack(rows, max, end) == Backtrack(rows, ppos, idx) + stack
    {
      assert path[ppos, idx] == rows[ppos][idx];
      var run := path[ppos, idx].run;
      assert path[ppos - run + 1, idx] == rows[ppos - run + 1][idx];
      var prev := path[ppos - run + 1, idx].prev;
      Associative(Backtrack(rows, ppos - run, prev), [Section(idx, run)], stack);
      stack := [Section(idx, run)] + stack;
      idx := prev;
      ppos := ppos - run;
    }
    StartIsEmpty(rows, idx, stack);
  }

  lemma StartIsEmpty(rows: seq<Row>, idx: Cb, stack: seq<Section>)
    requires |rows| > 0
    ensures Backtrack(rows, 0, idx) + stack == stack
  {
  }

  /** A run length with its escapes. */
  method WriteRun(pb: PutBits, len: nat, n: Width)
    modifies pb
    ensures pb.bits == old(pb.bits) + RunCode(len, n)
  {
    var count: nat := len;
    while count >= Esc(n)
      invariant pb.bits + RunCode(count, n) == old(pb.bits) + RunCode(len, n)
      decreases count
    {
      Associative(pb.bits, ToBits(Esc(n), n), RunCode(count - Esc(n), n));
      pb.Put(n, Esc(n));
      count := count - Esc(n);
    }
    pb.Put(n, count);
  }

  /** The first entries of the array are the codebooks of these bands. */
  ghost predicate HasBandTypes(types: seq<nat>, bands: seq<Band>) {
    |bands| <= |types| && forall i :: 0 <= i < |bands| ==> types[i] == bands[i].cb
  }

  lemma MoreBandTypes(types: seq<nat>, types': seq<nat>, bands: seq<Band>, cb: nat, end: nat, count: nat)
    requires HasBandTypes(types, bands) && |bands| + count <= |types|
    requires types' == types[..|bands|] + Repeat(cb, count) + types[|bands| + count..]
    ensures HasBandTypes(types', bands + Repeat(Band(cb, end), count))
  {
  }

  /** One section of the stack: its code is written and the codebook of its bands stored, behind those of `bands`. */
  method WriteSection(pb: PutBits, s: Section, n: Width, bandType: array<nat>, start: nat, ghost bands: seq<Band>)
    requires s.cb < CB_TOT_ALL && start + s.len <= bandType.Length && start == |bands| && HasBandTypes(bandType[..], bands)
    modifies pb, bandType
    ensures pb.bits == old(pb.bits) + SectionCode(Section(CB_OUT_MAP[s.cb], s.len), n)
    ensures HasBandTypes(bandType[..], bands + Repeat(Band(CB_OUT_MAP[s.cb], start + s.len), s.len))
  {
    var cb := CB_OUT_MAP[s.cb];
    ghost var was := bandType[..];
    SmallCodebook(s.cb);
    pb.Put(CB_BITS, cb);
    StoreBandTypes(bandType, start, s.len, cb);
    MoreBandTypes(was, bandType[..], bands, cb, start + s.len, s.len);
    WriteRun(pb, s.len, n);
    Associative(old(pb.bits), ToBits(cb, CB_BITS), RunCode(s.len, n));
  }

  /** The last loop of `codebook_trellis_rate`: the sections are written and the codebooks of their bands stored. */
  method WriteSections(pb: PutBits, stack: seq<Section>, n: Width, bandType: array<nat>)
    requires forall i :: 0 <= i < |stack| ==> stack[i].cb < CB_TOT_ALL
    requires Length(Coded(stack)) <= bandType.Length
    modifies pb, bandType
    ensures pb.bits == old(pb.bits) + SectionsCode(Coded(stack), n)
    ensures HasBandTypes(bandType[..], Bands(Coded(stack), 0))
  {
    ghost var secs := Coded(stack);
    ghost var stored: seq<Band> := [];
    ghost var all := pb.bits + SectionsCode(secs, n);
    var start := 0;
    var i := 0;
    assert secs[0..] == secs && [] + Bands(secs, 0) == Bands(secs, 0);
    while i < |stack|
      invariant 0 <= i <= |stack| && start == |stored|
      invariant Writing(secs, i, n, all, pb.bits, stored) && HasBandTypes(bandType[..], stored)
    {
      stored := WriteNext(pb, stack[i], n, bandType, start, secs, i, all, stored);
      start := start + stack[i].len;
      i := i + 1;
    }
    AllWritten(secs, n, all, pb.bits, stored);
  }

  /** The first i sections have been written, and `stored` are their bands. */
  ghost predicate Writing(secs: seq<Section>, i: nat, n: Width, all: seq<bool>, bits: seq<bool>, stored: seq<Band>) {
    && i <= |secs|
    && |stored| + Length(secs[i..]) == Length(secs)
    && bits + SectionsCode(secs[i..], n) == all
    && stored + Bands(secs[i..], |stored|) == Bands(secs, 0)
  }

  lemma {:induction false} AllWritten(secs: seq<Section>, n: Width, all: seq<bool>, bits: seq<bool>, stored: seq<Band>)
    requires Writing(secs, |secs|, n, all, bits, stored)
    ensures bits == all && stored == Bands(secs, 0)
  {
    assert secs[|secs|..] == [];
    assert bits + [] == bits && stored + [] == stored;
  }

  /** One more section. */
  method WriteNext(pb: PutBits, s: Section, n: Width, bandType: array<nat>, start: nat,
                   ghost secs: seq<Section>, ghost i: nat, ghost all: seq<bool>, ghost stored: seq<Band>)
    returns (ghost stored': seq<Band>)
    requires i < |secs| && s.cb < CB_TOT_ALL && secs[i] == Section(CB_OUT_MAP[s.cb], s.len)
    requires Writing(secs, i, n, all, pb.bits, stored) && start == |stored|
    requires Length(secs) <= bandType.Length && HasBandTypes(bandType[..], stored)
    modifies pb, bandType
    ensures Writing(secs, i + 1, n, all, pb.bits, stored') && |stored'| == start + s.len
    ensures HasBandTypes(bandType[..], stored')
  {
    FirstOfRest(secs, i, n, start, pb.bits, stored);
    WriteSection(pb, s, n, bandType, start, stored);
    stored' := stored + Repeat(Band(secs[i].cb, start + secs[i].len), secs[i].len);
  }

  /** The sections from i on are section i and those behind it. */
  lemma {:induction false} FirstOfRest(secs: seq<Section>, i: nat, n: Width, start: nat, bits: seq<bool>, stored: seq<Band>)
    requires i < |secs|
    ensures var s := secs[i];
            && Length(secs[i..]) == s.len + Length(secs[i + 1..])
            && bits + SectionsCode(secs[i..], n) == (bits + SectionCode(s, n)) + SectionsCode(secs[i + 1..], n)
            && stored + Bands(secs[i..], start) ==
               (stored + Repeat(Band(s.cb, start + s.len), s.len)) + Bands(secs[i + 1..], start + s.len)
  {
    var s := secs[i];
    assert secs[i..][0] == s && secs[i..][1..] == secs[i + 1..];
    Associative(bits, SectionCode(s, n), SectionsCode(secs[i + 1..], n));
    Associative(stored, Repeat(Band(s.cb, start + s.len), s.len), Bands(secs[i + 1..], start + s.len));
  }

  lemma SmallCodebook(cb: Cb)
    ensures CB_OUT_MAP[cb] < Pow2(CB_BITS) && CB_OUT_MAP[cb] != 12
  {
  }

  method StoreBandTypes(bandType: array<nat>, start: nat, count: nat, cb: nat)
    requires start + count <= bandType.Length
    modifies bandType
    ensures bandType[..] == old(bandType[..start]) + Repeat(cb, count) + old(bandType[start + count..])
  {
    var j := 0;
    while j < count
      invariant 0 <= j <= count
      invariant bandType[..] == old(bandType[..start]) + Repeat(cb, j) + old(bandType[start + j..])
    {
      bandType[start + j] := cb;
      j := j + 1;
    }
  }

  /**
    `codebook_trellis_rate`, for bands whose cheapest codebooks stay below the sentinel: a path is
    found whose cost is the least of the last row, its sections are written, and the codebooks of
    all bands are set to what a decoder reads from them.
   */
  method CodebookTrellisRate(pb: PutBits, bands: seq<BandInput>, n: Width, bandType: array<nat>) returns (ghost end: Cb)
    requires |bands| < TableEnd(n) && |bands| <= bandType.Length && Budget(bands, n) < SENTINEL
    modifies pb, bandType
    ensures IsEnd(Trellis(bands, n).0[|bands|], end) && Reaches(bands, n, end)
    ensures var secs := Found(bands, n, end);
            && (forall i :: 0 <= i < |secs| ==> secs[i].cb < CB_TOT_ALL)
            && pb.bits == old(pb.bits) + SectionsCode(Coded(secs), n)
            && HasBandTypes(bandType[..], Bands(Coded(secs), 0))
    ensures forall rest :: ReadBack(bands, n, end, rest)
  {
    var path := FillTrellis(bands, n);
    var idx := CheapestEnd(path, |bands|);
    end := idx;
    AffordableEnds(bands, n, end);
    var stack := GoBack(path, Trellis(bands, n).0, |bands|, idx);
    forall rest ensures ReadBack(bands, n, idx, rest) {
      PathIsWrittenAndRead(bands, n, idx, rest);
    }
    PathIsWrittenAndRead(bands, n, idx, []);
    WriteSections(pb, stack, n, bandType);
  }

  /** The decoder reads the sections of the path back, whatever follows them. */
  ghost predicate ReadBack(bands: seq<BandInput>, n: Width, end: Cb, rest: seq<bool>) {
    var secs := Found(bands, n, end);
    && (forall i :: 0 <= i < |secs| ==> secs[i].cb < CB_TOT_ALL)
    && ReadGroup(SectionsCode(Coded(secs), n) + rest, 0, |bands|, n, []) == Some((Bands(Coded(secs), 0), rest))
  }
}
