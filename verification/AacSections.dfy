/**
  AAC section data (`section_data` of ISO/IEC 14496-3, table 4.46): runs of scalefactor bands that
  share a codebook, as the encoder writes them and `decode_band_types` reads them.
 */
module AacSections {

  import opened Wrappers

  // ---------------------------------------------------------------- bits

  function Pow2(n: nat): (r: nat)
    ensures r > 0
  {
    if n == 0 then 1 else 2 * Pow2(n - 1)
  }

  /** The n low bits of v, the highest first. */
  function ToBits(v: nat, n: nat): (r: seq<bool>)
    ensures |r| == n
  {
    if n == 0 then [] else ToBits(v / 2, n - 1) + [v % 2 == 1]
  }

  function Value(s: seq<bool>): (r: nat)
    ensures r < Pow2(|s|)
  {
    if s == [] then 0 else 2 * Value(s[..|s| - 1]) + (if s[|s| - 1] then 1 else 0)
  }

  lemma {:induction false} BitsRoundTrip(v: nat, n: nat)
    requires v < Pow2(n)
    ensures Value(ToBits(v, n)) == v
  {
    if n > 0 {
      BitsRoundTrip(v / 2, n - 1);
      assert ToBits(v, n)[..n - 1] == ToBits(v / 2, n - 1);
    }
  }

  // ---------------------------------------------------------------- sections

  /** The width of a run length: 5 bits for a long window, 3 bits for short ones. */
  type Width = n: nat | n == 3 || n == 5 witness 3

  /** The run length that means that more follows. */
  function Esc(n: Width): (r: nat)
    ensures r == Pow2(n) - 1 && r >= 7
  {
    if n == 3 then 7 else 31
  }

  /** The width of a codebook number. */
  const CB_BITS: nat := 4

  datatype Section = Section(cb: nat, len: nat)

  /** What the decoder stores for a band: the codebook, and the band behind the end of its run. */
  datatype Band = Band(cb: nat, runEnd: nat)

  function RunCode(len: nat, n: Width): seq<bool> {
    if len >= Esc(n) then ToBits(Esc(n), n) + RunCode(len - Esc(n), n) else ToBits(len, n)
  }

  function SectionCode(s: Section, n: Width): seq<bool> {
    ToBits(s.cb, CB_BITS) + RunCode(s.len, n)
  }

  function SectionsCode(secs: seq<Section>, n: Width): seq<bool> {
    if secs == [] then [] else SectionCode(secs[0], n) + SectionsCode(secs[1..], n)
  }

  function Repeat<T>(x: T, count: nat): (r: seq<T>)
    ensures |r| == count && forall i :: 0 <= i < count ==> r[i] == x
  {
    seq(count, _ => x)
  }

  function Length(secs: seq<Section>): nat {
    if secs == [] then 0 else secs[0].len + Length(secs[1..])
  }

  /** The bands of consecutive sections, the first of which starts at band k. */
  function Bands(secs: seq<Section>, k: nat): seq<Band> {
    if secs == [] then []
    else Repeat(Band(secs[0].cb, k + secs[0].len), secs[0].len) + Bands(secs[1..], k + secs[0].len)
  }

  /** The runs that can be written: a codebook of 4 bits other than 12, and at least one band. */
  predicate Writable(s: Section) {
    s.cb < 16 && s.cb != 12 && s.len >= 1
  }

  // ---------------------------------------------------------------- the decoder, on the bits that are left

  /** The inner loop: the end of a run that starts at `end`, kept in 8 bits. */
  function ReadRun(b: seq<bool>, end: nat, max: nat, n: Width): (r: Option<(nat, seq<bool>)>)
    ensures r.Some? ==> |r.value.1| < |b| && r.value.0 <= max
    decreases |b|
  {
    if |b| < n then None
    else
      var incr := Value(b[..n]);
      var end' := (end + incr) % 256;
      if end' > max then None
      else if incr == Esc(n) then ReadRun(b[n..], end', max, n)
      else Some((end', b[n..]))
  }

  /** The bands of a window group from band k on, behind those that are known. */
  function ReadGroup(b: seq<bool>, k: nat, max: nat, n: Width, acc: seq<Band>): (r: Option<(seq<Band>, seq<bool>)>)
    ensures r.Some? ==> |r.value.1| <= |b|
    ensures r.Some? && k <= max ==> |r.value.0| == |acc| + max - k
    decreases |b|
  {
    if k >= max then Some((acc, b))
    else if |b| < 4 || Value(b[..4]) == 12 then None
    else
      match ReadRun(b[4..], k, max, n)
      case None => None
      case Some((end, b1)) =>
        if end <= k then ReadGroup(b1, k, max, n, acc)
        else ReadGroup(b1, end, max, n, acc + Repeat(Band(Value(b[..4]), end), end - k))
  }

  function ReadGroups(b: seq<bool>, groups: nat, max: nat, n: Width, acc: seq<Band>): (r: Option<(seq<Band>, seq<bool>)>)
    ensures r.Some? ==> |r.value.0| == |acc| + BandsOf(groups, max)
    decreases groups
  {
    if groups == 0 then Some((acc, b))
    else
      match ReadGroup(b, 0, max, n, acc)
      case None => None
      case Some((acc1, b1)) => ReadGroups(b1, groups - 1, max, n, acc1)
  }

  // ---------------------------------------------------------------- round trip

  /** One increment of a run length. */
  lemma OneIncrement(code: seq<bool>, tail: seq<bool>, end: nat, max: nat, n: Width)
    requires |code| == n && end + Value(code) <= max < 256
    ensures ReadRun(code + tail, end, max, n) ==
            if Value(code) == Esc(n) then ReadRun(tail, end + Value(code), max, n) else Some((end + Value(code), tail))
  {
    var b := code + tail;
    assert b[..n] == code && b[n..] == tail;
  }

  lemma LongRun(code: seq<bool>, more: seq<bool>, len: nat, end: nat, max: nat, n: Width, rest: seq<bool>)
    requires |code| == n && Value(code) == Esc(n) <= len && end + len <= max < 256
    requires ReadRun(more + rest, end + Esc(n), max, n) == Some((end + len, rest))
    ensures ReadRun((code + more) + rest, end, max, n) == Some((end + len, rest))
  {
    OneIncrement(code, more + rest, end, max, n);
    Associative(code, more, rest);
  }

  /** A run length is read back, also when it is a multiple of the escape value. */
  lemma {:induction false} RunRoundTrip(len: nat, end: nat, max: nat, n: Width, rest: seq<bool>)
    requires end + len <= max < 256
    ensures ReadRun(RunCode(len, n) + rest, end, max, n) == Some((end + len, rest))
    decreases len
  {
    if len >= Esc(n) {
      EscapeCode(n);
      RunRoundTrip(len - Esc(n), end + Esc(n), max, n, rest);
      LongRun(ToBits(Esc(n), n), RunCode(len - Esc(n), n), len, end, max, n, rest);
    } else {
      ShortRun(len, end, max, n, rest);
    }
  }

  lemma EscapeCode(n: Width)
    ensures Value(ToBits(Esc(n), n)) == Esc(n)
  {
    BitsRoundTrip(Esc(n), n);
  }

  lemma ShortRun(len: nat, end: nat, max: nat, n: Width, rest: seq<bool>)
    requires len < Esc(n) && end + len <= max < 256
    ensures ReadRun(ToBits(len, n) + rest, end, max, n) == Some((end + len, rest))
  {
    BitsRoundTrip(len, n);
    OneIncrement(ToBits(len, n), rest, end, max, n);
  }

  lemma SectionRoundTrip(s: Section, k: nat, max: nat, n: Width, acc: seq<Band>, rest: seq<bool>)
    requires Writable(s) && k + s.len <= max < 256
    ensures ReadGroup(SectionCode(s, n) + rest, k, max, n, acc) ==
            ReadGroup(rest, k + s.len, max, n, acc + Repeat(Band(s.cb, k + s.len), s.len))
  {
    var code := ToBits(s.cb, CB_BITS);
    BitsRoundTrip(s.cb, CB_BITS);
    RunRoundTrip(s.len, k, max, n, rest);
    OneSection(code, RunCode(s.len, n) + rest, s, k, max, n, acc, rest);
    Associative(code, RunCode(s.len, n), rest);
  }

  lemma OneSection(code: seq<bool>, tail: seq<bool>, s: Section, k: nat, max: nat, n: Width, acc: seq<Band>, rest: seq<bool>)
    requires |code| == 4 && Value(code) == s.cb && s.cb != 12 && s.len >= 1 && k < max
    requires ReadRun(tail, k, max, n) == Some((k + s.len, rest))
    ensures ReadGroup(code + tail, k, max, n, acc) ==
            ReadGroup(rest, k + s.len, max, n, acc + Repeat(Band(s.cb, k + s.len), s.len))
  {
    var b := code + tail;
    assert b[..4] == code && b[4..] == tail;
  }

  /** The sections of a group, written one after the other, give back every band with the end of its run. */
  lemma {:induction false} GroupRoundTrip(secs: seq<Section>, k: nat, max: nat, n: Width, acc: seq<Band>, rest: seq<bool>)
    requires forall i :: 0 <= i < |secs| ==> Writable(secs[i])
    requires k + Length(secs) == max < 256
    ensures ReadGroup(SectionsCode(secs, n) + rest, k, max, n, acc) == Some((acc + Bands(secs, k), rest))
    decreases secs
  {
    if secs == [] {
      assert SectionsCode(secs, n) + rest == rest && acc + [] == acc;
    } else {
      var s := secs[0];
      var tail := SectionsCode(secs[1..], n) + rest;
      var acc1 := acc + Repeat(Band(s.cb, k + s.len), s.len);
      SectionsCodeFirst(secs, n, rest);
      SectionRoundTrip(s, k, max, n, acc, tail);
      GroupRoundTrip(secs[1..], k + s.len, max, n, acc1, rest);
      BandsFirst(secs, k, acc);
    }
  }

  lemma SectionsCodeFirst(secs: seq<Section>, n: Width, rest: seq<bool>)
    requires secs != []
    ensures SectionsCode(secs, n) + rest == SectionCode(secs[0], n) + (SectionsCode(secs[1..], n) + rest)
  {
  }

  lemma BandsFirst(secs: seq<Section>, k: nat, acc: seq<Band>)
    requires secs != []
    ensures var s := secs[0];
            (acc + Repeat(Band(s.cb, k + s.len), s.len)) + Bands(secs[1..], k + s.len) == acc + Bands(secs, k)
  {
  }

  function GroupsCode(groups: seq<seq<Section>>, n: Width): seq<bool> {
    if groups == [] then [] else SectionsCode(groups[0], n) + GroupsCode(groups[1..], n)
  }

  function GroupsBands(groups: seq<seq<Section>>): seq<Band> {
    if groups == [] then [] else Bands(groups[0], 0) + GroupsBands(groups[1..])
  }

  /** A partition of max bands into runs that can be written. */
  predicate Partition(secs: seq<Section>, max: nat) {
    Length(secs) == max && forall i :: 0 <= i < |secs| ==> Writable(secs[i])
  }

  /** Reading back the section data written for any partition of every window group. */
  lemma {:induction false} SectionDataRoundTrip(groups: seq<seq<Section>>, max: nat, n: Width, acc: seq<Band>, rest: seq<bool>)
    requires max < 256 && forall g :: 0 <= g < |groups| ==> Partition(groups[g], max)
    ensures ReadGroups(GroupsCode(groups, n) + rest, |groups|, max, n, acc) == Some((acc + GroupsBands(groups), rest))
    decreases groups
  {
    if groups == [] {
      assert GroupsCode(groups, n) + rest == rest && acc + [] == acc;
    } else {
      var tail := GroupsCode(groups[1..], n) + rest;
      GroupRoundTrip(groups[0], 0, max, n, acc, tail);
      SectionDataRoundTrip(groups[1..], max, n, acc + Bands(groups[0], 0), rest);
      GroupsFirst(groups, n, acc, rest);
    }
  }

  lemma GroupsFirst(groups: seq<seq<Section>>, n: Width, acc: seq<Band>, rest: seq<bool>)
    requires groups != []
    ensures GroupsCode(groups, n) + rest == SectionsCode(groups[0], n) + (GroupsCode(groups[1..], n) + rest)
    ensures (acc + Bands(groups[0], 0)) + GroupsBands(groups[1..]) == acc + GroupsBands(groups)
  {
    Associative(SectionsCode(groups[0], n), GroupsCode(groups[1..], n), rest);
    Associative(acc, Bands(groups[0], 0), GroupsBands(groups[1..]));
  }

  /** Every band gets the codebook of the section it lies in, and the end of that section. */
  lemma {:induction false} BandOfSection(secs: seq<Section>, k: nat, i: nat, j: nat)
    requires i < |secs| && j < secs[i].len
    ensures |Bands(secs, k)| == Length(secs) && Length(secs[..i]) + secs[i].len <= Length(secs)
    ensures Bands(secs, k)[Length(secs[..i]) + j] == Band(secs[i].cb, k + Length(secs[..i]) + secs[i].len)
    decreases secs
  {
    BandsLength(secs, k);
    BandsLength(secs[1..], k + secs[0].len);
    if i > 0 {
      assert secs[..i][1..] == secs[1..][..i - 1];
      BandOfSection(secs[1..], k + secs[0].len, i - 1, j);
    } else {
      assert secs[..0] == [];
    }
  }

  lemma {:induction false} BandsLength(secs: seq<Section>, k: nat)
    ensures |Bands(secs, k)| == Length(secs)
    decreases secs
  {
    if secs != [] {
      BandsLength(secs[1..], k + secs[0].len);
    }
  }

  // ---------------------------------------------------------------- the decoder

  /** A bit reader; beyond the end it delivers zeros and its position keeps counting. */
  class GetBits {
    const bits: seq<bool>
    var pos: nat

    constructor (b: seq<bool>)
      ensures bits == b && pos == 0
    {
      bits := b;
      pos := 0;
    }

    function Left(): int
      reads this
    {
      |bits| - pos
    }

    function Rest(): seq<bool>
      reads this
    {
      if pos <= |bits| then bits[pos..] else []
    }

    method Get(n: nat) returns (v: nat)
      modifies this
      ensures pos == old(pos) + n
      ensures |old(Rest())| >= n ==> v == Value(old(Rest())[..n]) && Rest() == old(Rest())[n..]
      ensures Left() < 0 <==> old(Left()) < n
    {
      var b := Rest();
      v := Value(if |b| >= n then b[..n] else b + Repeat(false, n - |b|));
      pos := pos + n;
    }
  }

  /** `get_bits_left`, where it bounds the number of rounds of a loop. */
  function Measure(left: int): nat {
    if left >= 0 then left + 1 else 0
  }

  method ReadRunEnd(gb: GetBits, k: nat, max: nat, n: Width) returns (ok: bool, sectEnd: nat)
    requires k < max < 256
    modifies gb
    ensures ok ==> gb.Left() >= 0 && gb.Left() < old(gb.Left())
    ensures ok ==> old(gb.Left()) >= 0 && ReadRun(old(gb.Rest()), k, max, n) == Some((sectEnd, gb.Rest()))
    ensures !ok && old(gb.Left()) >= 0 ==> ReadRun(old(gb.Rest()), k, max, n) == None
  {
    sectEnd := k;
    var incr := Esc(n);
    ghost var all := ReadRun(gb.Rest(), k, max, n);
    while incr == Esc(n)
      invariant old(gb.Left()) >= 0 ==> gb.Left() >= 0
      invariant gb.Left() <= old(gb.Left())
      invariant incr == Esc(n) ==> ReadRun(gb.Rest(), sectEnd, max, n) == all
      invariant incr != Esc(n) ==>
                  gb.Left() >= 0 && gb.Left() < old(gb.Left()) && old(gb.Left()) >= 0 && all == Some((sectEnd, gb.Rest()))
      decreases Measure(gb.Left())
    {
      incr := gb.Get(n);
      sectEnd := (sectEnd + incr) % 256;
      if gb.Left() < 0 {
        return false, sectEnd;
      }
      if sectEnd > max {
        return false, sectEnd;
      }
    }
    return true, sectEnd;
  }

  /** The band types and run ends stored so far, in the two arrays. */
  ghost predicate Stored(bandType: array<nat>, runEnd: array<nat>, acc: seq<Band>)
    reads bandType, runEnd
  {
    && |acc| <= bandType.Length && |acc| <= runEnd.Length
    && forall i :: 0 <= i < |acc| ==> bandType[i] == acc[i].cb && runEnd[i] == acc[i].runEnd
  }

  /** The loop that stores one run of bands from `idx` on. */
  method StoreRun(bandType: array<nat>, runEnd: array<nat>, idx: nat, count: nat, cb: nat, end: nat, ghost acc: seq<Band>)
    returns (ghost acc': seq<Band>)
    requires bandType != runEnd && idx == |acc| && idx + count <= bandType.Length && idx + count <= runEnd.Length
    requires Stored(bandType, runEnd, acc)
    modifies bandType, runEnd
    ensures acc' == acc + Repeat(Band(cb, end), count) && Stored(bandType, runEnd, acc')
  {
    acc' := acc;
    var j := 0;
    while j < count
      invariant 0 <= j <= count
      invariant acc' == acc + Repeat(Band(cb, end), j)
      invariant Stored(bandType, runEnd, acc')
    {
      bandType[idx + j] := cb;
      runEnd[idx + j] := end;
      acc' := acc' + [Band(cb, end)];
      j := j + 1;
    }
  }

  /** The codebook and the end of a section that starts at band k. */
  function ReadHead(b: seq<bool>, k: nat, max: nat, n: Width): Option<(nat, nat, seq<bool>)> {
    if |b| < CB_BITS || Value(b[..CB_BITS]) == 12 then None
    else
      match ReadRun(b[CB_BITS..], k, max, n)
      case None => None
      case Some((end, rest)) => Some((Value(b[..CB_BITS]), end, rest))
  }

  /** The bands of a section that ends at `end`; a section of no band is passed over. */
  function Run(cb: nat, k: nat, end: nat): seq<Band> {
    if k < end then Repeat(Band(cb, end), end - k) else []
  }

  lemma {:induction false} OneSectionMore(b: seq<bool>, k: nat, max: nat, n: Width, acc: seq<Band>)
    requires k < max
    ensures match ReadHead(b, k, max, n)
            case None => ReadGroup(b, k, max, n, acc) == None
            case Some((cb, end, rest)) =>
              ReadGroup(b, k, max, n, acc) == ReadGroup(rest, if k < end then end else k, max, n, acc + Run(cb, k, end))
  {
    if ReadHead(b, k, max, n).Some? && ReadHead(b, k, max, n).value.1 <= k {
      assert acc + [] == acc;
    }
  }

  /** The head of a section. */
  method ReadSection(gb: GetBits, k: nat, max: nat, n: Width) returns (ok: bool, cb: nat, end: nat)
    requires k < max < 256
    modifies gb
    ensures ok ==> 0 <= gb.Left() < old(gb.Left()) && ReadHead(old(gb.Rest()), k, max, n) == Some((cb, end, gb.Rest()))
    ensures !ok && old(gb.Left()) >= 0 ==> ReadHead(old(gb.Rest()), k, max, n) == None
  {
    end := k;
    cb := gb.Get(CB_BITS);
    if cb == 12 {
      return false, cb, k;
    }
    ok, end := ReadRunEnd(gb, k, max, n);
  }

  /** One section: its codebook and length are read and its bands stored; `start` is the first band of the group. */
  method DecodeSection(gb: GetBits, k: nat, max: nat, n: Width, bandType: array<nat>, runEnd: array<nat>, start: nat, ghost acc: seq<Band>)
    returns (ok: bool, k': nat, ghost acc': seq<Band>)
    requires k < max < 256 && bandType != runEnd
    requires start + k == |acc| && start + max <= bandType.Length && start + max <= runEnd.Length
    requires Stored(bandType, runEnd, acc)
    modifies gb, bandType, runEnd
    ensures k <= k' <= max && start + k' == |acc'| && Stored(bandType, runEnd, acc')
    ensures ok ==> 0 <= gb.Left() < old(gb.Left())
    ensures ok ==> ReadGroup(gb.Rest(), k', max, n, acc') == ReadGroup(old(gb.Rest()), k, max, n, acc)
    ensures !ok && old(gb.Left()) >= 0 ==> ReadGroup(old(gb.Rest()), k, max, n, acc) == None
  {
    OneSectionMore(gb.Rest(), k, max, n, acc);
    acc', k' := acc, k;
    var cb, end;
    ok, cb, end := ReadSection(gb, k, max, n);
    if ok && k < end {
      acc' := StoreRun(bandType, runEnd, start + k, end - k, cb, end, acc);
      k' := end;
    }
  }

  /** One window group; `idx` is the next band to be stored. */
  method DecodeGroup(gb: GetBits, max: nat, n: Width, bandType: array<nat>, runEnd: array<nat>, idx: nat, ghost acc: seq<Band>)
    returns (ok: bool, ghost acc': seq<Band>)
    requires max < 256 && bandType != runEnd && gb.Left() >= 0
    requires idx == |acc| && idx + max <= bandType.Length && idx + max <= runEnd.Length
    requires Stored(bandType, runEnd, acc)
    modifies gb, bandType, runEnd
    ensures ok ==> |acc'| == idx + max && Stored(bandType, runEnd, acc')
    ensures ok ==> gb.Left() >= 0 && ReadGroup(old(gb.Rest()), 0, max, n, acc) == Some((acc', gb.Rest()))
    ensures !ok ==> ReadGroup(old(gb.Rest()), 0, max, n, acc) == None
  {
    var k := 0;
    acc' := acc;
    while k < max
      invariant k <= max && |acc'| == idx + k && gb.Left() >= 0
      invariant Stored(bandType, runEnd, acc')
      invariant ReadGroup(gb.Rest(), k, max, n, acc') == old(ReadGroup(gb.Rest(), 0, max, n, acc))
      decreases gb.Left()
    {
      ok, k, acc' := DecodeSection(gb, k, max, n, bandType, runEnd, idx, acc');
      if !ok {
        return;
      }
    }
    return true, acc';
  }

  /** The number of bands in so many groups of max bands. */
  function BandsOf(groups: nat, max: nat): nat {
    if groups == 0 then 0 else max + BandsOf(groups - 1, max)
  }

  lemma {:induction false} OneGroupMore(b: seq<bool>, groups: nat, max: nat, n: Width, acc: seq<Band>)
    requires groups > 0
    ensures BandsOf(groups, max) == max + BandsOf(groups - 1, max)
    ensures match ReadGroup(b, 0, max, n, acc)
            case None => ReadGroups(b, groups, max, n, acc) == None
            case Some((acc', rest)) => ReadGroups(b, groups, max, n, acc) == ReadGroups(rest, groups - 1, max, n, acc')
  {
  }

  /**
    `decode_band_types`: on every bit string it ends, also one with sections of no band, and on
    success exactly the bands that the section data describes are stored.
   */
  method DecodeBandTypes(gb: GetBits, groups: nat, max: nat, n: Width, bandType: array<nat>, runEnd: array<nat>)
    returns (ok: bool)
    requires max < 256 && bandType != runEnd && BandsOf(groups, max) <= bandType.Length && BandsOf(groups, max) <= runEnd.Length
    requires gb.Left() >= 0
    modifies gb, bandType, runEnd
    ensures ok <==> ReadGroups(old(gb.Rest()), groups, max, n, []).Some?
    ensures ok ==> var bands := ReadGroups(old(gb.Rest()), groups, max, n, []).value.0;
                   && Stored(bandType, runEnd, bands)
                   && gb.Rest() == ReadGroups(old(gb.Rest()), groups, max, n, []).value.1
  {
    var g := 0;
    var idx := 0;
    ghost var acc: seq<Band> := [];
    ghost var all := ReadGroups(gb.Rest(), groups, max, n, acc);
    while g < groups
      invariant g <= groups && idx == |acc| && idx + BandsOf(groups - g, max) == BandsOf(groups, max)
      invariant Stored(bandType, runEnd, acc)
      invariant gb.Left() >= 0
      invariant ReadGroups(gb.Rest(), groups - g, max, n, acc) == all
    {
      OneGroupMore(gb.Rest(), groups - g, max, n, acc);
      ok, acc := DecodeGroup(gb, max, n, bandType, runEnd, idx, acc);
      if !ok {
        return;
      }
      idx := idx + max;
      g := g + 1;
    }
    return true;
  }
}
