/**
  Which bits are section data: exactly those that spell sections of known codebooks that together
  have as many bands as the window group.
 */
module AacAcceptance {
  import opened Wrappers
  import opened AacSections

  // ---------------------------------------------------------------- bits

  /** The bits of a number, the highest first: bit i is worth 2^(n-1-i). */
  lemma {:induction false} BitIsWorth(v: nat, n: nat, i: nat)
    requires i < n
    ensures ToBits(v, n)[i] <==> v / Pow2(n - 1 - i) % 2 == 1
  {
    if i < n - 1 {
      BitIsWorth(v / 2, n - 1, i);
      assert ToBits(v, n)[i] == ToBits(v / 2, n - 1)[i];
      DivideTwice(v, 2, Pow2(n - 2 - i));
      assert Pow2(n - 1 - i) == 2 * Pow2(n - 2 - i);
    }
  }

  /** Any bits are those of their value. */
  lemma {:induction false} ValueRoundTrip(s: seq<bool>)
    ensures ToBits(Value(s), |s|) == s
  {
    if s != [] {
      var n := |s| - 1;
      ValueRoundTrip(s[..n]);
      assert Value(s) / 2 == Value(s[..n]) && (Value(s) % 2 == 1 <==> s[n]);
      assert s == s[..n] + [s[n]];
    }
  }

  // ---------------------------------------------------------------- what the decoder reads

  /** As many bands as ends of runs fit into 8 bits; `max_sfb` has 6 bits. */
  const MAX_BANDS: nat := 224

  /** A section as the decoder takes it, which may have no bands. */
  predicate Readable(s: Section) {
    s.cb < 16 && s.cb != 12
  }

  /** Sections with `max` bands in all, the last of which has some. */
  predicate Spells(secs: seq<Section>, max: nat) {
    && (forall i :: 0 <= i < |secs| ==> Readable(secs[i]))
    && Length(secs) == max
    && (secs != [] ==> secs[|secs| - 1].len > 0)
  }

  lemma {:induction false} RunIsSpelt(b: seq<bool>, end: nat, max: nat, n: Width)
    requires end <= max <= MAX_BANDS && ReadRun(b, end, max, n).Some?
    ensures var (end', rest) := ReadRun(b, end, max, n).value; end <= end' && b == RunCode(end' - end, n) + rest
    decreases |b|
  {
    var incr := Value(b[..n]);
    ValueRoundTrip(b[..n]);
    assert incr <= Esc(n);
    assert b == b[..n] + b[n..];
    var (end', rest) := ReadRun(b, end, max, n).value;
    if incr == Esc(n) {
      RunIsSpelt(b[n..], end + incr, max, n);
      Associative(b[..n], RunCode(end' - end - incr, n), rest);
    }
  }

  /** The bits b give the bands up to `max` behind those that are known. */
  ghost predicate GroupReads(b: seq<bool>, k: nat, max: nat, n: Width, acc: seq<Band>, bands: seq<Band>, rest: seq<bool>) {
    ReadGroup(b, k, max, n, acc) == Some((bands, rest))
  }

  lemma {:induction false} GroupIsSpelt(b: seq<bool>, k: nat, max: nat, n: Width, acc: seq<Band>) returns (secs: seq<Section>, rest: seq<bool>)
    requires k <= max <= MAX_BANDS && ReadGroup(b, k, max, n, acc).Some?
    ensures Spells(secs, max - k) && b == SectionsCode(secs, n) + rest
    ensures GroupReads(b, k, max, n, acc, acc + Bands(secs, k), rest)
    decreases |b|
  {
    if k >= max {
      secs, rest := [], b;
      assert acc + [] == acc && [] + b == b;
    } else {
      var s, b1 := FirstSection(b, k, max, n, acc);
      var more;
      more, rest := GroupIsSpelt(b1, k + s.len, max, n, acc + Repeat(Band(s.cb, k + s.len), s.len));
      secs := [s] + more;
      SpellsMore(s, more, max - k);
      OneSpeltMore(b, b1, s, more, secs, k, max, n, acc, rest);
    }
  }

  lemma OneSpeltMore(b: seq<bool>, b1: seq<bool>, s: Section, more: seq<Section>, secs: seq<Section>, k: nat, max: nat, n: Width,
                     acc: seq<Band>, rest: seq<bool>)
    requires secs == [s] + more && b == SectionCode(s, n) + b1 && b1 == SectionsCode(more, n) + rest
    requires ReadGroup(b, k, max, n, acc) == ReadGroup(b1, k + s.len, max, n, acc + Repeat(Band(s.cb, k + s.len), s.len))
    requires var acc1 := acc + Repeat(Band(s.cb, k + s.len), s.len);
             GroupReads(b1, k + s.len, max, n, acc1, acc1 + Bands(more, k + s.len), rest)
    ensures b == SectionsCode(secs, n) + rest && GroupReads(b, k, max, n, acc, acc + Bands(secs, k), rest)
  {
    assert secs[1..] == more;
    SectionsCodeFirst(secs, n, rest);
    BandsFirst(secs, k, acc);
  }

  lemma FirstSection(b: seq<bool>, k: nat, max: nat, n: Width, acc: seq<Band>) returns (s: Section, b1: seq<bool>)
    requires k < max <= MAX_BANDS && ReadGroup(b, k, max, n, acc).Some?
    ensures Readable(s) && k + s.len <= max && b == SectionCode(s, n) + b1 && |b1| < |b|
    ensures ReadGroup(b, k, max, n, acc) == ReadGroup(b1, k + s.len, max, n, acc + Repeat(Band(s.cb, k + s.len), s.len))
  {
    RunIsSpelt(b[4..], k, max, n);
    var end := ReadRun(b[4..], k, max, n).value.0;
    b1 := ReadRun(b[4..], k, max, n).value.1;
    s := Section(Value(b[..4]), end - k);
    SectionIsSpelt(b, k, max, n, s, b1);
    assert s.len == 0 ==> acc + Repeat(Band(s.cb, end), s.len) == acc;
  }

  lemma SpellsMore(s: Section, more: seq<Section>, max: nat)
    requires Readable(s) && max > 0 && s.len <= max && Spells(more, max - s.len)
    ensures Spells([s] + more, max)
  {
    assert ([s] + more)[1..] == more;
    if more == [] {
      assert s.len == max;
    }
  }

  lemma SectionIsSpelt(b: seq<bool>, k: nat, max: nat, n: Width, s: Section, b1: seq<bool>)
    requires k < max <= MAX_BANDS && |b| >= 4 && Value(b[..4]) != 12
    requires ReadRun(b[4..], k, max, n) == Some((k + s.len, b1)) && s.cb == Value(b[..4])
    ensures Readable(s) && b == SectionCode(s, n) + b1
  {
    RunIsSpelt(b[4..], k, max, n);
    ValueRoundTrip(b[..4]);
    assert Pow2(4) == 16;
    assert b == b[..4] + b[4..];
    Associative(b[..4], RunCode(s.len, n), b1);
  }

  /** Sections that the decoder takes, with or without bands, are read back. */
  lemma {:induction false} SpeltIsRead(secs: seq<Section>, k: nat, max: nat, n: Width, acc: seq<Band>, rest: seq<bool>)
    requires k <= max <= MAX_BANDS && Spells(secs, max - k)
    ensures GroupReads(SectionsCode(secs, n) + rest, k, max, n, acc, acc + Bands(secs, k), rest)
    decreases secs
  {
    if secs == [] {
      assert SectionsCode(secs, n) + rest == rest && acc + [] == acc;
    } else {
      SpellsLess(secs, max - k);
      SpeltIsRead(secs[1..], k + secs[0].len, max, n, acc + Repeat(Band(secs[0].cb, k + secs[0].len), secs[0].len), rest);
      FirstIsRead(secs, k, max, n, acc, rest);
    }
  }

  lemma {:induction false} LengthAtLeast(secs: seq<Section>, i: nat)
    requires i < |secs|
    ensures Length(secs) >= secs[i].len
  {
    if i > 0 {
      LengthAtLeast(secs[1..], i - 1);
    }
  }

  lemma SpellsLess(secs: seq<Section>, max: nat)
    requires secs != [] && Spells(secs, max)
    ensures max > 0 && secs[0].len <= max && Spells(secs[1..], max - secs[0].len)
  {
    LengthAtLeast(secs, |secs| - 1);
  }

  lemma FirstIsRead(secs: seq<Section>, k: nat, max: nat, n: Width, acc: seq<Band>, rest: seq<bool>)
    requires secs != [] && Readable(secs[0]) && k < max <= MAX_BANDS && k + secs[0].len <= max
    requires var s := secs[0]; var acc1 := acc + Repeat(Band(s.cb, k + s.len), s.len);
             GroupReads(SectionsCode(secs[1..], n) + rest, k + s.len, max, n, acc1, acc1 + Bands(secs[1..], k + s.len), rest)
    ensures GroupReads(SectionsCode(secs, n) + rest, k, max, n, acc, acc + Bands(secs, k), rest)
  {
    SectionsCodeFirst(secs, n, rest);
    OneIsRead(secs[0], k, max, n, acc, SectionsCode(secs[1..], n) + rest);
    BandsFirst(secs, k, acc);
  }

  lemma OneIsRead(s: Section, k: nat, max: nat, n: Width, acc: seq<Band>, tail: seq<bool>)
    requires Readable(s) && k < max <= MAX_BANDS && k + s.len <= max
    ensures ReadGroup(SectionCode(s, n) + tail, k, max, n, acc) ==
            ReadGroup(tail, k + s.len, max, n, acc + Repeat(Band(s.cb, k + s.len), s.len))
  {
    var code := ToBits(s.cb, CB_BITS);
    BitsRoundTrip(s.cb, CB_BITS);
    RunRoundTrip(s.len, k, max, n, tail);
    Associative(code, RunCode(s.len, n), tail);
    var b := code + (RunCode(s.len, n) + tail);
    assert b[..4] == code && b[4..] == RunCode(s.len, n) + tail;
    assert s.len == 0 ==> acc + Repeat(Band(s.cb, k + s.len), s.len) == acc;
  }

  /**
    The decoder accepts a window group exactly when its bits spell sections with as many bands as
    the group has; it fails on a codebook number 12, on a section beyond the last band, and on too
    few bits, because nothing then is spelt.
   */
  lemma GroupIsReadIff(b: seq<bool>, max: nat, n: Width, bands: seq<Band>, rest: seq<bool>)
    requires max <= MAX_BANDS
    ensures ReadGroup(b, 0, max, n, []) == Some((bands, rest)) <==>
            exists secs :: Spells(secs, max) && b == SectionsCode(secs, n) + rest && bands == Bands(secs, 0)
  {
    if ReadGroup(b, 0, max, n, []) == Some((bands, rest)) {
      var secs, rest' := GroupIsSpelt(b, 0, max, n, []);
      assert [] + Bands(secs, 0) == Bands(secs, 0);
    }
    if secs :| Spells(secs, max) && b == SectionsCode(secs, n) + rest && bands == Bands(secs, 0) {
      SpeltIsRead(secs, 0, max, n, [], rest);
      assert [] + Bands(secs, 0) == Bands(secs, 0);
    }
  }

  lemma {:induction false} GroupsAreSpelt(b: seq<bool>, count: nat, max: nat, n: Width, acc: seq<Band>) returns (groups: seq<seq<Section>>)
    requires max <= MAX_BANDS && ReadGroups(b, count, max, n, acc).Some?
    ensures |groups| == count && forall g :: 0 <= g < count ==> Spells(groups[g], max)
    ensures var (bands, rest) := ReadGroups(b, count, max, n, acc).value;
            bands == acc + GroupsBands(groups) && b == GroupsCode(groups, n) + rest
    decreases count
  {
    if count == 0 {
      groups := [];
      assert acc + [] == acc && [] + b == b;
    } else {
      var secs, b1 := GroupIsSpelt(b, 0, max, n, acc);
      var acc1 := acc + Bands(secs, 0);
      var more := GroupsAreSpelt(b1, count - 1, max, n, acc1);
      groups := [secs] + more;
      assert groups[1..] == more;
      GroupsFirst(groups, n, acc, ReadGroups(b, count, max, n, acc).value.1);
    }
  }

  lemma {:induction false} SpeltGroupsAreRead(groups: seq<seq<Section>>, max: nat, n: Width, acc: seq<Band>, rest: seq<bool>)
    requires max <= MAX_BANDS && forall g :: 0 <= g < |groups| ==> Spells(groups[g], max)
    ensures ReadGroups(GroupsCode(groups, n) + rest, |groups|, max, n, acc) == Some((acc + GroupsBands(groups), rest))
    decreases groups
  {
    if groups == [] {
      assert GroupsCode(groups, n) + rest == rest && acc + [] == acc;
    } else {
      SpeltIsRead(groups[0], 0, max, n, acc, GroupsCode(groups[1..], n) + rest);
      SpeltGroupsAreRead(groups[1..], max, n, acc + Bands(groups[0], 0), rest);
      GroupsFirst(groups, n, acc, rest);
    }
  }

  /** The same for all window groups. */
  lemma SectionDataIsReadIff(b: seq<bool>, count: nat, max: nat, n: Width, bands: seq<Band>, rest: seq<bool>)
    requires max <= MAX_BANDS
    ensures ReadGroups(b, count, max, n, []) == Some((bands, rest)) <==>
            exists groups :: |groups| == count && (forall g :: 0 <= g < count ==> Spells(groups[g], max))
                             && b == GroupsCode(groups, n) + rest && bands == GroupsBands(groups)
  {
    var none: seq<Band> := [];
    if ReadGroups(b, count, max, n, none) == Some((bands, rest)) {
      var groups := GroupsAreSpelt(b, count, max, n, none);
      assert none + GroupsBands(groups) == GroupsBands(groups);
    }
    if groups :| |groups| == count && (forall g :: 0 <= g < count ==> Spells(groups[g], max))
                 && b == GroupsCode(groups, n) + rest && bands == GroupsBands(groups) {
      SpeltGroupsAreRead(groups, max, n, none, rest);
      assert none + GroupsBands(groups) == GroupsBands(groups);
    }
  }
}
