/**
  `SrsBuffer`: a cursor over a fixed array of bytes, with big-endian integers.
 */
module ByteBuffer {

  type byte = x: int | 0 <= x < 256

  type Int16 = x: int | -0x8000 <= x < 0x8000
  type Int32 = x: int | -0x8000_0000 <= x < 0x8000_0000
  type Int64 = x: int | -0x8000_0000_0000_0000 <= x < 0x8000_0000_0000_0000

  // ---------------------------------------------------------------- big-endian numbers

  function Pow256(n: nat): (r: nat)
    ensures r > 0
  {
    if n == 0 then 1 else 256 * Pow256(n - 1)
  }

  /** The n low bytes of v, the highest first. */
  function ToBytes(v: nat, n: nat): (r: seq<byte>)
    ensures |r| == n
  {
    if n == 0 then [] else ToBytes(v / 256, n - 1) + [v % 256]
  }

  function FromBytes(s: seq<byte>): (r: nat)
    ensures r < Pow256(|s|)
  {
    if s == [] then 0 else Push(FromBytes(s[..|s| - 1]), s[|s| - 1])
  }

  /** One more byte at the low end. */
  function Push(hi: nat, lo: byte): nat {
    256 * hi + lo
  }

  /** The number whose two's complement in n bytes is v. */
  function Signed(v: nat, n: nat): int {
    if 2 * v >= Pow256(n) then v - Pow256(n) else v
  }

  /** The two's complement of i in n bytes. */
  function Unsigned(i: int, n: nat): nat
    requires 0 <= i + Pow256(n)
  {
    if i < 0 then i + Pow256(n) else i
  }

  lemma {:induction false} BytesRoundTrip(v: nat, n: nat)
    requires v < Pow256(n)
    ensures FromBytes(ToBytes(v, n)) == v
  {
    if n > 0 {
      BytesRoundTrip(v / 256, n - 1);
      assert ToBytes(v, n)[..n - 1] == ToBytes(v / 256, n - 1);
    }
  }

  lemma {:induction false} NumberRoundTrip(s: seq<byte>)
    ensures ToBytes(FromBytes(s), |s|) == s
  {
    if s != [] {
      NumberRoundTrip(s[..|s| - 1]);
      assert FromBytes(s) / 256 == FromBytes(s[..|s| - 1]);
      assert FromBytes(s) % 256 == s[|s| - 1];
    }
  }

  lemma SignedRoundTrip(i: int, n: nat)
    requires n > 0 && -(Pow256(n) / 2) <= i < Pow256(n) / 2
    ensures Unsigned(i, n) < Pow256(n) && Signed(Unsigned(i, n), n) == i
  {
  }

  // ---------------------------------------------------------------- the buffer

  /** At position p of `was`, a front part of e up to position p' has been written, and nothing else. */
  ghost predicate Wrote(was: seq<byte>, p: nat, now: seq<byte>, p': nat, e: seq<byte>) {
    && p <= p' <= |was| && p' - p <= |e|
    && now == was[..p] + e[..p' - p] + was[p'..]
  }

  lemma WroteMore(was: seq<byte>, p: nat, mid: seq<byte>, p1: nat, now: seq<byte>, p2: nat, e1: seq<byte>, e2: seq<byte>)
    requires Wrote(was, p, mid, p1, e1) && p1 == p + |e1|
    requires Wrote(mid, p1, now, p2, e2)
    ensures Wrote(was, p, now, p2, e1 + e2)
  {
    assert mid == was[..p] + e1 + was[p1..];
    assert mid[..p1] == was[..p] + e1;
    assert mid[p2..] == was[p2..];
    assert (e1 + e2)[..p2 - p] == e1 + e2[..p2 - p1];
  }

  lemma WroteLess(was: seq<byte>, p: nat, now: seq<byte>, p': nat, e1: seq<byte>, e2: seq<byte>)
    requires Wrote(was, p, now, p', e1)
    ensures Wrote(was, p, now, p', e1 + e2)
  {
    assert (e1 + e2)[..p' - p] == e1[..p' - p];
  }

  class SrsBuffer {
    const bytes: array<byte>
    var p: nat

    constructor (b: array<byte>)
      ensures bytes == b && p == 0 && Valid()
    {
      bytes := b;
      p := 0;
    }

    ghost predicate Valid()
      reads this
    {
      p <= bytes.Length
    }

    /** The bytes from the cursor on. */
    ghost function Rest(): seq<byte>
      requires Valid()
      reads this, bytes
    {
      bytes[p..]
    }

    function Left(): (r: int)
      reads this
    {
      bytes.Length - p
    }

    predicate Empty()
      reads this
    {
      p >= bytes.Length
    }

    predicate Require(n: int)
      reads this
    {
      n >= 0 && n <= bytes.Length - p
    }

    method Skip(n: int)
      requires Valid() && 0 <= p + n <= bytes.Length
      modifies this
      ensures Valid() && p == old(p) + n
    {
      p := p + n;
    }

    /** `*p++` as an unsigned byte. */
    method Next() returns (b: byte)
      requires Valid() && Require(1)
      modifies this
      ensures Valid() && p == old(p) + 1 && b == bytes[old(p)]
    {
      b := bytes[p];
      p := p + 1;
    }

    method Read1Bytes() returns (b: byte)
      requires Valid() && Require(1)
      modifies this
      ensures Valid() && p == old(p) + 1
      ensures [b] == bytes[old(p)..p] && Rest() == old(Rest())[1..] && b == old(Rest())[0]
    {
      b := Next();
    }

    method Read2Bytes() returns (r: Int16)
      requires Valid() && Require(2)
      modifies this
      ensures Valid() && p == old(p) + 2 && Rest() == old(Rest())[2..]
      ensures r == Signed(FromBytes(old(Rest())[..2]), 2)
    {
      ghost var was := Rest();
      var b1 := Next();
      var b0 := Next();
      FromTwo(was[..2]);
      r := Signed(Push(b1, b0), 2);
    }

    method Read3Bytes() returns (r: Int32)
      requires Valid() && Require(3)
      modifies this
      ensures Valid() && p == old(p) + 3 && Rest() == old(Rest())[3..]
      ensures r == FromBytes(old(Rest())[..3])
    {
      ghost var was := Rest();
      var b2 := Next();
      var b1 := Next();
      var b0 := Next();
      FromThree(was[..3]);
      r := Push(Push(b2, b1), b0);
    }

    method Read4Bytes() returns (r: Int32)
      requires Valid() && Require(4)
      modifies this
      ensures Valid() && p == old(p) + 4 && Rest() == old(Rest())[4..]
      ensures r == Signed(FromBytes(old(Rest())[..4]), 4)
    {
      ghost var was := Rest();
      var b3 := Next();
      var b2 := Next();
      var b1 := Next();
      var b0 := Next();
      FromFour(was[..4]);
      r := Signed(Push(Push(Push(b3, b2), b1), b0), 4);
    }

    method Read8Bytes() returns (r: Int64)
      requires Valid() && Require(8)
      modifies this
      ensures Valid() && p == old(p) + 8 && Rest() == old(Rest())[8..]
      ensures r == Signed(FromBytes(old(Rest())[..8]), 8)
    {
      ghost var was := Rest();
      var b7 := Next();
      var b6 := Next();
      var b5 := Next();
      var b4 := Next();
      var b3 := Next();
      var b2 := Next();
      var b1 := Next();
      var b0 := Next();
      FromEight(was[..8]);
      var hi := Push(Push(Push(b7, b6), b5), b4);
      r := Signed(Push(Push(Push(Push(hi, b3), b2), b1), b0), 8);
    }

    method ReadString(n: int) returns (r: seq<byte>)
      requires Valid() && Require(n)
      modifies this
      ensures Valid() && p == old(p) + n && Rest() == old(Rest())[n..]
      ensures r == old(Rest())[..n]
    {
      r := bytes[p..p + n];
      p := p + n;
    }

    /** `*p++ = b`. */
    method Put(b: byte)
      requires Valid() && Require(1)
      modifies this, bytes
      ensures Valid() && p == old(p) + 1
      ensures Wrote(old(bytes[..]), old(p), bytes[..], p, [b])
    {
      bytes[p] := b;
      p := p + 1;
    }

    /** `write_string`, and the writers of integers, which store the bytes of a number from the highest on. */
    method WriteString(e: seq<byte>)
      requires Valid() && Require(|e|)
      modifies this, bytes
      ensures Valid() && p == old(p) + |e|
      ensures Wrote(old(bytes[..]), old(p), bytes[..], p, e)
    {
      var i := 0;
      while i < |e|
        invariant 0 <= i <= |e|
        invariant Valid() && p == old(p) + i
        invariant Wrote(old(bytes[..]), old(p), bytes[..], p, e[..i])
      {
        ghost var mid := bytes[..];
        ghost var at := p;
        Put(e[i]);
        assert e[..i] + [e[i]] == e[..i + 1];
        WroteMore(old(bytes[..]), old(p), mid, at, bytes[..], p, e[..i], [e[i]]);
        i := i + 1;
      }
      assert e[..|e|] == e;
    }

  }

  lemma FromTwo(s: seq<byte>)
    requires |s| == 2
    ensures FromBytes(s) == Push(s[0], s[1])
  {
    assert FromBytes(s[..1]) == s[0] by {
      assert s[..1] == [s[0]] && s[..1][..0] == [];
    }
  }

  lemma FromThree(s: seq<byte>)
    requires |s| == 3
    ensures FromBytes(s) == Push(Push(s[0], s[1]), s[2])
  {
    FromTwo(s[..2]);
  }

  lemma FromFour(s: seq<byte>)
    requires |s| == 4
    ensures FromBytes(s) == Push(Push(Push(s[0], s[1]), s[2]), s[3])
  {
    FromThree(s[..3]);
  }

  lemma FromEight(s: seq<byte>)
    requires |s| == 8
    ensures FromBytes(s) == Push(Push(Push(Push(FromBytes(s[..4]), s[4]), s[5]), s[6]), s[7])
    ensures FromBytes(s[..4]) == Push(Push(Push(s[0], s[1]), s[2]), s[3])
  {
    FromFour(s[..4]);
    assert s[..5][..4] == s[..4] && s[..6][..5] == s[..5] && s[..7][..6] == s[..6];
    assert FromBytes(s[..5]) == Push(FromBytes(s[..4]), s[4]);
    assert FromBytes(s[..6]) == Push(FromBytes(s[..5]), s[5]);
    assert FromBytes(s[..7]) == Push(FromBytes(s[..6]), s[6]);
  }

  /** The top 16 bits of an 8-byte number are its first two bytes. */
  lemma TopBytes(s: seq<byte>)
    requires |s| == 8
    ensures FromBytes(s) / 0x1_0000_0000_0000 == Push(s[0], s[1])
  {
    FromEight(s);
  }

  // ---------------------------------------------------------------- sequences

  lemma Regroup<T>(a: seq<T>, b: seq<T>, c: seq<T>, d: seq<T>)
    ensures (a + b + c) + d == a + (b + c + d)
  {
  }
}
