/**
  The scale factor bands of AAC: how many coefficients each band has, by the kind of window and the
  sampling rate.
 */
module AacBandSizes {
  import opened Wrappers
  import opened AacSections

  /** The sizes of bands: as many bands of one size as there are, and the ones behind them. */
  datatype Runs = End | Run(size: nat, count: nat, rest: Runs)

  const SHORT_96 := Run(4, 6, Run(8, 3, Run(16, 1, Run(28, 1, Run(36, 1, End)))))
  const SHORT_64 := Run(4, 6, Run(8, 3, Run(16, 1, Run(28, 1, Run(36, 1, End)))))
  const SHORT_48 := Run(4, 5, Run(8, 3, Run(12, 3, Run(16, 3, End))))
  const SHORT_24 := Run(4, 7, Run(8, 3, Run(12, 2, Run(16, 2, Run(20, 1, End)))))
  const SHORT_16 := Run(4, 8, Run(8, 2, Run(12, 2, Run(16, 1, Run(20, 2, End)))))
  const SHORT_8 := Run(4, 7, Run(8, 4, Run(12, 1, Run(16, 1, Run(20, 2, End)))))

  const LONG_96 :=
    Run(4, 14, Run(8, 5, Run(12, 5, Run(16, 2, Run(24, 1, Run(28, 1, Run(36, 1, Run(44, 1, Run(64, 11,
    End)))))))))

  const LONG_64 :=
    Run(4, 14, Run(8, 4, Run(12, 3, Run(16, 3, Run(20, 1, Run(24, 2, Run(28, 1, Run(36, 1, Run(40, 18,
    End)))))))))

  const LONG_48 :=
    Run(4, 10, Run(8, 7, Run(12, 4, Run(16, 2, Run(20, 2, Run(24, 2, Run(28, 2, Run(32, 19, Run(96, 1,
    End)))))))))

  const LONG_32 := Run(4, 10, Run(8, 7, Run(12, 4, Run(16, 2, Run(20, 2, Run(24, 2, Run(28, 2, Run(32, 22, End))))))))

  const LONG_24 :=
    Run(4, 11, Run(8, 10, Run(12, 4, Run(16, 3, Run(20, 2, Run(24, 2, Run(28, 2, Run(32, 1, Run(36, 2,
    Run(40, 1, Run(44, 1, Run(48, 1, Run(52, 2, Run(64, 5, End))))))))))))))

  /** The wide bands of the table below. */
  const WIDE_16 :=
    Run(32, 1, Run(36, 1, Run(40, 2, Run(44, 1, Run(48, 1, Run(52, 1, Run(56, 1, Run(60, 1, Run(64, 3, End)))))))))

  const LONG_16 := Run(8, 11, Run(12, 9, Run(16, 4, Run(20, 3, Run(24, 2, Run(28, 2, WIDE_16))))))

  const WIDE_8 :=
    Run(32, 1, Run(36, 2, Run(40, 1, Run(44, 1, Run(48, 1, Run(52, 1, Run(56, 1, Run(60, 1, Run(64, 1,
    Run(80, 1, End))))))))))

  const LONG_8 := Run(12, 13, Run(16, 7, Run(20, 4, Run(24, 3, Run(28, 2, WIDE_8)))))

  /** The sampling rates, by their index in the bit stream. */
  type Rate = r: nat | r < 13

  function ShortRuns(rate: Rate): Runs {
    if rate <= 1 then SHORT_96
    else if rate <= 2 then SHORT_64
    else if rate <= 5 then SHORT_48
    else if rate <= 7 then SHORT_24
    else if rate <= 10 then SHORT_16
    else SHORT_8
  }

  function LongRuns(rate: Rate): Runs {
    if rate <= 1 then LONG_96
    else if rate <= 2 then LONG_64
    else if rate <= 4 then LONG_48
    else if rate <= 5 then LONG_32
    else if rate <= 7 then LONG_24
    else if rate <= 10 then LONG_16
    else LONG_8
  }

  function SizeRuns(n: Width, rate: Rate): Runs {
    if n == 3 then ShortRuns(rate) else LongRuns(rate)
  }

  function Sizes(runs: Runs): (r: seq<nat>)
    ensures |r| == Count(runs)
  {
    if runs.End? then [] else Repeat(runs.size, runs.count) + Sizes(runs.rest)
  }

  function Count(runs: Runs): nat {
    if runs.End? then 0 else runs.count + Count(runs.rest)
  }

  function Total(runs: Runs): nat {
    if runs.End? then 0 else runs.size * runs.count + Total(runs.rest)
  }

  /** The sizes of the bands of a window. */
  function BandSizes(n: Width, rate: Rate): seq<nat> {
    Sizes(SizeRuns(n, rate))
  }

  /** The windows of a frame, which is also the largest number of windows in a group. */
  function Windows(n: Width): nat {
    if n == 3 then 8 else 1
  }

  const FRAME_COEFFICIENTS := 1024

  function Sum(s: seq<nat>): nat {
    if s == [] then 0 else Sum(s[..|s| - 1]) + s[|s| - 1]
  }

  lemma {:induction false} SumOfTwo(s: seq<nat>, t: seq<nat>)
    ensures Sum(s + t) == Sum(s) + Sum(t)
  {
    if t == [] {
      assert s + t == s;
    } else {
      assert (s + t)[..|s + t| - 1] == s + t[..|t| - 1];
      SumOfTwo(s, t[..|t| - 1]);
    }
  }

  lemma {:induction false} SumOfRepeat(size: nat, count: nat)
    ensures Sum(Repeat(size, count)) == size * count
  {
    if count > 0 {
      assert Repeat(size, count)[..count - 1] == Repeat(size, count - 1);
      SumOfRepeat(size, count - 1);
    }
  }

  lemma {:induction false} SumOfFront(s: seq<nat>, k: nat)
    requires k <= |s|
    ensures Sum(s[..k]) <= Sum(s)
  {
    assert s[..k] + s[k..] == s;
    SumOfTwo(s[..k], s[k..]);
  }

  /** Only whole quadruples of coefficients. */
  predicate Quadruples(runs: Runs) {
    runs.Run? ==> runs.size % 4 == 0 && runs.size >= 4 && Quadruples(runs.rest)
  }

  predicate Fills(runs: Runs, total: nat, low: nat, high: nat) {
    Total(runs) == total && Quadruples(runs) && low <= Count(runs) <= high
  }

  lemma ShortTables()
    ensures Fills(SHORT_96, 128, 12, 15) && Fills(SHORT_64, 128, 12, 15) && Fills(SHORT_48, 128, 12, 15)
    ensures Fills(SHORT_24, 128, 12, 15) && Fills(SHORT_16, 128, 12, 15) && Fills(SHORT_8, 128, 12, 15)
  {
  }

  lemma LongTable96()
    ensures Fills(LONG_96, 1024, 40, 51)
  {
  }

  lemma LongTable64()
    ensures Fills(LONG_64, 1024, 40, 51)
  {
  }

  lemma LongTable48()
    ensures Fills(LONG_48, 1024, 40, 51)
  {
  }

  lemma LongTable32()
    ensures Fills(LONG_32, 1024, 40, 51)
  {
  }

  lemma LongTable24()
    ensures Fills(LONG_24, 1024, 40, 51)
  {
  }

  lemma LongTable16()
    ensures Fills(LONG_16, 1024, 40, 51)
  {
    assert Fills(WIDE_16, 600, 12, 12);
  }

  lemma LongTable8()
    ensures Fills(LONG_8, 1024, 40, 51)
  {
    assert Fills(WIDE_8, 548, 11, 11);
  }

  lemma {:induction false} SumOfSizes(runs: Runs)
    ensures Sum(Sizes(runs)) == Total(runs)
  {
    if runs.Run? {
      SumOfSizes(runs.rest);
      SumOfRepeat(runs.size, runs.count);
      SumOfTwo(Repeat(runs.size, runs.count), Sizes(runs.rest));
    }
  }

  lemma {:induction false} SizesOfRuns(runs: Runs)
    requires Quadruples(runs)
    ensures forall p :: 0 <= p < |Sizes(runs)| ==> Sizes(runs)[p] % 4 == 0 && Sizes(runs)[p] >= 4
  {
    if runs.Run? {
      SizesOfRuns(runs.rest);
    }
  }

  lemma {:induction false} RunsFill(n: Width, rate: Rate)
    ensures Fills(SizeRuns(n, rate), FRAME_COEFFICIENTS / Windows(n), if n == 3 then 12 else 40, if n == 3 then 15 else 51)
  {
    ShortTables();
    LongTable96();
    LongTable64();
    LongTable48();
    LongTable32();
    LongTable24();
    LongTable16();
    LongTable8();
  }

  /** The bands of a window: whole quadruples of coefficients that together fill it. */
  lemma {:induction false} BandsFillWindow(n: Width, rate: Rate)
    ensures Sum(BandSizes(n, rate)) * Windows(n) == FRAME_COEFFICIENTS
    ensures forall p :: 0 <= p < |BandSizes(n, rate)| ==> BandSizes(n, rate)[p] % 4 == 0 && BandSizes(n, rate)[p] >= 4
    ensures if n == 3 then 12 <= |BandSizes(n, rate)| <= 15 else 40 <= |BandSizes(n, rate)| <= 51
  {
    RunsFill(n, rate);
    SumOfSizes(SizeRuns(n, rate));
    SizesOfRuns(SizeRuns(n, rate));
  }
}
