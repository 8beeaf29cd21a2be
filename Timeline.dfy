/**
 * The recording's block layout: per-block start and size, converted from
 * samples to seconds, and the idle gap between each pair of adjacent blocks.
 */
module Timeline {

  /** Sum of a sequence of reals, peeling off the last element. */
  function Sum(s: seq<real>): real
  {
    if |s| == 0 then 0.0 else Sum(s[..|s| - 1]) + s[|s| - 1]
  }

  /** Sum of the first `k` elements, with Python's clamping of `s[:k]`. */
  function Prefix(s: seq<real>, k: nat): real
  {
    Sum(s[..if k <= |s| then k else |s|])
  }

  lemma PrefixStep(s: seq<real>, k: nat)
    requires k < |s|
    ensures Prefix(s, k + 1) == Prefix(s, k) + s[k]
  {
    assert s[..k + 1][..k] == s[..k];
  }

  lemma PrefixAll(s: seq<real>)
    ensures Prefix(s, |s|) == Sum(s)
  {
    assert s[..|s|] == s;
  }

  /** Prefix sums of non-negative elements never decrease. */
  lemma {:induction false} PrefixMonotone(s: seq<real>, a: nat, b: nat)
    requires forall i :: 0 <= i < |s| ==> s[i] >= 0.0
    requires a <= b
    ensures Prefix(s, a) <= Prefix(s, b)
    decreases b - a
  {
    if a < b && a < |s| {
      PrefixStep(s, a);
      PrefixMonotone(s, a + 1, b);
    } else if a < b {
      assert Prefix(s, a) == Prefix(s, b);
    }
  }

  /**
   * Block layout in seconds. `gapTimes[i]` is the idle time between the end
   * of block `i` and the start of block `i + 1`.
   */
  datatype Layout = Layout(startsTime: seq<real>, sizesTime: seq<real>, gapTimes: seq<real>)

  /** Number of blocks. */
  function Blocks(tl: Layout): nat
  {
    |tl.startsTime|
  }

  /** One size per block and one gap per adjacent pair, each gap being start-to-start minus the earlier size. */
  ghost predicate WellFormed(tl: Layout)
  {
    && |tl.sizesTime| == |tl.startsTime|
    && |tl.gapTimes| == (if |tl.startsTime| == 0 then 0 else |tl.startsTime| - 1)
    && forall i :: 0 <= i < |tl.gapTimes| ==>
         tl.gapTimes[i] == tl.startsTime[i + 1] - tl.startsTime[i] - tl.sizesTime[i]
  }

  /** Samples to seconds, elementwise. */
  function ToSeconds(samples: seq<int>, sampleRate: real): (r: seq<real>)
    requires sampleRate > 0.0
    ensures |r| == |samples|
  {
    seq(|samples|, i requires 0 <= i < |samples| => samples[i] as real / sampleRate)
  }

  /**
   * Converts the block arrays (in samples) to seconds and derives one gap per
   * adjacent pair of blocks: the start-to-start difference minus the size of
   * the earlier block.
   */
  function Build(sizes: seq<int>, starts: seq<int>, sampleRate: real): (tl: Layout)
    requires |sizes| == |starts|
    requires sampleRate > 0.0
    ensures WellFormed(tl) && Blocks(tl) == |starts|
    ensures tl.startsTime == ToSeconds(starts, sampleRate) && tl.sizesTime == ToSeconds(sizes, sampleRate)
  {
    var startsTime := ToSeconds(starts, sampleRate);
    var sizesTime := ToSeconds(sizes, sampleRate);
    var n := if |starts| == 0 then 0 else |starts| - 1;
    var gaps := seq(n, i requires 0 <= i < n => startsTime[i + 1] - startsTime[i] - sizesTime[i]);
    Layout(startsTime, sizesTime, gaps)
  }

  predicate NonNegative(s: seq<real>)
  {
    forall i :: 0 <= i < |s| ==> s[i] >= 0.0
  }

  /** A sample count over a positive rate keeps the count's sign. */
  lemma QuotientSign(x: int, r: real)
    requires r > 0.0
    ensures x as real / r >= 0.0 <==> x >= 0
  {
    if x >= 0 {
      assert x as real / r >= 0.0;
    } else {
      assert x as real / r < 0.0;
    }
  }

  /** Differences of quotients by the same rate are the quotient of the difference. */
  lemma QuotientDifference(a: int, b: int, c: int, r: real)
    requires r > 0.0
    ensures a as real / r - b as real / r - c as real / r == (a - b - c) as real / r
  {
  }

  /** Block times in seconds are non-negative exactly when the sample counts are. */
  lemma ToSecondsNonNegative(samples: seq<int>, sampleRate: real)
    requires sampleRate > 0.0
    ensures NonNegative(ToSeconds(samples, sampleRate)) <==> forall i :: 0 <= i < |samples| ==> samples[i] >= 0
  {
    forall i | 0 <= i < |samples|
      ensures ToSeconds(samples, sampleRate)[i] >= 0.0 <==> samples[i] >= 0
    {
      QuotientSign(samples[i], sampleRate);
    }
  }

  /** The layout built from the sample arrays has non-negative sizes exactly when the block sizes are. */
  lemma LayoutSizesNonNegative(sizes: seq<int>, starts: seq<int>, sampleRate: real)
    requires |sizes| == |starts| && sampleRate > 0.0
    ensures NonNegative(Build(sizes, starts, sampleRate).sizesTime) <==> forall i :: 0 <= i < |sizes| ==> sizes[i] >= 0
  {
    ToSecondsNonNegative(sizes, sampleRate);
  }

  /**
   * The layout built from the sample arrays has non-negative gaps exactly
   * when no block starts before the previous one ends.
   */
  lemma LayoutGapsNonNegative(sizes: seq<int>, starts: seq<int>, sampleRate: real)
    requires |sizes| == |starts| && sampleRate > 0.0
    ensures NonNegative(Build(sizes, starts, sampleRate).gapTimes) <==>
              forall i :: 0 <= i && i + 1 < |starts| ==> starts[i] + sizes[i] <= starts[i + 1]
  {
    var tl := Build(sizes, starts, sampleRate);
    forall i | 0 <= i && i + 1 < |starts|
      ensures tl.gapTimes[i] >= 0.0 <==> starts[i] + sizes[i] <= starts[i + 1]
    {
      assert tl.gapTimes[i] == starts[i + 1] as real / sampleRate - starts[i] as real / sampleRate - sizes[i] as real / sampleRate;
      QuotientDifference(starts[i + 1], starts[i], sizes[i], sampleRate);
      QuotientSign(starts[i + 1] - starts[i] - sizes[i], sampleRate);
    }
  }

  /**
   * Cumulative size plus cumulative gap up to block `k` is the distance from
   * the first block's start to block `k`'s start.
   */
  lemma {:induction false} SizesPlusGapsReachStart(tl: Layout, k: nat)
    requires WellFormed(tl)
    requires k < Blocks(tl)
    ensures Prefix(tl.sizesTime, k) + Prefix(tl.gapTimes, k) == tl.startsTime[k] - tl.startsTime[0]
  {
    if k > 0 {
      SizesPlusGapsReachStart(tl, k - 1);
      PrefixStep(tl.sizesTime, k - 1);
      PrefixStep(tl.gapTimes, k - 1);
    }
  }

  /**
   * The total of all gaps is the idle time of the recording: the span from the
   * first start to the last start, less the sizes of all blocks but the last.
   */
  lemma TotalGapIsIdleTime(tl: Layout)
    requires WellFormed(tl)
    requires Blocks(tl) > 0
    ensures Sum(tl.gapTimes) == tl.startsTime[Blocks(tl) - 1] - tl.startsTime[0] - Prefix(tl.sizesTime, Blocks(tl) - 1)
  {
    SizesPlusGapsReachStart(tl, Blocks(tl) - 1);
    PrefixAll(tl.gapTimes);
  }

  /** The grey line position `startsTime[j+1] - gapTimes[j]` is the end time of block `j`. */
  lemma GreyLineIsBlockEnd(tl: Layout, j: nat)
    requires WellFormed(tl)
    requires j < |tl.gapTimes|
    ensures tl.startsTime[j + 1] - tl.gapTimes[j] == tl.startsTime[j] + tl.sizesTime[j]
  {
  }
}
