/**
 * "Show block gap" mode: spike times arrive on the concatenated timeline (the
 * blocks laid end to end) and each spike inside a later block is shifted by
 * the idle time that preceded that block, so the spikes land back on the
 * recording's own clock.
 */
module GapRemap {
  import opened Wrappers
  import opened Timeline

  /**
   * The raw time lies strictly between the cumulative sizes C[j+1] and C[j+2],
   * i.e. in the open span of block j+1 on the concatenated timeline.
   */
  predicate Inside(t: real, tl: Layout, j: nat)
  {
    Prefix(tl.sizesTime, j + 1) < t && t < Prefix(tl.sizesTime, j + 2)
  }

  /** Total shift applied by the first `m` passes of the per-gap loop. */
  function Shift(t: real, tl: Layout, m: nat): real
    requires m <= |tl.gapTimes|
  {
    if m == 0 then 0.0
    else Shift(t, tl, m - 1) + (if Inside(t, tl, m - 1) then Prefix(tl.gapTimes, m) else 0.0)
  }

  /** The displayed time of a spike whose concatenated time is `t`. */
  function Remapped(t: real, tl: Layout): real
  {
    t + Shift(t, tl, |tl.gapTimes|)
  }

  /**
   * Copies the selected spikes' times and, in gap mode, adds to every spike
   * strictly inside block j+1 the sum of the first j+1 gaps, one gap index at
   * a time. The interval tests read the unmodified spike times, not the copy.
   */
  method RemapTimes(spikeTimes: seq<real>, spikeIds: seq<nat>, gap: Option<Layout>) returns (x: seq<real>)
    requires forall e :: 0 <= e < |spikeIds| ==> spikeIds[e] < |spikeTimes|
    ensures |x| == |spikeIds|
    ensures forall e :: 0 <= e < |x| ==>
              x[e] == if gap.Some? then Remapped(spikeTimes[spikeIds[e]], gap.value) else spikeTimes[spikeIds[e]]
  {
    var n := |spikeIds|;
    var raw := seq(n, e requires 0 <= e < n => spikeTimes[spikeIds[e]]);
    var a := new real[n](e requires 0 <= e < n => raw[e]);
    if gap.Some? {
      var tl := gap.value;
      for j := 0 to |tl.gapTimes|
        invariant forall e :: 0 <= e < n ==> a[e] == raw[e] + Shift(raw[e], tl, j)
      {
        ShiftOneMask(a, raw, tl, j);
      }
    }
    x := a[..];
  }

  /**
   * One pass of the outer loop: adds the first `j + 1` gaps to every element
   * whose unmodified time lies strictly inside block `j + 1`.
   */
  method ShiftOneMask(a: array<real>, raw: seq<real>, tl: Layout, j: nat)
    requires a.Length == |raw| && j < |tl.gapTimes|
    requires forall e :: 0 <= e < |raw| ==> a[e] == raw[e] + Shift(raw[e], tl, j)
    modifies a
    ensures forall e :: 0 <= e < |raw| ==> a[e] == raw[e] + Shift(raw[e], tl, j + 1)
  {
    var lo, hi := Prefix(tl.sizesTime, j + 1), Prefix(tl.sizesTime, j + 2);
    var g := Prefix(tl.gapTimes, j + 1);
    for e := 0 to a.Length
      invariant forall k :: 0 <= k < e ==> a[k] == raw[k] + Shift(raw[k], tl, j + 1)
      invariant forall k :: e <= k < a.Length ==> a[k] == raw[k] + Shift(raw[k], tl, j)
    {
      var t := raw[e];
      assert Shift(t, tl, j + 1) == Shift(t, tl, j) + (if lo < t && t < hi then g else 0.0);
      if lo < t && t < hi {
        a[e] := a[e] + g;
      }
    }
  }

  /** With no interval containing `t` among the first `m`, nothing is added. */
  lemma {:induction false} ShiftWithoutInterval(t: real, tl: Layout, m: nat)
    requires m <= |tl.gapTimes|
    requires forall j :: 0 <= j < m ==> !Inside(t, tl, j)
    ensures Shift(t, tl, m) == 0.0
  {
    if m > 0 {
      ShiftWithoutInterval(t, tl, m - 1);
    }
  }

  /** When interval `j0` is the only one containing `t`, it contributes its shift exactly once. */
  lemma {:induction false} ShiftSingleInterval(t: real, tl: Layout, m: nat, j0: nat)
    requires m <= |tl.gapTimes|
    requires Inside(t, tl, j0)
    requires forall j :: 0 <= j < m && j != j0 ==> !Inside(t, tl, j)
    ensures Shift(t, tl, m) == if j0 < m then Prefix(tl.gapTimes, j0 + 1) else 0.0
  {
    if m > 0 {
      ShiftSingleInterval(t, tl, m - 1, j0);
    }
  }

  /** With non-negative block sizes the open block spans are disjoint. */
  lemma IntervalsDisjoint(t: real, tl: Layout, j: nat, k: nat)
    requires NonNegative(tl.sizesTime)
    requires Inside(t, tl, j) && Inside(t, tl, k)
    ensures j == k
  {
    if j < k {
      PrefixMonotone(tl.sizesTime, j + 2, k + 1);
    } else if k < j {
      PrefixMonotone(tl.sizesTime, k + 2, j + 1);
    }
  }

  /**
   * A spike strictly inside block j+1 is shifted exactly once, by the sum of
   * the first j+1 gaps.
   */
  lemma ShiftedOnce(t: real, tl: Layout, j: nat)
    requires NonNegative(tl.sizesTime)
    requires j < |tl.gapTimes|
    requires Inside(t, tl, j)
    ensures Remapped(t, tl) == t + Prefix(tl.gapTimes, j + 1)
  {
    forall k | 0 <= k < |tl.gapTimes| && k != j
      ensures !Inside(t, tl, k)
    {
      if Inside(t, tl, k) {
        IntervalsDisjoint(t, tl, j, k);
      }
    }
    ShiftSingleInterval(t, tl, |tl.gapTimes|, j);
  }

  /**
   * Spikes in block 0 (up to and including its end), at or after the end of
   * the last block, and all spikes of a recording with at most one block keep
   * their time.
   */
  lemma UnshiftedOutside(t: real, tl: Layout)
    requires WellFormed(tl)
    requires NonNegative(tl.sizesTime)
    requires Blocks(tl) <= 1 || t <= Prefix(tl.sizesTime, 1) || t >= Prefix(tl.sizesTime, Blocks(tl))
    ensures Remapped(t, tl) == t
  {
    forall j | 0 <= j < |tl.gapTimes|
      ensures !Inside(t, tl, j)
    {
      PrefixMonotone(tl.sizesTime, 1, j + 1);
      PrefixMonotone(tl.sizesTime, j + 2, Blocks(tl));
    }
    ShiftWithoutInterval(t, tl, |tl.gapTimes|);
  }

  /**
   * A spike exactly on a cumulative block boundary C[k] keeps its time, since
   * both interval tests are strict.
   */
  lemma UnshiftedOnBoundary(t: real, tl: Layout, k: nat)
    requires NonNegative(tl.sizesTime)
    requires t == Prefix(tl.sizesTime, k)
    ensures Remapped(t, tl) == t
  {
    forall j | 0 <= j < |tl.gapTimes|
      ensures !Inside(t, tl, j)
    {
      if k <= j + 1 {
        PrefixMonotone(tl.sizesTime, k, j + 1);
      } else {
        PrefixMonotone(tl.sizesTime, j + 2, k);
      }
    }
    ShiftWithoutInterval(t, tl, |tl.gapTimes|);
  }

  /**
   * The shift puts a spike of block j+1 at its offset into that block past the
   * block's own start, measured from the first block's start: the recording's
   * clock.
   */
  lemma RemappedIsRecordingTime(t: real, tl: Layout, j: nat)
    requires WellFormed(tl)
    requires NonNegative(tl.sizesTime)
    requires j < |tl.gapTimes|
    requires Inside(t, tl, j)
    ensures Remapped(t, tl) == tl.startsTime[j + 1] - tl.startsTime[0] + (t - Prefix(tl.sizesTime, j + 1))
  {
    ShiftedOnce(t, tl, j);
    SizesPlusGapsReachStart(tl, j + 1);
  }

  /**
   * With non-negative sizes and gaps, the remap never moves a spike back and
   * never moves it past the total of all gaps.
   */
  lemma ShiftWithinTotalGap(t: real, tl: Layout)
    requires NonNegative(tl.sizesTime) && NonNegative(tl.gapTimes)
    ensures t <= Remapped(t, tl) <= t + Sum(tl.gapTimes)
  {
    PrefixAll(tl.gapTimes);
    if j :| 0 <= j < |tl.gapTimes| && Inside(t, tl, j) {
      ShiftedOnce(t, tl, j);
      PrefixMonotone(tl.gapTimes, 0, j + 1);
      PrefixMonotone(tl.gapTimes, j + 1, |tl.gapTimes|);
    } else {
      ShiftWithoutInterval(t, tl, |tl.gapTimes|);
      PrefixMonotone(tl.gapTimes, 0, |tl.gapTimes|);
    }
  }

  /** A spike in block 0 (up to its end) is never shifted. */
  lemma UnshiftedInFirstBlock(t: real, tl: Layout)
    requires NonNegative(tl.sizesTime)
    requires t <= Prefix(tl.sizesTime, 1)
    ensures Remapped(t, tl) == t
  {
    forall j | 0 <= j < |tl.gapTimes|
      ensures !Inside(t, tl, j)
    {
      PrefixMonotone(tl.sizesTime, 1, j + 1);
    }
    ShiftWithoutInterval(t, tl, |tl.gapTimes|);
  }

  /**
   * Order is kept between two spikes that are each in block 0 or strictly
   * inside some block.
   */
  lemma OrderKeptInsideBlocks(t1: real, t2: real, tl: Layout, j1: nat, j2: nat)
    requires NonNegative(tl.sizesTime) && NonNegative(tl.gapTimes)
    requires t1 <= t2
    requires t1 <= Prefix(tl.sizesTime, 1) || (j1 < |tl.gapTimes| && Inside(t1, tl, j1))
    requires t2 <= Prefix(tl.sizesTime, 1) || (j2 < |tl.gapTimes| && Inside(t2, tl, j2))
    ensures Remapped(t1, tl) <= Remapped(t2, tl)
  {
    if t2 <= Prefix(tl.sizesTime, 1) {
      UnshiftedInFirstBlock(t1, tl);
      UnshiftedInFirstBlock(t2, tl);
    } else {
      if j1 < |tl.gapTimes| && Inside(t1, tl, j1) {
        OrderKeptAcrossMasks(t1, t2, tl, j1, j2);
      } else {
        ShiftedOnce(t2, tl, j2);
        UnshiftedInFirstBlock(t1, tl);
        PrefixMonotone(tl.gapTimes, 0, j2 + 1);
      }
    }
  }

  /** Two ordered spikes each strictly inside a mask keep their order. */
  lemma OrderKeptAcrossMasks(t1: real, t2: real, tl: Layout, j1: nat, j2: nat)
    requires NonNegative(tl.sizesTime) && NonNegative(tl.gapTimes)
    requires t1 <= t2
    requires j1 < |tl.gapTimes| && Inside(t1, tl, j1)
    requires j2 < |tl.gapTimes| && Inside(t2, tl, j2)
    ensures Remapped(t1, tl) <= Remapped(t2, tl)
  {
    ShiftedOnce(t1, tl, j1);
    ShiftedOnce(t2, tl, j2);
    if j2 < j1 {
      PrefixMonotone(tl.sizesTime, j2 + 2, j1 + 1);
    }
    PrefixMonotone(tl.gapTimes, j1 + 1, j2 + 1);
  }

  /**
   * The remap is not monotone: with three blocks of 2 s starting at 0 s, 3 s
   * and 6 s (one second of idle time between blocks), a spike at 3.5 s on the
   * concatenated timeline moves to 4.5 s while the later spike at 4 s, exactly
   * on the boundary of block 2, stays at 4 s.
   */
  lemma BoundarySpikeOvertaken()
    ensures var tl := Build([2, 2, 2], [0, 3, 6], 1.0);
            Remapped(3.5, tl) == 4.5 && Remapped(4.0, tl) == 4.0
  {
    var tl := Build([2, 2, 2], [0, 3, 6], 1.0);
    assert tl.sizesTime == [2.0, 2.0, 2.0];
    assert tl.gapTimes == [1.0, 1.0];
    PrefixStep(tl.sizesTime, 0);
    PrefixStep(tl.sizesTime, 1);
    PrefixStep(tl.gapTimes, 0);
    ShiftedOnce(3.5, tl, 0);
    UnshiftedOnBoundary(4.0, tl, 2);
  }

  /**
   * Two blocks of 100 and 50 samples starting at samples 0 and 150, at one
   * sample per second: one gap of 50 s. A spike at 50 s (block 0) stays; one
   * at 120 s (inside block 1 on the concatenated timeline) moves to 170 s; one
   * at 160 s, past the concatenated end at 150 s, stays.
   */
  lemma TwoBlockScenario()
    ensures var tl := Build([100, 50], [0, 150], 1.0);
            && tl.gapTimes == [50.0]
            && Remapped(50.0, tl) == 50.0
            && Remapped(120.0, tl) == 170.0
            && Remapped(160.0, tl) == 160.0
  {
    var tl := Build([100, 50], [0, 150], 1.0);
    assert tl.sizesTime == [100.0, 50.0];
    assert tl.gapTimes == [50.0];
    PrefixStep(tl.sizesTime, 0);
    PrefixStep(tl.sizesTime, 1);
    PrefixStep(tl.gapTimes, 0);
    UnshiftedOutside(50.0, tl);
    ShiftedOnce(120.0, tl, 0);
    UnshiftedOutside(160.0, tl);
  }
}
