/**
 * The feature-template-vs-time view: on each selection change it projects
 * the selected clusters, overrides the axis bounds, and lays out the overlay
 * lines (white at block starts, grey at block ends in gap mode, and a
 * half-transparent baseline at y = 0).
 */
module View {
  import opened Wrappers
  import opened Timeline
  import opened GapRemap
  import opened Projection

  /** An RGBA colour. */
  datatype Color = Color(r: real, g: real, b: real, a: real)

  const White := Color(1.0, 1.0, 1.0, 1.0)
  const Grey := Color(0.4, 0.4, 0.4, 1.0)
  const BaselineColor := Color(1.0, 1.0, 1.0, 0.5)

  /** A line-segment draw instruction. */
  datatype Line = Line(x1: real, y1: real, x2: real, y2: real, color: Color)

  /** A vertical line at time `t` spanning the bounds' y-range. */
  function Vertical(t: real, b: Bounds, c: Color): Line
  {
    Line(t, b.yMin, t, b.yMax, c)
  }

  /** What the view hands to the renderer: the points, the bounds and the overlay lines. */
  datatype DrawPlan = DrawPlan(records: seq<ClusterRecord>, bounds: Bounds, lines: seq<Line>)

  datatype Selection = NoOp | Failed(failure: Failure) | Draw(plan: DrawPlan)

  /** Where each block but the last ends: its start plus its size. */
  function BlockEnds(tl: Layout): seq<real>
    requires WellFormed(tl)
  {
    seq(|tl.gapTimes|, j requires 0 <= j < |tl.gapTimes| => tl.startsTime[j] + tl.sizesTime[j])
  }

  /** `lines` is one vertical line of colour `c` at each of `times`, in order. */
  ghost predicate VerticalsAt(lines: seq<Line>, times: seq<real>, b: Bounds, c: Color)
  {
    |lines| == |times| && forall k :: 0 <= k < |times| ==> lines[k] == Vertical(times[k], b, c)
  }

  /**
   * The overlay: a white line at each block start when block lines are
   * shown, then a grey line at each block's end but the last in gap mode,
   * then one baseline at y = 0 across the bounds' x-range.
   */
  ghost predicate IsOverlay(lines: seq<Line>, tl: Option<Layout>, showLines: bool, showGap: bool, b: Bounds)
    requires (showLines || showGap) ==> tl.Some? && WellFormed(tl.value)
  {
    var whiteTimes := if showLines then tl.value.startsTime else [];
    var greyTimes := if showGap then BlockEnds(tl.value) else [];
    var nWhite, nGrey := |whiteTimes|, |greyTimes|;
    && |lines| == nWhite + nGrey + 1
    && VerticalsAt(lines[..nWhite], whiteTimes, b, White)
    && VerticalsAt(lines[nWhite..nWhite + nGrey], greyTimes, b, Grey)
    && lines[nWhite + nGrey] == Line(b.xMin, 0.0, b.xMax, 0.0, BaselineColor)
  }

  /** One vertical line of colour `c` per time, spanning the bounds' y-range, in order. */
  method VerticalLines(times: seq<real>, b: Bounds, c: Color) returns (lines: seq<Line>)
    ensures VerticalsAt(lines, times, b, c)
  {
    lines := [];
    for i := 0 to |times|
      invariant |lines| == i
      invariant forall k :: 0 <= k < i ==> lines[k] == Vertical(times[k], b, c)
    {
      lines := lines + [Vertical(times[i], b, c)];
    }
  }

  /**
   * Emits the overlay lines in the order the view draws them: white lines at
   * `blockstarts_time`, grey lines at `blockstarts_time[1:] - gap_times`, and
   * the baseline.
   */
  method OverlayLines(tl: Option<Layout>, showLines: bool, showGap: bool, b: Bounds) returns (lines: seq<Line>)
    requires (showLines || showGap) ==> tl.Some? && WellFormed(tl.value)
    ensures IsOverlay(lines, tl, showLines, showGap, b)
  {
    var lineTimes: seq<real> := [];
    var greyLineTimes: seq<real> := [];
    if showGap {
      var starts, gaps := tl.value.startsTime, tl.value.gapTimes;
      lineTimes := starts;
      greyLineTimes := seq(|gaps|, j requires 0 <= j < |gaps| => starts[j + 1] - gaps[j]);
      GreyLinesAtBlockEnds(tl.value, greyLineTimes);
    } else if showLines {
      lineTimes := tl.value.startsTime;
    }
    var whites: seq<Line> := [];
    if showLines {
      whites := VerticalLines(lineTimes, b, White);
    }
    var greys: seq<Line> := [];
    if showGap {
      greys := VerticalLines(greyLineTimes, b, Grey);
    }
    lines := whites + greys + [Line(b.xMin, 0.0, b.xMax, 0.0, BaselineColor)];
    assert lines[..|whites|] == whites;
    assert lines[|whites|..|whites| + |greys|] == greys;
  }

  /** The grey line times `blockstarts_time[1:] - gap_times` are the block ends. */
  lemma GreyLinesAtBlockEnds(tl: Layout, greyLineTimes: seq<real>)
    requires WellFormed(tl)
    requires |greyLineTimes| == |tl.gapTimes|
    requires forall j :: 0 <= j < |tl.gapTimes| ==> greyLineTimes[j] == tl.startsTime[j + 1] - tl.gapTimes[j]
    ensures greyLineTimes == BlockEnds(tl)
  {
    forall j | 0 <= j < |tl.gapTimes|
      ensures greyLineTimes[j] == BlockEnds(tl)[j]
    {
      GreyLineIsBlockEnd(tl, j);
    }
  }

  /**
   * With spike times within the recording and, in gap mode, non-negative
   * block sizes and gaps, every projected point falls inside the x-range the
   * view forces: [0, duration], or [0, duration + total gap] in gap mode.
   */
  lemma DisplayedTimesWithinAxis(ctrl: Controller, ids: seq<int>, gap: Option<Layout>)
    requires Serves(ctrl, ids)
    requires TemplateProjections(ctrl, ids, gap).Projected?
    requires forall s :: 0 <= s < |ctrl.spikeTimes| ==> 0.0 <= ctrl.spikeTimes[s] <= ctrl.duration
    requires gap.Some? ==> NonNegative(gap.value.sizesTime) && NonNegative(gap.value.gapTimes)
    ensures var recs := TemplateProjections(ctrl, ids, gap).records;
            forall i, e :: 0 <= i < |recs| && 0 <= e < |recs[i].x| ==>
              0.0 <= recs[i].x[e] <= ctrl.duration + (if gap.Some? then Sum(gap.value.gapTimes) else 0.0)
  {
    ProjectedRecords(ctrl, ids, gap);
    var recs := TemplateProjections(ctrl, ids, gap).records;
    forall i, e | 0 <= i < |recs| && 0 <= e < |recs[i].x|
      ensures 0.0 <= recs[i].x[e] <= ctrl.duration + (if gap.Some? then Sum(gap.value.gapTimes) else 0.0)
    {
      TimeWithinAxis(ctrl.spikeTimes[recs[i].spikeIds[e]], ctrl.duration, gap);
    }
  }

  /**
   * The same, stated on the block arrays as loaded: non-negative block sizes
   * and blocks that start no earlier than the previous one ends.
   */
  lemma LoadedBlocksWithinAxis(ctrl: Controller, ids: seq<int>, sizes: seq<int>, starts: seq<int>, sampleRate: real)
    requires |sizes| == |starts| && sampleRate > 0.0
    requires forall i :: 0 <= i < |sizes| ==> sizes[i] >= 0
    requires forall i :: 0 <= i && i + 1 < |starts| ==> starts[i] + sizes[i] <= starts[i + 1]
    requires Serves(ctrl, ids)
    requires forall s :: 0 <= s < |ctrl.spikeTimes| ==> 0.0 <= ctrl.spikeTimes[s] <= ctrl.duration
    ensures var tl := Build(sizes, starts, sampleRate);
            var out := TemplateProjections(ctrl, ids, Some(tl));
            out.Projected? ==>
              forall i, e :: 0 <= i < |out.records| && 0 <= e < |out.records[i].x| ==>
                0.0 <= out.records[i].x[e] <= ctrl.duration + Sum(tl.gapTimes)
  {
    var tl := Build(sizes, starts, sampleRate);
    if TemplateProjections(ctrl, ids, Some(tl)).Projected? {
      LayoutSizesNonNegative(sizes, starts, sampleRate);
      LayoutGapsNonNegative(sizes, starts, sampleRate);
      DisplayedTimesWithinAxis(ctrl, ids, Some(tl));
    }
  }

  /** One spike time of the recording, raw or remapped, within the forced x-range. */
  lemma TimeWithinAxis(t: real, duration: real, gap: Option<Layout>)
    requires 0.0 <= t <= duration
    requires gap.Some? ==> NonNegative(gap.value.sizesTime) && NonNegative(gap.value.gapTimes)
    ensures var x := if gap.Some? then Remapped(t, gap.value) else t;
            0.0 <= x <= duration + (if gap.Some? then Sum(gap.value.gapTimes) else 0.0)
  {
    if gap.Some? {
      ShiftWithinTotalGap(t, gap.value);
    }
  }

  class FeatureTemplateTime {
    const controller: Controller
    /** The block layout, present when the block files exist. */
    const timeline: Option<Layout>
    const showBlockLines: bool
    var showBlockGap: bool
    /** The current selection, kept by the base view. */
    var clusterIds: seq<int>

    ghost predicate Valid()
      reads this
    {
      && showBlockLines == timeline.Some?
      && (showBlockGap ==> showBlockLines)
      && (timeline.Some? ==> WellFormed(timeline.value))
    }

    /** The timeline the projection remaps through: present only in gap mode. */
    function GapTimeline(): Option<Layout>
      reads this
    {
      if showBlockGap then timeline else None
    }

    /** The forced x-range's upper end: the duration, plus the total gap in gap mode. */
    function XSpan(): real
      reads this
    {
      controller.duration + (if showBlockGap && timeline.Some? then Sum(timeline.value.gapTimes) else 0.0)
    }

    /**
     * What a redraw for selection `ids` produces: nothing for an empty
     * selection, the raised exception, or the projected records, the bounds
     * (0, 0, XSpan(), y_max of the aggregate) and the overlay lines.
     */
    ghost predicate Drawn(outcome: Selection, ids: seq<int>)
      reads this
      requires Valid() && Serves(controller, ids)
    {
      if |ids| == 0 then outcome == NoOp
      else match TemplateProjections(controller, ids, GapTimeline())
        case NoClusters => false
        case Raised(f) => outcome == Failed(f)
        case Projected(recs) =>
          && outcome.Draw?
          && outcome.plan.records == recs
          && |recs| > 0 && recs[0].dataBounds.Some?
          && outcome.plan.bounds == Bounds(0.0, 0.0, XSpan(), recs[0].dataBounds.value.yMax)
          && IsOverlay(outcome.plan.lines, timeline, showBlockLines, showBlockGap, outcome.plan.bounds)
    }

    /**
     * Builds the timeline from the block arrays (sizes, starts) when they are
     * present; block lines are shown exactly then, and gap mode starts off.
     */
    constructor (ctrl: Controller, sampleRate: real, blocks: Option<(seq<int>, seq<int>)>)
      requires sampleRate > 0.0
      requires blocks.Some? ==> |blocks.value.0| == |blocks.value.1|
      ensures Valid()
      ensures controller == ctrl && clusterIds == [] && !showBlockGap
      ensures showBlockLines == blocks.Some?
      ensures timeline == if blocks.Some? then Some(Build(blocks.value.0, blocks.value.1, sampleRate)) else None
    {
      controller := ctrl;
      if blocks.Some? {
        timeline := Some(Build(blocks.value.0, blocks.value.1, sampleRate));
        showBlockGap := false;
        showBlockLines := true;
      } else {
        timeline := None;
        showBlockGap := false;
        showBlockLines := false;
      }
      clusterIds := [];
    }

    /**
     * Redraws for a new selection: returns early on an empty selection,
     * otherwise projects the clusters, forces the bounds to
     * (0, 0, XSpan(), y_max) and lays out the overlay lines.
     */
    method OnSelect(ids: seq<int>) returns (outcome: Selection)
      requires Valid() && Serves(controller, ids)
      modifies this`clusterIds
      ensures Valid() && clusterIds == ids
      ensures Drawn(outcome, ids)
    {
      clusterIds := ids;
      if |ids| == 0 {
        return NoOp;
      }
      var gap := GapTimeline();
      var bunchs := GetTemplateProjections(controller, ids, gap);
      ProjectionsOutcome(controller, ids, gap);
      if bunchs.Raised? {
        return Failed(bunchs.failure);
      }
      SharedTrueBounds(controller, ids, gap);
      var aggregate := bunchs.records[0].dataBounds.value;
      var dataBounds: Bounds;
      if showBlockGap {
        dataBounds := Bounds(0.0, 0.0, controller.duration + Sum(timeline.value.gapTimes), aggregate.yMax);
      } else {
        dataBounds := Bounds(0.0, 0.0, controller.duration, aggregate.yMax);
      }
      var lines := OverlayLines(timeline, showBlockLines, showBlockGap, dataBounds);
      outcome := Draw(DrawPlan(bunchs.records, dataBounds, lines));
    }

    /** The menu action: flips gap mode and redraws the current selection. */
    method ToggleShowBlockGap() returns (outcome: Selection)
      requires Valid() && showBlockLines && Serves(controller, clusterIds)
      modifies this
      ensures Valid()
      ensures showBlockGap == !old(showBlockGap) && clusterIds == old(clusterIds)
      ensures Drawn(outcome, clusterIds)
    {
      showBlockGap := !showBlockGap;
      outcome := OnSelect(clusterIds);
    }
  }
}
