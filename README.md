# Feature template vs. time view — a Dafny model

This project models the core of phy's `FeatureTemplateTime` plugin view
(`phycontrib/LBHB_plugins/FeatureTemplateTimeView.py`). For each selected
cluster, the view takes the spikes sampled by
`_get_spike_ids(cid, n_spikes_features)` and plots each one's template-feature
row, averaged with the first selected cluster's template counts as weights,
against the spike's time.
A recording can be concatenated from several blocks. In that case the view
draws a white line at each block start. In "gap" mode it also shifts the
spikes of later blocks by the idle time that separated the blocks, and draws
a grey line at the end of each block but the last.

The model has five modules:

- `Timeline` (`Timeline.dfy`) converts block sizes and starts from samples to
  seconds and derives the idle gaps between consecutive blocks, giving a
  `Layout` value.
- `GapRemap` (`GapRemap.dfy`) holds the per-gap masked shift of spike times,
  written as the imperative loop the source runs. `Remapped` is its reference
  definition.
- `Projection` (`Projection.dfy`) models `get_template_projections`:
  - the per-cluster record of display times, weighted averages and spike ids;
  - the running min/max fold seeded with ±infinity;
  - stamping the shared data bounds onto every record;
  - the two numpy exceptions that can end it early.

  `TemplateProjections` is the specification function, and the method
  `GetTemplateProjections` is proved equal to it.
- `View` (`View.dfy`) models the view object: a class with the controller,
  the optional timeline, the two display flags and the current selection. It
  also covers `on_select`'s bounds override and overlay line list, and the
  menu action that toggles gap mode.

## Behaviour as the code has it

Gap mode is switched by the menu action 'Toggle show block gaps' (line 56).
What it does to the display, as the code has it:

- **Gaps are added, not removed.** The code adds `gap_times[:j+1].sum()` to
  spike times strictly between the cumulative block sizes `j+1` and `j+2`.
  Spike times are therefore taken to be concatenated block time, and the
  shift turns them into recording time (`GapRemap.RemappedIsRecordingTime`).
- **Strict masks.** Spikes in the first block, spikes exactly on a
  cumulative block boundary, and spikes at or past the last boundary are not
  shifted. So a boundary spike can end up before a shifted spike that
  preceded it (`GapRemap.BoundarySpikeOvertaken`).
- **The masks read the raw times**, not the partly shifted copy. A spike is
  therefore shifted by at most one gap prefix (`GapRemap.IntervalsDisjoint`).
- **White lines stay at the raw block starts** (`blockstarts_time`), also in
  gap mode.
- **Forced x-range.** In gap mode the x-range becomes
  `[0, duration + sum(gap_times)]`, otherwise `[0, duration]`. The y-range
  becomes `[0, y_max of the projected data]`.
- **Weights come from the first cluster.** Every cluster's y values are
  averaged with the first selected cluster's template counts.

## Model

| member | source | states |
|---|---|---|
| `Timeline.Build` | phycontrib/LBHB_plugins/FeatureTemplateTimeView.py:44-46 | the timeline is well formed: starts and sizes are the sample arrays divided by the rate, there is one gap per pair of consecutive blocks, and gap i equals start i+1 minus start i minus size i |
| `Timeline.ToSecondsNonNegative` | phycontrib/LBHB_plugins/FeatureTemplateTimeView.py:44-45 | the block times in seconds are all non-negative exactly when the sample counts are |
| `Timeline.LayoutSizesNonNegative` | phycontrib/LBHB_plugins/FeatureTemplateTimeView.py:44-45 | the block sizes in seconds are non-negative exactly when every block size in samples is |
| `Timeline.LayoutGapsNonNegative` | phycontrib/LBHB_plugins/FeatureTemplateTimeView.py:44-46 | every gap is non-negative exactly when no block ends after the next one starts |
| `Timeline.SizesPlusGapsReachStart` | phycontrib/LBHB_plugins/FeatureTemplateTimeView.py:46 | the sizes and gaps of the blocks before block k add up to the distance from the first block's start to block k's start |
| `Timeline.TotalGapIsIdleTime` | phycontrib/LBHB_plugins/FeatureTemplateTimeView.py:76 | the total gap added to the x-range is the span from the first start to the last start, less the sizes of all blocks but the last |
| `Timeline.GreyLineIsBlockEnd` | phycontrib/LBHB_plugins/FeatureTemplateTimeView.py:75 | the grey line time `blockstarts_time[1:] - gap_times` at j is the end of block j (its start plus its size) |
| `GapRemap.RemapTimes` | phycontrib/LBHB_plugins/FeatureTemplateTimeView.py:113-117 | the result is one time per spike id; outside gap mode it is the raw spike time, and in gap mode it is `Remapped` of the raw time |
| `GapRemap.IntervalsDisjoint` | phycontrib/LBHB_plugins/FeatureTemplateTimeView.py:117 | with non-negative block sizes, a spike time lies inside at most one of the gap masks |
| `GapRemap.ShiftedOnce` | phycontrib/LBHB_plugins/FeatureTemplateTimeView.py:116-117 | a spike strictly inside mask j is shifted by exactly `gap_times[:j+1].sum()` and no more |
| `GapRemap.ShiftOneMask` | phycontrib/LBHB_plugins/FeatureTemplateTimeView.py:116-117 | one pass of the per-gap loop adds gap prefix j+1 to exactly the spikes whose raw time is strictly inside mask j, extending the shift of every spike by that mask's share |
| `GapRemap.UnshiftedInFirstBlock` | phycontrib/LBHB_plugins/FeatureTemplateTimeView.py:116-117 | with non-negative sizes, a spike time at or before the end of the first block is displayed unchanged |
| `GapRemap.UnshiftedOutside` | phycontrib/LBHB_plugins/FeatureTemplateTimeView.py:116-117 | spike times are left unchanged when there is at most one block, when they lie in the first block, or when they lie at or past the end of the last block |
| `GapRemap.UnshiftedOnBoundary` | phycontrib/LBHB_plugins/FeatureTemplateTimeView.py:117 | because the comparisons are strict, a spike exactly on a cumulative block-size boundary is not shifted |
| `GapRemap.RemappedIsRecordingTime` | phycontrib/LBHB_plugins/FeatureTemplateTimeView.py:117 | a shifted spike in block j+1 lands at that block's start, relative to the first start, plus its offset inside the block |
| `GapRemap.ShiftWithinTotalGap` | phycontrib/LBHB_plugins/FeatureTemplateTimeView.py:117 | with non-negative sizes and gaps, a remapped time lies between the raw time and the raw time plus the total gap |
| `GapRemap.OrderKeptInsideBlocks` | phycontrib/LBHB_plugins/FeatureTemplateTimeView.py:117 | two spikes that are each in the first block or strictly inside a mask keep their order after the remap |
| `GapRemap.OrderKeptAcrossMasks` | phycontrib/LBHB_plugins/FeatureTemplateTimeView.py:117 | with non-negative sizes and gaps, two spikes strictly inside masks keep their order after the remap |
| `GapRemap.BoundarySpikeOvertaken` | phycontrib/LBHB_plugins/FeatureTemplateTimeView.py:117 | with blocks (2,2,2) at 0, 3 and 6 samples at rate 1, a spike at 3.5 moves to 4.5 while the later spike at 4.0 stays at 4.0, so the remap is not monotone |
| `GapRemap.TwoBlockScenario` | phycontrib/LBHB_plugins/FeatureTemplateTimeView.py:44-46 | with two blocks of 100 and 50 samples at 0 and 150, the gap is 50: spikes at 50 and 160 stay and the spike at 120 moves to 170 |
| `Projection.SeqMin` | phycontrib/LBHB_plugins/FeatureTemplateTimeView.py:120-121 | `min()` of a non-empty array is one of its elements and is at most every element |
| `Projection.SeqMax` | phycontrib/LBHB_plugins/FeatureTemplateTimeView.py:122-123 | `max()` of a non-empty array is one of its elements and is at least every element |
| `Projection.WeightedAverageBetween` | phycontrib/LBHB_plugins/FeatureTemplateTimeView.py:114 | with non-negative weights of positive sum, the weighted average of a feature row lies between the row's minimum and maximum |
| `Projection.FirstFault` | phycontrib/LBHB_plugins/FeatureTemplateTimeView.py:110-120 | no exception is raised exactly when no selected cluster faults; a raised exception is the fault of one of the selected clusters |
| `Projection.FirstFaultAt` | phycontrib/LBHB_plugins/FeatureTemplateTimeView.py:110-120 | the exception raised is that of the first cluster in selection order that faults |
| `Projection.Project` | phycontrib/LBHB_plugins/FeatureTemplateTimeView.py:111-124 | a cluster that does not fault yields a record whose x, y and spike ids have the same positive length |
| `Projection.Fold` | phycontrib/LBHB_plugins/FeatureTemplateTimeView.py:105-123 | folding never leaves a minimum at -inf or a maximum at +inf, and all four bounds are finite exactly when at least one record was folded |
| `Projection.FoldSnoc` | phycontrib/LBHB_plugins/FeatureTemplateTimeView.py:120-123 | folding one more record is one more min/max update of the running bounds |
| `Projection.FoldByColumns` | phycontrib/LBHB_plugins/FeatureTemplateTimeView.py:119-123 | the x (or y) minimum and maximum of the four-way fold are the running minimum and maximum over the x (or y) arrays of the clusters, in order |
| `Projection.MinFoldIsLeast` | phycontrib/LBHB_plugins/FeatureTemplateTimeView.py:120-121 | the running minimum over non-empty arrays is at most every element of every array |
| `Projection.MinFoldAttained` | phycontrib/LBHB_plugins/FeatureTemplateTimeView.py:120-121 | the running minimum over non-empty arrays is an element of one of them |
| `Projection.MaxFoldIsGreatest` | phycontrib/LBHB_plugins/FeatureTemplateTimeView.py:122-123 | the running maximum over non-empty arrays is at least every element of every array |
| `Projection.MaxFoldAttained` | phycontrib/LBHB_plugins/FeatureTemplateTimeView.py:122-123 | the running maximum over non-empty arrays is an element of one of them |
| `Projection.ColumnBounds` | phycontrib/LBHB_plugins/FeatureTemplateTimeView.py:119-123 | for one coordinate, the folded minimum and maximum enclose every point of every record, and each is attained by some point |
| `Projection.FoldIsTrueBounds` | phycontrib/LBHB_plugins/FeatureTemplateTimeView.py:119-125 | the folded bounds enclose every point of every record, and each of the four is attained |
| `Projection.ProjectCluster` | phycontrib/LBHB_plugins/FeatureTemplateTimeView.py:111-121 | one cluster's step either raises that cluster's fault (zero weight sum first, then empty spike set) or yields its projected record |
| `Projection.StampBounds` | phycontrib/LBHB_plugins/FeatureTemplateTimeView.py:126-127 | the records keep their number, order and contents, and every record now carries the given data bounds |
| `Projection.GetTemplateProjections` | phycontrib/LBHB_plugins/FeatureTemplateTimeView.py:100-129 | the loop's outcome equals the specification `TemplateProjections`: no clusters, the first raised fault, or the stamped records |
| `Projection.ProjectionsOutcome` | phycontrib/LBHB_plugins/FeatureTemplateTimeView.py:101-114 | the result is None exactly for an empty selection; an exception is raised exactly when some selected cluster faults, and then for a selected cluster |
| `Projection.ProjectedRecords` | phycontrib/LBHB_plugins/FeatureTemplateTimeView.py:104-124 | without an exception there is one record per selected cluster, in order, holding that cluster's spike ids, its raw or remapped spike times, and feature averages weighted by the first cluster's template counts |
| `Projection.SharedTrueBounds` | phycontrib/LBHB_plugins/FeatureTemplateTimeView.py:125-127 | without an exception every record carries the same data bounds, and they are the true attained min/max of x and y over all records |
| `Projection.ValuesWithinFeatureRange` | phycontrib/LBHB_plugins/FeatureTemplateTimeView.py:114 | with non-negative weights of positive sum, every y value lies between the minimum and maximum of its spike's feature row |
| `Projection.TwoClusterBounds` | phycontrib/LBHB_plugins/FeatureTemplateTimeView.py:105-127 | for two concrete records the fold gives the bounds (0, -1, 20, 3) |
| `View.VerticalLines` | phycontrib/LBHB_plugins/FeatureTemplateTimeView.py:86-90 | one vertical line of the given colour per time, spanning the y-range, in the order of the times |
| `View.GreyLinesAtBlockEnds` | phycontrib/LBHB_plugins/FeatureTemplateTimeView.py:75 | the grey line times `blockstarts_time[1:] - gap_times` are exactly the ends of every block but the last |
| `View.OverlayLines` | phycontrib/LBHB_plugins/FeatureTemplateTimeView.py:73-95 | the overlay is: white vertical lines at the raw block starts when block lines are shown; then, in gap mode, grey lines at every block end but the last; then the half-transparent baseline y = 0 across the x-range |
| `View.DisplayedTimesWithinAxis` | phycontrib/LBHB_plugins/FeatureTemplateTimeView.py:73-78 | when spike times lie in [0, duration] (and sizes and gaps are non-negative in gap mode), every plotted x lies inside the forced x-range |
| `View.LoadedBlocksWithinAxis` | phycontrib/LBHB_plugins/FeatureTemplateTimeView.py:73-78 | for block arrays whose sizes are non-negative and whose blocks do not overlap, every plotted x of spikes timed in [0, duration], when the projection succeeds, lies inside the gap-mode x-range [0, duration + total gap] |
| `View.TimeWithinAxis` | phycontrib/LBHB_plugins/FeatureTemplateTimeView.py:73-78 | a spike time in [0, duration], raw or remapped, lies inside the forced x-range |
| `View.FeatureTemplateTime.constructor` | phycontrib/LBHB_plugins/FeatureTemplateTimeView.py:40-51 | the timeline is built exactly when block arrays are present; block lines are shown exactly then; gap mode starts off |
| `View.FeatureTemplateTime.OnSelect` | phycontrib/LBHB_plugins/FeatureTemplateTimeView.py:61-95 | stores the selection; an empty selection draws nothing; otherwise the outcome is the projection's exception, or its records with bounds (0, 0, duration [+ total gap in gap mode], y_max of the data) and the overlay lines for those bounds |
| `View.FeatureTemplateTime.ToggleShowBlockGap` | phycontrib/LBHB_plugins/FeatureTemplateTimeView.py:56-59 | flips gap mode, keeps the selection, and redraws it as `OnSelect` does |

## Left out

- Reading `blocksizes.npy` and `blockstarts.npy` (lines 40-43) is file I/O. The constructor instead takes the optional pair of row-0 arrays (sizes, starts).
- The constructor requires the sizes and starts arrays to have equal lengths. Other shapes either make numpy raise or broadcast, and neither is modelled.
- Rendering is not modelled: `building()`, `_plot_points` and `lines()` (lines 83-95). `OnSelect` returns the records, bounds and line list it would hand to them.
- The base view's `on_select` and its `cluster_ids` storage (lines 62-63) become the `clusterIds` field.
- `_get_data` and the `coords` constructor argument (lines 34-37, 97-99) are left out. The model always projects with `get_template_projections`, the default; a caller-supplied `coords` is not modelled.
- `ScatterView._get_data_bounds` (line 72) is not part of this model. Every record carries the bounds `get_template_projections` stamped on it, so the model reads them from the first record. Only its y maximum survives the override.
- Controller and model calls become fields of the `Controller` value:
  - `get_template_counts` becomes `templateCounts`;
  - `_get_spike_ids` becomes `spikeIds`, and its subsampling to `n_spikes_features` is folded into the given ids;
  - `get_template_features` becomes `templateFeatures`;
  - `spike_times` becomes `spikeTimes`;
  - `duration` becomes `duration`.
- Array shape mismatches are preconditions (`Projection.Serves`, `Projection.ClusterServed`): a feature row whose length differs from the weights, or a spike id out of range. In numpy they raise or broadcast.
- Floating point is not modelled: times, features and weights are exact reals. Rounding, NaN and overflow are out of scope.
- The menu registration (line 56) is modelled only through `ToggleShowBlockGap`, which requires block lines to be shown, just as the action exists only then.
- `on_mouse_press` (lines 131-147) is UI click handling and is not modelled. Its handler is not connected either (line 54).
- `_callback_delay` (line 25) is a UI timing constant with no effect on the computed plan.
