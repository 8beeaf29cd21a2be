/**
 * Per-cluster projection: each selected cluster's spikes become points
 * (x = display time, y = weighted average of the spike's template features),
 * and one bounding rectangle, the true min/max over every cluster's points,
 * is stamped onto every cluster's record.
 */
module Projection {
  import opened Wrappers
  import opened Timeline
  import opened GapRemap

  /**
   * What the controller supplies: spike times and template-feature rows indexed
   * by spike id, the sampled spike ids of each cluster, the template counts of
   * each cluster (used as averaging weights), and the recording's duration.
   */
  datatype Controller = Controller(
    spikeTimes: seq<real>,
    templateFeatures: seq<seq<real>>,
    spikeIds: map<int, seq<nat>>,
    templateCounts: map<int, seq<real>>,
    duration: real)

  /** A data-bounds rectangle `(x_min, y_min, x_max, y_max)`. */
  datatype Bounds = Bounds(xMin: real, yMin: real, xMax: real, yMax: real)

  /** One cluster's points; `dataBounds` is absent until the shared rectangle is stamped on. */
  datatype ClusterRecord = ClusterRecord(x: seq<real>, y: seq<real>, spikeIds: seq<nat>, dataBounds: Option<Bounds>)

  /** The exceptions numpy raises while a cluster is projected. */
  datatype Failure =
    | ZeroWeightSum(cid: int)   // np.average: the weights sum to zero
    | EmptySpikeSet(cid: int)   // x.min(): the cluster has no spikes

  datatype Projections = NoClusters | Raised(failure: Failure) | Projected(records: seq<ClusterRecord>)

  /** A running bound with numpy's infinities as the seeds of the fold. */
  datatype Ext = NegInf | Finite(v: real) | PosInf

  /** Python's `min(v, acc)` with `acc` possibly infinite. */
  function MinE(v: real, acc: Ext): Ext
  {
    match acc
    case NegInf => NegInf
    case PosInf => Finite(v)
    case Finite(u) => Finite(if v <= u then v else u)
  }

  /** Python's `max(v, acc)` with `acc` possibly infinite. */
  function MaxE(v: real, acc: Ext): Ext
  {
    match acc
    case PosInf => PosInf
    case NegInf => Finite(v)
    case Finite(u) => Finite(if v >= u then v else u)
  }

  /** numpy's `a.min()` on a non-empty array. */
  function SeqMin(s: seq<real>): (m: real)
    requires |s| > 0
    ensures m in s
    ensures forall i :: 0 <= i < |s| ==> m <= s[i]
  {
    if |s| == 1 then s[0]
    else
      var rest := SeqMin(s[1..]);
      if s[0] <= rest then s[0] else rest
  }

  /** numpy's `a.max()` on a non-empty array. */
  function SeqMax(s: seq<real>): (m: real)
    requires |s| > 0
    ensures m in s
    ensures forall i :: 0 <= i < |s| ==> s[i] <= m
  {
    if |s| == 1 then s[0]
    else
      var rest := SeqMax(s[1..]);
      if s[0] >= rest then s[0] else rest
  }

  /** Sum of elementwise products. */
  function Dot(a: seq<real>, b: seq<real>): real
    requires |a| == |b|
  {
    if |a| == 0 then 0.0 else Dot(a[..|a| - 1], b[..|b| - 1]) + a[|a| - 1] * b[|b| - 1]
  }

  /** numpy's `average(row, weights=w)`: the weighted sum over the sum of the weights. */
  function WeightedAverage(row: seq<real>, w: seq<real>): real
    requires |row| == |w|
    requires Sum(w) != 0.0
  {
    Dot(row, w) / Sum(w)
  }

  lemma {:induction false} DotBounds(row: seq<real>, w: seq<real>, lo: real, hi: real)
    requires |row| == |w|
    requires NonNegative(w)
    requires forall k :: 0 <= k < |row| ==> lo <= row[k] <= hi
    ensures lo * Sum(w) <= Dot(row, w) <= hi * Sum(w)
  {
    if |row| > 0 {
      var n := |row| - 1;
      DotBounds(row[..n], w[..n], lo, hi);
      assert (row[n] - lo) * w[n] >= 0.0;
      assert (hi - row[n]) * w[n] >= 0.0;
    }
  }

  /**
   * With non-negative weights of positive total, the weighted average of a
   * feature row lies between the row's smallest and largest entries.
   */
  lemma WeightedAverageBetween(row: seq<real>, w: seq<real>)
    requires |row| == |w| && |row| > 0
    requires NonNegative(w) && Sum(w) > 0.0
    ensures SeqMin(row) <= WeightedAverage(row, w) <= SeqMax(row)
  {
    AverageWithin(row, w, SeqMin(row), SeqMax(row));
  }

  lemma AverageWithin(row: seq<real>, w: seq<real>, lo: real, hi: real)
    requires |row| == |w|
    requires NonNegative(w) && Sum(w) > 0.0
    requires forall k :: 0 <= k < |row| ==> lo <= row[k] <= hi
    ensures lo <= WeightedAverage(row, w) <= hi
  {
    DotBounds(row, w, lo, hi);
    QuotientBetween(Dot(row, w), Sum(w), lo, hi);
  }

  lemma QuotientBetween(d: real, s: real, lo: real, hi: real)
    requires s > 0.0
    requires lo * s <= d <= hi * s
    ensures lo <= d / s <= hi
  {
    assert d / s - lo == (d - lo * s) / s;
    assert hi - d / s == (hi * s - d) / s;
  }

  /** Every id of the cluster names a spike with a time and a feature row of the weights' width. */
  predicate ClusterServed(ctrl: Controller, cid: int, width: nat)
  {
    && cid in ctrl.spikeIds
    && forall e :: 0 <= e < |ctrl.spikeIds[cid]| ==>
         var s := ctrl.spikeIds[cid][e];
         s < |ctrl.spikeTimes| && s < |ctrl.templateFeatures| && |ctrl.templateFeatures[s]| == width
  }

  /** The controller answers for every selected cluster, and for the first one's template counts. */
  predicate Serves(ctrl: Controller, ids: seq<int>)
  {
    |ids| > 0 ==>
      && ids[0] in ctrl.templateCounts
      && forall i :: 0 <= i < |ids| ==> ClusterServed(ctrl, ids[i], |ctrl.templateCounts[ids[0]]|)
  }

  /** The exception projecting cluster `cid` with weights `w` raises, if any: np.average comes first. */
  function Fault(ctrl: Controller, cid: int, w: seq<real>): Option<Failure>
    requires cid in ctrl.spikeIds
  {
    if Sum(w) == 0.0 then Some(ZeroWeightSum(cid))
    else if |ctrl.spikeIds[cid]| == 0 then Some(EmptySpikeSet(cid))
    else None
  }

  /** The exception that stops the loop over `ids`: that of the first cluster that raises one. */
  function FirstFault(ctrl: Controller, ids: seq<int>, w: seq<real>): (f: Option<Failure>)
    requires forall i :: 0 <= i < |ids| ==> ids[i] in ctrl.spikeIds
    ensures f.None? <==> forall i :: 0 <= i < |ids| ==> Fault(ctrl, ids[i], w).None?
    ensures f.Some? ==> exists i :: 0 <= i < |ids| && f == Fault(ctrl, ids[i], w)
                                    && forall k :: 0 <= k < i ==> Fault(ctrl, ids[k], w).None?
  {
    if |ids| == 0 then None
    else if Fault(ctrl, ids[0], w).Some? then Fault(ctrl, ids[0], w)
    else
      var f := FirstFault(ctrl, ids[1..], w);
      assert f.Some? ==> exists i :: 0 <= i < |ids| && f == Fault(ctrl, ids[i], w)
                                     && forall k :: 0 <= k < i ==> Fault(ctrl, ids[k], w).None? by {
        if f.Some? {
          var j :| 0 <= j < |ids| - 1 && f == Fault(ctrl, ids[1..][j], w)
                   && forall k :: 0 <= k < j ==> Fault(ctrl, ids[1..][k], w).None?;
          assert forall k :: 0 <= k < j + 1 ==> Fault(ctrl, ids[k], w).None? by {
            forall k | 0 <= k < j + 1
              ensures Fault(ctrl, ids[k], w).None?
            {
              if k > 0 {
                assert ids[k] == ids[1..][k - 1];
              }
            }
          }
        }
      }
      assert f.None? ==> forall i :: 0 <= i < |ids| ==> Fault(ctrl, ids[i], w).None? by {
        if f.None? {
          forall i | 0 <= i < |ids|
            ensures Fault(ctrl, ids[i], w).None?
          {
            if i > 0 {
              assert ids[i] == ids[1..][i - 1];
            }
          }
        }
      }
      f
  }

  /** The first cluster that raises decides the outcome. */
  lemma FirstFaultAt(ctrl: Controller, ids: seq<int>, w: seq<real>, i: nat)
    requires forall k :: 0 <= k < |ids| ==> ids[k] in ctrl.spikeIds
    requires i < |ids| && Fault(ctrl, ids[i], w).Some?
    requires forall k :: 0 <= k < i ==> Fault(ctrl, ids[k], w).None?
    ensures FirstFault(ctrl, ids, w) == Fault(ctrl, ids[i], w)
  {
    var f := FirstFault(ctrl, ids, w);
    assert f.Some? by {
      assert !(forall k :: 0 <= k < |ids| ==> Fault(ctrl, ids[k], w).None?);
    }
    var j :| 0 <= j < |ids| && f == Fault(ctrl, ids[j], w)
             && forall k :: 0 <= k < j ==> Fault(ctrl, ids[k], w).None?;
    assert j == i;
  }

  /** The display times of a cluster's spikes: raw, or remapped in gap mode. */
  function DisplayTimes(spikeTimes: seq<real>, si: seq<nat>, gap: Option<Layout>): seq<real>
    requires forall e :: 0 <= e < |si| ==> si[e] < |spikeTimes|
  {
    seq(|si|, e requires 0 <= e < |si| =>
      if gap.Some? then Remapped(spikeTimes[si[e]], gap.value) else spikeTimes[si[e]])
  }

  /** numpy's `average(ti, weights=w, axis=1)`: one weighted average per feature row. */
  function Averages(ctrl: Controller, si: seq<nat>, w: seq<real>): seq<real>
    requires forall e :: 0 <= e < |si| ==> si[e] < |ctrl.templateFeatures| && |ctrl.templateFeatures[si[e]]| == |w|
    requires Sum(w) != 0.0
  {
    seq(|si|, e requires 0 <= e < |si| => WeightedAverage(ctrl.templateFeatures[si[e]], w))
  }

  /** The record one cluster contributes before the shared bounds are stamped on. */
  function Project(ctrl: Controller, cid: int, w: seq<real>, gap: Option<Layout>): (rec: ClusterRecord)
    requires ClusterServed(ctrl, cid, |w|)
    requires Fault(ctrl, cid, w).None?
    ensures |rec.x| == |rec.y| == |rec.spikeIds| > 0
  {
    var si := ctrl.spikeIds[cid];
    ClusterRecord(DisplayTimes(ctrl.spikeTimes, si, gap), Averages(ctrl, si, w), si, None)
  }

  /** The four running bounds `(x_min, y_min, x_max, y_max)`. */
  datatype Acc = Acc(xMin: Ext, yMin: Ext, xMax: Ext, yMax: Ext)

  /** The fold's seed: `x_min = y_min = inf`, `x_max = y_max = -inf`. */
  const Seed := Acc(PosInf, PosInf, NegInf, NegInf)

  predicate AllNonEmpty(recs: seq<ClusterRecord>)
  {
    forall i :: 0 <= i < |recs| ==> |recs[i].x| > 0 && |recs[i].y| > 0
  }

  /** One pass of the loop: fold a cluster's own min/max into the running bounds. */
  function Step(acc: Acc, rec: ClusterRecord): Acc
    requires |rec.x| > 0 && |rec.y| > 0
  {
    Acc(MinE(SeqMin(rec.x), acc.xMin), MinE(SeqMin(rec.y), acc.yMin),
        MaxE(SeqMax(rec.x), acc.xMax), MaxE(SeqMax(rec.y), acc.yMax))
  }

  /** The running bounds after the clusters in `recs`, in order. */
  function Fold(recs: seq<ClusterRecord>): (acc: Acc)
    requires AllNonEmpty(recs)
    ensures acc.xMin != NegInf && acc.yMin != NegInf && acc.xMax != PosInf && acc.yMax != PosInf
    ensures |recs| > 0 <==> acc.xMin.Finite? && acc.yMin.Finite? && acc.xMax.Finite? && acc.yMax.Finite?
  {
    if |recs| == 0 then Seed else Step(Fold(recs[..|recs| - 1]), recs[|recs| - 1])
  }

  lemma FoldSnoc(recs: seq<ClusterRecord>, rec: ClusterRecord)
    requires AllNonEmpty(recs) && |rec.x| > 0 && |rec.y| > 0
    ensures AllNonEmpty(recs + [rec])
    ensures Fold(recs + [rec]) == Step(Fold(recs), rec)
  {
    assert (recs + [rec])[..|recs|] == recs;
  }

  /** Every point of every record lies inside `b`. */
  ghost predicate Encloses(b: Bounds, recs: seq<ClusterRecord>)
  {
    && (forall i, e :: 0 <= i < |recs| && 0 <= e < |recs[i].x| ==> b.xMin <= recs[i].x[e] <= b.xMax)
    && (forall i, e :: 0 <= i < |recs| && 0 <= e < |recs[i].y| ==> b.yMin <= recs[i].y[e] <= b.yMax)
  }

  /** Each side of `b` is touched by some point of some record. */
  ghost predicate Attained(b: Bounds, recs: seq<ClusterRecord>)
  {
    && (exists i, e :: 0 <= i < |recs| && 0 <= e < |recs[i].x| && recs[i].x[e] == b.xMin)
    && (exists i, e :: 0 <= i < |recs| && 0 <= e < |recs[i].x| && recs[i].x[e] == b.xMax)
    && (exists i, e :: 0 <= i < |recs| && 0 <= e < |recs[i].y| && recs[i].y[e] == b.yMin)
    && (exists i, e :: 0 <= i < |recs| && 0 <= e < |recs[i].y| && recs[i].y[e] == b.yMax)
  }

  /** `b` is the true elementwise min/max over all records' points. */
  ghost predicate IsTrueBounds(b: Bounds, recs: seq<ClusterRecord>)
  {
    Encloses(b, recs) && Attained(b, recs)
  }

  function BoundsOf(acc: Acc): Bounds
    requires acc.xMin.Finite? && acc.yMin.Finite? && acc.xMax.Finite? && acc.yMax.Finite?
  {
    Bounds(acc.xMin.v, acc.yMin.v, acc.xMax.v, acc.yMax.v)
  }

  /** The records of the clusters in `ids`, in order, before the shared bounds are stamped on. */
  function Records(ctrl: Controller, ids: seq<int>, w: seq<real>, gap: Option<Layout>): (recs: seq<ClusterRecord>)
    requires forall i :: 0 <= i < |ids| ==> ClusterServed(ctrl, ids[i], |w|) && Fault(ctrl, ids[i], w).None?
    ensures |recs| == |ids| && AllNonEmpty(recs)
    ensures forall i :: 0 <= i < |ids| ==> recs[i] == Project(ctrl, ids[i], w, gap)
  {
    seq(|ids|, i requires 0 <= i < |ids| => Project(ctrl, ids[i], w, gap))
  }

  /** The records with the same bounds written onto each. */
  function Stamped(recs: seq<ClusterRecord>, b: Bounds): (out: seq<ClusterRecord>)
    ensures |out| == |recs|
    ensures forall i :: 0 <= i < |recs| ==> out[i] == recs[i].(dataBounds := Some(b))
  {
    seq(|recs|, i requires 0 <= i < |recs| => recs[i].(dataBounds := Some(b)))
  }

  /** What `get_template_projections` returns for the selection `ids`. */
  function TemplateProjections(ctrl: Controller, ids: seq<int>, gap: Option<Layout>): Projections
    requires Serves(ctrl, ids)
  {
    if |ids| == 0 then NoClusters
    else
      var w := ctrl.templateCounts[ids[0]];
      match FirstFault(ctrl, ids, w)
      case Some(f) => Raised(f)
      case None =>
        var recs := Records(ctrl, ids, w, gap);
        Projected(Stamped(recs, BoundsOf(Fold(recs))))
  }

  /** One more cluster projected keeps the loop's account of the records. */
  lemma ProjectedPrefixGrows(ctrl: Controller, ids: seq<int>, w: seq<real>, gap: Option<Layout>,
                             out: seq<ClusterRecord>, rec: ClusterRecord)
    requires |out| < |ids|
    requires forall k :: 0 <= k < |ids| ==> ids[k] in ctrl.spikeIds && ClusterServed(ctrl, ids[k], |w|)
    requires forall k :: 0 <= k < |out| ==> Fault(ctrl, ids[k], w).None? && out[k] == Project(ctrl, ids[k], w, gap)
    requires Fault(ctrl, ids[|out|], w).None? && rec == Project(ctrl, ids[|out|], w, gap)
    ensures forall k :: 0 <= k < |out| + 1 ==>
              Fault(ctrl, ids[k], w).None? && (out + [rec])[k] == Project(ctrl, ids[k], w, gap)
  {
  }

  /** A sequence that agrees with the projected records everywhere is them. */
  lemma RecordsAre(ctrl: Controller, ids: seq<int>, w: seq<real>, gap: Option<Layout>, recs: seq<ClusterRecord>)
    requires forall k :: 0 <= k < |ids| ==> ClusterServed(ctrl, ids[k], |w|) && Fault(ctrl, ids[k], w).None?
    requires |recs| == |ids|
    requires forall k :: 0 <= k < |ids| ==> recs[k] == Project(ctrl, ids[k], w, gap)
    ensures Records(ctrl, ids, w, gap) == recs
  {
    var rs := Records(ctrl, ids, w, gap);
    assert forall k :: 0 <= k < |recs| ==> rs[k] == recs[k];
  }

  /** A sequence that agrees with the stamped records everywhere is them. */
  lemma StampedAre(recs: seq<ClusterRecord>, b: Bounds, out: seq<ClusterRecord>)
    requires |out| == |recs|
    requires forall k :: 0 <= k < |out| ==> out[k] == recs[k].(dataBounds := Some(b))
    ensures Stamped(recs, b) == out
  {
    var st := Stamped(recs, b);
    assert forall k :: 0 <= k < |out| ==> st[k] == out[k];
  }

  lemma ProjectionsAssembled(ctrl: Controller, ids: seq<int>, gap: Option<Layout>,
                             recs: seq<ClusterRecord>, out: seq<ClusterRecord>)
    requires Serves(ctrl, ids) && |ids| > 0
    requires |recs| == |ids|
    requires forall k :: 0 <= k < |ids| ==>
               Fault(ctrl, ids[k], ctrl.templateCounts[ids[0]]).None?
               && recs[k] == Project(ctrl, ids[k], ctrl.templateCounts[ids[0]], gap)
    requires AllNonEmpty(recs) && |out| == |recs|
    requires forall k :: 0 <= k < |out| ==> out[k] == recs[k].(dataBounds := Some(BoundsOf(Fold(recs))))
    ensures TemplateProjections(ctrl, ids, gap) == Projected(out)
  {
    var w := ctrl.templateCounts[ids[0]];
    assert FirstFault(ctrl, ids, w).None?;
    RecordsAre(ctrl, ids, w, gap, recs);
    StampedAre(recs, BoundsOf(Fold(recs)), out);
  }

  /** A cluster either raises or yields its record. */
  datatype ClusterOutcome = Fails(failure: Failure) | Yields(rec: ClusterRecord)

  /**
   * One pass of the loop body for cluster `cid`: its sampled spike ids, the
   * weighted averages of their feature rows (raising on a zero weight sum),
   * the copied and possibly remapped times, and the empty-array check of
   * `x.min()`.
   */
  method ProjectCluster(ctrl: Controller, cid: int, ni: seq<real>, gap: Option<Layout>) returns (res: ClusterOutcome)
    requires ClusterServed(ctrl, cid, |ni|)
    ensures Fault(ctrl, cid, ni).Some? ==> res == Fails(Fault(ctrl, cid, ni).value)
    ensures Fault(ctrl, cid, ni).None? ==> res == Yields(Project(ctrl, cid, ni, gap))
  {
    var si := ctrl.spikeIds[cid];
    if Sum(ni) == 0.0 {
      return Fails(ZeroWeightSum(cid));
    }
    var y := Averages(ctrl, si, ni);
    var x := RemapTimes(ctrl.spikeTimes, si, gap);
    if |x| == 0 {
      return Fails(EmptySpikeSet(cid));
    }
    assert x == DisplayTimes(ctrl.spikeTimes, si, gap);
    res := Yields(ClusterRecord(x, y, si, None));
  }

  /** Writes the same bounds onto every record, leaving everything else as it was. */
  method StampBounds(recs: seq<ClusterRecord>, dataBounds: Bounds) returns (out: seq<ClusterRecord>)
    ensures |out| == |recs|
    ensures forall k :: 0 <= k < |out| ==> out[k].dataBounds == Some(dataBounds)
    ensures forall k :: 0 <= k < |out| ==> out[k].(dataBounds := None) == recs[k].(dataBounds := None)
  {
    out := recs;
    for i := 0 to |out|
      invariant |out| == |recs|
      invariant forall k :: 0 <= k < i ==> out[k] == recs[k].(dataBounds := Some(dataBounds))
      invariant forall k :: i <= k < |out| ==> out[k] == recs[k]
    {
      out := out[i := out[i].(dataBounds := Some(dataBounds))];
    }
  }

  /**
   * Projects every selected cluster in order with the template counts of the
   * first cluster as weights, folds each cluster's min/max into running
   * bounds seeded with infinities, then stamps the final bounds onto every
   * record.
   */
  method GetTemplateProjections(ctrl: Controller, ids: seq<int>, gap: Option<Layout>) returns (r: Projections)
    requires Serves(ctrl, ids)
    ensures r == TemplateProjections(ctrl, ids, gap)
  {
    if |ids| < 1 {
      return NoClusters;
    }
    var ni := ctrl.templateCounts[ids[0]];
    var xMin, xMax, yMin, yMax := PosInf, NegInf, PosInf, NegInf;
    var out: seq<ClusterRecord> := [];
    for i := 0 to |ids|
      invariant |out| == i
      invariant forall k :: 0 <= k < i ==> Fault(ctrl, ids[k], ni).None? && out[k] == Project(ctrl, ids[k], ni, gap)
      invariant AllNonEmpty(out)
      invariant Acc(xMin, yMin, xMax, yMax) == Fold(out)
    {
      var res := ProjectCluster(ctrl, ids[i], ni, gap);
      if res.Fails? {
        FirstFaultAt(ctrl, ids, ni, i);
        return Raised(res.failure);
      }
      var rec := res.rec;
      xMin := MinE(SeqMin(rec.x), xMin);
      yMin := MinE(SeqMin(rec.y), yMin);
      xMax := MaxE(SeqMax(rec.x), xMax);
      yMax := MaxE(SeqMax(rec.y), yMax);
      ProjectedPrefixGrows(ctrl, ids, ni, gap, out, rec);
      FoldSnoc(out, rec);
      out := out + [rec];
    }
    var dataBounds := Bounds(xMin.v, yMin.v, xMax.v, yMax.v);
    var stamped := StampBounds(out, dataBounds);
    ProjectionsAssembled(ctrl, ids, gap, out, stamped);
    r := Projected(stamped);
  }

  /** The x or the y coordinates of a record. */
  function Coord(rec: ClusterRecord, useY: bool): seq<real>
  {
    if useY then rec.y else rec.x
  }

  /** One coordinate of every record, in order. */
  function Column(recs: seq<ClusterRecord>, useY: bool): seq<seq<real>>
  {
    seq(|recs|, i requires 0 <= i < |recs| => Coord(recs[i], useY))
  }

  predicate NonEmptyRows(rows: seq<seq<real>>)
  {
    forall i :: 0 <= i < |rows| ==> |rows[i]| > 0
  }

  /** The loop's running minimum over rows of points, seeded with +inf. */
  function MinFold(rows: seq<seq<real>>): (m: Ext)
    requires NonEmptyRows(rows)
    ensures m != NegInf && (|rows| > 0 <==> m.Finite?)
  {
    if |rows| == 0 then PosInf else MinE(SeqMin(rows[|rows| - 1]), MinFold(rows[..|rows| - 1]))
  }

  /** The loop's running maximum over rows of points, seeded with -inf. */
  function MaxFold(rows: seq<seq<real>>): (m: Ext)
    requires NonEmptyRows(rows)
    ensures m != PosInf && (|rows| > 0 <==> m.Finite?)
  {
    if |rows| == 0 then NegInf else MaxE(SeqMax(rows[|rows| - 1]), MaxFold(rows[..|rows| - 1]))
  }

  /** The x/y bounds of the four-way fold are the min/max folds of the x/y columns. */
  lemma {:induction false} FoldByColumns(recs: seq<ClusterRecord>, useY: bool)
    requires AllNonEmpty(recs)
    ensures NonEmptyRows(Column(recs, useY))
    ensures (if useY then Fold(recs).yMin else Fold(recs).xMin) == MinFold(Column(recs, useY))
    ensures (if useY then Fold(recs).yMax else Fold(recs).xMax) == MaxFold(Column(recs, useY))
  {
    var cols := Column(recs, useY);
    if |recs| > 0 {
      var n := |recs| - 1;
      assert Fold(recs) == Step(Fold(recs[..n]), recs[n]);
      FoldByColumns(recs[..n], useY);
      assert Column(recs[..n], useY) == cols[..n];
    }
  }

  /** The running minimum is at most every point. */
  lemma {:induction false} MinFoldIsLeast(rows: seq<seq<real>>)
    requires NonEmptyRows(rows) && |rows| > 0
    ensures forall i, e :: 0 <= i < |rows| && 0 <= e < |rows[i]| ==> MinFold(rows).v <= rows[i][e]
  {
    var n := |rows| - 1;
    var m := MinFold(rows).v;
    if n > 0 {
      MinFoldIsLeast(rows[..n]);
      assert m <= MinFold(rows[..n]).v;
    }
    forall i, e | 0 <= i < |rows| && 0 <= e < |rows[i]|
      ensures m <= rows[i][e]
    {
      if i < n {
        assert rows[..n][i] == rows[i];
      }
    }
  }

  /** The running minimum is one of the points. */
  lemma {:induction false} MinFoldAttained(rows: seq<seq<real>>)
    requires NonEmptyRows(rows) && |rows| > 0
    ensures exists i, e :: 0 <= i < |rows| && 0 <= e < |rows[i]| && rows[i][e] == MinFold(rows).v
  {
    var n := |rows| - 1;
    var m := MinFold(rows).v;
    if m == SeqMin(rows[n]) {
      var e :| 0 <= e < |rows[n]| && rows[n][e] == m;
    } else {
      MinFoldAttained(rows[..n]);
      var i, e :| 0 <= i < n && 0 <= e < |rows[..n][i]| && rows[..n][i][e] == m;
      assert rows[..n][i] == rows[i];
    }
  }

  /** The running maximum is at least every point. */
  lemma {:induction false} MaxFoldIsGreatest(rows: seq<seq<real>>)
    requires NonEmptyRows(rows) && |rows| > 0
    ensures forall i, e :: 0 <= i < |rows| && 0 <= e < |rows[i]| ==> rows[i][e] <= MaxFold(rows).v
  {
    var n := |rows| - 1;
    var m := MaxFold(rows).v;
    if n > 0 {
      MaxFoldIsGreatest(rows[..n]);
      assert MaxFold(rows[..n]).v <= m;
    }
    forall i, e | 0 <= i < |rows| && 0 <= e < |rows[i]|
      ensures rows[i][e] <= m
    {
      if i < n {
        assert rows[..n][i] == rows[i];
      }
    }
  }

  /** The running maximum is one of the points. */
  lemma {:induction false} MaxFoldAttained(rows: seq<seq<real>>)
    requires NonEmptyRows(rows) && |rows| > 0
    ensures exists i, e :: 0 <= i < |rows| && 0 <= e < |rows[i]| && rows[i][e] == MaxFold(rows).v
  {
    var n := |rows| - 1;
    var m := MaxFold(rows).v;
    if m == SeqMax(rows[n]) {
      var e :| 0 <= e < |rows[n]| && rows[n][e] == m;
    } else {
      MaxFoldAttained(rows[..n]);
      var i, e :| 0 <= i < n && 0 <= e < |rows[..n][i]| && rows[..n][i][e] == m;
      assert rows[..n][i] == rows[i];
    }
  }

  /** The bounds folded from one coordinate are the least and greatest points of that coordinate, both attained. */
  lemma ColumnBounds(recs: seq<ClusterRecord>, useY: bool)
    requires AllNonEmpty(recs) && |recs| > 0
    ensures var lo, hi := MinFold(Column(recs, useY)), MaxFold(Column(recs, useY));
            && NonEmptyRows(Column(recs, useY)) && lo.Finite? && hi.Finite?
            && (forall i, e :: 0 <= i < |recs| && 0 <= e < |Coord(recs[i], useY)| ==>
                  lo.v <= Coord(recs[i], useY)[e] <= hi.v)
            && (exists i, e :: 0 <= i < |recs| && 0 <= e < |Coord(recs[i], useY)| && Coord(recs[i], useY)[e] == lo.v)
            && (exists i, e :: 0 <= i < |recs| && 0 <= e < |Coord(recs[i], useY)| && Coord(recs[i], useY)[e] == hi.v)
  {
    var cols := Column(recs, useY);
    FoldByColumns(recs, useY);
    MinFoldIsLeast(cols);
    MaxFoldIsGreatest(cols);
    MinFoldAttained(cols);
    MaxFoldAttained(cols);
    assert forall i :: 0 <= i < |recs| ==> cols[i] == Coord(recs[i], useY);
  }

  /** The folded bounds are the true elementwise min/max over all the records' points. */
  lemma FoldIsTrueBounds(recs: seq<ClusterRecord>)
    requires AllNonEmpty(recs) && |recs| > 0
    ensures IsTrueBounds(BoundsOf(Fold(recs)), recs)
  {
    var b := BoundsOf(Fold(recs));
    assert forall i :: 0 <= i < |recs| ==> Coord(recs[i], false) == recs[i].x && Coord(recs[i], true) == recs[i].y;
    FoldByColumns(recs, false);
    FoldByColumns(recs, true);
    ColumnBounds(recs, false);
    ColumnBounds(recs, true);
  }

  /** An empty selection yields no records; otherwise the first raising cluster's exception, if any, is the outcome. */
  lemma ProjectionsOutcome(ctrl: Controller, ids: seq<int>, gap: Option<Layout>)
    requires Serves(ctrl, ids)
    ensures TemplateProjections(ctrl, ids, gap).NoClusters? <==> |ids| == 0
    ensures TemplateProjections(ctrl, ids, gap).Raised? <==>
              |ids| > 0 && exists i :: 0 <= i < |ids| && Fault(ctrl, ids[i], ctrl.templateCounts[ids[0]]).Some?
    ensures TemplateProjections(ctrl, ids, gap).Raised? ==>
              exists i :: 0 <= i < |ids| && TemplateProjections(ctrl, ids, gap).failure.cid == ids[i]
  {
    if |ids| > 0 {
      var w := ctrl.templateCounts[ids[0]];
      var f := FirstFault(ctrl, ids, w);
      if f.Some? {
        var i :| 0 <= i < |ids| && f == Fault(ctrl, ids[i], w);
        assert f.value.cid == ids[i];
      }
    }
  }

  /**
   * Without a raise, there is one record per selected cluster, in selection
   * order: the cluster's sampled spikes, their display times, and the
   * averages of their feature rows weighted by the FIRST cluster's template
   * counts, whichever cluster the record belongs to.
   */
  lemma ProjectedRecords(ctrl: Controller, ids: seq<int>, gap: Option<Layout>)
    requires Serves(ctrl, ids)
    requires TemplateProjections(ctrl, ids, gap).Projected?
    ensures var recs := TemplateProjections(ctrl, ids, gap).records;
            && |ids| > 0 && |recs| == |ids|
            && forall i :: 0 <= i < |ids| ==>
                 && recs[i].spikeIds == ctrl.spikeIds[ids[i]]
                 && |recs[i].x| == |recs[i].y| == |recs[i].spikeIds| > 0
                 && forall e :: 0 <= e < |recs[i].x| ==>
                      var s := recs[i].spikeIds[e];
                      && recs[i].x[e] == (if gap.Some? then Remapped(ctrl.spikeTimes[s], gap.value) else ctrl.spikeTimes[s])
                      && recs[i].y[e] == WeightedAverage(ctrl.templateFeatures[s], ctrl.templateCounts[ids[0]])
  {
    var w := ctrl.templateCounts[ids[0]];
    assert FirstFault(ctrl, ids, w).None?;
  }

  /**
   * Without a raise, every record carries the same bounds, and those bounds
   * are the true min/max over all clusters' x and y.
   */
  lemma SharedTrueBounds(ctrl: Controller, ids: seq<int>, gap: Option<Layout>)
    requires Serves(ctrl, ids)
    requires TemplateProjections(ctrl, ids, gap).Projected?
    ensures var recs := TemplateProjections(ctrl, ids, gap).records;
            && |recs| > 0 && recs[0].dataBounds.Some?
            && (forall i :: 0 <= i < |recs| ==> recs[i].dataBounds == recs[0].dataBounds)
            && IsTrueBounds(recs[0].dataBounds.value, recs)
  {
    var w := ctrl.templateCounts[ids[0]];
    assert FirstFault(ctrl, ids, w).None?;
    var unstamped := Records(ctrl, ids, w, gap);
    var b := BoundsOf(Fold(unstamped));
    FoldIsTrueBounds(unstamped);
    StampKeepsPoints(unstamped, b, b);
  }

  /** Writing bounds onto records leaves their points, and so the bounds that are true for them, as they were. */
  lemma StampKeepsPoints(recs: seq<ClusterRecord>, b: Bounds, c: Bounds)
    requires IsTrueBounds(c, recs)
    ensures IsTrueBounds(c, Stamped(recs, b))
  {
    var out := Stamped(recs, b);
    assert forall i :: 0 <= i < |recs| ==> out[i].x == recs[i].x && out[i].y == recs[i].y;
  }

  /**
   * With non-negative template counts of positive total, each spike's
   * projection value lies between the smallest and largest entries of its
   * feature row.
   */
  lemma ValuesWithinFeatureRange(ctrl: Controller, ids: seq<int>, gap: Option<Layout>, i: nat, e: nat)
    requires Serves(ctrl, ids)
    requires TemplateProjections(ctrl, ids, gap).Projected?
    requires |ids| > 0 && NonNegative(ctrl.templateCounts[ids[0]]) && Sum(ctrl.templateCounts[ids[0]]) > 0.0
    requires i < |ids| && e < |ctrl.spikeIds[ids[i]]|
    ensures var rec := TemplateProjections(ctrl, ids, gap).records[i];
            var row := ctrl.templateFeatures[rec.spikeIds[e]];
            && |row| > 0
            && SeqMin(row) <= rec.y[e] <= SeqMax(row)
  {
    var w := ctrl.templateCounts[ids[0]];
    ProjectedRecords(ctrl, ids, gap);
    var rec := TemplateProjections(ctrl, ids, gap).records[i];
    var row := ctrl.templateFeatures[rec.spikeIds[e]];
    assert |w| > 0;
    WeightedAverageBetween(row, w);
  }

  /**
   * Cluster A with times [0, 10] and values [-1, 1] and cluster B with times
   * [5, 20] and values [0, 3] share the bounds (0, -1, 20, 3).
   */
  lemma TwoClusterBounds()
    ensures var a := ClusterRecord([0.0, 10.0], [-1.0, 1.0], [0, 1], None);
            var b := ClusterRecord([5.0, 20.0], [0.0, 3.0], [2, 3], None);
            BoundsOf(Fold([a, b])) == Bounds(0.0, -1.0, 20.0, 3.0)
  {
    var a := ClusterRecord([0.0, 10.0], [-1.0, 1.0], [0, 1], None);
    var b := ClusterRecord([5.0, 20.0], [0.0, 3.0], [2, 3], None);
    assert [a, b][..1] == [a];
    assert [a][..0] == [];
    assert Fold([a]) == Step(Seed, a);
  }
}
