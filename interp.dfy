/** Interpolation sets and the boxes laid out from their bounds.
    The interpolation service is external: an interpolation set is modelled
    as the term that records the arguments it was built from, so two sets
    are equal exactly when they were built from equal arguments. Its
    `get_min_max` is a parameter of the routines that call it. */
module Interp {
  import opened LinAlg

  /** `interpolate_in_space(xlist, V, l)`. */
  datatype InSpaceSet = InSpace(xlist: Vec, V: Vec, l: Vec)

  /** `increm_interpolation(timeStep, step, prev, cur)`: the space-time set
      on the interval between two consecutive time layers. */
  datatype SpaceTimeSet = SpaceTime(timeStep: real, step: nat, prev: InSpaceSet, cur: InSpaceSet)

  /** The per-cell minimum and maximum vectors of `get_min_max` (its two
      arg vectors are discarded by every caller). */
  datatype MinMax = MinMax(lo: Vec, hi: Vec)

  /** `RectangleSet2D`: space × value. */
  datatype Box2D = Box2D(xmin: real, xmax: real, ymin: real, ymax: real)

  /** `RectangleSet3D`: space × time × value. */
  datatype Box3D = Box3D(xmin: real, xmax: real, ymin: real, ymax: real, zmin: real, zmax: real)

  /** Cell `i` of the bounds has mesh nodes `xlist[i]`, `xlist[i+1]` and a
      maximum entry. */
  predicate CellsFit(xlist: Vec, m: MinMax) {
    |m.lo| < |xlist| && |m.lo| <= |m.hi|
  }

  /** Row `j` holds one box per cell of `mms[j]`: cell `i` spans
      `[xlist[i], xlist[i+1]] × [lo[i], hi[i]]`. */
  ghost predicate IsInSpaceLayout(boxes: seq<seq<Box2D>>, xlist: Vec, mms: seq<MinMax>)
    requires forall j :: 0 <= j < |mms| ==> CellsFit(xlist, mms[j])
  {
    |boxes| == |mms| &&
    forall j :: 0 <= j < |mms| ==>
      CellsFit(xlist, mms[j]) && |boxes[j]| == |mms[j].lo| &&
      forall i :: 0 <= i < |mms[j].lo| ==>
        boxes[j][i] == Box2D(xlist[i], xlist[i + 1], mms[j].lo[i], mms[j].hi[i])
  }

  /** Row `j` is the time interval `[j·dt, (j+1)·dt]`: cell `i` spans
      `[xlist[i], xlist[i+1]] × [j·dt, (j+1)·dt] × [lo[i], hi[i]]`. */
  ghost predicate IsSpaceTimeLayout(boxes: seq<seq<Box3D>>, xlist: Vec, dt: real, mms: seq<MinMax>)
    requires forall j :: 0 <= j < |mms| ==> CellsFit(xlist, mms[j])
  {
    |boxes| == |mms| &&
    forall j :: 0 <= j < |mms| ==>
      CellsFit(xlist, mms[j]) && |boxes[j]| == |mms[j].lo| &&
      forall i :: 0 <= i < |mms[j].lo| ==>
        boxes[j][i] == Box3D(xlist[i], xlist[i + 1], (j as real) * dt, ((j + 1) as real) * dt,
                             mms[j].lo[i], mms[j].hi[i])
  }

  /** The first `m` rows of a layout are the layout of the first `m`
      bounds: rows laid out from earlier entries do not depend on later ones. */
  lemma InSpaceLayoutPrefix(boxes: seq<seq<Box2D>>, xlist: Vec, mms: seq<MinMax>, m: nat)
    requires forall j :: 0 <= j < |mms| ==> CellsFit(xlist, mms[j])
    requires IsInSpaceLayout(boxes, xlist, mms) && m <= |mms|
    ensures IsInSpaceLayout(boxes[..m], xlist, mms[..m])
  {
  }

  /** The box loops of `get_intpl_inspace_boxes`, over the bounds of each
      stored in-space set in turn. */
  method InSpaceBoxes(xlist: Vec, mms: seq<MinMax>) returns (boxes: seq<seq<Box2D>>)
    requires forall j :: 0 <= j < |mms| ==> CellsFit(xlist, mms[j])
    ensures IsInSpaceLayout(boxes, xlist, mms)
  {
    boxes := [];
    var j := 0;
    while j < |mms|
      invariant 0 <= j <= |mms|
      invariant IsInSpaceLayout(boxes, xlist, mms[..j])
    {
      var m := mms[j];
      var row: seq<Box2D> := [];
      var i := 0;
      while i < |m.lo|
        invariant 0 <= i <= |m.lo|
        invariant |row| == i
        invariant forall c :: 0 <= c < i ==> row[c] == Box2D(xlist[c], xlist[c + 1], m.lo[c], m.hi[c])
      {
        row := row + [Box2D(xlist[i], xlist[i + 1], m.lo[i], m.hi[i])];
        i := i + 1;
      }
      boxes := boxes + [row];
      j := j + 1;
    }
    assert mms[..j] == mms;
  }

  /** The box loops of `get_intpl_boxes`, over the bounds of each stored
      space-time set in turn; row `j` is the `j`-th time interval. */
  method SpaceTimeBoxes(xlist: Vec, dt: real, mms: seq<MinMax>) returns (boxes: seq<seq<Box3D>>)
    requires forall j :: 0 <= j < |mms| ==> CellsFit(xlist, mms[j])
    ensures IsSpaceTimeLayout(boxes, xlist, dt, mms)
  {
    boxes := [];
    var j := 0;
    while j < |mms|
      invariant 0 <= j <= |mms|
      invariant IsSpaceTimeLayout(boxes, xlist, dt, mms[..j])
    {
      var m := mms[j];
      var row: seq<Box3D> := [];
      var i := 0;
      while i < |m.lo|
        invariant 0 <= i <= |m.lo|
        invariant |row| == i
        invariant forall c :: 0 <= c < i ==>
          row[c] == Box3D(xlist[c], xlist[c + 1], (j as real) * dt, ((j + 1) as real) * dt, m.lo[c], m.hi[c])
      {
        var ymin := (j as real) * dt;
        var ymax := ((j + 1) as real) * dt;
        row := row + [Box3D(xlist[i], xlist[i + 1], ymin, ymax, m.lo[i], m.hi[i])];
        i := i + 1;
      }
      boxes := boxes + [row];
      j := j + 1;
    }
    assert mms[..j] == mms;
  }
}
