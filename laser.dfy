/** The line laser: its drawn outline and the projection of its line onto a
    target, column by column, keeping in each column the nearest hit inside
    the fan. Coordinates are in the laser's own frame: the laser sits at the
    origin and projects along z, its fan spread along x. */
module Lasers {
  import opened Runtime

  /** A point of the laser's continuous geometry. The scene's `Voxels.Point`
      has integer coordinates on the voxel grid; the laser's positions and
      hits are real-valued, so they get a type of their own. */
  datatype Vec = Vec(x: real, y: real, z: real)

  const Origin := Vec(0.0, 0.0, 0.0)

  /** A line laser. `tanHalfFan` is `tan(fan / 2)` of its fan angle. */
  datatype LineLaser = LineLaser(name: string, depth: real, tanHalfFan: real) {
    /** Half the width of the fan at the projection depth. */
    function Width(): real {
      depth * tanHalfFan
    }

    /** The closed outline drawn for the laser: from its origin to the two
        far corners of the fan and back. */
    function Outline(): seq<Vec> {
      [Origin, Vec(-Width(), 0.0, depth), Vec(Width(), 0.0, depth), Origin]
    }
  }

  /** A hit lies inside the fan: it is not farther to the side than the fan
      reaches at its depth. */
  predicate InFan(ip: Vec, tanHalfFan: real) {
    !(RealAbs(ip.x) > ip.z * tanHalfFan)
  }

  /** The outline is closed, mirror-symmetric about the laser's axis, and its
      far corners lie on the edge of the fan, where a hit still counts as
      inside it. */
  lemma OutlineOnFanEdge(l: LineLaser)
    requires l.depth >= 0.0 && l.tanHalfFan >= 0.0
    ensures var o := l.Outline();
      && |o| == 4 && o[0] == o[3] == Origin
      && o[1] == Vec(-o[2].x, o[2].y, o[2].z)
      && o[1].z == l.depth && o[2].z == l.depth
      && RealAbs(o[1].x) == o[1].z * l.tanHalfFan && InFan(o[1], l.tanHalfFan)
      && RealAbs(o[2].x) == o[2].z * l.tanHalfFan && InFan(o[2], l.tanHalfFan)
  {
    var o := l.Outline();
    assert l.Width() >= 0.0 by { NonNegativeProduct(l.depth, l.tanHalfFan); }
    assert o[1] == Vec(-l.Width(), 0.0, l.depth);
  }

  lemma NonNegativeProduct(a: real, b: real)
    requires a >= 0.0 && b >= 0.0
    ensures a * b >= 0.0
  {
  }

  // ---------------------------------------------------------------------
  // The nearest hit in one column

  /** An intersection that is present and inside the fan. */
  predicate Accepted(o: Option<Vec>, tanHalfFan: real) {
    o.Some? && InFan(o.value, tanHalfFan)
  }

  /** The loop over the triangles as a fold: a hit replaces the one kept so
      far only when it is accepted and strictly nearer. */
  function Nearest(ips: seq<Option<Vec>>, tanHalfFan: real): (cp: Option<Vec>)
    ensures cp.Some? ==> cp in ips && Accepted(cp, tanHalfFan)
  {
    if |ips| == 0 then None
    else
      var cp := Nearest(ips[..|ips| - 1], tanHalfFan);
      var o := ips[|ips| - 1];
      if Accepted(o, tanHalfFan) && (cp.None? || o.value.z < cp.value.z) then o else cp
  }

  /** cp is the first of the accepted hits with the least depth, or nothing
      when no hit is accepted. */
  predicate IsNearest(ips: seq<Option<Vec>>, tanHalfFan: real, cp: Option<Vec>) {
    && (cp.None? <==> forall j :: 0 <= j < |ips| ==> !Accepted(ips[j], tanHalfFan))
    && (cp.Some? ==> exists i :: 0 <= i < |ips| && FirstNearestAt(ips, tanHalfFan, i) && ips[i] == cp)
  }

  predicate FirstNearestAt(ips: seq<Option<Vec>>, tanHalfFan: real, i: int)
    requires 0 <= i < |ips|
  {
    && Accepted(ips[i], tanHalfFan)
    && (forall j :: 0 <= j < |ips| && Accepted(ips[j], tanHalfFan) ==> ips[i].value.z <= ips[j].value.z)
    && (forall j :: 0 <= j < i && Accepted(ips[j], tanHalfFan) ==> ips[i].value.z < ips[j].value.z)
  }

  /** The fold keeps exactly the first nearest accepted hit. */
  lemma {:induction false} NearestIsNearest(ips: seq<Option<Vec>>, tanHalfFan: real)
    ensures IsNearest(ips, tanHalfFan, Nearest(ips, tanHalfFan))
  {
    if |ips| > 0 {
      var init, o := ips[..|ips| - 1], ips[|ips| - 1];
      assert ips == init + [o];
      NearestIsNearest(init, tanHalfFan);
      var cp := Nearest(init, tanHalfFan);
      if Accepted(o, tanHalfFan) && (cp.None? || o.value.z < cp.value.z) {
        NearerHitReplaces(init, o, tanHalfFan, cp);
      } else {
        OtherHitKeeps(init, o, tanHalfFan, cp);
      }
    }
  }

  /** An accepted hit strictly nearer than the one kept is the new first
      nearest. */
  lemma NearerHitReplaces(init: seq<Option<Vec>>, o: Option<Vec>, tanHalfFan: real, cp: Option<Vec>)
    requires IsNearest(init, tanHalfFan, cp)
    requires Accepted(o, tanHalfFan) && (cp.None? || o.value.z < cp.value.z)
    ensures IsNearest(init + [o], tanHalfFan, o)
  {
    var ips, n := init + [o], |init|;
    if cp.Some? {
      var i :| 0 <= i < n && FirstNearestAt(init, tanHalfFan, i) && init[i] == cp;
    }
    assert forall j :: 0 <= j < n ==> ips[j] == init[j];
    assert FirstNearestAt(ips, tanHalfFan, n);
  }

  /** A hit that is rejected, or not strictly nearer, leaves the kept one in
      place. */
  lemma OtherHitKeeps(init: seq<Option<Vec>>, o: Option<Vec>, tanHalfFan: real, cp: Option<Vec>)
    requires IsNearest(init, tanHalfFan, cp)
    requires !(Accepted(o, tanHalfFan) && (cp.None? || o.value.z < cp.value.z))
    ensures IsNearest(init + [o], tanHalfFan, cp)
  {
    var ips, n := init + [o], |init|;
    assert forall j :: 0 <= j < n ==> ips[j] == init[j];
    if cp.Some? {
      var i :| 0 <= i < n && FirstNearestAt(init, tanHalfFan, i) && init[i] == cp;
      assert FirstNearestAt(ips, tanHalfFan, i);
    } else {
      assert forall j :: 0 <= j < |ips| ==> !Accepted(ips[j], tanHalfFan);
    }
  }

  /** The characterisation leaves no choice: at most one cp satisfies it. */
  lemma NearestUnique(ips: seq<Option<Vec>>, tanHalfFan: real, a: Option<Vec>, b: Option<Vec>)
    requires IsNearest(ips, tanHalfFan, a) && IsNearest(ips, tanHalfFan, b)
    ensures a == b
  {
    if a.Some? && b.Some? {
      var i :| 0 <= i < |ips| && FirstNearestAt(ips, tanHalfFan, i) && ips[i] == a;
      var k :| 0 <= k < |ips| && FirstNearestAt(ips, tanHalfFan, k) && ips[k] == b;
      assert i == k;
    }
  }

  /** The inner loop of the projection: over the intersections of one
      column's beam with the target's triangles, in triangle order. */
  method NearestHit(ips: seq<Option<Vec>>, tanHalfFan: real) returns (cp: Option<Vec>)
    ensures cp == Nearest(ips, tanHalfFan)
    ensures IsNearest(ips, tanHalfFan, cp)
  {
    cp := None;
    for i := 0 to |ips|
      invariant cp == Nearest(ips[..i], tanHalfFan)
    {
      assert ips[..i + 1][..i] == ips[..i];
      if ips[i].None? {
        continue;
      }
      var ip := ips[i].value;
      if RealAbs(ip.x) > ip.z * tanHalfFan {
        continue;
      } else if cp.None? || ip.z < cp.value.z {
        cp := Some(ip);
      }
    }
    assert ips[..|ips|] == ips;
    NearestIsNearest(ips, tanHalfFan);
  }

  // ---------------------------------------------------------------------
  // The columns of the projection

  /** A multiple of the pitch. Kept as a function of its own so that the
      solver treats the product as one term in the bounds below. */
  function Scale(a: real, pitch: real): real {
    a * pitch
  }

  /** `int(-width / pitch) * pitch`: the first column sampled. */
  function FirstColumn(width: real, pitch: real): real
    requires pitch > 0.0
  {
    Scale(Trunc(-width / pitch) as real, pitch)
  }

  /** For a fan of non-negative width, the first column is the leftmost
      multiple of the pitch that is not left of the fan. */
  lemma FirstColumnBounds(width: real, pitch: real)
    requires pitch > 0.0 && width >= 0.0
    ensures -width <= FirstColumn(width, pitch) <= 0.0
    ensures FirstColumn(width, pitch) - pitch < -width
  {
    var q := -width / pitch;
    TruncScaled(q, pitch);
    assert Scale(q, pitch) == -width;
  }

  /** Truncating a non-positive q and scaling back by the pitch lands within
      one pitch above q scaled. */
  lemma TruncScaled(q: real, pitch: real)
    requires pitch > 0.0 && q <= 0.0
    ensures Scale(q, pitch) <= Scale(Trunc(q) as real, pitch) <= 0.0
    ensures Scale(Trunc(q) as real, pitch) - pitch < Scale(q, pitch)
  {
    var m := Trunc(q) as real;
    assert m <= 0.0 && m - 1.0 < q <= m;
    ScaleMonotone(m - 1.0, q, pitch);
    ScaleMonotone(q, m, pitch);
    ScaleMonotone(m, 0.0, pitch);
    ScaleStep(m, pitch);
  }

  lemma ScaleStep(a: real, pitch: real)
    ensures Scale(a - 1.0, pitch) == Scale(a, pitch) - pitch
  {
  }

  /** Scaling by a positive pitch keeps the order. */
  lemma ScaleMonotone(a: real, b: real, pitch: real)
    requires pitch > 0.0 && a <= b
    ensures Scale(a, pitch) <= Scale(b, pitch)
    ensures a < b ==> Scale(a, pitch) < Scale(b, pitch)
  {
  }

  /** The number of columns: `x` steps from the first column by `pitch`
      while it is below the width. */
  function ColumnCount(width: real, pitch: real): nat
    requires pitch > 0.0
  {
    ArangeLength(FirstColumn(width, pitch), width, pitch)
  }

  function Column(width: real, pitch: real, k: nat): real
    requires pitch > 0.0
  {
    FirstColumn(width, pitch) + Scale(k as real, pitch)
  }

  /** The columns are the values of `arange(FirstColumn, width, pitch)`: a
      column is below the width exactly when its index is below the count,
      and each column is one pitch right of the previous one. */
  lemma ColumnInRange(width: real, pitch: real, k: nat)
    requires pitch > 0.0
    ensures k < ColumnCount(width, pitch) <==> Column(width, pitch, k) < width
  {
    ArangeValueInRange(FirstColumn(width, pitch), width, pitch, k);
  }

  lemma ColumnStep(width: real, pitch: real, k: nat)
    requires pitch > 0.0
    ensures Column(width, pitch, k + 1) == Column(width, pitch, k) + pitch
  {
    ScaleStep(k as real + 1.0, pitch);
  }

  /** The nearest accepted hit of each of the first k columns, in column
      order. */
  function ColumnsUpTo(l: LineLaser, pitch: real, hits: real -> seq<Option<Vec>>, k: nat): (found: seq<Option<Vec>>)
    requires pitch > 0.0
    ensures |found| == k
    ensures forall j :: 0 <= j < k ==> found[j] == Nearest(hits(Column(l.Width(), pitch, j)), l.tanHalfFan)
  {
    if k == 0 then []
    else ColumnsUpTo(l, pitch, hits, k - 1) + [Nearest(hits(Column(l.Width(), pitch, k - 1)), l.tanHalfFan)]
  }

  /** The nearest accepted hit of every column of the projection. */
  function Columns(l: LineLaser, pitch: real, hits: real -> seq<Option<Vec>>): seq<Option<Vec>>
    requires pitch > 0.0
  {
    ColumnsUpTo(l, pitch, hits, ColumnCount(l.Width(), pitch))
  }

  /** A directional point of the relevance model: a real-valued position with
      an inclination and an azimuth (`project` records straight-down ones,
      inclination pi and azimuth 0). It is the real-valued counterpart of the
      scene's integer `Voxels.DirectionalPoint`. */
  datatype RangePoint = RangePoint(position: Vec, rho: real, eta: real)

  /** The points map holds, with relevance 1 and the straight-down
      direction, exactly the hits found in the columns so far. */
  predicate Recorded(points: map<RangePoint, real>, found: seq<Option<Vec>>) {
    && (forall q :: q in points ==> points[q] == 1.0 && q.rho == Pi && q.eta == 0.0)
    && (forall q :: q in points ==> exists j :: 0 <= j < |found| && found[j] == Some(q.position))
    && (forall j :: 0 <= j < |found| && found[j].Some? ==> RangePoint(found[j].value, Pi, 0.0) in points)
  }

  /** Recording one more column keeps the map in step with the hits found. */
  lemma RecordColumn(points: map<RangePoint, real>, found: seq<Option<Vec>>, cp: Option<Vec>)
    requires Recorded(points, found)
    ensures Recorded(if cp.Some? then points[RangePoint(cp.value, Pi, 0.0) := 1.0] else points, found + [cp])
  {
    var points' := if cp.Some? then points[RangePoint(cp.value, Pi, 0.0) := 1.0] else points;
    var found' := found + [cp];
    forall q | q in points'
      ensures exists j :: 0 <= j < |found'| && found'[j] == Some(q.position)
    {
      if q in points {
        var j :| 0 <= j < |found| && found[j] == Some(q.position);
        assert found'[j] == found[j];
      } else {
        assert found'[|found|] == Some(q.position);
      }
    }
  }

  /** The laser line projected onto a target. `hits(x)` is what the column
      at x sees: for each triangle of the target, in order, the intersection
      of the beam from (x, 0, 0) to (x, 0, depth) with it, in the laser's
      frame, if there is one. Each column with an accepted hit contributes its
      nearest one, with relevance 1. */
  method Project(l: LineLaser, pitch: real, hits: real -> seq<Option<Vec>>) returns (points: map<RangePoint, real>)
    requires pitch > 0.0
    ensures Recorded(points, Columns(l, pitch, hits))
  {
    var width := l.Width();
    ghost var n := ColumnCount(width, pitch);
    points := map[];
    var x := Scale(Trunc(-width / pitch) as real, pitch);
    ghost var found: seq<Option<Vec>> := [];
    ColumnInRange(width, pitch, 0);
    while x < width
      invariant |found| <= n && x == Column(width, pitch, |found|)
      invariant |found| < n <==> x < width
      invariant found == ColumnsUpTo(l, pitch, hits, |found|)
      invariant Recorded(points, found)
      decreases n - |found|
    {
      var cp := NearestHit(hits(x), l.tanHalfFan);
      RecordColumn(points, found, cp);
      if cp.Some? {
        points := points[RangePoint(cp.value, Pi, 0.0) := 1.0];
      }
      x := x + pitch;
      ColumnStep(width, pitch, |found|);
      found := found + [cp];
      ColumnInRange(width, pitch, |found|);
    }
  }
}
