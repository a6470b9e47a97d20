/** The directional points a scene enumerates: five nested sweeps over x, y,
    z, the inclination rho and the azimuth eta, skipping opaque voxels and
    yielding a single azimuth at the poles. The functions follow the nesting
    of the loops, one function per level, each the part of the enumeration
    that is still to come from a given loop position. */
module Sweep {
  import opened Runtime
  import opened Voxels

  /** What the enumeration reads from a scene. */
  datatype Grid = Grid(xr: Range, yr: Range, zr: Range, pstep: int, dstep: real, opaqueVoxels: set<Point>) {
    predicate Valid() {
      pstep > 0 && dstep > 0.0
    }
  }

  /** The k-th value of an `arange` that starts at 0 with step `dstep`. */
  function Angle(k: int, dstep: real): real {
    (k as real) * dstep
  }

  /** Number of inclinations: `arange(0, pi + dstep, dstep)`. */
  function RhoCount(dstep: real): nat
    requires dstep > 0.0
  {
    ArangeLength(0.0, Pi + dstep, dstep)
  }

  /** Number of azimuths: `arange(0, 2 pi, dstep)`. */
  function EtaCount(dstep: real): nat
    requires dstep > 0.0
  {
    ArangeLength(0.0, 2.0 * Pi, dstep)
  }

  /** The inclinations at which only the azimuth 0 is yielded. */
  predicate IsPole(rho: real) {
    rho == 0.0 || rho == Pi
  }

  /** Azimuths from index j on, at one position and inclination. */
  function EtaSweep(x: int, y: int, z: int, rho: real, dstep: real, j: nat): seq<DirectionalPoint>
    requires dstep > 0.0
    decreases EtaCount(dstep) - j
  {
    if j < EtaCount(dstep) then
      [MakeDirectional(x, y, z, rho, Angle(j, dstep))] + EtaSweep(x, y, z, rho, dstep, j + 1)
    else []
  }

  /** The directions yielded for the k-th inclination. */
  function RhoBlock(x: int, y: int, z: int, dstep: real, k: nat): seq<DirectionalPoint>
    requires dstep > 0.0
  {
    var rho := Angle(k, dstep);
    if IsPole(rho) then [MakeDirectional(x, y, z, rho, 0.0)]
    else EtaSweep(x, y, z, rho, dstep, 0)
  }

  /** Directions from inclination index k on, at one position. */
  function RhoSweep(x: int, y: int, z: int, dstep: real, k: nat): seq<DirectionalPoint>
    requires dstep > 0.0
    decreases RhoCount(dstep) - k
  {
    if k < RhoCount(dstep) then RhoBlock(x, y, z, dstep, k) + RhoSweep(x, y, z, dstep, k + 1)
    else []
  }

  /** What one position contributes: nothing when its voxel is opaque. */
  function VoxelBlock(g: Grid, x: int, y: int, z: int): seq<DirectionalPoint>
    requires g.Valid()
  {
    if Point(x, y, z) in g.opaqueVoxels then [] else RhoSweep(x, y, z, g.dstep, 0)
  }

  /** The innermost positional sweep, from z on. */
  function ZSweep(g: Grid, x: int, y: int, z: int): seq<DirectionalPoint>
    requires g.Valid()
    decreases g.zr.hi - z
  {
    if z < g.zr.hi then VoxelBlock(g, x, y, z) + ZSweep(g, x, y, z + g.pstep) else []
  }

  function YSweep(g: Grid, x: int, y: int): seq<DirectionalPoint>
    requires g.Valid()
    decreases g.yr.hi - y
  {
    if y < g.yr.hi then ZSweep(g, x, y, g.zr.lo) + YSweep(g, x, y + g.pstep) else []
  }

  function XSweep(g: Grid, x: int): seq<DirectionalPoint>
    requires g.Valid()
    decreases g.xr.hi - x
  {
    if x < g.xr.hi then YSweep(g, x, g.yr.lo) + XSweep(g, x + g.pstep) else []
  }

  /** Each positional sweep is its first block followed by the sweep from the
      next value on. */
  lemma ZSweepStep(g: Grid, x: int, y: int, z: int)
    requires g.Valid() && z < g.zr.hi
    ensures ZSweep(g, x, y, z) == VoxelBlock(g, x, y, z) + ZSweep(g, x, y, z + g.pstep)
  {
  }

  lemma YSweepStep(g: Grid, x: int, y: int)
    requires g.Valid() && y < g.yr.hi
    ensures YSweep(g, x, y) == ZSweep(g, x, y, g.zr.lo) + YSweep(g, x, y + g.pstep)
  {
  }

  lemma XSweepStep(g: Grid, x: int)
    requires g.Valid() && x < g.xr.hi
    ensures XSweep(g, x) == YSweep(g, x, g.yr.lo) + XSweep(g, x + g.pstep)
  {
  }

  /** Everything the scene yields, in order. */
  function Generated(g: Grid): seq<DirectionalPoint>
    requires g.Valid()
  {
    XSweep(g, g.xr.lo)
  }

  // ---------------------------------------------------------------------
  // An independent description of what is yielded

  /** v is one of the values `arange(lo, hi, pstep)` yields from `lo`. */
  predicate OnLattice(v: int, lo: int, hi: int, pstep: int)
    requires pstep > 0
  {
    lo <= v < hi && (v - lo) % pstep == 0
  }

  /** v is the point the constructor makes at p from inclination rho and a
      swept azimuth: azimuth 0 at the poles, any of `arange(0, 2 pi, dstep)`
      elsewhere. */
  predicate MadeAt(v: DirectionalPoint, p: Point, rho: real, dstep: real)
    requires dstep > 0.0
  {
    if IsPole(rho) then v == MakeDirectional(p.x, p.y, p.z, rho, 0.0)
    else exists j :: 0 <= j < EtaCount(dstep) && v == MakeDirectional(p.x, p.y, p.z, rho, Angle(j, dstep))
  }

  /** The direction of a yielded point: what the constructor makes of a swept
      inclination with a swept azimuth. */
  predicate SweptDirection(v: DirectionalPoint, dstep: real)
    requires dstep > 0.0
  {
    exists k :: 0 <= k < RhoCount(dstep) && MadeAt(v, v.Position(), Angle(k, dstep), dstep)
  }

  /** v is yielded by the scene: its position is on the grid inside the
      half-open ranges, its voxel is not opaque, and its direction is swept. */
  predicate Yields(g: Grid, v: DirectionalPoint)
    requires g.Valid()
  {
    && OnLattice(v.x, g.xr.lo, g.xr.hi, g.pstep)
    && OnLattice(v.y, g.yr.lo, g.yr.hi, g.pstep)
    && OnLattice(v.z, g.zr.lo, g.zr.hi, g.pstep)
    && v.Position() !in g.opaqueVoxels
    && SweptDirection(v, g.dstep)
  }

  /** v is one of `lo, lo + pstep, ...` below hi: the values of the
      positional loop, listed the way the loop produces them. */
  predicate InArange(v: int, lo: int, hi: int, pstep: int)
    requires pstep > 0
    decreases hi - lo
  {
    lo < hi && (v == lo || InArange(v, lo + pstep, hi, pstep))
  }

  /** The loop's values are exactly the lattice points of the range. */
  lemma {:induction false} InArangeMeans(v: int, lo: int, hi: int, pstep: int)
    requires pstep > 0
    ensures InArange(v, lo, hi, pstep) <==> OnLattice(v, lo, hi, pstep)
    decreases hi - lo
  {
    if lo < hi {
      InArangeMeans(v, lo + pstep, hi, pstep);
      LatticeStep(v, lo, hi, pstep);
    }
  }

  /** Peeling the first value off a lattice range. */
  lemma LatticeStep(v: int, lo: int, hi: int, pstep: int)
    requires pstep > 0 && lo < hi
    ensures OnLattice(v, lo, hi, pstep) <==> v == lo || OnLattice(v, lo + pstep, hi, pstep)
  {
    if lo < v < lo + pstep {
      assert (v - lo) % pstep == v - lo;
    } else if v >= lo + pstep {
      ModPeriod(v - (lo + pstep), pstep);
    }
  }

  lemma {:induction false} EtaSweepMembers(x: int, y: int, z: int, rho: real, dstep: real, j: nat, v: DirectionalPoint)
    requires dstep > 0.0
    ensures v in EtaSweep(x, y, z, rho, dstep, j) <==>
      exists j' :: j <= j' < EtaCount(dstep) && v == MakeDirectional(x, y, z, rho, Angle(j', dstep))
    decreases EtaCount(dstep) - j
  {
    if j < EtaCount(dstep) {
      EtaSweepMembers(x, y, z, rho, dstep, j + 1, v);
      if v == MakeDirectional(x, y, z, rho, Angle(j, dstep)) {
        assert v in EtaSweep(x, y, z, rho, dstep, j);
      }
    }
  }

  lemma RhoBlockMembers(x: int, y: int, z: int, dstep: real, k: nat, v: DirectionalPoint)
    requires dstep > 0.0
    ensures v in RhoBlock(x, y, z, dstep, k) <==> MadeAt(v, Point(x, y, z), Angle(k, dstep), dstep)
  {
    EtaSweepMembers(x, y, z, Angle(k, dstep), dstep, 0, v);
  }

  lemma {:induction false} RhoSweepMembers(x: int, y: int, z: int, dstep: real, k: nat, v: DirectionalPoint)
    requires dstep > 0.0
    ensures v in RhoSweep(x, y, z, dstep, k) <==>
      exists k' :: k <= k' < RhoCount(dstep) && MadeAt(v, Point(x, y, z), Angle(k', dstep), dstep)
    decreases RhoCount(dstep) - k
  {
    if k < RhoCount(dstep) {
      RhoSweepMembers(x, y, z, dstep, k + 1, v);
      RhoBlockMembers(x, y, z, dstep, k, v);
    }
  }

  /** Whatever the constructor makes at p lies at p. */
  lemma MadeAtPosition(v: DirectionalPoint, p: Point, rho: real, dstep: real)
    requires dstep > 0.0 && MadeAt(v, p, rho, dstep)
    ensures v.Position() == p
  {
    if !IsPole(rho) {
      var j :| 0 <= j < EtaCount(dstep) && v == MakeDirectional(p.x, p.y, p.z, rho, Angle(j, dstep));
    }
  }

  /** The directions swept at one position, all inclinations together. */
  lemma VoxelDirections(x: int, y: int, z: int, dstep: real, v: DirectionalPoint)
    requires dstep > 0.0
    ensures v in RhoSweep(x, y, z, dstep, 0) <==> v.Position() == Point(x, y, z) && SweptDirection(v, dstep)
  {
    RhoSweepMembers(x, y, z, dstep, 0, v);
    if v in RhoSweep(x, y, z, dstep, 0) {
      var k :| 0 <= k < RhoCount(dstep) && MadeAt(v, Point(x, y, z), Angle(k, dstep), dstep);
      MadeAtPosition(v, Point(x, y, z), Angle(k, dstep), dstep);
    }
  }

  /** v's direction is one of those swept at v's own position. */
  predicate SweptHere(v: DirectionalPoint, dstep: real)
    requires dstep > 0.0
  {
    v in RhoSweep(v.x, v.y, v.z, dstep, 0)
  }

  /** Everything swept at a position lies at that position. */
  lemma RhoSweepAt(x: int, y: int, z: int, dstep: real, v: DirectionalPoint)
    requires dstep > 0.0
    ensures v in RhoSweep(x, y, z, dstep, 0) ==> v.Position() == Point(x, y, z)
  {
    VoxelDirections(x, y, z, dstep, v);
  }

  /** The step shared by the positional sweeps: the sweep from one value on is
      this value's block followed by the sweep from the next, so a point is in
      it exactly when it is in one of the two. */
  lemma Peel(all: seq<DirectionalPoint>, here: seq<DirectionalPoint>, rest: seq<DirectionalPoint>, v: DirectionalPoint,
             lat: bool, at: bool, latRest: bool, common: bool)
    requires all == here + rest
    requires v in here <==> at && common
    requires v in rest <==> latRest && common
    requires lat <==> at || latRest
    ensures v in all <==> lat && common
  {
  }

  lemma {:induction false} ZSweepMembers(g: Grid, x: int, y: int, z: int, v: DirectionalPoint)
    requires g.Valid()
    ensures v in ZSweep(g, x, y, z) <==>
      && v.x == x && v.y == y && InArange(v.z, z, g.zr.hi, g.pstep)
      && v.Position() !in g.opaqueVoxels
      && SweptHere(v, g.dstep)
    decreases g.zr.hi - z
  {
    if z < g.zr.hi {
      ZSweepMembers(g, x, y, z + g.pstep, v);
      RhoSweepAt(x, y, z, g.dstep, v);
      var common := v.x == x && v.y == y && v.Position() !in g.opaqueVoxels && SweptHere(v, g.dstep);
      Peel(ZSweep(g, x, y, z), VoxelBlock(g, x, y, z), ZSweep(g, x, y, z + g.pstep), v,
           InArange(v.z, z, g.zr.hi, g.pstep), v.z == z, InArange(v.z, z + g.pstep, g.zr.hi, g.pstep), common);
    }
  }

  lemma {:induction false} YSweepMembers(g: Grid, x: int, y: int, v: DirectionalPoint)
    requires g.Valid()
    ensures v in YSweep(g, x, y) <==>
      && v.x == x && InArange(v.y, y, g.yr.hi, g.pstep)
      && InArange(v.z, g.zr.lo, g.zr.hi, g.pstep)
      && v.Position() !in g.opaqueVoxels
      && SweptHere(v, g.dstep)
    decreases g.yr.hi - y
  {
    if y < g.yr.hi {
      YSweepMembers(g, x, y + g.pstep, v);
      ZSweepMembers(g, x, y, g.zr.lo, v);
      var common := v.x == x && InArange(v.z, g.zr.lo, g.zr.hi, g.pstep)
        && v.Position() !in g.opaqueVoxels && SweptHere(v, g.dstep);
      YSweepStep(g, x, y);
      Peel(YSweep(g, x, y), ZSweep(g, x, y, g.zr.lo), YSweep(g, x, y + g.pstep), v,
           InArange(v.y, y, g.yr.hi, g.pstep), v.y == y, InArange(v.y, y + g.pstep, g.yr.hi, g.pstep), common);
    }
  }

  lemma {:induction false} XSweepMembers(g: Grid, x: int, v: DirectionalPoint)
    requires g.Valid()
    ensures v in XSweep(g, x) <==>
      && InArange(v.x, x, g.xr.hi, g.pstep)
      && InArange(v.y, g.yr.lo, g.yr.hi, g.pstep)
      && InArange(v.z, g.zr.lo, g.zr.hi, g.pstep)
      && v.Position() !in g.opaqueVoxels
      && SweptHere(v, g.dstep)
    decreases g.xr.hi - x
  {
    if x < g.xr.hi {
      XSweepMembers(g, x + g.pstep, v);
      YSweepMembers(g, x, g.yr.lo, v);
      var common := InArange(v.y, g.yr.lo, g.yr.hi, g.pstep) && InArange(v.z, g.zr.lo, g.zr.hi, g.pstep)
        && v.Position() !in g.opaqueVoxels && SweptHere(v, g.dstep);
      XSweepStep(g, x);
      Peel(XSweep(g, x), YSweep(g, x, g.yr.lo), XSweep(g, x + g.pstep), v,
           InArange(v.x, x, g.xr.hi, g.pstep), v.x == x, InArange(v.x, x + g.pstep, g.xr.hi, g.pstep), common);
    }
  }

  /** A directional point is yielded exactly when it lies on the grid inside
      the three half-open ranges, its voxel is not opaque, and its direction is
      one of the swept ones (only azimuth 0 at the poles). */
  lemma GeneratedExactly(g: Grid)
    requires g.Valid()
    ensures forall v :: v in Generated(g) <==> Yields(g, v)
  {
    forall v ensures v in Generated(g) <==> Yields(g, v) {
      XSweepMembers(g, g.xr.lo, v);
      VoxelDirections(v.x, v.y, v.z, g.dstep, v);
      InArangeMeans(v.x, g.xr.lo, g.xr.hi, g.pstep);
      InArangeMeans(v.y, g.yr.lo, g.yr.hi, g.pstep);
      InArangeMeans(v.z, g.zr.lo, g.zr.hi, g.pstep);
    }
  }

  /** With an angular step of at most 2 pi, every yielded point is in the
      constructor's canonical form: inclination in [0, pi] and azimuth in
      [0, 2 pi). The last inclination of `arange(0, pi + dstep, dstep)` may
      exceed pi; it is the constructor's reflection that brings it back. */
  lemma GeneratedCanonical(g: Grid, v: DirectionalPoint)
    requires g.Valid() && g.dstep <= 2.0 * Pi && v in Generated(g)
    ensures 0.0 <= v.rho <= Pi && 0.0 <= v.eta < 2.0 * Pi
  {
    var d := g.dstep;
    XSweepMembers(g, g.xr.lo, v);
    VoxelDirections(v.x, v.y, v.z, d, v);
    var k :| 0 <= k < RhoCount(d) && MadeAt(v, v.Position(), Angle(k, d), d);
    RhoAtMostTwoPi(k, d);
    MadeCanonical(v, v.Position(), Angle(k, d), d);
  }

  /** The reflection is needed: with a step of 2 the inclinations are 0, 2
      and 4, and the last is past pi. */
  lemma LastInclinationPastPi()
    ensures RhoCount(2.0) == 3 && Angle(2, 2.0) > Pi
    ensures MakeDirectional(0, 0, 0, Angle(2, 2.0), 0.0) == DirectionalPoint(0, 0, 0, 2.0 * Pi - 4.0, Pi)
  {
    ArangeValueInRange(0.0, Pi + 2.0, 2.0, 2);
    ArangeValueInRange(0.0, Pi + 2.0, 2.0, 3);
    FloorModWhole(Pi, 2.0 * Pi, 0);
  }

  /** Every inclination `arange(0, pi + dstep, dstep)` yields lies in
      [0, 2 pi] when dstep is at most 2 pi: below pi every value is below
      `pi + dstep <= 2 pi`, and above pi there are only the two values 0 and
      dstep. */
  lemma RhoAtMostTwoPi(k: nat, dstep: real)
    requires 0.0 < dstep <= 2.0 * Pi && k < RhoCount(dstep)
    ensures 0.0 <= Angle(k, dstep) <= 2.0 * Pi
  {
    ArangeValueInRange(0.0, Pi + dstep, dstep, k);
    MulOrder(0.0, k as real, dstep);
    if dstep > Pi {
      if k >= 2 {
        MulOrder(2.0, k as real, dstep);
        assert false;
      }
      MulOrder(k as real, 1.0, dstep);
    }
  }

  /** What the constructor makes of an inclination in [0, 2 pi] and a swept
      azimuth is canonical. */
  lemma MadeCanonical(v: DirectionalPoint, p: Point, rho: real, dstep: real)
    requires dstep > 0.0 && 0.0 <= rho <= 2.0 * Pi && MadeAt(v, p, rho, dstep)
    ensures 0.0 <= v.rho <= Pi && 0.0 <= v.eta < 2.0 * Pi
  {
    if !IsPole(rho) {
      var j :| 0 <= j < EtaCount(dstep) && v == MakeDirectional(p.x, p.y, p.z, rho, Angle(j, dstep));
      ArangeValueInRange(0.0, 2.0 * Pi, dstep, j);
      MulOrder(0.0, j as real, dstep);
    }
  }
}
