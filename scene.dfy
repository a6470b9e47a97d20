/** The discrete spatial-directional scene with occlusion: a box of grid
    positions, a set of opaque voxels, the enumeration of directional points
    and the occlusion test along the segment from a camera to a point. */
module Scenes {
  import opened Runtime
  import opened Voxels
  import Sweep
  import opened Traversal

  /** Moving the boundary between what is done and what is still to come:
      when what is to come is a block followed by the rest, the block can join
      what is done. */
  lemma Extend<T>(done: seq<T>, toCome: seq<T>, block: seq<T>, rest: seq<T>, all: seq<T>)
    requires done + toCome == all
    requires toCome == block + rest
    ensures (done + block) + rest == all
  {
    assert done + (block + rest) == done + block + rest;
  }

  class Scene {
    const x: Range
    const y: Range
    const z: Range
    /** Spatial resolution: the grid spacing. */
    const pstep: int
    /** Angular resolution. */
    const dstep: real
    /** The opaque voxels, each named by its grid corner. */
    var opaqueVoxels: set<Point>

    predicate Valid() {
      pstep > 0 && dstep > 0.0
    }

    /** What the enumeration of directional points reads from the scene. */
    function Grid(): (g: Sweep.Grid)
      requires Valid()
      reads this
      ensures g.Valid()
    {
      Sweep.Grid(x, y, z, pstep, dstep, opaqueVoxels)
    }

    constructor (x: Range, y: Range, z: Range, pstep: int, dstep: real)
      requires pstep > 0 && dstep > 0.0
      ensures Valid()
      ensures this.x == x && this.y == y && this.z == z && this.pstep == pstep && this.dstep == dstep
      ensures opaqueVoxels == {}
    {
      this.x, this.y, this.z := x, y, z;
      this.pstep, this.dstep := pstep, dstep;
      opaqueVoxels := {};
    }

    /** Marks the voxel at grid point p opaque; a point off the grid is refused
        and the scene is left as it was. */
    method MakeOpaque(p: Point) returns (o: Outcome)
      requires Valid()
      modifies this
      ensures !OnGrid(p, pstep) ==> o == Failure(ValueError("discrete point must fall on the grid"))
      ensures !OnGrid(p, pstep) ==> opaqueVoxels == old(opaqueVoxels)
      ensures OnGrid(p, pstep) ==> o == Success && opaqueVoxels == old(opaqueVoxels) + {p}
      ensures p in old(opaqueVoxels) ==> opaqueVoxels == old(opaqueVoxels)
    {
      if p.x % pstep != 0 || p.y % pstep != 0 || p.z % pstep != 0 {
        return Failure(ValueError("discrete point must fall on the grid"));
      }
      opaqueVoxels := opaqueVoxels + {p};
      o := Success;
    }

    /** Every directional point of the scene, in the order of the nested
        sweeps over x, y and z, skipping opaque voxels. */
    method GeneratePoints() returns (pts: seq<DirectionalPoint>)
      requires Valid()
      ensures pts == Sweep.Generated(Grid())
      ensures forall v :: v in pts <==> Sweep.Yields(Grid(), v)
      ensures dstep <= 2.0 * Pi ==> forall v :: v in pts ==> 0.0 <= v.rho <= Pi && 0.0 <= v.eta < 2.0 * Pi
    {
      var g := Grid();
      ghost var all := Sweep.Generated(g);
      pts := [];
      assert pts + all == all;
      var xv := x.lo;
      while xv < x.hi
        invariant pts + Sweep.XSweep(g, xv) == all
        decreases x.hi - xv
      {
        var plane := Plane(xv);
        Sweep.XSweepStep(g, xv);
        Extend(pts, Sweep.XSweep(g, xv), plane, Sweep.XSweep(g, xv + pstep), all);
        pts := pts + plane;
        xv := xv + pstep;
      }
      Sweep.GeneratedExactly(g);
      if dstep <= 2.0 * Pi {
        forall v | v in pts
          ensures 0.0 <= v.rho <= Pi && 0.0 <= v.eta < 2.0 * Pi
        {
          Sweep.GeneratedCanonical(g, v);
        }
      }
    }

    /** The sweep over y and z at one x: a row for each y of the range. */
    method Plane(xv: int) returns (plane: seq<DirectionalPoint>)
      requires Valid()
      ensures plane == Sweep.YSweep(Grid(), xv, y.lo)
    {
      var g := Grid();
      ghost var all := Sweep.YSweep(g, xv, y.lo);
      plane := [];
      assert plane + all == all;
      var yv := y.lo;
      while yv < y.hi
        invariant plane + Sweep.YSweep(g, xv, yv) == all
        decreases y.hi - yv
      {
        var row := Row(xv, yv);
        Sweep.YSweepStep(g, xv, yv);
        Extend(plane, Sweep.YSweep(g, xv, yv), row, Sweep.YSweep(g, xv, yv + pstep), all);
        plane := plane + row;
        yv := yv + pstep;
      }
    }

    /** The innermost positional sweep: the directional points at (xv, yv, z)
        for each z of the range, none where the voxel is opaque. */
    method Row(xv: int, yv: int) returns (row: seq<DirectionalPoint>)
      requires Valid()
      ensures row == Sweep.ZSweep(Grid(), xv, yv, z.lo)
    {
      var g := Grid();
      ghost var all := Sweep.ZSweep(g, xv, yv, z.lo);
      row := [];
      assert row + all == all;
      var zv := z.lo;
      while zv < z.hi
        invariant row + Sweep.ZSweep(g, xv, yv, zv) == all
        decreases z.hi - zv
      {
        var ds := Block(xv, yv, zv);
        Sweep.ZSweepStep(g, xv, yv, zv);
        Extend(row, Sweep.ZSweep(g, xv, yv, zv), ds, Sweep.ZSweep(g, xv, yv, zv + pstep), all);
        row := row + ds;
        zv := zv + pstep;
      }
    }

    /** What one position of the z loop yields: nothing when its voxel is
        opaque, and otherwise every swept direction there. */
    method Block(xv: int, yv: int, zv: int) returns (ds: seq<DirectionalPoint>)
      requires Valid()
      ensures ds == Sweep.VoxelBlock(Grid(), xv, yv, zv)
    {
      ds := [];
      if Point(xv, yv, zv) !in opaqueVoxels {
        ds := Directions(xv, yv, zv);
      }
    }

    /** The directions swept at one position: each inclination of
        `arange(0, pi + dstep, dstep)`, with the single azimuth 0 at the poles
        and every azimuth of `arange(0, 2 pi, dstep)` elsewhere. */
    method Directions(xv: int, yv: int, zv: int) returns (ds: seq<DirectionalPoint>)
      requires Valid()
      ensures ds == Sweep.RhoSweep(xv, yv, zv, dstep, 0)
    {
      var rhoCount := Sweep.RhoCount(dstep);
      ghost var all := Sweep.RhoSweep(xv, yv, zv, dstep, 0);
      ds := [];
      assert ds + all == all;
      var k := 0;
      while k < rhoCount
        invariant k <= rhoCount
        invariant ds + Sweep.RhoSweep(xv, yv, zv, dstep, k) == all
        decreases rhoCount - k
      {
        var rho := Sweep.Angle(k, dstep);
        var block: seq<DirectionalPoint>;
        if Sweep.IsPole(rho) {
          block := [MakeDirectional(xv, yv, zv, rho, 0.0)];
        } else {
          block := Azimuths(xv, yv, zv, rho);
        }
        assert block == Sweep.RhoBlock(xv, yv, zv, dstep, k);
        Extend(ds, Sweep.RhoSweep(xv, yv, zv, dstep, k), block, Sweep.RhoSweep(xv, yv, zv, dstep, k + 1), all);
        ds := ds + block;
        k := k + 1;
      }
    }

    /** The azimuths swept at one position and inclination. */
    method Azimuths(xv: int, yv: int, zv: int, rho: real) returns (ds: seq<DirectionalPoint>)
      requires Valid()
      ensures ds == Sweep.EtaSweep(xv, yv, zv, rho, dstep, 0)
    {
      var etaCount := Sweep.EtaCount(dstep);
      ghost var all := Sweep.EtaSweep(xv, yv, zv, rho, dstep, 0);
      ds := [];
      assert ds + all == all;
      var j := 0;
      while j < etaCount
        invariant j <= etaCount
        invariant ds + Sweep.EtaSweep(xv, yv, zv, rho, dstep, j) == all
        decreases etaCount - j
      {
        Extend(ds, Sweep.EtaSweep(xv, yv, zv, rho, dstep, j), [MakeDirectional(xv, yv, zv, rho, Sweep.Angle(j, dstep))],
               Sweep.EtaSweep(xv, yv, zv, rho, dstep, j + 1), all);
        ds := ds + [MakeDirectional(xv, yv, zv, rho, Sweep.Angle(j, dstep))];
        j := j + 1;
      }
    }

    /** The occlusion test, as the source runs it: the point is occluded from
        the camera exactly when one of the voxels the walk probes is opaque;
        the camera's own opaque voxel occludes everything, and a scene with no
        opaque voxel occludes nothing. */
    method Occluded(p: Point, cam: Point := Point(0, 0, 0)) returns (r: bool)
      requires Valid()
      ensures r == Blocked(Probed(p, cam, pstep, AsWritten), opaqueVoxels)
      ensures Voxel(Corner(cam, pstep)) in opaqueVoxels ==> r
      ensures opaqueVoxels == {} ==> !r
    {
      r := Traverse(p, cam, AsWritten);
      ProbedStartsAtCamera(p, cam, pstep, AsWritten);
    }

    /** The occlusion test with the walk's two defects repaired: the probes
        then form a 6-connected path of voxels. */
    method OccludedCorrected(p: Point, cam: Point := Point(0, 0, 0)) returns (r: bool)
      requires Valid()
      ensures r == Blocked(Probed(p, cam, pstep, Corrected), opaqueVoxels)
      ensures Voxel(Corner(cam, pstep)) in opaqueVoxels ==> r
      ensures opaqueVoxels == {} ==> !r
    {
      r := Traverse(p, cam, Corrected);
      ProbedStartsAtCamera(p, cam, pstep, Corrected);
    }

    /** The voxel walk from the camera toward p, returning as soon as a probed
        voxel is opaque. */
    method Traverse(p: Point, cam: Point, variant: Variant) returns (r: bool)
      requires Valid()
      ensures r == Blocked(Probed(p, cam, pstep, variant), opaqueVoxels)
    {
      var st := Setup(p, cam, pstep, variant);
      var w := st.walk;
      var x := w.axes.x;
      var s := w.s;
      var P, exy, exz := st.cursor.P, st.cursor.exy, st.cursor.exz;
      BlockedJoin([Voxel(P)], Trace(w, st.cursor), opaqueVoxels);
      if Voxel(P) in opaqueVoxels {
        assert [Voxel(P)][0] in opaqueVoxels;
        return true;
      }
      while s[x] * P[x] < s[x] * w.target
        invariant |P| == 3
        invariant Blocked(Probed(p, cam, pstep, variant), opaqueVoxels)
          == Blocked(Trace(w, Cursor(P, exy, exz)), opaqueVoxels)
        decreases Remaining(w, Cursor(P, exy, exz))
      {
        ghost var m := Step(w, Cursor(P, exy, exz));
        StepShrinks(w, Cursor(P, exy, exz));
        BlockedJoin(m.probes, Trace(w, m.next), opaqueVoxels);
        var hit;
        hit, P, exy, exz := Advance(w, P, exy, exz);
        if hit {
          return true;
        }
      }
      return false;
    }

    /** One iteration of the walk: the voxels it probes, in order, until one
        is opaque, and the cursor after the iteration when none is. */
    method Advance(w: Walk, P: seq<int>, exy: int, exz: int) returns (hit: bool, P': seq<int>, exy': int, exz': int)
      requires w.Valid() && |P| == 3
      ensures hit == Blocked(Step(w, Cursor(P, exy, exz)).probes, opaqueVoxels)
      ensures !hit ==> Cursor(P', exy', exz') == Step(w, Cursor(P, exy, exz)).next
    {
      var x, y, z := w.axes.x, w.axes.y, w.axes.z;
      var s, d := w.s, w.d;
      ghost var m := Step(w, Cursor(P, exy, exz));
      P', exy', exz' := P, exy, exz;
      if exy > 0 {
        if exz > 0 {
          if exy * d[z] > exz * d[y] {
            if Neighbour(w, P, y) in opaqueVoxels {
              assert m.probes[0] in opaqueVoxels;
              return true, P', exy', exz';
            }
          } else {
            if Neighbour(w, P, z) in opaqueVoxels {
              assert m.probes[0] in opaqueVoxels;
              return true, P', exy', exz';
            }
          }
          if Diagonal(w, P, y, z) in opaqueVoxels {
            assert m.probes[1] in opaqueVoxels;
            return true, P', exy', exz';
          }
          P' := AddAll(P, s);
          if Voxel(P') in opaqueVoxels {
            assert m.probes[2] in opaqueVoxels;
            return true, P', exy', exz';
          }
          exy', exz' := exy + w.d1xy, exz + w.d1xz;
        } else {
          if Neighbour(w, P, y) in opaqueVoxels {
            assert m.probes[0] in opaqueVoxels;
            return true, P', exy', exz';
          }
          if Diagonal(w, P, x, y) in opaqueVoxels {
            assert m.probes[1] in opaqueVoxels;
            return true, P', exy', exz';
          }
          P' := P'[x := P'[x] + s[x]];
          P' := P'[y := P'[y] + s[y]];
          exy', exz' := exy + w.d1xy, exz + w.dxz;
        }
      } else if exz > 0 {
        if Neighbour(w, P, z) in opaqueVoxels {
          assert m.probes[0] in opaqueVoxels;
          return true, P', exy', exz';
        }
        if Diagonal(w, P, x, z) in opaqueVoxels {
          assert m.probes[1] in opaqueVoxels;
          return true, P', exy', exz';
        }
        P' := P'[x := P'[x] + s[x]];
        P' := P'[z := P'[z] + s[z]];
        exy', exz' := exy + w.dxy, exz + w.d1xz;
      } else {
        if Neighbour(w, P, x) in opaqueVoxels {
          assert m.probes[0] in opaqueVoxels;
          return true, P', exy', exz';
        }
        P' := P'[x := P'[x] + s[x]];
        exy', exz' := exy + w.dxy, exz + w.dxz;
      }
      hit := false;
    }
  }
}
