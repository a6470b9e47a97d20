/** Points of the discrete scene: integer positions on a grid of spacing
    `pstep`, and directional points that add a direction `(rho, eta)`. */
module Voxels {
  import opened Runtime

  /** A position in space. Grid positions are exact, so two points are the
      same exactly when their coordinates are. */
  datatype Point = Point(x: int, y: int, z: int) {
    /** The i-th coordinate, as `p[i]` indexes a point. */
    function At(i: int): int
      requires 0 <= i < 3
    {
      if i == 0 then x else if i == 1 then y else z
    }
  }

  /** A position with a viewing direction: inclination `rho` and azimuth `eta`. */
  datatype DirectionalPoint = DirectionalPoint(x: int, y: int, z: int, rho: real, eta: real) {
    function Position(): Point {
      Point(x, y, z)
    }
  }

  /** A directional point as the geometry module constructs it from
      `(x, y, z, rho, eta)`: an inclination past pi is reflected to
      `2 pi - rho` and the azimuth turned by pi, modulo 2 pi, which points the
      same way with the inclination back in [0, pi]. */
  function MakeDirectional(x: int, y: int, z: int, rho: real, eta: real): (d: DirectionalPoint)
    ensures d.Position() == Point(x, y, z)
    ensures rho <= Pi ==> d.rho == rho && d.eta == eta
    ensures rho > Pi ==> d.rho + rho == 2.0 * Pi && 0.0 <= d.eta < 2.0 * Pi
    ensures 0.0 <= rho <= 2.0 * Pi ==> 0.0 <= d.rho <= Pi
  {
    if rho > Pi then DirectionalPoint(x, y, z, 2.0 * Pi - rho, FloorMod(eta + Pi, 2.0 * Pi))
    else DirectionalPoint(x, y, z, rho, eta)
  }

  /** For an azimuth in [0, 2 pi), the reflection turns it by pi forwards
      below pi and backwards from pi on. */
  lemma ReflectedAzimuth(x: int, y: int, z: int, rho: real, eta: real)
    requires rho > Pi && 0.0 <= eta < 2.0 * Pi
    ensures MakeDirectional(x, y, z, rho, eta).eta == if eta < Pi then eta + Pi else eta - Pi
  {
    if eta < Pi {
      FloorModWhole(eta + Pi, 2.0 * Pi, 0);
    } else {
      FloorModWhole(eta + Pi, 2.0 * Pi, 1);
    }
  }

  /** A directional point already in canonical form is constructed unchanged. */
  lemma MakeDirectionalKeeps(d: DirectionalPoint)
    requires d.rho <= Pi
    ensures MakeDirectional(d.x, d.y, d.z, d.rho, d.eta) == d
  {
  }

  /** A coordinate range given as a pair `(lo, hi)`. */
  datatype Range = Range(lo: int, hi: int)

  /** Every coordinate of `p` is a multiple of `pstep`. */
  predicate OnGrid(p: Point, pstep: int)
    requires pstep > 0
  {
    p.x % pstep == 0 && p.y % pstep == 0 && p.z % pstep == 0
  }
}
