/** The voxel walk behind the occlusion test: a 6-connectivity traversal from
    the camera's voxel toward the target along a driving axis, steered by two
    integer error terms in the manner of Bresenham's line algorithm.

    The walk's geometry does not depend on which voxels are opaque; only the
    early returns do. So the walk is described here as the sequence of voxels
    it probes, and the occlusion test answers whether any of them is opaque.

    Two defects of the source are kept apart by `Variant`: `AsWritten` follows
    the source, `Corrected` repairs the diagonal probes and the choice of the
    driving axis on a tie. */
module Traversal {
  import opened Runtime
  import opened Voxels

  datatype Variant = AsWritten | Corrected

  /** The driving axis `x` and the two others, `y` and `z`. */
  datatype Axes = Axes(x: nat, y: nat, z: nat) {
    /** (x, y, z) is a rotation of (0, 1, 2). */
    predicate Cyclic() {
      x < 3 && y == (x + 1) % 3 && z == (x + 2) % 3
    }
  }

  predicate StrictlyLargest(d: seq<int>, i: nat)
    requires |d| == 3 && i < 3
  {
    forall j :: 0 <= j < 3 && j != i ==> d[j] < d[i]
  }

  predicate Largest(d: seq<int>, i: nat)
    requires |d| == 3 && i < 3
  {
    forall j :: 0 <= j < 3 ==> d[j] <= d[i]
  }

  /** The source's choice of driving axis: the axis whose distance is strictly
      the largest, and axis 2 whenever no distance is strictly the largest. */
  function DrivingAxes(d: seq<int>): (a: Axes)
    requires |d| == 3
    ensures a.Cyclic()
    ensures a.x == 0 <==> StrictlyLargest(d, 0)
    ensures a.x == 1 <==> StrictlyLargest(d, 1)
    ensures a.x == 2 <==> !StrictlyLargest(d, 0) && !StrictlyLargest(d, 1)
  {
    if d[0] > d[1] && d[0] > d[2] then Axes(0, 1, 2)
    else if d[1] > d[0] && d[1] > d[2] then Axes(1, 2, 0)
    else Axes(2, 0, 1)
  }

  /** The driving axis chosen among the largest distances: it agrees with the
      source wherever the source picks a largest axis. */
  function CorrectedAxes(d: seq<int>): (a: Axes)
    requires |d| == 3
    ensures a.Cyclic()
    ensures Largest(d, a.x)
    ensures Largest(d, DrivingAxes(d).x) ==> a == DrivingAxes(d)
  {
    if d[0] > d[1] && d[0] > d[2] then Axes(0, 1, 2)
    else if d[1] > d[0] && d[1] > d[2] then Axes(1, 2, 0)
    else if d[2] >= d[0] && d[2] >= d[1] then Axes(2, 0, 1)
    else Axes(0, 1, 2)
  }

  /** On the tie d = (5, 5, 1) the source drives the walk along axis 2, the
      shortest of the three. */
  lemma DrivingAxesTieCounterexample()
    ensures DrivingAxes([5, 5, 1]).x == 2 && !Largest([5, 5, 1], 2)
    ensures CorrectedAxes([5, 5, 1]).x == 0
  {
    assert [5, 5, 1][1] > [5, 5, 1][2];
  }

  // ---------------------------------------------------------------------
  // Setting up the walk

  /** `pstep * delta / abs(delta)`, and `pstep` where the division by zero is
      caught: a step of one voxel toward the target. */
  function StepToward(delta: int, pstep: int): int {
    if delta < 0 then -pstep else pstep
  }

  /** `int(c / pstep) * pstep`: the grid coordinate of the voxel holding c,
      truncating toward zero. */
  function VoxelCorner(c: int, pstep: int): int
    requires pstep > 0
  {
    TruncDiv(c, pstep) * pstep
  }

  function Distances(p: Point, cam: Point): (d: seq<int>)
    ensures |d| == 3
  {
    [Abs(p.x - cam.x), Abs(p.y - cam.y), Abs(p.z - cam.z)]
  }

  /** `s`: one voxel toward the target on each axis, forward when the target
      is level with the camera on that axis. */
  function Signs(p: Point, cam: Point, pstep: int): (s: seq<int>)
    requires pstep > 0
    ensures |s| == 3
    ensures forall i :: 0 <= i < 3 ==> (s[i] == pstep <==> p.At(i) >= cam.At(i))
    ensures forall i :: 0 <= i < 3 ==> (s[i] == -pstep <==> p.At(i) < cam.At(i))
  {
    [StepToward(p.x - cam.x, pstep), StepToward(p.y - cam.y, pstep), StepToward(p.z - cam.z, pstep)]
  }

  /** `P` at the start: the camera's voxel. */
  function Corner(cam: Point, pstep: int): (c: seq<int>)
    requires pstep > 0
    ensures |c| == 3
  {
    [VoxelCorner(cam.x, pstep), VoxelCorner(cam.y, pstep), VoxelCorner(cam.z, pstep)]
  }

  /** `u`: the camera's offset inside its voxel on each axis. */
  function Offsets(cam: Point, pstep: int): (u: seq<int>)
    requires pstep > 0
    ensures |u| == 3
  {
    [cam.x - VoxelCorner(cam.x, pstep), cam.y - VoxelCorner(cam.y, pstep), cam.z - VoxelCorner(cam.z, pstep)]
  }

  /** The constants of one walk. */
  datatype Walk = Walk(axes: Axes, s: seq<int>, d: seq<int>, target: int,
                       dxy: int, d1xy: int, dxz: int, d1xz: int, variant: Variant)
  {
    predicate Valid() {
      axes.Cyclic() && |s| == 3 && |d| == 3 && s[axes.x] != 0
    }
  }

  /** What the loop updates: the voxel `P` and the error terms. */
  datatype Cursor = Cursor(P: seq<int>, exy: int, exz: int)

  datatype Start = Start(walk: Walk, cursor: Cursor)

  function ChooseAxes(d: seq<int>, variant: Variant): (a: Axes)
    requires |d| == 3
    ensures a.Cyclic()
  {
    if variant == AsWritten then DrivingAxes(d) else CorrectedAxes(d)
  }

  /** The walk from the camera at `cam` toward `p`, as the source sets it up. */
  function Setup(p: Point, cam: Point, pstep: int, variant: Variant): (st: Start)
    requires pstep > 0
    ensures st.walk.Valid() && |st.cursor.P| == 3
  {
    var d := Distances(p, cam);
    var u := Offsets(cam, pstep);
    var s := Signs(p, cam, pstep);
    var a := ChooseAxes(d, variant);
    var x, y, z := a.x, a.y, a.z;
    var dxy := pstep * d[y];
    var dxz := pstep * d[z];
    var w := Walk(a, s, d, VoxelCorner(p.At(x), pstep),
                  dxy, dxy - pstep * d[x], dxz, dxz - pstep * d[x], variant);
    var exy := InitialError(pstep, u[x], d[x], u[y], d[y]);
    var exz := InitialError(pstep, u[x], d[x], u[z], d[z]);
    Start(w, Cursor(Corner(cam, pstep), exy, exz))
  }

  /** The starting error term between the driving axis (offset `ux`,
      distance `dx`) and another axis (offset `uw`, distance `dw`). */
  function InitialError(pstep: int, ux: int, dx: int, uw: int, dw: int): int {
    (uw - pstep) * dx + (pstep - ux) * dw
  }

  // ---------------------------------------------------------------------
  // One iteration of the walk

  function Voxel(P: seq<int>): Point
    requires |P| == 3
  {
    Point(P[0], P[1], P[2])
  }

  function Shift(P: seq<int>, a: nat, amount: int): (Q: seq<int>)
    requires |P| == 3 && a < 3
    ensures |Q| == 3
  {
    P[a := P[a] + amount]
  }

  /** `[P[i] + s[i] for i in range(3)]`. */
  function AddAll(P: seq<int>, s: seq<int>): (Q: seq<int>)
    requires |P| == 3 && |s| == 3
    ensures |Q| == 3
  {
    [P[0] + s[0], P[1] + s[1], P[2] + s[2]]
  }

  /** The voxel next to `P` along axis a, toward the target. */
  function Neighbour(w: Walk, P: seq<int>, a: nat): Point
    requires w.Valid() && |P| == 3 && a < 3
  {
    Voxel(Shift(P, a, w.s[a]))
  }

  /** The voxel diagonal to `P` across axes a and b. The source adds `s[0]` on
      both axes whichever they are; the corrected walk adds `s[a]` and `s[b]`. */
  function Diagonal(w: Walk, P: seq<int>, a: nat, b: nat): (r: Point)
    requires w.Valid() && |P| == 3 && a < 3 && b < 3
    ensures w.s[a] == w.s[0] && w.s[b] == w.s[0] ==> r == Voxel(Shift(Shift(P, a, w.s[a]), b, w.s[b]))
  {
    match w.variant
    case AsWritten => Voxel(Shift(Shift(P, a, w.s[0]), b, w.s[0]))
    case Corrected => Voxel(Shift(Shift(P, a, w.s[a]), b, w.s[b]))
  }

  /** The voxels one iteration probes, in order, and the cursor after it. */
  datatype Move = Move(probes: seq<Point>, next: Cursor)

  /** One iteration of the loop. Every branch advances `P` by exactly one step
      along the driving axis. */
  function Step(w: Walk, c: Cursor): (m: Move)
    requires w.Valid() && |c.P| == 3
    ensures |m.next.P| == 3 && 1 <= |m.probes| <= 3
    ensures m.next.P[w.axes.x] == c.P[w.axes.x] + w.s[w.axes.x]
  {
    var x, y, z := w.axes.x, w.axes.y, w.axes.z;
    if c.exy > 0 then
      if c.exz > 0 then
        var first := if c.exy * w.d[z] > c.exz * w.d[y] then Neighbour(w, c.P, y) else Neighbour(w, c.P, z);
        var P' := AddAll(c.P, w.s);
        Move([first, Diagonal(w, c.P, y, z), Voxel(P')], Cursor(P', c.exy + w.d1xy, c.exz + w.d1xz))
      else
        Move([Neighbour(w, c.P, y), Diagonal(w, c.P, x, y)],
             Cursor(Shift(Shift(c.P, x, w.s[x]), y, w.s[y]), c.exy + w.d1xy, c.exz + w.dxz))
    else if c.exz > 0 then
      Move([Neighbour(w, c.P, z), Diagonal(w, c.P, x, z)],
           Cursor(Shift(Shift(c.P, x, w.s[x]), z, w.s[z]), c.exy + w.dxy, c.exz + w.d1xz))
    else
      Move([Neighbour(w, c.P, x)], Cursor(Shift(c.P, x, w.s[x]), c.exy + w.dxy, c.exz + w.dxz))
  }

  /** The loop guard `s[x] * P[x] < s[x] * P2`. */
  predicate Continues(w: Walk, c: Cursor)
    requires w.Valid() && |c.P| == 3
  {
    w.s[w.axes.x] * c.P[w.axes.x] < w.s[w.axes.x] * w.target
  }

  /** How far the driving axis still is from the target, counted in the
      direction of the step. */
  function Remaining(w: Walk, c: Cursor): nat
    requires w.Valid() && |c.P| == 3
  {
    var gap := w.target - c.P[w.axes.x];
    var r := if w.s[w.axes.x] > 0 then gap else -gap;
    if r > 0 then r else 0
  }

  /** Scaling both sides by a non-zero k keeps or flips a strict inequality. */
  lemma ScaledLess(k: int, a: int, b: int)
    requires k != 0
    ensures k > 0 ==> (k * a < k * b <==> a < b)
    ensures k < 0 ==> (k * a < k * b <==> b < a)
  {
    assert k * b - k * a == k * (b - a);
    if k > 0 {
      if a < b { assert k * (b - a) > 0; } else { assert k * (a - b) >= 0; }
    } else {
      if b < a { assert (-k) * (a - b) > 0; } else { assert (-k) * (b - a) >= 0; }
    }
  }

  /** The loop guard holds exactly while the target lies ahead of `P` along
      the step direction. */
  lemma ContinuesMeans(w: Walk, c: Cursor)
    requires w.Valid() && |c.P| == 3
    ensures Continues(w, c) <==> Remaining(w, c) > 0
  {
    ScaledLess(w.s[w.axes.x], c.P[w.axes.x], w.target);
  }

  /** Each iteration strictly shrinks the distance left, so the loop ends. */
  lemma StepShrinks(w: Walk, c: Cursor)
    requires w.Valid() && |c.P| == 3 && Continues(w, c)
    ensures Remaining(w, Step(w, c).next) < Remaining(w, c)
  {
    ContinuesMeans(w, c);
  }

  /** Every voxel the loop probes from cursor `c` on, in order. */
  function Trace(w: Walk, c: Cursor): (t: seq<Point>)
    requires w.Valid() && |c.P| == 3
    ensures |t| == 0 <==> !Continues(w, c)
    decreases Remaining(w, c)
  {
    if Continues(w, c) then
      StepShrinks(w, c);
      var m := Step(w, c);
      m.probes + Trace(w, m.next)
    else []
  }

  /** While the guard holds, the trace is this iteration's probes followed by
      the trace from the next cursor. */
  lemma TraceStep(w: Walk, c: Cursor)
    requires w.Valid() && |c.P| == 3 && Continues(w, c)
    ensures Trace(w, c) == Step(w, c).probes + Trace(w, Step(w, c).next)
  {
  }

  /** The cursor at which the loop stops. */
  function Final(w: Walk, c: Cursor): (f: Cursor)
    requires w.Valid() && |c.P| == 3
    ensures |f.P| == 3
    decreases Remaining(w, c)
  {
    if Continues(w, c) then
      StepShrinks(w, c);
      Final(w, Step(w, c).next)
    else c
  }

  /** Every voxel the occlusion test probes, the camera's own voxel first. */
  function Probed(p: Point, cam: Point, pstep: int, variant: Variant): seq<Point>
    requires pstep > 0
  {
    var st := Setup(p, cam, pstep, variant);
    [Voxel(st.cursor.P)] + Trace(st.walk, st.cursor)
  }

  /** The first voxel probed is the camera's own. */
  lemma ProbedStartsAtCamera(p: Point, cam: Point, pstep: int, variant: Variant)
    requires pstep > 0
    ensures |Probed(p, cam, pstep, variant)| >= 1
    ensures Probed(p, cam, pstep, variant)[0] == Voxel(Corner(cam, pstep))
  {
    SetupShape(p, cam, pstep, variant);
  }

  /** Some voxel of the sequence is opaque. */
  predicate Blocked(t: seq<Point>, opaqueVoxels: set<Point>) {
    exists i :: 0 <= i < |t| && t[i] in opaqueVoxels
  }

  /** A joined sequence is blocked exactly when one of its parts is. */
  lemma BlockedJoin(a: seq<Point>, b: seq<Point>, opaqueVoxels: set<Point>)
    ensures Blocked(a + b, opaqueVoxels) <==> Blocked(a, opaqueVoxels) || Blocked(b, opaqueVoxels)
  {
    if Blocked(a, opaqueVoxels) {
      var i :| 0 <= i < |a| && a[i] in opaqueVoxels;
      assert (a + b)[i] == a[i];
    }
    if Blocked(b, opaqueVoxels) {
      var i :| 0 <= i < |b| && b[i] in opaqueVoxels;
      assert (a + b)[|a| + i] == b[i];
    }
    if Blocked(a + b, opaqueVoxels) {
      var i :| 0 <= i < |a + b| && (a + b)[i] in opaqueVoxels;
      if i < |a| { assert a[i] == (a + b)[i]; } else { assert b[i - |a|] == (a + b)[i]; }
    }
  }

  // ---------------------------------------------------------------------
  // The walk reaches the target's plane

  predicate Multiple(v: int, pstep: int)
    requires pstep > 0
  {
    v % pstep == 0
  }

  lemma CornerIsMultiple(c: int, pstep: int)
    requires pstep > 0
    ensures Multiple(VoxelCorner(c, pstep), pstep)
  {
    ModUnique(VoxelCorner(c, pstep), TruncDiv(c, pstep), 0, pstep);
  }

  lemma MultipleStep(v: int, pstep: int, amount: int)
    requires pstep > 0 && (amount == pstep || amount == -pstep)
    ensures Multiple(v + amount, pstep) <==> Multiple(v, pstep)
  {
    if amount == pstep { ModPeriod(v, pstep); } else { ModPeriod(v - pstep, pstep); }
  }

  /** Steps of one voxel on every axis. */
  predicate UnitSteps(w: Walk, pstep: int)
    requires |w.s| == 3
  {
    forall i :: 0 <= i < 3 ==> w.s[i] == pstep || w.s[i] == -pstep
  }

  /** The target lies ahead of `P`, or at it, along the driving axis. */
  predicate Ahead(w: Walk, c: Cursor)
    requires w.Valid() && |c.P| == 3
  {
    var gap := w.target - c.P[w.axes.x];
    if w.s[w.axes.x] > 0 then gap >= 0 else gap <= 0
  }

  /** A non-zero multiple of p is at least p away from zero. */
  lemma MultipleAtLeast(v: int, p: int)
    requires p > 0 && v % p == 0
    ensures v > 0 ==> v >= p
    ensures v < 0 ==> v <= -p
  {
    if -p < v < 0 { ModPeriod(v, p); }
  }

  /** If the driving axis starts on the grid of the target and heads toward
      it, the loop stops exactly on the target's coordinate. */
  lemma {:induction false} FinalOnTarget(w: Walk, c: Cursor, pstep: int)
    requires w.Valid() && |c.P| == 3 && pstep > 0 && UnitSteps(w, pstep)
    requires Multiple(w.target - c.P[w.axes.x], pstep) && Ahead(w, c)
    ensures Final(w, c).P[w.axes.x] == w.target
    decreases Remaining(w, c)
  {
    var x, sx := w.axes.x, w.s[w.axes.x];
    var gap := w.target - c.P[x];
    ContinuesMeans(w, c);
    if Continues(w, c) {
      StepShrinks(w, c);
      var next := Step(w, c).next;
      MultipleAtLeast(gap, pstep);
      assert w.target - next.P[x] == gap - sx;
      MultipleStep(gap - sx, pstep, sx);
      FinalOnTarget(w, next, pstep);
    }
  }

  /** Two voxel corners are a whole number of steps apart, in the order of
      the coordinates they hold. */
  lemma CornerGap(pc: int, cc: int, pstep: int)
    requires pstep > 0
    ensures Multiple(VoxelCorner(pc, pstep) - VoxelCorner(cc, pstep), pstep)
    ensures pc >= cc ==> VoxelCorner(pc, pstep) >= VoxelCorner(cc, pstep)
    ensures pc < cc ==> VoxelCorner(pc, pstep) <= VoxelCorner(cc, pstep)
  {
    var t, b := TruncDiv(pc, pstep), TruncDiv(cc, pstep);
    if pc >= cc {
      TruncDivMonotone(cc, pc, pstep);
    } else {
      TruncDivMonotone(pc, cc, pstep);
    }
    MultiplesGap(t, b, pstep);
  }

  /** The gap between two multiples of pstep is a multiple of pstep, with the
      sign of the gap between the factors. */
  lemma MultiplesGap(t: int, b: int, pstep: int)
    requires pstep > 0
    ensures Multiple(t * pstep - b * pstep, pstep)
    ensures t >= b ==> t * pstep >= b * pstep
    ensures t <= b ==> t * pstep <= b * pstep
  {
    var k := t - b;
    assert t * pstep - b * pstep == k * pstep;
    ModUnique(k * pstep, k, 0, pstep);
    MulSign(k, pstep);
  }

  lemma MulSign(k: int, p: int)
    requires p > 0
    ensures k >= 0 ==> k * p >= 0
    ensures k <= 0 ==> k * p <= 0
  {
  }

  /** What the setup puts in the walk, without the error terms. */
  lemma SetupShape(p: Point, cam: Point, pstep: int, variant: Variant)
    requires pstep > 0
    ensures var st := Setup(p, cam, pstep, variant);
      && st.walk.s == Signs(p, cam, pstep)
      && st.cursor.P == Corner(cam, pstep)
      && st.walk.target == VoxelCorner(p.At(st.walk.axes.x), pstep)
      && st.walk.variant == variant
  {
  }

  /** The constants the setup computes: the distances `d`, the driving axes
      chosen from them, the four error increments, and the two starting error
      terms from the camera's offsets `u` inside its voxel. */
  lemma SetupConstants(p: Point, cam: Point, pstep: int, variant: Variant)
    requires pstep > 0
    ensures var st := Setup(p, cam, pstep, variant);
      var d, u, a := Distances(p, cam), Offsets(cam, pstep), st.walk.axes;
      && st.walk.d == d
      && a == ChooseAxes(d, variant)
      && st.walk.dxy == pstep * d[a.y] && st.walk.d1xy == pstep * d[a.y] - pstep * d[a.x]
      && st.walk.dxz == pstep * d[a.z] && st.walk.d1xz == pstep * d[a.z] - pstep * d[a.x]
      && st.cursor.exy == (u[a.y] - pstep) * d[a.x] + (pstep - u[a.x]) * d[a.y]
      && st.cursor.exz == (u[a.z] - pstep) * d[a.x] + (pstep - u[a.x]) * d[a.z]
  {
  }

  lemma CornerAt(cam: Point, pstep: int, i: nat)
    requires pstep > 0 && i < 3
    ensures Corner(cam, pstep)[i] == VoxelCorner(cam.At(i), pstep)
  {
  }

  lemma SignsAt(p: Point, cam: Point, pstep: int, i: nat)
    requires pstep > 0 && i < 3
    ensures Signs(p, cam, pstep)[i] == StepToward(p.At(i) - cam.At(i), pstep)
  {
  }

  /** The occlusion walk always stops with its driving coordinate on the
      voxel that holds the target point. */
  lemma WalkReachesTargetVoxelPlane(p: Point, cam: Point, pstep: int, variant: Variant)
    requires pstep > 0
    ensures var st := Setup(p, cam, pstep, variant);
      Final(st.walk, st.cursor).P[st.walk.axes.x] == VoxelCorner(p.At(st.walk.axes.x), pstep)
  {
    var st := Setup(p, cam, pstep, variant);
    var w, c, x := st.walk, st.cursor, st.walk.axes.x;
    SetupShape(p, cam, pstep, variant);
    CornerAt(cam, pstep, x);
    SignsAt(p, cam, pstep, x);
    CornerGap(p.At(x), cam.At(x), pstep);
    forall i | 0 <= i < 3 ensures w.s[i] == pstep || w.s[i] == -pstep {
      SignsAt(p, cam, pstep, i);
    }
    FinalOnTarget(w, c, pstep);
  }

  // ---------------------------------------------------------------------
  // Every probed voxel is on the grid

  lemma {:induction false} TraceOnGrid(w: Walk, c: Cursor, pstep: int)
    requires w.Valid() && |c.P| == 3 && pstep > 0 && UnitSteps(w, pstep)
    requires OnGrid(Voxel(c.P), pstep)
    ensures forall i :: 0 <= i < |Trace(w, c)| ==> OnGrid(Trace(w, c)[i], pstep)
    decreases Remaining(w, c)
  {
    if Continues(w, c) {
      StepShrinks(w, c);
      var m := Step(w, c);
      StepOnGrid(w, c, pstep);
      TraceOnGrid(w, m.next, pstep);
      assert Trace(w, c) == m.probes + Trace(w, m.next);
    }
  }

  lemma ShiftOnGrid(P: seq<int>, a: nat, amount: int, pstep: int)
    requires |P| == 3 && a < 3 && pstep > 0 && (amount == pstep || amount == -pstep)
    requires OnGrid(Voxel(P), pstep)
    ensures OnGrid(Voxel(Shift(P, a, amount)), pstep)
  {
    MultipleStep(P[a], pstep, amount);
  }

  lemma StepOnGrid(w: Walk, c: Cursor, pstep: int)
    requires w.Valid() && |c.P| == 3 && pstep > 0 && UnitSteps(w, pstep)
    requires OnGrid(Voxel(c.P), pstep)
    ensures var m := Step(w, c);
      OnGrid(Voxel(m.next.P), pstep) && forall i :: 0 <= i < |m.probes| ==> OnGrid(m.probes[i], pstep)
  {
    var P, s := c.P, w.s;
    var x, y, z := w.axes.x, w.axes.y, w.axes.z;
    var m := Step(w, c);
    TwoShiftsOnGrid(P, s, x, y, pstep);
    TwoShiftsOnGrid(P, s, x, z, pstep);
    TwoShiftsOnGrid(P, s, y, z, pstep);
    ShiftOnGrid(Shift(Shift(P, y, s[y]), z, s[z]), x, s[x], pstep);
    AddAllAsShifts(P, s, w.axes);
    var ny, nz := Neighbour(w, P, y), Neighbour(w, P, z);
    if c.exy > 0 && c.exz > 0 {
      assert m.probes[0] == ny || m.probes[0] == nz;
      assert m.probes[1] == Diagonal(w, P, y, z);
      assert m.probes[2] == Voxel(AddAll(P, s));
    } else if c.exy > 0 {
      assert m.probes == [ny, Diagonal(w, P, x, y)];
    } else if c.exz > 0 {
      assert m.probes == [nz, Diagonal(w, P, x, z)];
    } else {
      assert m.probes == [Neighbour(w, P, x)];
    }
  }

  /** Stepping on all three axes at once is stepping on the two others, then
      on the driving axis. */
  lemma AddAllAsShifts(P: seq<int>, s: seq<int>, ax: Axes)
    requires |P| == 3 && |s| == 3 && ax.Cyclic()
    ensures AddAll(P, s) == Shift(Shift(Shift(P, ax.y, s[ax.y]), ax.z, s[ax.z]), ax.x, s[ax.x])
  {
    if ax.x == 0 {
      assert ax.y == 1 && ax.z == 2;
    } else if ax.x == 1 {
      assert ax.y == 2 && ax.z == 0;
    } else {
      assert ax.y == 0 && ax.z == 1;
    }
  }

  /** Neighbours and diagonals of a grid voxel, either variant, are on the grid. */
  lemma TwoShiftsOnGrid(P: seq<int>, s: seq<int>, a: nat, b: nat, pstep: int)
    requires |P| == 3 && |s| == 3 && a < 3 && b < 3 && pstep > 0
    requires forall i :: 0 <= i < 3 ==> s[i] == pstep || s[i] == -pstep
    requires OnGrid(Voxel(P), pstep)
    ensures OnGrid(Voxel(Shift(P, a, s[a])), pstep)
    ensures OnGrid(Voxel(Shift(P, b, s[b])), pstep)
    ensures OnGrid(Voxel(Shift(Shift(P, a, s[a]), b, s[b])), pstep)
    ensures OnGrid(Voxel(Shift(Shift(P, a, s[0]), b, s[0])), pstep)
  {
    ShiftOnGrid(P, a, s[a], pstep);
    ShiftOnGrid(P, b, s[b], pstep);
    ShiftOnGrid(Shift(P, a, s[a]), b, s[b], pstep);
    ShiftOnGrid(P, a, s[0], pstep);
    ShiftOnGrid(Shift(P, a, s[0]), b, s[0], pstep);
  }

  /** Every voxel the occlusion test probes lies on the `pstep` grid. */
  lemma ProbedOnGrid(p: Point, cam: Point, pstep: int, variant: Variant)
    requires pstep > 0
    ensures forall i :: 0 <= i < |Probed(p, cam, pstep, variant)| ==> OnGrid(Probed(p, cam, pstep, variant)[i], pstep)
  {
    var st := Setup(p, cam, pstep, variant);
    CornerIsMultiple(cam.x, pstep);
    CornerIsMultiple(cam.y, pstep);
    CornerIsMultiple(cam.z, pstep);
    TraceOnGrid(st.walk, st.cursor, pstep);
  }

  // ---------------------------------------------------------------------
  // The corrected walk is a 6-connected chain of voxels

  /** a and b are face neighbours: they differ by one step on exactly one axis. */
  predicate Adjacent(a: Point, b: Point, pstep: int) {
    || (Abs(a.x - b.x) == pstep && a.y == b.y && a.z == b.z)
    || (a.x == b.x && Abs(a.y - b.y) == pstep && a.z == b.z)
    || (a.x == b.x && a.y == b.y && Abs(a.z - b.z) == pstep)
  }

  predicate Chain(t: seq<Point>, pstep: int) {
    forall i :: 0 <= i < |t| - 1 ==> Adjacent(t[i], t[i + 1], pstep)
  }

  lemma ChainJoin(a: seq<Point>, b: seq<Point>, pstep: int)
    requires |a| > 0 && Chain(a, pstep) && Chain([a[|a| - 1]] + b, pstep)
    ensures Chain(a + b, pstep)
  {
    var t := a + b;
    forall i | 0 <= i < |t| - 1
      ensures Adjacent(t[i], t[i + 1], pstep)
    {
      if i < |a| - 1 {
        assert t[i] == a[i] && t[i + 1] == a[i + 1];
      } else {
        var c := [a[|a| - 1]] + b;
        assert t[i] == c[i - |a| + 1] && t[i + 1] == c[i - |a| + 2];
      }
    }
  }

  lemma ShiftsCommute(P: seq<int>, a: nat, u: int, b: nat, v: int)
    requires |P| == 3 && a < 3 && b < 3 && a != b
    ensures Shift(Shift(P, a, u), b, v) == Shift(Shift(P, b, v), a, u)
  {
    var l, r := Shift(Shift(P, a, u), b, v), Shift(Shift(P, b, v), a, u);
    assert l[0] == r[0] && l[1] == r[1] && l[2] == r[2];
  }

  lemma ShiftAdjacent(P: seq<int>, a: nat, amount: int, pstep: int)
    requires |P| == 3 && a < 3 && pstep > 0 && (amount == pstep || amount == -pstep)
    ensures Adjacent(Voxel(P), Voxel(Shift(P, a, amount)), pstep)
  {
  }

  /** Two steps on distinct axes, probed one after the other, form a chain. */
  lemma TwoStepChain(P: seq<int>, s: seq<int>, a: nat, b: nat, pstep: int)
    requires |P| == 3 && |s| == 3 && a < 3 && b < 3 && a != b && pstep > 0
    requires (s[a] == pstep || s[a] == -pstep) && (s[b] == pstep || s[b] == -pstep)
    ensures Chain([Voxel(P), Voxel(Shift(P, b, s[b])), Voxel(Shift(Shift(P, a, s[a]), b, s[b]))], pstep)
  {
    ShiftAdjacent(P, b, s[b], pstep);
    ShiftsCommute(P, a, s[a], b, s[b]);
    ShiftAdjacent(Shift(P, b, s[b]), a, s[a], pstep);
  }

  /** A step on one of y, z, then on the other, then on x, form a chain. */
  lemma ThreeStepChain(P: seq<int>, s: seq<int>, ax: Axes, first: nat, pstep: int)
    requires |P| == 3 && |s| == 3 && ax.Cyclic() && pstep > 0
    requires forall i :: 0 <= i < 3 ==> s[i] == pstep || s[i] == -pstep
    requires first == ax.y || first == ax.z
    ensures var D := Shift(Shift(P, ax.y, s[ax.y]), ax.z, s[ax.z]);
      Chain([Voxel(P), Voxel(Shift(P, first, s[first])), Voxel(D), Voxel(AddAll(P, s))], pstep)
  {
    var y, z := ax.y, ax.z;
    var D := Shift(Shift(P, y, s[y]), z, s[z]);
    ShiftAdjacent(P, first, s[first], pstep);
    ShiftsCommute(P, y, s[y], z, s[z]);
    if first == y {
      ShiftAdjacent(Shift(P, y, s[y]), z, s[z], pstep);
    } else {
      ShiftAdjacent(Shift(P, z, s[z]), y, s[y], pstep);
    }
    AddAllAsShifts(P, s, ax);
    ShiftAdjacent(D, ax.x, s[ax.x], pstep);
  }

  /** One corrected iteration probes a chain leading from the cursor's voxel
      to the next cursor's voxel. */
  lemma CorrectedStepChain(w: Walk, c: Cursor, pstep: int)
    requires w.Valid() && |c.P| == 3 && pstep > 0 && UnitSteps(w, pstep) && w.variant == Corrected
    ensures var m := Step(w, c);
      Chain([Voxel(c.P)] + m.probes, pstep) && m.probes[|m.probes| - 1] == Voxel(m.next.P)
  {
    var P, s := c.P, w.s;
    var x, y, z := w.axes.x, w.axes.y, w.axes.z;
    var m := Step(w, c);
    if c.exy > 0 && c.exz > 0 {
      var first := if c.exy * w.d[z] > c.exz * w.d[y] then y else z;
      var probes := [Voxel(Shift(P, first, s[first])), Voxel(Shift(Shift(P, y, s[y]), z, s[z])), Voxel(AddAll(P, s))];
      assert m.probes == probes && m.next.P == AddAll(P, s);
      ThreeStepChain(P, s, w.axes, first, pstep);
      assert [Voxel(P)] + probes == [Voxel(P), probes[0], probes[1], probes[2]];
    } else if c.exy > 0 {
      var probes := [Voxel(Shift(P, y, s[y])), Voxel(Shift(Shift(P, x, s[x]), y, s[y]))];
      assert m.probes == probes && m.next.P == Shift(Shift(P, x, s[x]), y, s[y]);
      TwoStepChain(P, s, x, y, pstep);
      assert [Voxel(P)] + probes == [Voxel(P), probes[0], probes[1]];
    } else if c.exz > 0 {
      var probes := [Voxel(Shift(P, z, s[z])), Voxel(Shift(Shift(P, x, s[x]), z, s[z]))];
      assert m.probes == probes && m.next.P == Shift(Shift(P, x, s[x]), z, s[z]);
      TwoStepChain(P, s, x, z, pstep);
      assert [Voxel(P)] + probes == [Voxel(P), probes[0], probes[1]];
    } else {
      assert m.probes == [Voxel(Shift(P, x, s[x]))] && m.next.P == Shift(P, x, s[x]);
      ShiftAdjacent(P, x, s[x], pstep);
      assert [Voxel(P)] + m.probes == [Voxel(P), Voxel(Shift(P, x, s[x]))];
    }
  }

  lemma {:induction false} CorrectedTraceChain(w: Walk, c: Cursor, pstep: int)
    requires w.Valid() && |c.P| == 3 && pstep > 0 && UnitSteps(w, pstep) && w.variant == Corrected
    ensures Chain([Voxel(c.P)] + Trace(w, c), pstep)
    decreases Remaining(w, c)
  {
    if Continues(w, c) {
      StepShrinks(w, c);
      var m := Step(w, c);
      CorrectedStepChain(w, c, pstep);
      CorrectedTraceChain(w, m.next, pstep);
      var head := [Voxel(c.P)] + m.probes;
      assert head[|head| - 1] == Voxel(m.next.P);
      TraceStep(w, c);
      ChainJoin(head, Trace(w, m.next), pstep);
      assert [Voxel(c.P)] + Trace(w, c) == head + Trace(w, m.next);
    }
  }

  /** With the diagonal probes corrected, the voxels the occlusion test probes
      form a 6-connected path from the camera's voxel: each is a face
      neighbour of the one before. */
  lemma CorrectedProbesConnected(p: Point, cam: Point, pstep: int)
    requires pstep > 0
    ensures Chain(Probed(p, cam, pstep, Corrected), pstep)
  {
    var st := Setup(p, cam, pstep, Corrected);
    CorrectedTraceChain(st.walk, st.cursor, pstep);
  }

  /** The walk from (0, 0, 0) toward (3, -2, 2) on a grid of spacing 1. */
  lemma ExampleSetupAsWritten()
    ensures Setup(Point(3, -2, 2), Point(0, 0, 0), 1, AsWritten)
      == Start(Walk(Axes(0, 1, 2), [1, -1, 1], [3, 2, 2], 3, 2, -1, 2, -1, AsWritten), Cursor([0, 0, 0], -1, -1))
  {
  }

  lemma ExampleSetupCorrected()
    ensures Setup(Point(3, -2, 2), Point(0, 0, 0), 1, Corrected)
      == Start(Walk(Axes(0, 1, 2), [1, -1, 1], [3, 2, 2], 3, 2, -1, 2, -1, Corrected), Cursor([0, 0, 0], -1, -1))
  {
  }

  /** The example walk, iteration by iteration; only the middle iteration's
      diagonal probe depends on the variant. */
  lemma ExampleSteps(w: Walk)
    requires w == Walk(Axes(0, 1, 2), [1, -1, 1], [3, 2, 2], 3, 2, -1, 2, -1, w.variant)
    ensures Step(w, Cursor([0, 0, 0], -1, -1)) == Move([Point(1, 0, 0)], Cursor([1, 0, 0], 1, 1))
    ensures Step(w, Cursor([1, 0, 0], 1, 1)).next == Cursor([2, -1, 1], 0, 0)
    ensures Step(w, Cursor([1, 0, 0], 1, 1)).probes
      == [Point(1, 0, 1), if w.variant == AsWritten then Point(1, 1, 1) else Point(1, -1, 1), Point(2, -1, 1)]
    ensures Step(w, Cursor([2, -1, 1], 0, 0)) == Move([Point(3, -1, 1)], Cursor([3, -1, 1], 2, 2))
  {
    assert Shift([0, 0, 0], 0, 1) == [1, 0, 0];
    assert Shift([1, 0, 0], 2, 1) == [1, 0, 1];
    assert Shift(Shift([1, 0, 0], 1, 1), 2, 1) == [1, 1, 1];
    assert Shift(Shift([1, 0, 0], 1, -1), 2, 1) == [1, -1, 1];
    assert Shift([2, -1, 1], 0, 1) == [3, -1, 1];
  }

  /** The example walk's probes after the camera's voxel. */
  lemma ExampleTrace(w: Walk)
    requires w == Walk(Axes(0, 1, 2), [1, -1, 1], [3, 2, 2], 3, 2, -1, 2, -1, w.variant)
    ensures [Point(0, 0, 0)] + Trace(w, Cursor([0, 0, 0], -1, -1))
      == [Point(0, 0, 0), Point(1, 0, 0), Point(1, 0, 1), if w.variant == AsWritten then Point(1, 1, 1) else Point(1, -1, 1),
          Point(2, -1, 1), Point(3, -1, 1)]
  {
    ExampleSteps(w);
    var c0, c1, c2, c3 := Cursor([0, 0, 0], -1, -1), Cursor([1, 0, 0], 1, 1), Cursor([2, -1, 1], 0, 0), Cursor([3, -1, 1], 2, 2);
    assert Trace(w, c3) == [];
    assert Trace(w, c2) == [Point(3, -1, 1)] + Trace(w, c3);
    assert Trace(w, c1) == Step(w, c1).probes + Trace(w, c2);
    assert Trace(w, c0) == [Point(1, 0, 0)] + Trace(w, c1);
  }

  /** The example's probes: the camera's voxel, then the trace of the walk. */
  lemma ExampleProbed(p: Point, cam: Point, w: Walk)
    requires p == Point(3, -2, 2) && cam == Point(0, 0, 0)
    requires w == Walk(Axes(0, 1, 2), [1, -1, 1], [3, 2, 2], 3, 2, -1, 2, -1, w.variant)
    ensures Probed(p, cam, 1, w.variant) == [Point(0, 0, 0)] + Trace(w, Cursor([0, 0, 0], -1, -1))
  {
    if w.variant == AsWritten {
      ExampleSetupAsWritten();
    } else {
      ExampleSetupCorrected();
    }
  }

  /** The source's diagonal probe breaks the path: walking from (0, 0, 0)
      toward (3, -2, 2) it probes (1, 1, 1), on the far side of the segment,
      and never the voxel (1, -1, 1) between (1, 0, 1) and (2, -1, 1). */
  lemma AsWrittenProbesDisconnected(p: Point, cam: Point)
    requires p == Point(3, -2, 2) && cam == Point(0, 0, 0)
    ensures Probed(p, cam, 1, AsWritten)
      == [Point(0, 0, 0), Point(1, 0, 0), Point(1, 0, 1), Point(1, 1, 1), Point(2, -1, 1), Point(3, -1, 1)]
    ensures !Chain(Probed(p, cam, 1, AsWritten), 1)
  {
    var w := Walk(Axes(0, 1, 2), [1, -1, 1], [3, 2, 2], 3, 2, -1, 2, -1, AsWritten);
    ExampleProbed(p, cam, w);
    ExampleTrace(w);
    var u := [Point(0, 0, 0), Point(1, 0, 0), Point(1, 0, 1), Point(1, 1, 1), Point(2, -1, 1), Point(3, -1, 1)];
    assert !Adjacent(u[3], u[4], 1);
  }

  /** With the diagonal probes repaired, the same walk probes (1, -1, 1). */
  lemma CorrectedExampleProbes(p: Point, cam: Point)
    requires p == Point(3, -2, 2) && cam == Point(0, 0, 0)
    ensures Probed(p, cam, 1, Corrected)
      == [Point(0, 0, 0), Point(1, 0, 0), Point(1, 0, 1), Point(1, -1, 1), Point(2, -1, 1), Point(3, -1, 1)]
  {
    var w := Walk(Axes(0, 1, 2), [1, -1, 1], [3, 2, 2], 3, 2, -1, 2, -1, Corrected);
    ExampleProbed(p, cam, w);
    ExampleTrace(w);
  }

  /** The walk from (0, 0, 0) toward (5, 5, 1): the distances tie on x and
      y, so the source drives the walk along z, the shortest axis. */
  lemma TieSetup()
    ensures Setup(Point(5, 5, 1), Point(0, 0, 0), 1, AsWritten)
      == Start(Walk(Axes(2, 0, 1), [1, 1, 1], [5, 5, 1], 1, 5, 4, 5, 4, AsWritten), Cursor([0, 0, 0], 4, 4))
  {
  }

  lemma TieProbed(p: Point, cam: Point, w: Walk)
    requires p == Point(5, 5, 1) && cam == Point(0, 0, 0)
    requires w == Walk(Axes(2, 0, 1), [1, 1, 1], [5, 5, 1], 1, 5, 4, 5, 4, AsWritten)
    ensures Probed(p, cam, 1, AsWritten) == [Point(0, 0, 0)] + Trace(w, Cursor([0, 0, 0], 4, 4))
  {
    TieSetup();
  }

  lemma TieTrace(w: Walk)
    requires w == Walk(Axes(2, 0, 1), [1, 1, 1], [5, 5, 1], 1, 5, 4, 5, 4, AsWritten)
    ensures [Point(0, 0, 0)] + Trace(w, Cursor([0, 0, 0], 4, 4))
      == [Point(0, 0, 0), Point(0, 1, 0), Point(1, 1, 0), Point(1, 1, 1)]
  {
    var c0, c1 := Cursor([0, 0, 0], 4, 4), Cursor([1, 1, 1], 8, 8);
    assert Shift([0, 0, 0], 1, 1) == [0, 1, 0];
    assert Shift(Shift([0, 0, 0], 0, 1), 1, 1) == [1, 1, 0];
    assert Step(w, c0) == Move([Point(0, 1, 0), Point(1, 1, 0), Point(1, 1, 1)], c1);
    assert Trace(w, c1) == [];
    assert Trace(w, c0) == Step(w, c0).probes + Trace(w, c1);
  }

  /** On that tie the source's walk stops after one step along z: it never
      probes a voxel beyond x = 1, so everything between there and the
      target's voxel (5, 5, 1) goes unchecked. */
  lemma TieProbesStopShort(p: Point, cam: Point)
    requires p == Point(5, 5, 1) && cam == Point(0, 0, 0)
    ensures Probed(p, cam, 1, AsWritten) == [Point(0, 0, 0), Point(0, 1, 0), Point(1, 1, 0), Point(1, 1, 1)]
  {
    var w := Walk(Axes(2, 0, 1), [1, 1, 1], [5, 5, 1], 1, 5, 4, 5, 4, AsWritten);
    TieProbed(p, cam, w);
    TieTrace(w);
  }
}
