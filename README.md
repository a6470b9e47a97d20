# Discrete scene, occlusion walk and laser range imaging — a Dafny model

This project models the core of a multi-camera coverage library. It has two
parts.

The discrete spatial-directional **scene** (`coverage/camera.py`, class
`Scene`) is made of three parts:

- the box of grid positions, with its set of opaque voxels;
- the enumeration of directional points (`generate_points`);
- the occlusion test (`occluded`). It is a 6-connectivity voxel walk,
  Bresenham style, from the camera's voxel toward a point. It returns as soon
  as a probed voxel is opaque.

The **laser line range imaging** extension (`adolphus/laser.py`) is made of
four parts:

- the line laser's outline (`_generate_laservis`);
- the projection of the laser line onto a target (`project`). Each column of
  the fan keeps its nearest hit inside the fan;
- the directional coverage function of a range camera (`_generate_cd`);
- the range model's laser bookkeeping (`__setitem__` / `__delitem__`), and
  the linear transport of a target through the laser plane
  (`range_coverage`).

Files and modules:

| file | module | content |
|---|---|---|
| `runtime.dfy` | `Runtime` | Python's exceptions as a `Result`; `int()` truncation; float `%`; `numpy.arange` length; real-arithmetic helper lemmas |
| `voxels.dfy` | `Voxels` | points, directional points and their constructor, ranges, the grid |
| `sweep.dfy` | `Sweep` | the enumeration as nested sweep functions, and an independent description of what is yielded |
| `traversal.dfy` | `Traversal` | the occlusion walk as the sequence of voxels it probes, in the source's form and in a corrected form |
| `scene.dfy` | `Scenes` | class `Scene`: its state, `MakeOpaque`, the loops of `GeneratePoints`, the loop of `Occluded` |
| `laser.dfy` | `Lasers` | the laser's outline and the projection loop |
| `rangecamera.dfy` | `RangeCameras` | the `cdval` ramp and `Cd` |
| `rangemodel.dfy` | `RangeModels` | class `RangeModel`: the laser set and `range_coverage`'s transport |

The occlusion walk does not depend on which voxels are opaque; only its early
returns do. So `Traversal` defines the sequence of voxels the walk probes
(`Probed`). `Scene.Occluded` is proved to return whether any of those voxels
is opaque. The loop itself stays imperative, with an early return, in
`Scene.Traverse` and `Scene.Advance`.

## Model

| member | source | states |
|---|---|---|
| Runtime.TruncDiv | coverage/camera.py:96-97 | `int(a / b)` for a positive divisor: the quotient rounded toward zero, bracketed on both sides of the exact quotient for either sign |
| Runtime.Trunc | adolphus/laser.py:83 | `int()` of a real rounds toward zero: within one of the value, on the side of zero |
| Runtime.ArangeLength | coverage/camera.py:69-79 | the number of values `arange(start, stop, step)` yields: the last value is below `stop` and one more step would reach it |
| Runtime.ArangeValueInRange | coverage/camera.py:74-78 | the k-th arange value is below `stop` exactly when k is below the length |
| Sweep.InArangeMeans | coverage/camera.py:69-71 | the values of a positional `arange` loop are exactly the lattice points `lo + k*pstep` of the half-open range |
| Voxels.MakeDirectional | coverage/camera.py:76-79 | the `DirectionalPoint` constructor the sweep calls: the point sits at the given position; an inclination up to pi is kept with its azimuth; one past pi is reflected (the two inclinations sum to 2 pi) with the azimuth wrapped into [0, 2 pi), so an inclination in [0, 2 pi] always ends in [0, pi] |
| Voxels.ReflectedAzimuth | coverage/camera.py:78-79 | on reflection, an azimuth in [0, 2 pi) is turned by +pi below pi and by -pi from pi on, as Python's floored `%` gives |
| Voxels.MakeDirectionalKeeps | coverage/camera.py:76-79 | a point whose inclination is at most pi is constructed unchanged |
| Voxels.OnGrid | coverage/camera.py:57-58 | the grid test of `make_opaque`: every coordinate is a multiple of pstep (the source refuses a point when any remainder is non-zero) |
| Sweep.IsPole | coverage/camera.py:75 | the test `rho in [0, pi]`, exact comparison with 0 and with pi |
| Sweep.EtaSweep | coverage/camera.py:78-79 | what the azimuth loop yields from index j on: the constructed point for each `arange(0, 2 pi, dstep)` value, in order; its members are stated by EtaSweepMembers |
| Sweep.RhoBlock | coverage/camera.py:75-79 | what one inclination yields: the single point with azimuth 0 at a pole, the whole azimuth sweep elsewhere; its members are stated by RhoBlockMembers |
| Sweep.RhoSweep | coverage/camera.py:74-79 | what the inclination loop yields from index k on: the inclination blocks in order; its members are stated by RhoSweepMembers |
| Sweep.VoxelBlock | coverage/camera.py:72-79 | what one position yields: nothing when its voxel is opaque (the `continue`), the inclination sweep otherwise |
| Sweep.ZSweep | coverage/camera.py:71-79 | what the z loop yields from a given z on: each voxel's directions in z order, none for an opaque voxel |
| Sweep.YSweep | coverage/camera.py:70-79 | what the y loop yields from a given y on: one z sweep per y, in order |
| Sweep.XSweep | coverage/camera.py:69-79 | what the x loop yields from a given x on: one y sweep per x, in order |
| Sweep.Generated | coverage/camera.py:62-79 | the whole enumeration: the x sweep from the low end of the x range |
| Sweep.EtaSweepMembers | coverage/camera.py:78-79 | the azimuth loop yields exactly the points the constructor makes at this position and inclination from a swept azimuth |
| Sweep.RhoBlockMembers | coverage/camera.py:75-79 | at an inclination, a pole yields only the point made with azimuth 0 and any other inclination the points made with every swept azimuth |
| Sweep.RhoSweepMembers | coverage/camera.py:74-79 | the inclination loop yields exactly the points made from a swept inclination, with azimuth 0 at the poles and every swept azimuth elsewhere |
| Sweep.VoxelDirections | coverage/camera.py:74-79 | the directions at one position are exactly the points made at that position from a swept direction |
| Sweep.ZSweepMembers | coverage/camera.py:71-79 | the z loop yields exactly the points at (x, y) whose z is a loop value, whose voxel is not opaque, and whose direction is swept there |
| Sweep.YSweepMembers | coverage/camera.py:70-79 | the same for the y loop, over every z of the range |
| Sweep.XSweepMembers | coverage/camera.py:69-79 | the same for the x loop, over every y and z of the range |
| Sweep.GeneratedExactly | coverage/camera.py:69-79 | a directional point is generated exactly when it is on the grid inside the three half-open ranges, its voxel is not opaque, and its direction is what the constructor makes of a swept inclination and a swept azimuth (azimuth 0 only, at the poles) |
| Sweep.GeneratedCanonical | coverage/camera.py:62-79 | with an angular step of at most 2 pi, every generated point has its inclination in [0, pi] and its azimuth in [0, 2 pi) |
| Sweep.LastInclinationPastPi | coverage/camera.py:74 | with a step of 2 the inclinations are 0, 2 and 4; the last exceeds pi and is constructed as inclination 2 pi - 4 with azimuth pi |
| Scenes.Scene.constructor | coverage/camera.py:29-49 | the scene keeps its ranges and resolutions and starts with no opaque voxel |
| Scenes.Scene.MakeOpaque | coverage/camera.py:51-60 | an off-grid point is refused with the source's ValueError and leaves the opaque set unchanged; an on-grid point is added and nothing else; adding a point already there changes nothing |
| Scenes.Scene.GeneratePoints | coverage/camera.py:62-79 | the points come in the order of the five nested sweeps, they are exactly the points described in `Sweep.Yields`, and with an angular step of at most 2 pi they are all in canonical form |
| Scenes.Scene.Plane | coverage/camera.py:70-79 | the y loop at one x produces the y sweep |
| Scenes.Scene.Row | coverage/camera.py:71-79 | the z loop at one (x, y) produces the z sweep, skipping opaque voxels |
| Scenes.Scene.Block | coverage/camera.py:72-79 | one position of the z loop yields nothing when its voxel is opaque and its directions otherwise: the voxel's block of the sweep |
| Scenes.Scene.Directions | coverage/camera.py:74-79 | the inclination loop at one position produces the inclination sweep |
| Scenes.Scene.Azimuths | coverage/camera.py:78-79 | the azimuth loop produces the azimuth sweep |
| Traversal.DrivingAxes | coverage/camera.py:105-111 | the axes are a rotation of (0, 1, 2). Axis 0 or 1 drives exactly when its distance is strictly the largest, and axis 2 drives whenever neither is |
| Traversal.CorrectedAxes | coverage/camera.py:105-111 | the corrected choice always drives along a largest distance, and agrees with the source wherever the source's choice is a largest one |
| Traversal.DrivingAxesTieCounterexample | coverage/camera.py:105-111 | on the tie d = (5, 5, 1) the source drives along axis 2, which is not a largest axis; the corrected choice drives along axis 0 |
| Traversal.Setup | coverage/camera.py:94-125 | the walk set up before the loop is well formed: the driving axes are a rotation of (0, 1, 2), there are three signs and three distances, the step on the driving axis is not zero, and the cursor has three coordinates; the values themselves are stated by SetupShape and SetupConstants |
| Traversal.Signs | coverage/camera.py:98-103 | `s[i]` is `+pstep` exactly when the point is level with or ahead of the camera on axis i, and `-pstep` exactly when it is behind |
| Traversal.Diagonal | coverage/camera.py:141-148 | the voxel probed diagonally across two axes; the source's `s[0]` on both axes and the corrected `s[a]`, `s[b]` give the same voxel whenever those two signs equal `s[0]` |
| Traversal.Step | coverage/camera.py:126-198 | every branch of one iteration probes one to three voxels, and advances the driving coordinate by exactly `s[x]` |
| Traversal.ContinuesMeans | coverage/camera.py:126 | the loop guard `s[x]*P[x] < s[x]*P2` holds exactly while the target coordinate lies strictly ahead along the step direction |
| Traversal.StepShrinks | coverage/camera.py:126-198 | each iteration strictly shrinks the distance left to the target along the driving axis, so the loop ends |
| Traversal.Trace | coverage/camera.py:126-198 | the voxels the loop probes from a cursor on, in order: empty exactly when the loop guard fails at once |
| Traversal.Probed | coverage/camera.py:114-198 | the voxels the occlusion test probes, the camera's voxel first; its properties are the lemmas on the following rows |
| Traversal.ProbedStartsAtCamera | coverage/camera.py:114-116 | the first voxel probed is the camera's own voxel `int(cam/pstep)*pstep` |
| Traversal.SetupShape | coverage/camera.py:95-117 | the walk starts at the camera's voxel, with the step signs and the target's voxel coordinate on the driving axis |
| Traversal.CornerGap | coverage/camera.py:114-117 | the camera's and the target's voxel coordinates differ by a multiple of pstep, in the same order as the coordinates |
| Traversal.SetupConstants | coverage/camera.py:94-125 | the setup's constants as the source computes them: `d` the absolute coordinate differences, the driving axes chosen from `d`, `dxy = pstep*d[y]`, `d1xy = dxy - pstep*d[x]`, the same for z, and the starting `exy`, `exz` from the camera's offsets `u` inside its voxel |
| Traversal.Final | coverage/camera.py:126-198 | the cursor at which the loop stops; where it stops is stated by FinalOnTarget and WalkReachesTargetVoxelPlane |
| Traversal.FinalOnTarget | coverage/camera.py:117-126 | starting a whole number of steps from the target and heading toward it, the loop stops exactly on the target coordinate |
| Traversal.WalkReachesTargetVoxelPlane | coverage/camera.py:95-199 | the walk always stops with its driving coordinate on the target's voxel |
| Traversal.TraceOnGrid | coverage/camera.py:126-198 | from a voxel on the grid, every voxel the loop probes is on the grid |
| Traversal.ProbedOnGrid | coverage/camera.py:114-198 | every voxel the occlusion test probes lies on the pstep grid |
| Traversal.CorrectedStepChain | coverage/camera.py:126-198 | with corrected diagonals, one iteration probes a chain of face neighbours that ends on the next cursor voxel |
| Traversal.CorrectedTraceChain | coverage/camera.py:126-198 | with corrected diagonals, the probes from any cursor on form a chain of face neighbours |
| Traversal.CorrectedProbesConnected | coverage/camera.py:141-185 | with corrected diagonals, the probed voxels form a 6-connected path from the camera's voxel |
| Traversal.AsWrittenProbesDisconnected | coverage/camera.py:141-148 | the source's walk from (0, 0, 0) toward (3, -2, 2) probes (1, 1, 1), off the segment's side; its probes are not a 6-connected path |
| Traversal.CorrectedExampleProbes | coverage/camera.py:141-148 | the corrected walk on the same example probes (1, -1, 1) in that place |
| Traversal.TieProbesStopShort | coverage/camera.py:105-126 | the source's walk from (0, 0, 0) toward (5, 5, 1) stops after one step along z; it probes four voxels, none beyond x = 1 |
| Traversal.Blocked | coverage/camera.py:115-198 | the walk's early `return True`: some probed voxel is in the opaque set |
| Scenes.Scene.Occluded | coverage/camera.py:81-199 | occluded exactly when some probed voxel is opaque. Always occluded when the camera's voxel is opaque, and never occluded when no voxel is opaque |
| Scenes.Scene.OccludedCorrected | coverage/camera.py:81-199 | the same test over the corrected walk |
| Scenes.Scene.Traverse | coverage/camera.py:114-199 | the loop with early returns answers whether any probed voxel is opaque |
| Scenes.Scene.Advance | coverage/camera.py:127-198 | one iteration returns as soon as a probe is opaque; otherwise its cursor is the next cursor of the walk |
| Lasers.LineLaser.Outline | adolphus/laser.py:62-66 | the `laservis` curve: origin, the two far corners at `(-width, 0, depth)` and `(width, 0, depth)`, back to the origin; its properties are stated by OutlineOnFanEdge |
| Lasers.InFan | adolphus/laser.py:94-95 | the fan test: a hit is kept unless `abs(ip.x) > ip.z * tan(fan/2)` |
| Lasers.OutlineOnFanEdge | adolphus/laser.py:62-66 | the outline is closed and mirror-symmetric, and its far corners are at the projection depth on the edge of the fan |
| Lasers.Nearest | adolphus/laser.py:88-97 | the triangle loop as a fold: a result it keeps is one of the column's hits and lies inside the fan (that it is the nearest is NearestIsNearest) |
| Lasers.NearestIsNearest | adolphus/laser.py:88-97 | the triangle loop keeps the first of the accepted hits with the least depth, or none when no hit is inside the fan |
| Lasers.NearestUnique | adolphus/laser.py:88-97 | that characterisation has exactly one answer |
| Lasers.NearestHit | adolphus/laser.py:85-97 | the imperative triangle loop computes that nearest accepted hit |
| Lasers.TruncScaled | adolphus/laser.py:83 | truncating a non-positive quotient and scaling it back lands less than one pitch above the exact value, and not above 0 |
| Lasers.FirstColumn | adolphus/laser.py:82-83 | the first column `int(-width / pitch) * pitch`; its bounds are stated by FirstColumnBounds and TruncScaled |
| Lasers.FirstColumnBounds | adolphus/laser.py:82-83 | for a fan of non-negative width, the first column lies in [-width, 0], and one pitch further left is outside the fan |
| Lasers.ColumnInRange | adolphus/laser.py:83-84 | a column is below the width exactly when its index is below the number of columns |
| Lasers.ColumnStep | adolphus/laser.py:100 | each column is one pitch right of the previous one |
| Lasers.Columns | adolphus/laser.py:83-100 | the nearest accepted hit of every column the `while x < width` loop visits, in order; stated through ColumnsUpTo and ColumnInRange |
| Lasers.ColumnsUpTo | adolphus/laser.py:84-100 | the k first columns each contribute the nearest accepted hit of their beam, in column order |
| Lasers.RecordColumn | adolphus/laser.py:98-99 | recording one more column keeps the points in step with the hits found |
| Lasers.Project | adolphus/laser.py:68-101 | the points are exactly the nearest accepted hits of the columns, each with inclination pi, azimuth 0 and relevance 1.0 |
| RangeCameras.CdVal | adolphus/laser.py:111-118 | equal angles give a step: 1.0 exactly when sigma exceeds cos(acceptable), else 0.0. Otherwise the score is a value in [0, 1], unless the two cosines are equal, which is a ZeroDivisionError |
| RangeCameras.Clamp | adolphus/laser.py:118 | `min(max(t, 0), 1)` lies in [0, 1], equals t inside, and clamps outside |
| RangeCameras.CdValOnRamp | adolphus/laser.py:116-118 | for sigma between the two cosines, in either order, the score times `(cos ideal - cos acceptable)` is `sigma - cos acceptable` |
| RangeCameras.CdValSaturates | adolphus/laser.py:116-118 | for either order of the two cosines, sigma at or beyond cos(ideal) (away from cos(acceptable)) scores 1, and sigma at or beyond cos(acceptable) (away from cos(ideal)) scores 0 |
| RangeCameras.CdValMonotone | adolphus/laser.py:112-118 | the score never decreases as sigma grows |
| RangeCameras.Cd | adolphus/laser.py:119-126 | a point without a direction, or at the origin, scores 1.0. Any other point gets `cdval` of its sine, and a score is always in [0, 1] |
| RangeModels.AfterSet | adolphus/laser.py:144-147 | storing a laser adds its key, storing anything else leaves the laser keys alone, and no other key changes |
| RangeModels.AfterDelete | adolphus/laser.py:149-151 | deleting removes the key whether or not it was there, and no other key changes |
| RangeModels.SetThenDelete | adolphus/laser.py:144-151 | storing a laser twice is storing it once, and deleting it afterwards undoes the store |
| RangeModels.RangeModel.constructor | adolphus/laser.py:140-142 | a new model has no laser |
| RangeModels.RangeModel.SetItem | adolphus/laser.py:144-147 | the laser set after `model[key] = value` |
| RangeModels.RangeModel.DelItem | adolphus/laser.py:149-151 | the laser set after `del model[key]` |
| RangeModels.RangeModel.RangeCoverage | adolphus/laser.py:180-208 | "linear" gives the transport offsets over the extent of the vertex projections. "rotary" and any other style fail with the source's two ValueError messages |
| RangeModels.RangeModel.Bounds | adolphus/laser.py:185-190 | the nested min/max loops compute the least and greatest projection, both absent exactly when there is no vertex |
| RangeModels.Dots | adolphus/laser.py:187-188 | the i-th projection is the product of the axis with the i-th vertex |
| RangeModels.Projections | adolphus/laser.py:186-188 | the values `taxis * vertex` in the order of the two loops; its members are stated by ProjectionsMembers |
| RangeModels.Least | adolphus/laser.py:185-189 | the running `lv = min(lv, pv)` from infinity, with None for infinity; stated by LeastGreatestBound |
| RangeModels.Greatest | adolphus/laser.py:185-190 | the running `gv = max(gv, pv)` from minus infinity, with None for it; stated by LeastGreatestBound |
| RangeModels.ProjectionsMembers | adolphus/laser.py:186-188 | a value is among the projections exactly when it is the projection of some vertex of some triangle |
| RangeModels.LeastGreatestBound | adolphus/laser.py:185-190 | the least projection is one of them and at or below all of them; likewise the greatest; both are infinite only without vertices |
| RangeModels.Extent | adolphus/laser.py:185-190 | lv <= taxis·v <= gv for every vertex v, with both bounds reached |
| RangeModels.Transport | adolphus/laser.py:191-195 | the transport offsets: a zero pitch is a ZeroDivisionError, no vertex at all (infinite bounds) an OverflowError from `int()`, and otherwise a list of offsets |
| RangeModels.TransportCrossesPlane | adolphus/laser.py:191-195 | with a positive pitch there are `int((gv - lv)/tpitch)` placements, and each puts the nearest vertex before the laser plane and the farthest at or past it |

## Left out

- Scene coordinates, ranges and `pstep` are integers, with `pstep > 0` and `dstep > 0`. Fractional coordinates, for which `p.x % pstep` is a float remainder, are not modelled.
- `int(c / pstep)` is taken as truncation toward zero of the exact quotient, as `int()` does on a true division.
- `generate_points` is a generator; the model produces the whole sequence it yields, in the same order.
- Floating point is not modelled: angles, widths and offsets are exact reals. `math.pi` is its 16-digit constant, and `numpy.arange` lengths are the exact ceiling. The exact comparison `rho in [0, pi]` is kept.
- Trigonometry is given rather than computed:
  - `tan(fan / 2)` is a field of the laser;
  - the cosines of the camera's angles are fields of `RangeCameras.Angles`;
  - the sine of the angle between a point's direction and the line of sight to the camera is a function parameter of `RangeCameras.Cd`.
- The `DirectionalPoint` constructor belongs to the geometry module, which is not part of this model. `Voxels.MakeDirectional` follows its documented canonical form: an inclination past pi becomes `2 pi - rho`, and the azimuth becomes `(eta + pi) % (2 pi)`. Its fuzzy equality and direction vector are not modelled.
- Sweep.GeneratedCanonical: requires an angular step of at most 2 pi. An inclination is past 2 pi only with a step above 2 pi; its reflection `2 pi - rho` is then negative, and the model keeps that value.
- RangeCameras.CdValMonotone: states that the score is non-decreasing only when cos(ideal) > cos(acceptable) or the angles are equal. When cos(ideal) < cos(acceptable) the score is non-increasing in sigma; that case is described by CdValOnRamp and CdValSaturates only.
- `project` is modelled in the laser's own frame. The pose mapping and the triangle intersection are a function parameter: for each column, its list of triangle hits. The geometry module is not part of this model.
- `PointCache` and `RelevanceModel` are modelled as a map from point to relevance.
- Truthiness of a point (`if ip`, `not cp`) is taken as "present".
- Lasers.Project: requires a positive pitch. The source raises ZeroDivisionError for a zero pitch, and its loop never ends for a negative pitch when the first column is below the width.
- RangeModel: the storage, the cameras and the coverage computation of the `Model` base class are not part of this model. Only the set of laser keys is kept. The base class's own `__delitem__` error for a missing key is therefore not modelled.
- RangeModels.RangeModel.RangeCoverage: returns the sequence of transport offsets, not the coverage and relevance models. Three things are left out:
  - taking `taxis.normal`: the axis is given as a vector;
  - moving the target with `set_absolute_pose`;
  - projecting with `project` and computing `coverage` at each step, then merging the results.
- Helper lemmas that carry no claim about the source (real arithmetic and the floored modulo, sequence regrouping, the propositional step of the sweep proofs) have no row.

## Findings

| source | as written | input that shows it | evidently intended | confidence | as-written member | corrected member |
|---|---|---|---|---|---|---|
| coverage/camera.py:141-148 | the diagonal probe adds `s[0]` on both of its axes, whichever axes they are (also at 160-166 and 178-184) | camera (0, 0, 0), point (3, -2, 2), pstep 1: the walk probes (1, 1, 1), and never (1, -1, 1) between (1, 0, 1) and (2, -1, 1) | add `s[a]` and `s[b]` on axes a and b, so the probes form a 6-connected path | high (not executed) | Traversal.AsWrittenProbesDisconnected | Traversal.CorrectedProbesConnected |
| coverage/camera.py:105-111 | when no distance is strictly the largest, axis 2 drives the walk even when it is the shortest | camera (0, 0, 0), point (5, 5, 1), pstep 1: d = (5, 5, 1), axis 2 drives, and the walk stops after one step, at x = 1 | drive along a largest distance | medium (not executed) | Traversal.TieProbesStopShort | Traversal.CorrectedAxes |

`Traversal.Variant` keeps both forms. `Scenes.Scene.Occluded` runs the walk as
written, and `Scenes.Scene.OccludedCorrected` runs the corrected walk. All the
general properties of the walk (termination, the probes on the grid, reaching
the target's voxel plane) are proved for both.
