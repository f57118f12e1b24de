# IAICP registration core in Dafny

This project models the registration core of IAICP ("intensity-assisted
ICP"), class `Iaicp` in `src/iaicp.cpp`. IAICP estimates the rigid transform
that aligns two organised depth-and-intensity frames.

- **Sampling.** `sampleSource` walks a lattice of every second pixel of the
  source frame. It keeps the points that have depth, warp into the target
  image, lie on a smooth surface, and are textured, contrasting or bent. When
  fewer than 200 are kept, 1000 random source points are appended. Points
  without depth are then removed.
- **Iterating.** Each pass of `iterateLevel` draws up to 150 correspondences.
  For each draw it searches a disc of radius 4 grid steps (scaled by `offset`)
  around the projected pixel and keeps the candidate with the largest robust
  weight. It then re-estimates the median and the MAD-derived scale of both
  residual populations, weights every pair, solves for an increment and
  left-composes it into the transform. The transform passes through its pose
  vector, whose angles `checkAngles` wraps into [-pi, pi].
- **Running.** `run` samples once, then runs three levels: offsets 7, 3 and 1
  with 7, 7 and 15 iterations.

Modules:

| file | module | contents |
|---|---|---|
| `wrappers.dfy` | `Wrappers` | `Option` |
| `geometry.dfy` | `Geometry` | points, camera, projection, the bounds-checked grid accessor, the `size_t` neighbour indices as the source writes them, and the foreign primitives (`Ops`) |
| `pose.dfy` | `Pose` | `checkAngles` (an in-place method on a 6-element array), `toVector`, `toEigen` |
| `robust.dfy` | `Robust` | the weight 6/(5+u^2), sorting, median, MAD and the rewriting of residuals into weights |
| `search.dfy` | `Search` | the neighbourhood search, one draw, the draw loop, the depth confidence, the solver input |
| `sampler.dfy` | `Sampler` | the salient-point tests, the lattice scan, the fallback, the NaN filter |
| `iaicp.dfy` | `Registration` | class `Iaicp` with the fields of `src/iaicp.h`, the setup calls, `sampleSource`, one iteration, `iterateLevel`, `run` |

Things outside the core are inputs to the model:

- The PCL/Eigen numerics are the function fields of `Geometry.Ops`:
  - point transformation
  - vector norm
  - `colorsimGray`
  - `getresidual`
  - the weighted rigid solver
  - transform composition
  - the pose decomposition and recomposition
  - the identity
- `colorsimGray` and `getresidual` return `None` where the source gets NaN.
- A point without depth is `Point.finite == false`.
- `rand()` is an injected stream `nat -> nat` read at a cursor, the field `draws`.
- The camera intrinsics that the constructor reads from the parameter server are constructor arguments.

## Model

| member | source | states |
|---|---|---|
| Geometry.GridIndex | src/iaicp.cpp:51-67 | the row-major storage index `row*width+col` of a pixel is given exactly when the pixel is inside the grid; it lies in [0, w*h) and addresses that column and row |
| Geometry.UpIndexAsWrittenLeavesGrid | src/iaicp.cpp:78 | for lattice rows 2 and 3, the `(j-4)*width+i` read in size_t wraps and lands at or beyond the end of the grid |
| Geometry.UpIndexAsWrittenExample | src/iaicp.cpp:78 | on a 640 x 480 grid at lattice site (3, 3) the up-neighbour read is out of range |
| Geometry.LeftIndexAsWrittenWrapsRow | src/iaicp.cpp:77 | for lattice columns 2 and 3, the `j*width+i-4` read addresses column w+i-4 of the previous row, a pixel the bounds-checked accessor reports as absent |
| Pose.PullDownSpec | src/iaicp.cpp:238 | the first loop leaves an angle at most pi, moved by whole turns, and leaves an angle already at most pi alone |
| Pose.PushUpSpec | src/iaicp.cpp:239 | the second loop leaves an angle at least -pi, moved by whole turns, and leaves an angle already at least -pi alone |
| Pose.WrapSpec | src/iaicp.cpp:237-240 | one wrapped angle lies in [-pi, pi], differs from the input by a whole number of turns, and is the input when that was already in range |
| Pose.WrapIdempotent | src/iaicp.cpp:237-240 | wrapping a wrapped angle changes nothing |
| Pose.WrapPoseSpec | src/iaicp.cpp:235-241 | checkAngles keeps components 0..2, puts components 3..5 in [-pi, pi], and is idempotent |
| Pose.CheckAngles | src/iaicp.cpp:235-241 | the in-place loops leave the array equal to the wrapped pose of its old contents |
| Pose.ToVector | src/iaicp.cpp:248-254 | the pose vector of a transform: its translation is the decomposition's translation and every angle lies in [-pi, pi] |
| Robust.Weight | src/iaicp.cpp:166-167 | the weight 6/(5+u^2) lies in (0, 6/5] |
| Robust.WeightPeak | src/iaicp.cpp:166-167 | the weight is 6/5 exactly when the residual equals the median |
| Robust.WeightSymmetric | src/iaicp.cpp:166-167 | residuals at equal distance above and below the median get equal weights |
| Robust.WeightNonIncreasing | src/iaicp.cpp:166-167 | the weight never grows as the residual moves away from the median, and shrinks strictly when the distance grows strictly |
| Robust.InsertSpec | src/iaicp.cpp:195 | inserting into a sorted sequence keeps it sorted and adds exactly the inserted element |
| Robust.SortSpec | src/iaicp.cpp:195 | the sort is ordered and a permutation of its input |
| Robust.CountSort | src/iaicp.cpp:195 | sorting does not change how many residuals pass a test |
| Robust.MedianSplitsPopulation | src/iaicp.cpp:194-196 | at least half the residuals lie at or below the median, and at least half at or above it |
| Robust.MedianIndexAsWrittenParity | src/iaicp.cpp:196 | the index `n - n/2` equals the upper-median index n/2 for an even count and is one past it for an odd count |
| Robust.MedianIndexAsWrittenInRange | src/iaicp.cpp:196 | the index `n - n/2` is inside a population of n exactly when n >= 2 |
| Robust.MedianAsWrittenCounterexample | src/iaicp.cpp:196 | on residuals 1, 2, 3 the index `n - n/2` reads 3, which fewer than half lie at or above; the median reads 2 |
| Robust.Mad | src/iaicp.cpp:197-201 | the scale 1.4826 * MAD + 1e-11 is at least 1e-11, so it is a valid divisor |
| Robust.RobustScale | src/iaicp.cpp:194-201 | the copy is sorted, the median read (at the corrected index n/2), the copy overwritten by absolute deviations and sorted again; the results are the median and the scale of the population |
| Robust.ToWeights | src/iaicp.cpp:202-204 | every residual is replaced in place by its weight under the given median and scale, and every weight lies in (0, 6/5] |
| Search.Score | src/iaicp.cpp:155-168 | a candidate in the disc that is scored gets the combined weight 100*w_geo * 100*w_int, in (0, 14400], at the offset examined |
| Search.ScoreSpec | src/iaicp.cpp:155-168 | a candidate is scored exactly when it lies in the disc xx^2+yy^2 <= 16, its pixel lies in [2, w-3] x [2, h-3], and both its distance and its intensity residual are defined |
| Search.OffsetAtStep | src/iaicp.cpp:153-154 | every offset (xx, yy) in [-4, 4]^2 is examined at its own step in [0, 81), counted in the loops' order |
| Search.ScanBounds | src/iaicp.cpp:150-177 | the tracked weight is at least its start 1e-10, there is a candidate exactly when it is above 1e-10, and that candidate carries the tracked weight |
| Search.ScanMaximal | src/iaicp.cpp:169-173 | the tracked weight is at least every score seen so far |
| Search.ScanWitness | src/iaicp.cpp:169-173 | the kept candidate is scored at an examined step with exactly the tracked weight, and every earlier step scored strictly lower, so the first maximum wins ties |
| Search.BestMatchSpec | src/iaicp.cpp:150-177 | the search result is the first candidate of maximum weight over the whole disc, and it exists exactly when some candidate beats 1e-10 |
| Search.SearchNeighbourhood | src/iaicp.cpp:150-177 | the nested loops compute the best match, with weight at least 1e-10 and a candidate exactly when the weight exceeds 1e-10 |
| Search.AcceptGuardAsWrittenAlwaysPasses | src/iaicp.cpp:179 | `maxWeight > 0` holds after every search, including one that scored nothing and left `tgtpt` unset |
| Search.DrawSpec | src/iaicp.cpp:140-190 | an accepted pair joins the warped drawn point to a target grid point within 1000 of the untransformed point, with the distance and the intensity residual of the two as its residuals |
| Search.GatherSpec | src/iaicp.cpp:139-191 | the draw loop keeps at most 150 pairs, consumes at most one rand() value per pass and at least one per accepted pair, runs every pass when it stops below 150, and each pair is the outcome of one of its draws |
| Search.CollectKeepsAccepted | src/iaicp.cpp:139-191 | for any draw outcomes, the loop keeps its earlier pairs, appends the pair of every accepted draw it makes in draw order and nothing else, and when it reaches 150 pairs it stops right after the draw of the 150th |
| Search.GatherIsCollect | src/iaicp.cpp:139-191 | the draw loop on a scene is that loop over the scene's draws |
| Search.GatherAccepted | src/iaicp.cpp:139-191 | the number of new pairs is the number of accepted draws made; the pair of accepted draw d sits at the position counted by the accepted draws before d; a loop stopping at 150 stops right after an accepted draw |
| Search.DrawCorrespondences | src/iaicp.cpp:134-191 | the four lists have equal length, at most 150, pair by pair what the draws accepted; the cursor advances by at most the number of salient points |
| Search.SensorReliability | src/iaicp.cpp:223 | the depth confidence 1/(0.0012+0.0019(z-0.4)^2) lies in (0, 1/0.0012] |
| Search.CollectPairs | src/iaicp.cpp:218-226 | each pair reaches the solver with weight w_geo * w_int * confidence, positive when both weights are |
| Sampler.Inspect | src/iaicp.cpp:51-98 | the chain of `continue` tests keeps a lattice site exactly when it is salient (with depth, at most 8 deep, warping inside the 3-pixel border, on a smooth surface, and textured, contrasting or bent) |
| Sampler.LatticeCountSpec | src/iaicp.cpp:49-50 | step k of a lattice loop is inside the bound `extent - begin - 4` exactly when k is below the lattice count |
| Sampler.KeptSitesSpec | src/iaicp.cpp:49-107 | a pixel is among the kept sites of the first n columns exactly when it is a salient lattice site in one of them |
| Sampler.LatticeSitesSpec | src/iaicp.cpp:49-107 | every kept site is a salient lattice site and every salient lattice site is kept |
| Sampler.LatticePointsSpec | src/iaicp.cpp:49-107 | each kept point is the source point of a salient lattice site, has depth and is at most 8 deep |
| Sampler.ScanLattice | src/iaicp.cpp:46-108 | the nested loops append exactly the lattice points and `cnt` counts them |
| Sampler.AppendFallback | src/iaicp.cpp:109-113 | 1000 random source points are appended after the kept ones, and 1000 rand() values are consumed |
| Sampler.RemoveNaN | src/iaicp.cpp:115 | the filter never lengthens the cloud and leaves only points with depth; a point is in the result exactly when it is in the cloud and has depth |
| Sampler.RemoveNaNAppend | src/iaicp.cpp:115 | filtering two clouds one after the other is filtering each and concatenating: the points with depth keep their order |
| Sampler.RemoveNaNKeepsFinite | src/iaicp.cpp:115 | a cloud whose points all have depth passes the filter unchanged |
| Sampler.RemoveNaNKeepsFinitePrefix | src/iaicp.cpp:115 | a prefix of points with depth passes the filter unchanged |
| Sampler.Sample | src/iaicp.cpp:42-117 | sampling from a rand() cursor yields the sampled cloud, every point of which has depth, and moves the cursor on by the draws sampling makes |
| Sampler.SampledSpec | src/iaicp.cpp:42-117 | the salient cloud is the kept points followed, when fewer than 200, by the fallback points with depth; every point of it has depth |
| Registration.SolverInputWeights | src/iaicp.cpp:218-226 | every pair reaches the solver with a weight in (0, (6/5)^2/0.0012] |
| Registration.ReestimatedSpec | src/iaicp.cpp:193-227 | after an iteration, each new median splits its population in half, both scales are at least 1e-11, and the solver gets every pair with a weight in (0, 1200] |
| Registration.Reestimate | src/iaicp.cpp:193-228 | the statistics (medians at the corrected index n/2), the weights, the solve and the pose round trip compute the estimate the iteration specifies |
| Registration.ScheduleDistancesTruncate | src/iaicp.cpp:123-127 | 0.15, 0.06 and 0.02 stored in an `int` are all 0 |
| Registration.ScheduleSpec | src/iaicp.cpp:119-129 | the schedule is 7 updates at offset 7, 7 at offset 3 and 15 at offset 1: 29 in all |
| Registration.Step | src/iaicp.cpp:133-229 | one pass keeps both scales positive and the pairs two by two and at most 150, and moves the rand() cursor forward by at most the number of salient points |
| Registration.Steps | src/iaicp.cpp:131-133 | passes run one after the other, each from the state the previous one left, keep the state usable |
| Registration.StepsConcat | src/iaicp.cpp:119-129 | running two lists of passes one after the other is running their concatenation: nothing is reset between levels |
| Registration.StepsRepeat | src/iaicp.cpp:133 | one more iteration of a level is one more pass at the same offset after the earlier ones |
| Registration.ScheduleSteps | src/iaicp.cpp:121-128 | the three levels one after the other are the 29 passes of the schedule, in order |
| Registration.StepsDraws | src/iaicp.cpp:133-142 | n passes never move the rand() cursor back and consume at most n rand() values per salient point |
| Registration.PassIsStep | src/iaicp.cpp:133-229 | a pass that stores the drawn pairs and the re-estimate (or keeps the estimate when there are no pairs) computes exactly one pass |
| Registration.Iaicp.constructor | src/iaicp.cpp:6-16 | both transforms start at the identity |
| Registration.Iaicp.SetupSource | src/iaicp.cpp:20-25 | the source frame is stored and the intensity statistics reset to (0, 45) |
| Registration.Iaicp.SetupTarget | src/iaicp.cpp:27-33 | the target frame is stored, the geometric statistics reset to (0, 0.02) and the intensity ones to (0, 45) |
| Registration.Iaicp.SetupPredict | src/iaicp.cpp:34-39 | the prediction also becomes the current transform |
| Registration.Iaicp.SampleSource | src/iaicp.cpp:42-117 | the salient cloud becomes the sampled cloud of the current frames, and the cursor advances by the draws sampling makes |
| Registration.Iaicp.Iterate | src/iaicp.cpp:133-229 | the new state is one pass from the old one: the pairs drawn with the previous pass's statistics are stored and, when there are any, both statistics and the transform are replaced by the re-estimate |
| Registration.Iaicp.IterateLevel | src/iaicp.cpp:131-231 | the new state is maxIter passes at the offset from the old one (named by the ghost parameters), and the frames and salient points are unchanged |
| Registration.Iaicp.Run | src/iaicp.cpp:119-129 | the salient cloud is the sampled one, and the state is the 29 passes of the schedule from the state after sampling, with nothing reset between levels |

## Left out

- ROS parameters and console output. The intrinsics are constructor arguments, and the `cout` lines have no counterpart.
- Single-precision floating point. Arithmetic is on mathematical reals. `float` rounding, NaN propagation inside the arithmetic, and `pow`/`sqrt` are not modelled. The disc test `sqrt(xx^2+yy^2) > 4` is stated exactly as `xx^2+yy^2 <= 16`.
- PCL and Eigen numerics. These are uninterpreted functions in `Geometry.Ops`: the rigid solver, `getTransformation`, `getTranslationAndEulerAngles`, transform composition, point transformation, norms, `colorsimGray` and `getresidual`.
- Registration.Iaicp.Iterate: when no pair is accepted, the model leaves the statistics and the transform unchanged. The source reads element 0 of an empty vector there, which is undefined behaviour.
- Sampler.Frames.Valid: requires a frame of at least 7 x 7. Below that, the size_t loop bound `width-begin-4` wraps around.
- Geometry.Project: the `int(floor(...))` conversion is the mathematical floor. Overflow of the 32-bit conversion is not modelled.
- Sampler.Inspect: the neighbour reads at ±4 use the bounds-checked accessor. A neighbour outside the grid gives no similarity (see Findings).
- Robust.RobustScale, Registration.Reestimate: the median is read at index n/2, not the source's n - n/2 (see Findings). Registration.Reestimated, Robust.Median and Robust.MedianIndex read it the same way. For every odd number of pairs the source reads the element one past the median (Robust.MedianIndexAsWrittenParity). The statistics then differ from the model's unless that element ties with the median, and the next iteration's weights differ with them. With one pair the source reads out of range and the model reads the element.
- Search.Draw: uses the corrected guard `maxWeight > 1e-10`. The source's `maxWeight > 0` passes even when no candidate was found (see Findings).
- Search.SensorReliability: states only the bounds (0, 1/0.0012]. It does not state that the maximum is reached exactly at depth 0.4.
- `maxDist`: `iterateLevel` never reads it (the test using it is commented out). `run` passes 0.15, 0.06 and 0.02 through an `int`, which truncates them to 0. The model passes the truncated values and ignores them.
- `geoMedian` is read only for the absolute deviations at line 198. The geometric weights (lines 166 and 203) always use median 0. The model stores it as the source does.
- `removeNaNFromPointCloud` is modelled only as the order-preserving filter on depth. The index vector it fills is dropped.
- The fallback appends its 1000 points to the kept ones. `sampleSource` does not reset the intensity statistics; `setupSource` does.
- Angles are wrapped into [-pi, pi], as the loops do. An angle of exactly -pi stays -pi.

## Findings

| source | as written | input that shows it | evidently intended | confidence | as-written member | corrected member |
|---|---|---|---|---|---|---|
| src/iaicp.cpp:196 | the median is read at index `n - n/2` | three residuals 1, 2, 3: the read gives 3, and only one of three lies at or above it; with one residual the read is out of range | the upper median at index `n/2` | not executed | Robust.MedianAsWrittenCounterexample | Robust.MedianSplitsPopulation |
| src/iaicp.cpp:179 | a pair is accepted when `maxWeight > 0`, but `maxWeight` starts at 1e-10 and never decreases | a projected pixel whose whole disc is outside the border or without depth: nothing is scored, yet the guard passes and the unset `tgtpt` is used | accept only when the search found a candidate, `maxWeight > 1e-10` | not executed | Search.AcceptGuardAsWrittenAlwaysPasses | Search.BestMatchSpec |
| src/iaicp.cpp:77-78 | the sampler's similarity reads `(j-4)*width+i` and `j*width+i-4` for lattice sites with j or i as small as 2 | lattice site (3, 3) on a 640 x 480 frame: `(3-4)*640+3` wraps in size_t past the end of the cloud; site (i, j) = (2, 4) reads column 638 of row 3 as its left neighbour | a bounds-checked neighbour read that gives no similarity outside the grid | not executed | Geometry.UpIndexAsWrittenLeavesGrid | Geometry.GridIndex |
