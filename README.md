# Random Dot Kinematogram — verified model of the dot engine

This project models the per-frame engine of a Random Dot Kinematogram (RDK)
written in JavaScript (`index.js`). Dots live inside an aperture, which is a
circle, ellipse, square or rectangle. There are one or more dot sets, and
each frame shows the next set in turn (round robin). Within a set, each dot
carries an update type that is fixed when the set is made. The six RDK
variants of Scase, Braddick and Raymond (1996) give the types:

- variants 1–3 ("same" signal selection): the dots with index below
  nDots × coherence (⌈nDots × coherence⌉ of them) move in the coherent
  direction, and the rest are noise (random position, random walk or random
  direction);
- variants 4–6 ("different" signal selection): every dot flips a
  coherence-weighted coin each frame.

Each frame, the engine does the following to each dot, in this order:

1. moves it by its policy;
2. ages it;
3. resamples it anywhere if its life has ended;
4. reinserts it if the source's out-of-bounds test reports it outside,
   either anywhere (type 1) or on the opposite edge (type 2).

For a circle or ellipse that test compares the dot with boundary points
computed by a square root, which is NaN beyond a half-axis (see Findings).
The engine is modelled with the test as written; the step with the test as
evidently meant is modelled beside it, with the conditions under which the
two agree.

The model is in Dafny:

- `arith.dfy` (`Arith`): real and integer arithmetic facts used by the proofs.
- `params.dfy` (`Params`): the run configuration, the aperture half-axes, the
  coherent jump, and `randomNumberBetween`.
- `geometry.dfy` (`Geometry`): the ellipse boundary functions and the
  out-of-bounds test, both as the source writes it and as it is evidently
  meant.
- `dots.dfy` (`Dots`): the dot record, the four motion primitives,
  `resetLocation`, the velocity setters and `lifeEnded`.
- `boundary.dfy` (`Boundary`): `reinsertOnOppositeEdge`, with its edge
  weights.
- `init.dfy` (`DotSets`): `makeDotArray` and `makeDotArray2d`.
- `frame.dfy` (`Frame`): the per-dot step and the `Engine` class. The class
  holds the dot sets as arrays, which `updateDots` changes in place, and the
  index of the current set.

Every `Math.random()` draw is an explicit input in [0, 1). The draws a dot
consumes are grouped in records: `LocationDraw`, `EdgeDraw`, `InitDraw` and
`DotDraws`. An angle enters through its cosine and sine (`Direction`). A
square root enters through its square: `rootRho` in `LocationDraw`, and a
`sqrt` function parameter, constrained by `IsSqrt`, in the boundary
functions.

## Model

| member | source | states |
|---|---|---|
| Params.InitializeApertureParameters | index.js:204-214 | Circle and square: both half-axes are apertureWidth/2. Ellipse and rectangle: apertureWidth/2 and apertureHeight/2. The centre and shape are copied. A valid configuration gives positive half-axes. |
| Params.CalculateCoherentJumpSizeX | index.js:192-195 | The x jump has the sign of the direction's cosine. |
| Params.CalculateCoherentJumpSizeY | index.js:198-201 | The y jump has the opposite sign to the direction's sine, because screen y points down. |
| Params.CoherentJumpLength | index.js:192-201 | For a unit direction, the coherent jump is exactly moveDistance long. |
| Params.RandomNumberBetween | index.js:638-640 | A draw in [0,1) lands in [lowerBound, upperBound), or in (upperBound, lowerBound] when the bounds are reversed. Equal bounds give that bound. |
| Geometry.RadicandAtXSign | index.js:588-597 | The y-boundary radicand is non-negative exactly when x is within the horizontal half-axis of the centre. |
| Geometry.RadicandAtYSign | index.js:600-609 | The x-boundary radicand is non-negative exactly when y is within the vertical half-axis. |
| Geometry.YValuePositive | index.js:588-591 | The upper boundary point is at or below the centre on screen (y ≥ cy). It satisfies (y−cy)² = va²·(1 − (x−cx)²/ha²). |
| Geometry.YValueNegative | index.js:594-597 | The same equation, on the other side (y ≤ cy). |
| Geometry.XValuePositive | index.js:600-603 | x ≥ cx and (x−cx)² = ha²·(1 − (y−cy)²/va²). |
| Geometry.XValueNegative | index.js:606-609 | x ≤ cx, with the same equation. |
| Geometry.YBoundaryOnEllipse | index.js:588-597 | Both y-boundary points lie on the ellipse (level exactly 1). |
| Geometry.XBoundaryOnEllipse | index.js:600-609 | Both x-boundary points lie on the ellipse. |
| Geometry.BeyondXBoundaries | index.js:446-450 | Where the x-boundaries exist: x is left of the negative boundary or right of the positive one exactly when the point is outside the ellipse. |
| Geometry.BeyondYBoundaries | index.js:446-450 | The same for the y comparisons. |
| Geometry.OutOfBoundsAsWrittenMeaning | index.js:446-464 | Round shapes: the source's test holds exactly when the point is outside the ellipse and within the half-axis on at least one axis. Box shapes: it is the box test. |
| Geometry.CornerPointReportedInBounds | index.js:448-454 | A circle of radius 100 at the origin and the point (110, 110): outside the circle, yet the source's test says in bounds. |
| Geometry.ShortMoveStaysNearAxis | index.js:446-454 | From a point inside a circle or ellipse, a move of at most a quarter half-axis per axis lands within the half-axis on at least one axis, where the source's test compares with numbers. |
| Dots.ResetLocation | index.js:612-635 | Only the position changes. |
| Dots.ResetLocationInAperture | index.js:612-635 | For a valid aperture and draw, the resampled position is in bounds. Round shapes: its ellipse level is the drawn rho. Box shapes: x is in [cx−ha, cx+ha) and y in [cy−va, cy+va). |
| Dots.ConstantDirectionUpdate | index.js:484-490 | The dot moves by (vx, vy), and that move becomes the latest move. Nothing else changes. |
| Dots.RandomWalkUpdate | index.js:493-503 | The dot moves by (cos θ·md, −sin θ·md), recorded as the latest move, and the step is exactly moveDistance long. Nothing else changes. |
| Dots.RandomDirectionUpdate | index.js:506-512 | The dot moves by (vx2, vy2), recorded as the latest move. Nothing else changes. |
| Dots.SetVxVy | index.js:467-471 | Only vx and vy change, and the coherent step has length moveDistance. |
| Dots.SetVx2Vy2 | index.js:474-481 | Only vx2 and vy2 change, and the alternate step has length moveDistance. |
| Dots.LifeEnded | index.js:428-443 | The three cases: negative dotLife gives false and a counter of 0; counter ≥ dotLife gives true and a counter of 0; otherwise false with the dot unchanged. Only the counter can change. |
| Dots.AgeingKeepsLifeInRange | index.js:405-410 | Increment then lifeEnded keeps the counter in range. A positive life ends exactly when the counter was dotLife−1, so every dotLife frames. |
| Dots.InitialLifeCount | index.js:242 | floor(randomNumberBetween(0, dotLife)) is in [0, dotLife) for a positive life, and in [dotLife, 0] otherwise. |
| Boundary.MoveSize | index.js:555-558 | \|dx\| + \|dy\| is never negative, and it is zero exactly when the latest move is (0, 0), the case where the weights divide 0 by 0. |
| Boundary.EdgeWeightsOf | index.js:555-562 | Scaled by (va+ha)(\|dx\|+\|dy\|), the vertical-edge weight is va·\|dx\| and the horizontal-edge weight is ha·\|dy\|. |
| Boundary.VerticalEdgeShare | index.js:555-566 | The vertical edges are chosen exactly when r·(va\|dx\| + ha\|dy\|) < va\|dx\|. |
| Boundary.ReinsertOnOppositeEdge | index.js:515-585 | Only the position changes. Round shapes: the new position and the position before the latest move are point-symmetric about the centre. Box shapes, vertical edge: the right edge exactly when moving left; y is in [cy−va, cy+va). Horizontal edge: the bottom edge exactly when moving up; x is in [cx−ha, cx+ha). |
| Boundary.ReflectionKeepsLevel | index.js:517-534 | Reflection through the centre keeps the ellipse level. |
| Boundary.OppositeEdgeInAperture | index.js:515-585 | The reinserted dot is in bounds: always for box shapes, and for round shapes when the position before the latest move was inside. |
| Boundary.WorkedExample | index.js:539-552 | For ha=100, va=50 and a move of (3, 4): the weights are 1/7 and 8/21, and the vertical share is 3/11. |
| DotSets.InitDot | index.js:229-314 | A new dot starts in bounds, with its life counter in range and no latest move. |
| DotSets.MakeDotArray | index.js:229-314 | Dot i of the set is `InitDot` of index i and draw i, so the set has exactly nDots dots. |
| DotSets.MakeDotArray2d | index.js:217-226 | There are nSets sets, each made by makeDotArray from its own draws. |
| DotSets.CoherentPrefixCount | index.js:249-286 | When the coherent dots are exactly the indices below x, a prefix of length k holds min(k, ⌈x⌉) of them. |
| DotSets.CoherentTags | index.js:249-286 | For variants 1–3, dot i is coherent exactly when i < nDots·coherence. |
| DotSets.CoherentDotCount | index.js:249-286 | For variants 1–3, a set holds exactly ⌈nDots·coherence⌉ coherent dots. |
| DotSets.CoherentCountRoundsUp | index.js:169 | Every variant-1 set of 10 dots at coherence 0.22, whatever its draws and aperture, holds 3 coherent dots, not 2. |
| DotSets.NewSetInAperture | index.js:229-314 | With valid draws, every dot of a new set is in bounds and its life counter is in range. |
| Frame.Dispatch | index.js:373-402 | Only position and latest move change. Constant-direction dots, and mixed dots whose coin is below the coherence, move by (vx, vy); random-position types are resampled; random-walk types move by (cos θ·md, −sin θ·md) of the drawn angle, a step of length moveDistance; random-direction types move by (vx2, vy2); an empty type stays put. |
| Frame.MoveDot | index.js:373-402 | The source's chain of update-type tests computes `Dispatch`. |
| Frame.Reinsert | index.js:413-422 | Type 1 resamples and type 2 reinserts on the opposite edge. Any other code leaves the dot unchanged. Only the position can change. |
| Frame.StepDot | index.js:369-423 | One iteration of the update loop as the source runs it, with the NaN-affected out-of-bounds test. It keeps the update type and the four steps. |
| Frame.StepDotIntended | index.js:369-423 | The same iteration with the out-of-bounds test as meant. It keeps the update type and the four steps. |
| Frame.StepAgreesWithIntended | index.js:413 | The two steps agree for a square or rectangle, and for a circle or ellipse whenever the motion leaves the dot inside or within one half-axis. |
| Frame.IntendedReflects | index.js:413-420 | With the intended test and reinsertion type 2, a dot found outside a circle or ellipse is reflected through the centre from where its last step started. |
| Frame.CornerStart | index.js:229-314 | A one-set run of variant 1 in a circle of radius 100 at the origin, with coherence 1, infinite life, reinsertion type 2, moveDistance 200 and direction (cos, sin) = (0.6, −0.8): a valid configuration whose start-up, with rho 0, builds a constant-direction dot at the centre with step (120, 160). |
| Frame.UnseenDotDrifts | index.js:404-422 | A constant-direction dot with infinite life whose step lands it beyond both half-axes of a circle or ellipse is only moved, with its counter at 0; it is not reinserted. |
| Frame.UnseenDotDriftsAway | index.js:404-422 | A dot of that kind that starts at or beyond the centre on both axes, with a step longer than each half-axis and pointing away, is after k frames of the source's step the dot moved k times by its step: it is never reinserted. |
| Frame.CornerDrift | index.js:484-490 | k constant-direction steps take the `CornerStart` dot to (120k, 160k), which is outside the circle for every k ≥ 1. |
| Frame.CornerEscape | index.js:413 | For the `CornerStart` run, after k frames of the source's step the dot is at (120k, 160k), outside the circle for every k ≥ 1 and never reinserted. |
| Frame.CentreDotReturnsWhenIntended | index.js:413-420 | With the intended test and reinsertion type 2, a constant-direction dot at the centre of a circle or ellipse whose step leaves it is reflected back to the centre. |
| Frame.CornerReturnsWhenIntended | index.js:413-420 | The intended step brings the `CornerStart` dot back to the centre after its first move. |
| Frame.UpdateDot | index.js:369-423 | The loop body's statements, in order, compute `StepDot`. |
| Frame.DispatchUndo | index.js:373-402 | After the motion, a dot that was inside is still inside, or its position minus its latest move is where it was. |
| Frame.IntendedStepKeepsInAperture | index.js:404-422 | With the intended test, reinsertion type 1 or 2 and valid draws, a dot inside the aperture is inside again after its frame. |
| Frame.WalkStepIsShort | index.js:493-503 | A random-walk step of a short moveDistance is short, whatever the angle. |
| Frame.CoherentJumpIsShort | index.js:192-201 | With a unit direction, the coherent jump of a short moveDistance is short. |
| Frame.AssignMotionShort | index.js:249-312 | With a short moveDistance and unit directions, the steps the variant tests assign (the coherent jump, the alternate step, or none) are short. |
| Frame.InitDotShortSteps | index.js:229-314 | A dot that start-up builds has short steps when moveDistance is short. |
| Frame.NewSetShortSteps | index.js:229-314 | With valid draws and a short moveDistance, every dot of a new set has short steps. |
| Frame.ShortStepsStayNearAxis | index.js:373-402 | From inside a circle or ellipse, a dot whose steps are short ends its motion inside or within one half-axis. |
| Frame.StepKeepsInAperture | index.js:404-422 | The source's step, with reinsertion type 1 or 2 and valid draws, keeps a dot inside the aperture: always for a square or rectangle, and for a circle or ellipse when the dot's steps are short. |
| Frame.StepKeepsLifeRange | index.js:404-410 | The life counter stays in range over a frame. |
| Frame.ExpiredDotIsResampled | index.js:404-410 | A dot in the last frame of a finite life ends at the position drawn for the life reset, with a counter of 0. The resample comes before the out-of-bounds check, and any motion is discarded. |
| Frame.InsideDotOnlyMovesAndAges | index.js:404-422 | A dot whose life continues and whose motion kept it inside is only moved and aged. |
| Frame.OutsideDotIsReinserted | index.js:413-422 | A dot whose life continues and whose motion took it outside is passed, aged, to the reinsertion. |
| Frame.Frames | index.js:369-423 | Successive frames of a one-set run keep the dot's update type and its four steps. |
| Frame.StepAll | index.js:369-423 | Dot i of the stepped set is dot i stepped with draw i. |
| Frame.StepAllKeepsHealthy | index.js:369-423 | Under the source's step, a set whose dots are all in bounds with counters in range stays so over a frame: always for a square or rectangle, and for a circle or ellipse when every dot's steps are short. |
| Frame.StepAllKeepsSteps | index.js:369-423 | A frame changes no dot's coherent or alternate step, so short steps stay short. |
| Frame.StepInPlace | index.js:369-423 | The loop over the current set's array leaves it holding `StepAll` of its old contents. |
| Frame.NextSet | index.js:359-363 | Within [0, nSets) the next index is (currentSet+1) mod nSets. With one set it is always 0. |
| Frame.SetAfterIsModular | index.js:359-363 | After k frames from set s, set (s+k) mod nSets is shown, so each set returns every nSets frames. |
| Frame.Engine.constructor | index.js:158-176 | Start-up: the aperture comes from the configuration; each set's array is makeDotArray of its draws; the square root is the one given; currentSet is 0. With valid draws, all dots start healthy. When, moreover, moveDistance is at most a quarter of each half-axis, every dot starts with short steps. |
| Frame.Engine.UpdateDots | index.js:356-425 | Advances currentSet round robin and steps the new current set in place (each dot is the source's `StepDot` of its old value). Other sets are untouched and no dot's steps change. With reinsertion on and valid draws, all sets stay healthy for a square or rectangle, and for a circle or ellipse while every dot's steps are short. |

## Left out

- Drawing: canvas set-up, `draw`, the fixation cross, dot radius and colours (index.js:137-149, 317-353). They have no effect on dot state.
- Video capture with CCapture (index.js:109-131, 659). It is a foreign library with a fire-and-forget side effect.
- The `animateDotMotion` / `requestAnimationFrame` loop and its stop flag (index.js:643-664). This is host scheduling; one frame is `Engine.UpdateDots`, and the round-robin lemma covers repeated frames.
- The implementations of `Math.random`, `Math.cos`, `Math.sin` and `Math.sqrt`:
  - a draw is an input in [0, 1);
  - an angle is given by its cosine and sine;
  - a square root is given by its square.
- The order in which the source consumes `Math.random()` values. Each use has its own named slot instead.
- IEEE floating point: positions and the product nDots·coherence are exact reals, with no rounding and no overflow. In doubles 100·0.07 is 7.000000000000001, so the source makes 8 coherent dots where `CoherentDotCount` counts 7. The NaN that arises in the model is written out explicitly: the out-of-bounds test and the edge weights for a zero move.
- The aperture centre taken from `window.innerWidth/innerHeight` (index.js:45-46). It is a configuration input here.
- Shape codes other than 1–4. `Shape` has exactly four values. The source leaves the half-axes undefined for any other code.
- The statistical claims: uniform sampling of the aperture area, the edge-choice probability over many draws, and the coin's long-run coherence. They are distributional. `VerticalEdgeShare` and the mixed-type coin give the per-draw condition that they rest on.
- Dots are values (a `Dot` datatype) updated by whole-record assignment, not objects changed field by field. The source never shares a dot object between array slots, so the two agree. Where the source changes a dot in place, the model returns the changed record:
  - `lifeEnded(dot)` (index.js:408) resets `dot.lifeCount` (index.js:431, 436) inside an `if` condition; `LifeEnded` returns a `LifeVerdict` that carries both the boolean and the changed dot;
  - the counter increment (index.js:405) and the `dot.updateType = …` writes of the initializer are record updates;
  - `setvx2vy2(dot)` at index.js:283 and 307 is written as an assignment.
- Configuration is not validated. The model follows the code rather than failing fast:
  - an unknown RDK code leaves the update type empty, and the motion step leaves such a dot in place; it is still aged, resampled when its life ends and checked against the aperture;
  - an unknown reinsertion code never reinserts, so `StepKeepsInAperture` and `Engine.UpdateDots` promise that dots stay in bounds only for reinsertion types 1 and 2.
- A negative radicand in the ellipse boundary functions is not clamped to the boundary. The model follows the code, where it is NaN (see Findings): `StepDot`, `UpdateDot` and `Engine.UpdateDots` use the test as written.
- Frame.StepKeepsInAperture, Frame.StepAllKeepsHealthy and Frame.Engine.UpdateDots promise that dots stay inside a circle or ellipse only when moveDistance is at most a quarter of each half-axis, so that every step a dot can take is at most that long on each axis. `Engine.constructor` establishes this for every dot from that bound on moveDistance, and `Engine.UpdateDots` preserves it, so it holds for any number of frames. A longer step can carry a dot beyond both half-axes, where the source's test does not see it (`CornerEscape`). The bound is sufficient, not tight.
- The split between coherent and noise dots is not rounded to the nearest integer. The code compares i < nDots·coherence, so the model counts ⌈nDots·coherence⌉ coherent dots.
- The edge choice in `Boundary.ChooseVerticalEdge` when the latest move is (0, 0):
  - both weights are 0/0 = NaN, and the comparison is false;
  - the model therefore takes a horizontal edge, the top one;
  - `EdgeWeightsOf` itself is defined only for a non-zero move.

## Findings

| source | as written | input that shows it | evidently intended | confidence | as-written member | corrected member |
|---|---|---|---|---|---|---|
| index.js:448-454 | For a circle or ellipse, outOfBounds compares the dot with the boundary points at its own x and y. Beyond a half-axis the square root's argument is negative and the boundary is NaN; every comparison with NaN is false. So a point beyond both half-axes, in a corner of the bounding box, is reported in bounds and is never reinserted. | circle of diameter 200 centred at (0, 0), dot at (110, 110); as a run, moveDistance 200 along (0.6, −0.8) from the centre, whose dot reaches (120, 160) in one frame | outside the ellipse, i.e. ((x−cx)/ha)² + ((y−cy)/va)² > 1 | not executed | Geometry.OutOfBoundsAsWritten and Frame.StepDot (exhibited by Geometry.CornerPointReportedInBounds, Frame.UnseenDotDriftsAway and Frame.CornerEscape) | Geometry.OutOfBounds and Frame.StepDotIntended (proved in Frame.IntendedStepKeepsInAperture and Frame.CornerReturnsWhenIntended; Frame.StepAgreesWithIntended says when the two steps agree) |
