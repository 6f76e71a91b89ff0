# SAT.js collision test in Dafny

This project models the collision core of `SAT.js`. It is a small browser demo that
moves convex polygons around and uses the separating-axis theorem to decide whether
two of them overlap. When they do, it reports the minimum translation vector: a
signed distance and the axis it was measured along.

The model has three modules:

- `Vectors` (`vectors.dfy`): the 2-D vector primitives `vec2_sub`, `vec2_perp`,
  `vec2_dot` and `vec2_normalize`. A vector is the value `Vec2(x, y)` over reals.
- `Geometry` (`geometry.dfy`): the polygon.
  - `Polygon` is a class over an `array<Vec2>`. Its method `Move` shifts the
    vertices in place, as `move` does.
  - `polygon_project` is the method `ProjectPolygon`, a loop proved equal to the
    function `Project`. `Project` is a left fold (`Hull`) of `Math.min`/`Math.max`
    over the dot products, in vertex order.
  - `polygon_axes` is the function `Axes`, as the source's `.map` is: one
    normalised perpendicular per edge, the last edge closing the loop.
- `Sat` (`sat.dfy`): `sat_mtv`.
  - The method `SatMtv` runs two loops, `TestAxesOfA` and `TestAxesOfB`. Each is
    proved equal to the function `Run` for its owner. `SatMtv` is therefore equal
    to the reference function `MtvSpec`.
  - `MtvSpec` is rewritten as one fold (`Scan`) over every axis, A's first. The
    lemmas about that fold give:
    - when the result is null;
    - what a non-null result holds;
    - that it is the first axis of least absolute candidate distance;
    - that it does not change when both polygons move by the same vector;
    - that swapping the polygons keeps the depth when both calls report a collision;
    - that whether it is null does not depend on the magnitude used to normalise
      the axes.

The model follows the code's two inconsistencies between the loops, on purpose:

- **Gap test.** A's axes test for a gap with `>= 0`, so touching counts as a gap.
  B's axes test with `> 0`, so touching does not count.
- **Candidate distance.**
  - On A's axes it is `p2.max - p1.min`.
  - On B's axes it is `(p1.max - p2.min) * -1`.

Both look accidental. The model keeps them exactly as the code has them
(`GapNonStrict`, `GapStrict`, `Candidate`).

Abstractions:

- **Square root.** `Math.sqrt` inside `vec2_magnitude` becomes a parameter
  `mag: Vec2 -> real`. The predicate `IsMagnitude` requires only that it is
  positive on every non-zero vector.
- **Initial overlap.** The `Number.MAX_VALUE` starting value of `overlap`
  becomes `None`: no candidate taken yet.
- **Initial smallest axis.** The initial `smallest = []` becomes the zero
  vector.
- **Arithmetic.** Numbers are reals.
- **Inputs.** `sat_mtv` is given polygons that have at least one vertex and no
  zero-length edge (`WellFormed`). These are the conditions under which the
  source's projection and normalisation are defined.

## Model

| member | source | states |
|---|---|---|
| Vectors.Sub | SAT.js:35-37 | The difference is the inverse of adding `v2`, and it is the zero vector exactly when the two vectors are equal. |
| Vectors.Perp | SAT.js:21-23 | The perpendicular is orthogonal to `v` and has the same squared length. It is zero exactly when `v` is. |
| Vectors.DotScale | SAT.js:28-30 | The dot product is linear in a scaled argument, on either side: `(k v) · b == k (v · b)`. |
| Vectors.DotAdd | SAT.js:28-30 | The dot product distributes over a sum: `a · (b + c) == a · b + a · c`. |
| Vectors.Normalize | SAT.js:11-17 | Dividing each component by a positive magnitude gives a positive multiple of `v`, so the result points the same way and is never zero. |
| Geometry.HullBounds | SAT.js:71-79 | The `min`/`max` fold over a non-empty list is ordered. Every element lies between its ends, and both ends are elements of the list. |
| Geometry.HullMap | SAT.js:71-79 | Applying a non-decreasing map to every element maps the fold's two ends and nothing else. |
| Geometry.ProjectHull | SAT.js:70-80 | The projection interval is ordered and contains every vertex's dot product with the axis. Some vertex attains `min` and some vertex attains `max`. |
| Geometry.ProjectPolygon | SAT.js:70-80 | The loop over the vertex array returns exactly `Project` of the vertices, in the source's order of `Math.min`/`Math.max` updates. |
| Geometry.Axes | SAT.js:84-90 | There is one axis per vertex. |
| Geometry.AxesNormals | SAT.js:84-90 | Axis `i` is a positive multiple of the perpendicular of edge `i`, from vertex `i` to vertex `(i + 1) % n`, so it includes the wrap-around edge. Each axis is orthogonal to its edge and never zero. |
| Geometry.Translate | SAT.js:59-64 | Moving keeps the vertex count and order, and shifts vertex `i` by `(dx, dy)`. |
| Geometry.TranslateInverse | SAT.js:59-64 | `move(x, y)` followed by `move(-x, -y)` restores every vertex. |
| Geometry.TranslateCompose | SAT.js:59-64 | Two moves in a row equal one move by the sum. |
| Geometry.Polygon.constructor | SAT.js:43-46 | The polygon holds the given vertex array. |
| Geometry.Polygon.Move | SAT.js:59-64 | After `move(x, y)` the vertex array holds `Translate` of its old contents. Only that array changes. |
| Geometry.AxesTranslate | SAT.js:84-90 | Moving a polygon keeps every edge, hence its well-formedness and its list of axes. |
| Geometry.DotsTranslate | SAT.js:28-30 | Moving the vertices by `d` adds `axis · d` to every dot product with the axis. |
| Geometry.ProjectTranslate | SAT.js:70-80 | Moving a polygon by `d` shifts both ends of its projection by `axis · d`. |
| Geometry.DotsScale | SAT.js:28-30 | Scaling the axis by `k` scales every dot product by `k`. |
| Geometry.ProjectScale | SAT.js:70-80 | Scaling the axis by `k > 0` scales both ends of the projection by `k`. |
| Sat.SatMtv | SAT.js:96-141 | `sat_mtv` on two polygons returns exactly `MtvSpec` of their vertex lists. |
| Sat.TestAxesOfA | SAT.js:100-123 | The loop over A's axes returns null at the first axis with a `>= 0` gap. Otherwise it returns the state that `Run` over those axes gives for owner A. |
| Sat.TestAxesOfB | SAT.js:124-138 | The loop over B's axes returns null at the first axis with a `> 0` gap. Otherwise it returns the state `Run` gives for owner B from the given state, which `SatMtv` passes in as A's final state. |
| Sat.RunTake | SAT.js:107-113 | An axis without a gap extends the loop state by one step. That step takes the candidate only if none was taken yet or its absolute value is strictly smaller. |
| Sat.RunGap | SAT.js:103-106 | An axis with a gap makes the loop return null. |
| Sat.RunStaysNone | SAT.js:103-106 | Once a loop has returned null, no later axis changes that. |
| Sat.RunIsFold | SAT.js:100-123 | One loop over a list of axes is the fold over the same axes tagged with that loop's owner. |
| Sat.FoldAppend | SAT.js:100-138 | Folding over two lists one after the other folds the second from where the first stopped, and stops at null. |
| Sat.MtvScan | SAT.js:100-140 | The two loops together are one fold over all axes, A's first, and the result is that fold's distance and axis. |
| Sat.FoldNoneIff | SAT.js:103-106 | The fold returns null exactly when some tested axis shows a gap. |
| Sat.ScanNullIff | SAT.js:100-138 | The fold over all axes returns null exactly when some axis of A has a `>= 0` gap or some axis of B has a `> 0` gap. |
| Sat.TaggedNoneIff | SAT.js:100-138 | The fold over A's tagged axes followed by B's returns null exactly when one of A's axes has a `>= 0` gap or one of B's has a `> 0` gap. |
| Sat.MtvNullIff | SAT.js:100-138 | `sat_mtv` returns null if and only if some axis of A shows a gap with `>= 0` or some axis of B shows one with `> 0`. |
| Sat.MtvOverlaps | SAT.js:103-130 | For a non-null result, the projections overlap strictly on every axis of A and at least touch on every axis of B. |
| Sat.FirstMinimumStep | SAT.js:107-113 | A strictly smaller absolute candidate replaces the one held. A tie or a larger one does not. So the state stays at the first least candidate. |
| Sat.ScanFirstMinimum | SAT.js:107-137 | When the fold finishes, it holds the signed candidate and the axis of the first test whose absolute candidate is smallest. `overlap` is that candidate's absolute value. |
| Sat.MtvMinimal | SAT.js:107-140 | A non-null result is the signed candidate distance and the axis of the first axis of least absolute candidate. A's axes come before B's, so ties keep the earliest. `smallest` is one of A's or B's axes. |
| Sat.TaggedLeast | SAT.js:107-137 | For a first least test of A's tagged axes followed by B's, no axis of either list has a smaller absolute candidate, and some axis attains it. |
| Sat.MtvLeast | SAT.js:107-140 | No axis of A or of B has a smaller absolute candidate than a non-null result's distance, and some axis of A or of B attains it. |
| Sat.CandidateSwap | SAT.js:107-131 | A's candidate formula on `(p1, p2)` is the negation of B's formula on `(p2, p1)`, and the reverse also holds. So the absolute values agree. |
| Sat.MtvSwapBound | SAT.js:96-141 | When both calls return a collision, `sat_mtv(B, A)` reports a depth no greater than `sat_mtv(A, B)`. |
| Sat.MtvSwapDepth | SAT.js:96-141 | When `sat_mtv(A, B)` and `sat_mtv(B, A)` both return a collision, their distances have the same absolute value. |
| Sat.CheckTranslate | SAT.js:101-113 | Moving both polygons by the same vector changes neither an axis's gap test nor its candidate distance. |
| Sat.RunTranslate | SAT.js:100-138 | Moving both polygons by the same vector leaves either loop's result unchanged. |
| Sat.MtvTranslate | SAT.js:96-141 | Moving both polygons by the same vector keeps them well-formed and leaves the whole `sat_mtv` result unchanged. |
| Sat.GapScale | SAT.js:103-105 | Both gap tests give the same answer on intervals stretched by a positive factor. |
| Sat.ProjectAlong | SAT.js:101-102 | Projections on `k` times `v` are the projections on `v` stretched by `k`. |
| Sat.GapAlongScaled | SAT.js:101-105 | The gap test along `k` times `v`, with `k > 0`, agrees with the one along `v`. |
| Sat.GapAlongDirection | SAT.js:101-105 | The gap test along an axis is the same as along any positive multiple of it: only the direction matters. |
| Sat.MtvNullMagnitude | SAT.js:5-17 | Whether `sat_mtv` returns null is the same for any two admissible magnitudes used in normalisation. |

## Left out

- The drawing context, `Polygon.draw` and the canvas: the model has no I/O.
- `window.onload`, the keyboard handler and the demo polygons: event-driven I/O.
- `console.log(overlap, smallest)` in `sat_mtv`: output only.
- `vec2_magnitude` and floating point: `Math.sqrt` becomes the parameter `mag`, and numbers are reals, so rounding is not modelled.
- Vectors.Normalize: states only that the axis is a positive multiple of its input. With `mag` abstract, the model does not claim unit length.
- Sat.MtvNullMagnitude: only whether the result is null is independent of the magnitude. The chosen axis and distance can depend on how each axis is scaled.
- Empty polygons and zero-length edges: excluded by precondition (`WellFormed`). On them the source reads `vertices[0]` of an empty array or divides by a zero magnitude.
- Convexity is neither required nor used. The lemmas describe what the code computes for any well-formed vertex list.
- Aliasing between the vertex arrays of different polygons, and the source's in-place mutation of inner `[x, y]` arrays: vertices are values in one array per polygon.
- Full symmetry between `sat_mtv(A, B)` and `sat_mtv(B, A)` is not claimed. Swapping the polygons negates every candidate (`CandidateSwap`), and when both calls report a collision their depths agree (`MtvSwapDepth`). But the two gap tests differ when projections exactly touch (`>=` against `>`), so one call may return null where the other does not. The tie order (A's axes first) can also pick a different axis and sign.
