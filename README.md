# Outline-shape rasterizer of `drawing`, modelled in Dafny

This project models the drawing core of the `drawing` repository, which is the file
`src/geometrical_shapes.rs`. That core has five parts:

- the shape values `Point`, `Line`, `Triangle`, `Rectangle` and `Circle`, with their
  `new` and `random` constructors;
- the incremental line rasterizer `draw_line`;
- the midpoint circle loop of `Circle::draw`;
- the decomposition of triangles and two-corner rectangles into `draw_line` edges;
- the `Drawable::draw` operation, which picks one colour and draws a shape with it.

The drawing surface is a class, `Raster.Image`, with one field: the log of every
`display(x, y, color)` call, oldest first. Every draw operation is a method that
appends to that log. Each method is proved equal to a pure function that gives the
expected writes:

- `LineRaster.LineWrites` for a line;
- `CircleRaster.CircleWrites` for a circle;
- `Drawable.ShapeWrites` for any shape.

The lemmas then prove the properties of the drawing from those functions.

Modules, in dependency order:

- `Geometry` (`geometry.dfy`): the `i32` coordinate type, the shape records and the
  pixel write. Each `new` constructor of the source is the datatype constructor here.
- `Raster` (`image.dfy`): the image as a write log.
- `RandomShapes` (`random.dfy`): the random constructors and the colour source. The
  random generator is modelled as nondeterministic choice within the ranges the code
  asks for.
- `LineRaster` (`line.dfy`): `draw_line` and its properties.
- `CircleRaster` (`circle.dfy`): the midpoint loop, its invariant and its properties.
- `Drawable` (`drawable.dfy`): the closed set of shape variants, the per-shape `draw`
  methods and the dispatching `Draw`.

Where the code and the documented intent of the project differ, the model follows the
code:

- A zero-length line makes no write at all, not a single pixel. Its loop `0..0` is empty.
- A circle's radius is never checked. A negative radius writes nothing, and radius 0
  writes the centre eight times.
- A rectangle is only ever the two-corner form. No four-corner rectangle exists.
- "`0 <= x <= y <= r` at every loop head" holds only at loop heads where the body goes
  on to run. At exit, `y` is `x - 1` or `x - 2`. The invariant kept at every head is
  `MidpointInv`.

## Model

| member | source | states |
|---|---|---|
| Geometry.Abs | src/geometrical_shapes.rs:217-221 | `i32::abs` gives the value or its negation, and never a negative result. |
| Raster.Image.Display | src/geometrical_shapes.rs:108-110 | `display` appends exactly one write `(x, y, color)` to the image's log and changes nothing else. |
| RandomShapes.GenRange | src/geometrical_shapes.rs:20-21 | `gen_range(lo..hi)` gives some value in `[lo, hi)`. It needs a non-empty range. |
| RandomShapes.RandomPoint | src/geometrical_shapes.rs:17-23 | When width and height are positive, the point lies in `[0, width) x [0, height)`. |
| RandomShapes.RandomLine | src/geometrical_shapes.rs:36-48 | Both endpoints are drawn independently, and each lies in `[0, width) x [0, heigh)`. |
| RandomShapes.RandomCircle | src/geometrical_shapes.rs:91-100 | The centre lies in `[0, width) x [0, heigh)` and the radius in `[0, (width + heigh) / 2)`. |
| RandomShapes.RandomColor | src/geometrical_shapes.rs:117-124 | `color()` gives a colour whose three channels each lie in `[0, 255]`. |
| LineRaster.Steps | src/geometrical_shapes.rs:217-221 | The step count is at least `abs dx` and at least `abs dy`, and it equals one of them. In other words, it is their maximum. |
| LineRaster.Increment | src/geometrical_shapes.rs:223-224 | The increment multiplied by `steps` gives back `delta`. When `steps` is 0 the loop never uses the increment (the source's 0/0), and the model uses 0. |
| LineRaster.Round | src/geometrical_shapes.rs:232 | `f32::round` gives the nearest integer, with halfway cases away from zero. A non-negative `v` lies in `[r - 1/2, r + 1/2)` and a negative one in `(r - 1/2, r + 1/2]`. |
| LineRaster.SaturatingCast | src/geometrical_shapes.rs:232 | The float-to-`i32` cast keeps in-range values, and sends values below or above the range to `i32::MIN` or `i32::MAX`. |
| LineRaster.StepPixel | src/geometrical_shapes.rs:230-232 | Loop pass `i` writes the saturating cast of the rounded position `p1 + i * (dx, dy) / steps`, in the line's colour. This is a definition without a contract. |
| LineRaster.LineWrites | src/geometrical_shapes.rs:227-237 | A line writes one pixel per pass of `0..steps`, pass `i` giving `StepPixel(i)`, so there are exactly `steps` writes. |
| LineRaster.DrawLine | src/geometrical_shapes.rs:212-238 | The image log grows by exactly `LineWrites(p1, p2, color)`, one write per pass of `for _ in 0..steps`. The write at pass `i` is the rounded, saturated position `p1 + i * (dx, dy) / steps`. |
| LineRaster.LineWriteCount | src/geometrical_shapes.rs:217-230 | A line makes exactly `max(abs dx, abs dy)` writes. It makes zero writes exactly when `p1 == p2`. |
| LineRaster.LineOneColor | src/geometrical_shapes.rs:230-232 | Every write of a line carries the colour passed in. |
| LineRaster.PositionNext | src/geometrical_shapes.rs:235-236 | After `i + 1` advances, the position is the position after `i` advances plus one increment. This is what lets the accumulator stand for `start + i * inc`. |
| LineRaster.RoundOfInteger | src/geometrical_shapes.rs:232 | `round` leaves an integral value unchanged. |
| LineRaster.RoundBetween | src/geometrical_shapes.rs:232 | `round` of a value between two integers stays between them. |
| LineRaster.UnitIncrement | src/geometrical_shapes.rs:223-224 | On an axis that does not move, or that moves by the full step count, the increment is exactly `sign(delta)`. |
| LineRaster.ScaledBetween | src/geometrical_shapes.rs:223-236 | For `0 <= i <= steps`, `i` increments of `delta / steps` lie between 0 and `delta`. |
| LineRaster.AxisExact | src/geometrical_shapes.rs:223-236 | On an axis with increment 0 or ±1, the coordinate written at pass `i` is exactly `start + i * sign(delta)`. |
| LineRaster.AxisBetween | src/geometrical_shapes.rs:223-236 | On any axis, the coordinate written at pass `i` lies between `start` and `start + delta`. |
| LineRaster.LineAxisPositions | src/geometrical_shapes.rs:217-237 | On the major axis, and on an axis the line does not move along, write `i` is exactly `i` unit steps from `p1`. |
| LineRaster.StraightLineWrites | src/geometrical_shapes.rs:223-237 | For horizontal, vertical and 45-degree lines, write `i` is `(p1.x + i * sign dx, p1.y + i * sign dy)`. |
| LineRaster.MajorAxisShort | src/geometrical_shapes.rs:217-230 | A pass index below `steps` never reaches the full major-axis distance. |
| LineRaster.EndpointNeverWritten | src/geometrical_shapes.rs:217-237 | No write of a line is at `p2`. |
| LineRaster.LineInBoundingBox | src/geometrical_shapes.rs:223-237 | Every write lies in the bounding box of `p1` and `p2`. |
| LineRaster.LineDirectionMatters | src/geometrical_shapes.rs:227-237 | A non-degenerate line writes `p1` first. The reversed line never writes `p1`, so `draw_line` is not symmetric in its endpoints. |
| LineRaster.HorizontalLineExample | src/geometrical_shapes.rs:212-238 | The line from (0,0) to (4,0) writes (0,0), (1,0), (2,0), (3,0). |
| CircleRaster.Octants | src/geometrical_shapes.rs:253-260 | One pass writes the eight points `(xc ± x, yc ± y)` and `(xc ± y, yc ± x)` in source order: eight writes, all in the loop's colour. |
| CircleRaster.Next | src/geometrical_shapes.rs:262-268 | The update raises `x` by one and lowers `y` by one exactly when `d >= 0`. It changes `d` by exactly the change in `(x+1)^2 + y^2 - y`, so the offset of `d` from that polynomial is unchanged. |
| CircleRaster.Sweep | src/geometrical_shapes.rs:252-269 | From state `(x, y, d)`, the loop writes nothing once `x > y`. Otherwise it writes `Octants(x, y)` and continues from `Next(x, y, d)`. This is a definition without a contract; `SweepUnfold` states it. |
| CircleRaster.CircleWrites | src/geometrical_shapes.rs:248-269 | The loop runs from `x = 0, y = r, d = 1 - r`, and it writes nothing exactly when the radius is negative. |
| CircleRaster.MidpointStart | src/geometrical_shapes.rs:248-250 | The start state `x = 0, y = r, d = 1 - r` satisfies the midpoint invariant. |
| CircleRaster.MidpointStep | src/geometrical_shapes.rs:262-268 | One update keeps the invariant `d == (x+1)^2 + y^2 - y - r^2`, together with the half-pixel closeness of `(x, y)`. It also bounds `d` between `2x - 2y + 1` and `2x + 1`. |
| CircleRaster.UpdateFits | src/geometrical_shapes.rs:262-268 | Under the bound on `d`, the update taken in each branch (`d < 0` and `d >= 0`) does not overflow an `i32`, for any radius up to `MAX_RADIUS`. |
| CircleRaster.SweepUnfold | src/geometrical_shapes.rs:252-269 | A pass with `x <= y` writes its eight mirror points, then continues from the updated state. |
| CircleRaster.DisplayOctants | src/geometrical_shapes.rs:253-260 | The eight `display` calls of one pass append the eight mirror points, in source order. |
| CircleRaster.MidpointCircle | src/geometrical_shapes.rs:244-269 | The midpoint loop terminates, and the image log grows by exactly `CircleWrites(c, color)`. |
| CircleRaster.OctantsNearCircle | src/geometrical_shapes.rs:253-260 | Under the invariant, all eight points of a pass lie in the bounding box, and each is within half a pixel of the circumference. |
| CircleRaster.OctantsSymmetric | src/geometrical_shapes.rs:253-260 | The eight points of a pass are closed under mirroring in x, mirroring in y and swapping x and y. |
| CircleRaster.SweepLength | src/geometrical_shapes.rs:252-269 | From any invariant state, the loop makes whole passes of eight writes, at most `r + 1 - x` of them. |
| CircleRaster.SweepNearCircle | src/geometrical_shapes.rs:252-269 | From any invariant state, every further write is near the circle. |
| CircleRaster.SweepSymmetric | src/geometrical_shapes.rs:252-269 | From any state, the set of further writes has the eight-way symmetry. |
| CircleRaster.SweepOneColor | src/geometrical_shapes.rs:252-269 | From any state, every further write carries the loop's colour. |
| CircleRaster.NegativeRadiusWritesNothing | src/geometrical_shapes.rs:248-252 | With `r < 0`, the guard `x <= y` fails at once and nothing is written. |
| CircleRaster.CircleWriteCount | src/geometrical_shapes.rs:248-269 | With `r >= 0`, the write count is a multiple of 8 between 8 and `8 (r + 1)`, so there are at most `r + 1` passes. |
| CircleRaster.CircleFirstPass | src/geometrical_shapes.rs:248-260 | The first pass writes `(xc, yc ± r)` and `(xc ± r, yc)`, each twice, in source order. |
| CircleRaster.ZeroRadius | src/geometrical_shapes.rs:248-269 | Radius 0 writes the centre exactly eight times and nothing else. |
| CircleRaster.CircleNearCircumference | src/geometrical_shapes.rs:248-269 | Every circle write lies in `[xc-r, xc+r] x [yc-r, yc+r]`. Its squared distance from the centre differs from `r^2` by at most its larger offset. |
| CircleRaster.CircleSymmetric | src/geometrical_shapes.rs:252-269 | The set of circle writes is closed under the three mirrorings through the centre. |
| CircleRaster.CircleOneColor | src/geometrical_shapes.rs:252-269 | Every circle write carries the one colour. |
| Drawable.EdgeWrites | src/geometrical_shapes.rs:146-148 | A chain of edges writes `draw_line` over each edge in turn. This is a definition without a contract; `EdgeWritesLength` and `EdgeWritesOneColor` state its properties. |
| Drawable.ShapeWrites | src/geometrical_shapes.rs:112-270 | One `draw` call writes this per variant: a point writes itself, a line writes its `draw_line`, a triangle or rectangle writes its edges, and a circle writes its midpoint loop. This is a definition without a contract; the lemmas and methods below state its properties. |
| Drawable.TriangleEdges | src/geometrical_shapes.rs:144-149 | The triangle's edges are three, starting at a, b and c. Each starts where the previous one ends, and the last ends at a. |
| Drawable.RectangleEdges | src/geometrical_shapes.rs:161-200 | The rectangle's edges are four axis-aligned edges forming the closed loop `a -> (b.x, a.y) -> b -> (a.x, b.y) -> a`. |
| Drawable.TriangleIsThreeLines | src/geometrical_shapes.rs:144-149 | A triangle writes exactly `draw_line(a,b)`, then `draw_line(b,c)`, then `draw_line(c,a)`. |
| Drawable.RectangleIsFourLines | src/geometrical_shapes.rs:162-200 | A rectangle writes exactly its four edge lines, in call order. |
| Drawable.EdgeWritesLength | src/geometrical_shapes.rs:143-200 | A chain of edges makes as many writes as the step counts of its edges together. |
| Drawable.EdgeWritesOneColor | src/geometrical_shapes.rs:143-200 | Every write of a chain of edges carries the one colour. |
| Drawable.TriangleWriteCount | src/geometrical_shapes.rs:144-149 | A triangle makes `steps(a,b) + steps(b,c) + steps(c,a)` writes. |
| Drawable.RectangleWriteCount | src/geometrical_shapes.rs:161-200 | A two-corner rectangle makes `2 abs(b.x - a.x) + 2 abs(b.y - a.y)` writes. |
| Drawable.RectangleExample | src/geometrical_shapes.rs:161-200 | The rectangle with corners (0,0) and (5,3) is drawn along (0,0)-(5,0), (5,0)-(5,3), (5,3)-(0,3), (0,3)-(0,0). |
| Drawable.ShapeOneColor | src/geometrical_shapes.rs:112-270 | Every write of one `draw` call carries the colour it picked. |
| Drawable.DrawPoint | src/geometrical_shapes.rs:113-115 | `Point::draw` appends exactly one write, at the point itself, in a colour with 8-bit channels. |
| Drawable.DrawLineShape | src/geometrical_shapes.rs:128-131 | `Line::draw` appends exactly the writes of `draw_line(a, b)` in the colour it picked. |
| Drawable.DrawTriangle | src/geometrical_shapes.rs:144-149 | `Triangle::draw` appends the three edge lines in order, all in one picked colour. |
| Drawable.DrawRectangle | src/geometrical_shapes.rs:162-200 | `Rectangle::draw` appends the four edge lines in order, all in one picked colour. |
| Drawable.DrawCircle | src/geometrical_shapes.rs:241-270 | `Circle::draw` appends exactly `CircleWrites` in the colour it picked. |
| Drawable.Draw | src/geometrical_shapes.rs:103-106 | `draw` on any shape appends `ShapeWrites(s, picked)`, and every appended write carries the one picked colour. |

## Left out

- The `raster` crate's `Image` and its `display` are not part of this model. Only the log of write calls is kept. Clipping, the pixel buffer and out-of-range handling are the image's business.
- `rand::thread_rng` and `gen_range` are modelled as nondeterministic choice within the requested range. Uniformity is not modelled. A non-positive bound, on which the generator panics, is excluded by a precondition.
- `Color::rgb` is not part of this model. A colour is a triple of integers, and the five identical per-shape `color()` functions are one `RandomColor`.
- Draw methods: the colour a `draw` picks is internal in the source. The model returns it as a ghost out-parameter so that the contracts can name it.
- LineRaster.DrawLine: positions advance in exact real arithmetic, not `f32`. Pixel positions are claimed exactly only on axes whose increment is 0 or ±1 (`StraightLineWrites`, `LineAxisPositions`). There the two agree for coordinates up to 2^24. For general slopes, the minor-axis positions and the bounding-box property hold for the real idealisation, and `f32` rounding error is not modelled.
- LineRaster.LineAxisPositions: the exact positions hold for the source only while every coordinate on the path has magnitude at most 2^24, where `f32` holds every integer exactly. Beyond that they describe the exact-arithmetic model.
- LineRaster.StraightLineWrites: the same 2^24 bound applies.
- LineRaster.EndpointNeverWritten: the same 2^24 bound applies. From (16777217, 0) to (16777216, 0), the source starts at `16777216.0` and does write `p2`.
- LineRaster.AxisExact: the same 2^24 bound applies.
- `i32` overflow, which panics in a debug build, is excluded by preconditions rather than modelled. This covers `p2.x - p1.x`, `abs` of `i32::MIN` (`LineFits`), `1 - r` and `xc ± y` (`CircleFits`), and `width + heigh` (`RandomCircle`).
- CircleRaster.MidpointCircle: radii are bounded by `MAX_RADIUS` (2^30 - 4). Below that bound the proof shows that `d` and its updates stay in the `i32` range. The bound is sufficient rather than exact, so the radii from 2^30 - 3 up to the largest `Circle::random` can draw (2^30 - 2) are not modelled, even though the source may draw some of them without overflow.
- The `Drawable` trait is the closed datatype `Shape` with one `Draw` dispatch. Shapes defined outside this file are not modelled.
