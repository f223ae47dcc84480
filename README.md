# Light-field quilt card: shader and geometry arithmetic in Dafny

The card viewer shows a "quilt": one texture packing `columns x rows` views of a
scene. A custom material receives the camera's signed horizontal angle in a uniform.
Its fragment shader then does four things:

- it maps that angle into the viewing cone;
- it picks the current view and the next one, both clamped to the quilt;
- it blends the two texture samples by the fractional part of the index;
- it darkens toward black near the edge of the cone, by a capped fifth-power fade.

Each card is a plane with rounded corners. Its UV buffer is rescaled so that the
rectangle covers the unit square in texture space.

This project models three files:

- the older material, `QuiltMaterial.js`, whose shader does everything inline in
  `main`;
- the newer material, `src/components/QuiltMaterial.js`, which factors the lookup
  into `cellColor` and `mixCellColor` and precomputes `cellSize` as a uniform;
- `src/components/RoundedRect.js`, which builds the outline and normalises the UVs.

Modules:

- `Glsl` (glsl.dfy): the GLSL built-ins used, with `float` idealised as `real`.
  `floor`, `fract`, `clamp`, `mod`, `mix`, `abs` and `radians` follow their GLSL
  definitions. `pow(t, 5.)` is `(t*t)*(t*t)*t`, because its argument is never negative.
  `texture2D` applies an arbitrary total function `Vec2 -> Vec4` (a `Sampler`).
- `QuiltGrid` (quilt_grid.dfy): the arithmetic both shaders share for the grid. It
  turns a view index into a cell (`mod(i, x)`, `floor(i / x)`) and gives the
  texture coordinate inside that cell.
- `QuiltCone` (quilt_cone.dfy): the `main` steps that both shaders write
  identically: `maxAngle`, `normalizedAngle`, `normalizedAngle * totalImages`,
  `fadeFactor`, and the final `mix` toward black.
- `QuiltInline` (quilt_inline.dfy): the older material. It has a uniform table,
  a `QuiltMaterial` class whose one field is that table, and the inline shader.
- `QuiltFactored` (quilt_factored.dfy): the newer material, with `cellColor`,
  `mixCellColor` and `main`.
- `QuiltEquivalence` (quilt_equivalence.dfy): proves the two shaders sample the
  same two coordinates with the same blend fraction, and so output the same colour.
- `RoundedRect` (rounded_rect.dfy): the path builder (`moveTo`, `lineTo`,
  `quadraticCurveTo`) as functions on a `Shape` value, the outline, and the
  in-place UV loop as a method over `array<real>`.

Each uniform table is a datatype, and the material class holds it in a field.
`SetRelativeAngle` replaces only the `uRelativeAngle` field, under `modifies this`.

The angle runs the views in reverse. At `+maxAngle`, `normalizedAngle` is 0, so
the current view is view 0, the first one. At `-maxAngle` the raw index equals
`totalImages`, which clamps to the last view (`QuiltInline.ConeEdges`). The fade is
0 head-on and exactly 0.5 at either edge of the cone and beyond it
(`QuiltCone.FadeFactorShape`). Seen head-on, an 8 x 12 quilt shows view 48 (column
0, row 6), unblended, for every cone width (`QuiltInline.HeadOnEightByTwelve`).

## Model

| member | source | states |
|---|---|---|
| `Glsl.Floor` | QuiltMaterial.js:51 | `floor(x)` is a whole number with `floor(x) <= x < floor(x) + 1` |
| `Glsl.Fract` | QuiltMaterial.js:48 | the blend fraction lies in `[0, 1)` and `floor(x) + fract(x) == x` |
| `Glsl.Clamp` | QuiltMaterial.js:55-56 | with `lo <= hi` the result lies in `[lo, hi]`: a value inside is unchanged, one below gives `lo`, one above gives `hi` |
| `Glsl.Abs` | QuiltMaterial.js:74 | `abs(x)` is non-negative and is `x` or `-x` |
| `Glsl.Mod` | QuiltMaterial.js:59-60 | for a positive divisor, GLSL `mod(x, y)` lies in `[0, y)`; on whole non-negative operands it is the integer remainder (`Glsl.ModOfWhole`) |
| `Glsl.Mix` | QuiltMaterial.js:71 | `mix(x, y, a)`: with `a` in `[0, 1]` it lies between `x` and `y` and hits them at 0 and 1 (`Glsl.MixBetween`) |
| `Glsl.MixVec4` | QuiltMaterial.js:71 | `mix` on `vec4`, channel by channel with one weight; each channel is bounded as `Glsl.MixBetween` states, and the dimming form is `QuiltCone.DimKeepsHalf` |
| `Glsl.Pow5` | QuiltMaterial.js:74 | `pow(t, 5.)` for `t >= 0` is non-negative, at most 1 when `t <= 1`, and at least 1 when `t >= 1` |
| `Glsl.Pow5Monotone` | QuiltMaterial.js:74 | `pow(t, 5.)` is monotone on non-negative arguments |
| `Glsl.Radians` | QuiltMaterial.js:39 | `radians`: a positive angle in degrees gives a positive angle in radians |
| `Glsl.ModOfWhole` | QuiltMaterial.js:59-60 | on whole non-negative operands, GLSL `mod(i, x)` and `floor(i / x)` are the integer remainder and quotient |
| `Glsl.ClampOfWhole` | QuiltMaterial.js:55-56 | clamping a whole index to `[0, hi]` gives a whole number: the integer clamp |
| `Glsl.FloorMonotone` | QuiltMaterial.js:51 | `floor` never decreases as its argument grows |
| `Glsl.ClampMonotone` | QuiltMaterial.js:55-56 | `clamp` never decreases as its first argument grows |
| `Glsl.MixBetween` | QuiltMaterial.js:71 | `mix(x, y, a)` with `a` in `[0, 1]` lies between `x` and `y`; it is `x` at `a = 0` and `y` at `a = 1` |
| `QuiltGrid.TotalImages` | QuiltMaterial.js:87 | `quiltDims.x * quiltDims.y` is at least each dimension |
| `QuiltGrid.UnitCellSize` | QuiltMaterial.js:45 | `1. / quiltDims` is a cell size in `(0, 1]` on both axes |
| `QuiltGrid.CellOf` | QuiltMaterial.js:59-60 | the `vec2(mod(i, x), floor(i / x))` cell of a view index; for a valid index it is column `i % x` below `x` and row `i / x` below `y`, and distinct indices give distinct cells (`QuiltGrid.CellOfIndex`, `QuiltGrid.CellOfInjective`) |
| `QuiltGrid.CellUv` | QuiltMaterial.js:63-64 | `(vUv * cellSize) + (cell / quiltDims)`; for `vUv` in the unit square it lies in that cell's rectangle (`QuiltGrid.CellUvInCell`) |
| `QuiltGrid.CellOfIndex` | QuiltMaterial.js:59-60 | for an index in `[0, x*y)`: the column `mod(i, x)` is below `x`, the row `floor(i / x)` is below `y`, and `row * x + column == i` |
| `QuiltGrid.CellOfInjective` | QuiltMaterial.js:59-60 | two different valid indices never land in the same cell |
| `QuiltGrid.CellUvInCell` | QuiltMaterial.js:63-64 | for `vUv` in the unit square, the coordinate of index `i`'s cell lies in `[col/x, (col+1)/x] x [row/y, (row+1)/y]`, so inside the unit square |
| `QuiltCone.MaxAngle` | QuiltMaterial.js:39 | half of a positive cone, in radians, is positive |
| `QuiltCone.NormalizedAngle` | QuiltMaterial.js:42 | the angle's position in the cone: 0.5 at 0, 0 at `+maxAngle`, 1 at `-maxAngle`, strictly decreasing (`QuiltCone.NormalizedAngleAtMarks`, `QuiltCone.NormalizedAngleDecreasing`) |
| `QuiltCone.ScaledViewIndex` | QuiltMaterial.js:48-51 | `normalizedAngle * totalImages`, the one raw index both shaders floor and `fract`: 48 head-on for 8 x 12 (`QuiltInline.HeadOnEightByTwelve`), `totalImages` at `-maxAngle` and 0 at `+maxAngle` (`QuiltInline.ConeEdges`) |
| `QuiltCone.DimTowardBlack` | QuiltMaterial.js:77 | `mix(color, vec4(0., 0., 0., 1.), fade)`: RGB scaled by `1 - fade`, alpha moved toward 1 (`QuiltCone.DimKeepsHalf`) |
| `QuiltCone.FadeFactor` | QuiltMaterial.js:74 | the fade always lies in `[0, 0.5]` |
| `QuiltCone.NormalizedAngleAtMarks` | QuiltMaterial.js:42 | `normalizedAngle` is 0.5 at angle 0, 0 at `+maxAngle` and 1 at `-maxAngle` |
| `QuiltCone.NormalizedAngleDecreasing` | QuiltMaterial.js:42 | `normalizedAngle` strictly decreases as the angle grows |
| `QuiltCone.FadeFactorShape` | QuiltMaterial.js:74 | the fade is 0 at angle 0, even in the angle, non-decreasing in `abs(angle)`, and exactly 0.5 once `abs(angle) >= maxAngle` |
| `QuiltCone.DimKeepsHalf` | QuiltMaterial.js:77 | mixing toward opaque black scales RGB by `1 - fade`, keeping at least half of each non-negative channel and never brightening it; alpha becomes `(1 - fade) * a + fade` |
| `QuiltInline.QuiltMaterial.constructor` | QuiltMaterial.js:82-89 | the table holds the texture, angle 0, `quiltDims`, `totalImages = x * y`, and the cone; it is valid exactly when both dimensions are at least 1 and the cone is positive |
| `QuiltInline.QuiltMaterial.SetRelativeAngle` | QuiltMaterial.js:95-97 | only `uRelativeAngle` changes, to the given angle; every other uniform, and validity, are kept |
| `QuiltInline.CurrentCellIndex` | QuiltMaterial.js:51-55 | `clamp(floor(raw), 0., totalImages - 1.)`: whole and a valid view for every raw index, and monotone in it (`QuiltInline.IndicesInRange`, `QuiltInline.IndicesNeverWrap`) |
| `QuiltInline.NextCellIndex` | QuiltMaterial.js:52-56 | `clamp(floor(raw) + 1., 0., totalImages - 1.)`: a valid view, the current one or the one after it (`QuiltInline.IndicesInRange`, `QuiltInline.IndicesNeverWrap`) |
| `QuiltInline.RawIndex` | QuiltMaterial.js:39-51 | the unclamped fractional index for the table's angle; its values at the centre and the edges are `QuiltInline.HeadOnEightByTwelve` and `QuiltInline.ConeEdges` |
| `QuiltInline.CellUvFor` | QuiltMaterial.js:45-64 | the coordinate of a view's cell, `(vUv * (1. / quiltDims)) + (cell / quiltDims)` (`QuiltGrid.CellUvInCell`) |
| `QuiltInline.CurrentCellUv` | QuiltMaterial.js:59-67 | the coordinate sampled for the current view; inside its cell and the unit square (`QuiltInline.SampledCellsInGrid`) |
| `QuiltInline.NextCellUv` | QuiltMaterial.js:60-68 | the coordinate sampled for the next view; inside its cell and the unit square (`QuiltInline.SampledCellsInGrid`) |
| `QuiltInline.TextureColor` | QuiltMaterial.js:48-71 | the two samples mixed by `fract(raw)`; the factored shader computes the same colour (`QuiltEquivalence.SameSelection`) |
| `QuiltInline.FragColor` | QuiltMaterial.js:74-77 | the blended colour dimmed by the fade (`QuiltInline.FragColorDimming`); equal to the factored shader's output (`QuiltEquivalence.SameSelection`) |
| `QuiltInline.IndicesInRange` | QuiltMaterial.js:51-56 | for every raw index, both clamped indices are whole and lie in `[0, totalImages - 1]`; the next one equals the current one or the current one plus 1, and it is the current one plus 1 exactly when `0 <= floor(raw) < totalImages - 1` |
| `QuiltInline.IndicesNeverWrap` | QuiltMaterial.js:51-56 | both indices are monotone in the raw index; a negative raw index gives view 0 for both; a raw index of at least `totalImages - 1` gives the last view for both; clamping never wraps |
| `QuiltInline.HeadOnEightByTwelve` | QuiltMaterial.js:42-60 | for an 8 x 12 quilt at angle 0, with any cone width: raw index 48, current view 48, next view 49, blend 0, and view 48 is column 0, row 6 |
| `QuiltInline.ConeEdges` | QuiltMaterial.js:42-56 | at `-maxAngle` the raw index equals `totalImages` and both views clamp to the last one; at `+maxAngle` the current view is 0; both edges have blend 0 |
| `QuiltInline.SampledCellsInGrid` | QuiltMaterial.js:45-64 | for `vUv` in the unit square, both sampled coordinates lie in the cells of two valid view indices, whose column and row are within the grid, and inside the unit square |
| `QuiltInline.FragColorDimming` | QuiltMaterial.js:71-77 | the output RGB is `(1 - fade)` times the blended texture RGB: at least half of it for non-negative channels and never more |
| `QuiltFactored.QuiltMaterial.constructor` | src/components/QuiltMaterial.js:79-89 | the table holds the texture, angle 0, `quiltDims`, the cone, `totalImages = x * y` and `cellSize = (1/x, 1/y)`; it is valid exactly when the cone is positive |
| `QuiltFactored.QuiltMaterial.SetRelativeAngle` | src/components/QuiltMaterial.js:95-97 | only `uRelativeAngle` changes, to the given angle; every other uniform, and validity, are kept |
| `QuiltFactored.CellSampleUv` | src/components/QuiltMaterial.js:33-35 | the coordinate `cellColor` samples: clamp the index, split it into a cell, offset by `cellSize` (`QuiltFactored.CellColorClamps`, `QuiltEquivalence.SameSample`) |
| `QuiltFactored.CellColor` | src/components/QuiltMaterial.js:32-38 | `cellColor`: the texture at `CellSampleUv`, the clamped view's cell (`QuiltFactored.CellColorClamps`) |
| `QuiltFactored.ViewIndex` | src/components/QuiltMaterial.js:46 | `floor(angle * totalImages)`: whole, and with `ViewFrac` it adds back to `angle * totalImages` (`QuiltFactored.MixCellColorSplit`) |
| `QuiltFactored.ViewFrac` | src/components/QuiltMaterial.js:43 | `fract(angle * totalImages)`: in `[0, 1)` (`QuiltFactored.MixCellColorSplit`); the inline shader's `fract(raw)` (`QuiltEquivalence.SameSelection`) |
| `QuiltFactored.MixCellColor` | src/components/QuiltMaterial.js:41-57 | `mixCellColor`: a convex combination of the two views' colours (`QuiltFactored.MixCellColorConvex`) |
| `QuiltFactored.FragColor` | src/components/QuiltMaterial.js:59-75 | `main`: the mixed colour dimmed by the fade (`QuiltFactored.FragColorDimming`); equal to the inline output (`QuiltEquivalence.SameSelection`) |
| `QuiltFactored.CellColorClamps` | src/components/QuiltMaterial.js:32-37 | for any whole view index, negative or past the end, `cellColor` samples the view the index clamps to; its column and row are within the grid; for `vUv` in the unit square the coordinate lies in that cell and in the unit square |
| `QuiltFactored.MixCellColorSplit` | src/components/QuiltMaterial.js:43-47 | `viewIndex` is whole, `viewFrac` lies in `[0, 1)`, and `viewIndex + viewFrac == angle * totalImages` |
| `QuiltFactored.MixCellColorConvex` | src/components/QuiltMaterial.js:49-56 | the mixed colour is a convex combination of the two views' colours: each channel lies between the two samples, and it equals the current view's colour when `viewFrac == 0` |
| `QuiltFactored.FragColorDimming` | src/components/QuiltMaterial.js:59-74 | the fade lies in `[0, 0.5]` and is 0 at angle 0; the output RGB is `(1 - fade)` times the mixed colour, so at least half of each non-negative channel |
| `QuiltEquivalence.SameSample` | src/components/QuiltMaterial.js:32-35 | clamping inside `cellColor` gives the same coordinate as clamping first and looking up after, as the inline shader does |
| `QuiltEquivalence.SameSelection` | src/components/QuiltMaterial.js:41-68 | for tables with the same texture, angle, grid, cone and view count, the factored shader samples the same two coordinates with the same blend fraction as the inline one (`QuiltMaterial.js:45-71`), and outputs the same colour |
| `QuiltEquivalence.BuildBoth` | src/components/QuiltMaterial.js:79-97 | the two materials, built from the same arguments and given the same angle, hold corresponding tables; each is valid exactly when the cone is positive |
| `RoundedRect.NewShape` | src/components/RoundedRect.js:35 | a new shape has no curves |
| `RoundedRect.MoveTo` | src/components/RoundedRect.js:42 | `moveTo` keeps the curves and moves the pen; on a connected path it keeps the path connected exactly when nothing has been drawn yet or the pen stays where it is |
| `RoundedRect.LineTo` | src/components/RoundedRect.js:45 | `lineTo` appends one straight segment from the pen to the target, keeps the earlier curves, leaves the pen at the target, and keeps the path connected |
| `RoundedRect.QuadraticCurveTo` | src/components/RoundedRect.js:46 | `quadraticCurveTo` appends one quadratic curve from the pen to the target with the given control point, keeps the earlier curves, leaves the pen at the target, and keeps the path connected |
| `RoundedRect.CreateRoundedRectShape` | src/components/RoundedRect.js:34-61 | the outline has eight curves, and each one starts where the one before it ended |
| `RoundedRect.OutlineClosed` | src/components/RoundedRect.js:42-58 | the outline starts at `(-w/2, -h/2 + r)`, and its last curve ends at that same point, so it is closed |
| `RoundedRect.OutlineLinesAxisAligned` | src/components/RoundedRect.js:44-57 | straight segments and corner curves alternate, and every straight segment is vertical or horizontal |
| `RoundedRect.OutlineCorners` | src/components/RoundedRect.js:46-58 | the four control points are exactly the four rectangle corners; each curve runs from a point at distance `r` along one edge of its corner to a point at distance `r` along the other edge; for a rectangle of positive size both points lie on the rectangle's own edges, moving in from the corner toward the centre |
| `RoundedRect.OutlineInsideRect` | src/components/RoundedRect.js:38-58 | when `0 <= r <= min(w, h)`, every end point and control point lies in `[-w/2, w/2] x [-h/2, h/2]` |
| `RoundedRect.OutlineUvsInUnitSquare` | src/components/RoundedRect.js:16-58 | for a rectangle of positive size and the same radius bound, every point defining the outline gets texture coordinates in the unit square |
| `RoundedRect.NormalizedUvs` | src/components/RoundedRect.js:16-25 | normalising keeps the buffer's length |
| `RoundedRect.NormalizedEntry` | src/components/RoundedRect.js:18-23 | the rule for one entry, `u / width + 0.5` or `v / height + 0.5`: invertible (`RoundedRect.NormalizedUvsInvertible`), and it maps the rectangle onto the unit square (`RoundedRect.VertexUvInUnitSquare`) |
| `RoundedRect.NormalizedUvsInvertible` | src/components/RoundedRect.js:18-23 | each entry can be recovered from its normalised value, `(u - 0.5) * width` and `(v - 0.5) * height`: the rule loses nothing |
| `RoundedRect.VertexUvInUnitSquare` | src/components/RoundedRect.js:18-23 | a vertex in `[-w/2, w/2] x [-h/2, h/2]` gets u and v in `[0, 1]`, and the centre gets `(0.5, 0.5)` |
| `RoundedRect.NormalizeUvBuffer` | src/components/RoundedRect.js:15-28 | the loop rewrites the buffer in place, each entry exactly once: even index `u` to `u/width + 0.5`, odd index `v` to `v/height + 0.5`; the length is unchanged and nothing else is written |
| `RoundedRect.RoundedRectGeometry` | src/components/RoundedRect.js:5-30 | the constructor's shape is the rounded-rectangle outline, and the UV buffer it is given comes back normalised |

## Left out

- The relative-angle computation (`calculateRelativeAngle` in src/components/BlockCard.jsx and BlockCard.js) is not part of this model. It rotates a vector by the object's quaternion, normalises vectors with a square root and calls `Math.acos`, all in floating point through the 3D engine. Its one discrete rule, negating the angle when the cross product's y component is negative, is not modelled either. The shaders take the angle as an arbitrary real.
- The React and react-three-fiber glue in BlockCard.jsx, the BlockCard.js constructor and `addBorder`, the WebXR scene, the demo scene, the orbit controls, the auth code and the build config are not part of this model. They are scene and I/O plumbing.
- BlockCard.jsx builds `Vector2(quiltRows, quiltColumns)`, while the material documents `x` as the column count. The model takes `quiltDims` as the material defines it and does not reproduce this swap on the caller side.
- Texture contents and sampling filters are not modelled: `texture2D` is an arbitrary function of the coordinate. Texture loading, the vertex shader (which passes `uv` through as `vUv`), projection, and the re-upload of the rewritten UV buffer that `uvs.needsUpdate = true` requests (src/components/RoundedRect.js line 28) are engine work.
- `THREE.ShapeGeometry` triangulation is not modelled. That includes how many points it samples along each curve. Its UV buffer enters `RoundedRect.RoundedRectGeometry` as an input array, so the link from outline to buffer is not proved.
- The unused `cellColor` stub in QuiltMaterial.js (lines 33-35) is not modelled. It is never called, and it returns no value.
- The branch in RoundedRect.js (lines 10-12) that converts a non-buffer geometry is not modelled. `ShapeGeometry` is already a buffer geometry, so the branch never runs.
- GLSL `float` and `Float32Array` precision are not modelled: all arithmetic is on exact reals. `radians` uses the constant `3.141592653589793` for pi.
- `quiltDims` is modelled as a pair of integers, since callers pass view counts.
- The shader comments (QuiltMaterial.js line 73, src/components/QuiltMaterial.js line 70) call the fade "1 at the edges of the cone". The code caps it at 0.5, and the model follows the code (`QuiltCone.FadeFactor`, `QuiltCone.FadeFactorShape`).
- Malformed configurations are not modelled. In JavaScript and GLSL, a zero dimension or a zero cone divides by zero and gives infinities or NaN. With a negative dimension, `cellSize` and `totalImages` stay finite. A negative column count makes `mod` divide by a non-positive number. A `totalImages` below 1 makes `clamp` run with `lo > hi`, which GLSL leaves undefined. Here the shader functions require a valid table (`ValidDims` and a positive cone). The newer material's constructor takes `ValidDims` as its caller's contract.
- `QuiltFactored.CellColorClamps`: stated for whole view indices only. `mixCellColor` only ever passes `floor(...)` and `floor(...) + 1.`, and for a non-whole index `mod` would give a fractional column.
- `RoundedRect.OutlineInsideRect`: stated only for `0 <= r <= min(w, h)`. Above half the shorter side the two straight segments along the shorter side run backwards and the outline folds over itself, though its points stay inside. Above the shorter side, points leave the rectangle. The code does not check the radius.
- `RoundedRect.NormalizeUvBuffer`: a buffer of odd length gets the u rule on its last entry. The `v` write past the end is a no-op in a typed array, and the model does the same. Division by a zero width or height is excluded.
