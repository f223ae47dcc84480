/** The quilt material of `src/components/QuiltMaterial.js`: the uniform table also
    carries a precomputed `cellSize`, and the shader factors the lookup into
    `cellColor` (one view index to one texture sample) and `mixCellColor` (one
    normalised angle to a blend of two samples). */
module QuiltFactored {
  import opened Glsl
  import opened QuiltGrid
  import opened QuiltCone

  /** The material's uniforms: texture, relative angle in radians, grid dimensions,
      viewing cone in degrees, and the two values precomputed from the grid. */
  datatype Uniforms = Uniforms(
    uTexture: Sampler,
    uRelativeAngle: real,
    quiltDims: QuiltDims,
    viewCone: real,
    totalImages: real,
    cellSize: Vec2)

  /** A well-formed table: a grid of at least one view, `totalImages` its product,
      `cellSize` one over each dimension, and a viewing cone wider than zero. */
  predicate Valid(u: Uniforms) {
    ValidDims(u.quiltDims) &&
    u.totalImages == TotalImages(u.quiltDims) as real &&
    u.cellSize == UnitCellSize(u.quiltDims) &&
    0.0 < u.viewCone
  }

  /** The material object; its only state is the uniform table. */
  class QuiltMaterial {
    var uniforms: Uniforms

    /** Builds the table as the material's constructor does: angle 0, `totalImages`
        the product of the dimensions and `cellSize` their reciprocals. The table is
        valid exactly when the cone is wider than zero. */
    constructor (texture: Sampler, quiltDims: QuiltDims, maxViewingAngle: real)
      requires ValidDims(quiltDims)
      ensures uniforms.uTexture == texture && uniforms.uRelativeAngle == 0.0
      ensures uniforms.quiltDims == quiltDims && uniforms.viewCone == maxViewingAngle
      ensures uniforms.totalImages == (quiltDims.columns * quiltDims.rows) as real
      ensures uniforms.cellSize == Vec2(1.0 / quiltDims.columns as real, 1.0 / quiltDims.rows as real)
      ensures Valid(uniforms) <==> 0.0 < maxViewingAngle
    {
      uniforms := Uniforms(texture, 0.0, quiltDims, maxViewingAngle,
                           (quiltDims.columns * quiltDims.rows) as real,
                           Vec2(1.0 / quiltDims.columns as real, 1.0 / quiltDims.rows as real));
    }

    /** Writes the new angle into `uRelativeAngle`; no other uniform changes. */
    method SetRelativeAngle(angle: real)
      modifies this
      ensures uniforms == old(uniforms).(uRelativeAngle := angle)
      ensures Valid(uniforms) <==> Valid(old(uniforms))
    {
      uniforms := uniforms.(uRelativeAngle := angle);
    }
  }

  // ---------------------------------------------------------------------------
  // The fragment shader

  /** The coordinate `cellColor` samples: clamp the index to
      `[0, totalImages - 1]`, split it into column and row, and offset `vUv` scaled by
      `cellSize` into that cell. */
  function CellSampleUv(u: Uniforms, vUv: Vec2, viewIndex: real): Vec2
    requires Valid(u)
  {
    var index := Clamp(viewIndex, 0.0, u.totalImages - 1.0);
    CellUv(u.quiltDims, u.cellSize, CellOf(u.quiltDims, index), vUv)
  }

  /** `cellColor(viewIndex, color)`: the texture sampled for one view. */
  function CellColor(u: Uniforms, vUv: Vec2, viewIndex: real): Vec4
    requires Valid(u)
  {
    u.uTexture(CellSampleUv(u, vUv, viewIndex))
  }

  /** `floor(angle * totalImages)`. */
  function ViewIndex(angle: real, totalImages: real): real {
    Floor(ScaledViewIndex(angle, totalImages))
  }

  /** `fract(angle * totalImages)`. */
  function ViewFrac(angle: real, totalImages: real): real {
    Fract(ScaledViewIndex(angle, totalImages))
  }

  /** `mixCellColor(angle, color)`: the colours of view `viewIndex` and of the one
      after it, mixed by `viewFrac`. */
  function MixCellColor(u: Uniforms, vUv: Vec2, angle: real): Vec4
    requires Valid(u)
  {
    var viewIndex := ViewIndex(angle, u.totalImages);
    var nextViewIndex := viewIndex + 1.0;
    MixVec4(CellColor(u, vUv, viewIndex), CellColor(u, vUv, nextViewIndex),
            ViewFrac(angle, u.totalImages))
  }

  /** `main`: normalise the angle, mix the two views, dim toward black. */
  function FragColor(u: Uniforms, vUv: Vec2): Vec4
    requires Valid(u)
  {
    var maxAngle := MaxAngle(u.viewCone);
    var normalizedAngle := NormalizedAngle(u.uRelativeAngle, maxAngle);
    DimTowardBlack(MixCellColor(u, vUv, normalizedAngle), FadeFactor(u.uRelativeAngle, maxAngle))
  }

  // ---------------------------------------------------------------------------
  // Properties

  /** `cellColor` accepts any whole view index, negative or past the end: it samples
      the view the index clamps to, whose coordinate for `vUv` in the unit square lies
      inside that view's grid cell and inside the unit square. */
  lemma CellColorClamps(u: Uniforms, vUv: Vec2, viewIndex: int)
    requires Valid(u) && InUnitSquare(vUv)
    ensures var n, d := TotalImages(u.quiltDims), u.quiltDims;
            var c := if viewIndex < 0 then 0 else if n - 1 < viewIndex then n - 1 else viewIndex;
            0 <= c < n &&
            CellSampleUv(u, vUv, viewIndex as real) ==
              CellUv(d, u.cellSize, Vec2((c % d.columns) as real, (c / d.columns) as real), vUv) &&
            InCell(d, c % d.columns, c / d.columns, CellSampleUv(u, vUv, viewIndex as real)) &&
            InUnitSquare(CellSampleUv(u, vUv, viewIndex as real))
  {
    var n, d := TotalImages(u.quiltDims), u.quiltDims;
    var c := if viewIndex < 0 then 0 else if n - 1 < viewIndex then n - 1 else viewIndex;
    ClampOfWhole(viewIndex, n - 1);
    assert Clamp(viewIndex as real, 0.0, u.totalImages - 1.0) == c as real;
    CellOfIndex(d, c);
    CellUvInCell(d, c, vUv);
  }

  /** `mixCellColor` splits `angle * totalImages` into a whole view index and a blend
      fraction in `[0, 1)` that add back up to it; the second view is the next one. */
  lemma MixCellColorSplit(angle: real, totalImages: real)
    ensures IsWhole(ViewIndex(angle, totalImages))
    ensures 0.0 <= ViewFrac(angle, totalImages) < 1.0
    ensures ViewIndex(angle, totalImages) + ViewFrac(angle, totalImages) == angle * totalImages
  {
  }

  /** The mixed colour is a convex combination of the two views' colours: each
      channel lies between the two samples, and it is the current view's colour
      when the blend fraction is 0. */
  lemma MixCellColorConvex(u: Uniforms, vUv: Vec2, angle: real)
    requires Valid(u)
    ensures var i := ViewIndex(angle, u.totalImages);
            var a, b, m := CellColor(u, vUv, i), CellColor(u, vUv, i + 1.0), MixCellColor(u, vUv, angle);
            Min(a.r, b.r) <= m.r <= Max(a.r, b.r) &&
            Min(a.g, b.g) <= m.g <= Max(a.g, b.g) &&
            Min(a.b, b.b) <= m.b <= Max(a.b, b.b) &&
            Min(a.a, b.a) <= m.a <= Max(a.a, b.a)
    ensures ViewFrac(angle, u.totalImages) == 0.0 ==>
              MixCellColor(u, vUv, angle) == CellColor(u, vUv, ViewIndex(angle, u.totalImages))
  {
    var i := ViewIndex(angle, u.totalImages);
    var a, b, t := CellColor(u, vUv, i), CellColor(u, vUv, i + 1.0), ViewFrac(angle, u.totalImages);
    MixBetween(a.r, b.r, t);
    MixBetween(a.g, b.g, t);
    MixBetween(a.b, b.b, t);
    MixBetween(a.a, b.a, t);
  }

  /** The output colour is the mixed colour dimmed by the fade: RGB scaled by
      `1 - fade`, never below half of it for non-negative channels. */
  lemma FragColorDimming(u: Uniforms, vUv: Vec2)
    requires Valid(u)
    ensures var m := MaxAngle(u.viewCone);
            var f := FadeFactor(u.uRelativeAngle, m);
            var t := MixCellColor(u, vUv, NormalizedAngle(u.uRelativeAngle, m));
            var o := FragColor(u, vUv);
            0.0 <= f <= 0.5 && (u.uRelativeAngle == 0.0 ==> f == 0.0) &&
            o.r == (1.0 - f) * t.r && o.g == (1.0 - f) * t.g && o.b == (1.0 - f) * t.b &&
            (0.0 <= t.r ==> 0.5 * t.r <= o.r) &&
            (0.0 <= t.g ==> 0.5 * t.g <= o.g) &&
            (0.0 <= t.b ==> 0.5 * t.b <= o.b)
  {
    var m := MaxAngle(u.viewCone);
    FadeFactorShape(u.uRelativeAngle, u.uRelativeAngle, m);
    DimKeepsHalf(MixCellColor(u, vUv, NormalizedAngle(u.uRelativeAngle, m)), FadeFactor(u.uRelativeAngle, m));
  }
}
