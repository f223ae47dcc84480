/** The quilt material of `QuiltMaterial.js`: a uniform table, the angle setter that
    updates it, and the fragment shader that computes everything inline in `main`. */
module QuiltInline {
  import opened Glsl
  import opened QuiltGrid
  import opened QuiltCone

  /** The material's uniforms: the quilt texture, the camera's relative angle in
      radians, the grid dimensions, their product and the viewing cone in degrees. */
  datatype Uniforms = Uniforms(
    uTexture: Sampler,
    uRelativeAngle: real,
    quiltDims: QuiltDims,
    totalImages: real,
    viewCone: real)

  /** A well-formed table: a grid of at least one view, `totalImages` its product and
      a viewing cone wider than zero. */
  predicate Valid(u: Uniforms) {
    ValidDims(u.quiltDims) &&
    u.totalImages == TotalImages(u.quiltDims) as real &&
    0.0 < u.viewCone
  }

  /** The material object; its only state is the uniform table. */
  class QuiltMaterial {
    var uniforms: Uniforms

    /** Builds the table as the material's constructor does: angle 0, `totalImages`
        precomputed from `quiltDims`. The table is valid exactly when the grid and the
        cone are. */
    constructor (texture: Sampler, quiltDims: QuiltDims, maxViewingAngle: real)
      ensures uniforms == Uniforms(texture, 0.0, quiltDims,
                                   (quiltDims.columns * quiltDims.rows) as real, maxViewingAngle)
      ensures Valid(uniforms) <==> ValidDims(quiltDims) && 0.0 < maxViewingAngle
    {
      uniforms := Uniforms(texture, 0.0, quiltDims,
                           (quiltDims.columns * quiltDims.rows) as real, maxViewingAngle);
    }

    /** Writes the new angle into `uRelativeAngle`; no other uniform changes. */
    method SetRelativeAngle(angle: real)
      modifies this
      ensures uniforms == old(uniforms).(uRelativeAngle := angle)
      ensures Valid(uniforms) <==> Valid(old(uniforms))
    {
      uniforms := uniforms.(uRelativeAngle := angle);
    }
  }

  // ---------------------------------------------------------------------------
  // The fragment shader, one function per step of `main`

  /** `clamp(floor(raw), 0., totalImages - 1.)`. */
  function CurrentCellIndex(raw: real, totalImages: real): real {
    Clamp(Floor(raw), 0.0, totalImages - 1.0)
  }

  /** `clamp(floor(raw) + 1., 0., totalImages - 1.)`. */
  function NextCellIndex(raw: real, totalImages: real): real {
    Clamp(Floor(raw) + 1.0, 0.0, totalImages - 1.0)
  }

  /** The unclamped fractional view index for the table's angle. */
  function RawIndex(u: Uniforms): real
    requires Valid(u)
  {
    ScaledViewIndex(NormalizedAngle(u.uRelativeAngle, MaxAngle(u.viewCone)), u.totalImages)
  }

  /** `(vUv * cellSize) + (cell / quiltDims)` with `cellSize = 1. / quiltDims`. */
  function CellUvFor(u: Uniforms, vUv: Vec2, index: real): Vec2
    requires Valid(u)
  {
    CellUv(u.quiltDims, UnitCellSize(u.quiltDims), CellOf(u.quiltDims, index), vUv)
  }

  function CurrentCellUv(u: Uniforms, vUv: Vec2): Vec2
    requires Valid(u)
  {
    CellUvFor(u, vUv, CurrentCellIndex(RawIndex(u), u.totalImages))
  }

  function NextCellUv(u: Uniforms, vUv: Vec2): Vec2
    requires Valid(u)
  {
    CellUvFor(u, vUv, NextCellIndex(RawIndex(u), u.totalImages))
  }

  /** `mix(currentColor, nextColor, fract(raw))`. */
  function TextureColor(u: Uniforms, vUv: Vec2): Vec4
    requires Valid(u)
  {
    MixVec4(u.uTexture(CurrentCellUv(u, vUv)), u.uTexture(NextCellUv(u, vUv)), Fract(RawIndex(u)))
  }

  /** `gl_FragColor = mix(textureColor, vec4(0., 0., 0., 1.), fadeFactor)`. */
  function FragColor(u: Uniforms, vUv: Vec2): Vec4
    requires Valid(u)
  {
    DimTowardBlack(TextureColor(u, vUv), FadeFactor(u.uRelativeAngle, MaxAngle(u.viewCone)))
  }

  // ---------------------------------------------------------------------------
  // Cell selection

  /** Whatever the raw index, both clamped indices are whole, lie in
      `[0, totalImages - 1]`, and the next one is the current one or one past it;
      it is one past exactly when `floor(raw)` is a valid index below the last. */
  lemma IndicesInRange(raw: real, n: int)
    requires 1 <= n
    ensures var c := CurrentCellIndex(raw, n as real);
            IsWhole(c) && 0.0 <= c <= (n - 1) as real
    ensures var x := NextCellIndex(raw, n as real);
            IsWhole(x) && 0.0 <= x <= (n - 1) as real
    ensures var c, x := CurrentCellIndex(raw, n as real), NextCellIndex(raw, n as real);
            x == c || x == c + 1.0
    ensures var c, x := CurrentCellIndex(raw, n as real), NextCellIndex(raw, n as real);
            x == c + 1.0 <==> 0.0 <= Floor(raw) < (n - 1) as real
  {
    var k := raw.Floor;
    assert Floor(raw) == k as real;
    ClampOfWhole(k, n - 1);
    ClampOfWhole(k + 1, n - 1);
    assert (k + 1) as real == Floor(raw) + 1.0;
  }

  /** Clamping never wraps: the indices grow with the raw index, stay at the first
      view below the cone and at the last view beyond it. */
  lemma IndicesNeverWrap(raw: real, raw': real, n: int)
    requires 1 <= n && raw <= raw'
    ensures CurrentCellIndex(raw, n as real) <= CurrentCellIndex(raw', n as real)
    ensures NextCellIndex(raw, n as real) <= NextCellIndex(raw', n as real)
    ensures raw < 0.0 ==> CurrentCellIndex(raw, n as real) == NextCellIndex(raw, n as real) == 0.0
    ensures (n - 1) as real <= raw ==>
              CurrentCellIndex(raw, n as real) == NextCellIndex(raw, n as real) == (n - 1) as real
  {
    FloorMonotone(raw, raw');
    ClampMonotone(Floor(raw), Floor(raw'), 0.0, (n - 1) as real);
    ClampMonotone(Floor(raw) + 1.0, Floor(raw') + 1.0, 0.0, (n - 1) as real);
    if raw < 0.0 {
      assert Floor(raw) <= -1.0;
    }
    if (n - 1) as real <= raw {
      FloorOfBracket((n - 1) as real, n - 1);
      FloorMonotone((n - 1) as real, raw);
    }
  }

  /** Seen head-on, an 8 x 12 quilt shows view 48 (column 0, row 6) unblended, for
      every cone width. */
  lemma HeadOnEightByTwelve(u: Uniforms)
    requires Valid(u) && u.quiltDims == QuiltDims(8, 12) && u.uRelativeAngle == 0.0
    ensures RawIndex(u) == 48.0
    ensures CurrentCellIndex(RawIndex(u), u.totalImages) == 48.0
    ensures NextCellIndex(RawIndex(u), u.totalImages) == 49.0
    ensures Fract(RawIndex(u)) == 0.0
    ensures CellOf(u.quiltDims, 48.0) == Vec2(0.0, 6.0)
  {
    NormalizedAngleAtMarks(MaxAngle(u.viewCone));
    FloorOfBracket(48.0, 48);
    CellOfIndex(u.quiltDims, 48);
  }

  /** At the negative edge of the cone the raw index is `totalImages`, clamped to the
      last view; at the positive edge the current view is the first one. Both edges
      show their view unblended. */
  lemma ConeEdges(u: Uniforms)
    requires Valid(u)
    ensures var m := MaxAngle(u.viewCone);
            u.uRelativeAngle == -m ==>
              RawIndex(u) == u.totalImages &&
              CurrentCellIndex(RawIndex(u), u.totalImages) == u.totalImages - 1.0 &&
              NextCellIndex(RawIndex(u), u.totalImages) == u.totalImages - 1.0 &&
              Fract(RawIndex(u)) == 0.0
    ensures var m := MaxAngle(u.viewCone);
            u.uRelativeAngle == m ==>
              RawIndex(u) == 0.0 &&
              CurrentCellIndex(RawIndex(u), u.totalImages) == 0.0 &&
              Fract(RawIndex(u)) == 0.0
  {
    var m := MaxAngle(u.viewCone);
    var n := TotalImages(u.quiltDims);
    NormalizedAngleAtMarks(m);
    if u.uRelativeAngle == -m {
      FloorOfBracket(n as real, n);
    }
    if u.uRelativeAngle == m {
      FloorOfBracket(0.0, 0);
    }
  }

  // ---------------------------------------------------------------------------
  // What the shader samples

  /** For `vUv` in the unit square, the two sampled coordinates lie in the cells of
      two valid view indices, each inside the unit square. */
  lemma SampledCellsInGrid(u: Uniforms, vUv: Vec2)
    requires Valid(u) && InUnitSquare(vUv)
    ensures var c := CurrentCellIndex(RawIndex(u), u.totalImages).Floor;
            var d := u.quiltDims;
            0 <= c < TotalImages(d) &&
            CellOf(d, c as real) == Vec2((c % d.columns) as real, (c / d.columns) as real) &&
            InCell(d, c % d.columns, c / d.columns, CurrentCellUv(u, vUv)) &&
            InUnitSquare(CurrentCellUv(u, vUv))
    ensures var x := NextCellIndex(RawIndex(u), u.totalImages).Floor;
            var d := u.quiltDims;
            0 <= x < TotalImages(d) &&
            CellOf(d, x as real) == Vec2((x % d.columns) as real, (x / d.columns) as real) &&
            InCell(d, x % d.columns, x / d.columns, NextCellUv(u, vUv)) &&
            InUnitSquare(NextCellUv(u, vUv))
  {
    var d := u.quiltDims;
    var n := TotalImages(d);
    IndicesInRange(RawIndex(u), n);
    var c := CurrentCellIndex(RawIndex(u), u.totalImages).Floor;
    var x := NextCellIndex(RawIndex(u), u.totalImages).Floor;
    CellOfIndex(d, c);
    CellOfIndex(d, x);
    CellUvInCell(d, c, vUv);
    CellUvInCell(d, x, vUv);
  }

  /** The output colour is the sampled colour dimmed by the fade: its RGB is
      `(1 - fade)` times the blended texture colour, at least half of it for
      non-negative channels and never brighter. */
  lemma FragColorDimming(u: Uniforms, vUv: Vec2)
    requires Valid(u)
    ensures var f, t, o := FadeFactor(u.uRelativeAngle, MaxAngle(u.viewCone)), TextureColor(u, vUv), FragColor(u, vUv);
            o.r == (1.0 - f) * t.r && o.g == (1.0 - f) * t.g && o.b == (1.0 - f) * t.b &&
            o.a == (1.0 - f) * t.a + f
    ensures var t, o := TextureColor(u, vUv), FragColor(u, vUv);
            (0.0 <= t.r ==> 0.5 * t.r <= o.r <= t.r) &&
            (0.0 <= t.g ==> 0.5 * t.g <= o.g <= t.g) &&
            (0.0 <= t.b ==> 0.5 * t.b <= o.b <= t.b)
  {
    DimKeepsHalf(TextureColor(u, vUv), FadeFactor(u.uRelativeAngle, MaxAngle(u.viewCone)));
  }
}
