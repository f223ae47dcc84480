/** The two copies of the quilt material agree: for the same texture, grid, cone and
    angle, the factored shader samples the same two coordinates with the same blend
    fraction as the inline one, and so outputs the same colour. */
module QuiltEquivalence {
  import opened Glsl
  import opened QuiltGrid
  import opened QuiltCone
  import Inline = QuiltInline
  import Factored = QuiltFactored

  /** Two uniform tables holding the same texture, angle, grid, cone and view count. */
  ghost predicate Corresponds(a: Inline.Uniforms, b: Factored.Uniforms) {
    a.uTexture == b.uTexture && a.uRelativeAngle == b.uRelativeAngle &&
    a.quiltDims == b.quiltDims && a.viewCone == b.viewCone && a.totalImages == b.totalImages
  }

  /** Same cells, same blend fraction, same colour. */
  lemma SameSelection(a: Inline.Uniforms, b: Factored.Uniforms, vUv: Vec2)
    requires Inline.Valid(a) && Factored.Valid(b) && Corresponds(a, b)
    ensures var angle := NormalizedAngle(b.uRelativeAngle, MaxAngle(b.viewCone));
            var i := Factored.ViewIndex(angle, b.totalImages);
            Factored.CellSampleUv(b, vUv, i) == Inline.CurrentCellUv(a, vUv) &&
            Factored.CellSampleUv(b, vUv, i + 1.0) == Inline.NextCellUv(a, vUv) &&
            Factored.ViewFrac(angle, b.totalImages) == Fract(Inline.RawIndex(a))
    ensures Factored.FragColor(b, vUv) == Inline.FragColor(a, vUv)
  {
    var angle := NormalizedAngle(b.uRelativeAngle, MaxAngle(b.viewCone));
    var raw := Inline.RawIndex(a);
    assert raw == ScaledViewIndex(angle, b.totalImages);
    SameMix(a, b, vUv, raw);
    assert Factored.MixCellColor(b, vUv, angle) == Inline.TextureColor(a, vUv);
  }

  /** The two blends agree for every raw index. */
  lemma SameMix(a: Inline.Uniforms, b: Factored.Uniforms, vUv: Vec2, raw: real)
    requires Inline.Valid(a) && Factored.Valid(b) && Corresponds(a, b)
    ensures Factored.CellSampleUv(b, vUv, Floor(raw)) ==
            Inline.CellUvFor(a, vUv, Inline.CurrentCellIndex(raw, a.totalImages))
    ensures Factored.CellSampleUv(b, vUv, Floor(raw) + 1.0) ==
            Inline.CellUvFor(a, vUv, Inline.NextCellIndex(raw, a.totalImages))
  {
    SameSample(a, b, vUv, Floor(raw));
    SameSample(a, b, vUv, Floor(raw) + 1.0);
  }

  /** Clamping inside `cellColor` and clamping before the lookup, as the inline
      shader does, give the same coordinate. */
  lemma SameSample(a: Inline.Uniforms, b: Factored.Uniforms, vUv: Vec2, index: real)
    requires Inline.Valid(a) && Factored.Valid(b) && Corresponds(a, b)
    ensures Factored.CellSampleUv(b, vUv, index) ==
            Inline.CellUvFor(a, vUv, Clamp(index, 0.0, a.totalImages - 1.0))
  {
  }

  /** Two materials built from the same arguments and given the same angle hold
      corresponding uniform tables. */
  method BuildBoth(texture: Sampler, quiltDims: QuiltDims, maxViewingAngle: real, angle: real)
    returns (a: Inline.Uniforms, b: Factored.Uniforms)
    requires ValidDims(quiltDims)
    ensures Corresponds(a, b) && a.uRelativeAngle == angle
    ensures Inline.Valid(a) <==> 0.0 < maxViewingAngle
    ensures Factored.Valid(b) <==> 0.0 < maxViewingAngle
  {
    var inline := new Inline.QuiltMaterial(texture, quiltDims, maxViewingAngle);
    var factored := new Factored.QuiltMaterial(texture, quiltDims, maxViewingAngle);
    inline.SetRelativeAngle(angle);
    factored.SetRelativeAngle(angle);
    a, b := inline.uniforms, factored.uniforms;
  }
}
