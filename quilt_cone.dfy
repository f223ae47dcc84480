/** What both versions of the quilt fragment shader compute the same way in `main`:
    half the viewing cone in radians, the angle's position in the cone, the edge
    fade, and the final dimming toward black. */
module QuiltCone {
  import opened Glsl

  /** `radians(viewCone * .5)`: half the cone, in radians. */
  function MaxAngle(viewCone: real): (m: real)
    ensures 0.0 < viewCone ==> 0.0 < m
  {
    Radians(viewCone * 0.5)
  }

  /** `(maxAngle - angle) / (2 * maxAngle)`: the position of the angle in the cone,
      1 at `-maxAngle` and 0 at `+maxAngle`. */
  function NormalizedAngle(angle: real, maxAngle: real): real
    requires 0.0 < maxAngle
  {
    (maxAngle - angle) / (2.0 * maxAngle)
  }

  /** `normalizedAngle * totalImages`: the position in the cone scaled to a
      fractional view index, before flooring and clamping. */
  function ScaledViewIndex(normalizedAngle: real, totalImages: real): real {
    normalizedAngle * totalImages
  }

  /** `clamp(pow(abs(angle) / maxAngle, 5.), 0., .5)`. */
  function FadeFactor(angle: real, maxAngle: real): (f: real)
    requires 0.0 < maxAngle
    ensures 0.0 <= f <= 0.5
  {
    Clamp(Pow5(Abs(angle) / maxAngle), 0.0, 0.5)
  }

  /** `mix(textureColor, vec4(0., 0., 0., 1.), fadeFactor)`. */
  function DimTowardBlack(color: Vec4, fade: real): Vec4 {
    MixVec4(color, Vec4(0.0, 0.0, 0.0, 1.0), fade)
  }

  // ---------------------------------------------------------------------------
  // The viewing cone

  /** The cone maps onto `[0, 1]`: the centre to one half, `+maxAngle` to 0 and
      `-maxAngle` to 1. */
  lemma NormalizedAngleAtMarks(maxAngle: real)
    requires 0.0 < maxAngle
    ensures NormalizedAngle(0.0, maxAngle) == 0.5
    ensures NormalizedAngle(maxAngle, maxAngle) == 0.0
    ensures NormalizedAngle(-maxAngle, maxAngle) == 1.0
  {
  }

  /** A larger angle (camera further to the positive side) gives a smaller position. */
  lemma NormalizedAngleDecreasing(angle: real, angle': real, maxAngle: real)
    requires 0.0 < maxAngle && angle < angle'
    ensures NormalizedAngle(angle', maxAngle) < NormalizedAngle(angle, maxAngle)
  {
    var k := 1.0 / (2.0 * maxAngle);
    assert 0.0 < k;
    assert NormalizedAngle(angle, maxAngle) == (maxAngle - angle) * k;
    assert NormalizedAngle(angle', maxAngle) == (maxAngle - angle') * k;
    assert (maxAngle - angle') * k < (maxAngle - angle) * k;
  }

  // ---------------------------------------------------------------------------
  // The edge fade

  /** The fade is 0 head-on, symmetric in the angle, grows with `|angle|`, and is at
      its cap of one half from the cone's edge outward. */
  lemma FadeFactorShape(angle: real, angle': real, maxAngle: real)
    requires 0.0 < maxAngle
    ensures FadeFactor(0.0, maxAngle) == 0.0
    ensures FadeFactor(-angle, maxAngle) == FadeFactor(angle, maxAngle)
    ensures Abs(angle) <= Abs(angle') ==> FadeFactor(angle, maxAngle) <= FadeFactor(angle', maxAngle)
    ensures maxAngle <= Abs(angle) ==> FadeFactor(angle, maxAngle) == 0.5
  {
    assert Abs(0.0) / maxAngle == 0.0;
    assert Abs(-angle) == Abs(angle);
    if Abs(angle) <= Abs(angle') {
      FadeRatioMonotone(Abs(angle), Abs(angle'), maxAngle);
    }
    if maxAngle <= Abs(angle) {
      FadeRatioMonotone(maxAngle, Abs(angle), maxAngle);
    }
  }

  /** The fade grows with the ratio `|angle| / maxAngle`. */
  lemma FadeRatioMonotone(a: real, a': real, maxAngle: real)
    requires 0.0 <= a <= a' && 0.0 < maxAngle
    ensures Clamp(Pow5(a / maxAngle), 0.0, 0.5) <= Clamp(Pow5(a' / maxAngle), 0.0, 0.5)
    ensures a == maxAngle ==> Clamp(Pow5(a' / maxAngle), 0.0, 0.5) == 0.5
  {
    var k := 1.0 / maxAngle;
    assert a / maxAngle == a * k && a' / maxAngle == a' * k;
    MulMonotone(a, a', k, k);
    Pow5Monotone(a / maxAngle, a' / maxAngle);
    ClampMonotone(Pow5(a / maxAngle), Pow5(a' / maxAngle), 0.0, 0.5);
    if a == maxAngle {
      assert a / maxAngle == 1.0;
    }
  }

  /** The dimmed colour's RGB is `(1 - fade)` times the input's, so for
      non-negative channels it keeps at least half of each and never brightens it;
      alpha moves toward 1 by the fade. */
  lemma DimKeepsHalf(color: Vec4, fade: real)
    requires 0.0 <= fade <= 0.5
    ensures var o := DimTowardBlack(color, fade);
            o.r == (1.0 - fade) * color.r && o.g == (1.0 - fade) * color.g &&
            o.b == (1.0 - fade) * color.b && o.a == (1.0 - fade) * color.a + fade
    ensures var o := DimTowardBlack(color, fade);
            (0.0 <= color.r ==> 0.5 * color.r <= o.r <= color.r) &&
            (0.0 <= color.g ==> 0.5 * color.g <= o.g <= color.g) &&
            (0.0 <= color.b ==> 0.5 * color.b <= o.b <= color.b)
  {
    DimChannel(color.r, fade);
    DimChannel(color.g, fade);
    DimChannel(color.b, fade);
  }

  /** One channel scaled by `1 - f` with `f` in `[0, 1/2]`. */
  lemma DimChannel(c: real, f: real)
    requires 0.0 <= f <= 0.5
    ensures Mix(c, 0.0, f) == (1.0 - f) * c
    ensures 0.0 <= c ==> 0.5 * c <= (1.0 - f) * c <= c
  {
    if 0.0 <= c {
      MulMonotone(0.5, 1.0 - f, c, c);
      MulMonotone(1.0 - f, 1.0, c, c);
    }
  }
}
