/** The GLSL ES built-ins the quilt shaders use, with `float` idealised as `real`.
    Each function follows its definition in chapter 8, "Built-in Functions", of the
    OpenGL ES Shading Language 1.00 specification: `radians` in section 8.1, `pow` in
    8.2, `abs`, `floor`, `fract`, `mod`, `clamp` and `mix` in 8.3, `texture2D` in
    8.7. */
module Glsl {

  /** `vec2`: a texture coordinate or a pair of quilt dimensions. */
  datatype Vec2 = Vec2(x: real, y: real)

  /** `vec4`: an RGBA colour. */
  datatype Vec4 = Vec4(r: real, g: real, b: real, a: real)

  /** A `sampler2D` bound to a texture: `texture2D(sampler, uv)` is applying it to `uv`.
      What the texture holds is not modelled; it is any total function. */
  type Sampler = Vec2 -> Vec4

  const Pi: real := 3.141592653589793

  /** A real with no fractional part, i.e. a `float` holding an integer. */
  predicate IsWhole(x: real) {
    x.Floor as real == x
  }

  /** `floor(x)`: the largest whole number not above `x`. */
  function Floor(x: real): (r: real)
    ensures IsWhole(r) && r <= x < r + 1.0
  {
    x.Floor as real
  }

  /** `fract(x) = x - floor(x)`. */
  function Fract(x: real): (r: real)
    ensures 0.0 <= r < 1.0
    ensures Floor(x) + r == x
  {
    x - Floor(x)
  }

  function Min(x: real, y: real): (r: real)
    ensures r <= x && r <= y && (r == x || r == y)
  {
    if x <= y then x else y
  }

  function Max(x: real, y: real): (r: real)
    ensures x <= r && y <= r && (r == x || r == y)
  {
    if x <= y then y else x
  }

  function Abs(x: real): (r: real)
    ensures 0.0 <= r && (r == x || r == -x)
  {
    if x < 0.0 then -x else x
  }

  /** `clamp(x, lo, hi) = min(max(x, lo), hi)`; GLSL leaves `lo > hi` undefined. */
  function Clamp(x: real, lo: real, hi: real): (r: real)
    ensures lo <= hi ==> lo <= r <= hi
    ensures lo <= x <= hi ==> r == x
    ensures lo <= hi && x <= lo ==> r == lo
    ensures lo <= hi && hi <= x ==> r == hi
  {
    Min(Max(x, lo), hi)
  }

  /** `mod(x, y) = x - y * floor(x / y)`. */
  function Mod(x: real, y: real): (r: real)
    requires y != 0.0
    ensures 0.0 < y ==> 0.0 <= r < y
  {
    ModBounds(x, y);
    x - y * Floor(x / y)
  }

  /** `mix(x, y, a) = x * (1 - a) + y * a`. */
  function Mix(x: real, y: real, a: real): real {
    x * (1.0 - a) + y * a
  }

  /** `mix` on a `vec4`, channel by channel with one weight. */
  function MixVec4(x: Vec4, y: Vec4, a: real): Vec4 {
    Vec4(Mix(x.r, y.r, a), Mix(x.g, y.g, a), Mix(x.b, y.b, a), Mix(x.a, y.a, a))
  }

  /** `x * x`. */
  function Sq(x: real): (r: real)
    ensures 0.0 <= r
  {
    MulSelfNonNegative(x);
    x * x
  }

  /** `pow(t, 5.)` on the non-negative arguments the shaders give it, computed as
      `(t * t) * (t * t) * t`. */
  function Pow5(t: real): (r: real)
    requires 0.0 <= t
    ensures 0.0 <= r
    ensures t <= 1.0 ==> r <= 1.0
    ensures 1.0 <= t ==> 1.0 <= r
  {
    MulUnitBounds(t, t);
    MulUnitBounds(Sq(t), Sq(t));
    MulUnitBounds(Sq(Sq(t)), t);
    Sq(Sq(t)) * t
  }

  /** `radians(degrees) = degrees * pi / 180`. */
  function Radians(degrees: real): (r: real)
    ensures 0.0 < degrees ==> 0.0 < r
  {
    degrees * Pi / 180.0
  }

  // ---------------------------------------------------------------------------
  // Facts about the built-ins

  /** Product of non-negative reals is monotone in both factors. */
  lemma MulMonotone(a: real, b: real, c: real, d: real)
    requires 0.0 <= a <= b && 0.0 <= c <= d
    ensures a * c <= b * d
  {
    assert a * c <= b * c;
    assert b * c <= b * d;
  }

  /** Multiplying non-negative reals keeps the product on the same side of 1. */
  lemma MulUnitBounds(a: real, c: real)
    requires 0.0 <= a && 0.0 <= c
    ensures 0.0 <= a * c
    ensures a <= 1.0 && c <= 1.0 ==> a * c <= 1.0
    ensures 1.0 <= a && 1.0 <= c ==> 1.0 <= a * c
  {
    MulMonotone(0.0, a, 0.0, c);
    if a <= 1.0 && c <= 1.0 {
      MulMonotone(a, 1.0, c, 1.0);
    }
    if 1.0 <= a && 1.0 <= c {
      MulMonotone(1.0, a, 1.0, c);
    }
  }

  /** `floor` is determined by the whole number just below its argument. */
  lemma FloorOfBracket(x: real, n: int)
    requires n as real <= x < n as real + 1.0
    ensures Floor(x) == n as real
  {
    var k := x.Floor;
    assert k as real <= x < k as real + 1.0;
    assert n as real < k as real + 1.0;
    assert k as real < n as real + 1.0;
    assert n < k + 1 && k < n + 1;
  }

  /** `floor` is monotone. */
  lemma FloorMonotone(x: real, y: real)
    requires x <= y
    ensures Floor(x) <= Floor(y)
  {
    var k, j := x.Floor, y.Floor;
    assert k as real <= x <= y < j as real + 1.0;
    assert k < j + 1;
  }

  /** On whole, non-negative operands GLSL's `mod` and `floor(x / y)` are integer
      remainder and quotient. */
  lemma ModOfWhole(i: int, n: int)
    requires 0 <= i && 1 <= n
    ensures Mod(i as real, n as real) == (i % n) as real
    ensures Floor(i as real / n as real) == (i / n) as real
  {
    var q, m := i / n, i % n;
    assert i == q * n + m && 0 <= m < n;
    assert i as real == q as real * n as real + m as real;
    var f := m as real / n as real;
    assert 0.0 <= f < 1.0;
    assert i as real / n as real == q as real + f;
    FloorOfBracket(i as real / n as real, q);
  }

  /** For a positive divisor, `x - y * floor(x / y)` lies in `[0, y)`. */
  lemma ModBounds(x: real, y: real)
    requires y != 0.0
    ensures 0.0 < y ==> 0.0 <= x - y * Floor(x / y) < y
  {
    if 0.0 < y {
      var q := x / y;
      var f := Floor(q);
      var t := q - f;
      assert 0.0 <= t < 1.0;
      assert x - y * f == y * t;
      MulBelow(y, t);
      assert x - y * Floor(x / y) == y * t;
    }
  }

  /** A positive number times a fraction in `[0, 1)` is in `[0, y)`. */
  lemma MulBelow(y: real, t: real)
    requires 0.0 < y && 0.0 <= t < 1.0
    ensures 0.0 <= y * t < y
  {
    MulMonotone(0.0, y, 0.0, t);
    assert y - y * t == y * (1.0 - t);
    assert 0.0 < y * (1.0 - t);
  }

  /** `pow(t, 5.)` is monotone on non-negative arguments. */
  lemma Pow5Monotone(s: real, t: real)
    requires 0.0 <= s <= t
    ensures Pow5(s) <= Pow5(t)
  {
    MulMonotone(s, t, s, t);
    MulMonotone(Sq(s), Sq(t), Sq(s), Sq(t));
    MulMonotone(Sq(Sq(s)), Sq(Sq(t)), s, t);
  }

  /** A square is never negative. */
  lemma MulSelfNonNegative(x: real)
    ensures 0.0 <= x * x
  {
    if x < 0.0 {
      MulMonotone(0.0, -x, 0.0, -x);
    } else {
      MulMonotone(0.0, x, 0.0, x);
    }
  }

  /** `clamp` is monotone in its first argument. */
  lemma ClampMonotone(x: real, y: real, lo: real, hi: real)
    requires x <= y && lo <= hi
    ensures Clamp(x, lo, hi) <= Clamp(y, lo, hi)
  {
  }

  /** `mix` with a weight in `[0, 1]` lies between its two end points, and is the
      first one at weight 0 and the second at weight 1. */
  lemma MixBetween(x: real, y: real, a: real)
    requires 0.0 <= a <= 1.0
    ensures Min(x, y) <= Mix(x, y, a) <= Max(x, y)
    ensures a == 0.0 ==> Mix(x, y, a) == x
    ensures a == 1.0 ==> Mix(x, y, a) == y
  {
    assert Mix(x, y, a) == x + (y - x) * a;
    if x <= y {
      MulMonotone(y - x, y - x, 0.0, a);
      MulMonotone(y - x, y - x, a, 1.0);
    } else {
      MulMonotone(x - y, x - y, 0.0, a);
      MulMonotone(x - y, x - y, a, 1.0);
      assert (y - x) * a == -((x - y) * a);
    }
  }

  /** `clamp` of a whole number to `[0, hi]` is the integer clamp. */
  lemma ClampOfWhole(k: int, hi: int)
    requires 0 <= hi
    ensures Clamp(k as real, 0.0, hi as real) == (if k < 0 then 0 else if hi < k then hi else k) as real
    ensures IsWhole(Clamp(k as real, 0.0, hi as real))
  {
    var r := if k < 0 then 0 else if hi < k then hi else k;
    FloorOfBracket(r as real, r);
  }
}
