/** The card geometry of `src/components/RoundedRect.js`: a rounded-rectangle outline
    built from `moveTo` / `lineTo` / `quadraticCurveTo` calls, and the loop that
    rescales the triangulated plane's UV buffer so that the rectangle maps onto the
    unit square. */
module RoundedRect {

  datatype Point = Point(x: real, y: real)

  /** The curves a shape path collects: a straight segment, or a quadratic Bezier
      curve with one control point. */
  datatype Curve =
    | Line(start: Point, end: Point)
    | Quadratic(start: Point, control: Point, end: Point)

  /** A shape path under construction: the pen position and the curves so far. */
  datatype Shape = Shape(currentPoint: Point, curves: seq<Curve>)

  /** Each curve begins where the previous one ended and the pen rests at the end of
      the last one. */
  predicate Connected(s: Shape) {
    (forall k :: 0 < k < |s.curves| ==> s.curves[k].start == s.curves[k - 1].end) &&
    (|s.curves| > 0 ==> s.curves[|s.curves| - 1].end == s.currentPoint)
  }

  // ---------------------------------------------------------------------------
  // The path builder

  /** `new Shape()`: no curves, pen at the origin. */
  function NewShape(): (s: Shape)
    ensures s.curves == []
  {
    Shape(Point(0.0, 0.0), [])
  }

  /** `moveTo(x, y)` lifts the pen: it adds no curve, and on a connected path it
      keeps the path connected exactly when nothing has been drawn yet or the pen
      does not move. */
  function MoveTo(s: Shape, x: real, y: real): (r: Shape)
    ensures r.curves == s.curves && r.currentPoint == Point(x, y)
    ensures Connected(s) ==> (Connected(r) <==> s.curves == [] || s.currentPoint == Point(x, y))
  {
    s.(currentPoint := Point(x, y))
  }

  /** `lineTo(x, y)` draws from the pen to `(x, y)`, keeping what was drawn and
      keeping the path connected. */
  function LineTo(s: Shape, x: real, y: real): (r: Shape)
    ensures |r.curves| == |s.curves| + 1 && r.curves[..|s.curves|] == s.curves
    ensures r.curves[|s.curves|].Line?
    ensures r.curves[|s.curves|].start == s.currentPoint && r.curves[|s.curves|].end == Point(x, y)
    ensures r.currentPoint == Point(x, y)
    ensures Connected(s) ==> Connected(r)
  {
    Shape(Point(x, y), s.curves + [Line(s.currentPoint, Point(x, y))])
  }

  /** `quadraticCurveTo(cx, cy, x, y)` draws a curve from the pen to `(x, y)` pulled
      toward `(cx, cy)`, keeping what was drawn and keeping the path connected. */
  function QuadraticCurveTo(s: Shape, cx: real, cy: real, x: real, y: real): (r: Shape)
    ensures |r.curves| == |s.curves| + 1 && r.curves[..|s.curves|] == s.curves
    ensures r.curves[|s.curves|].Quadratic? && r.curves[|s.curves|].control == Point(cx, cy)
    ensures r.curves[|s.curves|].start == s.currentPoint && r.curves[|s.curves|].end == Point(x, y)
    ensures r.currentPoint == Point(x, y)
    ensures Connected(s) ==> Connected(r)
  {
    Shape(Point(x, y), s.curves + [Quadratic(s.currentPoint, Point(cx, cy), Point(x, y))])
  }

  /** `createRoundedRectShape(width, height, radius)`: the rectangle centred on the
      origin, each corner cut by a quadratic curve whose control point is the corner. */
  function CreateRoundedRectShape(width: real, height: real, radius: real): (s: Shape)
    ensures Connected(s) && |s.curves| == 8
  {
    var offsetX := -width / 2.0;
    var offsetY := -height / 2.0;
    var s0 := MoveTo(NewShape(), offsetX, offsetY + radius);
    var s1 := LineTo(s0, offsetX, offsetY + height - radius);
    var s2 := QuadraticCurveTo(s1, offsetX, offsetY + height, offsetX + radius, offsetY + height);
    var s3 := LineTo(s2, offsetX + width - radius, offsetY + height);
    var s4 := QuadraticCurveTo(s3, offsetX + width, offsetY + height, offsetX + width, offsetY + height - radius);
    var s5 := LineTo(s4, offsetX + width, offsetY + radius);
    var s6 := QuadraticCurveTo(s5, offsetX + width, offsetY, offsetX + width - radius, offsetY);
    var s7 := LineTo(s6, offsetX + radius, offsetY);
    QuadraticCurveTo(s7, offsetX, offsetY, offsetX, offsetY + radius)
  }

  // ---------------------------------------------------------------------------
  // Properties of the outline

  /** The points a curve is defined by: end points, and the control point of a quadratic. */
  function DefiningPoints(c: Curve): seq<Point> {
    match c
    case Line(a, b) => [a, b]
    case Quadratic(a, k, b) => [a, k, b]
  }

  /** The closed rectangle `[-w/2, w/2] x [-h/2, h/2]`. */
  predicate InRect(p: Point, width: real, height: real) {
    -width / 2.0 <= p.x <= width / 2.0 && -height / 2.0 <= p.y <= height / 2.0
  }

  /** The four corners of the rectangle. */
  function Corners(width: real, height: real): set<Point> {
    {Point(-width / 2.0, -height / 2.0), Point(-width / 2.0, height / 2.0),
     Point(width / 2.0, height / 2.0), Point(width / 2.0, -height / 2.0)}
  }

  /** `p` lies on an edge through `corner`, at distance `r` from it. */
  predicate AlongEdge(p: Point, corner: Point, r: real) {
    (p.x == corner.x && (p.y == corner.y + r || p.y == corner.y - r)) ||
    (p.y == corner.y && (p.x == corner.x + r || p.x == corner.x - r))
  }

  /** The sign of a corner coordinate of a rectangle centred on the origin. */
  function Sgn(v: real): real {
    if 0.0 < v then 1.0 else -1.0
  }

  /** `p` lies on one of the two rectangle edges meeting at `corner`, at distance `r`
      from it, moving from the corner toward the centre (not along an edge's
      outward extension). */
  predicate InwardAlongEdge(p: Point, corner: Point, r: real) {
    p == Point(corner.x, corner.y - r * Sgn(corner.y)) ||
    p == Point(corner.x - r * Sgn(corner.x), corner.y)
  }

  /** The outline is closed: it starts at `(-w/2, -h/2 + r)` and its last curve ends
      there, where the pen also rests. */
  lemma OutlineClosed(width: real, height: real, radius: real)
    ensures var s := CreateRoundedRectShape(width, height, radius);
            s.curves[0].start == Point(-width / 2.0, -height / 2.0 + radius) &&
            s.curves[7].end == s.curves[0].start &&
            s.currentPoint == s.curves[0].start
  {
  }

  /** Lines and corner curves alternate; every line is vertical or horizontal. */
  lemma OutlineLinesAxisAligned(width: real, height: real, radius: real)
    ensures var s := CreateRoundedRectShape(width, height, radius);
            forall k :: 0 <= k < 8 ==>
              (k % 2 == 0 <==> s.curves[k].Line?) &&
              (s.curves[k].Line? ==> s.curves[k].start.x == s.curves[k].end.x ||
                                     s.curves[k].start.y == s.curves[k].end.y)
  {
    var s := CreateRoundedRectShape(width, height, radius);
    forall k | 0 <= k < 8
      ensures (k % 2 == 0 <==> s.curves[k].Line?) &&
              (s.curves[k].Line? ==> s.curves[k].start.x == s.curves[k].end.x ||
                                     s.curves[k].start.y == s.curves[k].end.y)
    {
      assert k == 0 || k == 1 || k == 2 || k == 3 || k == 4 || k == 5 || k == 6 || k == 7;
    }
  }

  /** The control points of the four curves are exactly the four corners, and each
      curve runs from a point `radius` along one edge of its corner to a point
      `radius` along the other edge. For a rectangle of positive size both points
      lie on the rectangle's own edges, `radius` in from the corner. */
  lemma OutlineCorners(width: real, height: real, radius: real)
    ensures var s := CreateRoundedRectShape(width, height, radius);
            {s.curves[1].control, s.curves[3].control, s.curves[5].control, s.curves[7].control}
              == Corners(width, height)
    ensures var s := CreateRoundedRectShape(width, height, radius);
            forall k :: 0 <= k < 8 && s.curves[k].Quadratic? ==>
              var c := s.curves[k];
              AlongEdge(c.start, c.control, radius) && AlongEdge(c.end, c.control, radius) &&
              (c.start.x == c.control.x <==> c.end.y == c.control.y)
    ensures var s := CreateRoundedRectShape(width, height, radius);
            0.0 < width && 0.0 < height ==>
              forall k :: 0 <= k < 8 && s.curves[k].Quadratic? ==>
                var c := s.curves[k];
                InwardAlongEdge(c.start, c.control, radius) && InwardAlongEdge(c.end, c.control, radius)
  {
    var s := CreateRoundedRectShape(width, height, radius);
    forall k | 0 <= k < 8 && s.curves[k].Quadratic?
      ensures var c := s.curves[k];
              AlongEdge(c.start, c.control, radius) && AlongEdge(c.end, c.control, radius) &&
              (c.start.x == c.control.x <==> c.end.y == c.control.y)
    {
      assert k == 1 || k == 3 || k == 5 || k == 7;
    }
    if 0.0 < width && 0.0 < height {
      forall k | 0 <= k < 8 && s.curves[k].Quadratic?
        ensures var c := s.curves[k];
                InwardAlongEdge(c.start, c.control, radius) && InwardAlongEdge(c.end, c.control, radius)
      {
        assert k == 1 || k == 3 || k == 5 || k == 7;
      }
    }
  }

  /** When the radius is at most the shorter side, every end point and control point
      of the outline lies in the rectangle. (Above half the shorter side the two
      straight segments along the shorter side run backwards, but the points stay
      inside.) */
  lemma OutlineInsideRect(width: real, height: real, radius: real)
    requires 0.0 <= radius && radius <= width && radius <= height
    ensures var s := CreateRoundedRectShape(width, height, radius);
            forall k, j :: 0 <= k < 8 && 0 <= j < |DefiningPoints(s.curves[k])| ==>
              InRect(DefiningPoints(s.curves[k])[j], width, height)
  {
    var s := CreateRoundedRectShape(width, height, radius);
    forall k, j | 0 <= k < 8 && 0 <= j < |DefiningPoints(s.curves[k])|
      ensures InRect(DefiningPoints(s.curves[k])[j], width, height)
    {
      assert k == 0 || k == 1 || k == 2 || k == 3 || k == 4 || k == 5 || k == 6 || k == 7;
    }
  }

  // ---------------------------------------------------------------------------
  // UV normalisation

  /** The rule applied to one UV entry: `u / width + 0.5` at even positions,
      `v / height + 0.5` at odd ones. */
  function NormalizedEntry(value: real, position: int, width: real, height: real): real
    requires width != 0.0 && height != 0.0
  {
    if position % 2 == 0 then value / width + 0.5 else value / height + 0.5
  }

  /** The whole buffer after normalisation: every entry rewritten once by its rule. */
  function NormalizedUvs(uvs: seq<real>, width: real, height: real): (r: seq<real>)
    requires width != 0.0 && height != 0.0
    ensures |r| == |uvs|
  {
    seq(|uvs|, k requires 0 <= k < |uvs| => NormalizedEntry(uvs[k], k, width, height))
  }

  /** Undoes the normalisation: `(u - 0.5) * width` and `(v - 0.5) * height`. */
  function PositionsOfUvs(uvs: seq<real>, width: real, height: real): (r: seq<real>)
    ensures |r| == |uvs|
  {
    seq(|uvs|, k requires 0 <= k < |uvs| =>
      if k % 2 == 0 then (uvs[k] - 0.5) * width else (uvs[k] - 0.5) * height)
  }

  /** Normalisation loses nothing: the positions can be read back from the UVs. */
  lemma NormalizedUvsInvertible(uvs: seq<real>, width: real, height: real)
    requires width != 0.0 && height != 0.0
    ensures PositionsOfUvs(NormalizedUvs(uvs, width, height), width, height) == uvs
  {
    var n := NormalizedUvs(uvs, width, height);
    forall k | 0 <= k < |uvs|
      ensures PositionsOfUvs(n, width, height)[k] == uvs[k]
    {
      if k % 2 == 0 {
        assert (uvs[k] / width + 0.5 - 0.5) * width == uvs[k];
      } else {
        assert (uvs[k] / height + 0.5 - 0.5) * height == uvs[k];
      }
    }
  }

  /** A vertex in the rectangle gets texture coordinates in the unit square, and the
      centre gets `(0.5, 0.5)`. */
  lemma VertexUvInUnitSquare(p: Point, width: real, height: real)
    requires 0.0 < width && 0.0 < height
    ensures var u, v := NormalizedEntry(p.x, 0, width, height), NormalizedEntry(p.y, 1, width, height);
            InRect(p, width, height) ==> 0.0 <= u <= 1.0 && 0.0 <= v <= 1.0
    ensures p == Point(0.0, 0.0) ==>
              NormalizedEntry(p.x, 0, width, height) == 0.5 && NormalizedEntry(p.y, 1, width, height) == 0.5
  {
    if InRect(p, width, height) {
      AxisToUnit(p.x, width);
      AxisToUnit(p.y, height);
    }
  }

  /** Under the same radius bound, every point defining the outline gets texture
      coordinates in the unit square. */
  lemma OutlineUvsInUnitSquare(width: real, height: real, radius: real)
    requires 0.0 < width && 0.0 < height
    requires 0.0 <= radius && radius <= width && radius <= height
    ensures var s := CreateRoundedRectShape(width, height, radius);
            forall k, j :: 0 <= k < 8 && 0 <= j < |DefiningPoints(s.curves[k])| ==>
              var p := DefiningPoints(s.curves[k])[j];
              0.0 <= NormalizedEntry(p.x, 0, width, height) <= 1.0 &&
              0.0 <= NormalizedEntry(p.y, 1, width, height) <= 1.0
  {
    var s := CreateRoundedRectShape(width, height, radius);
    OutlineInsideRect(width, height, radius);
    forall k, j | 0 <= k < 8 && 0 <= j < |DefiningPoints(s.curves[k])|
      ensures var p := DefiningPoints(s.curves[k])[j];
              0.0 <= NormalizedEntry(p.x, 0, width, height) <= 1.0 &&
              0.0 <= NormalizedEntry(p.y, 1, width, height) <= 1.0
    {
      VertexUvInUnitSquare(DefiningPoints(s.curves[k])[j], width, height);
    }
  }

  /** One axis: `[-s/2, s/2]` scaled by `1/s` and shifted by one half is `[0, 1]`. */
  lemma AxisToUnit(c: real, size: real)
    requires 0.0 < size && -size / 2.0 <= c <= size / 2.0
    ensures 0.0 <= c / size + 0.5 <= 1.0
  {
    var k := 1.0 / size;
    assert c / size == c * k;
    assert (-size / 2.0) * k == -0.5 && (size / 2.0) * k == 0.5;
    assert (-size / 2.0) * k <= c * k <= (size / 2.0) * k;
  }

  /** The loop of the geometry constructor: walks the buffer two entries at a time,
      scaling and then centring the u and v of each pair. A final unpaired entry gets
      the u rule; the write past the end that it implies is dropped, as a typed array
      drops it. */
  method NormalizeUvBuffer(uvs: array<real>, width: real, height: real)
    requires width != 0.0 && height != 0.0
    modifies uvs
    ensures uvs[..] == NormalizedUvs(old(uvs[..]), width, height)
  {
    var i := 0;
    while i < uvs.Length
      invariant 0 <= i <= uvs.Length + 1 && i % 2 == 0
      invariant forall k :: 0 <= k < uvs.Length ==>
                  uvs[k] == if k < i then NormalizedEntry(old(uvs[k]), k, width, height) else old(uvs[k])
    {
      uvs[i] := uvs[i] / width;
      if i + 1 < uvs.Length {
        uvs[i + 1] := uvs[i + 1] / height;
      }
      uvs[i] := uvs[i] + 0.5;
      if i + 1 < uvs.Length {
        uvs[i + 1] := uvs[i + 1] + 0.5;
      }
      i := i + 2;
    }
  }

  /** The geometry constructor: builds the outline and normalises the UV buffer that
      triangulating it produced (supplied here as `uvs`). */
  method RoundedRectGeometry(width: real, height: real, radius: real, uvs: array<real>)
    returns (shape: Shape)
    requires width != 0.0 && height != 0.0
    modifies uvs
    ensures shape == CreateRoundedRectShape(width, height, radius)
    ensures uvs[..] == NormalizedUvs(old(uvs[..]), width, height)
  {
    shape := CreateRoundedRectShape(width, height, radius);
    NormalizeUvBuffer(uvs, width, height);
  }
}
