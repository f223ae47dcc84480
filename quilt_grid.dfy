/** The quilt layout both shader versions share: a texture packing `columns x rows`
    views in a grid, the view index to grid cell decomposition (column `mod(i, x)`,
    row `floor(i / x)`), and where a cell's texture coordinates fall. */
module QuiltGrid {
  import opened Glsl

  /** `quiltDims`: the column count (x) and the row count (y) of views. */
  datatype QuiltDims = QuiltDims(columns: int, rows: int)

  predicate ValidDims(d: QuiltDims) {
    1 <= d.columns && 1 <= d.rows
  }

  /** The number of views, `quiltDims.x * quiltDims.y`. */
  function TotalImages(d: QuiltDims): (n: int)
    requires ValidDims(d)
    ensures d.columns <= n && d.rows <= n
  {
    assert d.columns * 1 <= d.columns * d.rows;
    assert 1 * d.rows <= d.columns * d.rows;
    d.columns * d.rows
  }

  /** `1. / quiltDims`: the size of one cell in texture space. */
  function UnitCellSize(d: QuiltDims): (s: Vec2)
    requires ValidDims(d)
    ensures 0.0 < s.x <= 1.0 && 0.0 < s.y <= 1.0
  {
    Vec2(1.0 / d.columns as real, 1.0 / d.rows as real)
  }

  /** `vec2(mod(index, quiltDims.x), floor(index / quiltDims.x))`. */
  function CellOf(d: QuiltDims, index: real): Vec2
    requires ValidDims(d)
  {
    Vec2(Mod(index, d.columns as real), Floor(index / d.columns as real))
  }

  /** `(vUv * cellSize) + (cell / quiltDims)`. */
  function CellUv(d: QuiltDims, cellSize: Vec2, cell: Vec2, vUv: Vec2): Vec2
    requires ValidDims(d)
  {
    Vec2(vUv.x * cellSize.x + cell.x / d.columns as real,
         vUv.y * cellSize.y + cell.y / d.rows as real)
  }

  predicate InUnitSquare(p: Vec2) {
    0.0 <= p.x <= 1.0 && 0.0 <= p.y <= 1.0
  }

  /** The texture-space rectangle of the cell in column `col` and row `row`. */
  predicate InCell(d: QuiltDims, col: int, row: int, p: Vec2)
    requires ValidDims(d)
  {
    col as real / d.columns as real <= p.x <= (col + 1) as real / d.columns as real &&
    row as real / d.rows as real <= p.y <= (row + 1) as real / d.rows as real
  }

  /** A valid view index names exactly one grid cell: its column is below the column
      count, its row below the row count, and `row * columns + column` gives it back. */
  lemma CellOfIndex(d: QuiltDims, i: int)
    requires ValidDims(d) && 0 <= i < TotalImages(d)
    ensures CellOf(d, i as real) == Vec2((i % d.columns) as real, (i / d.columns) as real)
    ensures 0 <= i % d.columns < d.columns
    ensures 0 <= i / d.columns < d.rows
    ensures (i / d.columns) * d.columns + i % d.columns == i
  {
    ModOfWhole(i, d.columns);
    var q, m := i / d.columns, i % d.columns;
    assert q * d.columns <= i < d.rows * d.columns;
    MulLessCancel(q, d.rows, d.columns);
  }

  /** Cancelling a positive factor from a strict inequality of products. */
  lemma MulLessCancel(a: int, b: int, c: int)
    requires 0 < c && a * c < b * c
    ensures a < b
  {
    assert (b - a) * c == b * c - a * c;
    assert 0 < (b - a) * c;
  }

  /** Different view indices land in different cells. */
  lemma CellOfInjective(d: QuiltDims, i: int, j: int)
    requires ValidDims(d) && 0 <= i < TotalImages(d) && 0 <= j < TotalImages(d)
    requires CellOf(d, i as real) == CellOf(d, j as real)
    ensures i == j
  {
    CellOfIndex(d, i);
    CellOfIndex(d, j);
  }

  /** One axis of a cell coordinate: `u * (1/n) + c/n` stays in `[c/n, (c+1)/n]`,
      which lies inside `[0, 1]`. */
  lemma AxisInCell(u: real, c: int, n: int)
    requires 0.0 <= u <= 1.0 && 0 <= c < n
    ensures c as real / n as real <= u * (1.0 / n as real) + c as real / n as real
    ensures u * (1.0 / n as real) + c as real / n as real <= (c + 1) as real / n as real
    ensures 0.0 <= c as real / n as real && (c + 1) as real / n as real <= 1.0
  {
    var k := 1.0 / n as real;
    assert 0.0 < k;
    MulMonotone(0.0, u, k, k);
    MulMonotone(u, 1.0, k, k);
    assert (c + 1) as real / n as real == c as real / n as real + k;
    assert (c + 1) as real <= n as real;
  }

  /** For `vUv` in the unit square, the coordinate in the cell at `col`, `row` lies in
      that cell's rectangle, and so in the unit square. */
  lemma CellUvOfCell(d: QuiltDims, col: int, row: int, vUv: Vec2)
    requires ValidDims(d) && 0 <= col < d.columns && 0 <= row < d.rows && InUnitSquare(vUv)
    ensures InCell(d, col, row, CellUv(d, UnitCellSize(d), Vec2(col as real, row as real), vUv))
    ensures InUnitSquare(CellUv(d, UnitCellSize(d), Vec2(col as real, row as real), vUv))
  {
    AxisInCell(vUv.x, col, d.columns);
    AxisInCell(vUv.y, row, d.rows);
    var p := CellUv(d, UnitCellSize(d), Vec2(col as real, row as real), vUv);
    assert p.x == vUv.x * (1.0 / d.columns as real) + col as real / d.columns as real;
    assert p.y == vUv.y * (1.0 / d.rows as real) + row as real / d.rows as real;
  }

  /** For `vUv` in the unit square, the coordinate of a valid index's cell lies in that
      cell's rectangle, and so in the unit square. */
  lemma CellUvInCell(d: QuiltDims, i: int, vUv: Vec2)
    requires ValidDims(d) && 0 <= i < TotalImages(d) && InUnitSquare(vUv)
    ensures InCell(d, i % d.columns, i / d.columns, CellUv(d, UnitCellSize(d), CellOf(d, i as real), vUv))
    ensures InUnitSquare(CellUv(d, UnitCellSize(d), CellOf(d, i as real), vUv))
  {
    CellOfIndex(d, i);
    CellUvOfCell(d, i % d.columns, i / d.columns, vUv);
  }
}
