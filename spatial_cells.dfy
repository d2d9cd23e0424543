/**
 * Cell arithmetic of the spatial hash grid (the inline helpers of
 * SpatialHash.hpp). A position maps to the cell whose coordinates are
 * `x / cellSize` and `y / cellSize` truncated toward zero (the
 * `static_cast<int32_t>`), clamped into the grid, and numbered row by row:
 * `cellY * gridWidth + cellX`.
 */
module SpatialCells {

  /** `static_cast<int32_t>` of a float: truncation toward zero. */
  function Trunc(r: real): (n: int)
    ensures r >= 0.0 ==> n as real <= r < n as real + 1.0
    ensures r < 0.0 ==> n as real - 1.0 < r <= n as real
  {
    if r >= 0.0 then r.Floor else -((-r).Floor)
  }

  /** The unclamped cell coordinate of a world coordinate. */
  function CellCoord(p: real, cellSize: real): int
    requires cellSize > 0.0
  {
    Trunc(p / cellSize)
  }

  /** Clamp a cell coordinate into `[0, n - 1]`. */
  function Clamp(c: int, n: nat): (r: nat)
    requires n > 0
    ensures r < n
    ensures 0 <= c < n ==> r == c
    ensures c < 0 ==> r == 0
    ensures c >= n ==> r == n - 1
  {
    if c < 0 then 0 else if c >= n then n - 1 else c
  }

  /** `isValidCell`. */
  predicate IsValidCell(cellX: int, cellY: int, gridWidth: nat, gridHeight: nat) {
    0 <= cellX < gridWidth && 0 <= cellY < gridHeight
  }

  /** The row-major number of a cell. */
  function CellIndex(cellX: int, cellY: int, gridWidth: nat): int {
    cellY * gridWidth + cellX
  }

  /** A valid cell's number indexes the cell storage. */
  lemma CellIndexInRange(cellX: int, cellY: int, gridWidth: nat, gridHeight: nat)
    requires IsValidCell(cellX, cellY, gridWidth, gridHeight)
    ensures 0 <= CellIndex(cellX, cellY, gridWidth) < gridWidth * gridHeight
  {
    assert cellY * gridWidth <= (gridHeight - 1) * gridWidth by {
      MulMonotone(cellY, gridHeight - 1, gridWidth);
    }
    assert (gridHeight - 1) * gridWidth == gridHeight * gridWidth - gridWidth;
  }

  lemma MulMonotone(a: nat, b: nat, k: nat)
    requires a <= b
    ensures a * k <= b * k
  {
  }

  /** Row-major numbering decodes back: the number determines the cell. */
  lemma CellIndexDecodes(cellX: int, cellY: int, gridWidth: nat, gridHeight: nat)
    requires IsValidCell(cellX, cellY, gridWidth, gridHeight)
    ensures CellIndex(cellX, cellY, gridWidth) % gridWidth == cellX
    ensures CellIndex(cellX, cellY, gridWidth) / gridWidth == cellY
  {
    var n := CellIndex(cellX, cellY, gridWidth);
    DivModUnique(n, gridWidth, cellY, cellX);
  }

  lemma DivModUnique(n: int, d: int, q: int, r: int)
    requires d > 0 && 0 <= r < d && n == q * d + r
    ensures n / d == q && n % d == r
  {
    var q', r' := n / d, n % d;
    assert n == q' * d + r' && 0 <= r' < d;
    if q' < q {
      assert q' * d + d <= q * d by { MulStep(q', q, d); }
    } else if q' > q {
      assert q * d + d <= q' * d by { MulStep(q, q', d); }
    }
  }

  lemma MulStep(a: int, b: int, d: int)
    requires a < b && d > 0
    ensures a * d + d <= b * d
  {
    var k: nat := b - a - 1;
    assert b * d == a * d + k * d + d;
    MulMonotone(0, k, d);
  }

  /** Distinct valid cells have distinct numbers. */
  lemma CellIndexInjective(x1: int, y1: int, x2: int, y2: int, gridWidth: nat, gridHeight: nat)
    requires IsValidCell(x1, y1, gridWidth, gridHeight) && IsValidCell(x2, y2, gridWidth, gridHeight)
    requires CellIndex(x1, y1, gridWidth) == CellIndex(x2, y2, gridWidth)
    ensures x1 == x2 && y1 == y2
  {
    CellIndexDecodes(x1, y1, gridWidth, gridHeight);
    CellIndexDecodes(x2, y2, gridWidth, gridHeight);
  }

  /** Clamping leaves a cell unchanged exactly when the cell is valid. */
  lemma ClampFixesExactlyValidCells(cellX: int, cellY: int, gridWidth: nat, gridHeight: nat)
    requires gridWidth > 0 && gridHeight > 0
    ensures IsValidCell(cellX, cellY, gridWidth, gridHeight) <==>
      Clamp(cellX, gridWidth) == cellX && Clamp(cellY, gridHeight) == cellY
  {
  }

  /** The clamped cell of a position (`getCellCoords`). */
  function ClampedCell(x: real, y: real, cellSize: real, gridWidth: nat, gridHeight: nat): (c: (nat, nat))
    requires cellSize > 0.0 && gridWidth > 0 && gridHeight > 0
    ensures IsValidCell(c.0, c.1, gridWidth, gridHeight)
  {
    (Clamp(CellCoord(x, cellSize), gridWidth), Clamp(CellCoord(y, cellSize), gridHeight))
  }

  /**
   * `hashPosition`: the number of the clamped cell. It always indexes the
   * storage, it is the plain row-major number when the cell is already inside
   * the grid, and it decodes to the clamped cell.
   */
  function HashPosition(x: real, y: real, cellSize: real, gridWidth: nat, gridHeight: nat): (h: nat)
    requires cellSize > 0.0 && gridWidth > 0 && gridHeight > 0
    ensures h < gridWidth * gridHeight
    ensures IsValidCell(CellCoord(x, cellSize), CellCoord(y, cellSize), gridWidth, gridHeight) ==>
      h == CellIndex(CellCoord(x, cellSize), CellCoord(y, cellSize), gridWidth)
    ensures (h % gridWidth, h / gridWidth) == ClampedCell(x, y, cellSize, gridWidth, gridHeight)
  {
    var c := ClampedCell(x, y, cellSize, gridWidth, gridHeight);
    CellIndexInRange(c.0, c.1, gridWidth, gridHeight);
    CellIndexDecodes(c.0, c.1, gridWidth, gridHeight);
    CellIndex(c.0, c.1, gridWidth)
  }
}
