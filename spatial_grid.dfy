/**
 * The spatial hash grid (SpatialHash.cpp): a fixed array of buckets, one per
 * cell, that is cleared and refilled every frame and queried for the 3x3
 * block of cells around a position. Entity ids (`uint32_t`) are naturals.
 */
module SpatialGrid {
  import opened SpatialCells

  /** `std::ceil` followed by the cast to an integer. */
  function Ceil(r: real): (n: int)
    ensures n as real - 1.0 < r <= n as real
  {
    -((-r).Floor)
  }

  /**
   * The bucket of a cell, or nothing for a cell outside the grid. (The
   * second test always holds when the storage has one bucket per cell; see
   * `CellIndexInRange`.)
   */
  function CellAt(cells: seq<seq<nat>>, gridWidth: nat, gridHeight: nat, cellX: int, cellY: int): seq<nat> {
    if IsValidCell(cellX, cellY, gridWidth, gridHeight) && 0 <= CellIndex(cellX, cellY, gridWidth) < |cells| then
      cells[CellIndex(cellX, cellY, gridWidth)]
    else []
  }

  /** With one bucket per cell, a valid cell's bucket is the one its number indexes. */
  lemma CellAtValid(cells: seq<seq<nat>>, gridWidth: nat, gridHeight: nat, cellX: int, cellY: int)
    requires |cells| == gridWidth * gridHeight && IsValidCell(cellX, cellY, gridWidth, gridHeight)
    ensures 0 <= CellIndex(cellX, cellY, gridWidth) < |cells|
    ensures CellAt(cells, gridWidth, gridHeight, cellX, cellY) == cells[CellIndex(cellX, cellY, gridWidth)]
  {
    CellIndexInRange(cellX, cellY, gridWidth, gridHeight);
  }

  /**
   * The cell a query visits at step `s` (0 to 8): steps run through the 3x3
   * block around the centre row by row, `dx` fastest.
   */
  function StepCell(cells: seq<seq<nat>>, gridWidth: nat, gridHeight: nat, centerX: int, centerY: int, s: nat): seq<nat>
    requires s < 9
  {
    var row := if s < 3 then 0 else if s < 6 then 1 else 2;
    CellAt(cells, gridWidth, gridHeight, centerX - 1 + (s - 3 * row), centerY - 1 + row)
  }

  /** The buckets appended during the first `t` steps of a query. */
  function Visited(cells: seq<seq<nat>>, gridWidth: nat, gridHeight: nat, centerX: int, centerY: int, t: nat): seq<nat>
    requires t <= 9
    decreases t
  {
    if t == 0 then [] else
    Visited(cells, gridWidth, gridHeight, centerX, centerY, t - 1)
      + StepCell(cells, gridWidth, gridHeight, centerX, centerY, t - 1)
  }

  /** What a neighbour query around the centre cell yields: all nine steps. */
  function Neighborhood(cells: seq<seq<nat>>, gridWidth: nat, gridHeight: nat, centerX: int, centerY: int): seq<nat> {
    Visited(cells, gridWidth, gridHeight, centerX, centerY, 9)
  }

  /** Coordinate `n` is within one cell of coordinate `c`. */
  predicate Adjacent(c: int, n: int) {
    c - 1 <= n <= c + 1
  }

  lemma {:induction false} VisitedMembership(cells: seq<seq<nat>>, gridWidth: nat, gridHeight: nat, centerX: int, centerY: int, t: nat, e: nat)
    requires t <= 9
    ensures e in Visited(cells, gridWidth, gridHeight, centerX, centerY, t) <==>
      exists s :: 0 <= s < t && e in StepCell(cells, gridWidth, gridHeight, centerX, centerY, s)
    decreases t
  {
    if t > 0 {
      VisitedMembership(cells, gridWidth, gridHeight, centerX, centerY, t - 1, e);
    }
  }

  /** Each of the nine steps visits a cell adjacent to the centre. */
  lemma StepCellIsAdjacent(cells: seq<seq<nat>>, gridWidth: nat, gridHeight: nat, centerX: int, centerY: int, s: nat)
    returns (nx: int, ny: int)
    requires s < 9
    ensures Adjacent(centerX, nx) && Adjacent(centerY, ny)
    ensures StepCell(cells, gridWidth, gridHeight, centerX, centerY, s) == CellAt(cells, gridWidth, gridHeight, nx, ny)
  {
    var row := if s < 3 then 0 else if s < 6 then 1 else 2;
    nx, ny := centerX - 1 + (s - 3 * row), centerY - 1 + row;
  }

  /** Each cell adjacent to the centre is visited at one of the nine steps. */
  lemma AdjacentIsStepCell(cells: seq<seq<nat>>, gridWidth: nat, gridHeight: nat, centerX: int, centerY: int, nx: int, ny: int)
    returns (s: nat)
    requires Adjacent(centerX, nx) && Adjacent(centerY, ny)
    ensures s < 9
    ensures StepCell(cells, gridWidth, gridHeight, centerX, centerY, s) == CellAt(cells, gridWidth, gridHeight, nx, ny)
  {
    s := 3 * (ny - centerY + 1) + (nx - centerX + 1);
  }

  /** The step a query takes at offset (dx, dy) from the centre visits the cell at that offset. */
  lemma StepAtOffset(cells: seq<seq<nat>>, gridWidth: nat, gridHeight: nat, centerX: int, centerY: int, dx: int, dy: int)
    requires -1 <= dx <= 1 && -1 <= dy <= 1
    ensures StepCell(cells, gridWidth, gridHeight, centerX, centerY, 3 * (dy + 1) + dx + 1) ==
      CellAt(cells, gridWidth, gridHeight, centerX + dx, centerY + dy)
  {
  }

  /**
   * The query is complete and sound for the 3x3 block: an id is in the
   * result exactly when it lies in the bucket of a valid cell within one cell
   * of the centre in both directions. No distance test is applied.
   */
  lemma NeighborhoodMembership(cells: seq<seq<nat>>, gridWidth: nat, gridHeight: nat, centerX: int, centerY: int, e: nat)
    ensures e in Neighborhood(cells, gridWidth, gridHeight, centerX, centerY) <==>
      exists nx, ny :: Adjacent(centerX, nx) && Adjacent(centerY, ny) &&
        IsValidCell(nx, ny, gridWidth, gridHeight) && e in CellAt(cells, gridWidth, gridHeight, nx, ny)
  {
    VisitedMembership(cells, gridWidth, gridHeight, centerX, centerY, 9, e);
    if e in Neighborhood(cells, gridWidth, gridHeight, centerX, centerY) {
      var s :| 0 <= s < 9 && e in StepCell(cells, gridWidth, gridHeight, centerX, centerY, s);
      var nx, ny := StepCellIsAdjacent(cells, gridWidth, gridHeight, centerX, centerY, s);
      assert e in CellAt(cells, gridWidth, gridHeight, nx, ny);
    }
    if exists nx, ny :: Adjacent(centerX, nx) && Adjacent(centerY, ny) &&
        IsValidCell(nx, ny, gridWidth, gridHeight) && e in CellAt(cells, gridWidth, gridHeight, nx, ny)
    {
      var nx, ny :| Adjacent(centerX, nx) && Adjacent(centerY, ny) &&
        IsValidCell(nx, ny, gridWidth, gridHeight) && e in CellAt(cells, gridWidth, gridHeight, nx, ny);
      var s := AdjacentIsStepCell(cells, gridWidth, gridHeight, centerX, centerY, nx, ny);
      assert e in StepCell(cells, gridWidth, gridHeight, centerX, centerY, s);
    }
  }

  /**
   * Insert and query fit together: an id stored in the bucket a position
   * hashes to is found by a query whose centre cell is within one cell of
   * that position's clamped cell.
   */
  lemma QueryFindsNearbyEntity(cells: seq<seq<nat>>, gridWidth: nat, gridHeight: nat, cellSize: real,
                               x: real, y: real, e: nat, centerX: int, centerY: int)
    requires |cells| == gridWidth * gridHeight && gridWidth > 0 && gridHeight > 0 && cellSize > 0.0
    requires e in cells[HashPosition(x, y, cellSize, gridWidth, gridHeight)]
    requires Adjacent(centerX, ClampedCell(x, y, cellSize, gridWidth, gridHeight).0)
    requires Adjacent(centerY, ClampedCell(x, y, cellSize, gridWidth, gridHeight).1)
    ensures e in Neighborhood(cells, gridWidth, gridHeight, centerX, centerY)
  {
    var c := ClampedCell(x, y, cellSize, gridWidth, gridHeight);
    var h := HashPosition(x, y, cellSize, gridWidth, gridHeight);
    CellIndexInRange(c.0, c.1, gridWidth, gridHeight);
    CellIndexDecodes(c.0, c.1, gridWidth, gridHeight);
    DivModUnique(h, gridWidth, h / gridWidth, h % gridWidth);
    assert h == CellIndex(c.0, c.1, gridWidth);
    assert e in CellAt(cells, gridWidth, gridHeight, c.0, c.1);
    NeighborhoodMembership(cells, gridWidth, gridHeight, centerX, centerY, e);
  }

  /** A query of a cleared grid finds nothing. */
  lemma EmptyGridHasNoNeighbors(cells: seq<seq<nat>>, gridWidth: nat, gridHeight: nat, centerX: int, centerY: int)
    requires forall i :: 0 <= i < |cells| ==> cells[i] == []
    ensures Neighborhood(cells, gridWidth, gridHeight, centerX, centerY) == []
  {
    forall e: nat ensures e !in Neighborhood(cells, gridWidth, gridHeight, centerX, centerY) {
      NeighborhoodMembership(cells, gridWidth, gridHeight, centerX, centerY, e);
    }
  }

  /**
   * The query centre is not clamped: a centre two or more cells outside the
   * grid sees no valid cell, so the query finds nothing even though an
   * insert at the same position lands in a border bucket.
   */
  lemma QueryFarOutsideGridIsEmpty(cells: seq<seq<nat>>, gridWidth: nat, gridHeight: nat, centerX: int, centerY: int)
    requires centerX < -1 || centerX > gridWidth || centerY < -1 || centerY > gridHeight
    ensures Neighborhood(cells, gridWidth, gridHeight, centerX, centerY) == []
  {
    forall e: nat ensures e !in Neighborhood(cells, gridWidth, gridHeight, centerX, centerY) {
      NeighborhoodMembership(cells, gridWidth, gridHeight, centerX, centerY, e);
    }
  }

  class SpatialHash {
    const cellSize: real
    const worldWidth: real
    const worldHeight: real
    const gridWidth: nat
    const gridHeight: nat
    /** One bucket of entity ids per cell, numbered row by row. */
    const cells: array<seq<nat>>

    ghost predicate Valid()
      reads this
    {
      cellSize > 0.0 && cells.Length == gridWidth * gridHeight
    }

    /** Size the grid to cover the world, rounding partial cells up; every bucket starts empty. */
    constructor(worldWidth: real, worldHeight: real, cellSize: real)
      requires cellSize > 0.0 && worldWidth >= 0.0 && worldHeight >= 0.0
      ensures Valid()
      ensures this.cellSize == cellSize && this.worldWidth == worldWidth && this.worldHeight == worldHeight
      ensures gridWidth == Ceil(worldWidth / cellSize) && gridHeight == Ceil(worldHeight / cellSize)
      ensures forall i :: 0 <= i < cells.Length ==> cells[i] == []
      ensures fresh(cells)
    {
      this.cellSize := cellSize;
      this.worldWidth := worldWidth;
      this.worldHeight := worldHeight;
      var w := Ceil(worldWidth / cellSize);
      var h := Ceil(worldHeight / cellSize);
      gridWidth := w;
      gridHeight := h;
      cells := new seq<nat>[w * h](_ => []);
    }

    /** `getCellCount`: the number of buckets actually stored. */
    function CellCount(): (n: nat)
      requires Valid()
      reads this
      ensures n == cells.Length
    {
      gridWidth * gridHeight
    }

    /** Empty every bucket; the number of buckets is unchanged. */
    method Clear()
      requires Valid()
      modifies cells
      ensures forall i :: 0 <= i < cells.Length ==> cells[i] == []
    {
      for i := 0 to cells.Length
        invariant forall j :: 0 <= j < i ==> cells[j] == []
      {
        cells[i] := [];
      }
    }

    /** Append the id to the bucket its position hashes to; every other bucket is unchanged. */
    method Insert(entityId: nat, x: real, y: real)
      requires Valid() && gridWidth > 0 && gridHeight > 0
      modifies cells
      ensures var h := HashPosition(x, y, cellSize, gridWidth, gridHeight);
        cells[..] == old(cells[..])[h := old(cells[h]) + [entityId]]
    {
      var cellId := HashPosition(x, y, cellSize, gridWidth, gridHeight);
      cells[cellId] := cells[cellId] + [entityId];
    }

    /**
     * `queryNeighbors`: take the unclamped centre cell of the position and
     * collect the buckets of the valid cells of the 3x3 block around it.
     * `radius` is accepted and ignored.
     */
    method QueryNeighbors(x: real, y: real, radius: real) returns (outEntities: seq<nat>)
      requires Valid()
      ensures outEntities ==
        Neighborhood(cells[..], gridWidth, gridHeight, CellCoord(x, cellSize), CellCoord(y, cellSize))
    {
      var centerX := CellCoord(x, cellSize);
      var centerY := CellCoord(y, cellSize);
      outEntities := QueryBlock(centerX, centerY);
    }

    /**
     * The loops of `queryNeighbors`: start from an empty output and append
     * the buckets of the valid cells around the centre cell, row by row (dy
     * outer, dx inner).
     */
    method QueryBlock(centerX: int, centerY: int) returns (outEntities: seq<nat>)
      requires Valid()
      ensures outEntities == Neighborhood(cells[..], gridWidth, gridHeight, centerX, centerY)
    {
      outEntities := [];
      var dy := -1;
      while dy <= 1
        invariant -1 <= dy <= 2
        invariant outEntities == Visited(cells[..], gridWidth, gridHeight, centerX, centerY, 3 * (dy + 1))
      {
        outEntities := QueryRow(outEntities, centerX, centerY, dy);
        dy := dy + 1;
      }
    }

    /** The inner loop of `queryNeighbors`: the three cells of row `centerY + dy`, left to right. */
    method QueryRow(visited: seq<nat>, centerX: int, centerY: int, dy: int) returns (outEntities: seq<nat>)
      requires Valid() && -1 <= dy <= 1
      requires visited == Visited(cells[..], gridWidth, gridHeight, centerX, centerY, 3 * (dy + 1))
      ensures outEntities == Visited(cells[..], gridWidth, gridHeight, centerX, centerY, 3 * (dy + 1) + 3)
    {
      outEntities := visited;
      var dx := -1;
      while dx <= 1
        invariant -1 <= dx <= 2
        invariant outEntities == Visited(cells[..], gridWidth, gridHeight, centerX, centerY, 3 * (dy + 1) + dx + 1)
      {
        outEntities := AppendCell(outEntities, centerX + dx, centerY + dy);
        StepAtOffset(cells[..], gridWidth, gridHeight, centerX, centerY, dx, dy);
        dx := dx + 1;
      }
    }

    /** One step of the query: skip an invalid cell, otherwise append its bucket. */
    method AppendCell(outEntities: seq<nat>, cellX: int, cellY: int) returns (r: seq<nat>)
      requires Valid()
      ensures r == outEntities + CellAt(cells[..], gridWidth, gridHeight, cellX, cellY)
    {
      if !IsValidCell(cellX, cellY, gridWidth, gridHeight) {
        return outEntities;
      }
      CellAtValid(cells[..], gridWidth, gridHeight, cellX, cellY);
      var cellId := cellY * gridWidth + cellX;
      r := outEntities + cells[cellId];
    }

    /** `getMaxOccupancy`: the size of the fullest bucket, 0 when there are none. */
    method GetMaxOccupancy() returns (maxOccupancy: nat)
      ensures forall i :: 0 <= i < cells.Length ==> |cells[i]| <= maxOccupancy
      ensures cells.Length == 0 ==> maxOccupancy == 0
      ensures cells.Length > 0 ==> exists i :: 0 <= i < cells.Length && |cells[i]| == maxOccupancy
    {
      maxOccupancy := 0;
      for i := 0 to cells.Length
        invariant forall j :: 0 <= j < i ==> |cells[j]| <= maxOccupancy
        invariant i == 0 ==> maxOccupancy == 0
        invariant i > 0 ==> exists j :: 0 <= j < i && |cells[j]| == maxOccupancy
      {
        if |cells[i]| > maxOccupancy {
          maxOccupancy := |cells[i]|;
        }
      }
    }

    /** `getCellCoords`: the clamped cell of a position, the very cell `hashPosition` numbers. */
    method GetCellCoords(x: real, y: real) returns (cellX: int, cellY: int)
      requires Valid()
      ensures gridWidth > 0 && gridHeight > 0 ==> IsValidCell(cellX, cellY, gridWidth, gridHeight)
      ensures gridWidth > 0 && gridHeight > 0 ==>
        HashPosition(x, y, cellSize, gridWidth, gridHeight) == CellIndex(cellX, cellY, gridWidth)
      ensures IsValidCell(CellCoord(x, cellSize), CellCoord(y, cellSize), gridWidth, gridHeight) ==>
        cellX == CellCoord(x, cellSize) && cellY == CellCoord(y, cellSize)
    {
      cellX := Trunc(x / cellSize);
      cellY := Trunc(y / cellSize);
      cellX := if cellX < 0 then 0 else if cellX >= gridWidth then gridWidth - 1 else cellX;
      cellY := if cellY < 0 then 0 else if cellY >= gridHeight then gridHeight - 1 else cellY;
    }
  }
}
