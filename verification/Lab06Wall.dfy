/**
 * The `Wall` class of `lab_06/wall.py`.  It remembers the grid it was given
 * and the hole rows; `create_wall_with_hole` builds a fresh wall array each
 * time it is called and changes nothing (the constructor's own call throws
 * its result away).  The grid only lends its dimensions: its number of rows
 * and the length of its first row.
 */
module Lab06Wall {
  import opened Grids
  import opened Lab06Logic

  class Wall {
    const grid: Field
    const height: nat
    const width: nat
    const holePositions: seq<int>

    /**
     * The grid must have a first row and that row a cell for the wall
     * column, and `hole_positions` must be a list of rows of the grid.
     */
    constructor (grid: Field, holePositions: seq<int>)
      requires |grid| > 0 && |grid[0]| > 0 && HolesInRange(holePositions, |grid|)
      ensures this.grid == grid && height == |grid| && width == |grid[0]|
      ensures this.holePositions == holePositions
    {
      this.grid := grid;
      height := |grid|;
      width := |grid[0]|;
      this.holePositions := holePositions;
      new;
      var discarded := CreateWallWithHole();
    }

    /** The wall array: column width // 4 is -1 except in the hole rows, everything else is 0. */
    method CreateWallWithHole() returns (wall: seq<seq<int>>)
      requires width > 0 && HolesInRange(holePositions, height)
      ensures IsPlane(wall, height, width)
      ensures forall i, j :: 0 <= i < height && 0 <= j < width ==>
        wall[i][j] == (if j == WallColumn(width) && i !in holePositions then -1 else 0)
    {
      wall := Lab06Logic.CreateWallWithHole(height, width, holePositions);
    }
  }
}
