/**
 * The obstacle of `lab_08/wall.py`: a height x width integer array whose
 * entries are -1 (wall) or 0 (open).  Unlike the wall of `lab_10`, only
 * the rows holeStart..holeEnd (inclusive) of column width / WALL_POSITION
 * are wall: the "hole" is a wall segment, and the rest of the column stays
 * open.
 */
module Lab08Wall {
  import opened Grids
  import opened D2Q9

  /** The segment rows are in range or the segment is empty (a negative row would wrap around in Python). */
  predicate HoleRowsInRange(holeStart: int, holeEnd: int, height: nat)
  {
    holeStart > holeEnd || (0 <= holeStart && holeEnd < height)
  }

  class Wall {
    const height: nat
    const width: nat
    const holeStart: int
    const holeEnd: int
    var wall: seq<seq<int>>

    ghost predicate Valid()
      reads this
    {
      IsPlane(wall, height, width) && width > 0 &&
      forall i, j :: 0 <= i < height && 0 <= j < width ==> wall[i][j] == 0 || wall[i][j] == -1
    }

    /** The column that holds the segment (`quarter_x` in the source). */
    function Column(): (x: nat)
      reads this
      requires width > 0
      ensures x < width
    {
      width / WallPosition
    }

    /**
     * An all-open array in which exactly the cells of column width / 4 in
     * rows holeStart..holeEnd are wall.
     */
    constructor (height: nat, width: nat, holeStart: int, holeEnd: int)
      requires width > 0 && HoleRowsInRange(holeStart, holeEnd, height)
      ensures Valid()
      ensures this.height == height && this.width == width
      ensures this.holeStart == holeStart && this.holeEnd == holeEnd
      ensures forall i, j :: 0 <= i < height && 0 <= j < width ==>
        (wall[i][j] == -1 <==> j == Column() && holeStart <= i <= holeEnd)
    {
      this.height := height;
      this.width := width;
      this.holeStart := holeStart;
      this.holeEnd := holeEnd;
      wall := seq(height, _ => seq(width, _ => 0));
      new;
      CreateWallWithHole();
    }

    /** Clears the column to 0, then marks rows holeStart..holeEnd of it with -1. */
    method CreateWallWithHole()
      requires Valid() && HoleRowsInRange(holeStart, holeEnd, height)
      modifies this
      ensures Valid()
      ensures forall i, j :: 0 <= i < height && 0 <= j < width ==>
        wall[i][j] == if j == Column() then (if holeStart <= i <= holeEnd then -1 else 0) else old(wall)[i][j]
    {
      var col := Column();
      var w0 := wall;
      wall := seq(height, i requires 0 <= i < height => w0[i][col := 0]);
      var hole := holeStart;
      while hole <= holeEnd
        invariant holeStart <= holeEnd ==> holeStart <= hole <= holeEnd + 1
        invariant holeStart > holeEnd ==> hole == holeStart
        invariant IsPlane(wall, height, width)
        invariant forall a, b :: 0 <= a < height && 0 <= b < width ==>
          wall[a][b] == if b == col then (if holeStart <= a < hole then -1 else 0) else old(wall)[a][b]
        decreases holeEnd + 1 - hole
      {
        wall := wall[hole := wall[hole][col := -1]];
        hole := hole + 1;
      }
    }

    function IsWall(i: nat, j: nat): bool
      reads this
      requires Valid() && i < height && j < width
    {
      wall[i][j] == -1
    }

    /** Entries are 0 or -1 only, so a cell is a hole exactly when it is not a wall. */
    function IsHole(i: nat, j: nat): (r: bool)
      reads this
      requires Valid() && i < height && j < width
      ensures r <==> !IsWall(i, j)
    {
      wall[i][j] == 0
    }

    /** The boolean wall mask, true exactly at the wall cells. */
    function GetMask(): (m: Mask)
      reads this
      requires Valid()
      ensures IsPlane(m, height, width)
      ensures forall i, j :: 0 <= i < height && 0 <= j < width ==> (m[i][j] <==> IsWall(i, j))
    {
      WallMask(wall, height, width)
    }
  }
}
