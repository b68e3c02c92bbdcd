/**
 * The obstacle of `lab_10/wall.py`: a height x width integer array whose
 * entries are -1 (wall) or 0 (open).  The constructor puts a wall across
 * column width / wallPosition with an open hole from holeStart to holeEnd
 * (inclusive).  `wallPosition` is the WALL_POSITION constant of the lab's
 * constants module, which is not part of this model.
 */
module Lab10Wall {
  import opened Grids

  /** The hole rows are in range or the hole is empty (a negative row would wrap around in Python). */
  predicate HoleRowsInRange(holeStart: int, holeEnd: int, height: nat)
  {
    holeStart > holeEnd || (0 <= holeStart && holeEnd < height)
  }

  /** The wall column width / wallPosition exists. */
  predicate WallColumnExists(width: nat, wallPosition: int)
  {
    wallPosition > 0 && width / wallPosition < width
  }

  class Wall {
    const height: nat
    const width: nat
    const holeStart: int
    const holeEnd: int
    const wallPosition: int
    var wall: seq<seq<int>>

    ghost predicate Valid()
      reads this
    {
      IsPlane(wall, height, width) && WallColumnExists(width, wallPosition) &&
      forall i, j :: 0 <= i < height && 0 <= j < width ==> wall[i][j] == 0 || wall[i][j] == -1
    }

    /** The column that holds the wall (`quarter_x` in the source). */
    function Column(): nat
      requires WallColumnExists(width, wallPosition)
    {
      width / wallPosition
    }

    /**
     * A wall across the whole column, except rows holeStart..holeEnd, which
     * stay open; nothing outside the column is a wall.
     */
    constructor (height: nat, width: nat, holeStart: int, holeEnd: int, wallPosition: int)
      requires WallColumnExists(width, wallPosition) && HoleRowsInRange(holeStart, holeEnd, height)
      ensures Valid()
      ensures this.height == height && this.width == width && this.wallPosition == wallPosition
      ensures this.holeStart == holeStart && this.holeEnd == holeEnd
      ensures forall i, j :: 0 <= i < height && 0 <= j < width ==>
        (wall[i][j] == -1 <==> j == Column() && !(holeStart <= i <= holeEnd))
    {
      this.height := height;
      this.width := width;
      this.holeStart := holeStart;
      this.holeEnd := holeEnd;
      this.wallPosition := wallPosition;
      wall := seq(height, _ => seq(width, _ => 0));
      new;
      CreateWallWithHole();
    }

    /** Sets the wall column to -1, then reopens the hole rows with 0. */
    method CreateWallWithHole()
      requires Valid() && HoleRowsInRange(holeStart, holeEnd, height)
      modifies this
      ensures Valid()
      ensures forall i, j :: 0 <= i < height && 0 <= j < width ==>
        wall[i][j] == if j == Column() then (if holeStart <= i <= holeEnd then 0 else -1) else old(wall)[i][j]
    {
      var col := Column();
      var i := 0;
      while i < height
        invariant 0 <= i <= height && IsPlane(wall, height, width)
        invariant forall a, b :: 0 <= a < height && 0 <= b < width ==>
          wall[a][b] == if b == col && a < i then -1 else old(wall)[a][b]
      {
        wall := wall[i := wall[i][col := -1]];
        i := i + 1;
      }
      var hole := holeStart;
      while hole <= holeEnd
        invariant holeStart <= holeEnd ==> holeStart <= hole <= holeEnd + 1
        invariant holeStart > holeEnd ==> hole == holeStart
        invariant IsPlane(wall, height, width)
        invariant forall a, b :: 0 <= a < height && 0 <= b < width ==>
          wall[a][b] == if b == col then (if holeStart <= a < hole then 0 else -1) else old(wall)[a][b]
        decreases holeEnd + 1 - hole
      {
        wall := wall[hole := wall[hole][col := 0]];
        hole := hole + 1;
      }
    }

    /**
     * Marks the bottom `heightLimit` rows of the wall column as wall when
     * 0 < heightLimit <= height; otherwise nothing changes.
     */
    method CreateCustomWall(heightLimit: int)
      requires Valid()
      modifies this
      ensures Valid()
      ensures forall i, j :: 0 <= i < height && 0 <= j < width ==>
        wall[i][j] == if 0 < heightLimit <= height && j == Column() && i >= height - heightLimit then -1 else old(wall)[i][j]
    {
      var x := Column();
      if 0 <= x < width && 0 < heightLimit <= height {
        var i := height - heightLimit;
        while i < height
          invariant height - heightLimit <= i <= height && IsPlane(wall, height, width)
          invariant forall a, b :: 0 <= a < height && 0 <= b < width ==>
            wall[a][b] == if b == x && height - heightLimit <= a < i then -1 else old(wall)[a][b]
        {
          wall := wall[i := wall[i][x := -1]];
          i := i + 1;
        }
      }
    }

    function IsWall(i: nat, j: nat): bool
      reads this
      requires Valid() && i < height && j < width
    {
      wall[i][j] == -1
    }

    /** Entries are 0 or -1 only, so a cell is a hole exactly when it is not a wall. */
    function IsHole(i: nat, j: nat): (r: bool)
      reads this
      requires Valid() && i < height && j < width
      ensures r <==> !IsWall(i, j)
    {
      wall[i][j] == 0
    }

    /** The boolean wall mask, true exactly at the wall cells. */
    function GetMask(): (m: Mask)
      reads this
      requires Valid()
      ensures IsPlane(m, height, width)
      ensures forall i, j :: 0 <= i < height && 0 <= j < width ==> (m[i][j] <==> IsWall(i, j))
    {
      WallMask(wall, height, width)
    }
  }
}
