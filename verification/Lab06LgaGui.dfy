/**
 * The `LGA` class of `lab_06/LGA_GUI.py`, the variant the lab's window
 * drives: gas drawn at random in the columns left of width // 4 first, then
 * the wall of `Lab06Logic.CreateWallWithHole` in that column, open in the
 * three rows height // 2 - 1 .. height // 2 + 1.  Each step collides every
 * cell and replaces the grid by `Lab06Logic.StreamGrid`'s.
 *
 * The grid of cells is held as the fields `inputs` and `outputs` (see
 * `Lab06Logic`); the random draws of the initialisation are a constructor
 * parameter.
 */
module Lab06LgaGui {
  import opened Grids
  import opened Streaming
  import opened D2Q4
  import opened Lab06Cell
  import opened Lab06Logic

  /** The hole rows of the wall, height // 2 - 1 to height // 2 + 1. */
  function HolePositions(height: nat): (holes: seq<int>)
    ensures forall i :: i in holes <==> height / 2 - 1 <= i <= height / 2 + 1
  {
    var m := height / 2;
    [m - 1, m, m + 1]
  }

  class LGA {
    const height: nat
    const width: nat
    var inputs: Field
    var outputs: Field
    var wall: seq<seq<int>>

    ghost predicate Valid()
      reads this
    {
      height > 0 && width > 0 &&
      IsField(inputs, height, width, 4) && IsField(outputs, height, width, 4) && IsPlane(wall, height, width)
    }

    /** The wall cells, where the array holds -1. */
    ghost function Mask(): Mask
      reads this
      requires Valid()
    {
      WallMask(wall, height, width)
    }

    /** What every step keeps: occupations are 0 or 1, and no particle sits in a wall cell. */
    ghost predicate Physical()
      reads this
      requires Valid()
    {
      AllBits(inputs, height, width) && AllBits(outputs, height, width) &&
      WallsEmpty(inputs, Mask(), height, width, 4)
    }

    /**
     * Empty cells, gas in the columns left of width // 4, then the wall:
     * `draws[i][j]` are the four random numbers drawn for cell (i, j).
     * The hole rows must lie on the grid, which needs at least three rows.
     */
    constructor (height: nat, width: nat, density: real, draws: Field)
      requires height >= 3 && width > 0 && IsField(draws, height, width, 4)
      ensures Valid() && Physical()
      ensures this.height == height && this.width == width
      ensures forall i, j :: 0 <= i < height && 0 <= j < width ==>
        wall[i][j] == (if j == WallColumn(width) && !(height / 2 - 1 <= i <= height / 2 + 1) then -1 else 0)
      ensures forall i, j :: 0 <= i < height && 0 <= j < width ==>
        inputs[i][j] == (if j < WallColumn(width) then Occupation(draws[i][j], density) else Empty())
      ensures outputs == Zeros(height, width, 4)
    {
      this.height := height;
      this.width := width;
      var grid := Zeros(height, width, 4);
      inputs := grid;
      outputs := grid;
      wall := seq(height, _ => seq(width, _ => 0));
      new;
      inputs := PlaceGas(grid, height, width, density, draws);
      wall := CreateWallWithHole(height, width, HolePositions(height));
    }

    /**
     * Every cell collides, then the grid is replaced by the streamed one.
     * The particles that arrive are the ones that left the open cells; from
     * a state without particles in the wall, the particle count is unchanged
     * and the state stays physical.
     */
    method Step()
      requires Valid()
      modifies this
      ensures Valid() && wall == old(wall)
      ensures inputs == Streamed(Collided(old(inputs), height, width), Mask(), StreamLattice(), height, width)
      ensures outputs == Zeros(height, width, 4)
      ensures GridTotal(inputs) == FluidTotal(Collided(old(inputs), height, width), Mask())
      ensures WallsEmpty(inputs, Mask(), height, width, 4)
      ensures old(WallsEmpty(inputs, Mask(), height, width, 4)) ==> GridTotal(inputs) == old(GridTotal(inputs))
      ensures old(Physical()) ==> Physical()
    {
      inputs, outputs := CollideAndStream(inputs, outputs, wall, height, width);
    }

    /** The particle count of every cell: between 0 and 4, adding up to the grid total. */
    function GetState(): (state: Plane)
      reads this
      requires Valid()
      ensures IsPlane(state, height, width)
      ensures forall i, j :: 0 <= i < height && 0 <= j < width ==> state[i][j] == Sum(inputs[i][j])
      ensures PlaneTotal(state) == GridTotal(inputs)
      ensures Physical() ==> forall i, j :: 0 <= i < height && 0 <= j < width ==> 0.0 <= state[i][j] <= 4.0
    {
      CellCountsFacts(inputs, height, width);
      CellCounts(inputs, height, width)
    }
  }
}
