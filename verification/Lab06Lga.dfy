/**
 * The `LGA` class of `lab_06/lga_logic.py`: a height x width lattice gas
 * with a wall in column width // 4 that is open in the seven rows
 * height // 2 - 3 .. height // 2 + 3, and gas drawn at random in the
 * columns left of the wall.  Its `Cell` comes from a `cell.py` that is not
 * part of this model; it is taken to be the `Cell` of `lab_06/LGA_Cell.py`.
 *
 * The grid of cells is held as the fields `inputs` and `outputs` (see
 * `Lab06Logic`); the random draws of the initialisation are a constructor
 * parameter.
 */
module Lab06Lga {
  import opened Grids
  import opened Streaming
  import opened D2Q4
  import opened Lab06Cell
  import opened Lab06Logic
  import opened Lab06Wall

  /** The hole rows of the wall, height // 2 - 3 to height // 2 + 3. */
  function HolePositions(height: nat): (holes: seq<int>)
    ensures forall i :: i in holes <==> height / 2 - 3 <= i <= height / 2 + 3
  {
    var m := height / 2;
    [m - 3, m - 2, m - 1, m, m + 1, m + 2, m + 3]
  }

  class LGA {
    const height: nat
    const width: nat
    var inputs: Field
    var outputs: Field
    var wall: seq<seq<int>>

    ghost predicate Valid()
      reads this
    {
      height > 0 && width > 0 &&
      IsField(inputs, height, width, 4) && IsField(outputs, height, width, 4) && IsPlane(wall, height, width)
    }

    /** The wall cells, where the array holds -1. */
    ghost function Mask(): Mask
      reads this
      requires Valid()
    {
      WallMask(wall, height, width)
    }

    /** What every step keeps: occupations are 0 or 1, and no particle sits in a wall cell. */
    ghost predicate Physical()
      reads this
      requires Valid()
    {
      AllBits(inputs, height, width) && AllBits(outputs, height, width) &&
      WallsEmpty(inputs, Mask(), height, width, 4)
    }

    /**
     * Empty cells, the wall, then gas in the columns left of the wall:
     * `draws[i][j]` are the four random numbers drawn for cell (i, j).
     * The hole rows must lie on the grid, which needs at least seven rows.
     */
    constructor (height: nat, width: nat, density: real, draws: Field)
      requires height >= 7 && width > 0 && IsField(draws, height, width, 4)
      ensures Valid() && Physical()
      ensures this.height == height && this.width == width
      ensures forall i, j :: 0 <= i < height && 0 <= j < width ==>
        wall[i][j] == (if j == WallColumn(width) && !(height / 2 - 3 <= i <= height / 2 + 3) then -1 else 0)
      ensures forall i, j :: 0 <= i < height && 0 <= j < width ==>
        inputs[i][j] == (if j < WallColumn(width) then Occupation(draws[i][j], density) else Empty())
      ensures outputs == Zeros(height, width, 4)
    {
      this.height := height;
      this.width := width;
      var grid := Zeros(height, width, 4);
      inputs := grid;
      outputs := grid;
      var holes := HolePositions(height);
      var builder := new Wall(grid, holes);
      var w := builder.CreateWallWithHole();
      wall := w;
      new;
      inputs := PlaceGas(grid, height, width, density, draws);
    }

    /** `streaming`: the grid of fresh cells that `Lab06Logic.StreamGrid` describes. */
    method Streaming() returns (inputs': Field, outputs': Field)
      requires Valid()
      ensures inputs' == Streamed(outputs, Mask(), StreamLattice(), height, width)
      ensures outputs' == Zeros(height, width, 4)
      ensures GridTotal(inputs') == FluidTotal(outputs, Mask())
      ensures WallsEmpty(inputs', Mask(), height, width, 4)
      ensures AllBits(outputs, height, width) ==> AllBits(inputs', height, width)
    {
      inputs', outputs' := StreamGrid(outputs, wall, height, width);
    }

    /**
     * Every cell collides, then the grid is replaced by the streamed one.
     * The particles that arrive are the ones that left the open cells; from
     * a state without particles in the wall, the particle count is unchanged
     * and the state stays physical.
     */
    method Step()
      requires Valid()
      modifies this
      ensures Valid() && wall == old(wall)
      ensures inputs == Streamed(Collided(old(inputs), height, width), Mask(), StreamLattice(), height, width)
      ensures outputs == Zeros(height, width, 4)
      ensures GridTotal(inputs) == FluidTotal(Collided(old(inputs), height, width), Mask())
      ensures WallsEmpty(inputs, Mask(), height, width, 4)
      ensures old(WallsEmpty(inputs, Mask(), height, width, 4)) ==> GridTotal(inputs) == old(GridTotal(inputs))
      ensures old(Physical()) ==> Physical()
    {
      inputs, outputs := CollideAndStream(inputs, outputs, wall, height, width);
    }

    /** The particle count of every cell: between 0 and 4, adding up to the grid total. */
    function GetState(): (state: Plane)
      reads this
      requires Valid()
      ensures IsPlane(state, height, width)
      ensures forall i, j :: 0 <= i < height && 0 <= j < width ==> state[i][j] == Sum(inputs[i][j])
      ensures PlaneTotal(state) == GridTotal(inputs)
      ensures Physical() ==> forall i, j :: 0 <= i < height && 0 <= j < width ==> 0.0 <= state[i][j] <= 4.0
    {
      CellCountsFacts(inputs, height, width);
      CellCounts(inputs, height, width)
    }
  }
}
