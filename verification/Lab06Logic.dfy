/**
 * The module-level functions of `lab_06/logic.py`: the wall builder and the
 * streaming step of the lattice gas, plus the collision sweep that both
 * `LGA.step` methods run before streaming.
 *
 * A grid of `Cell` objects is held as two fields of shape (height, width, 4):
 * `inputs`, the arriving occupations of every cell, and `outputs`, the
 * leaving ones.  Streaming moves slot 0 (up) to row i - 1, slot 1 (right) to
 * column j + 1, slot 2 (down) to row i + 1 and slot 3 (left) to column j - 1,
 * which is `D2Q4.StreamLattice`.  The source visits the slots of a cell in
 * the order 0, 2, 3, 1; every slot of the fresh grid is written at most once,
 * so the order does not change the result.
 */
module Lab06Logic {
  import opened Grids
  import opened Lattice
  import opened Streaming
  import opened D2Q4
  import opened Lab06Cell

  /** `width // 4`, the column of the wall. */
  function WallColumn(width: nat): (x: nat)
    requires width > 0
    ensures x < width
  {
    width / 4
  }

  /** Every hole row is a row of the grid (a larger one raises, a negative one would wrap around). */
  predicate HolesInRange(holes: seq<int>, height: nat)
  {
    forall n :: 0 <= n < |holes| ==> 0 <= holes[n] < height
  }

  /**
   * `create_wall_with_hole`: all zeros except column width // 4, which is -1
   * in every row that is not listed in `holes`.
   */
  method CreateWallWithHole(height: nat, width: nat, holes: seq<int>) returns (wall: seq<seq<int>>)
    requires width > 0 && HolesInRange(holes, height)
    ensures IsPlane(wall, height, width)
    ensures forall i, j :: 0 <= i < height && 0 <= j < width ==>
      wall[i][j] == (if j == WallColumn(width) && i !in holes then -1 else 0)
  {
    wall := seq(height, _ => seq(width, _ => 0));
    var x := WallColumn(width);
    var w0 := wall;
    wall := seq(height, i requires 0 <= i < height => w0[i][x := -1]);
    var n := 0;
    while n < |holes|
      invariant 0 <= n <= |holes| && IsPlane(wall, height, width)
      invariant forall i, j :: 0 <= i < height && 0 <= j < width ==>
        wall[i][j] == (if j == x && i !in holes[..n] then -1 else 0)
    {
      var hole := holes[n];
      wall := wall[hole := wall[hole][x := 0]];
      n := n + 1;
      assert holes[..n] == holes[..n - 1] + [hole];
    }
    assert holes[..|holes|] == holes;
  }

  /** Every cell of the grid holds only 0s and 1s. */
  ghost predicate AllBits(f: Field, h: nat, w: nat)
    requires IsField(f, h, w, 4)
  {
    forall a, b :: 0 <= a < h && 0 <= b < w ==> IsBits(f[a][b])
  }

  /** The leaving slots of every cell after `collide`. */
  function Collided(f: Field, h: nat, w: nat): (g: Field)
    requires IsField(f, h, w, 4)
    ensures IsField(g, h, w, 4)
  {
    seq(h, a requires 0 <= a < h => seq(w, b requires 0 <= b < w => Collision(f[a][b])))
  }

  /**
   * The collision sweep keeps every cell's count and so the total, keeps a
   * 0/1 grid 0/1, and keeps empty wall cells empty.
   */
  lemma CollidedKeepsCount(f: Field, mask: Mask, h: nat, w: nat)
    requires IsField(f, h, w, 4) && IsPlane(mask, h, w)
    ensures GridTotal(Collided(f, h, w)) == GridTotal(f)
    ensures AllBits(f, h, w) ==> AllBits(Collided(f, h, w), h, w)
    ensures WallsEmpty(f, mask, h, w, 4) ==> WallsEmpty(Collided(f, h, w), mask, h, w, 4)
  {
    var g := Collided(f, h, w);
    forall a, b | 0 <= a < h && 0 <= b < w ensures Sum(g[a][b]) == Sum(f[a][b]) && (IsBits(f[a][b]) ==> IsBits(g[a][b])) {
      CollisionKeepsCount(f[a][b]);
      CollisionKeepsBits(f[a][b]);
    }
    GridTotalCellwise(f, g);
    if WallsEmpty(f, mask, h, w, 4) {
      forall a, b | 0 <= a < h && 0 <= b < w && mask[a][b] ensures g[a][b] == Empty() {
        assert f[a][b] == Empty();
        CollisionKeepsBits(f[a][b]);
      }
    }
  }

  /** `for row in grid: for cell in row: cell.collide()`, cell after cell. */
  method CollideAll(inputs: Field, outputs: Field, h: nat, w: nat) returns (outputs': Field)
    requires IsField(inputs, h, w, 4) && IsField(outputs, h, w, 4)
    ensures outputs' == Collided(inputs, h, w)
  {
    outputs' := outputs;
    var i := 0;
    while i < h
      invariant 0 <= i <= h && IsField(outputs', h, w, 4)
      invariant forall a, b :: 0 <= a < h && 0 <= b < w ==>
        outputs'[a][b] == if a < i then Collision(inputs[a][b]) else outputs[a][b]
    {
      var j := 0;
      while j < w
        invariant 0 <= j <= w && IsField(outputs', h, w, 4)
        invariant forall a, b :: 0 <= a < h && 0 <= b < w ==>
          outputs'[a][b] == if a < i || (a == i && b < j) then Collision(inputs[a][b]) else outputs[a][b]
      {
        outputs' := SetCell(outputs', i, j, Collision(inputs[i][j]));
        j := j + 1;
      }
      i := i + 1;
    }
    FieldExtensionality(outputs', Collided(inputs, h, w), h, w, 4);
  }

  /**
   * The four moves of `streaming`, as the source spells them out: out of an
   * open cell, slot 0 goes to slot 0 of the cell above if that cell is open
   * and otherwise to the cell's own slot 2; slot 2 goes down or to slot 0;
   * slot 3 goes left or to slot 1; slot 1 goes right or to slot 3.
   */
  lemma StreamingMoves(f: Field, mask: Mask, h: nat, w: nat, i: nat, j: nat)
    requires IsField(f, h, w, 4) && IsPlane(mask, h, w) && i < h && j < w && !mask[i][j]
    ensures var g := Streamed(f, mask, StreamLattice(), h, w);
      (if i > 0 && !mask[i - 1][j] then g[i - 1][j][0] == f[i][j][0] else g[i][j][2] == f[i][j][0]) &&
      (if i < h - 1 && !mask[i + 1][j] then g[i + 1][j][2] == f[i][j][2] else g[i][j][0] == f[i][j][2]) &&
      (if j > 0 && !mask[i][j - 1] then g[i][j - 1][3] == f[i][j][3] else g[i][j][1] == f[i][j][3]) &&
      (if j < w - 1 && !mask[i][j + 1] then g[i][j + 1][1] == f[i][j][1] else g[i][j][3] == f[i][j][1])
  {
    StreamsUp(f, mask, h, w, i, j);
    StreamsDown(f, mask, h, w, i, j);
    StreamsLeft(f, mask, h, w, i, j);
    StreamsRight(f, mask, h, w, i, j);
  }

  /** Slot 0 moves one row up, or bounces back into slot 2 of its own cell. */
  lemma StreamsUp(f: Field, mask: Mask, h: nat, w: nat, i: nat, j: nat)
    requires IsField(f, h, w, 4) && IsPlane(mask, h, w) && i < h && j < w && !mask[i][j]
    ensures var g := Streamed(f, mask, StreamLattice(), h, w);
      if i > 0 && !mask[i - 1][j] then g[i - 1][j][0] == f[i][j][0] else g[i][j][2] == f[i][j][0]
  {
    assert Open(mask, i - 1, j) <==> i > 0 && !mask[i - 1][j];
    StreamingMove(f, mask, h, w, i, j, 0, i - 1, j, 2);
  }

  /** Slot 2 moves one row down, or bounces back into slot 0 of its own cell. */
  lemma StreamsDown(f: Field, mask: Mask, h: nat, w: nat, i: nat, j: nat)
    requires IsField(f, h, w, 4) && IsPlane(mask, h, w) && i < h && j < w && !mask[i][j]
    ensures var g := Streamed(f, mask, StreamLattice(), h, w);
      if i < h - 1 && !mask[i + 1][j] then g[i + 1][j][2] == f[i][j][2] else g[i][j][0] == f[i][j][2]
  {
    assert Open(mask, i + 1, j) <==> i < h - 1 && !mask[i + 1][j];
    StreamingMove(f, mask, h, w, i, j, 2, i + 1, j, 0);
  }

  /** Slot 3 moves one column left, or bounces back into slot 1 of its own cell. */
  lemma StreamsLeft(f: Field, mask: Mask, h: nat, w: nat, i: nat, j: nat)
    requires IsField(f, h, w, 4) && IsPlane(mask, h, w) && i < h && j < w && !mask[i][j]
    ensures var g := Streamed(f, mask, StreamLattice(), h, w);
      if j > 0 && !mask[i][j - 1] then g[i][j - 1][3] == f[i][j][3] else g[i][j][1] == f[i][j][3]
  {
    assert Open(mask, i, j - 1) <==> j > 0 && !mask[i][j - 1];
    StreamingMove(f, mask, h, w, i, j, 3, i, j - 1, 1);
  }

  /** Slot 1 moves one column right, or bounces back into slot 3 of its own cell. */
  lemma StreamsRight(f: Field, mask: Mask, h: nat, w: nat, i: nat, j: nat)
    requires IsField(f, h, w, 4) && IsPlane(mask, h, w) && i < h && j < w && !mask[i][j]
    ensures var g := Streamed(f, mask, StreamLattice(), h, w);
      if j < w - 1 && !mask[i][j + 1] then g[i][j + 1][1] == f[i][j][1] else g[i][j][3] == f[i][j][1]
  {
    assert Open(mask, i, j + 1) <==> j < w - 1 && !mask[i][j + 1];
    StreamingMove(f, mask, h, w, i, j, 1, i, j + 1, 3);
  }

  /** Slot k of open cell (i, j) moves to cell (ni, nj) if that cell is open, else into slot o of its own cell. */
  lemma StreamingMove(f: Field, mask: Mask, h: nat, w: nat, i: nat, j: nat, k: nat, ni: int, nj: int, o: nat)
    requires IsField(f, h, w, 4) && IsPlane(mask, h, w) && i < h && j < w && !mask[i][j] && k < 4
    requires ni == i + StreamLattice().di[k] && nj == j + StreamLattice().dj[k] && o == StreamLattice().opp[k]
    ensures var g := Streamed(f, mask, StreamLattice(), h, w);
      if Open(mask, ni, nj) then g[ni][nj][k] == f[i][j][k] else g[i][j][o] == f[i][j][k]
  {
    StreamedAtTarget(f, mask, StreamLattice(), h, w, i, j, k);
  }

  /** Streaming moves occupations without creating any: a 0/1 grid streams into a 0/1 grid. */
  lemma StreamedKeepsBits(f: Field, mask: Mask, h: nat, w: nat)
    requires IsField(f, h, w, 4) && IsPlane(mask, h, w) && AllBits(f, h, w)
    ensures AllBits(Streamed(f, mask, StreamLattice(), h, w), h, w)
  {
    var g := Streamed(f, mask, StreamLattice(), h, w);
    forall a, b | 0 <= a < h && 0 <= b < w ensures IsBits(g[a][b]) {
      forall c | 0 <= c < 4 ensures g[a][b][c] == 0.0 || g[a][b][c] == 1.0 {
        assert g[a][b][c] == Pull(f, mask, StreamLattice(), h, w, a, b, c);
      }
    }
  }

  /**
   * `streaming`: a grid of fresh cells whose arriving slots hold the leaving
   * occupations of the old grid moved one cell along their direction, or
   * reflected into the opposite slot of their own cell when the neighbour is
   * off the grid or a wall; wall cells send nothing and receive nothing, and
   * the fresh cells have nothing leaving yet.  The total arriving is the total
   * that left the open cells.
   */
  method StreamGrid(outputs: Field, wall: seq<seq<int>>, h: nat, w: nat) returns (inputs': Field, outputs': Field)
    requires h > 0 && IsField(outputs, h, w, 4) && IsPlane(wall, h, w)
    ensures inputs' == Streamed(outputs, WallMask(wall, h, w), StreamLattice(), h, w)
    ensures outputs' == Zeros(h, w, 4)
    ensures GridTotal(inputs') == FluidTotal(outputs, WallMask(wall, h, w))
    ensures WallsEmpty(inputs', WallMask(wall, h, w), h, w, 4)
    ensures AllBits(outputs, h, w) ==> AllBits(inputs', h, w)
  {
    var mask := WallMask(wall, h, w);
    inputs' := StreamField(outputs, mask, StreamLattice(), h, w);
    outputs' := Zeros(h, w, 4);
    StreamedWallsEmpty(outputs, mask, StreamLattice(), h, w);
    if AllBits(outputs, h, w) {
      StreamedKeepsBits(outputs, mask, h, w);
    }
  }

  /**
   * The gas loop of both `LGA` constructors: every cell in the columns left
   * of width // 4 gets the occupations of its four draws; the rest of the
   * grid is kept.
   */
  method PlaceGas(f: Field, h: nat, w: nat, density: real, draws: Field) returns (g: Field)
    requires w > 0 && IsField(f, h, w, 4) && IsField(draws, h, w, 4)
    ensures IsField(g, h, w, 4)
    ensures forall a, b :: 0 <= a < h && 0 <= b < w ==>
      g[a][b] == (if b < WallColumn(w) then Occupation(draws[a][b], density) else f[a][b])
  {
    g := f;
    for i := 0 to h
      invariant IsField(g, h, w, 4)
      invariant forall a, b :: 0 <= a < h && 0 <= b < w ==>
        g[a][b] == (if a < i && b < WallColumn(w) then Occupation(draws[a][b], density) else f[a][b])
    {
      g := PlaceGasRow(g, f, h, w, density, draws, i);
    }
  }

  /** One row of `PlaceGas`. */
  method PlaceGasRow(g: Field, f: Field, h: nat, w: nat, density: real, draws: Field, i: nat) returns (g': Field)
    requires w > 0 && i < h && IsField(g, h, w, 4) && IsField(f, h, w, 4) && IsField(draws, h, w, 4)
    requires forall a, b :: 0 <= a < h && 0 <= b < w ==>
      g[a][b] == (if a < i && b < WallColumn(w) then Occupation(draws[a][b], density) else f[a][b])
    ensures IsField(g', h, w, 4)
    ensures forall a, b :: 0 <= a < h && 0 <= b < w ==>
      g'[a][b] == (if a <= i && b < WallColumn(w) then Occupation(draws[a][b], density) else f[a][b])
  {
    g' := g;
    for j := 0 to w / 4
      invariant IsField(g', h, w, 4)
      invariant forall a, b :: 0 <= a < h && 0 <= b < w ==>
        g'[a][b] == (if (a < i || (a == i && b < j)) && b < WallColumn(w) then Occupation(draws[a][b], density) else f[a][b])
    {
      g' := SetCell(g', i, j, Occupation(draws[i][j], density));
    }
  }

  /**
   * One step of either `LGA` class on its grid: every cell collides, then
   * `StreamGrid` replaces the grid.  From a grid without particles in the
   * wall the particle count is unchanged, and 0/1 occupations stay 0/1.
   */
  method CollideAndStream(inputs: Field, outputs: Field, wall: seq<seq<int>>, h: nat, w: nat) returns (inputs': Field, outputs': Field)
    requires h > 0 && IsField(inputs, h, w, 4) && IsField(outputs, h, w, 4) && IsPlane(wall, h, w)
    ensures inputs' == Streamed(Collided(inputs, h, w), WallMask(wall, h, w), StreamLattice(), h, w)
    ensures outputs' == Zeros(h, w, 4)
    ensures GridTotal(inputs') == FluidTotal(Collided(inputs, h, w), WallMask(wall, h, w))
    ensures WallsEmpty(inputs', WallMask(wall, h, w), h, w, 4)
    ensures WallsEmpty(inputs, WallMask(wall, h, w), h, w, 4) ==> GridTotal(inputs') == GridTotal(inputs)
    ensures AllBits(inputs, h, w) ==> AllBits(inputs', h, w) && AllBits(outputs', h, w)
  {
    var collided := CollideAll(inputs, outputs, h, w);
    CollidedKeepsCount(inputs, WallMask(wall, h, w), h, w);
    if WallsEmpty(inputs, WallMask(wall, h, w), h, w, 4) {
      FluidTotalOfWallsEmpty(collided, WallMask(wall, h, w), h, w, 4);
    }
    inputs', outputs' := StreamGrid(collided, wall, h, w);
  }

  /** Each cell's count of arriving particles: `sum(cell.input)`. */
  function CellCounts(f: Field, h: nat, w: nat): (p: Plane)
    requires IsField(f, h, w, 4)
    ensures IsPlane(p, h, w)
  {
    seq(h, a requires 0 <= a < h => seq(w, b requires 0 <= b < w => Sum(f[a][b])))
  }

  /** A cell of 0/1 occupations holds between 0 and as many particles as it has slots. */
  lemma {:induction false} BitsCountBounds(c: seq<real>)
    requires IsBits(c)
    ensures 0.0 <= Sum(c) <= |c| as real
  {
    if |c| > 0 {
      BitsCountBounds(c[..|c| - 1]);
    }
  }

  /** The counts add up to the grid total, and on a 0/1 grid every count is in 0..4. */
  lemma CellCountsFacts(f: Field, h: nat, w: nat)
    requires IsField(f, h, w, 4)
    ensures PlaneTotal(CellCounts(f, h, w)) == GridTotal(f)
    ensures AllBits(f, h, w) ==> forall a, b :: 0 <= a < h && 0 <= b < w ==> 0.0 <= CellCounts(f, h, w)[a][b] <= 4.0
  {
    GridTotalOfCellSums(f, CellCounts(f, h, w));
    if AllBits(f, h, w) {
      forall a, b | 0 <= a < h && 0 <= b < w ensures 0.0 <= Sum(f[a][b]) <= 4.0 {
        BitsCountBounds(f[a][b]);
      }
    }
  }
}
