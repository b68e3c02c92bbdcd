/**
 * Conway's Game of Life of `lab_04/game_of_life_logic.py`: neighbour counting
 * under three boundary rules and the B3/S23 step.  A grid is a height x width
 * integer array indexed `grid[x][y]`, x the row and y the column; live cells
 * hold 1 and dead cells 0.
 */
module Lab04Life {
  import opened Grids

  type Board = seq<seq<int>>

  /**
   * The `boundary` argument: "periodic" wraps around, "reflective" replaces
   * an off-grid row or column by the cell's own, and every other value skips
   * off-grid neighbours.
   */
  datatype Boundary = Periodic | Reflective | Bounded

  function BoundaryOf(name: string): Boundary
  {
    if name == "periodic" then Periodic else if name == "reflective" then Reflective else Bounded
  }

  /** Every cell is dead (0) or alive (1). */
  ghost predicate IsBoard(grid: Board, h: nat, w: nat)
  {
    IsPlane(grid, h, w) && forall x, y :: 0 <= x < h && 0 <= y < w ==> grid[x][y] == 0 || grid[x][y] == 1
  }

  /**
   * The cell that offset (i, j) of cell (x, y) reads, or None when the offset
   * is the cell itself or an off-grid neighbour that is skipped.
   */
  function Neighbor(h: nat, w: nat, x: int, y: int, i: int, j: int, b: Boundary): (p: Option<(int, int)>)
    requires 0 <= x < h && 0 <= y < w
    ensures p.Some? ==> 0 <= p.value.0 < h && 0 <= p.value.1 < w
  {
    if i == 0 && j == 0 then None
    else
      var nx, ny := x + i, y + j;
      match b
      case Periodic => Some((nx % h, ny % w))
      case Reflective => Some((if nx < 0 || nx >= h then x else nx, if ny < 0 || ny >= w then y else ny))
      case Bounded => if nx < 0 || nx >= h || ny < 0 || ny >= w then None else Some((nx, ny))
  }

  /** Row and column offset of the k-th of the nine offsets (-1, -1), (-1, 0), ..., (1, 1), in loop order. */
  function OffsetRow(k: nat): int
  {
    if k < 3 then -1 else if k < 6 then 0 else 1
  }

  function OffsetCol(k: nat): int
  {
    var r := if k < 3 then k else if k < 6 then k - 3 else k - 6;
    r - 1
  }

  /** The loops visit offset (i, j) as the (3 (i + 1) + (j + 1))-th. */
  lemma OffsetOrder(i: int, j: int)
    requires -1 <= i <= 1 && -1 <= j <= 1
    ensures 0 <= 3 * (i + 1) + (j + 1) < 9
    ensures OffsetRow(3 * (i + 1) + (j + 1)) == i && OffsetCol(3 * (i + 1) + (j + 1)) == j
  {
  }

  /** What the k-th offset adds to the count. */
  function Contribution(grid: Board, h: nat, w: nat, x: int, y: int, b: Boundary, k: nat): int
    requires IsPlane(grid, h, w) && 0 <= x < h && 0 <= y < w && k < 9
  {
    match Neighbor(h, w, x, y, OffsetRow(k), OffsetCol(k), b)
    case None => 0
    case Some(p) => grid[p.0][p.1]
  }

  /** The count once the loops have visited the first k offsets. */
  function CountUpTo(grid: Board, h: nat, w: nat, x: int, y: int, b: Boundary, k: nat): int
    requires IsPlane(grid, h, w) && 0 <= x < h && 0 <= y < w && k <= 9
  {
    if k == 0 then 0 else CountUpTo(grid, h, w, x, y, b, k - 1) + Contribution(grid, h, w, x, y, b, k - 1)
  }

  /** The number `count_neighbors` returns. */
  function NeighborCount(grid: Board, h: nat, w: nat, x: int, y: int, b: Boundary): int
    requires IsPlane(grid, h, w) && 0 <= x < h && 0 <= y < w
  {
    CountUpTo(grid, h, w, x, y, b, 9)
  }

  /**
   * `count_neighbors`: the loop over the eight offsets around (x, y), adding
   * up the cells that `Neighbor` resolves them to.
   */
  method CountNeighbors(grid: Board, h: nat, w: nat, x: int, y: int, b: Boundary) returns (neighbors: int)
    requires IsPlane(grid, h, w) && 0 <= x < h && 0 <= y < w
    ensures neighbors == NeighborCount(grid, h, w, x, y, b)
  {
    neighbors := 0;
    for i := -1 to 2
      invariant neighbors == CountUpTo(grid, h, w, x, y, b, 3 * (i + 1))
    {
      for j := -1 to 2
        invariant neighbors == CountUpTo(grid, h, w, x, y, b, 3 * (i + 1) + (j + 1))
      {
        OffsetOrder(i, j);
        match Neighbor(h, w, x, y, i, j, b)
        case None =>
        case Some(p) =>
          neighbors := neighbors + grid[p.0][p.1];
      }
    }
  }

  /** The offset (0, 0), the fifth of the nine, never counts. */
  lemma {:induction false} CountUpToBounds(grid: Board, h: nat, w: nat, x: int, y: int, b: Boundary, k: nat)
    requires IsBoard(grid, h, w) && 0 <= x < h && 0 <= y < w && k <= 9
    ensures 0 <= CountUpTo(grid, h, w, x, y, b, k) <= (if k <= 4 then k else k - 1)
  {
    if k > 0 {
      CountUpToBounds(grid, h, w, x, y, b, k - 1);
    }
  }

  /** On a 0/1 grid a cell has between 0 and 8 live neighbours, whatever the boundary rule. */
  lemma NeighborCountBounds(grid: Board, h: nat, w: nat, x: int, y: int, b: Boundary)
    requires IsBoard(grid, h, w) && 0 <= x < h && 0 <= y < w
    ensures 0 <= NeighborCount(grid, h, w, x, y, b) <= 8
  {
    CountUpToBounds(grid, h, w, x, y, b, 9);
  }

  /** Counts over offsets that read the same cells are equal. */
  lemma {:induction false} CountUpToAgree(grid: Board, h: nat, w: nat, x: int, y: int, b: Boundary, b': Boundary, k: nat)
    requires IsPlane(grid, h, w) && 0 <= x < h && 0 <= y < w && k <= 9
    requires forall n :: 0 <= n < k ==> Contribution(grid, h, w, x, y, b, n) == Contribution(grid, h, w, x, y, b', n)
    ensures CountUpTo(grid, h, w, x, y, b, k) == CountUpTo(grid, h, w, x, y, b', k)
  {
    if k > 0 {
      CountUpToAgree(grid, h, w, x, y, b, b', k - 1);
    }
  }

  /** A number already in 0..m-1 is its own remainder. */
  lemma SmallRemainder(a: int, m: int)
    requires 0 <= a < m
    ensures a % m == a
  {
  }

  /** Away from the edges every offset reads the same neighbour under the three rules. */
  lemma InteriorOffset(grid: Board, h: nat, w: nat, x: int, y: int, n: nat)
    requires IsPlane(grid, h, w) && 1 <= x < h - 1 && 1 <= y < w - 1 && n < 9
    ensures Contribution(grid, h, w, x, y, Periodic, n) == Contribution(grid, h, w, x, y, Bounded, n)
    ensures Contribution(grid, h, w, x, y, Reflective, n) == Contribution(grid, h, w, x, y, Bounded, n)
  {
    var i, j := OffsetRow(n), OffsetCol(n);
    SmallRemainder(x + i, h);
    SmallRemainder(y + j, w);
  }

  /** Away from the edges the three boundary rules read the same eight neighbours. */
  lemma InteriorIgnoresBoundary(grid: Board, h: nat, w: nat, x: int, y: int)
    requires IsPlane(grid, h, w) && 1 <= x < h - 1 && 1 <= y < w - 1
    ensures NeighborCount(grid, h, w, x, y, Periodic) == NeighborCount(grid, h, w, x, y, Bounded)
    ensures NeighborCount(grid, h, w, x, y, Reflective) == NeighborCount(grid, h, w, x, y, Bounded)
  {
    forall n | 0 <= n < 9
      ensures Contribution(grid, h, w, x, y, Periodic, n) == Contribution(grid, h, w, x, y, Bounded, n)
      ensures Contribution(grid, h, w, x, y, Reflective, n) == Contribution(grid, h, w, x, y, Bounded, n)
    {
      InteriorOffset(grid, h, w, x, y, n);
    }
    CountUpToAgree(grid, h, w, x, y, Periodic, Bounded, 9);
    CountUpToAgree(grid, h, w, x, y, Reflective, Bounded, 9);
  }

  /**
   * On a single live cell, the periodic and reflective rules read the cell
   * itself eight times, while the bounded rule finds no neighbour at all.
   */
  lemma LoneCellCountsItself()
    ensures NeighborCount([[1]], 1, 1, 0, 0, Periodic) == 8
    ensures NeighborCount([[1]], 1, 1, 0, 0, Reflective) == 8
    ensures NeighborCount([[1]], 1, 1, 0, 0, Bounded) == 0
  {
  }

  /** The B3/S23 rule: a live cell survives with 2 or 3 neighbours, a dead one is born with exactly 3. */
  function Rule(alive: int, neighbors: int): int
  {
    if alive == 1 then (if neighbors == 2 || neighbors == 3 then 1 else 0)
    else if neighbors == 3 then 1 else 0
  }

  /** The grid `game_of_life_step` returns. */
  function LifeStep(grid: Board, h: nat, w: nat, b: Boundary): (g: Board)
    requires IsPlane(grid, h, w)
    ensures IsBoard(g, h, w)
  {
    seq(h, x requires 0 <= x < h => seq(w, y requires 0 <= y < w => Rule(grid[x][y], NeighborCount(grid, h, w, x, y, b))))
  }

  /** A cell of the next generation is alive exactly when B3/S23 says so. */
  lemma LifeStepRule(grid: Board, h: nat, w: nat, b: Boundary, x: int, y: int)
    requires IsPlane(grid, h, w) && 0 <= x < h && 0 <= y < w
    ensures var n := NeighborCount(grid, h, w, x, y, b);
      LifeStep(grid, h, w, b)[x][y] == 1 <==>
        (grid[x][y] == 1 && (n == 2 || n == 3)) || (grid[x][y] != 1 && n == 3)
  {
  }

  /** On an empty grid no offset counts anything. */
  lemma {:induction false} EmptyCountUpTo(h: nat, w: nat, x: int, y: int, b: Boundary, k: nat)
    requires 0 <= x < h && 0 <= y < w && k <= 9
    ensures CountUpTo(seq(h, _ => seq(w, _ => 0)), h, w, x, y, b, k) == 0
  {
    if k > 0 {
      EmptyCountUpTo(h, w, x, y, b, k - 1);
    }
  }

  /** The empty grid stays empty under every boundary rule. */
  lemma EmptyStaysEmpty(h: nat, w: nat, b: Boundary)
    ensures LifeStep(seq(h, _ => seq(w, _ => 0)), h, w, b) == seq(h, _ => seq(w, _ => 0))
  {
    var empty := seq(h, _ => seq(w, _ => 0));
    forall x, y | 0 <= x < h && 0 <= y < w ensures LifeStep(empty, h, w, b)[x][y] == 0 {
      EmptyCountUpTo(h, w, x, y, b, 9);
    }
    PlaneExtensionality(LifeStep(empty, h, w, b), empty, h, w);
  }

  /** `game_of_life_step`: a fresh grid filled cell by cell; the input grid is left as it was. */
  method GameOfLifeStep(grid: Board, h: nat, w: nat, b: Boundary) returns (newGrid: Board)
    requires IsPlane(grid, h, w)
    ensures newGrid == LifeStep(grid, h, w, b)
  {
    newGrid := seq(h, _ => seq(w, _ => 0));
    var x := 0;
    while x < h
      invariant 0 <= x <= h && IsPlane(newGrid, h, w)
      invariant forall a, c :: 0 <= a < h && 0 <= c < w ==>
        newGrid[a][c] == if a < x then LifeStep(grid, h, w, b)[a][c] else 0
    {
      var y := 0;
      while y < w
        invariant 0 <= y <= w && IsPlane(newGrid, h, w)
        invariant forall a, c :: 0 <= a < h && 0 <= c < w ==>
          newGrid[a][c] == if a < x || (a == x && c < y) then LifeStep(grid, h, w, b)[a][c] else 0
      {
        var neighbors := CountNeighbors(grid, h, w, x, y, b);
        var cell: int;
        if grid[x][y] == 1 {
          cell := if neighbors == 2 || neighbors == 3 then 1 else 0;
        } else {
          cell := if neighbors == 3 then 1 else 0;
        }
        newGrid := newGrid[x := newGrid[x][y := cell]];
        y := y + 1;
      }
      x := x + 1;
    }
    PlaneExtensionality(newGrid, LifeStep(grid, h, w, b), h, w);
  }
}
