/**
 * The forest-fire automaton of `lab_05/fire_simulation_logic.py`.
 *
 * A terrain grid holds one state per cell: 0 ground, 1 conifer, 2 ignited
 * tree, 3 burning tree, 4 burnt tree, 5 water, 6 sapling, 7 deciduous tree,
 * 8 hole.  A step first works through the regeneration queue (burnt cells
 * whose regrowth time has come become saplings), then moves every cell
 * through the state table, reading only the old grid.
 *
 * The random numbers a step draws are parameters: every cell has its own
 * record of draws (see `Draws`).  The source draws them one after another
 * from one generator; giving each use its own independent number changes
 * which number is used where, not the distribution of the outcome.
 */
module Lab05Fire {
  import opened Grids

  type Terrain = seq<seq<int>>

  const Ground := 0
  const Conifer := 1
  const Ignited := 2
  const Burning := 3
  const Burnt := 4
  const Water := 5
  const Sapling := 6
  const Deciduous := 7
  const Hole := 8

  // ---------------------------------------------------------------------
  // Pixel classification (convert_image_to_grid)
  // ---------------------------------------------------------------------

  function Max(a: int, b: int): int
  {
    if a >= b then a else b
  }

  /**
   * The terrain a pixel stands for: clearly blue is water, green is a
   * conifer when bright and a deciduous tree otherwise, and anything else
   * ground, or water on the Vietnam map.
   */
  function ClassifyPixel(r: int, g: int, b: int, isWietnam: bool): (state: int)
  {
    if b > g && b > r && b - Max(r, g) > 20 then Water
    else if g > r && g > b then (if g > 100 then Conifer else Deciduous)
    else if isWietnam then Water
    else Ground
  }

  /**
   * The classes do not overlap: a pixel is a tree exactly when green is the
   * strictly largest channel, water exactly when blue beats both other
   * channels by more than 20 (or, on the Vietnam map, when it is neither
   * tree nor clear water), and ground otherwise.
   */
  lemma ClassifierCases(r: int, g: int, b: int, isWietnam: bool)
    ensures var s := ClassifyPixel(r, g, b, isWietnam);
      (s == Conifer || s == Deciduous <==> g > r && g > b) &&
      (s == Conifer <==> g > r && g > b && g > 100) &&
      (s == Water <==> (b > r + 20 && b > g + 20) || (isWietnam && !(g > r && g > b))) &&
      (s == Ground <==> !isWietnam && !(g > r && g > b) && !(b > r + 20 && b > g + 20)) &&
      (s == Ground || s == Conifer || s == Water || s == Deciduous)
  {
  }

  /** The classifier loop of `convert_image_to_grid`, over pixels already resized to the grid. */
  method ConvertImageToGrid(pixels: seq<seq<(int, int, int)>>, imagePath: string, height: nat, width: nat)
    returns (grid: Terrain)
    requires IsPlane(pixels, height, width)
    ensures IsPlane(grid, height, width)
    ensures forall x, y :: 0 <= x < height && 0 <= y < width ==>
      grid[x][y] == ClassifyPixel(pixels[x][y].0, pixels[x][y].1, pixels[x][y].2, imagePath == "wietnam.png")
  {
    grid := seq(height, _ => seq(width, _ => 0));
    for x := 0 to height
      invariant IsPlane(grid, height, width)
      invariant forall a, b :: 0 <= a < height && 0 <= b < width ==>
        grid[a][b] == if a < x then ClassifyPixel(pixels[a][b].0, pixels[a][b].1, pixels[a][b].2, imagePath == "wietnam.png") else 0
    {
      for y := 0 to width
        invariant IsPlane(grid, height, width)
        invariant forall a, b :: 0 <= a < height && 0 <= b < width ==>
          grid[a][b] == if a < x || (a == x && b < y) then ClassifyPixel(pixels[a][b].0, pixels[a][b].1, pixels[a][b].2, imagePath == "wietnam.png") else 0
      {
        var (r, g, b) := pixels[x][y];
        var state;
        if b > g && b > r && b - Max(r, g) > 20 {
          state := Water;
        } else if g > r && g > b {
          if g > 100 {
            state := Conifer;
          } else {
            state := Deciduous;
          }
        } else {
          if imagePath == "wietnam.png" {
            state := Water;
          } else {
            state := Ground;
          }
        }
        grid := grid[x := grid[x][y := state]];
      }
    }
  }

  // ---------------------------------------------------------------------
  // get_neighbors
  // ---------------------------------------------------------------------

  /** The `boundary` argument; `OtherBoundary` stands for every other name. */
  datatype Boundary = Reflective | Periodic | OtherBoundary

  function BoundaryOf(name: string): Boundary
  {
    if name == "reflective" then Reflective
    else if name == "periodic" then Periodic
    else OtherBoundary
  }

  /** The eight offsets `get_neighbors` tries, in its order. */
  const NeighborOffsets: seq<(int, int)> := [(-1, 0), (1, 0), (0, -1), (0, 1), (-1, -1), (-1, 1), (1, 1), (1, -1)]

  /** (x, y) moved by offset k. */
  function Shifted(x: int, y: int, k: nat): (int, int)
    requires k < 8
  {
    (x + NeighborOffsets[k].0, y + NeighborOffsets[k].1)
  }

  /** Different offsets lead to different cells. */
  lemma ShiftedInjective(x: int, y: int, i: nat, j: nat)
    requires i < 8 && j < 8 && i != j
    ensures Shifted(x, y, i) != Shifted(x, y, j)
  {
  }

  /** What offset k adds to the neighbour list. */
  function NeighborAt(h: nat, w: nat, x: int, y: int, b: Boundary, k: nat): seq<(int, int)>
    requires k < 8 && (b == Periodic ==> h > 0 && w > 0)
  {
    var (nx, ny) := Shifted(x, y, k);
    match b
    case Reflective => if 0 <= nx < h && 0 <= ny < w then [(nx, ny)] else []
    case Periodic => [(nx % h, ny % w)]
    case OtherBoundary => []
  }

  /** The neighbour list after the first n offsets: every entry is a cell of the grid. */
  function NeighborsUpTo(h: nat, w: nat, x: int, y: int, b: Boundary, n: nat): (ns: seq<(int, int)>)
    requires n <= 8 && (b == Periodic ==> h > 0 && w > 0)
    ensures |ns| <= n
    ensures forall q :: q in ns ==> 0 <= q.0 < h && 0 <= q.1 < w
  {
    if n == 0 then [] else NeighborsUpTo(h, w, x, y, b, n - 1) + NeighborAt(h, w, x, y, b, n - 1)
  }

  function Neighbors(h: nat, w: nat, x: int, y: int, b: Boundary): seq<(int, int)>
    requires b == Periodic ==> h > 0 && w > 0
  {
    NeighborsUpTo(h, w, x, y, b, 8)
  }

  /** The cell offset k contributes to `get_neighbors`: none, or one cell of the grid. */
  method NeighborOf(h: nat, w: nat, x: int, y: int, boundary: Boundary, k: nat) returns (next: seq<(int, int)>)
    requires k < 8 && (boundary == Periodic ==> h > 0 && w > 0)
    ensures next == NeighborAt(h, w, x, y, boundary, k)
  {
    var (nx, ny) := Shifted(x, y, k);
    if boundary == Reflective {
      if 0 <= nx < h && 0 <= ny < w {
        next := [(nx, ny)];
      } else {
        next := [];
      }
    } else if boundary == Periodic {
      next := [(nx % h, ny % w)];
    } else {
      next := [];
    }
  }

  /** `get_neighbors` on a grid of shape (h, w). */
  method GetNeighbors(h: nat, w: nat, x: int, y: int, boundary: Boundary) returns (neighbors: seq<(int, int)>)
    requires boundary == Periodic ==> h > 0 && w > 0
    ensures neighbors == Neighbors(h, w, x, y, boundary)
  {
    neighbors := [];
    for k := 0 to 8
      invariant neighbors == NeighborsUpTo(h, w, x, y, boundary, k)
    {
      var next := NeighborOf(h, w, x, y, boundary, k);
      neighbors := neighbors + next;
    }
  }

  /** No cell is listed twice. */
  ghost predicate NoRepeats(ns: seq<(int, int)>)
  {
    forall i, j :: 0 <= i < j < |ns| ==> ns[i] != ns[j]
  }

  /**
   * Reflective neighbours are the in-grid cells among the eight offsets,
   * each listed once: at most eight distinct cells of the grid.
   */
  lemma {:induction false} ReflectiveNeighborsUpTo(h: nat, w: nat, x: int, y: int, n: nat)
    requires n <= 8
    ensures NoRepeats(NeighborsUpTo(h, w, x, y, Reflective, n))
  {
    if n > 0 {
      ReflectiveNeighborsUpTo(h, w, x, y, n - 1);
      var prev := NeighborsUpTo(h, w, x, y, Reflective, n - 1);
      var ns := NeighborsUpTo(h, w, x, y, Reflective, n);
      var c := Shifted(x, y, n - 1);
      assert ns == prev + NeighborAt(h, w, x, y, Reflective, n - 1);
      assert OffsetOf(x, y, c) == n - 1;
      forall i, j | 0 <= i < j < |ns|
        ensures ns[i] != ns[j]
      {
        if j >= |prev| {
          assert ns[j] == c;
          assert ns[i] == prev[i] && prev[i] in prev;
          ReflectiveMember(h, w, x, y, n - 1, prev[i]);
          assert OffsetOf(x, y, prev[i]) < n - 1;
        } else {
          assert ns[i] == prev[i] && ns[j] == prev[j];
        }
      }
    }
  }

  /** The cells listed after n offsets are the in-grid cells among them. */
  lemma ReflectiveNeighborsIn(h: nat, w: nat, x: int, y: int, n: nat)
    requires n <= 8
    ensures var ns := NeighborsUpTo(h, w, x, y, Reflective, n);
      forall q :: q in ns <==> exists k :: 0 <= k < n && q == Shifted(x, y, k) && 0 <= q.0 < h && 0 <= q.1 < w
  {
    forall q
      ensures q in NeighborsUpTo(h, w, x, y, Reflective, n) <==>
        exists k :: 0 <= k < n && q == Shifted(x, y, k) && 0 <= q.0 < h && 0 <= q.1 < w
    {
      ReflectiveMember(h, w, x, y, n, q);
      var k := OffsetOf(x, y, q);
      if k < n && 0 <= q.0 < h && 0 <= q.1 < w {
        assert q == Shifted(x, y, k);
      }
    }
  }

  /** The offset that leads from (x, y) to q, or 8 when none does. */
  function OffsetOf(x: int, y: int, q: (int, int)): (k: nat)
    ensures k <= 8
    ensures forall i :: 0 <= i < 8 ==> (Shifted(x, y, i) == q <==> i == k)
  {
    if Shifted(x, y, 0) == q then 0
    else if Shifted(x, y, 1) == q then 1
    else if Shifted(x, y, 2) == q then 2
    else if Shifted(x, y, 3) == q then 3
    else if Shifted(x, y, 4) == q then 4
    else if Shifted(x, y, 5) == q then 5
    else if Shifted(x, y, 6) == q then 6
    else if Shifted(x, y, 7) == q then 7
    else 8
  }

  /** A cell is among the first n reflective neighbours exactly when it is on the grid and one of the first n offsets leads to it. */
  lemma {:induction false} ReflectiveMember(h: nat, w: nat, x: int, y: int, n: nat, q: (int, int))
    requires n <= 8
    ensures q in NeighborsUpTo(h, w, x, y, Reflective, n) <==> 0 <= q.0 < h && 0 <= q.1 < w && OffsetOf(x, y, q) < n
  {
    if n > 0 {
      ReflectiveMember(h, w, x, y, n - 1, q);
      ReflectiveNeighborStep(h, w, x, y, n, q);
    }
  }

  /** Offset n - 1 adds its cell to the list exactly when that cell is on the grid. */
  lemma ReflectiveNeighborStep(h: nat, w: nat, x: int, y: int, n: nat, q: (int, int))
    requires 0 < n <= 8
    ensures q in NeighborsUpTo(h, w, x, y, Reflective, n) <==>
      q in NeighborsUpTo(h, w, x, y, Reflective, n - 1) || (q == Shifted(x, y, n - 1) && 0 <= q.0 < h && 0 <= q.1 < w)
  {
  }

  lemma ReflectiveNeighbors(h: nat, w: nat, x: int, y: int)
    ensures var ns := Neighbors(h, w, x, y, Reflective);
      |ns| <= 8 && (forall q :: q in ns ==> 0 <= q.0 < h && 0 <= q.1 < w) &&
      (forall i, j :: 0 <= i < j < |ns| ==> ns[i] != ns[j]) &&
      (forall q :: q in ns <==> exists k :: 0 <= k < 8 && q == Shifted(x, y, k) && 0 <= q.0 < h && 0 <= q.1 < w)
  {
    ReflectiveNeighborsUpTo(h, w, x, y, 8);
    ReflectiveNeighborsIn(h, w, x, y, 8);
  }

  /** Periodic neighbours are always the eight offsets, each wrapped onto the grid. */
  lemma {:induction false} PeriodicNeighborsUpTo(h: nat, w: nat, x: int, y: int, n: nat)
    requires n <= 8 && h > 0 && w > 0
    ensures var ns := NeighborsUpTo(h, w, x, y, Periodic, n);
      |ns| == n &&
      forall k :: 0 <= k < n ==> ns[k] == (Shifted(x, y, k).0 % h, Shifted(x, y, k).1 % w)
  {
    if n > 0 {
      PeriodicNeighborsUpTo(h, w, x, y, n - 1);
      var prev := NeighborsUpTo(h, w, x, y, Periodic, n - 1);
      var ns := NeighborsUpTo(h, w, x, y, Periodic, n);
      var c := Shifted(x, y, n - 1);
      assert ns == prev + [(c.0 % h, c.1 % w)];
      forall k | 0 <= k < n
        ensures ns[k] == (Shifted(x, y, k).0 % h, Shifted(x, y, k).1 % w)
      {
        if k < n - 1 {
          assert ns[k] == prev[k];
        }
      }
    }
  }

  lemma PeriodicNeighbors(h: nat, w: nat, x: int, y: int)
    requires h > 0 && w > 0
    ensures var ns := Neighbors(h, w, x, y, Periodic);
      |ns| == 8 && (forall q :: q in ns ==> 0 <= q.0 < h && 0 <= q.1 < w) &&
      forall k :: 0 <= k < 8 ==> ns[k] == (Shifted(x, y, k).0 % h, Shifted(x, y, k).1 % w)
  {
    PeriodicNeighborsUpTo(h, w, x, y, 8);
  }

  /** Any other boundary name gives no neighbours at all. */
  lemma {:induction false} OtherNeighborsUpTo(h: nat, w: nat, x: int, y: int, n: nat)
    requires n <= 8
    ensures NeighborsUpTo(h, w, x, y, OtherBoundary, n) == []
  {
    if n > 0 {
      OtherNeighborsUpTo(h, w, x, y, n - 1);
    }
  }

  lemma OtherNeighbors(h: nat, w: nat, x: int, y: int)
    ensures Neighbors(h, w, x, y, OtherBoundary) == []
  {
    OtherNeighborsUpTo(h, w, x, y, 8);
  }

  /** `any(grid[nx, ny] == 5 for nx, ny in neighbors)`. */
  predicate AnyWater(grid: Terrain, h: nat, w: nat, neighbors: seq<(int, int)>)
    requires IsPlane(grid, h, w) && forall q :: q in neighbors ==> 0 <= q.0 < h && 0 <= q.1 < w
  {
    exists q :: q in neighbors && grid[q.0][q.1] == Water
  }

  /** Some neighbour of (x, y) is water. */
  predicate WaterNearby(grid: Terrain, h: nat, w: nat, x: int, y: int, b: Boundary)
    requires IsPlane(grid, h, w) && (b == Periodic ==> h > 0 && w > 0)
  {
    AnyWater(grid, h, w, Neighbors(h, w, x, y, b))
  }

  // ---------------------------------------------------------------------
  // fire_simulation_step
  // ---------------------------------------------------------------------

  /** One regeneration-queue entry: a burnt cell and the time from which it may regrow. */
  datatype Entry = Entry(x: int, y: int, time: real)

  /**
   * The random numbers one cell may use in a step: `quench` decides whether
   * a fire next to water goes out into a burnt tree, `delay` is the
   * `randint(0, random_delay)` added to the regrowth time, `species` picks
   * conifer (below 0.5) or deciduous for a tree that regrows or survives,
   * and `sparks[k]` is compared with the chance of catching fire from the
   * neighbour in direction k.
   */
  datatype Draws = Draws(quench: real, delay: int, species: real, sparks: seq<real>)

  /** The `wind_direction` argument: one of the eight compass keys, or no wind. */
  datatype Wind = North | South | East | West | NorthEast | NorthWest | SouthEast | SouthWest | Calm

  /** `wind_effect.get(wind_direction, wind_effect[None])`: unknown names and `None` mean no wind. */
  function WindOf(direction: Option<string>): Wind
  {
    match direction
    case None => Calm
    case Some(d) =>
      if d == "N" then North else if d == "S" then South else if d == "E" then East else if d == "W" then West
      else if d == "NE" then NorthEast else if d == "NW" then NorthWest else if d == "SE" then SouthEast
      else if d == "SW" then SouthWest else Calm
  }

  /** `wind_effect[None]`: the eight directions a tree looks for fire in, in the order it looks. */
  const AllDirections: seq<(int, int)> := [(-1, 0), (1, 0), (0, -1), (0, 1), (-1, 1), (-1, -1), (1, 1), (1, -1)]

  /** The cone of directions the wind favours, its main direction first. */
  function WindOffsets(wind: Wind): (offsets: seq<(int, int)>)
    ensures |offsets| > 0
  {
    match wind
    case North => [(-1, 0), (-1, -1), (-1, 1)]
    case South => [(1, 0), (1, -1), (1, 1)]
    case East => [(0, 1), (-1, 1), (1, 1)]
    case West => [(0, -1), (-1, -1), (1, -1)]
    case NorthEast => [(-1, 1), (-1, 0), (0, 1)]
    case NorthWest => [(-1, -1), (-1, 0), (0, -1)]
    case SouthEast => [(1, 1), (1, 0), (0, 1)]
    case SouthWest => [(1, -1), (1, 0), (0, -1)]
    case Calm => AllDirections
  }

  /** The parameters of `fire_simulation_step` other than the grid, the queue and the draws. */
  datatype Params = Params(boundary: Boundary, wind: Wind, humidity: real, windStrength: real,
                           cooldown: int, currentIteration: int, randomDelay: int)

  /**
   * The chance that fire in direction k reaches a tree in state s: inside
   * the wind's cone it is the dryness 1 - humidity (halved off the main
   * direction, and 0.9 of that for a deciduous tree), outside the cone
   * 0.5 - wind_strength; water next to the tree halves it.
   */
  function Chance(p: Params, s: int, k: nat, water: bool): real
    requires k < 8
  {
    var d := AllDirections[k];
    var offsets := WindOffsets(p.wind);
    var dryness := 1.0 - p.humidity;
    var chance :=
      if d in offsets then
        var c := if d == offsets[0] then dryness else dryness / 2.0;
        if s == Deciduous then c * 0.9 else c
      else 0.5 - p.windStrength;
    if water then chance * 0.5 else chance
  }

  /**
   * Water halves every chance; in the cone a deciduous tree catches fire
   * with 0.9 of a conifer's chance and outside it with the same chance.
   */
  lemma ChanceFactors(p: Params, k: nat, water: bool)
    requires k < 8
    ensures Chance(p, Conifer, k, true) == Chance(p, Conifer, k, false) * 0.5
    ensures Chance(p, Deciduous, k, true) == Chance(p, Deciduous, k, false) * 0.5
    ensures AllDirections[k] in WindOffsets(p.wind) ==> Chance(p, Deciduous, k, water) == Chance(p, Conifer, k, water) * 0.9
    ensures AllDirections[k] !in WindOffsets(p.wind) ==> Chance(p, Deciduous, k, water) == Chance(p, Conifer, k, water)
    ensures p.wind == Calm && !water ==> Chance(p, Conifer, 0, water) == 1.0 - p.humidity
  {
  }

  /**
   * The other boundary names leave neighbour indices unwrapped: a healthy
   * tree in the last row or column would index past the grid.
   */
  ghost predicate TreesIndexable(grid: Terrain, h: nat, w: nat, b: Boundary)
    requires IsPlane(grid, h, w)
  {
    b == OtherBoundary ==>
      forall x, y :: 0 <= x < h && 0 <= y < w && (grid[x][y] == Conifer || grid[x][y] == Deciduous) ==> x + 1 < h && y + 1 < w
  }

  /**
   * The cell a tree at (x, y) looks at in direction k: wrapped for
   * "periodic", skipped (`None`) off the grid for "reflective", and indexed
   * Python-style (-1 is the last row or column) for any other name.
   */
  function Target(h: nat, w: nat, x: int, y: int, b: Boundary, k: nat): (t: Option<(int, int)>)
    requires k < 8 && 0 <= x < h && 0 <= y < w
    requires b == OtherBoundary ==> x + 1 < h && y + 1 < w
    ensures t.Some? ==> 0 <= t.value.0 < h && 0 <= t.value.1 < w
  {
    var nx := x + AllDirections[k].0;
    var ny := y + AllDirections[k].1;
    match b
    case Periodic => Some((nx % h, ny % w))
    case Reflective => if 0 <= nx < h && 0 <= ny < w then Some((nx, ny)) else None
    case OtherBoundary => Some((PyIndex(nx, h), PyIndex(ny, w)))
  }

  /** Fire in direction k sets the tree at (x, y) alight with this draw. */
  predicate SparkAt(grid: Terrain, h: nat, w: nat, x: int, y: int, p: Params, k: nat, spark: real, water: bool)
    requires IsPlane(grid, h, w) && k < 8 && 0 <= x < h && 0 <= y < w
    requires p.boundary == OtherBoundary ==> x + 1 < h && y + 1 < w
  {
    match Target(h, w, x, y, p.boundary, k)
    case None => false
    case Some(t) =>
      (grid[t.0][t.1] == Ignited || grid[t.0][t.1] == Burning) && spark < Chance(p, grid[x][y], k, water)
  }

  /** Some direction sets the tree alight. */
  predicate Ignites(grid: Terrain, h: nat, w: nat, x: int, y: int, p: Params, sparks: seq<real>, water: bool)
    requires IsPlane(grid, h, w) && |sparks| == 8 && 0 <= x < h && 0 <= y < w
    requires p.boundary == OtherBoundary ==> x + 1 < h && y + 1 < w
  {
    exists k :: 0 <= k < 8 && SparkAt(grid, h, w, x, y, p, k, sparks[k], water)
  }

  /**
   * The loop over the eight directions for a healthy tree: it ignites as
   * soon as one draw beats its chance.  A hit inside the wind's cone ends
   * the loop, a hit outside it does not; either way the tree is alight.
   */
  method Spreads(grid: Terrain, h: nat, w: nat, x: nat, y: nat, p: Params, sparks: seq<real>, water: bool)
    returns (ignites: bool)
    requires IsPlane(grid, h, w) && x < h && y < w && |sparks| == 8
    requires p.boundary == OtherBoundary ==> x + 1 < h && y + 1 < w
    ensures ignites == Ignites(grid, h, w, x, y, p, sparks, water)
  {
    ignites := false;
    var windOffsets := WindOffsets(p.wind);
    for k := 0 to 8
      invariant ignites <==> exists k' :: 0 <= k' < k && SparkAt(grid, h, w, x, y, p, k', sparks[k'], water)
    {
      var (dx, dy) := AllDirections[k];
      var nx, ny := x + dx, y + dy;
      if p.boundary == Periodic {
        nx, ny := nx % h, ny % w;
      } else if p.boundary == Reflective {
        if !(0 <= nx < h && 0 <= ny < w) {
          continue;
        }
      } else {
        nx, ny := PyIndex(nx, h), PyIndex(ny, w);
      }
      assert Target(h, w, x, y, p.boundary, k) == Some((nx, ny));
      if grid[nx][ny] == Ignited || grid[nx][ny] == Burning {
        var chance := Chance(p, grid[x][y], k, water);
        if sparks[k] < chance {
          ignites := true;
          if (dx, dy) in windOffsets {
            break;
          }
        }
      }
    }
  }

  /** `1 if random.random() < 0.5 else 7`. */
  function Species(draw: real): (s: int)
    ensures s == Conifer || s == Deciduous
  {
    if draw < 0.5 then Conifer else Deciduous
  }

  /** The regrowth time of a fire put out by water: `current_iteration + cooldown * (1 - humidity) + delay`. */
  function QuenchedRegrowth(p: Params, delay: int): real
  {
    p.currentIteration as real + p.cooldown as real * (1.0 - p.humidity) + delay as real
  }

  /** What the cell loop does to one cell: its new state, and the regrowth time it enqueues, if any. */
  datatype Change = Change(state: int, regen: Option<real>)

  /** The shape of the inputs a step works on. */
  ghost predicate StepInputs(grid: Terrain, h: nat, w: nat, queue: seq<Entry>, p: Params, draws: seq<seq<Draws>>)
  {
    IsPlane(grid, h, w) && IsPlane(draws, h, w) && TreesIndexable(grid, h, w, p.boundary) &&
    (forall x, y :: 0 <= x < h && 0 <= y < w ==> |draws[x][y].sparks| == 8 && 0 <= draws[x][y].delay <= p.randomDelay) &&
    forall e :: e in queue ==> 0 <= e.x < h && 0 <= e.y < w
  }

  /**
   * The state table of the cell loop, reading the old grid only.  A cell
   * is enqueued exactly when it turns into a burnt tree.
   */
  function CellChange(grid: Terrain, h: nat, w: nat, x: int, y: int, p: Params, d: Draws): (c: Change)
    requires IsPlane(grid, h, w) && 0 <= x < h && 0 <= y < w && |d.sparks| == 8 && TreesIndexable(grid, h, w, p.boundary)
    ensures c.regen.Some? <==> c.state == Burnt && grid[x][y] != Burnt
    ensures grid[x][y] == Burnt ==> c.state == Burnt
  {
    var s := grid[x][y];
    var water := WaterNearby(grid, h, w, x, y, p.boundary);
    if s == Ignited || s == Burning then
      if water then
        if d.quench < 0.5 then
          Change(Burnt, Some(QuenchedRegrowth(p, d.delay)))
        else Change(Species(d.species), None)
      else if s == Ignited then Change(Burning, None)
      else Change(Burnt, Some((p.currentIteration + p.cooldown + d.delay) as real))
    else if s == Sapling then Change(Species(d.species), None)
    else if s == Hole then Change(if water then Water else Hole, None)
    else if s == Conifer || s == Deciduous then Change(if Ignites(grid, h, w, x, y, p, d.sparks, water) then Ignited else s, None)
    else Change(s, None)
  }

  /** Some entry for (x, y) has reached its regrowth time. */
  predicate Matured(queue: seq<Entry>, x: int, y: int, currentIteration: int)
  {
    exists e :: e in queue && e.x == x && e.y == y && currentIteration as real >= e.time
  }

  /** The entries the queue pass keeps: still burnt, regrowth time not reached, in their old order. */
  function Kept(grid: Terrain, h: nat, w: nat, queue: seq<Entry>, currentIteration: int): (kept: seq<Entry>)
    requires IsPlane(grid, h, w) && forall e :: e in queue ==> 0 <= e.x < h && 0 <= e.y < w
    ensures forall e :: e in kept <==> e in queue && grid[e.x][e.y] == Burnt && currentIteration as real < e.time
  {
    if |queue| == 0 then []
    else
      var e := queue[|queue| - 1];
      Kept(grid, h, w, queue[..|queue| - 1], currentIteration) +
        (if grid[e.x][e.y] == Burnt && !(currentIteration as real >= e.time) then [e] else [])
  }

  /** The state of (x, y) after a whole step. */
  function NextCell(grid: Terrain, h: nat, w: nat, queue: seq<Entry>, p: Params, draws: seq<seq<Draws>>, x: int, y: int): int
    requires StepInputs(grid, h, w, queue, p, draws) && 0 <= x < h && 0 <= y < w
  {
    if grid[x][y] == Burnt && Matured(queue, x, y, p.currentIteration) then Sapling
    else CellChange(grid, h, w, x, y, p, draws[x][y]).state
  }

  /** The grid after a step. */
  function NextGrid(grid: Terrain, h: nat, w: nat, queue: seq<Entry>, p: Params, draws: seq<seq<Draws>>): (g: Terrain)
    requires StepInputs(grid, h, w, queue, p, draws)
    ensures IsPlane(g, h, w)
    ensures forall x, y :: 0 <= x < h && 0 <= y < w ==> g[x][y] == NextCell(grid, h, w, queue, p, draws, x, y)
  {
    seq(h, x requires 0 <= x < h => seq(w, y requires 0 <= y < w => NextCell(grid, h, w, queue, p, draws, x, y)))
  }

  /** What the cell loop does to every cell. */
  function Changes(grid: Terrain, h: nat, w: nat, p: Params, draws: seq<seq<Draws>>): (cs: seq<seq<Change>>)
    requires StepInputs(grid, h, w, [], p, draws)
    ensures IsPlane(cs, h, w)
    ensures forall x, y :: 0 <= x < h && 0 <= y < w ==> cs[x][y] == CellChange(grid, h, w, x, y, p, draws[x][y])
  {
    seq(h, x requires 0 <= x < h => seq(w, y requires 0 <= y < w => CellChange(grid, h, w, x, y, p, draws[x][y])))
  }

  /** The entry a change of cell (x, y) enqueues, if any, as a list. */
  function EntryOf(c: Change, x: int, y: int): seq<Entry>
  {
    if c.regen.Some? then [Entry(x, y, c.regen.value)] else []
  }

  /** The entries enqueued by the first n cells of row x, left to right. */
  function RowEntries(row: seq<Change>, x: int, n: nat): seq<Entry>
    requires n <= |row|
  {
    if n == 0 then [] else RowEntries(row, x, n - 1) + EntryOf(row[n - 1], x, n - 1)
  }

  /** The entries enqueued by the first m rows, in row-major order. */
  function GridEntries(changes: seq<seq<Change>>, m: nat): seq<Entry>
    requires m <= |changes|
  {
    if m == 0 then [] else GridEntries(changes, m - 1) + RowEntries(changes[m - 1], m - 1, |changes[m - 1]|)
  }

  /** Row x enqueues only its own cells whose change enqueues, each once, left to right. */
  lemma {:induction false} RowEntriesFacts(row: seq<Change>, x: int, n: nat)
    requires n <= |row|
    ensures var r := RowEntries(row, x, n);
      (forall e :: e in r ==> e.x == x && 0 <= e.y < n && row[e.y].regen == Some(e.time)) &&
      (forall i, j :: 0 <= i < j < |r| ==> r[i].y < r[j].y)
  {
    if n > 0 {
      RowEntriesFacts(row, x, n - 1);
      var before := RowEntries(row, x, n - 1);
      var last := EntryOf(row[n - 1], x, n - 1);
      var r := before + last;
      assert RowEntries(row, x, n) == r;
      forall e | e in r
        ensures e.x == x && 0 <= e.y < n && row[e.y].regen == Some(e.time)
      {
        if e !in before {
          assert e in last;
        }
      }
      forall i, j | 0 <= i < j < |r|
        ensures r[i].y < r[j].y
      {
        if j >= |before| {
          assert r[j] in last && r[i] == before[i] && before[i] in before;
        } else {
          assert r[i] == before[i] && r[j] == before[j];
        }
      }
    }
  }

  /** The first m rows enqueue only cells whose change enqueues, each once, in row-major order. */
  lemma {:induction false} GridEntriesFacts(changes: seq<seq<Change>>, m: nat)
    requires m <= |changes|
    ensures var r := GridEntries(changes, m);
      (forall e :: e in r ==> 0 <= e.x < m && 0 <= e.y < |changes[e.x]| && changes[e.x][e.y].regen == Some(e.time)) &&
      (forall i, j :: 0 <= i < j < |r| ==> r[i].x < r[j].x || (r[i].x == r[j].x && r[i].y < r[j].y))
  {
    GridEntriesIn(changes, m);
    GridEntriesOrdered(changes, m);
    assert RowMajor(GridEntries(changes, m));
  }

  /** The first m rows enqueue only cells whose change enqueues. */
  lemma {:induction false} GridEntriesIn(changes: seq<seq<Change>>, m: nat)
    requires m <= |changes|
    ensures forall e :: e in GridEntries(changes, m) ==>
      0 <= e.x < m && 0 <= e.y < |changes[e.x]| && changes[e.x][e.y].regen == Some(e.time)
  {
    if m > 0 {
      GridEntriesIn(changes, m - 1);
      RowEntriesFacts(changes[m - 1], m - 1, |changes[m - 1]|);
      var before := GridEntries(changes, m - 1);
      var row := RowEntries(changes[m - 1], m - 1, |changes[m - 1]|);
      assert GridEntries(changes, m) == before + row;
      forall e | e in GridEntries(changes, m)
        ensures 0 <= e.x < m && 0 <= e.y < |changes[e.x]| && changes[e.x][e.y].regen == Some(e.time)
      {
        if e !in before {
          assert e in row && e.x == m - 1;
        }
      }
    }
  }

  /** Entries in row-major order, each cell once. */
  ghost predicate RowMajor(r: seq<Entry>)
  {
    forall i, j :: 0 <= i < j < |r| ==> r[i].x < r[j].x || (r[i].x == r[j].x && r[i].y < r[j].y)
  }

  /** The entries of the first m rows are in row-major order, each cell once. */
  lemma {:induction false} GridEntriesOrdered(changes: seq<seq<Change>>, m: nat)
    requires m <= |changes|
    ensures RowMajor(GridEntries(changes, m))
  {
    if m > 0 {
      GridEntriesOrdered(changes, m - 1);
      GridEntriesBefore(changes, m - 1);
      RowEntriesInOrder(changes[m - 1], m - 1);
      var before := GridEntries(changes, m - 1);
      var row := RowEntries(changes[m - 1], m - 1, |changes[m - 1]|);
      RowMajorConcat(before, row, m - 1);
    }
  }

  /** Every entry lies in a row above x. */
  ghost predicate RowsBefore(r: seq<Entry>, x: int)
  {
    forall e :: e in r ==> e.x < x
  }

  /** Every entry lies in row x, left to right, each cell once. */
  ghost predicate RowInOrder(r: seq<Entry>, x: int)
  {
    (forall e :: e in r ==> e.x == x) && forall i, j :: 0 <= i < j < |r| ==> r[i].y < r[j].y
  }

  /** `GridEntriesIn` as `RowsBefore`. */
  lemma GridEntriesBefore(changes: seq<seq<Change>>, m: nat)
    requires m <= |changes|
    ensures RowsBefore(GridEntries(changes, m), m)
  {
    GridEntriesIn(changes, m);
  }

  /** `RowEntriesFacts` for a whole row, as `RowInOrder`. */
  lemma RowEntriesInOrder(row: seq<Change>, x: int)
    ensures RowInOrder(RowEntries(row, x, |row|), x)
  {
    RowEntriesFacts(row, x, |row|);
  }

  /** Appending a row x, ordered left to right, to entries of earlier rows keeps row-major order. */
  lemma RowMajorConcat(before: seq<Entry>, row: seq<Entry>, x: int)
    requires RowMajor(before) && RowsBefore(before, x) && RowInOrder(row, x)
    ensures RowMajor(before + row)
  {
    var r := before + row;
    forall i, j | 0 <= i < j < |r|
      ensures r[i].x < r[j].x || (r[i].x == r[j].x && r[i].y < r[j].y)
    {
      if j < |before| {
        assert r[i] == before[i] && r[j] == before[j];
      } else if i >= |before| {
        assert r[i] == row[i - |before|] && r[j] == row[j - |before|];
      } else {
        assert r[i] == before[i] && r[j] == row[j - |before|];
        assert r[i] in before && r[j] in row;
      }
    }
  }

  /** Rows whose changes enqueue nothing add no entries. */
  lemma {:induction false} NothingEnqueued(changes: seq<seq<Change>>, m: nat)
    requires m <= |changes|
    requires forall x, y :: 0 <= x < m && 0 <= y < |changes[x]| ==> changes[x][y].regen.None?
    ensures GridEntries(changes, m) == []
  {
    if m > 0 {
      NothingEnqueued(changes, m - 1);
      var row := changes[m - 1];
      for n := 0 to |row|
        invariant RowEntries(row, m - 1, n) == []
      {
      }
    }
  }

  /** A cell of row x whose change enqueues has its entry in the row's list. */
  lemma {:induction false} RowEntriesCover(row: seq<Change>, x: int, y: int, n: nat)
    requires 0 <= y < n <= |row| && row[y].regen.Some?
    ensures Entry(x, y, row[y].regen.value) in RowEntries(row, x, n)
  {
    if y < n - 1 {
      RowEntriesCover(row, x, y, n - 1);
    }
  }

  /** A cell whose change enqueues has its entry in the list of every m rows that include it. */
  lemma {:induction false} GridEntriesCover(changes: seq<seq<Change>>, x: int, y: int, m: nat)
    requires 0 <= x < m <= |changes| && 0 <= y < |changes[x]| && changes[x][y].regen.Some?
    ensures Entry(x, y, changes[x][y].regen.value) in GridEntries(changes, m)
  {
    if x < m - 1 {
      GridEntriesCover(changes, x, y, m - 1);
    } else {
      RowEntriesCover(changes[x], x, y, |changes[x]|);
    }
  }

  /** The queue after a step: the kept entries, then the cells that burnt out, in scan order. */
  function NextQueue(grid: Terrain, h: nat, w: nat, queue: seq<Entry>, p: Params, draws: seq<seq<Draws>>): seq<Entry>
    requires StepInputs(grid, h, w, queue, p, draws)
  {
    Kept(grid, h, w, queue, p.currentIteration) + GridEntries(Changes(grid, h, w, p, draws), h)
  }

  /** The grid with (x, y) set to v. */
  function Put(g: Terrain, h: nat, w: nat, x: nat, y: nat, v: int): (g': Terrain)
    requires IsPlane(g, h, w) && x < h && y < w
    ensures IsPlane(g', h, w)
    ensures forall a, b :: 0 <= a < h && 0 <= b < w ==> g'[a][b] == if a == x && b == y then v else g[a][b]
  {
    g[x := g[x][y := v]]
  }

  /**
   * The body of the cell loop for cell (x, y): the branches on the old
   * state, writing into `newGrid` and appending to the queue.  A burnt cell
   * is left alone; every other cell ends in the state `CellChange` names.
   */
  method UpdateCell(grid: Terrain, h: nat, w: nat, x: nat, y: nat, p: Params, d: Draws, ghost c: Change,
                    newGrid: Terrain, newQueue: seq<Entry>) returns (newGrid': Terrain, newQueue': seq<Entry>)
    requires IsPlane(grid, h, w) && IsPlane(newGrid, h, w) && x < h && y < w && |d.sparks| == 8
    requires TreesIndexable(grid, h, w, p.boundary) && c == CellChange(grid, h, w, x, y, p, d)
    requires grid[x][y] != Burnt ==> newGrid[x][y] == grid[x][y]
    ensures IsPlane(newGrid', h, w)
    ensures forall a, b :: 0 <= a < h && 0 <= b < w ==>
      newGrid'[a][b] == if a == x && b == y && grid[x][y] != Burnt then c.state else newGrid[a][b]
    ensures c.regen.None? ==> newQueue' == newQueue
    ensures c.regen.Some? ==> newQueue' == newQueue + [Entry(x, y, c.regen.value)]
  {
    newGrid', newQueue' := newGrid, newQueue;
    ghost var water := WaterNearby(grid, h, w, x, y, p.boundary);
    var s := grid[x][y];
    if s == Ignited || s == Burning {
      var neighbors := GetNeighbors(h, w, x, y, p.boundary);
      assert AnyWater(grid, h, w, neighbors) == water;
      if AnyWater(grid, h, w, neighbors) {
        if d.quench < 0.5 {
          newGrid' := Put(newGrid', h, w, x, y, Burnt);
          var regenTime := QuenchedRegrowth(p, d.delay);
          newQueue' := newQueue' + [Entry(x, y, regenTime)];
          assert c == Change(Burnt, Some(regenTime));
        } else {
          newGrid' := Put(newGrid', h, w, x, y, if d.species < 0.5 then Conifer else Deciduous);
          assert c == Change(Species(d.species), None);
        }
      } else if s == Ignited {
        newGrid' := Put(newGrid', h, w, x, y, Burning);
        assert c == Change(Burning, None);
      } else {
        newGrid' := Put(newGrid', h, w, x, y, Burnt);
        var regenTime := p.currentIteration + p.cooldown + d.delay;
        newQueue' := newQueue' + [Entry(x, y, regenTime as real)];
        assert c == Change(Burnt, Some(regenTime as real));
      }
    } else if s == Sapling {
      newGrid' := Put(newGrid', h, w, x, y, if d.species < 0.5 then Conifer else Deciduous);
      assert c == Change(Species(d.species), None);
    } else if s == Hole {
      var neighbors := GetNeighbors(h, w, x, y, p.boundary);
      assert AnyWater(grid, h, w, neighbors) == water;
      if AnyWater(grid, h, w, neighbors) {
        newGrid' := Put(newGrid', h, w, x, y, Water);
      }
      assert c == Change(if water then Water else Hole, None);
    } else if s == Conifer || s == Deciduous || s == Sapling {
      var neighbors := GetNeighbors(h, w, x, y, p.boundary);
      var waterNearby := AnyWater(grid, h, w, neighbors);
      assert waterNearby == water;
      var ignites := Spreads(grid, h, w, x, y, p, d.sparks, waterNearby);
      if ignites {
        newGrid' := Put(newGrid', h, w, x, y, Ignited);
      }
      assert c == Change(if ignites then Ignited else s, None);
    } else {
      assert c == Change(s, None);
    }
  }

  /**
   * `fire_simulation_step`: the queue pass, then the cell loop, both
   * writing into a copy of the grid while reading the grid itself.
   */
  method FireSimulationStep(grid: Terrain, h: nat, w: nat, queue: seq<Entry>, p: Params, draws: seq<seq<Draws>>)
    returns (newGrid: Terrain, newQueue: seq<Entry>)
    requires StepInputs(grid, h, w, queue, p, draws)
    ensures newGrid == NextGrid(grid, h, w, queue, p, draws)
    ensures newQueue == NextQueue(grid, h, w, queue, p, draws)
  {
    newGrid, newQueue := RegenerationPass(grid, h, w, queue, p.currentIteration);
    ghost var start, kept := newGrid, newQueue;
    ghost var changes := Changes(grid, h, w, p, draws);
    for x := 0 to h
      invariant IsPlane(newGrid, h, w)
      invariant newQueue == kept + GridEntries(changes, x)
      invariant forall a, b :: 0 <= a < x && 0 <= b < w && grid[a][b] != Burnt ==> newGrid[a][b] == changes[a][b].state
      invariant forall a, b :: 0 <= a < h && 0 <= b < w && (a >= x || grid[a][b] == Burnt) ==> newGrid[a][b] == start[a][b]
    {
      newGrid, newQueue := ScanRow(grid, h, w, p, draws[x], changes[x], x, newGrid, newQueue);
      QueueGrows(kept, GridEntries(changes, x), RowEntries(changes[x], x, w));
    }
    StepGrid(grid, h, w, queue, p, draws, start, newGrid);
  }

  /** The grid the cell loop leaves behind is the specified next grid. */
  lemma StepGrid(grid: Terrain, h: nat, w: nat, queue: seq<Entry>, p: Params, draws: seq<seq<Draws>>, start: Terrain, g: Terrain)
    requires StepInputs(grid, h, w, queue, p, draws) && IsPlane(start, h, w) && IsPlane(g, h, w)
    requires forall a, b :: 0 <= a < h && 0 <= b < w ==>
      start[a][b] == if grid[a][b] == Burnt && Matured(queue, a, b, p.currentIteration) then Sapling else grid[a][b]
    requires forall a, b :: 0 <= a < h && 0 <= b < w && grid[a][b] != Burnt ==>
      g[a][b] == Changes(grid, h, w, p, draws)[a][b].state
    requires forall a, b :: 0 <= a < h && 0 <= b < w && grid[a][b] == Burnt ==> g[a][b] == start[a][b]
    ensures g == NextGrid(grid, h, w, queue, p, draws)
  {
    forall a, b | 0 <= a < h && 0 <= b < w
      ensures g[a][b] == NextGrid(grid, h, w, queue, p, draws)[a][b]
    {
      CellSettles(grid, h, w, queue, p, draws, a, b);
    }
    PlaneExtensionality(g, NextGrid(grid, h, w, queue, p, draws), h, w);
  }

  /** A cell ends the step as the queue pass left it if it was burnt, and as the cell loop set it otherwise. */
  lemma CellSettles(grid: Terrain, h: nat, w: nat, queue: seq<Entry>, p: Params, draws: seq<seq<Draws>>, x: int, y: int)
    requires StepInputs(grid, h, w, queue, p, draws) && 0 <= x < h && 0 <= y < w
    ensures NextCell(grid, h, w, queue, p, draws, x, y) ==
      if grid[x][y] != Burnt then Changes(grid, h, w, p, draws)[x][y].state
      else if Matured(queue, x, y, p.currentIteration) then Sapling else Burnt
  {
  }

  /** One row x of the cell loop, left to right. */
  method ScanRow(grid: Terrain, h: nat, w: nat, p: Params, draws: seq<Draws>, ghost row: seq<Change>, x: nat,
                 newGrid: Terrain, newQueue: seq<Entry>) returns (newGrid': Terrain, newQueue': seq<Entry>)
    requires IsPlane(grid, h, w) && IsPlane(newGrid, h, w) && x < h && TreesIndexable(grid, h, w, p.boundary)
    requires |draws| == w && forall b :: 0 <= b < w ==> |draws[b].sparks| == 8
    requires |row| == w && forall b :: 0 <= b < w ==> row[b] == CellChange(grid, h, w, x, b, p, draws[b])
    requires forall b :: 0 <= b < w && grid[x][b] != Burnt ==> newGrid[x][b] == grid[x][b]
    ensures IsPlane(newGrid', h, w)
    ensures forall b :: 0 <= b < w && grid[x][b] != Burnt ==> newGrid'[x][b] == row[b].state
    ensures forall a, b :: 0 <= a < h && 0 <= b < w && (a != x || grid[a][b] == Burnt) ==> newGrid'[a][b] == newGrid[a][b]
    ensures newQueue' == newQueue + RowEntries(row, x, w)
  {
    newGrid', newQueue' := newGrid, newQueue;
    assert newQueue + [] == newQueue;
    for y := 0 to w
      invariant RowDone(grid, h, w, row, x, y, newGrid, newGrid')
      invariant newQueue' == newQueue + RowEntries(row, x, y)
    {
      ghost var before, g := newQueue', newGrid';
      newGrid', newQueue' := UpdateCell(grid, h, w, x, y, p, draws[y], row[y], newGrid', newQueue');
      RowDoneStep(grid, h, w, row, x, y, newGrid, g, newGrid');
      RowStep(row, x, y, newQueue, before, newQueue');
    }
  }

  /**
   * After the first y cells of row x: those that were not burnt hold their
   * new state, and every other cell still holds what it held in `start`.
   */
  ghost predicate RowDone(grid: Terrain, h: nat, w: nat, row: seq<Change>, x: nat, y: nat, start: Terrain, g: Terrain)
    requires IsPlane(grid, h, w) && IsPlane(start, h, w) && x < h && |row| == w && y <= w
  {
    IsPlane(g, h, w) &&
    (forall b :: 0 <= b < y && grid[x][b] != Burnt ==> g[x][b] == row[b].state) &&
    (forall a, b :: 0 <= a < h && 0 <= b < w && (a != x || b >= y || grid[a][b] == Burnt) ==> g[a][b] == start[a][b])
  }

  /** Writing cell (x, y) extends `RowDone` by one cell. */
  lemma RowDoneStep(grid: Terrain, h: nat, w: nat, row: seq<Change>, x: nat, y: nat, start: Terrain, g: Terrain, g': Terrain)
    requires IsPlane(grid, h, w) && IsPlane(start, h, w) && x < h && |row| == w && y < w
    requires RowDone(grid, h, w, row, x, y, start, g) && IsPlane(g', h, w)
    requires forall a, b :: 0 <= a < h && 0 <= b < w ==>
      g'[a][b] == if a == x && b == y && grid[x][y] != Burnt then row[y].state else g[a][b]
    ensures RowDone(grid, h, w, row, x, y + 1, start, g')
  {
  }

  /** The queue after cell (x, y) of a row: one more cell's entries. */
  lemma RowStep(row: seq<Change>, x: int, y: nat, start: seq<Entry>, before: seq<Entry>, after: seq<Entry>)
    requires y < |row| && before == start + RowEntries(row, x, y)
    requires row[y].regen.None? ==> after == before
    requires row[y].regen.Some? ==> after == before + [Entry(x, y, row[y].regen.value)]
    ensures after == start + RowEntries(row, x, y + 1)
  {
    assert RowEntries(row, x, y) + [] == RowEntries(row, x, y);
  }

  /** The pass over the regeneration queue: matured burnt cells become saplings, the other burnt ones stay queued. */
  method RegenerationPass(grid: Terrain, h: nat, w: nat, queue: seq<Entry>, currentIteration: int)
    returns (newGrid: Terrain, newQueue: seq<Entry>)
    requires IsPlane(grid, h, w) && forall e :: e in queue ==> 0 <= e.x < h && 0 <= e.y < w
    ensures IsPlane(newGrid, h, w)
    ensures newQueue == Kept(grid, h, w, queue, currentIteration)
    ensures forall a, b :: 0 <= a < h && 0 <= b < w ==>
      newGrid[a][b] == if grid[a][b] == Burnt && Matured(queue, a, b, currentIteration) then Sapling else grid[a][b]
  {
    newGrid := grid;
    newQueue := [];
    for n := 0 to |queue|
      invariant newQueue == Kept(grid, h, w, queue[..n], currentIteration)
      invariant RegenGrid(grid, h, w, queue[..n], currentIteration, newGrid)
    {
      var e := queue[n];
      ghost var g, kept := newGrid, newQueue;
      if grid[e.x][e.y] == Burnt {
        if currentIteration as real >= e.time {
          newGrid := Put(newGrid, h, w, e.x, e.y, Sapling);
        } else {
          newQueue := newQueue + [e];
        }
      }
      RegenStep(grid, h, w, queue, n, currentIteration, g, newGrid, kept, newQueue);
    }
    assert queue[..|queue|] == queue;
  }

  /** The grid after the queue pass has seen the entries q: burnt cells with a matured entry among them are saplings. */
  ghost predicate RegenGrid(grid: Terrain, h: nat, w: nat, q: seq<Entry>, currentIteration: int, g: Terrain)
    requires IsPlane(grid, h, w)
  {
    IsPlane(g, h, w) &&
    forall a, b :: 0 <= a < h && 0 <= b < w ==>
      g[a][b] == if grid[a][b] == Burnt && Matured(q, a, b, currentIteration) then Sapling else grid[a][b]
  }

  /** One entry of the queue pass: the cell becomes a sapling, or the entry is kept, or it is dropped. */
  lemma RegenStep(grid: Terrain, h: nat, w: nat, queue: seq<Entry>, n: nat, currentIteration: int,
                  g: Terrain, g': Terrain, kept: seq<Entry>, kept': seq<Entry>)
    requires IsPlane(grid, h, w) && (forall e :: e in queue ==> 0 <= e.x < h && 0 <= e.y < w) && n < |queue|
    requires kept == Kept(grid, h, w, queue[..n], currentIteration) && RegenGrid(grid, h, w, queue[..n], currentIteration, g)
    requires var e := queue[n];
      if grid[e.x][e.y] == Burnt && currentIteration as real >= e.time then g' == Put(g, h, w, e.x, e.y, Sapling) && kept' == kept
      else if grid[e.x][e.y] == Burnt then g' == g && kept' == kept + [e]
      else g' == g && kept' == kept
    ensures kept' == Kept(grid, h, w, queue[..n + 1], currentIteration)
    ensures RegenGrid(grid, h, w, queue[..n + 1], currentIteration, g')
  {
    var e := queue[n];
    var q := queue[..n + 1];
    assert q == queue[..n] + [e];
    assert q[..n] == queue[..n] && q[n] == e;
    RegenGridStep(grid, h, w, queue[..n], e, currentIteration, g, g');
  }

  /** The grid half of `RegenStep`, for any prefix q of the queue. */
  lemma RegenGridStep(grid: Terrain, h: nat, w: nat, q: seq<Entry>, e: Entry, currentIteration: int, g: Terrain, g': Terrain)
    requires IsPlane(grid, h, w) && 0 <= e.x < h && 0 <= e.y < w && RegenGrid(grid, h, w, q, currentIteration, g)
    requires if grid[e.x][e.y] == Burnt && currentIteration as real >= e.time then g' == Put(g, h, w, e.x, e.y, Sapling) else g' == g
    ensures RegenGrid(grid, h, w, q + [e], currentIteration, g')
  {
    forall a, b | 0 <= a < h && 0 <= b < w
      ensures g'[a][b] == if grid[a][b] == Burnt && Matured(q + [e], a, b, currentIteration) then Sapling else grid[a][b]
    {
      MaturedSnoc(q, e, a, b, currentIteration);
    }
  }

  /** An entry appended to the queue matures cell (x, y) exactly when it names that cell and its time has come. */
  lemma MaturedSnoc(q: seq<Entry>, e: Entry, x: int, y: int, currentIteration: int)
    ensures Matured(q + [e], x, y, currentIteration) <==>
      Matured(q, x, y, currentIteration) || (e.x == x && e.y == y && currentIteration as real >= e.time)
  {
    if Matured(q + [e], x, y, currentIteration) {
      var d :| d in q + [e] && d.x == x && d.y == y && currentIteration as real >= d.time;
      if d != e {
        assert d in q;
      }
    }
    if Matured(q, x, y, currentIteration) {
      var d :| d in q && d.x == x && d.y == y && currentIteration as real >= d.time;
      assert d in q + [e];
    }
  }

  /** Appending in two steps appends the concatenation. */
  lemma QueueGrows(kept: seq<Entry>, rows: seq<Entry>, row: seq<Entry>)
    ensures kept + rows + row == kept + (rows + row)
  {
  }

  // ---------------------------------------------------------------------
  // Properties of a step
  // ---------------------------------------------------------------------

  /**
   * The state table: ground and water never change; a burnt tree waits for
   * its queue entry and then becomes a sapling; a hole fills with water
   * exactly when water is next to it; a sapling grows into a conifer or a
   * deciduous tree; a healthy tree stays or catches fire; without water
   * nearby an ignited tree starts burning and a burning one burns out; next
   * to water a fire either burns out or leaves a living tree.
   */
  lemma TransitionTable(grid: Terrain, h: nat, w: nat, queue: seq<Entry>, p: Params, draws: seq<seq<Draws>>, x: int, y: int)
    requires StepInputs(grid, h, w, queue, p, draws) && 0 <= x < h && 0 <= y < w
    ensures var s := grid[x][y];
      var s' := NextGrid(grid, h, w, queue, p, draws)[x][y];
      var water := WaterNearby(grid, h, w, x, y, p.boundary);
      (s == Ground || s == Water ==> s' == s) &&
      (s == Burnt ==> (s' == Burnt || s' == Sapling) && (s' == Sapling <==> Matured(queue, x, y, p.currentIteration))) &&
      (s == Hole ==> (s' == Water || s' == Hole) && (s' == Water <==> water)) &&
      (s == Sapling ==> s' == Conifer || s' == Deciduous) &&
      (s == Conifer || s == Deciduous ==> s' == s || s' == Ignited) &&
      (s == Ignited && !water ==> s' == Burning) &&
      (s == Burning && !water ==> s' == Burnt) &&
      ((s == Ignited || s == Burning) && water ==> s' == Burnt || s' == Conifer || s' == Deciduous) &&
      (!(0 <= s <= 8) ==> s' == s)
  {
  }

  /** A healthy tree with no ignited or burning tree in any direction it looks stays as it is. */
  lemma NoFireNoSpread(grid: Terrain, h: nat, w: nat, queue: seq<Entry>, p: Params, draws: seq<seq<Draws>>, x: int, y: int)
    requires StepInputs(grid, h, w, queue, p, draws) && 0 <= x < h && 0 <= y < w
    requires grid[x][y] == Conifer || grid[x][y] == Deciduous
    requires forall k :: 0 <= k < 8 && Target(h, w, x, y, p.boundary, k).Some? ==>
      var t := Target(h, w, x, y, p.boundary, k).value; grid[t.0][t.1] != Ignited && grid[t.0][t.1] != Burning
    ensures NextGrid(grid, h, w, queue, p, draws)[x][y] == grid[x][y]
  {
    var d := draws[x][y];
    var water := WaterNearby(grid, h, w, x, y, p.boundary);
    forall k | 0 <= k < 8
      ensures !SparkAt(grid, h, w, x, y, p, k, d.sparks[k], water)
    {
    }
  }

  /**
   * The queue the step relies on: every entry names a burnt cell of the
   * grid, and no cell has two entries.
   */
  ghost predicate QueueValid(grid: Terrain, h: nat, w: nat, queue: seq<Entry>)
    requires IsPlane(grid, h, w)
  {
    (forall e :: e in queue ==> 0 <= e.x < h && 0 <= e.y < w && grid[e.x][e.y] == Burnt) &&
    DistinctCells(queue)
  }

  /** No cell has two entries. */
  ghost predicate DistinctCells(queue: seq<Entry>)
  {
    forall i, j :: 0 <= i < j < |queue| ==> queue[i].x != queue[j].x || queue[i].y != queue[j].y
  }

  /** Two queues without repeated cells and with no cell in common concatenate to one. */
  lemma DistinctConcat(a: seq<Entry>, b: seq<Entry>)
    requires DistinctCells(a) && DistinctCells(b)
    requires forall e1, e2 :: e1 in a && e2 in b ==> e1.x != e2.x || e1.y != e2.y
    ensures DistinctCells(a + b)
  {
    var q := a + b;
    forall i, j | 0 <= i < j < |q|
      ensures q[i].x != q[j].x || q[i].y != q[j].y
    {
      if j < |a| {
        assert q[i] == a[i] && q[j] == a[j];
      } else if i >= |a| {
        assert q[i] == b[i - |a|] && q[j] == b[j - |a|];
      } else {
        assert q[i] == a[i] && q[j] == b[j - |a|];
      }
    }
  }

  /** The kept entries of a queue without repeated cells have no repeated cells either. */
  lemma {:induction false} KeptDistinct(grid: Terrain, h: nat, w: nat, queue: seq<Entry>, currentIteration: int)
    requires IsPlane(grid, h, w) && forall e :: e in queue ==> 0 <= e.x < h && 0 <= e.y < w
    requires DistinctCells(queue)
    ensures DistinctCells(Kept(grid, h, w, queue, currentIteration))
  {
    if |queue| > 0 {
      var n := |queue| - 1;
      var prefix := queue[..n];
      KeptDistinct(grid, h, w, prefix, currentIteration);
      var before := Kept(grid, h, w, prefix, currentIteration);
      forall e | e in before
        ensures e.x != queue[n].x || e.y != queue[n].y
      {
        var i :| 0 <= i < n && prefix[i] == e;
      }
      var e := queue[n];
      var tail := if grid[e.x][e.y] == Burnt && !(currentIteration as real >= e.time) then [e] else [];
      DistinctConcat(before, tail);
    }
  }

  /** In a queue without repeated cells, the entry of a cell is unique. */
  lemma UniqueEntry(queue: seq<Entry>, e: Entry, e2: Entry)
    requires DistinctCells(queue) && e in queue && e2 in queue && e.x == e2.x && e.y == e2.y
    ensures e == e2
  {
    var i :| 0 <= i < |queue| && queue[i] == e;
    var j :| 0 <= j < |queue| && queue[j] == e2;
    assert !(i < j) && !(j < i);
  }

  /** A kept entry is the only one of its cell, so that cell has not matured. */
  lemma KeptNotMatured(grid: Terrain, h: nat, w: nat, queue: seq<Entry>, currentIteration: int, e: Entry)
    requires IsPlane(grid, h, w) && forall e :: e in queue ==> 0 <= e.x < h && 0 <= e.y < w
    requires DistinctCells(queue) && e in Kept(grid, h, w, queue, currentIteration)
    ensures !Matured(queue, e.x, e.y, currentIteration)
  {
    forall e2 | e2 in queue && e2.x == e.x && e2.y == e.y
      ensures currentIteration as real < e2.time
    {
      UniqueEntry(queue, e, e2);
    }
  }

  /**
   * The queue bookkeeping: from a valid queue a step gives a valid queue
   * for the new grid (every entry names a cell that is now burnt, none
   * twice), and every cell that has just burnt out is in it.
   */
  lemma NextQueueValid(grid: Terrain, h: nat, w: nat, queue: seq<Entry>, p: Params, draws: seq<seq<Draws>>)
    requires StepInputs(grid, h, w, queue, p, draws) && QueueValid(grid, h, w, queue)
    ensures QueueValid(NextGrid(grid, h, w, queue, p, draws), h, w, NextQueue(grid, h, w, queue, p, draws))
    ensures forall x, y :: 0 <= x < h && 0 <= y < w && grid[x][y] != Burnt && NextGrid(grid, h, w, queue, p, draws)[x][y] == Burnt ==>
      exists e :: e in NextQueue(grid, h, w, queue, p, draws) && e.x == x && e.y == y
  {
    var g := NextGrid(grid, h, w, queue, p, draws);
    var kept := Kept(grid, h, w, queue, p.currentIteration);
    var changes := Changes(grid, h, w, p, draws);
    var added := GridEntries(changes, h);
    var q := kept + added;
    GridEntriesFacts(changes, h);
    KeptDistinct(grid, h, w, queue, p.currentIteration);
    forall e | e in kept
      ensures g[e.x][e.y] == Burnt
    {
      KeptNotMatured(grid, h, w, queue, p.currentIteration, e);
    }
    forall e | e in q
      ensures 0 <= e.x < h && 0 <= e.y < w && g[e.x][e.y] == Burnt
    {
    }
    forall e1, e2 | e1 in kept && e2 in added
      ensures e1.x != e2.x || e1.y != e2.y
    {
    }
    assert DistinctCells(added);
    DistinctConcat(kept, added);
    NextQueueCovers(grid, h, w, queue, p, draws);
  }

  /** Every cell that has just burnt out is in the new queue. */
  lemma NextQueueCovers(grid: Terrain, h: nat, w: nat, queue: seq<Entry>, p: Params, draws: seq<seq<Draws>>)
    requires StepInputs(grid, h, w, queue, p, draws) && QueueValid(grid, h, w, queue)
    ensures forall x, y :: 0 <= x < h && 0 <= y < w && grid[x][y] != Burnt && NextGrid(grid, h, w, queue, p, draws)[x][y] == Burnt ==>
      exists e :: e in NextQueue(grid, h, w, queue, p, draws) && e.x == x && e.y == y
  {
    var g := NextGrid(grid, h, w, queue, p, draws);
    var changes := Changes(grid, h, w, p, draws);
    var added := GridEntries(changes, h);
    var q := NextQueue(grid, h, w, queue, p, draws);
    assert q == Kept(grid, h, w, queue, p.currentIteration) + added;
    forall x, y | 0 <= x < h && 0 <= y < w && grid[x][y] != Burnt && g[x][y] == Burnt
      ensures exists e :: e in q && e.x == x && e.y == y
    {
      GridEntriesCover(changes, x, y, h);
      var e := Entry(x, y, CellChange(grid, h, w, x, y, p, draws[x][y]).regen.value);
      assert e in added;
      assert e in q;
    }
  }

  /**
   * Without fire, saplings or holes and with an empty queue, a step changes
   * nothing and enqueues nothing: the forest is at rest.
   */
  lemma AtRest(grid: Terrain, h: nat, w: nat, p: Params, draws: seq<seq<Draws>>)
    requires StepInputs(grid, h, w, [], p, draws)
    requires forall x, y :: 0 <= x < h && 0 <= y < w ==>
      grid[x][y] != Ignited && grid[x][y] != Burning && grid[x][y] != Sapling && grid[x][y] != Hole
    ensures NextGrid(grid, h, w, [], p, draws) == grid
    ensures NextQueue(grid, h, w, [], p, draws) == []
  {
    forall x, y | 0 <= x < h && 0 <= y < w
      ensures NextGrid(grid, h, w, [], p, draws)[x][y] == grid[x][y]
    {
      if grid[x][y] == Conifer || grid[x][y] == Deciduous {
        NoFireNoSpread(grid, h, w, [], p, draws, x, y);
      }
    }
    PlaneExtensionality(NextGrid(grid, h, w, [], p, draws), grid, h, w);
    var changes: seq<seq<Change>> := Changes(grid, h, w, p, draws);
    forall x: int, y: int | 0 <= x < h && 0 <= y < w
      ensures changes[x][y].regen.None?
    {
      assert NextGrid(grid, h, w, [], p, draws)[x][y] == grid[x][y];
    }
    NothingEnqueued(changes, h);
  }
}
