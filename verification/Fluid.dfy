/**
 * What the D2Q9 solvers of `lab_10` and `lab_09` share: the per-cell
 * equilibrium fill, the macroscopic update, mass conservation of collision,
 * and the edge rules of the `constant` and `custom` boundary regimes.
 *
 * An edge rule that `lab_10` applies only to non-wall cells and `lab_09`
 * applies to every cell takes a `guard` mask: `lab_10` passes the wall mask,
 * `lab_09` passes `NoGuard`, which skips no cell.
 */
module Fluid {
  import opened Grids
  import opened Lattice
  import opened Streaming
  import opened D2Q9
  import opened Bgk

  /**
   * The boundary_condition string: "constant", "custom", and every other
   * string (the default "bounce-back" among them), for which streaming alone
   * applies.
   */
  datatype Regime = BounceBack | Constant | Custom

  /** The guard of a rule applied without a mask check. */
  function NoGuard(h: nat, w: nat): (m: Mask)
    ensures IsPlane(m, h, w) && forall a, b :: 0 <= a < h && 0 <= b < w ==> !m[a][b]
  {
    seq(h, _ => seq(w, _ => false))
  }

  // ---------------------------------------------------------------------
  // Equilibrium of a whole grid
  // ---------------------------------------------------------------------

  /** Every cell at the equilibrium of its own density and velocity. */
  function EquilibriumField(rho: Plane, ux: Plane, uy: Plane, h: nat, w: nat): (f: Field)
    requires IsPlane(rho, h, w) && IsPlane(ux, h, w) && IsPlane(uy, h, w)
    ensures IsField(f, h, w, 9)
  {
    seq(h, a requires 0 <= a < h => seq(w, b requires 0 <= b < w => Equilibrium(rho[a][b], ux[a][b], uy[a][b])))
  }

  /** The equilibrium grid holds exactly the total density. */
  lemma EquilibriumFieldMass(rho: Plane, ux: Plane, uy: Plane, h: nat, w: nat)
    requires IsPlane(rho, h, w) && IsPlane(ux, h, w) && IsPlane(uy, h, w)
    ensures GridTotal(EquilibriumField(rho, ux, uy, h, w)) == PlaneTotal(rho)
  {
    var f := EquilibriumField(rho, ux, uy, h, w);
    forall a, b | 0 <= a < h && 0 <= b < w ensures Sum(f[a][b]) == rho[a][b] {
      EquilibriumMass(rho[a][b], ux[a][b], uy[a][b]);
    }
    GridTotalOfCellSums(f, rho);
  }

  /**
   * The double loop that overwrites every cell of `f` with the equilibrium of
   * that cell (the last loop of `initialize_density`, the loop of `collide`).
   */
  method FillEquilibrium(f: Field, rho: Plane, ux: Plane, uy: Plane, h: nat, w: nat) returns (g: Field)
    requires IsField(f, h, w, 9) && IsPlane(rho, h, w) && IsPlane(ux, h, w) && IsPlane(uy, h, w)
    ensures g == EquilibriumField(rho, ux, uy, h, w)
  {
    g := f;
    var i := 0;
    while i < h
      invariant 0 <= i <= h && IsField(g, h, w, 9)
      invariant forall a, b :: 0 <= a < h && 0 <= b < w ==>
        g[a][b] == if a < i then Equilibrium(rho[a][b], ux[a][b], uy[a][b]) else f[a][b]
    {
      var j := 0;
      while j < w
        invariant 0 <= j <= w && IsField(g, h, w, 9)
        invariant forall a, b :: 0 <= a < h && 0 <= b < w ==>
          g[a][b] == if a < i || (a == i && b < j) then Equilibrium(rho[a][b], ux[a][b], uy[a][b]) else f[a][b]
      {
        g := SetCell(g, i, j, Equilibrium(rho[i][j], ux[i][j], uy[i][j]));
        j := j + 1;
      }
      i := i + 1;
    }
    FieldExtensionality(g, EquilibriumField(rho, ux, uy, h, w), h, w, 9);
  }

  // ---------------------------------------------------------------------
  // Macroscopic update (compute_macroscopic)
  // ---------------------------------------------------------------------

  /** numpy's `clip(v, lo, hi)`, that is minimum(maximum(v, lo), hi). */
  function Clip(v: real, lo: real, hi: real): (r: real)
    ensures lo <= hi ==> lo <= r <= hi
    ensures lo <= v <= hi ==> r == v
    ensures r == v || r == lo || r == hi
  {
    var m := if v < lo then lo else v;
    if m > hi then hi else m
  }

  /** Cell density: the sum over the nine directions (`np.sum(f_in, axis=2)`). */
  function Density(f: Field, h: nat, w: nat): (rho: Plane)
    requires IsField(f, h, w, 9)
    ensures IsPlane(rho, h, w)
  {
    seq(h, a requires 0 <= a < h => seq(w, b requires 0 <= b < w => Sum(f[a][b])))
  }

  /** The plane of cell sums adds up to the total of the field. */
  lemma DensityTotal(f: Field, h: nat, w: nat)
    requires IsField(f, h, w, 9)
    ensures PlaneTotal(Density(f, h, w)) == GridTotal(f)
  {
    GridTotalOfCellSums(f, Density(f, h, w));
  }

  datatype Axis = X | Y

  function Moment(cell: seq<real>, axis: Axis): real
    requires |cell| == 9
  {
    if axis == X then MomentX(cell) else MomentY(cell)
  }

  /**
   * One velocity component after `compute_macroscopic`: momentum over density
   * where the density is positive, the previous value elsewhere, then clipped
   * to [-maxSpeed, maxSpeed].
   */
  function Velocity(f: Field, u: Plane, axis: Axis, maxSpeed: real, h: nat, w: nat): (v: Plane)
    requires IsField(f, h, w, 9) && IsPlane(u, h, w)
    ensures IsPlane(v, h, w)
    ensures maxSpeed >= 0.0 ==> forall a, b :: 0 <= a < h && 0 <= b < w ==> -maxSpeed <= v[a][b] <= maxSpeed
    ensures forall a, b :: 0 <= a < h && 0 <= b < w && Sum(f[a][b]) <= 0.0 && -maxSpeed <= u[a][b] <= maxSpeed ==>
      v[a][b] == u[a][b]
  {
    seq(h, a requires 0 <= a < h => seq(w, b requires 0 <= b < w =>
      var rho := Sum(f[a][b]);
      Clip(if rho > 0.0 then Moment(f[a][b], axis) / rho else u[a][b], -maxSpeed, maxSpeed)))
  }

  /**
   * `compute_macroscopic` undoes `initialize_density`: on a grid at
   * equilibrium with positive densities and speeds within the limit it gives
   * back the density and velocity the grid was built from.
   */
  lemma MacroscopicOfEquilibrium(rho: Plane, ux: Plane, uy: Plane, u0: Plane, maxSpeed: real, h: nat, w: nat)
    requires IsPlane(rho, h, w) && IsPlane(ux, h, w) && IsPlane(uy, h, w) && IsPlane(u0, h, w)
    requires forall a, b :: 0 <= a < h && 0 <= b < w ==>
      rho[a][b] > 0.0 && -maxSpeed <= ux[a][b] <= maxSpeed && -maxSpeed <= uy[a][b] <= maxSpeed
    ensures var f := EquilibriumField(rho, ux, uy, h, w);
      Density(f, h, w) == rho && Velocity(f, u0, X, maxSpeed, h, w) == ux && Velocity(f, u0, Y, maxSpeed, h, w) == uy
  {
    var f := EquilibriumField(rho, ux, uy, h, w);
    forall a, b | 0 <= a < h && 0 <= b < w
      ensures Sum(f[a][b]) == rho[a][b] && Moment(f[a][b], X) / Sum(f[a][b]) == ux[a][b]
      ensures Moment(f[a][b], Y) / Sum(f[a][b]) == uy[a][b]
    {
      EquilibriumRoundTrip(rho[a][b], ux[a][b], uy[a][b]);
    }
    PlaneExtensionality(Density(f, h, w), rho, h, w);
    PlaneExtensionality(Velocity(f, u0, X, maxSpeed, h, w), ux, h, w);
    PlaneExtensionality(Velocity(f, u0, Y, maxSpeed, h, w), uy, h, w);
  }

  // ---------------------------------------------------------------------
  // Collision
  // ---------------------------------------------------------------------

  /**
   * Collision after `compute_macroscopic` (densities equal to the cell sums)
   * conserves the total, whatever the velocities.
   */
  lemma CollisionConservesMass(fin: Field, ux: Plane, uy: Plane, tau: real, h: nat, w: nat)
    requires IsField(fin, h, w, 9) && IsPlane(ux, h, w) && IsPlane(uy, h, w) && tau != 0.0
    ensures GridTotal(Relax(fin, EquilibriumField(Density(fin, h, w), ux, uy, h, w), tau, h, w, 9)) == GridTotal(fin)
  {
    var feq := EquilibriumField(Density(fin, h, w), ux, uy, h, w);
    var fout := Relax(fin, feq, tau, h, w, 9);
    forall a, b | 0 <= a < |fin| && 0 <= b < |fin[a]| ensures Sum(fin[a][b]) == Sum(fout[a][b]) {
      CollisionConservesMassAt(fin, ux, uy, tau, h, w, a, b);
    }
    GridTotalCellwise(fin, fout);
  }

  lemma CollisionConservesMassAt(fin: Field, ux: Plane, uy: Plane, tau: real, h: nat, w: nat, a: nat, b: nat)
    requires IsField(fin, h, w, 9) && IsPlane(ux, h, w) && IsPlane(uy, h, w) && tau != 0.0
    requires a < h && b < w
    ensures Sum(Relax(fin, EquilibriumField(Density(fin, h, w), ux, uy, h, w), tau, h, w, 9)[a][b]) == Sum(fin[a][b])
  {
    var feq := EquilibriumField(Density(fin, h, w), ux, uy, h, w);
    assert feq[a][b] == Equilibrium(Sum(fin[a][b]), ux[a][b], uy[a][b]);
    CollisionConservesCellMass(fin[a][b], ux[a][b], uy[a][b], tau);
  }

  /** An empty cell has density zero, so its equilibrium and its collision result are empty too. */
  lemma CollisionKeepsWallsEmpty(fin: Field, ux: Plane, uy: Plane, tau: real, mask: Mask, h: nat, w: nat)
    requires IsField(fin, h, w, 9) && IsPlane(ux, h, w) && IsPlane(uy, h, w) && tau != 0.0 && IsPlane(mask, h, w)
    requires WallsEmpty(fin, mask, h, w, 9)
    ensures WallsEmpty(Relax(fin, EquilibriumField(Density(fin, h, w), ux, uy, h, w), tau, h, w, 9), mask, h, w, 9)
  {
    forall a, b | 0 <= a < h && 0 <= b < w && mask[a][b] ensures Sum(fin[a][b]) == 0.0 {
      assert fin[a][b] == seq(9, _ => 0.0);
      SumOfZeros(9);
    }
  }

  // ---------------------------------------------------------------------
  // Edge rules
  // ---------------------------------------------------------------------

  /** Cell (a, b) lies on the first or last row or column. */
  predicate OnEdge(a: nat, b: nat, h: nat, w: nat)
  {
    a == 0 || a == h - 1 || b == 0 || b == w - 1
  }

  /** Cell (a, b) reset to the equilibrium of its density and velocity, unless the guard skips it. */
  function ResetCell(f: Field, rho: Plane, ux: Plane, uy: Plane, guard: Mask, h: nat, w: nat, a: nat, b: nat): (g: Field)
    requires IsField(f, h, w, 9) && IsPlane(rho, h, w) && IsPlane(ux, h, w) && IsPlane(uy, h, w) && IsPlane(guard, h, w)
    requires a < h && b < w
    ensures IsField(g, h, w, 9)
    ensures forall x, y :: 0 <= x < h && 0 <= y < w ==>
      g[x][y] == if x == a && y == b && !guard[a][b] then Equilibrium(rho[a][b], ux[a][b], uy[a][b]) else f[x][y]
  {
    if guard[a][b] then f else SetCell(f, a, b, Equilibrium(rho[a][b], ux[a][b], uy[a][b]))
  }

  /** The `constant` regime after streaming: unguarded edge cells are reset to equilibrium. */
  function ConstantEdges(f: Field, rho: Plane, ux: Plane, uy: Plane, guard: Mask, h: nat, w: nat): (g: Field)
    requires IsField(f, h, w, 9) && IsPlane(rho, h, w) && IsPlane(ux, h, w) && IsPlane(uy, h, w) && IsPlane(guard, h, w)
    ensures IsField(g, h, w, 9)
  {
    seq(h, a requires 0 <= a < h => seq(w, b requires 0 <= b < w =>
      if OnEdge(a, b, h, w) && !guard[a][b] then Equilibrium(rho[a][b], ux[a][b], uy[a][b]) else f[a][b]))
  }

  /**
   * The two edge loops of the `constant` regime: first the top and bottom
   * rows, then the left and right columns.  Every unguarded edge cell ends
   * at the equilibrium of its density and velocity; every other cell keeps
   * its value.
   */
  method ImposeConstantEdges(f: Field, rho: Plane, ux: Plane, uy: Plane, guard: Mask, h: nat, w: nat) returns (g: Field)
    requires IsField(f, h, w, 9) && IsPlane(rho, h, w) && IsPlane(ux, h, w) && IsPlane(uy, h, w) && IsPlane(guard, h, w)
    requires h > 0 && w > 0
    ensures g == ConstantEdges(f, rho, ux, uy, guard, h, w)
  {
    g := ResetTopBottom(f, rho, ux, uy, guard, h, w);
    g := ResetSides(g, f, rho, ux, uy, guard, h, w);
    FieldExtensionality(g, ConstantEdges(f, rho, ux, uy, guard, h, w), h, w, 9);
  }

  /** The first edge loop: the unguarded cells of the top and bottom rows. */
  method ResetTopBottom(f: Field, rho: Plane, ux: Plane, uy: Plane, guard: Mask, h: nat, w: nat) returns (g: Field)
    requires IsField(f, h, w, 9) && IsPlane(rho, h, w) && IsPlane(ux, h, w) && IsPlane(uy, h, w) && IsPlane(guard, h, w)
    requires h > 0
    ensures IsField(g, h, w, 9)
    ensures forall a, b :: 0 <= a < h && 0 <= b < w ==>
      g[a][b] == if (a == 0 || a == h - 1) && !guard[a][b] then Equilibrium(rho[a][b], ux[a][b], uy[a][b]) else f[a][b]
  {
    g := f;
    var j := 0;
    while j < w
      invariant 0 <= j <= w && IsField(g, h, w, 9)
      invariant forall a, b :: 0 <= a < h && 0 <= b < w ==>
        g[a][b] == if (a == 0 || a == h - 1) && b < j && !guard[a][b] then Equilibrium(rho[a][b], ux[a][b], uy[a][b]) else f[a][b]
    {
      g := ResetCell(g, rho, ux, uy, guard, h, w, 0, j);
      g := ResetCell(g, rho, ux, uy, guard, h, w, h - 1, j);
      j := j + 1;
    }
  }

  /** The second edge loop: the unguarded cells of the left and right columns, after the first loop's `g`. */
  method ResetSides(g0: Field, f: Field, rho: Plane, ux: Plane, uy: Plane, guard: Mask, h: nat, w: nat) returns (g: Field)
    requires IsField(f, h, w, 9) && IsField(g0, h, w, 9)
    requires IsPlane(rho, h, w) && IsPlane(ux, h, w) && IsPlane(uy, h, w) && IsPlane(guard, h, w)
    requires w > 0
    requires forall a, b :: 0 <= a < h && 0 <= b < w ==>
      g0[a][b] == if (a == 0 || a == h - 1) && !guard[a][b] then Equilibrium(rho[a][b], ux[a][b], uy[a][b]) else f[a][b]
    ensures IsField(g, h, w, 9)
    ensures forall a, b :: 0 <= a < h && 0 <= b < w ==>
      g[a][b] == if OnEdge(a, b, h, w) && !guard[a][b] then Equilibrium(rho[a][b], ux[a][b], uy[a][b]) else f[a][b]
  {
    g := g0;
    var i := 0;
    while i < h
      invariant 0 <= i <= h && IsField(g, h, w, 9)
      invariant forall a, b :: 0 <= a < h && 0 <= b < w ==>
        g[a][b] == if ((a == 0 || a == h - 1) || ((b == 0 || b == w - 1) && a < i)) && !guard[a][b]
          then Equilibrium(rho[a][b], ux[a][b], uy[a][b]) else f[a][b]
    {
      g := ResetCell(g, rho, ux, uy, guard, h, w, i, 0);
      g := ResetCell(g, rho, ux, uy, guard, h, w, i, w - 1);
      i := i + 1;
    }
  }

  /** The left column after the `custom` regime's left loop. */
  function LeftReset(f: Field, rho: Plane, ux: Plane, uy: Plane, guard: Mask, h: nat, w: nat): (g: Field)
    requires IsField(f, h, w, 9) && IsPlane(rho, h, w) && IsPlane(ux, h, w) && IsPlane(uy, h, w) && IsPlane(guard, h, w)
    ensures IsField(g, h, w, 9)
  {
    seq(h, a requires 0 <= a < h => seq(w, b requires 0 <= b < w =>
      if b == 0 && !guard[a][b] then Equilibrium(rho[a][b], ux[a][b], uy[a][b]) else f[a][b]))
  }

  /** The `custom` regime's left loop: every unguarded cell of column 0 is reset to equilibrium. */
  method ResetLeftColumn(f: Field, rho: Plane, ux: Plane, uy: Plane, guard: Mask, h: nat, w: nat) returns (g: Field)
    requires IsField(f, h, w, 9) && IsPlane(rho, h, w) && IsPlane(ux, h, w) && IsPlane(uy, h, w) && IsPlane(guard, h, w)
    requires w > 0
    ensures g == LeftReset(f, rho, ux, uy, guard, h, w)
  {
    g := f;
    var i := 0;
    while i < h
      invariant 0 <= i <= h && IsField(g, h, w, 9)
      invariant forall a, b :: 0 <= a < h && 0 <= b < w ==>
        g[a][b] == if b == 0 && a < i && !guard[a][b] then Equilibrium(rho[a][b], ux[a][b], uy[a][b]) else f[a][b]
    {
      g := ResetCell(g, rho, ux, uy, guard, h, w, i, 0);
      i := i + 1;
    }
    FieldExtensionality(g, LeftReset(f, rho, ux, uy, guard, h, w), h, w, 9);
  }

  /** Top edge of the `custom` regime: f4 := f3, f8 := f5, f7 := f6. */
  function TopCell(c: seq<real>): (d: seq<real>)
    requires |c| == 9
    ensures |d| == 9
  {
    c[4 := c[3]][8 := c[5]][7 := c[6]]
  }

  /** Bottom edge of the `custom` regime: f3 := f4, f5 := f7, f6 := f8. */
  function BottomCell(c: seq<real>): (d: seq<real>)
    requires |c| == 9
    ensures |d| == 9
  {
    c[3 := c[4]][5 := c[7]][6 := c[8]]
  }

  /**
   * Both edge rules mirror the vertical populations, so the cell they produce
   * carries no vertical momentum, and they leave the populations they do not
   * overwrite (0, 1, 2 and the sources of the copies) as they were.
   */
  lemma MirroredCellsHaveNoVerticalMomentum(c: seq<real>)
    requires |c| == 9
    ensures MomentY(TopCell(c)) == 0.0 && MomentY(BottomCell(c)) == 0.0
    ensures forall k :: k in {0, 1, 2, 3, 5, 6} ==> TopCell(c)[k] == c[k]
    ensures forall k :: k in {0, 1, 2, 4, 7, 8} ==> BottomCell(c)[k] == c[k]
  {
  }

  /** The cells of row `row` that `guard` leaves open, passed through `TopCell` or `BottomCell`. */
  function MirrorRow(f: Field, row: nat, top: bool, guard: Mask, h: nat, w: nat): (g: Field)
    requires IsField(f, h, w, 9) && IsPlane(guard, h, w)
    ensures IsField(g, h, w, 9)
  {
    seq(h, a requires 0 <= a < h => seq(w, b requires 0 <= b < w =>
      if a == row && !guard[a][b] then (if top then TopCell(f[a][b]) else BottomCell(f[a][b])) else f[a][b]))
  }

  /**
   * The `custom` regime's bottom loop (`top` false) over row h - 1, and
   * `lab_09`'s top loop (`top` true) over row 0.
   */
  method MirrorEdgeRow(f: Field, row: nat, top: bool, guard: Mask, h: nat, w: nat) returns (g: Field)
    requires IsField(f, h, w, 9) && IsPlane(guard, h, w) && row < h
    ensures g == MirrorRow(f, row, top, guard, h, w)
  {
    g := f;
    var j := 0;
    while j < w
      invariant 0 <= j <= w && IsField(g, h, w, 9)
      invariant forall a, b :: 0 <= a < h && 0 <= b < w ==>
        g[a][b] == if a == row && b < j && !guard[a][b] then (if top then TopCell(f[a][b]) else BottomCell(f[a][b])) else f[a][b]
    {
      if !guard[row][j] {
        var c := g[row][j];
        if top {
          g := Set3(Set3(Set3(g, row, j, 4, c[3]), row, j, 8, c[5]), row, j, 7, c[6]);
        } else {
          g := Set3(Set3(Set3(g, row, j, 3, c[4]), row, j, 5, c[7]), row, j, 6, c[8]);
        }
      }
      j := j + 1;
    }
    FieldExtensionality(g, MirrorRow(f, row, top, guard, h, w), h, w, 9);
  }

  // ---------------------------------------------------------------------
  // Initial velocity profiles (initialize_density)
  // ---------------------------------------------------------------------

  /**
   * The linear profile of the left and right columns: row a gets
   * 0.02 * i / (h - 1) with i = h - 1 - a, from 0 at the bottom row to 0.02
   * at the top row.
   */
  function Ramp(a: nat, h: nat): (r: real)
    requires a < h && h > 1
    ensures 0.0 <= r <= 0.02
    ensures a == h - 1 ==> r == 0.0
    ensures a == 0 ==> r == 0.02
  {
    var t := ((h - 1 - a) as real) / ((h - 1) as real);
    FractionBounds((h - 1 - a) as real, (h - 1) as real);
    0.02 * t
  }

  lemma FractionBounds(n: real, d: real)
    requires 0.0 <= n <= d && d > 0.0
    ensures 0.0 <= n / d <= 1.0
  {
    assert n / d * d == n;
  }

  /** numpy's `p[0, :] = top; p[-1, :] = bottom`. */
  function TopBottomRows(p: Plane, top: real, bottom: real, h: nat, w: nat): (r: Plane)
    requires IsPlane(p, h, w) && h > 0
    ensures IsPlane(r, h, w)
  {
    seq(h, a requires 0 <= a < h => seq(w, b requires 0 <= b < w =>
      if a == h - 1 then bottom else if a == 0 then top else p[a][b]))
  }

  /** `ux` after the ramp loop: column 0, and column w - 1 too when `both`, follow `Ramp`. */
  function RampUx(ux: Plane, both: bool, h: nat, w: nat): (r: Plane)
    requires IsPlane(ux, h, w) && h != 1
    ensures IsPlane(r, h, w)
  {
    seq(h, a requires 0 <= a < h => seq(w, b requires 0 <= b < w =>
      if b == 0 || (both && b == w - 1) then Ramp(a, h) else ux[a][b]))
  }

  /** `uy` after the ramp loop: zero on column 0, and on column w - 1 too when `both`. */
  function RampUy(uy: Plane, both: bool, h: nat, w: nat): (r: Plane)
    requires IsPlane(uy, h, w)
    ensures IsPlane(r, h, w)
  {
    seq(h, a requires 0 <= a < h => seq(w, b requires 0 <= b < w =>
      if b == 0 || (both && b == w - 1) then 0.0 else uy[a][b]))
  }

  /**
   * The ramp loop of `initialize_density`: for i in 0..h-1, row h - 1 - i of
   * column 0 (and of column w - 1 when `both`) gets ux = 0.02 i / (h - 1),
   * uy = 0.  A single row divides by zero; with no rows nothing happens.
   */
  method ImposeRamp(ux: Plane, uy: Plane, both: bool, h: nat, w: nat) returns (ux': Plane, uy': Plane)
    requires IsPlane(ux, h, w) && IsPlane(uy, h, w) && h != 1 && (h > 0 ==> w > 0)
    ensures ux' == RampUx(ux, both, h, w) && uy' == RampUy(uy, both, h, w)
  {
    ux', uy' := ux, uy;
    var i := 0;
    while i < h
      invariant 0 <= i <= h && IsPlane(ux', h, w) && IsPlane(uy', h, w)
      invariant forall a, b :: 0 <= a < h && 0 <= b < w ==>
        ux'[a][b] == if (b == 0 || (both && b == w - 1)) && a >= h - i then Ramp(a, h) else ux[a][b]
      invariant forall a, b :: 0 <= a < h && 0 <= b < w ==>
        uy'[a][b] == if (b == 0 || (both && b == w - 1)) && a >= h - i then 0.0 else uy[a][b]
    {
      var row := h - i - 1;
      var v := 0.02 * ((i as real) / ((h - 1) as real));
      assert v == Ramp(row, h);
      ux' := Set2(ux', row, 0, v);
      if both {
        ux' := Set2(ux', row, w - 1, v);
      }
      uy' := Set2(uy', row, 0, 0.0);
      if both {
        uy' := Set2(uy', row, w - 1, 0.0);
      }
      i := i + 1;
    }
    PlaneExtensionality(ux', RampUx(ux, both, h, w), h, w);
    PlaneExtensionality(uy', RampUy(uy, both, h, w), h, w);
  }

  /** Row 0 is zeroed where `guard` leaves it open (the `uy[0, j] = 0` of `lab_10`'s top loop). */
  function ZeroTopRow(uy: Plane, guard: Mask, h: nat, w: nat): (r: Plane)
    requires IsPlane(uy, h, w) && IsPlane(guard, h, w)
    ensures IsPlane(r, h, w)
  {
    seq(h, a requires 0 <= a < h => seq(w, b requires 0 <= b < w => if a == 0 && !guard[a][b] then 0.0 else uy[a][b]))
  }

  /**
   * The top loop of `lab_10`'s `custom` regime: each unguarded cell of row 0
   * goes through `TopCell` and gets uy = 0.
   */
  method MirrorTopRow(f: Field, uy: Plane, guard: Mask, h: nat, w: nat) returns (g: Field, uy': Plane)
    requires IsField(f, h, w, 9) && IsPlane(uy, h, w) && IsPlane(guard, h, w) && h > 0
    ensures g == MirrorRow(f, 0, true, guard, h, w) && uy' == ZeroTopRow(uy, guard, h, w)
  {
    g, uy' := f, uy;
    var j := 0;
    while j < w
      invariant 0 <= j <= w && IsField(g, h, w, 9) && IsPlane(uy', h, w)
      invariant forall a, b :: 0 <= a < h && 0 <= b < w ==>
        g[a][b] == if a == 0 && b < j && !guard[a][b] then TopCell(f[a][b]) else f[a][b]
      invariant forall a, b :: 0 <= a < h && 0 <= b < w ==>
        uy'[a][b] == if a == 0 && b < j && !guard[a][b] then 0.0 else uy[a][b]
    {
      if !guard[0][j] {
        var c := g[0][j];
        g := Set3(Set3(Set3(g, 0, j, 4, c[3]), 0, j, 8, c[5]), 0, j, 7, c[6]);
        uy' := Set2(uy', 0, j, 0.0);
      }
      j := j + 1;
    }
    FieldExtensionality(g, MirrorRow(f, 0, true, guard, h, w), h, w, 9);
    PlaneExtensionality(uy', ZeroTopRow(uy, guard, h, w), h, w);
  }

  /**
   * The grids on which `initialize_density` does not fail: the constant
   * regime writes rows 0 and -1 and divides by h - 1; the custom regime
   * divides by h - 1 and writes column -1 once it has a row to write.
   */
  predicate InitializeDensityDefined(bc: Regime, h: nat, w: nat)
  {
    match bc
    case BounceBack => true
    case Constant => h > 1 && w > 0
    case Custom => h != 1 && (h > 0 ==> w > 0)
  }

  /** Density after `initialize_density`: the custom regime fixes the right column at 1. */
  function InitialRho(rho: Plane, bc: Regime, h: nat, w: nat): (r: Plane)
    requires IsPlane(rho, h, w)
    ensures IsPlane(r, h, w)
  {
    if bc == Custom then
      seq(h, a requires 0 <= a < h => seq(w, b requires 0 <= b < w => if b == w - 1 then 1.0 else rho[a][b]))
    else rho
  }

  /** x velocity after the constant regime of `initialize_density`. */
  function ConstantInitialUx(ux: Plane, h: nat, w: nat): (r: Plane)
    requires IsPlane(ux, h, w) && h > 1
    ensures IsPlane(r, h, w)
  {
    RampUx(TopBottomRows(ux, 0.02, 0.0, h, w), true, h, w)
  }

  /** y velocity after the constant regime of `initialize_density`. */
  function ConstantInitialUy(uy: Plane, h: nat, w: nat): (r: Plane)
    requires IsPlane(uy, h, w) && h > 1
    ensures IsPlane(r, h, w)
  {
    RampUy(TopBottomRows(uy, 0.0, 0.0, h, w), true, h, w)
  }

  /**
   * The constant regime of `initialize_density`: top row ux = 0.02, bottom
   * row ux = 0, uy = 0 on both, then the ramp loop on both side columns.
   */
  method ImposeConstantProfile(ux: Plane, uy: Plane, h: nat, w: nat) returns (ux': Plane, uy': Plane)
    requires IsPlane(ux, h, w) && IsPlane(uy, h, w) && h > 1 && w > 0
    ensures ux' == ConstantInitialUx(ux, h, w) && uy' == ConstantInitialUy(uy, h, w)
  {
    ux' := TopBottomRows(ux, 0.02, 0.0, h, w);
    uy' := TopBottomRows(uy, 0.0, 0.0, h, w);
    ux', uy' := ImposeRamp(ux', uy', true, h, w);
  }

  /**
   * In the constant regime the whole top row moves at 0.02 and the bottom
   * row is at rest, the side columns rise linearly from the bottom to the
   * top, no edge cell has a vertical velocity, and the interior is as it was.
   */
  lemma ConstantInitialProfile(ux: Plane, uy: Plane, h: nat, w: nat)
    requires IsPlane(ux, h, w) && IsPlane(uy, h, w) && h > 1 && w > 0
    ensures var u, v := ConstantInitialUx(ux, h, w), ConstantInitialUy(uy, h, w);
      (forall b :: 0 <= b < w ==> u[0][b] == 0.02 && u[h - 1][b] == 0.0) &&
      (forall a :: 0 <= a < h ==> u[a][0] == Ramp(a, h) && u[a][w - 1] == Ramp(a, h)) &&
      (forall a, b :: 0 <= a < h && 0 <= b < w && OnEdge(a, b, h, w) ==> v[a][b] == 0.0) &&
      (forall a, b :: 0 < a < h - 1 && 0 < b < w - 1 ==> u[a][b] == ux[a][b] && v[a][b] == uy[a][b])
  {
    var u := ConstantInitialUx(ux, h, w);
    forall b | 0 <= b < w ensures u[0][b] == 0.02 && u[h - 1][b] == 0.0 {
      if b == 0 || b == w - 1 {
        assert u[0][b] == Ramp(0, h) && u[h - 1][b] == Ramp(h - 1, h);
      }
    }
  }
}
