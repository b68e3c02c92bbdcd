/**
 * The first D2Q9 solver, `lab_08/lbm_logic.py`: a fluid of density 1 to
 * the left of column width / 4 and a thin background density of 1e-4
 * elsewhere, a wall segment in that column (`Lab08Wall`), and a step made
 * of a macroscopic update that divides by rho + 1e-10, a collision whose
 * equilibrium is clamped at zero, and bounce-back streaming.  Streaming
 * here moves direction k by (-c_kx) rows and (-c_ky) columns
 * (`RowColLattice`).  The module-level `stream_optimized` of the file does
 * the same as the loop of `LBM.stream` and is not called; `Stream` models
 * both.
 */
module Lab08Lbm {
  import opened Grids
  import opened Lattice
  import opened Streaming
  import opened D2Q9
  import opened Bgk
  import opened Fluid
  import opened Lab08Wall

  /** The density outside the fluid block before the first step. */
  const Background: real := 0.0001
  /** The `epsilon` that `apply_macroscopic_variables` adds to every density. */
  const Epsilon: real := 0.0000000001

  // ---------------------------------------------------------------------
  // Initial state
  // ---------------------------------------------------------------------

  /** The density the constructor leaves: 1 in columns j < width / 4, the background elsewhere. */
  function InitialDensity(h: nat, w: nat): (r: Plane)
    ensures IsPlane(r, h, w)
  {
    seq(h, _ => seq(w, b => if b < w / WallPosition then 1.0 else Background))
  }

  /** A row that holds 1 in its first `c` entries and the background after them. */
  lemma {:induction false} BlockRowSum(r: seq<real>, c: nat)
    requires forall b :: 0 <= b < |r| ==> r[b] == if b < c then 1.0 else Background
    ensures var n := if |r| < c then |r| else c;
      Sum(r) == n as real + (|r| - n) as real * Background
  {
    if |r| > 0 {
      BlockRowSum(r[..|r| - 1], c);
    }
  }

  /** Rows of equal sum `s` add up to their number times `s`. */
  lemma {:induction false} EqualRowsTotal(p: Plane, s: real)
    requires forall a :: 0 <= a < |p| ==> Sum(p[a]) == s
    ensures PlaneTotal(p) == |p| as real * s
  {
    if |p| > 0 {
      EqualRowsTotal(p[..|p| - 1], s);
    }
  }

  /**
   * The initial grid holds one unit of mass per cell of the fluid block and
   * the background in every other cell.
   */
  lemma InitialMass(h: nat, w: nat)
    ensures var c := w / WallPosition;
      PlaneTotal(InitialDensity(h, w)) == h as real * (c as real + (w - c) as real * Background)
  {
    BlockFits(w);
    var c := w / WallPosition;
    var p := InitialDensity(h, w);
    var rowSum := c as real + (w - c) as real * Background;
    forall a | 0 <= a < |p| ensures Sum(p[a]) == rowSum {
      InitialRowSum(h, w, a);
    }
    EqualRowsTotal(p, rowSum);
  }

  /** The fluid block, the first w // 4 columns, fits in the row. */
  lemma BlockFits(w: nat)
    ensures 0 <= w / WallPosition <= w
  {
  }

  lemma InitialRowSum(h: nat, w: nat, a: nat)
    requires a < h
    ensures var c := w / WallPosition;
      Sum(InitialDensity(h, w)[a]) == c as real + (w - c) as real * Background
  {
    BlockFits(w);
    var c := w / WallPosition;
    BlockRowSum(InitialDensity(h, w)[a], c);
  }

  /** At rest the equilibrium grid holds weight times density in every slot. */
  lemma RestEquilibriumField(rho: Plane, h: nat, w: nat)
    requires IsPlane(rho, h, w)
    ensures var f := EquilibriumField(rho, Filled(h, w, 0.0), Filled(h, w, 0.0), h, w);
      forall a, b, k :: 0 <= a < h && 0 <= b < w && 0 <= k < 9 ==> f[a][b][k] == Weights[k] * rho[a][b]
  {
    forall a, b | 0 <= a < h && 0 <= b < w {
      EquilibriumAtRest(rho[a][b]);
    }
  }

  // ---------------------------------------------------------------------
  // Macroscopic values
  // ---------------------------------------------------------------------

  /** `apply_macroscopic_variables` divides by rho + 1e-10, which must not vanish. */
  ghost predicate EpsilonDefined(f: Field, h: nat, w: nat)
    requires IsField(f, h, w, 9)
  {
    forall a, b :: 0 <= a < h && 0 <= b < w ==> Sum(f[a][b]) + Epsilon != 0.0
  }

  /** One velocity component of `apply_macroscopic_variables`: momentum over density plus epsilon. */
  function EpsilonVelocity(f: Field, axis: Axis, h: nat, w: nat): (v: Plane)
    requires IsField(f, h, w, 9) && EpsilonDefined(f, h, w)
    ensures IsPlane(v, h, w)
  {
    seq(h, a requires 0 <= a < h => seq(w, b requires 0 <= b < w => Moment(f[a][b], axis) / (Sum(f[a][b]) + Epsilon)))
  }

  lemma ShrinkFactor(rho: real)
    requires rho >= 0.0
    ensures 0.0 <= rho / (rho + Epsilon) < 1.0
  {
    var d := rho + Epsilon;
    assert 1.0 - rho / d == Epsilon / d;
  }

  lemma ScaledQuotient(m: real, r: real, u: real, d: real)
    requires d != 0.0 && m == r * u
    ensures m / d == u * (r / d)
  {
  }

  /**
   * On a cell at equilibrium with density rho >= 0 and velocity u, the
   * epsilon velocity is u scaled by rho / (rho + 1e-10): it has the sign of
   * u and is strictly smaller in size unless u is zero.
   */
  lemma EpsilonVelocityOfEquilibrium(rho: real, ux: real, uy: real)
    requires rho >= 0.0
    ensures var c := Equilibrium(rho, ux, uy);
      var s := rho / (rho + Epsilon);
      Sum(c) + Epsilon != 0.0 &&
      MomentX(c) / (Sum(c) + Epsilon) == ux * s && MomentY(c) / (Sum(c) + Epsilon) == uy * s &&
      (ux > 0.0 ==> 0.0 <= ux * s < ux) && (ux < 0.0 ==> ux < ux * s <= 0.0)
  {
    var c := Equilibrium(rho, ux, uy);
    EquilibriumMass(rho, ux, uy);
    EquilibriumMomentum(rho, ux, uy);
    EpsilonQuotient(Sum(c), MomentX(c), MomentY(c), rho, ux, uy);
  }

  /** The arithmetic of EpsilonVelocityOfEquilibrium, on the cell's mass and momentum alone. */
  lemma EpsilonQuotient(mass: real, mx: real, my: real, rho: real, ux: real, uy: real)
    requires rho >= 0.0 && mass == rho && mx == rho * ux && my == rho * uy
    ensures var s := rho / (rho + Epsilon);
      mass + Epsilon != 0.0 &&
      mx / (mass + Epsilon) == ux * s && my / (mass + Epsilon) == uy * s &&
      (ux > 0.0 ==> 0.0 <= ux * s < ux) && (ux < 0.0 ==> ux < ux * s <= 0.0)
  {
    ShrinkFactor(rho);
    var s := rho / (rho + Epsilon);
    ScaledQuotient(mx, rho, ux, rho + Epsilon);
    ScaledQuotient(my, rho, uy, rho + Epsilon);
    if ux > 0.0 {
      assert ux * s < ux * 1.0;
    } else if ux < 0.0 {
      assert ux * 1.0 < ux * s;
    }
  }

  /** One velocity component of lab_08's `compute_macroscopic`: updated where rho > 0, not clipped. */
  function RawVelocity(f: Field, u: Plane, axis: Axis, h: nat, w: nat): (v: Plane)
    requires IsField(f, h, w, 9) && IsPlane(u, h, w)
    ensures IsPlane(v, h, w)
  {
    seq(h, a requires 0 <= a < h => seq(w, b requires 0 <= b < w =>
      if Sum(f[a][b]) > 0.0 then Moment(f[a][b], axis) / Sum(f[a][b]) else u[a][b]))
  }

  /**
   * The macroscopic update of `lab_09` and `lab_10` is this one followed by
   * the clip to [-maxSpeed, maxSpeed]; where no clip is needed they agree.
   */
  lemma ClippedRawVelocity(f: Field, u: Plane, axis: Axis, maxSpeed: real, h: nat, w: nat)
    requires IsField(f, h, w, 9) && IsPlane(u, h, w)
    ensures var r, v := RawVelocity(f, u, axis, h, w), Velocity(f, u, axis, maxSpeed, h, w);
      forall a, b :: 0 <= a < h && 0 <= b < w ==>
        v[a][b] == Clip(r[a][b], -maxSpeed, maxSpeed) &&
        (-maxSpeed <= r[a][b] <= maxSpeed ==> v[a][b] == r[a][b])
  {
  }

  /** On a grid at equilibrium with positive densities the update gives back the velocity. */
  lemma RawVelocityOfEquilibrium(rho: Plane, ux: Plane, uy: Plane, u0: Plane, h: nat, w: nat)
    requires IsPlane(rho, h, w) && IsPlane(ux, h, w) && IsPlane(uy, h, w) && IsPlane(u0, h, w)
    requires forall a, b :: 0 <= a < h && 0 <= b < w ==> rho[a][b] > 0.0
    ensures var f := EquilibriumField(rho, ux, uy, h, w);
      Density(f, h, w) == rho && RawVelocity(f, u0, X, h, w) == ux && RawVelocity(f, u0, Y, h, w) == uy
  {
    var f := EquilibriumField(rho, ux, uy, h, w);
    forall a, b | 0 <= a < h && 0 <= b < w
      ensures Sum(f[a][b]) == rho[a][b] && Moment(f[a][b], X) / Sum(f[a][b]) == ux[a][b]
      ensures Moment(f[a][b], Y) / Sum(f[a][b]) == uy[a][b]
    {
      EquilibriumRoundTrip(rho[a][b], ux[a][b], uy[a][b]);
    }
    PlaneExtensionality(Density(f, h, w), rho, h, w);
    PlaneExtensionality(RawVelocity(f, u0, X, h, w), ux, h, w);
    PlaneExtensionality(RawVelocity(f, u0, Y, h, w), uy, h, w);
  }

  // ---------------------------------------------------------------------
  // Collision with a clamped equilibrium
  // ---------------------------------------------------------------------

  /** The equilibrium with every negative population raised to zero (`np.maximum(f_eq, 0)`). */
  function ClampedEquilibrium(rho: real, ux: real, uy: real): (c: seq<real>)
    ensures |c| == 9 && forall k :: 0 <= k < 9 ==> c[k] >= 0.0
  {
    var e := Equilibrium(rho, ux, uy);
    seq(9, k requires 0 <= k < 9 => if e[k] < 0.0 then 0.0 else e[k])
  }

  /** No equilibrium population of the grid is negative, so the clamp changes nothing. */
  predicate NonNegativeEquilibria(rho: Plane, ux: Plane, uy: Plane, h: nat, w: nat)
    requires IsPlane(rho, h, w) && IsPlane(ux, h, w) && IsPlane(uy, h, w)
  {
    forall a, b, k :: 0 <= a < h && 0 <= b < w && 0 <= k < 9 ==> Equilibrium(rho[a][b], ux[a][b], uy[a][b])[k] >= 0.0
  }

  /**
   * The clamp can only add mass: the clamped cell holds at least rho, exactly
   * rho when no equilibrium population is negative, and nothing at all when
   * rho is zero.
   */
  lemma ClampedCellMass(rho: real, ux: real, uy: real)
    ensures Sum(ClampedEquilibrium(rho, ux, uy)) >= rho
    ensures (forall k :: 0 <= k < 9 ==> Equilibrium(rho, ux, uy)[k] >= 0.0) ==> Sum(ClampedEquilibrium(rho, ux, uy)) == rho
    ensures rho == 0.0 ==> ClampedEquilibrium(rho, ux, uy) == seq(9, _ => 0.0)
  {
    var e := Equilibrium(rho, ux, uy);
    var c := ClampedEquilibrium(rho, ux, uy);
    EquilibriumMass(rho, ux, uy);
    SumMono(e, c);
    if forall k :: 0 <= k < 9 ==> e[k] >= 0.0 {
      assert c == e;
    }
    if rho == 0.0 {
      assert forall k :: 0 <= k < 9 ==> e[k] == 0.0;
    }
  }

  function ClampedEquilibriumField(rho: Plane, ux: Plane, uy: Plane, h: nat, w: nat): (f: Field)
    requires IsPlane(rho, h, w) && IsPlane(ux, h, w) && IsPlane(uy, h, w)
    ensures IsField(f, h, w, 9)
    ensures NonNegativeEquilibria(rho, ux, uy, h, w) ==> f == EquilibriumField(rho, ux, uy, h, w)
  {
    var f := seq(h, a requires 0 <= a < h => seq(w, b requires 0 <= b < w => ClampedEquilibrium(rho[a][b], ux[a][b], uy[a][b])));
    if NonNegativeEquilibria(rho, ux, uy, h, w) then
      forall a, b | 0 <= a < h && 0 <= b < w
        ensures f[a][b] == Equilibrium(rho[a][b], ux[a][b], uy[a][b])
      {
        ClampedCellMass(rho[a][b], ux[a][b], uy[a][b]);
      }
      FieldExtensionality(f, EquilibriumField(rho, ux, uy, h, w), h, w, 9);
      f
    else f
  }

  /** With tau > 0, relaxing towards a target of larger sum does not lose mass. */
  lemma RelaxGain(c: seq<real>, e: seq<real>, tau: real)
    requires |e| == |c| && tau > 0.0 && Sum(e) >= Sum(c)
    ensures Sum(RelaxCell(c, e, tau)) >= Sum(c)
  {
    RelaxCellSum(c, e, tau);
    NonNegativeQuotient(Sum(e) - Sum(c), tau);
  }

  lemma NonNegativeQuotient(x: real, t: real)
    requires x >= 0.0 && t > 0.0
    ensures x / t >= 0.0
  {
  }

  /** With tau > 0 a cell relaxed towards its clamped equilibrium does not lose mass. */
  lemma ClampedCellCollision(c: seq<real>, ux: real, uy: real, tau: real)
    requires |c| == 9 && tau > 0.0
    ensures Sum(RelaxCell(c, ClampedEquilibrium(Sum(c), ux, uy), tau)) >= Sum(c)
  {
    ClampedCellMass(Sum(c), ux, uy);
    RelaxGain(c, ClampedEquilibrium(Sum(c), ux, uy), tau);
  }

  /**
   * Collision after the macroscopic update (densities equal to the cell
   * sums): with tau > 0 it never loses mass, and it keeps the total exactly
   * when no equilibrium population is negative.
   */
  lemma ClampedCollisionMass(fin: Field, ux: Plane, uy: Plane, tau: real, h: nat, w: nat)
    requires IsField(fin, h, w, 9) && IsPlane(ux, h, w) && IsPlane(uy, h, w) && tau != 0.0
    ensures var rho := Density(fin, h, w);
      var fout := Relax(fin, ClampedEquilibriumField(rho, ux, uy, h, w), tau, h, w, 9);
      (tau > 0.0 ==> GridTotal(fout) >= GridTotal(fin)) &&
      (NonNegativeEquilibria(rho, ux, uy, h, w) ==> GridTotal(fout) == GridTotal(fin))
  {
    var rho := Density(fin, h, w);
    var feq := ClampedEquilibriumField(rho, ux, uy, h, w);
    var fout := Relax(fin, feq, tau, h, w, 9);
    if NonNegativeEquilibria(rho, ux, uy, h, w) {
      CollisionConservesMass(fin, ux, uy, tau, h, w);
    }
    if tau > 0.0 {
      forall a, b | 0 <= a < h && 0 <= b < w ensures Sum(fin[a][b]) <= Sum(fout[a][b]) {
        ClampedCellCollision(fin[a][b], ux[a][b], uy[a][b], tau);
      }
      GridTotalMono(fin, fout);
    }
  }

  /** An empty cell has density zero, so its clamped equilibrium and its collision result are empty. */
  lemma ClampedCollisionKeepsWallsEmpty(fin: Field, ux: Plane, uy: Plane, tau: real, mask: Mask, h: nat, w: nat)
    requires IsField(fin, h, w, 9) && IsPlane(ux, h, w) && IsPlane(uy, h, w) && tau != 0.0 && IsPlane(mask, h, w)
    requires WallsEmpty(fin, mask, h, w, 9)
    ensures WallsEmpty(Relax(fin, ClampedEquilibriumField(Density(fin, h, w), ux, uy, h, w), tau, h, w, 9), mask, h, w, 9)
  {
    var rho := Density(fin, h, w);
    var feq := ClampedEquilibriumField(rho, ux, uy, h, w);
    var fout := Relax(fin, feq, tau, h, w, 9);
    forall a, b, k | 0 <= a < h && 0 <= b < w && 0 <= k < 9 && mask[a][b]
      ensures fout[a][b][k] == 0.0
    {
      assert fin[a][b] == seq(9, _ => 0.0);
      SumOfZeros(9);
      assert rho[a][b] == 0.0;
      ClampedCellMass(0.0, ux[a][b], uy[a][b]);
      assert feq[a][b][k] == 0.0;
      assert fout[a][b] == RelaxCell(fin[a][b], feq[a][b], tau);
    }
  }

  /** A velocity component set to zero on the masked cells. */
  function ZeroOnMask(u: Plane, mask: Mask, h: nat, w: nat): (v: Plane)
    requires IsPlane(u, h, w) && IsPlane(mask, h, w)
    ensures IsPlane(v, h, w)
  {
    seq(h, a requires 0 <= a < h => seq(w, b requires 0 <= b < w => if mask[a][b] then 0.0 else u[a][b]))
  }

  /** Zeroing the wall velocities a second time, as `stream` does after `collide`, changes nothing. */
  lemma ZeroOnMaskIdempotent(u: Plane, mask: Mask, h: nat, w: nat)
    requires IsPlane(u, h, w) && IsPlane(mask, h, w)
    ensures ZeroOnMask(ZeroOnMask(u, mask, h, w), mask, h, w) == ZeroOnMask(u, mask, h, w)
  {
    PlaneExtensionality(ZeroOnMask(ZeroOnMask(u, mask, h, w), mask, h, w), ZeroOnMask(u, mask, h, w), h, w);
  }

  /** The loop at the end of `stream` that zeroes both velocity components on every wall cell. */
  method ZeroWallVelocities(ux: Plane, uy: Plane, mask: Mask, h: nat, w: nat) returns (ux': Plane, uy': Plane)
    requires IsPlane(ux, h, w) && IsPlane(uy, h, w) && IsPlane(mask, h, w)
    ensures ux' == ZeroOnMask(ux, mask, h, w) && uy' == ZeroOnMask(uy, mask, h, w)
  {
    ux', uy' := ux, uy;
    var i := 0;
    while i < h
      invariant 0 <= i <= h && IsPlane(ux', h, w) && IsPlane(uy', h, w)
      invariant forall a, b :: 0 <= a < h && 0 <= b < w ==>
        ux'[a][b] == (if a < i && mask[a][b] then 0.0 else ux[a][b]) &&
        uy'[a][b] == (if a < i && mask[a][b] then 0.0 else uy[a][b])
    {
      var j := 0;
      while j < w
        invariant 0 <= j <= w && IsPlane(ux', h, w) && IsPlane(uy', h, w)
        invariant forall a, b :: 0 <= a < h && 0 <= b < w ==>
          var hit := (a < i || (a == i && b < j)) && mask[a][b];
          ux'[a][b] == (if hit then 0.0 else ux[a][b]) && uy'[a][b] == (if hit then 0.0 else uy[a][b])
      {
        if mask[i][j] {
          ux' := Set2(ux', i, j, 0.0);
          uy' := Set2(uy', i, j, 0.0);
        }
        j := j + 1;
      }
      i := i + 1;
    }
    PlaneExtensionality(ux', ZeroOnMask(ux, mask, h, w), h, w);
    PlaneExtensionality(uy', ZeroOnMask(uy, mask, h, w), h, w);
  }

  // ---------------------------------------------------------------------
  // apply_boundary_conditions
  // ---------------------------------------------------------------------

  /** Populations `into` of cell `c` overwritten, in order, by populations `from` of cell `s`. */
  function CopyCell(c: seq<real>, s: seq<real>, into: seq<nat>, from: seq<nat>): (d: seq<real>)
    requires |c| == 9 && |s| == 9 && |into| == 3 && |from| == 3
    requires forall i :: 0 <= i < 3 ==> into[i] < 9 && from[i] < 9
    ensures |d| == 9
  {
    c[into[0] := s[from[0]]][into[1] := s[from[1]]][into[2] := s[from[2]]]
  }

  /** The slice assignment `f[:, col, into] = src[:, col, from]`. */
  function CopyColumn(f: Field, src: Field, col: nat, into: seq<nat>, from: seq<nat>, h: nat, w: nat): (g: Field)
    requires IsField(f, h, w, 9) && IsField(src, h, w, 9) && |into| == 3 && |from| == 3
    requires forall i :: 0 <= i < 3 ==> into[i] < 9 && from[i] < 9
    ensures IsField(g, h, w, 9)
  {
    seq(h, a requires 0 <= a < h => seq(w, b requires 0 <= b < w =>
      if b == col then CopyCell(f[a][b], src[a][b], into, from) else f[a][b]))
  }

  /** The slice assignment `f[row, :, into] = src[row, :, from]`. */
  function CopyRow(f: Field, src: Field, row: nat, into: seq<nat>, from: seq<nat>, h: nat, w: nat): (g: Field)
    requires IsField(f, h, w, 9) && IsField(src, h, w, 9) && |into| == 3 && |from| == 3
    requires forall i :: 0 <= i < 3 ==> into[i] < 9 && from[i] < 9
    ensures IsField(g, h, w, 9)
  {
    seq(h, a requires 0 <= a < h => seq(w, b requires 0 <= b < w =>
      if a == row then CopyCell(f[a][b], src[a][b], into, from) else f[a][b]))
  }

  /**
   * `f_in` after the twelve slice assignments of `apply_boundary_conditions`,
   * in their order: left column, right column, top row, bottom row.
   */
  function BoundaryField(fin: Field, fout: Field, h: nat, w: nat): (g: Field)
    requires IsField(fin, h, w, 9) && IsField(fout, h, w, 9) && h > 0 && w > 0
    ensures IsField(g, h, w, 9)
  {
    var left := CopyColumn(fin, fout, 0, [1, 5, 8], [3, 7, 6], h, w);
    var right := CopyColumn(left, fout, w - 1, [3, 7, 6], [1, 5, 8], h, w);
    var top := CopyRow(right, fout, 0, [2, 5, 6], [4, 7, 8], h, w);
    CopyRow(top, fout, h - 1, [4, 7, 8], [2, 5, 6], h, w)
  }

  /**
   * The direction of `f_out` that slot k of cell (a, b) is copied from, by
   * the last of the four edge rules that writes it; None when no rule does.
   */
  function BoundarySource(a: nat, b: nat, k: nat, h: nat, w: nat): Option<nat>
  {
    if a == h - 1 && k == 4 then Some(2)
    else if a == h - 1 && k == 7 then Some(5)
    else if a == h - 1 && k == 8 then Some(6)
    else if a == 0 && k == 2 then Some(4)
    else if a == 0 && k == 5 then Some(7)
    else if a == 0 && k == 6 then Some(8)
    else if b == w - 1 && k == 3 then Some(1)
    else if b == w - 1 && k == 7 then Some(5)
    else if b == w - 1 && k == 6 then Some(8)
    else if b == 0 && k == 1 then Some(3)
    else if b == 0 && k == 5 then Some(7)
    else if b == 0 && k == 8 then Some(6)
    else None
  }

  /**
   * Every slot after `apply_boundary_conditions` holds the same cell's
   * `f_out` value in the direction `BoundarySource` names, and its old
   * `f_in` value where no rule applies; interior cells keep their cell.
   */
  lemma BoundaryFieldSlots(fin: Field, fout: Field, h: nat, w: nat)
    requires IsField(fin, h, w, 9) && IsField(fout, h, w, 9) && h > 0 && w > 0
    ensures var g := BoundaryField(fin, fout, h, w);
      forall a, b, k :: 0 <= a < h && 0 <= b < w && 0 <= k < 9 ==>
        g[a][b][k] == match BoundarySource(a, b, k, h, w)
                      case Some(d) => fout[a][b][d]
                      case None => fin[a][b][k]
    ensures var g := BoundaryField(fin, fout, h, w);
      forall a, b :: 0 < a < h - 1 && 0 < b < w - 1 ==> g[a][b] == fin[a][b]
  {
    var g := BoundaryField(fin, fout, h, w);
    forall a, b | 0 < a < h - 1 && 0 < b < w - 1 ensures g[a][b] == fin[a][b] {
      assert forall k :: 0 <= k < 9 ==> BoundarySource(a, b, k, h, w).None?;
    }
  }

  /** The edge rules read only `f_out`, so applying them a second time changes nothing. */
  lemma BoundaryFieldIdempotent(fin: Field, fout: Field, h: nat, w: nat)
    requires IsField(fin, h, w, 9) && IsField(fout, h, w, 9) && h > 0 && w > 0
    ensures BoundaryField(BoundaryField(fin, fout, h, w), fout, h, w) == BoundaryField(fin, fout, h, w)
  {
    var g := BoundaryField(fin, fout, h, w);
    BoundaryFieldSlots(fin, fout, h, w);
    BoundaryFieldSlots(g, fout, h, w);
    FieldExtensionality(BoundaryField(g, fout, h, w), g, h, w, 9);
  }

  // ---------------------------------------------------------------------
  // The solver
  // ---------------------------------------------------------------------

  /**
   * The wall array of a new solver: column w / 4 is wall exactly on the
   * segment rows h // 2 - 7 .. h // 2 + 7, and every other cell is open.
   */
  ghost predicate SegmentWall(cells: seq<seq<int>>, h: nat, w: nat)
  {
    IsPlane(cells, h, w) &&
    forall i, j :: 0 <= i < h && 0 <= j < w ==>
      (cells[i][j] == -1 <==> j == w / WallPosition && h / 2 - HoleSize <= i <= h / 2 + HoleSize)
  }

  class LBM {
    const height: nat
    const width: nat
    const tau: real
    const wall: Wall
    var fIn: Field
    var fEq: Field
    var fOut: Field
    var rho: Plane
    var ux: Plane
    var uy: Plane

    ghost predicate Shaped()
      reads this
    {
      IsField(fIn, height, width, 9) && IsField(fEq, height, width, 9) && IsField(fOut, height, width, 9) &&
      IsPlane(rho, height, width) && IsPlane(ux, height, width) && IsPlane(uy, height, width)
    }

    ghost predicate Valid()
      reads this, wall
    {
      Shaped() && wall.Valid() && wall.height == height && wall.width == width && tau != 0.0
    }

    ghost function WallMask(): (m: Mask)
      reads this, wall
      requires Valid()
      ensures IsPlane(m, height, width)
    {
      wall.GetMask()
    }

    /**
     * A solver whose wall segment covers rows height // 2 - 7 to
     * height // 2 + 7 of column width / 4, with density 1 left of that
     * column and 1e-4 elsewhere, at rest, every cell at its equilibrium.
     */
    constructor (height: nat, width: nat, tau: real)
      requires tau != 0.0 && width > 0
      requires HoleRowsInRange(height / 2 - HoleSize, height / 2 + HoleSize, height)
      ensures Valid() && fresh(wall)
      ensures this.height == height && this.width == width && this.tau == tau
      ensures wall.holeStart == height / 2 - HoleSize && wall.holeEnd == height / 2 + HoleSize
      ensures SegmentWall(wall.wall, height, width)
      ensures rho == InitialDensity(height, width)
      ensures ux == Filled(height, width, 0.0) && uy == Filled(height, width, 0.0)
      ensures forall a, b, k :: 0 <= a < height && 0 <= b < width && 0 <= k < 9 ==> fIn[a][b][k] == Weights[k] * rho[a][b]
      ensures var c := width / WallPosition;
        GridTotal(fIn) == height as real * (c as real + (width - c) as real * Background)
      ensures fEq == Zeros(height, width, 9) && fOut == Zeros(height, width, 9)
    {
      this.height := height;
      this.width := width;
      this.tau := tau;
      fIn := Zeros(height, width, 9);
      fEq := Zeros(height, width, 9);
      fOut := Zeros(height, width, 9);
      rho := Filled(height, width, Background);
      ux := Filled(height, width, 0.0);
      uy := Filled(height, width, 0.0);
      var segment := new Wall(height, width, height / 2 - HoleSize, height / 2 + HoleSize);
      assert SegmentWall(segment.wall, height, width);
      wall := segment;
      new;
      InitializeDensity();
      PlaneExtensionality(rho, InitialDensity(height, width), height, width);
      RestEquilibriumField(rho, height, width);
      EquilibriumFieldMass(rho, ux, uy, height, width);
      InitialMass(height, width);
    }

    /**
     * Sets the density of every column left of width / 4 to 1, the velocity
     * to zero everywhere, and every cell to the equilibrium at rest.
     */
    method InitializeDensity()
      requires Shaped()
      modifies this
      ensures Shaped()
      ensures forall a, b :: 0 <= a < height && 0 <= b < width ==>
        rho[a][b] == if b < width / WallPosition then 1.0 else old(rho)[a][b]
      ensures ux == Filled(height, width, 0.0) && uy == Filled(height, width, 0.0)
      ensures fIn == EquilibriumField(rho, ux, uy, height, width)
      ensures fEq == old(fEq) && fOut == old(fOut)
    {
      var j := 0;
      while j < width / WallPosition
        invariant 0 <= j <= width / WallPosition && Shaped()
        invariant forall a, b :: 0 <= a < height && 0 <= b < width ==>
          rho[a][b] == if b < j then 1.0 else old(rho)[a][b]
        invariant fIn == old(fIn) && fEq == old(fEq) && fOut == old(fOut)
      {
        var r := rho;
        rho := seq(height, a requires 0 <= a < height => r[a][j := 1.0]);
        j := j + 1;
      }
      ux := Filled(height, width, 0.0);
      uy := Filled(height, width, 0.0);
      fIn := EquilibriumField(rho, ux, uy, height, width);
    }

    /**
     * Clamped equilibrium from the current density and velocity, velocity
     * zeroed on wall cells (after the equilibrium is built), relaxation.
     */
    method Collide()
      requires Valid()
      modifies this
      ensures Valid()
      ensures fEq == ClampedEquilibriumField(rho, old(ux), old(uy), height, width)
      ensures ux == ZeroOnMask(old(ux), WallMask(), height, width)
      ensures uy == ZeroOnMask(old(uy), WallMask(), height, width)
      ensures fOut == Relax(fIn, fEq, tau, height, width, 9)
      ensures fIn == old(fIn) && rho == old(rho)
    {
      var mask := wall.GetMask();
      fEq := ClampedEquilibriumField(rho, ux, uy, height, width);
      ux := ZeroOnMask(ux, mask, height, width);
      uy := ZeroOnMask(uy, mask, height, width);
      fOut := Relax(fIn, fEq, tau, height, width, 9);
    }

    /**
     * Bounce-back streaming of `fOut` into `fIn`, then zero velocity on
     * the wall cells.  The open-cell total of `fOut` is kept and the wall
     * cells end empty.
     */
    method Stream()
      requires Valid()
      modifies this
      ensures Valid()
      ensures fIn == Streamed(fOut, WallMask(), RowColLattice(), height, width)
      ensures GridTotal(fIn) == FluidTotal(fOut, WallMask())
      ensures WallsEmpty(fIn, WallMask(), height, width, 9)
      ensures ux == ZeroOnMask(old(ux), WallMask(), height, width)
      ensures uy == ZeroOnMask(old(uy), WallMask(), height, width)
      ensures fOut == old(fOut) && fEq == old(fEq) && rho == old(rho)
    {
      var mask := wall.GetMask();
      var f := StreamField(fOut, mask, RowColLattice(), height, width);
      StreamedWallsEmpty(fOut, mask, RowColLattice(), height, width);
      var u, v := ZeroWallVelocities(ux, uy, mask, height, width);
      fIn, ux, uy := f, u, v;
    }

    /**
     * Copies populations of `fOut` into the edge cells of `fIn` and zeroes
     * ux on the left and right columns and uy on the top and bottom rows.
     */
    method ApplyBoundaryConditions()
      requires Valid() && height > 0
      modifies this
      ensures Valid()
      ensures fIn == BoundaryField(old(fIn), fOut, height, width)
      ensures forall a, b :: 0 <= a < height && 0 <= b < width ==>
        ux[a][b] == (if b == 0 || b == width - 1 then 0.0 else old(ux)[a][b]) &&
        uy[a][b] == (if a == 0 || a == height - 1 then 0.0 else old(uy)[a][b])
      ensures fOut == old(fOut) && fEq == old(fEq) && rho == old(rho)
    {
      fIn := BoundaryField(fIn, fOut, height, width);
      var u, v := ux, uy;
      ux := seq(height, a requires 0 <= a < height => u[a][0 := 0.0][width - 1 := 0.0]);
      uy := seq(height, a requires 0 <= a < height => if a == 0 || a == height - 1 then seq(width, _ => 0.0) else v[a]);
    }

    /** Density, and velocity as momentum over density plus 1e-10. */
    method ApplyMacroscopicVariables()
      requires Valid() && EpsilonDefined(fIn, height, width)
      modifies this
      ensures Valid()
      ensures fIn == old(fIn) && fOut == old(fOut) && fEq == old(fEq)
      ensures rho == Density(fIn, height, width)
      ensures ux == EpsilonVelocity(fIn, X, height, width) && uy == EpsilonVelocity(fIn, Y, height, width)
    {
      rho := Density(fIn, height, width);
      ux := EpsilonVelocity(fIn, X, height, width);
      uy := EpsilonVelocity(fIn, Y, height, width);
    }

    /** Density, and velocity updated only where the density is positive, without a clip. */
    method ComputeMacroscopic()
      requires Valid()
      modifies this
      ensures Valid()
      ensures rho == Density(fIn, height, width)
      ensures ux == RawVelocity(fIn, old(ux), X, height, width) && uy == RawVelocity(fIn, old(uy), Y, height, width)
      ensures fIn == old(fIn) && fOut == old(fOut) && fEq == old(fEq)
    {
      rho := Density(fIn, height, width);
      ux := RawVelocity(fIn, ux, X, height, width);
      uy := RawVelocity(fIn, uy, Y, height, width);
    }

    /**
     * One step: macroscopic variables, collision, streaming.  Collision
     * (with tau > 0) never loses mass and keeps it when no equilibrium
     * population is negative; streaming then keeps the mass of the open
     * cells, which is all of it when the walls started empty.
     */
    method Step()
      requires Valid() && EpsilonDefined(fIn, height, width)
      modifies this
      ensures Valid()
      ensures rho == Density(old(fIn), height, width) && PlaneTotal(rho) == old(GridTotal(fIn))
      ensures var u, v := EpsilonVelocity(old(fIn), X, height, width), EpsilonVelocity(old(fIn), Y, height, width);
        fEq == ClampedEquilibriumField(rho, u, v, height, width) &&
        fOut == Relax(old(fIn), fEq, tau, height, width, 9) &&
        ux == ZeroOnMask(u, WallMask(), height, width) && uy == ZeroOnMask(v, WallMask(), height, width)
      ensures fIn == Streamed(fOut, WallMask(), RowColLattice(), height, width)
      ensures GridTotal(fIn) == FluidTotal(fOut, WallMask()) && WallsEmpty(fIn, WallMask(), height, width, 9)
      ensures tau > 0.0 ==> GridTotal(fOut) >= old(GridTotal(fIn))
      ensures var u, v := EpsilonVelocity(old(fIn), X, height, width), EpsilonVelocity(old(fIn), Y, height, width);
        NonNegativeEquilibria(rho, u, v, height, width) ==> GridTotal(fOut) == old(GridTotal(fIn))
      ensures var u, v := EpsilonVelocity(old(fIn), X, height, width), EpsilonVelocity(old(fIn), Y, height, width);
        NonNegativeEquilibria(rho, u, v, height, width) && old(WallsEmpty(fIn, WallMask(), height, width, 9)) ==>
          GridTotal(fIn) == old(GridTotal(fIn))
    {
      ghost var f0 := fIn;
      ghost var mask := WallMask();
      ApplyMacroscopicVariables();
      DensityTotal(f0, height, width);
      ghost var u, v := ux, uy;
      Collide();
      ClampedCollisionMass(f0, u, v, tau, height, width);
      if WallsEmpty(f0, mask, height, width, 9) {
        ClampedCollisionKeepsWallsEmpty(f0, u, v, tau, mask, height, width);
        FluidTotalOfWallsEmpty(fOut, mask, height, width, 9);
      }
      Stream();
      ZeroOnMaskIdempotent(u, mask, height, width);
      ZeroOnMaskIdempotent(v, mask, height, width);
    }
  }
}
