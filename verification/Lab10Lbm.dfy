/**
 * The D2Q9 lattice-Boltzmann solver of `lab_10/lbm_logic.py`, with a wall
 * that has a hole and passive tracer particles.
 *
 * One `step` is: macroscopic quantities from `fIn`, BGK collision into
 * `fOut`, then streaming with bounce-back at walls and grid edges, followed
 * by the edge rules of the chosen regime.  Streaming pulls along
 * `XYLattice()`: a population of direction k moves by (-c_ky, -c_kx).
 */
module Lab10Lbm {
  import opened Arith
  import opened Grids
  import opened Lattice
  import opened Streaming
  import opened D2Q9
  import opened Bgk
  import opened Fluid
  import opened Lab10Wall
  import opened Lab10Particle

  /** The x velocity `initialize_density` gives the right column in the custom regime. */
  function InflowUx(c: seq<real>): real
    requires |c| == 9
  {
    c[0] + c[3] + c[4] + 2.0 * (c[1] + c[5] + c[8])
  }

  /**
   * x velocity after `initialize_density`: the constant regime sets the top
   * row to 0.02, the bottom row to 0, then both side columns to the ramp; the
   * custom regime puts the ramp on the left column and `InflowUx` of the
   * current populations on the right column.
   */
  function InitialUx(ux: Plane, f: Field, bc: Regime, h: nat, w: nat): (r: Plane)
    requires IsPlane(ux, h, w) && IsField(f, h, w, 9) && InitializeDensityDefined(bc, h, w)
    ensures IsPlane(r, h, w)
  {
    match bc
    case BounceBack => ux
    case Constant => ConstantInitialUx(ux, h, w)
    case Custom =>
      var l := RampUx(ux, false, h, w);
      seq(h, a requires 0 <= a < h => seq(w, b requires 0 <= b < w => if b == w - 1 then InflowUx(f[a][b]) else l[a][b]))
  }

  /** y velocity after `initialize_density`: zero on the edges the regime touches. */
  function InitialUy(uy: Plane, bc: Regime, h: nat, w: nat): (r: Plane)
    requires IsPlane(uy, h, w) && InitializeDensityDefined(bc, h, w)
    ensures IsPlane(r, h, w)
  {
    match bc
    case BounceBack => uy
    case Constant => ConstantInitialUy(uy, h, w)
    case Custom => RampUy(uy, true, h, w)
  }

  /**
   * In the custom regime the left column follows the ramp (unless it is also
   * the right column), the right column has density 1 and the x velocity
   * `InflowUx` of its cells, and both side columns have no vertical velocity.
   */
  lemma CustomInitialProfile(rho: Plane, ux: Plane, uy: Plane, f: Field, h: nat, w: nat)
    requires IsPlane(rho, h, w) && IsPlane(ux, h, w) && IsPlane(uy, h, w) && IsField(f, h, w, 9)
    requires h > 1 && w > 0
    ensures var r, u, v := InitialRho(rho, Custom, h, w), InitialUx(ux, f, Custom, h, w), InitialUy(uy, Custom, h, w);
      (forall a :: 0 <= a < h ==> r[a][w - 1] == 1.0 && u[a][w - 1] == InflowUx(f[a][w - 1])) &&
      (w > 1 ==> forall a :: 0 <= a < h ==> u[a][0] == Ramp(a, h)) &&
      (forall a :: 0 <= a < h ==> v[a][0] == 0.0 && v[a][w - 1] == 0.0) &&
      (forall a, b :: 0 <= a < h && 0 < b < w - 1 ==> r[a][b] == rho[a][b] && u[a][b] == ux[a][b] && v[a][b] == uy[a][b])
  {
  }

  /**
   * The right loop of `initialize_density`'s custom regime: every cell of
   * column w - 1 gets density 1, x velocity `InflowUx` of its populations
   * and no vertical velocity.
   */
  method ImposeInflow(rho: Plane, ux: Plane, uy: Plane, f: Field, h: nat, w: nat) returns (rho': Plane, ux': Plane, uy': Plane)
    requires IsPlane(rho, h, w) && IsPlane(ux, h, w) && IsPlane(uy, h, w) && IsField(f, h, w, 9)
    requires h > 0 ==> w > 0
    ensures IsPlane(rho', h, w) && IsPlane(ux', h, w) && IsPlane(uy', h, w)
    ensures rho' == InitialRho(rho, Custom, h, w)
    ensures forall a, b :: 0 <= a < h && 0 <= b < w ==>
      ux'[a][b] == (if b == w - 1 then InflowUx(f[a][b]) else ux[a][b]) &&
      uy'[a][b] == (if b == w - 1 then 0.0 else uy[a][b])
  {
    rho', ux', uy' := rho, ux, uy;
    var i := 0;
    while i < h
      invariant 0 <= i <= h && IsPlane(rho', h, w) && IsPlane(ux', h, w) && IsPlane(uy', h, w)
      invariant forall a, b :: 0 <= a < h && 0 <= b < w ==>
        var hit := b == w - 1 && a < i;
        rho'[a][b] == (if hit then 1.0 else rho[a][b]) &&
        ux'[a][b] == (if hit then InflowUx(f[a][b]) else ux[a][b]) &&
        uy'[a][b] == (if hit then 0.0 else uy[a][b])
    {
      rho' := Set2(rho', i, w - 1, 1.0);
      ux' := Set2(ux', i, w - 1, InflowUx(f[i][w - 1]));
      uy' := Set2(uy', i, w - 1, 0.0);
      i := i + 1;
    }
    PlaneExtensionality(rho', InitialRho(rho, Custom, h, w), h, w);
  }

  // ---------------------------------------------------------------------
  // The custom regime's right edge after streaming
  // ---------------------------------------------------------------------

  /**
   * One open right-column cell of the custom regime: the density is set to 1,
   * ux to 1 - (f0 + f3 + f4 + 2 (f1 + f5 + f8)) / 1, and populations 1, 5 and
   * 8 are rebuilt from 2, 7 and 6.  The result is (ux, new cell).
   */
  function OutflowCell(c: seq<real>): (r: (real, seq<real>))
    requires |c| == 9
    ensures |r.1| == 9
    ensures forall k :: 0 <= k < 9 && k != 1 && k != 5 && k != 8 ==> r.1[k] == c[k]
  {
    var rho := 1.0;
    var ux := 1.0 - (c[0] + c[3] + c[4] + 2.0 * (c[1] + c[5] + c[8])) / rho;
    (ux, c[1 := c[2] + 2.0 / 3.0 * ux * rho][5 := c[7] + 1.0 / 6.0 * ux * rho][8 := c[6] + 1.0 / 6.0 * ux * rho])
  }

  /**
   * The rebuilt cell carries exactly the x momentum `ux` it was given, keeps
   * the vertical momentum f3 - f4, and its density is 1 only when the
   * populations it replaced (1, 5, 8) summed to the ones it copied (2, 6, 7):
   * the rule imposes density 1 in `rho` but not in the populations.
   */
  lemma OutflowMoments(c: seq<real>)
    requires |c| == 9
    ensures var (ux, d) := OutflowCell(c);
      MomentX(d) == ux && MomentY(d) == c[3] - c[4] &&
      Sum(d) == 1.0 + 2.0 * ((c[2] + c[6] + c[7]) - (c[1] + c[5] + c[8]))
    ensures Sum(OutflowCell(c).1) == 1.0 <==> c[2] + c[6] + c[7] == c[1] + c[5] + c[8]
  {
    SumIsSum9(OutflowCell(c).1);
  }

  /** A cell at rest with unit density (w_k in every direction) is rebuilt unchanged with ux = 0. */
  lemma OutflowOfRestCell()
    ensures OutflowCell(Weights) == (0.0, Weights)
  {
    var (ux, d) := OutflowCell(Weights);
    assert ux == 0.0;
    assert d == Weights;
  }

  function OutflowField(f: Field, guard: Mask, h: nat, w: nat): (g: Field)
    requires IsField(f, h, w, 9) && IsPlane(guard, h, w)
    ensures IsField(g, h, w, 9)
  {
    seq(h, a requires 0 <= a < h => seq(w, b requires 0 <= b < w =>
      if b == w - 1 && !guard[a][b] then OutflowCell(f[a][b]).1 else f[a][b]))
  }

  function OutflowRho(rho: Plane, guard: Mask, h: nat, w: nat): (r: Plane)
    requires IsPlane(rho, h, w) && IsPlane(guard, h, w)
    ensures IsPlane(r, h, w)
  {
    seq(h, a requires 0 <= a < h => seq(w, b requires 0 <= b < w =>
      if b == w - 1 && !guard[a][b] then 1.0 else rho[a][b]))
  }

  function OutflowUx(ux: Plane, f: Field, guard: Mask, h: nat, w: nat): (r: Plane)
    requires IsPlane(ux, h, w) && IsField(f, h, w, 9) && IsPlane(guard, h, w)
    ensures IsPlane(r, h, w)
  {
    seq(h, a requires 0 <= a < h => seq(w, b requires 0 <= b < w =>
      if b == w - 1 && !guard[a][b] then OutflowCell(f[a][b]).0 else ux[a][b]))
  }

  function OutflowUy(uy: Plane, guard: Mask, h: nat, w: nat): (r: Plane)
    requires IsPlane(uy, h, w) && IsPlane(guard, h, w)
    ensures IsPlane(r, h, w)
  {
    seq(h, a requires 0 <= a < h => seq(w, b requires 0 <= b < w =>
      if b == w - 1 && !guard[a][b] then 0.0 else uy[a][b]))
  }

  /** The right loop of the custom regime, over every open cell of column w - 1. */
  method ImposeOutflow(f: Field, rho: Plane, ux: Plane, uy: Plane, guard: Mask, h: nat, w: nat)
    returns (f': Field, rho': Plane, ux': Plane, uy': Plane)
    requires IsField(f, h, w, 9) && IsPlane(rho, h, w) && IsPlane(ux, h, w) && IsPlane(uy, h, w)
    requires IsPlane(guard, h, w) && w > 0
    ensures f' == OutflowField(f, guard, h, w) && rho' == OutflowRho(rho, guard, h, w)
    ensures ux' == OutflowUx(ux, f, guard, h, w) && uy' == OutflowUy(uy, guard, h, w)
  {
    f', rho', ux', uy' := f, rho, ux, uy;
    var i := 0;
    while i < h
      invariant 0 <= i <= h && IsField(f', h, w, 9)
      invariant IsPlane(rho', h, w) && IsPlane(ux', h, w) && IsPlane(uy', h, w)
      invariant forall a, b :: 0 <= a < h && 0 <= b < w ==>
        var hit := b == w - 1 && a < i && !guard[a][b];
        f'[a][b] == (if hit then OutflowCell(f[a][b]).1 else f[a][b]) &&
        rho'[a][b] == (if hit then 1.0 else rho[a][b]) &&
        ux'[a][b] == (if hit then OutflowCell(f[a][b]).0 else ux[a][b]) &&
        uy'[a][b] == (if hit then 0.0 else uy[a][b])
    {
      if !guard[i][w - 1] {
        f', rho', ux', uy' := OutflowAt(f', rho', ux', uy', h, w, i);
      }
      i := i + 1;
    }
    FieldExtensionality(f', OutflowField(f, guard, h, w), h, w, 9);
    PlaneExtensionality(rho', OutflowRho(rho, guard, h, w), h, w);
    PlaneExtensionality(ux', OutflowUx(ux, f, guard, h, w), h, w);
    PlaneExtensionality(uy', OutflowUy(uy, guard, h, w), h, w);
  }

  /** One pass of the right loop on an open cell: (i, w - 1) takes the outflow values of its populations. */
  method OutflowAt(f: Field, rho: Plane, ux: Plane, uy: Plane, h: nat, w: nat, i: nat)
    returns (f': Field, rho': Plane, ux': Plane, uy': Plane)
    requires IsField(f, h, w, 9) && IsPlane(rho, h, w) && IsPlane(ux, h, w) && IsPlane(uy, h, w)
    requires i < h && w > 0
    ensures IsField(f', h, w, 9) && IsPlane(rho', h, w) && IsPlane(ux', h, w) && IsPlane(uy', h, w)
    ensures var o := OutflowCell(f[i][w - 1]);
      f'[i][w - 1] == o.1 && rho'[i][w - 1] == 1.0 && ux'[i][w - 1] == o.0 && uy'[i][w - 1] == 0.0
    ensures forall a, b :: 0 <= a < h && 0 <= b < w && (a != i || b != w - 1) ==>
      f'[a][b] == f[a][b] && rho'[a][b] == rho[a][b] && ux'[a][b] == ux[a][b] && uy'[a][b] == uy[a][b]
  {
    var c := f[i][w - 1];
    rho' := Set2(rho, i, w - 1, 1.0);
    var r := rho'[i][w - 1];
    ux' := Set2(ux, i, w - 1, 1.0 - (c[0] + c[3] + c[4] + 2.0 * (c[1] + c[5] + c[8])) / r);
    uy' := Set2(uy, i, w - 1, 0.0);
    var u := ux'[i][w - 1];
    f' := Set3(f, i, w - 1, 1, c[2] + 2.0 / 3.0 * u * r);
    f' := Set3(f', i, w - 1, 5, c[7] + 1.0 / 6.0 * u * r);
    f' := Set3(f', i, w - 1, 8, c[6] + 1.0 / 6.0 * u * r);
    assert f'[i][w - 1] == OutflowCell(c).1;
  }

  /**
   * The populations after the custom regime's four loops, in the source's
   * order: right column, left column (from the updated macroscopic values),
   * top row, bottom row.
   */
  function CustomEdges(s: Field, rho: Plane, ux: Plane, uy: Plane, mask: Mask, h: nat, w: nat): (g: Field)
    requires IsField(s, h, w, 9) && IsPlane(rho, h, w) && IsPlane(ux, h, w) && IsPlane(uy, h, w) && IsPlane(mask, h, w)
    requires h > 0
    ensures IsField(g, h, w, 9)
  {
    var f1 := LeftReset(OutflowField(s, mask, h, w), OutflowRho(rho, mask, h, w),
                        OutflowUx(ux, s, mask, h, w), OutflowUy(uy, mask, h, w), mask, h, w);
    MirrorRow(MirrorRow(f1, 0, true, mask, h, w), h - 1, false, mask, h, w)
  }

  /**
   * What the custom regime leaves at the edges: every open bottom-row cell,
   * and every open top-row cell when there is more than one row, has no
   * vertical momentum; open left-column cells strictly between those rows
   * are at the equilibrium of the updated macroscopic values; open
   * right-column cells strictly between them (when the grid is wider than
   * one column) carry the x momentum written into `ux`.
   */
  lemma CustomEdgesShape(s: Field, rho: Plane, ux: Plane, uy: Plane, mask: Mask, h: nat, w: nat)
    requires IsField(s, h, w, 9) && IsPlane(rho, h, w) && IsPlane(ux, h, w) && IsPlane(uy, h, w) && IsPlane(mask, h, w)
    requires h > 0 && w > 0
    ensures var g := CustomEdges(s, rho, ux, uy, mask, h, w);
      var rho1, ux1, uy1 := OutflowRho(rho, mask, h, w), OutflowUx(ux, s, mask, h, w), OutflowUy(uy, mask, h, w);
      var last := h - 1;
      (forall b :: 0 <= b < w && !mask[last][b] ==> MomentY(g[last][b]) == 0.0) &&
      (h > 1 ==> forall b :: 0 <= b < w && !mask[0][b] ==> MomentY(g[0][b]) == 0.0) &&
      (forall a :: 0 < a < h - 1 && !mask[a][0] ==> g[a][0] == Equilibrium(rho1[a][0], ux1[a][0], uy1[a][0])) &&
      (w > 1 ==> forall a :: 0 < a < h - 1 && !mask[a][w - 1] ==> MomentX(g[a][w - 1]) == ux1[a][w - 1])
  {
    CustomEdgeRows(s, rho, ux, uy, mask, h, w);
    CustomEdgeColumns(s, rho, ux, uy, mask, h, w);
  }

  /** The open cells of the bottom and top rows are mirrored: no vertical momentum. */
  lemma CustomEdgeRows(s: Field, rho: Plane, ux: Plane, uy: Plane, mask: Mask, h: nat, w: nat)
    requires IsField(s, h, w, 9) && IsPlane(rho, h, w) && IsPlane(ux, h, w) && IsPlane(uy, h, w) && IsPlane(mask, h, w)
    requires h > 0 && w > 0
    ensures var g := CustomEdges(s, rho, ux, uy, mask, h, w);
      var last := h - 1;
      (forall b :: 0 <= b < w && !mask[last][b] ==> MomentY(g[last][b]) == 0.0) &&
      (h > 1 ==> forall b :: 0 <= b < w && !mask[0][b] ==> MomentY(g[0][b]) == 0.0)
  {
    var f1 := LeftReset(OutflowField(s, mask, h, w), OutflowRho(rho, mask, h, w),
      OutflowUx(ux, s, mask, h, w), OutflowUy(uy, mask, h, w), mask, h, w);
    var g := CustomEdges(s, rho, ux, uy, mask, h, w);
    var last := h - 1;
    forall b | 0 <= b < w && !mask[last][b] ensures MomentY(g[last][b]) == 0.0 {
      MirroredCellsHaveNoVerticalMomentum(MirrorRow(f1, 0, true, mask, h, w)[last][b]);
    }
    if h > 1 {
      forall b | 0 <= b < w && !mask[0][b] ensures MomentY(g[0][b]) == 0.0 {
        MirroredCellsHaveNoVerticalMomentum(f1[0][b]);
      }
    }
  }

  /** Open interior left-column cells are at equilibrium; open interior right-column cells carry the written ux. */
  lemma CustomEdgeColumns(s: Field, rho: Plane, ux: Plane, uy: Plane, mask: Mask, h: nat, w: nat)
    requires IsField(s, h, w, 9) && IsPlane(rho, h, w) && IsPlane(ux, h, w) && IsPlane(uy, h, w) && IsPlane(mask, h, w)
    requires h > 0 && w > 0
    ensures var g := CustomEdges(s, rho, ux, uy, mask, h, w);
      var rho1, ux1, uy1 := OutflowRho(rho, mask, h, w), OutflowUx(ux, s, mask, h, w), OutflowUy(uy, mask, h, w);
      (forall a :: 0 < a < h - 1 && !mask[a][0] ==> g[a][0] == Equilibrium(rho1[a][0], ux1[a][0], uy1[a][0])) &&
      (w > 1 ==> forall a :: 0 < a < h - 1 && !mask[a][w - 1] ==> MomentX(g[a][w - 1]) == ux1[a][w - 1])
  {
    var g := CustomEdges(s, rho, ux, uy, mask, h, w);
    if w > 1 {
      forall a | 0 < a < h - 1 && !mask[a][w - 1] ensures MomentX(g[a][w - 1]) == OutflowUx(ux, s, mask, h, w)[a][w - 1] {
        OutflowMoments(s[a][w - 1]);
      }
    }
  }

  /**
   * What `stream` leaves in (fIn, rho, ux, uy): the populations `fOut`
   * streamed (see `Streaming`), then the regime's edge rules on the
   * streamed populations `s` and the macroscopic planes: none for
   * bounce-back; the constant regime's equilibrium edges, which keep the
   * planes; the custom regime's right, left, top and bottom loops, which
   * rewrite them.
   */
  ghost function StreamOutcome(bc: Regime, fOut: Field, rho: Plane, ux: Plane, uy: Plane, mask: Mask, h: nat, w: nat): (r: (Field, Plane, Plane, Plane))
    requires IsField(fOut, h, w, 9) && IsPlane(rho, h, w) && IsPlane(ux, h, w) && IsPlane(uy, h, w) && IsPlane(mask, h, w)
    requires bc != BounceBack ==> h > 0
    ensures IsField(r.0, h, w, 9) && IsPlane(r.1, h, w) && IsPlane(r.2, h, w) && IsPlane(r.3, h, w)
  {
    var s := Streamed(fOut, mask, XYLattice(), h, w);
    match bc
    case BounceBack => (s, rho, ux, uy)
    case Constant => (ConstantEdges(s, rho, ux, uy, mask, h, w), rho, ux, uy)
    case Custom =>
      (CustomEdges(s, rho, ux, uy, mask, h, w), OutflowRho(rho, mask, h, w),
       OutflowUx(ux, s, mask, h, w), ZeroTopRow(OutflowUy(uy, mask, h, w), mask, h, w))
  }

  /** `stream` on values; bounce-back streaming keeps the mass of the open cells. */
  method StreamWithEdges(bc: Regime, fOut: Field, rho: Plane, ux: Plane, uy: Plane, mask: Mask, h: nat, w: nat)
    returns (f: Field, rho': Plane, ux': Plane, uy': Plane)
    requires IsField(fOut, h, w, 9) && IsPlane(rho, h, w) && IsPlane(ux, h, w) && IsPlane(uy, h, w) && IsPlane(mask, h, w)
    requires bc != BounceBack ==> h > 0 && w > 0
    ensures IsField(f, h, w, 9) && IsPlane(rho', h, w) && IsPlane(ux', h, w) && IsPlane(uy', h, w)
    ensures (f, rho', ux', uy') == StreamOutcome(bc, fOut, rho, ux, uy, mask, h, w)
    ensures bc == BounceBack ==> GridTotal(f) == FluidTotal(fOut, mask)
  {
    var s := StreamField(fOut, mask, XYLattice(), h, w);
    f, rho', ux', uy' := s, rho, ux, uy;
    if bc == Constant {
      f := ImposeConstantEdges(s, rho, ux, uy, mask, h, w);
    } else if bc == Custom {
      f, rho', ux', uy' := ImposeOutflow(s, rho, ux, uy, mask, h, w);
      f := ResetLeftColumn(f, rho', ux', uy', mask, h, w);
      f, uy' := MirrorTopRow(f, uy', mask, h, w);
      f := MirrorEdgeRow(f, h - 1, false, mask, h, w);
    }
  }

  // ---------------------------------------------------------------------
  // Particles
  // ---------------------------------------------------------------------

  /** No particle appears twice. */
  predicate Distinct(ps: seq<Particle>)
  {
    forall i, j :: 0 <= i < j < |ps| ==> ps[i] != ps[j]
  }

  /** The drawn masses lie in `massRange` and the drawn colours are 8-bit. */
  predicate DrawsFit(masses: seq<real>, colors: seq<Color>, massRange: (real, real))
  {
    |masses| == |colors| &&
    forall k :: 0 <= k < |masses| ==>
      massRange.0 <= masses[k] <= massRange.1 &&
      0 <= colors[k].r <= 255 && 0 <= colors[k].g <= 255 && 0 <= colors[k].b <= 255
  }

  /** Row of the i-th starting spot: y_min + i (y_max - y_min) // n, with Python's floor division. */
  function SpotY(i: nat, yMin: int, yMax: int, n: nat): int
    requires n > 0
  {
    yMin + (i * (yMax - yMin)) / n
  }

  /** Spot i of n lies between yMin and yMax, the first one at yMin. */
  lemma SpotYInRange(i: nat, yMin: int, yMax: int, n: nat)
    requires i < n && yMin <= yMax
    ensures yMin <= SpotY(i, yMin, yMax, n) <= yMax
    ensures i == 0 ==> SpotY(i, yMin, yMax, n) == yMin
  {
    var d := yMax - yMin;
    var x := i * d;
    MulMono(i, n, d);
    DivBound(x, n, d);
    assert SpotY(i, yMin, yMax, n) == yMin + x / n;
  }

  lemma MulMono(i: nat, n: nat, d: nat)
    requires i <= n
    ensures 0 <= i * d <= n * d
    ensures i == 0 ==> i * d == 0
  {
  }

  lemma DivBound(x: nat, n: nat, d: nat)
    requires n > 0 && x <= n * d
    ensures 0 <= x / n <= d
    ensures x == 0 ==> x / n == 0
  {
  }

  /** Index k = i * perSpot + j lies in the first n * perSpot and belongs to spot i. */
  lemma SlotIndex(i: nat, j: nat, n: nat, perSpot: nat)
    requires i < n && j < perSpot
    ensures i * perSpot + j < n * perSpot
    ensures (i * perSpot + j) / perSpot == i
  {
    MulMono(i + 1, n, perSpot);
    assert (i + 1) * perSpot == i * perSpot + perSpot;
    DivUnique(i * perSpot + j, perSpot, i, j);
  }

  /**
   * Particle k of `ps` starts in column 1 at the row of spot k / perSpot,
   * with a one-point path and the k-th drawn mass and colour.
   */
  ghost predicate PlacedUpTo(ps: seq<Particle>, n: nat, yMin: int, yMax: int, perSpot: nat,
                             masses: seq<real>, colors: seq<Color>)
    reads ps
  {
    |ps| <= |masses| && |ps| <= |colors| && Distinct(ps) &&
    forall k :: 0 <= k < |ps| ==> PlacedAt(ps[k], k, n, yMin, yMax, perSpot, masses, colors)
  }

  /** Particle q is the k-th one `initialize_particles` creates. */
  ghost predicate PlacedAt(q: Particle, k: nat, n: nat, yMin: int, yMax: int, perSpot: nat,
                           masses: seq<real>, colors: seq<Color>)
    reads q
  {
    k < |masses| && k < |colors| && n > 0 && perSpot > 0 && k / perSpot < n &&
    q.x == 1.0 && q.y == SpotY(k / perSpot, yMin, yMax, n) as real &&
    q.path == [(q.x, q.y)] && q.mass == masses[k] && q.color == colors[k]
  }

  /**
   * `ps` is what `initialize_particles` builds: `perSpot` particles for each
   * of the n spots down column x = 1, at rows `SpotY`.
   */
  ghost predicate Placed(ps: seq<Particle>, n: nat, yMin: int, yMax: int, perSpot: nat,
                         masses: seq<real>, colors: seq<Color>)
    reads ps
  {
    |ps| == n * perSpot && PlacedUpTo(ps, n, yMin, yMax, perSpot, masses, colors)
  }

  /** The slots of spot i end where those of spot i + 1 begin. */
  lemma NextSpot(i: nat, perSpot: nat)
    ensures i * perSpot + perSpot == (i + 1) * perSpot
  {
  }

  /** One more particle at the next slot keeps the placement. */
  lemma PlacedGrows(ps: seq<Particle>, p: Particle, n: nat, yMin: int, yMax: int, perSpot: nat,
                    masses: seq<real>, colors: seq<Color>)
    requires PlacedUpTo(ps, n, yMin, yMax, perSpot, masses, colors) && p !in ps
    requires |ps| < |masses| && |ps| < |colors| && n > 0 && perSpot > 0 && |ps| / perSpot < n
    requires p.x == 1.0 && p.y == SpotY(|ps| / perSpot, yMin, yMax, n) as real && p.path == [(p.x, p.y)]
    requires p.mass == masses[|ps|] && p.color == colors[|ps|]
    ensures PlacedUpTo(ps + [p], n, yMin, yMax, perSpot, masses, colors)
  {
    var qs := ps + [p];
    DistinctSnoc(ps, p);
    assert PlacedAt(p, |ps|, n, yMin, yMax, perSpot, masses, colors);
    forall k | 0 <= k < |qs|
      ensures PlacedAt(qs[k], k, n, yMin, yMax, perSpot, masses, colors)
    {
      if k < |ps| {
        assert qs[k] == ps[k];
      } else {
        assert qs[k] == p;
      }
    }
  }

  /** A particle not yet in the list keeps it free of repeats. */
  lemma DistinctSnoc(ps: seq<Particle>, p: Particle)
    requires Distinct(ps) && p !in ps
    ensures Distinct(ps + [p])
  {
    var qs := ps + [p];
    forall i, j | 0 <= i < j < |qs|
      ensures qs[i] != qs[j]
    {
      if j < |ps| {
        assert qs[i] == ps[i] && qs[j] == ps[j];
      } else {
        assert qs[i] == ps[i] && qs[j] == p;
      }
    }
  }

  /** The nested loops of `initialize_particles`: `perSpot` new particles at each of the n spots. */
  method MakeParticles(n: nat, yMin: int, yMax: int, perSpot: nat, massRange: (real, real),
                       masses: seq<real>, colors: seq<Color>) returns (ps: seq<Particle>)
    requires |masses| == n * perSpot && DrawsFit(masses, colors, massRange)
    ensures Placed(ps, n, yMin, yMax, perSpot, masses, colors)
    ensures forall k :: 0 <= k < |ps| ==> fresh(ps[k])
  {
    ps := [];
    for i := 0 to n
      invariant |ps| == i * perSpot
      invariant PlacedUpTo(ps, n, yMin, yMax, perSpot, masses, colors)
      invariant forall k :: 0 <= k < |ps| ==> fresh(ps[k])
    {
      var x := 1;
      var y := yMin + i * (yMax - yMin) / n;
      for j := 0 to perSpot
        invariant |ps| == i * perSpot + j
        invariant PlacedUpTo(ps, n, yMin, yMax, perSpot, masses, colors)
        invariant forall k :: 0 <= k < |ps| ==> fresh(ps[k])
      {
        SlotIndex(i, j, n, perSpot);
        var k := i * perSpot + j;
        var p := new Particle(x as real, y as real, None, None, massRange, masses[k], colors[k]);
        PlacedGrows(ps, p, n, yMin, yMax, perSpot, masses, colors);
        ps := ps + [p];
      }
      NextSpot(i, perSpot);
    }
  }

  // ---------------------------------------------------------------------
  // The solver
  // ---------------------------------------------------------------------

  /**
   * The wall array of a new solver: column w // wallPosition is wall except
   * on the hole rows h // 2 - holeSize .. h // 2 + holeSize, and every other
   * cell is open.
   */
  ghost predicate HoleWall(cells: seq<seq<int>>, h: nat, w: nat, holeSize: int, wallPosition: int)
  {
    wallPosition > 0 && IsPlane(cells, h, w) &&
    forall i, j :: 0 <= i < h && 0 <= j < w ==>
      (cells[i][j] == -1 <==> j == w / wallPosition && !(h / 2 - holeSize <= i <= h / 2 + holeSize))
  }

  /** `Wall(height, width, height // 2 - holeSize, height // 2 + holeSize)`, as the solver builds it. */
  method NewHoleWall(height: nat, width: nat, holeSize: int, wallPosition: int) returns (holed: Wall)
    requires WallColumnExists(width, wallPosition)
    requires HoleRowsInRange(height / 2 - holeSize, height / 2 + holeSize, height)
    ensures fresh(holed) && holed.Valid()
    ensures holed.height == height && holed.width == width && holed.wallPosition == wallPosition
    ensures holed.holeStart == height / 2 - holeSize && holed.holeEnd == height / 2 + holeSize
    ensures HoleWall(holed.wall, height, width, holeSize, wallPosition)
  {
    holed := new Wall(height, width, height / 2 - holeSize, height / 2 + holeSize, wallPosition);
  }

  class LBM {
    const height: nat
    const width: nat
    const tau: real
    const boundaryCondition: Regime
    /** MAX_SPEED, the velocity clip of `compute_macroscopic`. */
    const maxSpeed: real
    const wall: Wall
    var fIn: Field
    var fEq: Field
    var fOut: Field
    var rho: Plane
    var ux: Plane
    var uy: Plane
    var particles: seq<Particle>
    var totalMass: real

    /** Every array has the grid's shape. */
    ghost predicate Shaped()
      reads this
    {
      IsField(fIn, height, width, 9) && IsField(fEq, height, width, 9) && IsField(fOut, height, width, 9) &&
      IsPlane(rho, height, width) && IsPlane(ux, height, width) && IsPlane(uy, height, width)
    }

    ghost predicate Valid()
      reads this, wall
    {
      Shaped() && wall.Valid() && wall.height == height && wall.width == width &&
      tau != 0.0 && maxSpeed >= 0.0 && Distinct(particles)
    }

    /** The state of the flow, which the particle operations leave alone. */
    ghost function Flow(): (Field, Field, Field, Plane, Plane, Plane, real)
      reads this
    {
      (fIn, fEq, fOut, rho, ux, uy, totalMass)
    }

    /** The boolean wall mask that streaming and the edge rules use. */
    ghost function WallMask(): (m: Mask)
      reads this, wall
      requires Valid()
      ensures IsPlane(m, height, width)
    {
      wall.GetMask()
    }

    /**
     * A solver with zero populations, unit density and zero velocity,
     * shaped by `initialize_density`; a wall at column width / wallPosition
     * with its hole from height // 2 - holeSize to height // 2 + holeSize;
     * ten spots of two particles each from row 2 to row height - 2, whose
     * random masses and colours are `masses` and `colors`.  The populations
     * are at equilibrium everywhere, wall cells included.
     */
    constructor (height: nat, width: nat, tau: real, boundaryCondition: Regime, maxSpeed: real,
                 holeSize: int, wallPosition: int, masses: seq<real>, colors: seq<Color>)
      requires tau != 0.0 && maxSpeed >= 0.0 && InitializeDensityDefined(boundaryCondition, height, width)
      requires WallColumnExists(width, wallPosition)
      requires HoleRowsInRange(height / 2 - holeSize, height / 2 + holeSize, height)
      requires |masses| == 20 && DrawsFit(masses, colors, (1.0, 5.0))
      ensures Valid() && fresh(wall)
      ensures this.height == height && this.width == width && this.tau == tau
      ensures this.boundaryCondition == boundaryCondition && this.maxSpeed == maxSpeed
      ensures wall.holeStart == height / 2 - holeSize && wall.holeEnd == height / 2 + holeSize
      ensures wall.wallPosition == wallPosition
      ensures HoleWall(wall.wall, height, width, holeSize, wallPosition)
      ensures rho == InitialRho(Filled(height, width, 1.0), boundaryCondition, height, width)
      ensures ux == InitialUx(Filled(height, width, 0.0), Zeros(height, width, 9), boundaryCondition, height, width)
      ensures uy == InitialUy(Filled(height, width, 0.0), boundaryCondition, height, width)
      ensures fIn == EquilibriumField(rho, ux, uy, height, width)
      ensures fEq == Zeros(height, width, 9) && fOut == Zeros(height, width, 9)
      ensures Placed(particles, 10, 2, height - 2, 2, masses, colors)
      ensures totalMass == PlaneTotal(rho)
    {
      this.height := height;
      this.width := width;
      this.tau := tau;
      this.boundaryCondition := boundaryCondition;
      this.maxSpeed := maxSpeed;
      fIn := Zeros(height, width, 9);
      fEq := Zeros(height, width, 9);
      fOut := Zeros(height, width, 9);
      rho := Filled(height, width, 1.0);
      ux := Filled(height, width, 0.0);
      uy := Filled(height, width, 0.0);
      var holed := NewHoleWall(height, width, holeSize, wallPosition);
      wall := holed;
      particles := [];
      totalMass := 0.0;
      new;
      InitializeDensity(boundaryCondition);
      InitializeParticles(10, 2, None, 2, (1.0, 5.0), masses, colors);
      totalMass := PlaneTotal(rho);
    }

    /**
     * Imposes the regime's initial density and velocity on the edges, then
     * sets every cell's populations to the equilibrium of its density and
     * velocity.
     */
    method InitializeDensity(bc: Regime)
      requires Shaped() && InitializeDensityDefined(bc, height, width)
      modifies this
      ensures Shaped()
      ensures rho == InitialRho(old(rho), bc, height, width)
      ensures ux == InitialUx(old(ux), old(fIn), bc, height, width)
      ensures uy == InitialUy(old(uy), bc, height, width)
      ensures fIn == EquilibriumField(rho, ux, uy, height, width)
      ensures fEq == old(fEq) && fOut == old(fOut) && particles == old(particles) && totalMass == old(totalMass)
    {
      if bc == Constant {
        ux, uy := ImposeConstantProfile(ux, uy, height, width);
      } else if bc == Custom {
        var u, v := ImposeRamp(ux, uy, false, height, width);
        var r;
        r, u, v := ImposeInflow(rho, u, v, fIn, height, width);
        PlaneExtensionality(u, InitialUx(ux, fIn, bc, height, width), height, width);
        PlaneExtensionality(v, InitialUy(uy, bc, height, width), height, width);
        rho, ux, uy := r, u, v;
      }
      fIn := FillEquilibrium(fIn, rho, ux, uy, height, width);
    }

    /**
     * Replaces the particles with `perSpot` particles at each of
     * `numParticles` spots; `yMax` defaults to height - 2.  The random
     * mass and colour of the k-th particle are `masses[k]` and `colors[k]`.
     */
    method InitializeParticles(numParticles: nat, yMin: int, yMax: Option<int>, perSpot: nat, massRange: (real, real),
                               masses: seq<real>, colors: seq<Color>)
      requires |masses| == numParticles * perSpot && DrawsFit(masses, colors, massRange)
      modifies this
      ensures Placed(particles, numParticles, yMin, if yMax.Some? then yMax.value else height - 2, perSpot, masses, colors)
      ensures forall k :: 0 <= k < |particles| ==> fresh(particles[k])
      ensures Flow() == old(Flow())
    {
      var top := if yMax.None? then height - 2 else yMax.value;
      particles := MakeParticles(numParticles, yMin, top, perSpot, massRange, masses, colors);
    }

    /** Particle position (x, y) truncates to a grid cell. */
    predicate InGrid(x: real, y: real)
    {
      0 <= Trunc(x) < width && 0 <= Trunc(y) < height
    }

    /**
     * Particle p has taken one `update_particles` move: when its old position
     * truncates to a grid cell it has moved by that cell's velocity times
     * velocityScale / mass and appended its new position to its path;
     * otherwise nothing about it has changed.
     */
    twostate predicate Moved(p: Particle, velocityScale: real)
      reads this, p
    {
      var x0, y0 := old(p.x), old(p.y);
      if InGrid(x0, y0) then
        Shaped() && p.mass != 0.0 &&
        var gx, gy := Trunc(x0), Trunc(y0);
        p.x == x0 + ux[gy][gx] * velocityScale / p.mass &&
        p.y == y0 + uy[gy][gx] * velocityScale / p.mass &&
        p.path == old(p.path) + [(p.x, p.y)]
      else
        p.x == x0 && p.y == y0 && p.path == old(p.path)
    }

    /** Every particle on the grid moves with the flow; the others stay put. */
    method UpdateParticles(velocityScale: real)
      requires Valid()
      requires forall k :: 0 <= k < |particles| && InGrid(particles[k].x, particles[k].y) ==> particles[k].mass != 0.0
      modifies particles
      ensures forall k :: 0 <= k < |particles| ==> Moved(particles[k], velocityScale)
    {
      for k := 0 to |particles|
        invariant forall m :: 0 <= m < k ==> Moved(particles[m], velocityScale)
        invariant forall m :: k <= m < |particles| ==> unchanged(particles[m])
      {
        var p := particles[k];
        var gridX := Trunc(p.x);
        var gridY := Trunc(p.y);
        if 0 <= gridX < width && 0 <= gridY < height {
          p.UpdatePosition(ux[gridY][gridX], uy[gridY][gridX], 1.0, velocityScale);
        }
      }
    }

    /**
     * Density is the cell sum; where it is positive the velocity is the
     * momentum over the density, elsewhere the old velocity stays; both
     * components are then clipped to [-maxSpeed, maxSpeed].
     */
    method ComputeMacroscopic()
      requires Valid()
      modifies this
      ensures Valid()
      ensures rho == Density(old(fIn), height, width)
      ensures ux == Velocity(old(fIn), old(ux), X, maxSpeed, height, width)
      ensures uy == Velocity(old(fIn), old(uy), Y, maxSpeed, height, width)
      ensures fIn == old(fIn) && fEq == old(fEq) && fOut == old(fOut)
      ensures particles == old(particles) && totalMass == old(totalMass)
    {
      rho := Density(fIn, height, width);
      ux := Velocity(fIn, ux, X, maxSpeed, height, width);
      uy := Velocity(fIn, uy, Y, maxSpeed, height, width);
    }

    /** `fEq` becomes the equilibrium of the current macroscopic values, `fOut` the relaxed `fIn`. */
    method Collide()
      requires Valid()
      modifies this
      ensures Valid()
      ensures fEq == EquilibriumField(rho, ux, uy, height, width)
      ensures fOut == Relax(fIn, fEq, tau, height, width, 9)
      ensures fIn == old(fIn) && rho == old(rho) && ux == old(ux) && uy == old(uy)
      ensures particles == old(particles) && totalMass == old(totalMass)
    {
      fEq := FillEquilibrium(fEq, rho, ux, uy, height, width);
      fOut := Relax(fIn, fEq, tau, height, width, 9);
    }

    /**
     * Streams `fOut` into `fIn` with bounce-back at the walls and grid edges,
     * then applies the regime's edge rules: the constant regime resets the
     * open edge cells to equilibrium; the custom regime imposes the right
     * outflow, the left equilibrium, the top mirror (with uy = 0) and the
     * bottom mirror.  Without edge rules, streaming keeps the mass of the
     * open cells.
     */
    method Stream(bc: Regime)
      requires Valid() && (bc != BounceBack ==> height > 0)
      modifies this
      ensures Valid()
      ensures (fIn, rho, ux, uy) == StreamOutcome(bc, old(fOut), old(rho), old(ux), old(uy), WallMask(), height, width)
      ensures bc == BounceBack ==> GridTotal(fIn) == FluidTotal(old(fOut), WallMask())
      ensures fEq == old(fEq) && fOut == old(fOut) && particles == old(particles) && totalMass == old(totalMass)
    {
      var mask := wall.GetMask();
      var f, r, u, v := StreamWithEdges(bc, fOut, rho, ux, uy, mask, height, width);
      SetFlow(f, r, u, v);
    }

    /** Stores new populations and macroscopic planes of the grid's shape. */
    method SetFlow(f: Field, r: Plane, u: Plane, v: Plane)
      requires Valid() && IsField(f, height, width, 9) && IsPlane(r, height, width) && IsPlane(u, height, width) && IsPlane(v, height, width)
      modifies this
      ensures Valid() && WallMask() == old(WallMask())
      ensures fIn == f && rho == r && ux == u && uy == v
      ensures fEq == old(fEq) && fOut == old(fOut) && particles == old(particles) && totalMass == old(totalMass)
    {
      fIn, rho, ux, uy := f, r, u, v;
    }

    /**
     * One time step: macroscopic values, collision, streaming.  Collision
     * keeps the total mass, and the density plane it is computed from adds
     * up to that mass.  In the bounce-back regime streaming keeps the mass
     * of the open cells, so when the walls start empty the step conserves
     * the total mass and leaves them empty.
     */
    method Step(bc: Regime)
      requires Valid() && (bc != BounceBack ==> height > 0)
      modifies this
      ensures Valid()
      ensures var d := Density(old(fIn), height, width);
        var u := Velocity(old(fIn), old(ux), X, maxSpeed, height, width);
        var v := Velocity(old(fIn), old(uy), Y, maxSpeed, height, width);
        fEq == EquilibriumField(d, u, v, height, width) && fOut == Relax(old(fIn), fEq, tau, height, width, 9) &&
        (bc != Custom ==> rho == d && ux == u && uy == v)
      ensures var d := Density(old(fIn), height, width);
        var u := Velocity(old(fIn), old(ux), X, maxSpeed, height, width);
        var v := Velocity(old(fIn), old(uy), Y, maxSpeed, height, width);
        (fIn, rho, ux, uy) == StreamOutcome(bc, fOut, d, u, v, WallMask(), height, width)
      ensures GridTotal(fOut) == old(GridTotal(fIn))
      ensures bc != Custom ==> PlaneTotal(rho) == old(GridTotal(fIn))
      ensures bc == BounceBack ==> fIn == Streamed(fOut, WallMask(), XYLattice(), height, width)
      ensures bc == BounceBack ==> GridTotal(fIn) == FluidTotal(fOut, WallMask())
      ensures bc == BounceBack && old(WallsEmpty(fIn, WallMask(), height, width, 9)) ==>
        GridTotal(fIn) == old(GridTotal(fIn)) && WallsEmpty(fIn, WallMask(), height, width, 9)
      ensures particles == old(particles) && totalMass == old(totalMass)
    {
      ghost var f0 := fIn;
      ComputeMacroscopic();
      Collide();
      CollisionConservesMass(f0, ux, uy, tau, height, width);
      DensityTotal(f0, height, width);
      ghost var mask := WallMask();
      if bc == BounceBack && WallsEmpty(f0, mask, height, width, 9) {
        CollisionKeepsWallsEmpty(f0, ux, uy, tau, mask, height, width);
        FluidTotalOfWallsEmpty(fOut, mask, height, width, 9);
      }
      Stream(bc);
      if bc == BounceBack {
        StreamedWallsEmpty(fOut, mask, XYLattice(), height, width);
      }
    }
  }

  /**
   * A solver started at equilibrium holds mass in every wall cell whose
   * density is non-zero, because the equilibrium is laid out before the wall
   * is taken into account; the first bounce-back step then drops that mass.
   */
  lemma EquilibriumFillsWalls(rho: Plane, ux: Plane, uy: Plane, mask: Mask, h: nat, w: nat, a: nat, b: nat)
    requires IsPlane(rho, h, w) && IsPlane(ux, h, w) && IsPlane(uy, h, w) && IsPlane(mask, h, w)
    requires a < h && b < w && mask[a][b] && rho[a][b] != 0.0
    ensures !WallsEmpty(EquilibriumField(rho, ux, uy, h, w), mask, h, w, 9)
  {
    var c := EquilibriumField(rho, ux, uy, h, w)[a][b];
    EquilibriumMass(rho[a][b], ux[a][b], uy[a][b]);
    NonzeroSumHasNonzeroEntry(c);
  }
}
