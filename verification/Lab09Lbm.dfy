/**
 * The D2Q9 lattice-Boltzmann solver of `lab_09/lbm_logic.py`: the same
 * collision and streaming as `lab_10`, without particles, with edge rules
 * that ignore the wall, and with a right-edge rule in the custom regime that
 * fixes the density of the rebuilt cell at 1.  The wall mask comes from
 * `lab_09/wall.py`, which is not part of this model: it is a constructor
 * parameter here.
 */
module Lab09Lbm {
  import opened Grids
  import opened Lattice
  import opened Streaming
  import opened D2Q9
  import opened Bgk
  import opened Fluid

  /** x velocity after `initialize_density`; the custom regime leaves the right column at rest. */
  function InitialUx(ux: Plane, bc: Regime, h: nat, w: nat): (r: Plane)
    requires IsPlane(ux, h, w) && InitializeDensityDefined(bc, h, w)
    ensures IsPlane(r, h, w)
  {
    match bc
    case BounceBack => ux
    case Constant => ConstantInitialUx(ux, h, w)
    case Custom =>
      var l := RampUx(ux, false, h, w);
      seq(h, a requires 0 <= a < h => seq(w, b requires 0 <= b < w => if b == w - 1 then 0.0 else l[a][b]))
  }

  /** y velocity after `initialize_density`: zero on the edges the regime touches. */
  function InitialUy(uy: Plane, bc: Regime, h: nat, w: nat): (r: Plane)
    requires IsPlane(uy, h, w) && InitializeDensityDefined(bc, h, w)
    ensures IsPlane(r, h, w)
  {
    match bc
    case BounceBack => uy
    case Constant => ConstantInitialUy(uy, h, w)
    case Custom => RampUy(uy, true, h, w)
  }

  /**
   * The right loop of `initialize_density`'s custom regime: column w - 1
   * gets density 1 and zero velocity.
   */
  method ImposeRestRight(rho: Plane, ux: Plane, uy: Plane, h: nat, w: nat) returns (rho': Plane, ux': Plane, uy': Plane)
    requires IsPlane(rho, h, w) && IsPlane(ux, h, w) && IsPlane(uy, h, w)
    requires h > 0 ==> w > 0
    ensures IsPlane(rho', h, w) && IsPlane(ux', h, w) && IsPlane(uy', h, w)
    ensures rho' == InitialRho(rho, Custom, h, w)
    ensures forall a, b :: 0 <= a < h && 0 <= b < w ==>
      ux'[a][b] == (if b == w - 1 then 0.0 else ux[a][b]) &&
      uy'[a][b] == (if b == w - 1 then 0.0 else uy[a][b])
  {
    rho', ux', uy' := rho, ux, uy;
    var i := 0;
    while i < h
      invariant 0 <= i <= h && IsPlane(rho', h, w) && IsPlane(ux', h, w) && IsPlane(uy', h, w)
      invariant forall a, b :: 0 <= a < h && 0 <= b < w ==>
        var hit := b == w - 1 && a < i;
        rho'[a][b] == (if hit then 1.0 else rho[a][b]) &&
        ux'[a][b] == (if hit then 0.0 else ux[a][b]) &&
        uy'[a][b] == (if hit then 0.0 else uy[a][b])
    {
      rho' := Set2(rho', i, w - 1, 1.0);
      ux' := Set2(ux', i, w - 1, 0.0);
      uy' := Set2(uy', i, w - 1, 0.0);
      i := i + 1;
    }
    PlaneExtensionality(rho', InitialRho(rho, Custom, h, w), h, w);
  }

  /**
   * In the custom regime the right column starts at rest with density 1,
   * and the left column follows the ramp (unless it is also the right one).
   */
  lemma CustomInitialProfile(rho: Plane, ux: Plane, uy: Plane, h: nat, w: nat)
    requires IsPlane(rho, h, w) && IsPlane(ux, h, w) && IsPlane(uy, h, w) && h > 1 && w > 0
    ensures var r, u, v := InitialRho(rho, Custom, h, w), InitialUx(ux, Custom, h, w), InitialUy(uy, Custom, h, w);
      (forall a :: 0 <= a < h ==> r[a][w - 1] == 1.0 && u[a][w - 1] == 0.0 && v[a][w - 1] == 0.0) &&
      (w > 1 ==> forall a :: 0 <= a < h ==> u[a][0] == Ramp(a, h) && v[a][0] == 0.0) &&
      (forall a, b :: 0 <= a < h && 0 < b < w - 1 ==> r[a][b] == rho[a][b] && u[a][b] == ux[a][b] && v[a][b] == uy[a][b])
  {
  }

  // ---------------------------------------------------------------------
  // The custom regime's right edge after streaming
  // ---------------------------------------------------------------------

  /** The x velocity the right-edge rule reads from a cell at density 1. */
  function OutflowUxOf(c: seq<real>): real
    requires |c| == 9
  {
    (c[0] + c[3] + c[4] + 2.0 * (c[1] + c[5] + c[8])) / 1.0 - 1.0
  }

  /** The right-edge rule's uy divides by 5 - 3 ux, which must not vanish. */
  predicate OutflowDefinedAt(c: seq<real>)
    requires |c| == 9
  {
    5.0 - 3.0 * OutflowUxOf(c) != 0.0
  }

  /**
   * One right-column cell of the custom regime: density 1, ux read from the
   * known populations, uy = 0.6 (f3 - f4 + f1 - f8) / 1 / (5 - 3 ux), and the
   * populations 2, 7 and 6 (those that stream in from outside the grid)
   * rebuilt from 1, 5 and 8.  The result is (ux, uy, new cell).
   */
  function OutflowCell(c: seq<real>): (r: (real, real, seq<real>))
    requires |c| == 9 && OutflowDefinedAt(c)
    ensures |r.2| == 9
    ensures forall k :: 0 <= k < 9 && k != 2 && k != 6 && k != 7 ==> r.2[k] == c[k]
  {
    var rho := 1.0;
    var ux := OutflowUxOf(c);
    var uy := 0.6 * (c[3] - c[4] + c[1] - c[8]) / rho / (5.0 - 3.0 * ux);
    (ux, uy, c[2 := c[1] - 2.0 / 3.0 * ux * rho][7 := c[5] - 1.0 / 6.0 * (ux - uy) * rho][6 := c[8] - 1.0 / 6.0 * (ux + uy) * rho])
  }

  /**
   * The rebuilt cell has density exactly 1 and x momentum exactly `ux`,
   * whatever the cell held before; its vertical momentum is f3 - f4 - uy / 3.
   */
  lemma OutflowMoments(c: seq<real>)
    requires |c| == 9 && OutflowDefinedAt(c)
    ensures var (ux, uy, d) := OutflowCell(c);
      Sum(d) == 1.0 && MomentX(d) == ux && MomentY(d) == c[3] - c[4] - uy / 3.0
  {
    SumIsSum9(OutflowCell(c).2);
  }

  /** Every right-column cell of `s` admits the right-edge rule. */
  predicate OutflowDefined(s: Field, h: nat, w: nat)
    requires IsField(s, h, w, 9)
  {
    forall a :: 0 <= a < h && w > 0 ==> OutflowDefinedAt(s[a][w - 1])
  }

  function OutflowField(f: Field, h: nat, w: nat): (g: Field)
    requires IsField(f, h, w, 9) && OutflowDefined(f, h, w)
    ensures IsField(g, h, w, 9)
  {
    seq(h, a requires 0 <= a < h => seq(w, b requires 0 <= b < w =>
      if b == w - 1 then OutflowCell(f[a][b]).2 else f[a][b]))
  }

  function OutflowRho(rho: Plane, h: nat, w: nat): (r: Plane)
    requires IsPlane(rho, h, w)
    ensures IsPlane(r, h, w)
  {
    seq(h, a requires 0 <= a < h => seq(w, b requires 0 <= b < w => if b == w - 1 then 1.0 else rho[a][b]))
  }

  function OutflowUx(ux: Plane, f: Field, h: nat, w: nat): (r: Plane)
    requires IsPlane(ux, h, w) && IsField(f, h, w, 9) && OutflowDefined(f, h, w)
    ensures IsPlane(r, h, w)
  {
    seq(h, a requires 0 <= a < h => seq(w, b requires 0 <= b < w =>
      if b == w - 1 then OutflowCell(f[a][b]).0 else ux[a][b]))
  }

  function OutflowUy(uy: Plane, f: Field, h: nat, w: nat): (r: Plane)
    requires IsPlane(uy, h, w) && IsField(f, h, w, 9) && OutflowDefined(f, h, w)
    ensures IsPlane(r, h, w)
  {
    seq(h, a requires 0 <= a < h => seq(w, b requires 0 <= b < w =>
      if b == w - 1 then OutflowCell(f[a][b]).1 else uy[a][b]))
  }

  /** The right loop of the custom regime, over every cell of column w - 1. */
  method ImposeOutflow(f: Field, rho: Plane, ux: Plane, uy: Plane, h: nat, w: nat)
    returns (f': Field, rho': Plane, ux': Plane, uy': Plane)
    requires IsField(f, h, w, 9) && IsPlane(rho, h, w) && IsPlane(ux, h, w) && IsPlane(uy, h, w)
    requires w > 0 && OutflowDefined(f, h, w)
    ensures f' == OutflowField(f, h, w) && rho' == OutflowRho(rho, h, w)
    ensures ux' == OutflowUx(ux, f, h, w) && uy' == OutflowUy(uy, f, h, w)
  {
    f', rho', ux', uy' := f, rho, ux, uy;
    var i := 0;
    while i < h
      invariant 0 <= i <= h && OutflowDone(f, rho, ux, uy, h, w, i, f', rho', ux', uy')
    {
      ghost var f0, rho0, ux0, uy0 := f', rho', ux', uy';
      f', rho', ux', uy' := OutflowAt(f', rho', ux', uy', h, w, i);
      OutflowDoneStep(f, rho, ux, uy, h, w, i, f0, rho0, ux0, uy0, f', rho', ux', uy');
      i := i + 1;
    }
    FieldExtensionality(f', OutflowField(f, h, w), h, w, 9);
    PlaneExtensionality(rho', OutflowRho(rho, h, w), h, w);
    PlaneExtensionality(ux', OutflowUx(ux, f, h, w), h, w);
    PlaneExtensionality(uy', OutflowUy(uy, f, h, w), h, w);
  }

  /** After the first i rows of the right loop: those cells of column w - 1 hold their outflow values, the rest is untouched. */
  ghost predicate OutflowDone(f: Field, rho: Plane, ux: Plane, uy: Plane, h: nat, w: nat, i: nat,
                              f': Field, rho': Plane, ux': Plane, uy': Plane)
    requires IsField(f, h, w, 9) && IsPlane(rho, h, w) && IsPlane(ux, h, w) && IsPlane(uy, h, w)
    requires w > 0 && OutflowDefined(f, h, w)
  {
    IsField(f', h, w, 9) && IsPlane(rho', h, w) && IsPlane(ux', h, w) && IsPlane(uy', h, w) &&
    forall a, b :: 0 <= a < h && 0 <= b < w ==>
      var hit := b == w - 1 && a < i;
      f'[a][b] == (if hit then OutflowCell(f[a][b]).2 else f[a][b]) &&
      rho'[a][b] == (if hit then 1.0 else rho[a][b]) &&
      ux'[a][b] == (if hit then OutflowCell(f[a][b]).0 else ux[a][b]) &&
      uy'[a][b] == (if hit then OutflowCell(f[a][b]).1 else uy[a][b])
  }

  /** One pass of the right loop extends `OutflowDone` by one row. */
  lemma OutflowDoneStep(f: Field, rho: Plane, ux: Plane, uy: Plane, h: nat, w: nat, i: nat,
                        f0: Field, rho0: Plane, ux0: Plane, uy0: Plane, f': Field, rho': Plane, ux': Plane, uy': Plane)
    requires IsField(f, h, w, 9) && IsPlane(rho, h, w) && IsPlane(ux, h, w) && IsPlane(uy, h, w)
    requires w > 0 && OutflowDefined(f, h, w) && i < h
    requires OutflowDone(f, rho, ux, uy, h, w, i, f0, rho0, ux0, uy0)
    requires IsField(f', h, w, 9) && IsPlane(rho', h, w) && IsPlane(ux', h, w) && IsPlane(uy', h, w)
    requires var o := OutflowCell(f0[i][w - 1]);
      f'[i][w - 1] == o.2 && rho'[i][w - 1] == 1.0 && ux'[i][w - 1] == o.0 && uy'[i][w - 1] == o.1
    requires forall a, b :: 0 <= a < h && 0 <= b < w && (a != i || b != w - 1) ==>
      f'[a][b] == f0[a][b] && rho'[a][b] == rho0[a][b] && ux'[a][b] == ux0[a][b] && uy'[a][b] == uy0[a][b]
    ensures OutflowDone(f, rho, ux, uy, h, w, i + 1, f', rho', ux', uy')
  {
  }

  /** One pass of the right loop: cell (i, w - 1) takes the outflow values of its populations. */
  method OutflowAt(f: Field, rho: Plane, ux: Plane, uy: Plane, h: nat, w: nat, i: nat)
    returns (f': Field, rho': Plane, ux': Plane, uy': Plane)
    requires IsField(f, h, w, 9) && IsPlane(rho, h, w) && IsPlane(ux, h, w) && IsPlane(uy, h, w)
    requires i < h && w > 0 && OutflowDefinedAt(f[i][w - 1])
    ensures IsField(f', h, w, 9) && IsPlane(rho', h, w) && IsPlane(ux', h, w) && IsPlane(uy', h, w)
    ensures var o := OutflowCell(f[i][w - 1]);
      f'[i][w - 1] == o.2 && rho'[i][w - 1] == 1.0 && ux'[i][w - 1] == o.0 && uy'[i][w - 1] == o.1
    ensures forall a, b :: 0 <= a < h && 0 <= b < w && (a != i || b != w - 1) ==>
      f'[a][b] == f[a][b] && rho'[a][b] == rho[a][b] && ux'[a][b] == ux[a][b] && uy'[a][b] == uy[a][b]
  {
    var c := f[i][w - 1];
    rho' := Set2(rho, i, w - 1, 1.0);
    var r := rho'[i][w - 1];
    ux' := Set2(ux, i, w - 1, (c[0] + c[3] + c[4] + 2.0 * (c[1] + c[5] + c[8])) / r - 1.0);
    var u := ux'[i][w - 1];
    uy' := Set2(uy, i, w - 1, 0.6 * (c[3] - c[4] + c[1] - c[8]) / r / (5.0 - 3.0 * u));
    var v := uy'[i][w - 1];
    f' := Set3(f, i, w - 1, 2, c[1] - 2.0 / 3.0 * u * r);
    f' := Set3(f', i, w - 1, 7, c[5] - 1.0 / 6.0 * (u - v) * r);
    f' := Set3(f', i, w - 1, 6, c[8] - 1.0 / 6.0 * (u + v) * r);
    assert f'[i][w - 1] == OutflowCell(c).2;
  }

  /**
   * The populations after the custom regime's four loops, none of which
   * looks at the wall: right column, left column (from the updated
   * macroscopic values), top row, bottom row.
   */
  function CustomEdges(s: Field, rho: Plane, ux: Plane, uy: Plane, h: nat, w: nat): (g: Field)
    requires IsField(s, h, w, 9) && IsPlane(rho, h, w) && IsPlane(ux, h, w) && IsPlane(uy, h, w)
    requires h > 0 && OutflowDefined(s, h, w)
    ensures IsField(g, h, w, 9)
  {
    var open := NoGuard(h, w);
    var f1 := LeftReset(OutflowField(s, h, w), OutflowRho(rho, h, w), OutflowUx(ux, s, h, w), OutflowUy(uy, s, h, w), open, h, w);
    MirrorRow(MirrorRow(f1, 0, true, open, h, w), h - 1, false, open, h, w)
  }

  /**
   * Interior right-column cells leave the custom regime with density 1 and
   * the x momentum written into `ux`; the bottom row, and the top row when
   * there is more than one, have no vertical momentum; interior left-column
   * cells are at the equilibrium of the updated macroscopic values.
   */
  lemma CustomEdgesShape(s: Field, rho: Plane, ux: Plane, uy: Plane, h: nat, w: nat)
    requires IsField(s, h, w, 9) && IsPlane(rho, h, w) && IsPlane(ux, h, w) && IsPlane(uy, h, w)
    requires h > 0 && w > 0 && OutflowDefined(s, h, w)
    ensures var g := CustomEdges(s, rho, ux, uy, h, w);
      var rho1, ux1, uy1 := OutflowRho(rho, h, w), OutflowUx(ux, s, h, w), OutflowUy(uy, s, h, w);
      var last := h - 1;
      (forall b :: 0 <= b < w ==> MomentY(g[last][b]) == 0.0) &&
      (h > 1 ==> forall b :: 0 <= b < w ==> MomentY(g[0][b]) == 0.0) &&
      (forall a :: 0 < a < h - 1 ==> g[a][0] == Equilibrium(rho1[a][0], ux1[a][0], uy1[a][0])) &&
      (w > 1 ==> forall a :: 0 < a < h - 1 ==> Sum(g[a][w - 1]) == 1.0 && MomentX(g[a][w - 1]) == ux1[a][w - 1])
  {
    CustomEdgeRows(s, rho, ux, uy, h, w);
    CustomEdgeColumns(s, rho, ux, uy, h, w);
  }

  /** The bottom and top rows of the custom regime are mirrored: no vertical momentum. */
  lemma CustomEdgeRows(s: Field, rho: Plane, ux: Plane, uy: Plane, h: nat, w: nat)
    requires IsField(s, h, w, 9) && IsPlane(rho, h, w) && IsPlane(ux, h, w) && IsPlane(uy, h, w)
    requires h > 0 && w > 0 && OutflowDefined(s, h, w)
    ensures var g := CustomEdges(s, rho, ux, uy, h, w);
      var last := h - 1;
      (forall b :: 0 <= b < w ==> MomentY(g[last][b]) == 0.0) &&
      (h > 1 ==> forall b :: 0 <= b < w ==> MomentY(g[0][b]) == 0.0)
  {
    var open := NoGuard(h, w);
    var f1 := LeftReset(OutflowField(s, h, w), OutflowRho(rho, h, w), OutflowUx(ux, s, h, w), OutflowUy(uy, s, h, w), open, h, w);
    var g := CustomEdges(s, rho, ux, uy, h, w);
    var last := h - 1;
    forall b | 0 <= b < w ensures MomentY(g[last][b]) == 0.0 {
      MirroredCellsHaveNoVerticalMomentum(MirrorRow(f1, 0, true, open, h, w)[last][b]);
    }
    if h > 1 {
      forall b | 0 <= b < w ensures MomentY(g[0][b]) == 0.0 {
        MirroredCellsHaveNoVerticalMomentum(f1[0][b]);
      }
    }
  }

  /** Interior left-column cells are at equilibrium; interior right-column cells carry density 1 and the written ux. */
  lemma CustomEdgeColumns(s: Field, rho: Plane, ux: Plane, uy: Plane, h: nat, w: nat)
    requires IsField(s, h, w, 9) && IsPlane(rho, h, w) && IsPlane(ux, h, w) && IsPlane(uy, h, w)
    requires h > 0 && w > 0 && OutflowDefined(s, h, w)
    ensures var g := CustomEdges(s, rho, ux, uy, h, w);
      var rho1, ux1, uy1 := OutflowRho(rho, h, w), OutflowUx(ux, s, h, w), OutflowUy(uy, s, h, w);
      (forall a :: 0 < a < h - 1 ==> g[a][0] == Equilibrium(rho1[a][0], ux1[a][0], uy1[a][0])) &&
      (w > 1 ==> forall a :: 0 < a < h - 1 ==> Sum(g[a][w - 1]) == 1.0 && MomentX(g[a][w - 1]) == ux1[a][w - 1])
  {
    var g := CustomEdges(s, rho, ux, uy, h, w);
    if w > 1 {
      forall a | 0 < a < h - 1
        ensures Sum(g[a][w - 1]) == 1.0 && MomentX(g[a][w - 1]) == OutflowUx(ux, s, h, w)[a][w - 1]
      {
        OutflowMoments(s[a][w - 1]);
      }
    }
  }

  /**
   * `f`, `rho'`, `ux'`, `uy'` are what the edge rules of regime `bc` make of
   * the streamed populations `s` and the planes `rho`, `ux`, `uy`: nothing
   * for bounce-back; equilibrium edges with the planes kept for the constant
   * regime; the right, left, top and bottom loops of the custom regime,
   * whose outflow rule needs 5 - 3 ux to be non-zero on the right column.
   */
  ghost predicate EdgesApplied(bc: Regime, s: Field, rho: Plane, ux: Plane, uy: Plane, f: Field, rho': Plane, ux': Plane, uy': Plane, h: nat, w: nat)
    requires IsField(s, h, w, 9) && IsPlane(rho, h, w) && IsPlane(ux, h, w) && IsPlane(uy, h, w)
    requires bc != BounceBack ==> h > 0 && w > 0
  {
    match bc
    case BounceBack => f == s && rho' == rho && ux' == ux && uy' == uy
    case Constant => f == ConstantEdges(s, rho, ux, uy, NoGuard(h, w), h, w) && rho' == rho && ux' == ux && uy' == uy
    case Custom =>
      OutflowDefined(s, h, w) &&
      f == CustomEdges(s, rho, ux, uy, h, w) && rho' == OutflowRho(rho, h, w) &&
      ux' == OutflowUx(ux, s, h, w) && uy' == OutflowUy(uy, s, h, w)
  }

  /** The edge rules `stream` applies after streaming; none of them looks at the wall. */
  method ApplyEdges(bc: Regime, s: Field, rho: Plane, ux: Plane, uy: Plane, h: nat, w: nat)
    returns (f: Field, rho': Plane, ux': Plane, uy': Plane)
    requires IsField(s, h, w, 9) && IsPlane(rho, h, w) && IsPlane(ux, h, w) && IsPlane(uy, h, w)
    requires bc != BounceBack ==> h > 0 && w > 0
    requires bc == Custom ==> OutflowDefined(s, h, w)
    ensures IsField(f, h, w, 9) && IsPlane(rho', h, w) && IsPlane(ux', h, w) && IsPlane(uy', h, w)
    ensures bc == BounceBack ==> f == s
    ensures bc == Constant ==> f == ConstantEdges(s, rho, ux, uy, NoGuard(h, w), h, w)
    ensures bc != Custom ==> rho' == rho && ux' == ux && uy' == uy
    ensures bc == Custom ==>
      f == CustomEdges(s, rho, ux, uy, h, w) && rho' == OutflowRho(rho, h, w) &&
      ux' == OutflowUx(ux, s, h, w) && uy' == OutflowUy(uy, s, h, w)
  {
    f, rho', ux', uy' := s, rho, ux, uy;
    var open := NoGuard(h, w);
    if bc == Constant {
      f := ImposeConstantEdges(s, rho, ux, uy, open, h, w);
    } else if bc == Custom {
      f, rho', ux', uy' := ImposeOutflow(s, rho, ux, uy, h, w);
      f := ResetLeftColumn(f, rho', ux', uy', open, h, w);
      f := MirrorEdgeRow(f, 0, true, open, h, w);
      f := MirrorEdgeRow(f, h - 1, false, open, h, w);
    }
  }

  // ---------------------------------------------------------------------
  // The solver
  // ---------------------------------------------------------------------

  class LBM {
    const height: nat
    const width: nat
    const tau: real
    /** MAX_SPEED, the velocity clip of `compute_macroscopic`. */
    const maxSpeed: real
    /** `get_mask()` of the wall, true at wall cells. */
    const wallMask: Mask
    var fIn: Field
    var fEq: Field
    var fOut: Field
    var rho: Plane
    var ux: Plane
    var uy: Plane
    var totalMass: real

    ghost predicate Shaped()
      reads this
    {
      IsField(fIn, height, width, 9) && IsField(fEq, height, width, 9) && IsField(fOut, height, width, 9) &&
      IsPlane(rho, height, width) && IsPlane(ux, height, width) && IsPlane(uy, height, width)
    }

    ghost predicate Valid()
      reads this
    {
      Shaped() && IsPlane(wallMask, height, width) && tau != 0.0 && maxSpeed >= 0.0
    }

    /**
     * A solver with zero populations, unit density and zero velocity, shaped
     * by `initialize_density`: every cell ends at the equilibrium of its
     * density and velocity, wall cells included.
     */
    constructor (height: nat, width: nat, tau: real, boundaryCondition: Regime, maxSpeed: real, wallMask: Mask)
      requires tau != 0.0 && maxSpeed >= 0.0 && InitializeDensityDefined(boundaryCondition, height, width)
      requires IsPlane(wallMask, height, width)
      ensures Valid()
      ensures this.height == height && this.width == width && this.tau == tau
      ensures this.maxSpeed == maxSpeed && this.wallMask == wallMask
      ensures rho == InitialRho(Filled(height, width, 1.0), boundaryCondition, height, width)
      ensures ux == InitialUx(Filled(height, width, 0.0), boundaryCondition, height, width)
      ensures uy == InitialUy(Filled(height, width, 0.0), boundaryCondition, height, width)
      ensures fIn == EquilibriumField(rho, ux, uy, height, width)
      ensures fEq == Zeros(height, width, 9) && fOut == Zeros(height, width, 9)
      ensures totalMass == PlaneTotal(rho)
    {
      this.height := height;
      this.width := width;
      this.tau := tau;
      this.maxSpeed := maxSpeed;
      this.wallMask := wallMask;
      fIn := Zeros(height, width, 9);
      fEq := Zeros(height, width, 9);
      fOut := Zeros(height, width, 9);
      rho := Filled(height, width, 1.0);
      ux := Filled(height, width, 0.0);
      uy := Filled(height, width, 0.0);
      totalMass := 0.0;
      new;
      InitializeDensity(boundaryCondition);
      totalMass := PlaneTotal(rho);
    }

    /** Imposes the regime's initial edge values, then puts every cell at equilibrium. */
    method InitializeDensity(bc: Regime)
      requires Shaped() && InitializeDensityDefined(bc, height, width)
      modifies this
      ensures Shaped()
      ensures rho == InitialRho(old(rho), bc, height, width)
      ensures ux == InitialUx(old(ux), bc, height, width)
      ensures uy == InitialUy(old(uy), bc, height, width)
      ensures fIn == EquilibriumField(rho, ux, uy, height, width)
      ensures fEq == old(fEq) && fOut == old(fOut) && totalMass == old(totalMass)
    {
      if bc == Constant {
        ux, uy := ImposeConstantProfile(ux, uy, height, width);
      } else if bc == Custom {
        var u, v := ImposeRamp(ux, uy, false, height, width);
        var r;
        r, u, v := ImposeRestRight(rho, u, v, height, width);
        PlaneExtensionality(u, InitialUx(ux, bc, height, width), height, width);
        PlaneExtensionality(v, InitialUy(uy, bc, height, width), height, width);
        rho, ux, uy := r, u, v;
      }
      fIn := FillEquilibrium(fIn, rho, ux, uy, height, width);
    }

    /** Density, clipped velocity where the density is positive, as in `lab_10`. */
    method ComputeMacroscopic()
      requires Valid()
      modifies this
      ensures Valid()
      ensures rho == Density(old(fIn), height, width)
      ensures ux == Velocity(old(fIn), old(ux), X, maxSpeed, height, width)
      ensures uy == Velocity(old(fIn), old(uy), Y, maxSpeed, height, width)
      ensures fIn == old(fIn) && fEq == old(fEq) && fOut == old(fOut) && totalMass == old(totalMass)
    {
      rho := Density(fIn, height, width);
      ux := Velocity(fIn, ux, X, maxSpeed, height, width);
      uy := Velocity(fIn, uy, Y, maxSpeed, height, width);
    }

    method Collide()
      requires Valid()
      modifies this
      ensures Valid()
      ensures fEq == EquilibriumField(rho, ux, uy, height, width)
      ensures fOut == Relax(fIn, fEq, tau, height, width, 9)
      ensures fIn == old(fIn) && rho == old(rho) && ux == old(ux) && uy == old(uy) && totalMass == old(totalMass)
    {
      fEq := FillEquilibrium(fEq, rho, ux, uy, height, width);
      fOut := Relax(fIn, fEq, tau, height, width, 9);
    }

    /** `fOut` streamed through the wall mask, before any edge rule. */
    ghost function StreamedOut(): (s: Field)
      reads this
      requires Valid()
      ensures IsField(s, height, width, 9)
    {
      Streamed(fOut, wallMask, XYLattice(), height, width)
    }

    /**
     * Streams `fOut` into `fIn` with bounce-back at the walls and grid
     * edges, then applies the regime's edge rules (which do not skip wall
     * cells).
     */
    method Stream(bc: Regime)
      requires Valid() && (bc != BounceBack ==> height > 0 && width > 0)
      requires bc == Custom ==> OutflowDefined(StreamedOut(), height, width)
      modifies this
      ensures Valid()
      ensures bc == BounceBack ==> fIn == old(StreamedOut())
      ensures bc == Constant ==> fIn == ConstantEdges(old(StreamedOut()), rho, ux, uy, NoGuard(height, width), height, width)
      ensures bc != Custom ==> rho == old(rho) && ux == old(ux) && uy == old(uy)
      ensures bc == Custom ==> var s := old(StreamedOut());
        fIn == CustomEdges(s, old(rho), old(ux), old(uy), height, width) &&
        rho == OutflowRho(old(rho), height, width) && ux == OutflowUx(old(ux), s, height, width) &&
        uy == OutflowUy(old(uy), s, height, width)
      ensures bc == BounceBack ==> GridTotal(fIn) == FluidTotal(old(fOut), wallMask)
      ensures fEq == old(fEq) && fOut == old(fOut) && totalMass == old(totalMass)
    {
      var s := StreamField(fOut, wallMask, XYLattice(), height, width);
      var f, r, u, v := ApplyEdges(bc, s, rho, ux, uy, height, width);
      SetFlow(f, r, u, v);
    }

    /** Stores new populations and macroscopic planes of the grid's shape. */
    method SetFlow(f: Field, r: Plane, u: Plane, v: Plane)
      requires Valid() && IsField(f, height, width, 9) && IsPlane(r, height, width) && IsPlane(u, height, width) && IsPlane(v, height, width)
      modifies this
      ensures Valid()
      ensures fIn == f && rho == r && ux == u && uy == v
      ensures fEq == old(fEq) && fOut == old(fOut) && totalMass == old(totalMass)
    {
      fIn, rho, ux, uy := f, r, u, v;
    }

    /** The density and clipped velocities `compute_macroscopic` derives from `fIn`. */
    ghost function Moments(): (m: (Plane, Plane, Plane))
      reads this
      requires Valid()
      ensures IsPlane(m.0, height, width) && IsPlane(m.1, height, width) && IsPlane(m.2, height, width)
    {
      (Density(fIn, height, width), Velocity(fIn, ux, X, maxSpeed, height, width), Velocity(fIn, uy, Y, maxSpeed, height, width))
    }

    /** The populations a step streams: `fIn` after its macroscopic values and collision. */
    ghost function Collided(): (f: Field)
      reads this
      requires Valid()
      ensures IsField(f, height, width, 9)
    {
      var m := Moments();
      Relax(fIn, EquilibriumField(m.0, m.1, m.2, height, width), tau, height, width, 9)
    }

    /**
     * The state `step` leaves from populations `f0` and velocities `ux0`,
     * `uy0`: `compute_macroscopic` gives the density and clipped velocities
     * of `f0`, `collide` sets `fEq` to their equilibrium and `fOut` to `f0`
     * relaxed towards it, and `stream` moves `fOut` and applies the edge
     * rules of regime `bc` to those planes.
     */
    ghost predicate SteppedFrom(bc: Regime, f0: Field, ux0: Plane, uy0: Plane)
      reads this
    {
      Valid() && IsField(f0, height, width, 9) && IsPlane(ux0, height, width) && IsPlane(uy0, height, width) &&
      (bc != BounceBack ==> height > 0 && width > 0) &&
      var d := Density(f0, height, width);
      var u := Velocity(f0, ux0, X, maxSpeed, height, width);
      var v := Velocity(f0, uy0, Y, maxSpeed, height, width);
      fEq == EquilibriumField(d, u, v, height, width) && fOut == Relax(f0, fEq, tau, height, width, 9) &&
      EdgesApplied(bc, Streamed(fOut, wallMask, XYLattice(), height, width), d, u, v, fIn, rho, ux, uy, height, width)
    }

    /**
     * One time step: macroscopic values, collision, streaming.  Collision
     * keeps the total mass; in the bounce-back regime, when the walls start
     * empty, so does the whole step, and the walls stay empty.
     */
    method Step(bc: Regime)
      requires Valid() && (bc != BounceBack ==> height > 0 && width > 0)
      requires bc == Custom ==> OutflowDefined(Streamed(Collided(), wallMask, XYLattice(), height, width), height, width)
      modifies this
      ensures Valid()
      ensures fOut == old(Collided())
      ensures SteppedFrom(bc, old(fIn), old(ux), old(uy))
      ensures GridTotal(fOut) == old(GridTotal(fIn))
      ensures bc != Custom ==> rho == Density(old(fIn), height, width) && PlaneTotal(rho) == old(GridTotal(fIn))
      ensures bc == BounceBack ==> fIn == Streamed(fOut, wallMask, XYLattice(), height, width)
      ensures bc == BounceBack ==> GridTotal(fIn) == FluidTotal(fOut, wallMask)
      ensures bc == BounceBack && old(WallsEmpty(fIn, wallMask, height, width, 9)) ==>
        GridTotal(fIn) == old(GridTotal(fIn)) && WallsEmpty(fIn, wallMask, height, width, 9)
      ensures totalMass == old(totalMass)
    {
      ghost var f0 := fIn;
      ComputeMacroscopic();
      Collide();
      CollisionConservesMass(f0, ux, uy, tau, height, width);
      DensityTotal(f0, height, width);
      if bc == BounceBack && WallsEmpty(f0, wallMask, height, width, 9) {
        CollisionKeepsWallsEmpty(f0, ux, uy, tau, wallMask, height, width);
        FluidTotalOfWallsEmpty(fOut, wallMask, height, width, 9);
      }
      Stream(bc);
      if bc == BounceBack {
        StreamedWallsEmpty(fOut, wallMask, XYLattice(), height, width);
      }
    }
  }
}
