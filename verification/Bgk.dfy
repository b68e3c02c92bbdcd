/**
 * The BGK collision of the D2Q9 solvers: the equilibrium polynomial
 * (`equilibrium` in `lab_10/lbm_logic.py` and `lab_09/lbm_logic.py`) and the
 * relaxation `f_in + (f_eq - f_in) / tau` (`collide_optimized`).
 */
module Bgk {
  import opened Grids
  import opened D2Q9

  /** The bracket of the equilibrium polynomial, for c.u = `cu` and |u|^2 = `usq`. */
  function Bracket(cu: real, usq: real): real
  {
    1.0 + 3.0 * cu + 4.5 * cu * cu - 1.5 * usq
  }

  /**
   * Equilibrium populations of a cell with density `rho` and velocity
   * (ux, uy): w_k rho (1 + 3 c.u + 4.5 (c.u)^2 - 1.5 |u|^2).
   */
  function Equilibrium(rho: real, ux: real, uy: real): (feq: seq<real>)
    ensures |feq| == 9
  {
    seq(9, k requires 0 <= k < 9 => Weights[k] * rho * Bracket(Cx(k) * ux + Cy(k) * uy, ux * ux + uy * uy))
  }

  /** The equilibrium of unit density: `Equilibrium` without the factor `rho`. */
  ghost function Shape(ux: real, uy: real): (s: seq<real>)
    ensures |s| == 9
  {
    seq(9, k requires 0 <= k < 9 => Weights[k] * Bracket(Cx(k) * ux + Cy(k) * uy, ux * ux + uy * uy))
  }

  lemma EquilibriumIsScaledShape(rho: real, ux: real, uy: real)
    ensures forall k :: 0 <= k < 9 ==> Equilibrium(rho, ux, uy)[k] == rho * Shape(ux, uy)[k]
  {
  }

  lemma MulDistributes(r: real, a: real, b: real)
    ensures r * a + r * b == r * (a + b)
  {
  }

  /** Scaling every entry scales the sum. */
  lemma {:induction false} SumScale(s: seq<real>, t: seq<real>, r: real)
    requires |s| == |t| && forall k :: 0 <= k < |s| ==> s[k] == r * t[k]
    ensures Sum(s) == r * Sum(t)
  {
    var n := |s|;
    if n > 0 {
      SumScale(s[..n - 1], t[..n - 1], r);
      MulDistributes(r, Sum(t[..n - 1]), t[n - 1]);
    }
  }

  /** Scaling every entry scales both momenta. */
  lemma MomentScale(s: seq<real>, t: seq<real>, r: real)
    requires |s| == 9 && |t| == 9 && forall k :: 0 <= k < 9 ==> s[k] == r * t[k]
    ensures MomentX(s) == r * MomentX(t) && MomentY(s) == r * MomentY(t)
  {
    assert MomentX(s) == r * t[1] - r * t[2] + r * t[5] - r * t[6] - r * t[7] + r * t[8];
    assert MomentY(s) == r * t[3] - r * t[4] + r * t[5] + r * t[6] - r * t[7] - r * t[8];
  }

  /** Scaling a cell of momentum (mx, my) by r gives momentum (r mx, r my). */
  lemma ScaledMoments(s: seq<real>, t: seq<real>, r: real, mx: real, my: real)
    requires |s| == 9 && |t| == 9 && forall k :: 0 <= k < 9 ==> s[k] == r * t[k]
    requires MomentX(t) == mx && MomentY(t) == my
    ensures MomentX(s) == r * mx && MomentY(s) == r * my
  {
    MomentScale(s, t, r);
  }

  /** Dividing r a by r gives back a. */
  lemma CancelFactor(r: real, a: real, b: real)
    requires r != 0.0 && b == r * a
    ensures b / r == a
  {
  }

  /** The nine entries of `Shape`, with c.u written out for each direction. */
  lemma ShapeEntries(ux: real, uy: real)
    ensures var s, usq := Shape(ux, uy), ux * ux + uy * uy;
      s[0] == 4.0 / 9.0 * Bracket(0.0, usq) &&
      s[1] == 1.0 / 9.0 * Bracket(ux, usq) && s[2] == 1.0 / 9.0 * Bracket(-ux, usq) &&
      s[3] == 1.0 / 9.0 * Bracket(uy, usq) && s[4] == 1.0 / 9.0 * Bracket(-uy, usq) &&
      s[5] == 1.0 / 36.0 * Bracket(ux + uy, usq) && s[7] == 1.0 / 36.0 * Bracket(-(ux + uy), usq) &&
      s[6] == 1.0 / 36.0 * Bracket(uy - ux, usq) && s[8] == 1.0 / 36.0 * Bracket(-(uy - ux), usq)
  {
    ShapeAxisEntries(ux, uy);
    ShapeDiagonalEntries(ux, uy);
  }

  lemma ShapeAxisEntries(ux: real, uy: real)
    ensures var s, usq := Shape(ux, uy), ux * ux + uy * uy;
      s[0] == 4.0 / 9.0 * Bracket(0.0, usq) &&
      s[1] == 1.0 / 9.0 * Bracket(ux, usq) && s[2] == 1.0 / 9.0 * Bracket(-ux, usq) &&
      s[3] == 1.0 / 9.0 * Bracket(uy, usq) && s[4] == 1.0 / 9.0 * Bracket(-uy, usq)
  {
    assert Cx(0) * ux + Cy(0) * uy == 0.0;
    assert Cx(1) * ux + Cy(1) * uy == ux;
    assert Cx(2) * ux + Cy(2) * uy == -ux;
    assert Cx(3) * ux + Cy(3) * uy == uy;
    assert Cx(4) * ux + Cy(4) * uy == -uy;
  }

  lemma ShapeDiagonalEntries(ux: real, uy: real)
    ensures var s, usq := Shape(ux, uy), ux * ux + uy * uy;
      s[5] == 1.0 / 36.0 * Bracket(ux + uy, usq) && s[7] == 1.0 / 36.0 * Bracket(-(ux + uy), usq) &&
      s[6] == 1.0 / 36.0 * Bracket(uy - ux, usq) && s[8] == 1.0 / 36.0 * Bracket(-(uy - ux), usq)
  {
    assert Cx(5) * ux + Cy(5) * uy == ux + uy;
    assert Cx(6) * ux + Cy(6) * uy == uy - ux;
    assert Cx(7) * ux + Cy(7) * uy == -(ux + uy);
    assert Cx(8) * ux + Cy(8) * uy == -(uy - ux);
  }

  lemma BracketPair(c: real, usq: real)
    ensures Bracket(c, usq) + Bracket(-c, usq) == 2.0 + 9.0 * c * c - 3.0 * usq
    ensures Bracket(c, usq) - Bracket(-c, usq) == 6.0 * c
  {
  }

  lemma DiagonalSquares(ux: real, uy: real)
    ensures (ux + uy) * (ux + uy) + (uy - ux) * (uy - ux) == 2.0 * (ux * ux + uy * uy)
  {
  }

  /** The unit-density equilibrium has mass one and momentum (ux, uy). */
  lemma ShapeMoments(ux: real, uy: real)
    ensures Sum(Shape(ux, uy)) == 1.0
    ensures MomentX(Shape(ux, uy)) == ux && MomentY(Shape(ux, uy)) == uy
  {
    var s, usq := Shape(ux, uy), ux * ux + uy * uy;
    SumIsSum9(s);
    ShapeEntries(ux, uy);
    BracketPair(ux, usq);
    BracketPair(uy, usq);
    BracketPair(ux + uy, usq);
    BracketPair(uy - ux, usq);
    DiagonalSquares(ux, uy);
    assert Bracket(0.0, usq) == 1.0 - 1.5 * usq;
  }

  /** At rest every equilibrium population is its weight times the density. */
  lemma EquilibriumAtRest(rho: real)
    ensures forall k :: 0 <= k < 9 ==> Equilibrium(rho, 0.0, 0.0)[k] == Weights[k] * rho
  {
    forall k | 0 <= k < 9 ensures Equilibrium(rho, 0.0, 0.0)[k] == Weights[k] * rho {
      assert Cx(k) * 0.0 + Cy(k) * 0.0 == 0.0;
      assert Bracket(0.0, 0.0 * 0.0 + 0.0 * 0.0) == 1.0;
    }
  }

  /** The equilibrium populations carry exactly the density `rho`. */
  lemma EquilibriumMass(rho: real, ux: real, uy: real)
    ensures Sum(Equilibrium(rho, ux, uy)) == rho
  {
    EquilibriumIsScaledShape(rho, ux, uy);
    SumScale(Equilibrium(rho, ux, uy), Shape(ux, uy), rho);
    ShapeMoments(ux, uy);
  }

  /** The equilibrium populations carry exactly the momentum (rho ux, rho uy). */
  lemma EquilibriumMomentum(rho: real, ux: real, uy: real)
    ensures MomentX(Equilibrium(rho, ux, uy)) == rho * ux
    ensures MomentY(Equilibrium(rho, ux, uy)) == rho * uy
  {
    EquilibriumIsScaledShape(rho, ux, uy);
    ShapeMoments(ux, uy);
    ScaledMoments(Equilibrium(rho, ux, uy), Shape(ux, uy), rho, ux, uy);
  }

  /**
   * Reading the density and velocity back from an equilibrium cell, as
   * `compute_macroscopic` does, recovers the values it was built from.
   */
  lemma EquilibriumRoundTrip(rho: real, ux: real, uy: real)
    requires rho != 0.0
    ensures var f := Equilibrium(rho, ux, uy);
      Sum(f) == rho && MomentX(f) / Sum(f) == ux && MomentY(f) / Sum(f) == uy
  {
    var f := Equilibrium(rho, ux, uy);
    EquilibriumMass(rho, ux, uy);
    EquilibriumMomentum(rho, ux, uy);
    CancelFactor(rho, ux, MomentX(f));
    CancelFactor(rho, uy, MomentY(f));
  }

  /** One cell of `collide_optimized`: every population relaxes towards equilibrium. */
  function RelaxCell(fin: seq<real>, feq: seq<real>, tau: real): (fout: seq<real>)
    requires |feq| == |fin| && tau != 0.0
    ensures |fout| == |fin|
    ensures forall k :: 0 <= k < |fin| ==> fout[k] - feq[k] == (1.0 - 1.0 / tau) * (fin[k] - feq[k])
  {
    seq(|fin|, k requires 0 <= k < |fin| => fin[k] + (feq[k] - fin[k]) / tau)
  }

  lemma DivAdd(a: real, b: real, c: real, d: real, tau: real)
    requires tau != 0.0
    ensures (a - b) / tau + (c - d) / tau == ((a + c) - (b + d)) / tau
  {
  }

  /** The relaxed cell moves the cell sum the same fraction 1/tau of the way to the equilibrium sum. */
  lemma {:induction false} RelaxCellSum(fin: seq<real>, feq: seq<real>, tau: real)
    requires |feq| == |fin| && tau != 0.0
    ensures Sum(RelaxCell(fin, feq, tau)) == Sum(fin) + (Sum(feq) - Sum(fin)) / tau
  {
    var n := |fin|;
    if n > 0 {
      RelaxCellSum(fin[..n - 1], feq[..n - 1], tau);
      assert RelaxCell(fin, feq, tau)[..n - 1] == RelaxCell(fin[..n - 1], feq[..n - 1], tau);
      DivAdd(Sum(feq[..n - 1]), Sum(fin[..n - 1]), feq[n - 1], fin[n - 1], tau);
    }
  }

  /**
   * Collision conserves the mass of a cell when the equilibrium is built from
   * that cell's own density.
   */
  lemma CollisionConservesCellMass(fin: seq<real>, ux: real, uy: real, tau: real)
    requires |fin| == 9 && tau != 0.0
    ensures Sum(RelaxCell(fin, Equilibrium(Sum(fin), ux, uy), tau)) == Sum(fin)
  {
    EquilibriumMass(Sum(fin), ux, uy);
    RelaxCellKeepsSum(fin, Equilibrium(Sum(fin), ux, uy), tau);
  }

  /** Relaxing towards a cell of the same sum keeps the sum. */
  lemma RelaxCellKeepsSum(fin: seq<real>, feq: seq<real>, tau: real)
    requires |feq| == |fin| && tau != 0.0 && Sum(feq) == Sum(fin)
    ensures Sum(RelaxCell(fin, feq, tau)) == Sum(fin)
  {
    RelaxCellSum(fin, feq, tau);
    assert (Sum(feq) - Sum(fin)) / tau == 0.0;
  }

  /**
   * `collide_optimized` on whole buffers.  With tau = 1 the result is the
   * equilibrium; a buffer already at equilibrium is left as it is.
   */
  function Relax(fin: Field, feq: Field, tau: real, h: nat, w: nat, q: nat): (fout: Field)
    requires IsField(fin, h, w, q) && IsField(feq, h, w, q) && tau != 0.0
    ensures IsField(fout, h, w, q)
    ensures forall a, b :: 0 <= a < h && 0 <= b < w ==> fout[a][b] == RelaxCell(fin[a][b], feq[a][b], tau)
    ensures tau == 1.0 ==> fout == feq
    ensures fin == feq ==> fout == fin
  {
    var r := seq(h, a requires 0 <= a < h => seq(w, b requires 0 <= b < w => RelaxCell(fin[a][b], feq[a][b], tau)));
    if tau == 1.0 then
      FieldExtensionality(r, feq, h, w, q);
      r
    else if fin == feq then
      FieldExtensionality(r, fin, h, w, q);
      r
    else r
  }
}
