/**
 * The D2Q9 lattice tables and grid constants of `lab_08/constants.py`, which
 * `lab_09` and `lab_10` use as well.
 *
 * Velocities are (x, y) pairs: direction 0 is at rest, 1-4 are the axis unit
 * steps, 5-8 the diagonals.
 */
module D2Q9 {
  import opened Grids
  import opened Lattice

  const CellDensity: real := 2.0
  const WallPosition: int := 4
  const HoleSize: int := 7

  const Weights: seq<real> :=
    [4.0 / 9.0, 1.0 / 9.0, 1.0 / 9.0, 1.0 / 9.0, 1.0 / 9.0, 1.0 / 36.0, 1.0 / 36.0, 1.0 / 36.0, 1.0 / 36.0]

  const Velocities: seq<(int, int)> :=
    [(0, 0), (1, 0), (-1, 0), (0, 1), (0, -1), (1, 1), (-1, 1), (-1, -1), (1, -1)]

  const Opposite: seq<nat> := [0, 2, 1, 4, 3, 7, 8, 5, 6]

  /** x component of direction k, as a real. */
  function Cx(k: nat): real requires k < 9 { Velocities[k].0 as real }

  /** y component of direction k, as a real. */
  function Cy(k: nat): real requires k < 9 { Velocities[k].1 as real }

  /** Sum of the nine entries of a population vector. */
  function Sum9(s: seq<real>): real requires |s| == 9
  {
    s[0] + s[1] + s[2] + s[3] + s[4] + s[5] + s[6] + s[7] + s[8]
  }

  lemma SumIsSum9(s: seq<real>)
    requires |s| == 9
    ensures Sum(s) == Sum9(s)
  {
    assert s[..1][..0] == [];
    assert Sum(s[..1]) == s[0];
    assert s[..2][..1] == s[..1];
    assert Sum(s[..2]) == s[0] + s[1];
    assert s[..3][..2] == s[..2];
    assert Sum(s[..3]) == s[0] + s[1] + s[2];
    assert s[..4][..3] == s[..3];
    assert Sum(s[..4]) == s[0] + s[1] + s[2] + s[3];
    assert s[..5][..4] == s[..4];
    assert Sum(s[..5]) == s[0] + s[1] + s[2] + s[3] + s[4];
    assert s[..6][..5] == s[..5];
    assert Sum(s[..6]) == s[0] + s[1] + s[2] + s[3] + s[4] + s[5];
    assert s[..7][..6] == s[..6];
    assert Sum(s[..7]) == s[0] + s[1] + s[2] + s[3] + s[4] + s[5] + s[6];
    assert s[..8][..7] == s[..7];
    assert Sum(s[..8]) == s[0] + s[1] + s[2] + s[3] + s[4] + s[5] + s[6] + s[7];
    assert s[..9] == s;
  }

  /** x momentum of a population vector: the sum of f[k] * c_kx (numpy `sum(f * vx)`). */
  function MomentX(f: seq<real>): real requires |f| == 9
  {
    f[0] * Cx(0) + f[1] * Cx(1) + f[2] * Cx(2) + f[3] * Cx(3) + f[4] * Cx(4)
    + f[5] * Cx(5) + f[6] * Cx(6) + f[7] * Cx(7) + f[8] * Cx(8)
  }

  /** y momentum of a population vector: the sum of f[k] * c_ky. */
  function MomentY(f: seq<real>): real requires |f| == 9
  {
    f[0] * Cy(0) + f[1] * Cy(1) + f[2] * Cy(2) + f[3] * Cy(3) + f[4] * Cy(4)
    + f[5] * Cy(5) + f[6] * Cy(6) + f[7] * Cy(7) + f[8] * Cy(8)
  }

  /** The weights sum to one: 4/9 at rest, 1/9 on the axes, 1/36 on the diagonals. */
  lemma WeightsSumToOne()
    ensures |Weights| == 9 && Sum(Weights) == 1.0
    ensures Weights[0] == 4.0 / 9.0
    ensures forall k :: 1 <= k <= 4 ==> Weights[k] == 1.0 / 9.0
    ensures forall k :: 5 <= k <= 8 ==> Weights[k] == 1.0 / 36.0
  {
    SumIsSum9(Weights);
  }

  /** The opposite table is an involution whose only fixed point is the rest direction. */
  lemma OppositeIsInvolution()
    ensures |Opposite| == 9
    ensures forall k :: 0 <= k < 9 ==> Opposite[k] < 9 && Opposite[Opposite[k]] == k
    ensures forall k :: 0 <= k < 9 ==> (Opposite[k] == k <==> k == 0)
  {
  }

  /** Opposite directions have opposite velocities and equal weights. */
  lemma OppositeReversesVelocity()
    ensures forall k :: 0 <= k < 9 ==>
      Velocities[Opposite[k]] == (-Velocities[k].0, -Velocities[k].1) && Weights[Opposite[k]] == Weights[k]
  {
  }

  /** Direction 0 is at rest, 1-4 are axis unit steps, 5-8 are diagonal steps. */
  lemma DirectionClasses()
    ensures |Velocities| == 9 && Velocities[0] == (0, 0)
    ensures forall k :: 1 <= k <= 4 ==>
      (Velocities[k].0 == 0 || Velocities[k].1 == 0) &&
      Velocities[k].0 * Velocities[k].0 + Velocities[k].1 * Velocities[k].1 == 1
    ensures forall k :: 5 <= k <= 8 ==>
      (Velocities[k].0 == 1 || Velocities[k].0 == -1) && (Velocities[k].1 == 1 || Velocities[k].1 == -1)
  {
  }

  /**
   * Isotropy of the weights: the first moments vanish and the second moments
   * are 1/3 on each axis with no cross term.
   */
  lemma WeightMoments()
    ensures MomentX(Weights) == 0.0 && MomentY(Weights) == 0.0
    ensures Sum9(seq(9, k requires 0 <= k < 9 => Weights[k] * Cx(k) * Cx(k))) == 1.0 / 3.0
    ensures Sum9(seq(9, k requires 0 <= k < 9 => Weights[k] * Cy(k) * Cy(k))) == 1.0 / 3.0
    ensures Sum9(seq(9, k requires 0 <= k < 9 => Weights[k] * Cx(k) * Cy(k))) == 0.0
  {
  }

  /**
   * Streaming offsets of `lab_10` and `lab_09`: a population of direction k
   * moves by (-c_ky) rows and (-c_kx) columns.
   */
  function XYLattice(): (l: Lattice)
    ensures WellFormed(l) && l.Q() == 9
  {
    Lattice(seq(9, k requires 0 <= k < 9 => -Velocities[k].1),
            seq(9, k requires 0 <= k < 9 => -Velocities[k].0),
            Opposite)
  }

  /**
   * Streaming offsets of `lab_08`: a population of direction k moves by
   * (-c_kx) rows and (-c_ky) columns, the axes taken the other way round.
   */
  function RowColLattice(): (l: Lattice)
    ensures WellFormed(l) && l.Q() == 9
  {
    Lattice(seq(9, k requires 0 <= k < 9 => -Velocities[k].0),
            seq(9, k requires 0 <= k < 9 => -Velocities[k].1),
            Opposite)
  }
}
