/**
 * The D2Q4 tables and grid constants of `lab_07/constants.py`, and the
 * streaming geometry hard-coded in `lab_07`'s `stream_optimized` (also used by
 * the lattice-gas automaton of `lab_06`).
 */
module D2Q4 {
  import opened Lattice

  const CellDensity: real := 1.0
  const WallPosition: int := 2
  const HoleSize: int := 3

  const Velocities: seq<(int, int)> := [(1, 0), (0, 1), (-1, 0), (0, -1)]

  const Opposite: seq<nat> := [2, 3, 0, 1]

  /**
   * The moves of the hard-coded streaming loop: direction 0 goes one row up
   * (i - 1), 1 one column right (j + 1), 2 one row down (i + 1), 3 one column
   * left (j - 1); a blocked move is reflected 0 <-> 2 and 1 <-> 3.
   */
  function StreamLattice(): (l: Lattice)
    ensures WellFormed(l) && l.Q() == 4
  {
    Lattice([-1, 0, 1, 0], [0, 1, 0, -1], [2, 3, 0, 1])
  }

  /** The opposite table is an involution without a fixed point. */
  lemma OppositeIsInvolution()
    ensures |Opposite| == 4
    ensures forall k :: 0 <= k < 4 ==> Opposite[k] < 4 && Opposite[Opposite[k]] == k && Opposite[k] != k
  {
  }

  /** Opposite directions have opposite velocities, and every velocity is an axis unit vector. */
  lemma VelocityTable()
    ensures |Velocities| == 4
    ensures forall k :: 0 <= k < 4 ==> Velocities[Opposite[k]] == (-Velocities[k].0, -Velocities[k].1)
    ensures forall k :: 0 <= k < 4 ==>
      (Velocities[k].0 == 0 || Velocities[k].1 == 0) &&
      Velocities[k].0 * Velocities[k].0 + Velocities[k].1 * Velocities[k].1 == 1
  {
  }

  /** The reflection pairs 0 <-> 2 and 1 <-> 3 of the streaming loop are the opposite table. */
  lemma StreamReflectionIsOpposite()
    ensures StreamLattice().opp == Opposite
  {
  }
}
