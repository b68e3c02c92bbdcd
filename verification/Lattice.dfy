/**
 * Geometry of streaming with bounce-back, independent of what the populations are.
 *
 * A lattice gives, for every direction k, the row offset `di[k]` and column
 * offset `dj[k]` by which a population of direction k moves, and the opposite
 * direction `opp[k]` that a blocked population is reflected into.  A move out
 * of an open cell (i, j) in direction k lands in slot (i + di[k], j + dj[k], k)
 * when that cell is open (on the grid and not a wall); otherwise it is
 * reflected into slot (i, j, opp[k]) of its own cell.
 *
 * The central fact, proved here once for every lattice whose opposite table is
 * an involution reversing the offsets, is that this map from (open cell,
 * direction) to slot is a bijection onto the slots of open cells: every slot of
 * the fresh buffer is written exactly once.
 */
module Lattice {
  import opened Grids

  datatype Lattice = Lattice(di: seq<int>, dj: seq<int>, opp: seq<nat>)
  {
    /** Number of directions. */
    function Q(): nat { |opp| }
  }

  /** A position (row i, column j, direction k) of a population buffer. */
  datatype Slot = Slot(i: int, j: int, k: int)

  /** The opposite table is an involution that reverses the offsets. */
  ghost predicate WellFormed(l: Lattice)
  {
    |l.di| == |l.opp| && |l.dj| == |l.opp| &&
    forall k :: 0 <= k < |l.opp| ==>
      l.opp[k] < |l.opp| && l.opp[l.opp[k]] == k &&
      l.di[l.opp[k]] == -l.di[k] && l.dj[l.opp[k]] == -l.dj[k]
  }

  /** Cell (i, j) is on the grid and not a wall. */
  predicate Open(mask: Mask, i: int, j: int)
  {
    0 <= i < |mask| && 0 <= j < |mask[i]| && !mask[i][j]
  }

  /** Where the population of direction k of cell (i, j) is written. */
  function Target(l: Lattice, mask: Mask, i: int, j: int, k: nat): Slot
    requires WellFormed(l) && k < l.Q()
  {
    var ni, nj := i + l.di[k], j + l.dj[k];
    if Open(mask, ni, nj) then Slot(ni, nj, k) else Slot(i, j, l.opp[k])
  }

  /** The (cell, direction) whose population is written into slot (a, b, c). */
  function Writer(l: Lattice, mask: Mask, a: int, b: int, c: nat): Slot
    requires WellFormed(l) && c < l.Q()
  {
    var si, sj := a - l.di[c], b - l.dj[c];
    if Open(mask, si, sj) then Slot(si, sj, c) else Slot(a, b, l.opp[c])
  }

  /** Lexicographic (row, column, direction) order: the order of the streaming loops. */
  predicate Precedes(s: Slot, t: Slot)
  {
    s.i < t.i || (s.i == t.i && (s.j < t.j || (s.j == t.j && s.k < t.k)))
  }

  /** The slot a move writes is attributed back to that very move. */
  lemma WriterOfTarget(l: Lattice, mask: Mask, i: int, j: int, k: nat)
    requires WellFormed(l) && k < l.Q() && Open(mask, i, j)
    ensures var t := Target(l, mask, i, j, k);
      t.k >= 0 && t.k < l.Q() && Open(mask, t.i, t.j) && Writer(l, mask, t.i, t.j, t.k) == Slot(i, j, k)
  {
  }

  /**
   * Every slot of an open cell has a writer, which is an open cell and a valid
   * direction, and that writer's move lands exactly in the slot.
   */
  lemma TargetOfWriter(l: Lattice, mask: Mask, a: int, b: int, c: nat)
    requires WellFormed(l) && c < l.Q() && Open(mask, a, b)
    ensures var s := Writer(l, mask, a, b, c);
      0 <= s.k < l.Q() && Open(mask, s.i, s.j) && Target(l, mask, s.i, s.j, s.k) == Slot(a, b, c)
  {
    var si, sj := a - l.di[c], b - l.dj[c];
    if !Open(mask, si, sj) {
      var o := l.opp[c];
      assert a + l.di[o] == si && b + l.dj[o] == sj;
    }
  }

  /**
   * Streaming writes each slot at most once: two moves out of open cells that
   * land in the same slot are the same move.
   */
  lemma TargetInjective(l: Lattice, mask: Mask, i: int, j: int, k: nat, i': int, j': int, k': nat)
    requires WellFormed(l) && k < l.Q() && k' < l.Q() && Open(mask, i, j) && Open(mask, i', j')
    requires Target(l, mask, i, j, k) == Target(l, mask, i', j', k')
    ensures i == i' && j == j' && k == k'
  {
    WriterOfTarget(l, mask, i, j, k);
    WriterOfTarget(l, mask, i', j', k');
  }

  /** Streaming never writes into a wall cell or off the grid. */
  lemma TargetIsOpen(l: Lattice, mask: Mask, i: int, j: int, k: nat)
    requires WellFormed(l) && k < l.Q() && Open(mask, i, j)
    ensures Open(mask, Target(l, mask, i, j, k).i, Target(l, mask, i, j, k).j)
  {
  }

  /** Bounce-back: a move towards a wall or off the grid stays in its own cell, in the opposite slot. */
  lemma BlockedMoveReflects(l: Lattice, mask: Mask, i: int, j: int, k: nat)
    requires WellFormed(l) && k < l.Q()
    requires !Open(mask, i + l.di[k], j + l.dj[k])
    ensures Target(l, mask, i, j, k) == Slot(i, j, l.opp[k])
  {
  }

  /** A direction without displacement (the rest population) always stays in place. */
  lemma RestStaysInPlace(l: Lattice, mask: Mask, i: int, j: int, k: nat)
    requires WellFormed(l) && k < l.Q() && Open(mask, i, j)
    requires l.di[k] == 0 && l.dj[k] == 0
    ensures Target(l, mask, i, j, k) == Slot(i, j, k)
  {
  }
}
