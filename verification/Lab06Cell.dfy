/**
 * One cell of the lattice-gas automaton of `lab_06/LGA_Cell.py`: four
 * occupation numbers, one per direction in the order up, right, down, left,
 * for the particles that arrived (`input`) and the particles about to leave
 * (`output`).  The occupation numbers are the integers 0 and 1; they are
 * held here as the reals 0.0 and 1.0, so that the streaming and the exact
 * totals of the shared grid modules apply to them unchanged.
 */
module Lab06Cell {
  import opened Grids

  /** Every entry is 0 or 1. */
  predicate IsBits(c: seq<real>)
  {
    forall k :: 0 <= k < |c| ==> c[k] == 0.0 || c[k] == 1.0
  }

  /** The empty cell. */
  function Empty(): (c: seq<real>)
    ensures |c| == 4 && IsBits(c) && Sum(c) == 0.0
  {
    SumOfZeros(4);
    seq(4, _ => 0.0)
  }

  /**
   * The head-on collision rule of `collide`: a lone up-down pair leaves as a
   * right-left pair and a lone right-left pair as an up-down pair; every
   * other occupation leaves unchanged.
   */
  function Collision(c: seq<real>): (d: seq<real>)
    requires |c| == 4
    ensures |d| == 4
  {
    if c[0] == 1.0 && c[2] == 1.0 && c[1] == 0.0 && c[3] == 0.0 then [0.0, 1.0, 0.0, 1.0]
    else if c[1] == 1.0 && c[3] == 1.0 && c[0] == 0.0 && c[2] == 0.0 then [1.0, 0.0, 1.0, 0.0]
    else c
  }

  /** The whole table of the rule: the two head-on pairs swap, everything else is kept. */
  lemma CollisionTable(c: seq<real>)
    requires |c| == 4
    ensures c == [1.0, 0.0, 1.0, 0.0] <==> Collision(c) == [0.0, 1.0, 0.0, 1.0] && c != Collision(c)
    ensures c == [0.0, 1.0, 0.0, 1.0] <==> Collision(c) == [1.0, 0.0, 1.0, 0.0] && c != Collision(c)
    ensures c != [1.0, 0.0, 1.0, 0.0] && c != [0.0, 1.0, 0.0, 1.0] ==> Collision(c) == c
  {
    if c[0] == 1.0 && c[2] == 1.0 && c[1] == 0.0 && c[3] == 0.0 {
      assert c == [1.0, 0.0, 1.0, 0.0];
    } else if c[1] == 1.0 && c[3] == 1.0 && c[0] == 0.0 && c[2] == 0.0 {
      assert c == [0.0, 1.0, 0.0, 1.0];
    }
  }

  /** The number of particles in a cell of four. */
  lemma SumOfFour(c: seq<real>)
    requires |c| == 4
    ensures Sum(c) == c[0] + c[1] + c[2] + c[3]
  {
    assert c[..3][..2][..1][..0] == [];
    assert Sum(c[..3][..2][..1]) == c[0];
    assert Sum(c[..3][..2]) == c[0] + c[1];
    assert Sum(c[..3]) == c[0] + c[1] + c[2];
  }

  /** Colliding keeps the number of particles in the cell. */
  lemma CollisionKeepsCount(c: seq<real>)
    requires |c| == 4
    ensures Sum(Collision(c)) == Sum(c)
  {
    SumOfFour(c);
    SumOfFour(Collision(c));
  }

  /**
   * Colliding keeps the cell's momentum: the net horizontal flow
   * (right minus left) and the net vertical flow (up minus down).
   */
  lemma CollisionKeepsMomentum(c: seq<real>)
    requires |c| == 4
    ensures var d := Collision(c); d[1] - d[3] == c[1] - c[3] && d[0] - d[2] == c[0] - c[2]
  {
  }

  /** The rule undoes itself: applied twice it gives back the cell. */
  lemma CollisionIsInvolution(c: seq<real>)
    requires |c| == 4
    ensures Collision(Collision(c)) == c
  {
    CollisionTable(c);
  }

  /** A 0/1 cell collides into a 0/1 cell, and an empty cell stays empty. */
  lemma CollisionKeepsBits(c: seq<real>)
    requires |c| == 4
    ensures IsBits(c) ==> IsBits(Collision(c))
    ensures c == Empty() ==> Collision(c) == Empty()
  {
  }

  /** The occupation `initialize` draws: a slot is filled exactly when its draw is below the density. */
  function Occupation(draws: seq<real>, density: real): (c: seq<real>)
    ensures |c| == |draws| && IsBits(c)
    ensures forall k :: 0 <= k < |c| ==> (c[k] == 1.0 <==> draws[k] < density)
  {
    seq(|draws|, k requires 0 <= k < |draws| => if draws[k] < density then 1.0 else 0.0)
  }

  class Cell {
    var input: seq<real>
    var output: seq<real>

    ghost predicate Valid()
      reads this
    {
      |input| == 4 && |output| == 4
    }

    /** A new cell is empty on both sides. */
    constructor ()
      ensures Valid() && input == Empty() && output == Empty()
    {
      input := Empty();
      output := Empty();
    }

    /**
     * Fills the arriving slots at random.  `draws` are the four values of
     * `np.random.rand()`, one per slot, in order.
     */
    method Initialize(density: real, draws: seq<real>)
      requires Valid() && |draws| == 4
      modifies this
      ensures Valid() && IsBits(input) && output == old(output)
      ensures input == Occupation(draws, density)
    {
      input := Occupation(draws, density);
    }

    /**
     * Sets the leaving slots from the arriving ones by the head-on rule;
     * the arriving slots and the particle count are kept.
     */
    method Collide()
      requires Valid()
      modifies this
      ensures Valid() && input == old(input)
      ensures output == Collision(input)
      ensures Sum(output) == Sum(input)
    {
      output := input;
      if input[0] == 1.0 && input[2] == 1.0 && input[1] == 0.0 && input[3] == 0.0 {
        output := output[0 := 0.0][2 := 0.0];
        output := output[1 := 1.0][3 := 1.0];
      } else if input[1] == 1.0 && input[3] == 1.0 && input[0] == 0.0 && input[2] == 0.0 {
        output := output[1 := 0.0][3 := 0.0];
        output := output[0 := 1.0][2 := 1.0];
      } else {
        output := input;
      }
      assert output == Collision(input);
      CollisionKeepsCount(input);
    }
  }
}
