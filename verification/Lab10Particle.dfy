/**
 * Passive tracer particles of `lab_10/particle.py`.  The random mass and
 * colour drawn when none is given are parameters (`drawnMass`,
 * `drawnColor`).
 */
module Lab10Particle {
  import opened Grids

  datatype Color = Color(r: int, g: int, b: int)

  /**
   * Python's truthiness of the optional mass argument: None and 0 are falsy.
   */
  predicate MassGiven(mass: Option<real>)
  {
    mass.Some? && mass.value != 0.0
  }

  class Particle {
    var x: real
    var y: real
    const mass: real
    const color: Color
    /** Every position the particle has been at, oldest first. */
    var path: seq<(real, real)>

    /** The path is never empty and always ends at the current position. */
    ghost predicate AtPathEnd()
      reads this
    {
      |path| > 0 && path[|path| - 1] == (x, y)
    }

    /**
     * A particle at (x, y) whose path is just that point.  A falsy `mass`
     * (None or 0) is replaced by the draw from `massRange`, a missing colour
     * by the drawn colour.
     */
    constructor (x: real, y: real, mass: Option<real>, color: Option<Color>, massRange: (real, real),
                 drawnMass: real, drawnColor: Color)
      requires !MassGiven(mass) ==> massRange.0 <= drawnMass <= massRange.1
      requires color.None? ==> 0 <= drawnColor.r <= 255 && 0 <= drawnColor.g <= 255 && 0 <= drawnColor.b <= 255
      ensures this.x == x && this.y == y && path == [(x, y)] && AtPathEnd()
      ensures this.mass == if MassGiven(mass) then mass.value else drawnMass
      ensures this.color == if color.Some? then color.value else drawnColor
    {
      this.x := x;
      this.y := y;
      this.mass := if MassGiven(mass) then mass.value else drawnMass;
      this.color := if color.Some? then color.value else drawnColor;
      path := [(x, y)];
    }

    /**
     * Moves by the local velocity scaled by velocityScale / mass and appends
     * the new position to the path; `dt` has no effect.
     */
    method UpdatePosition(ux: real, uy: real, dt: real, velocityScale: real)
      requires mass != 0.0
      modifies this
      ensures x == old(x) + ux * velocityScale / mass
      ensures y == old(y) + uy * velocityScale / mass
      ensures path == old(path) + [(x, y)] && AtPathEnd()
    {
      x := x + ux * velocityScale / mass;
      y := y + uy * velocityScale / mass;
      path := path + [(x, y)];
    }
  }

  /** Python's `int()` on a float: truncation toward zero. */
  function Trunc(r: real): (t: int)
    ensures r >= 0.0 ==> t as real <= r < t as real + 1.0
    ensures r < 0.0 ==> t as real - 1.0 < r <= t as real
  {
    if r >= 0.0 then r.Floor else -((-r).Floor)
  }

  /**
   * Truncation differs from the floor below zero: a particle slightly left of
   * the grid (x = -0.5) truncates to column 0 and so still counts as inside.
   */
  lemma TruncOfSmallNegative()
    ensures Trunc(-0.5) == 0 && (-0.5).Floor == -1
  {
  }
}
