/**
 * Streaming of real-valued populations with bounce-back into a fresh buffer
 * (`stream_optimized` of the Lattice-Boltzmann labs).
 *
 * `Streamed` is the specification: the value every slot of the fresh buffer
 * ends up holding.  `StreamField` is the loop of the source, writing into a
 * zeroed buffer; it is proved to produce `Streamed` and, because every slot is
 * written at most once and starts at zero, to conserve the total over open
 * cells.
 */
module Streaming {
  import opened Grids
  import opened Lattice

  /** Value of slot (a, b, c) after streaming: zero in a wall, else what its writer moved there. */
  function Pull(f: Field, mask: Mask, l: Lattice, h: nat, w: nat, a: nat, b: nat, c: nat): real
    requires WellFormed(l) && IsField(f, h, w, l.Q()) && IsPlane(mask, h, w)
    requires a < h && b < w && c < l.Q()
  {
    if mask[a][b] then 0.0
    else
      var si, sj := a - l.di[c], b - l.dj[c];
      if Open(mask, si, sj) then f[si][sj][c] else f[a][b][l.opp[c]]
  }

  /** The buffer streaming produces from post-collision populations `f`. */
  function Streamed(f: Field, mask: Mask, l: Lattice, h: nat, w: nat): (g: Field)
    requires WellFormed(l) && IsField(f, h, w, l.Q()) && IsPlane(mask, h, w)
    ensures IsField(g, h, w, l.Q())
  {
    seq(h, a requires 0 <= a < h =>
      seq(w, b requires 0 <= b < w =>
        seq(l.Q(), c requires 0 <= c < l.Q() => Pull(f, mask, l, h, w, a, b, c))))
  }

  /** Contents of slot (a, b, c) once the loops have processed every move before `progress`. */
  ghost function Partial(f: Field, mask: Mask, l: Lattice, h: nat, w: nat, a: nat, b: nat, c: nat, progress: Slot): real
    requires WellFormed(l) && IsField(f, h, w, l.Q()) && IsPlane(mask, h, w)
    requires a < h && b < w && c < l.Q()
  {
    if !mask[a][b] && Precedes(Writer(l, mask, a, b, c), progress) then Pull(f, mask, l, h, w, a, b, c) else 0.0
  }

  ghost predicate PartialUpTo(g: Field, f: Field, mask: Mask, l: Lattice, h: nat, w: nat, progress: Slot)
    requires WellFormed(l) && IsField(f, h, w, l.Q()) && IsPlane(mask, h, w) && IsField(g, h, w, l.Q())
  {
    forall a, b, c :: 0 <= a < h && 0 <= b < w && 0 <= c < l.Q() ==>
      g[a][b][c] == Partial(f, mask, l, h, w, a, b, c, progress)
  }

  /** Moving the progress point past a stretch that contains no writer changes nothing. */
  lemma PartialSkip(f: Field, mask: Mask, l: Lattice, h: nat, w: nat, p: Slot, p': Slot)
    requires WellFormed(l) && IsField(f, h, w, l.Q()) && IsPlane(mask, h, w)
    requires forall a, b, c :: 0 <= a < h && 0 <= b < w && 0 <= c < l.Q() && !mask[a][b] ==>
      (Precedes(Writer(l, mask, a, b, c), p) <==> Precedes(Writer(l, mask, a, b, c), p'))
    ensures forall a, b, c :: 0 <= a < h && 0 <= b < w && 0 <= c < l.Q() ==>
      Partial(f, mask, l, h, w, a, b, c, p) == Partial(f, mask, l, h, w, a, b, c, p')
  {
  }

  /**
   * One move of the loop: the slot it writes still holds zero, receives the
   * moved population, and no other slot changes.
   */
  lemma WriteIntoEmptySlot(g: Field, f: Field, mask: Mask, l: Lattice, h: nat, w: nat, i: nat, j: nat, k: nat)
    requires WellFormed(l) && IsField(f, h, w, l.Q()) && IsPlane(mask, h, w) && IsField(g, h, w, l.Q())
    requires i < h && j < w && k < l.Q() && !mask[i][j]
    requires PartialUpTo(g, f, mask, l, h, w, Slot(i, j, k))
    ensures var t := Target(l, mask, i, j, k);
      0 <= t.i < h && 0 <= t.j < w && 0 <= t.k < l.Q() &&
      g[t.i][t.j][t.k] == 0.0 &&
      IsField(Set3(g, t.i, t.j, t.k, f[i][j][k]), h, w, l.Q()) &&
      PartialUpTo(Set3(g, t.i, t.j, t.k, f[i][j][k]), f, mask, l, h, w, Slot(i, j, k + 1)) &&
      GridTotal(Set3(g, t.i, t.j, t.k, f[i][j][k])) == GridTotal(g) + f[i][j][k]
  {
    var t := Target(l, mask, i, j, k);
    WriterOfTarget(l, mask, i, j, k);
    GridTotalSet3(g, t.i, t.j, t.k, f[i][j][k]);
    WriteKeepsPartial(g, f, mask, l, h, w, i, j, k);
  }

  /** The write of move (i, j, k) brings the buffer to the contents after that move. */
  lemma WriteKeepsPartial(g: Field, f: Field, mask: Mask, l: Lattice, h: nat, w: nat, i: nat, j: nat, k: nat)
    requires WellFormed(l) && IsField(f, h, w, l.Q()) && IsPlane(mask, h, w) && IsField(g, h, w, l.Q())
    requires i < h && j < w && k < l.Q() && !mask[i][j]
    requires PartialUpTo(g, f, mask, l, h, w, Slot(i, j, k))
    requires var t := Target(l, mask, i, j, k); 0 <= t.i < h && 0 <= t.j < w && 0 <= t.k < l.Q()
    ensures var t := Target(l, mask, i, j, k);
      IsField(Set3(g, t.i, t.j, t.k, f[i][j][k]), h, w, l.Q()) &&
      PartialUpTo(Set3(g, t.i, t.j, t.k, f[i][j][k]), f, mask, l, h, w, Slot(i, j, k + 1))
  {
    var t := Target(l, mask, i, j, k);
    WriterOfTarget(l, mask, i, j, k);
    var g' := Set3(g, t.i, t.j, t.k, f[i][j][k]);
    forall a, b, c | 0 <= a < h && 0 <= b < w && 0 <= c < l.Q()
      ensures g'[a][b][c] == Partial(f, mask, l, h, w, a, b, c, Slot(i, j, k + 1))
    {
      if Slot(a, b, c) == t {
        assert g'[a][b][c] == f[i][j][k];
      } else {
        assert g'[a][b][c] == g[a][b][c];
        if !mask[a][b] {
          TargetOfWriter(l, mask, a, b, c);
          assert Writer(l, mask, a, b, c) != Slot(i, j, k);
        }
      }
    }
  }

  /** Streams the populations of the open cell (i, j), one direction after the other. */
  method StreamCell(g: Field, f: Field, mask: Mask, l: Lattice, h: nat, w: nat, i: nat, j: nat)
    returns (g': Field)
    requires WellFormed(l) && IsField(f, h, w, l.Q()) && IsPlane(mask, h, w) && IsField(g, h, w, l.Q())
    requires i < h && j < w && !mask[i][j]
    requires PartialUpTo(g, f, mask, l, h, w, Slot(i, j, 0))
    ensures IsField(g', h, w, l.Q())
    ensures PartialUpTo(g', f, mask, l, h, w, Slot(i, j + 1, 0))
    ensures GridTotal(g') == GridTotal(g) + Sum(f[i][j])
  {
    g' := g;
    var k := 0;
    while k < l.Q()
      invariant 0 <= k <= l.Q()
      invariant IsField(g', h, w, l.Q())
      invariant PartialUpTo(g', f, mask, l, h, w, Slot(i, j, k))
      invariant GridTotal(g') == GridTotal(g) + Sum(f[i][j][..k])
    {
      var t := Target(l, mask, i, j, k);
      WriteIntoEmptySlot(g', f, mask, l, h, w, i, j, k);
      assert f[i][j][..k + 1][..k] == f[i][j][..k];
      g' := Set3(g', t.i, t.j, t.k, f[i][j][k]);
      k := k + 1;
    }
    assert f[i][j][..l.Q()] == f[i][j];
    forall a, b, c | 0 <= a < h && 0 <= b < w && 0 <= c < l.Q() && !mask[a][b]
      ensures Precedes(Writer(l, mask, a, b, c), Slot(i, j, l.Q())) <==> Precedes(Writer(l, mask, a, b, c), Slot(i, j + 1, 0))
    {
      TargetOfWriter(l, mask, a, b, c);
    }
    PartialSkip(f, mask, l, h, w, Slot(i, j, l.Q()), Slot(i, j + 1, 0));
  }

  /**
   * `stream_optimized`: every population of every open cell is moved into a
   * zeroed buffer, or reflected into its own cell's opposite slot when the
   * destination is off the grid or a wall.  The result is `Streamed`, and its
   * total is the total of `f` over open cells.
   */
  method StreamField(f: Field, mask: Mask, l: Lattice, h: nat, w: nat) returns (g: Field)
    requires WellFormed(l) && IsField(f, h, w, l.Q()) && IsPlane(mask, h, w)
    ensures g == Streamed(f, mask, l, h, w)
    ensures GridTotal(g) == FluidTotal(f, mask)
  {
    g := Zeros(h, w, l.Q());
    GridTotalOfZeros(h, w, l.Q());
    var i := 0;
    while i < h
      invariant 0 <= i <= h
      invariant IsField(g, h, w, l.Q())
      invariant PartialUpTo(g, f, mask, l, h, w, Slot(i, 0, 0))
      invariant GridTotal(g) == FluidTotal(f[..i], mask[..i])
    {
      g := StreamRow(g, f, mask, l, h, w, i);
      assert f[..i + 1][..i] == f[..i] && mask[..i + 1][..i] == mask[..i];
      i := i + 1;
    }
    assert f[..h] == f && mask[..h] == mask;
    StreamedWhenDone(g, f, mask, l, h, w);
  }

  /** The cells of row i, left to right: each open one streams its populations. */
  method StreamRow(g: Field, f: Field, mask: Mask, l: Lattice, h: nat, w: nat, i: nat) returns (g': Field)
    requires WellFormed(l) && IsField(f, h, w, l.Q()) && IsPlane(mask, h, w) && IsField(g, h, w, l.Q())
    requires i < h && PartialUpTo(g, f, mask, l, h, w, Slot(i, 0, 0))
    ensures IsField(g', h, w, l.Q())
    ensures PartialUpTo(g', f, mask, l, h, w, Slot(i + 1, 0, 0))
    ensures GridTotal(g') == GridTotal(g) + FluidRowTotal(f[i], mask[i])
  {
    g' := g;
    var j := 0;
    while j < w
      invariant 0 <= j <= w
      invariant IsField(g', h, w, l.Q())
      invariant PartialUpTo(g', f, mask, l, h, w, Slot(i, j, 0))
      invariant GridTotal(g') == GridTotal(g) + FluidRowTotal(f[i][..j], mask[i][..j])
    {
      assert f[i][..j + 1][..j] == f[i][..j] && mask[i][..j + 1][..j] == mask[i][..j];
      if mask[i][j] {
        SkipWall(f, mask, l, h, w, i, j);
      } else {
        g' := StreamCell(g', f, mask, l, h, w, i, j);
      }
      j := j + 1;
    }
    assert f[i][..w] == f[i] && mask[i][..w] == mask[i];
    forall a, b, c | 0 <= a < h && 0 <= b < w && 0 <= c < l.Q() && !mask[a][b]
      ensures Precedes(Writer(l, mask, a, b, c), Slot(i, w, 0)) <==> Precedes(Writer(l, mask, a, b, c), Slot(i + 1, 0, 0))
    {
      TargetOfWriter(l, mask, a, b, c);
    }
    PartialSkip(f, mask, l, h, w, Slot(i, w, 0), Slot(i + 1, 0, 0));
  }

  /** A wall cell writes nothing: passing it leaves every slot as it was. */
  lemma SkipWall(f: Field, mask: Mask, l: Lattice, h: nat, w: nat, i: nat, j: nat)
    requires WellFormed(l) && IsField(f, h, w, l.Q()) && IsPlane(mask, h, w)
    requires i < h && j < w && mask[i][j]
    ensures forall a, b, c :: 0 <= a < h && 0 <= b < w && 0 <= c < l.Q() ==>
      Partial(f, mask, l, h, w, a, b, c, Slot(i, j, 0)) == Partial(f, mask, l, h, w, a, b, c, Slot(i, j + 1, 0))
  {
    forall a, b, c | 0 <= a < h && 0 <= b < w && 0 <= c < l.Q() && !mask[a][b]
      ensures Precedes(Writer(l, mask, a, b, c), Slot(i, j, 0)) <==> Precedes(Writer(l, mask, a, b, c), Slot(i, j + 1, 0))
    {
      TargetOfWriter(l, mask, a, b, c);
    }
    PartialSkip(f, mask, l, h, w, Slot(i, j, 0), Slot(i, j + 1, 0));
  }

  /** Once every move has been made, the buffer is the streamed one. */
  lemma StreamedWhenDone(g: Field, f: Field, mask: Mask, l: Lattice, h: nat, w: nat)
    requires WellFormed(l) && IsField(f, h, w, l.Q()) && IsPlane(mask, h, w) && IsField(g, h, w, l.Q())
    requires PartialUpTo(g, f, mask, l, h, w, Slot(h, 0, 0))
    ensures g == Streamed(f, mask, l, h, w)
  {
    forall a, b, c | 0 <= a < h && 0 <= b < w && 0 <= c < l.Q()
      ensures g[a][b][c] == Streamed(f, mask, l, h, w)[a][b][c]
    {
      if !mask[a][b] {
        TargetOfWriter(l, mask, a, b, c);
      }
    }
    FieldExtensionality(g, Streamed(f, mask, l, h, w), h, w, l.Q());
  }

  /** Every population of every wall cell is zero. */
  ghost predicate WallsEmpty(f: Field, mask: Mask, h: nat, w: nat, q: nat)
    requires IsField(f, h, w, q) && IsPlane(mask, h, w)
  {
    forall a, b, c :: 0 <= a < h && 0 <= b < w && 0 <= c < q && mask[a][b] ==> f[a][b][c] == 0.0
  }

  /** Every population of an open cell arrives, unchanged, in the slot its move targets. */
  lemma StreamedAtTarget(f: Field, mask: Mask, l: Lattice, h: nat, w: nat, i: nat, j: nat, k: nat)
    requires WellFormed(l) && IsField(f, h, w, l.Q()) && IsPlane(mask, h, w)
    requires i < h && j < w && k < l.Q() && !mask[i][j]
    ensures var t := Target(l, mask, i, j, k);
      0 <= t.i < h && 0 <= t.j < w && 0 <= t.k < l.Q() &&
      Streamed(f, mask, l, h, w)[t.i][t.j][t.k] == f[i][j][k]
  {
    WriterOfTarget(l, mask, i, j, k);
  }

  /** Streaming leaves every wall cell empty. */
  lemma StreamedWallsEmpty(f: Field, mask: Mask, l: Lattice, h: nat, w: nat)
    requires WellFormed(l) && IsField(f, h, w, l.Q()) && IsPlane(mask, h, w)
    ensures WallsEmpty(Streamed(f, mask, l, h, w), mask, h, w, l.Q())
  {
  }

  /** When the wall cells are empty, the total over open cells is the whole total. */
  lemma FluidTotalOfWallsEmpty(f: Field, mask: Mask, h: nat, w: nat, q: nat)
    requires IsField(f, h, w, q) && IsPlane(mask, h, w) && WallsEmpty(f, mask, h, w, q)
    ensures FluidTotal(f, mask) == GridTotal(f)
  {
    forall a, b | 0 <= a < h && 0 <= b < w && mask[a][b] ensures Sum(f[a][b]) == 0.0 {
      assert f[a][b] == seq(q, _ => 0.0);
      SumOfZeros(q);
    }
    FluidTotalOfEmptyWalls(f, mask);
  }
}
