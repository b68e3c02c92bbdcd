/**
 * The D2Q4 diffusion model of `lab_07/lbm_logic.py`: four populations per
 * cell, an equilibrium that splits the cell's concentration evenly over
 * them, BGK relaxation, and bounce-back streaming with the moves of
 * `D2Q4.StreamLattice`.  The wall comes from `lab_07/wall.py`, which is not
 * part of this model: its mask is a constructor parameter.
 */
module Lab07Lbm {
  import opened Grids
  import opened Lattice
  import opened Streaming
  import opened D2Q4
  import opened Bgk

  /** The cell's concentration split evenly over the four directions. */
  function SplitCell(c: real): (d: seq<real>)
    ensures |d| == 4 && Sum(d) == c
  {
    var q := c / 4.0;
    var d := [q, q, q, q];
    assert d[..3][..2][..1][..0] == [];
    assert Sum(d[..3][..2][..1]) == q;
    assert Sum(d[..3][..2]) == q + q;
    assert Sum(d[..3]) == q + q + q;
    d
  }

  /** The `f_eq` of `collide`: every cell split from its concentration. */
  function SplitField(conc: Plane, h: nat, w: nat): (f: Field)
    requires IsPlane(conc, h, w)
    ensures IsField(f, h, w, 4)
    ensures forall a, b :: 0 <= a < h && 0 <= b < w ==> Sum(f[a][b]) == conc[a][b]
  {
    seq(h, a requires 0 <= a < h => seq(w, b requires 0 <= b < w => SplitCell(conc[a][b])))
  }

  /** `np.sum(f_in, axis=2)`: the concentration each cell holds. */
  function Concentration(f: Field, h: nat, w: nat): (c: Plane)
    requires IsField(f, h, w, 4)
    ensures IsPlane(c, h, w)
  {
    seq(h, a requires 0 <= a < h => seq(w, b requires 0 <= b < w => Sum(f[a][b])))
  }

  /** The concentrations add up to the total of the populations. */
  lemma ConcentrationTotal(f: Field, h: nat, w: nat)
    requires IsField(f, h, w, 4)
    ensures PlaneTotal(Concentration(f, h, w)) == GridTotal(f)
  {
    GridTotalOfCellSums(f, Concentration(f, h, w));
  }

  /**
   * When the concentration is the cell sum of `fin`, relaxing towards the
   * split equilibrium keeps every cell's sum, and so the total.
   */
  lemma CollisionConservesConcentration(fin: Field, tau: real, h: nat, w: nat)
    requires IsField(fin, h, w, 4) && tau != 0.0
    ensures var fout := Relax(fin, SplitField(Concentration(fin, h, w), h, w), tau, h, w, 4);
      (forall a, b :: 0 <= a < h && 0 <= b < w ==> Sum(fout[a][b]) == Sum(fin[a][b])) &&
      GridTotal(fout) == GridTotal(fin)
  {
    var feq := SplitField(Concentration(fin, h, w), h, w);
    var fout := Relax(fin, feq, tau, h, w, 4);
    forall a, b | 0 <= a < h && 0 <= b < w ensures Sum(fout[a][b]) == Sum(fin[a][b]) {
      RelaxCellSum(fin[a][b], feq[a][b], tau);
    }
    GridTotalCellwise(fin, fout);
  }

  /** An empty cell has concentration zero, so its equilibrium and its collision result are empty. */
  lemma CollisionKeepsWallsEmpty(fin: Field, tau: real, mask: Mask, h: nat, w: nat)
    requires IsField(fin, h, w, 4) && tau != 0.0 && IsPlane(mask, h, w) && WallsEmpty(fin, mask, h, w, 4)
    ensures WallsEmpty(Relax(fin, SplitField(Concentration(fin, h, w), h, w), tau, h, w, 4), mask, h, w, 4)
  {
    forall a, b | 0 <= a < h && 0 <= b < w && mask[a][b] ensures Sum(fin[a][b]) == 0.0 {
      assert fin[a][b] == seq(4, _ => 0.0);
      SumOfZeros(4);
    }
  }

  class LBM {
    const height: nat
    const width: nat
    const tau: real
    /** `get_mask()` of the wall, true at wall cells. */
    const wallMask: Mask
    var fIn: Field
    var fEq: Field
    var fOut: Field
    var concentration: Plane

    ghost predicate Valid()
      reads this
    {
      IsField(fIn, height, width, 4) && IsField(fEq, height, width, 4) && IsField(fOut, height, width, 4) &&
      IsPlane(concentration, height, width) && IsPlane(wallMask, height, width) && tau != 0.0
    }

    /** The concentration is the cell sum of the populations. */
    ghost predicate Consistent()
      reads this
      requires Valid()
    {
      concentration == Concentration(fIn, height, width)
    }

    /**
     * Zero everywhere except the columns left of width / 2, which get
     * concentration 1 split evenly over the four directions; the
     * concentration is then the cell sum of the populations.
     */
    constructor (height: nat, width: nat, tau: real, wallMask: Mask)
      requires tau != 0.0 && IsPlane(wallMask, height, width)
      ensures Valid() && Consistent()
      ensures this.height == height && this.width == width && this.tau == tau && this.wallMask == wallMask
      ensures forall a, b :: 0 <= a < height && 0 <= b < width ==>
        concentration[a][b] == (if b < width / WallPosition then CellDensity else 0.0) &&
        fIn[a][b] == (if b < width / WallPosition then seq(4, _ => CellDensity / 4.0) else seq(4, _ => 0.0))
      ensures fEq == Zeros(height, width, 4) && fOut == Zeros(height, width, 4)
    {
      this.height := height;
      this.width := width;
      this.tau := tau;
      this.wallMask := wallMask;
      fIn := Zeros(height, width, 4);
      fEq := Zeros(height, width, 4);
      fOut := Zeros(height, width, 4);
      concentration := Filled(height, width, 0.0);
      new;
      InitializeDensity();
      forall a, b | 0 <= a < height && 0 <= b < width ensures concentration[a][b] == Sum(fIn[a][b]) {
        SumOfZeros(4);
        assert seq(4, _ => CellDensity / 4.0) == SplitCell(CellDensity);
      }
      PlaneExtensionality(concentration, Concentration(fIn, height, width), height, width);
    }

    /** The double loop over the columns left of width / 2. */
    method InitializeDensity()
      requires Valid()
      modifies this
      ensures Valid()
      ensures forall a, b :: 0 <= a < height && 0 <= b < width ==>
        concentration[a][b] == (if b < width / WallPosition then CellDensity else old(concentration)[a][b]) &&
        fIn[a][b] == (if b < width / WallPosition then seq(4, _ => CellDensity / 4.0) else old(fIn)[a][b])
      ensures fEq == old(fEq) && fOut == old(fOut)
    {
      var cut := width / WallPosition;
      var i := 0;
      while i < height
        invariant 0 <= i <= height && Valid()
        invariant forall a, b :: 0 <= a < height && 0 <= b < width ==>
          var hit := a < i && b < cut;
          concentration[a][b] == (if hit then CellDensity else old(concentration)[a][b]) &&
          fIn[a][b] == (if hit then seq(4, _ => CellDensity / 4.0) else old(fIn)[a][b])
        invariant fEq == old(fEq) && fOut == old(fOut)
      {
        var j := 0;
        while j < cut
          invariant 0 <= j <= cut && Valid()
          invariant forall a, b :: 0 <= a < height && 0 <= b < width ==>
            var hit := (a < i || (a == i && b < j)) && b < cut;
            concentration[a][b] == (if hit then CellDensity else old(concentration)[a][b]) &&
            fIn[a][b] == (if hit then seq(4, _ => CellDensity / 4.0) else old(fIn)[a][b])
          invariant fEq == old(fEq) && fOut == old(fOut)
        {
          concentration := Set2(concentration, i, j, CellDensity);
          var c := concentration[i][j];
          fIn := SetCell(fIn, i, j, seq(4, _ => c / 4.0));
          j := j + 1;
        }
        i := i + 1;
      }
    }

    method Collide()
      requires Valid()
      modifies this
      ensures Valid()
      ensures fEq == SplitField(concentration, height, width)
      ensures fOut == Relax(fIn, fEq, tau, height, width, 4)
      ensures fIn == old(fIn) && concentration == old(concentration)
    {
      fEq := SplitField(concentration, height, width);
      fOut := Relax(fIn, fEq, tau, height, width, 4);
    }

    /** Streams `fOut` into `fIn`; the open-cell total is kept and the wall cells end empty. */
    method Stream()
      requires Valid()
      modifies this
      ensures Valid()
      ensures fIn == Streamed(fOut, wallMask, StreamLattice(), height, width)
      ensures GridTotal(fIn) == FluidTotal(fOut, wallMask) && WallsEmpty(fIn, wallMask, height, width, 4)
      ensures fOut == old(fOut) && fEq == old(fEq) && concentration == old(concentration)
    {
      fIn := StreamField(fOut, wallMask, StreamLattice(), height, width);
      StreamedWallsEmpty(fOut, wallMask, StreamLattice(), height, width);
    }

    method ApplyConcentration()
      requires Valid()
      modifies this
      ensures Valid() && Consistent()
      ensures PlaneTotal(concentration) == GridTotal(fIn)
      ensures fIn == old(fIn) && fOut == old(fOut) && fEq == old(fEq)
    {
      concentration := Concentration(fIn, height, width);
      ConcentrationTotal(fIn, height, width);
    }

    /**
     * Collision, streaming, concentration update.  From a consistent state
     * whose wall cells are empty, the total concentration is unchanged (the
     * check that `step` prints a warning for) and the wall cells stay empty.
     */
    method Step()
      requires Valid()
      modifies this
      ensures Valid() && Consistent()
      ensures fEq == SplitField(old(concentration), height, width)
      ensures fOut == Relax(old(fIn), SplitField(old(concentration), height, width), tau, height, width, 4)
      ensures fIn == Streamed(fOut, wallMask, StreamLattice(), height, width)
      ensures PlaneTotal(concentration) == FluidTotal(fOut, wallMask)
      ensures old(Consistent()) ==> GridTotal(fOut) == old(GridTotal(fIn))
      ensures old(Consistent()) && old(WallsEmpty(fIn, wallMask, height, width, 4)) ==>
        PlaneTotal(concentration) == old(PlaneTotal(concentration)) && WallsEmpty(fIn, wallMask, height, width, 4)
    {
      ghost var f0 := fIn;
      ghost var consistent := Consistent();
      ConcentrationTotal(f0, height, width);
      Collide();
      if consistent {
        CollisionConservesConcentration(f0, tau, height, width);
        if WallsEmpty(f0, wallMask, height, width, 4) {
          CollisionKeepsWallsEmpty(f0, tau, wallMask, height, width);
          FluidTotalOfWallsEmpty(fOut, wallMask, height, width, 4);
        }
      }
      Stream();
      ApplyConcentration();
    }
  }
}
