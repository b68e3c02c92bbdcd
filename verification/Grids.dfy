/**
 * Rectangular grids as nested sequences, and exact sums over them.
 *
 * A 2-D numpy array of shape (height, width) is a `seq<seq<T>>` of `height`
 * rows of `width` entries; a 3-D population array of shape (height, width, q)
 * is a `Field`: `height` rows of `width` cells of `q` populations.
 * Populations are exact `real`s.
 */
module Grids {

  type Plane = seq<seq<real>>
  type Field = seq<seq<seq<real>>>
  type Mask = seq<seq<bool>>

  /** A value that may be absent (Python's None). */
  datatype Option<T> = None | Some(value: T)

  /** A Python index into a sequence of length n: -n .. n - 1. */
  predicate PyIndexable(k: int, n: int)
  {
    -n <= k < n
  }

  /** The position a Python index names: negative indices count from the end. */
  function PyIndex(k: int, n: int): (p: nat)
    requires PyIndexable(k, n)
    ensures p < n && (0 <= k ==> p == k)
  {
    if k < 0 then k + n else k
  }

  /** `g` has `h` rows of `w` entries each. */
  ghost predicate IsPlane<T>(g: seq<seq<T>>, h: nat, w: nat)
  {
    |g| == h && forall i :: 0 <= i < h ==> |g[i]| == w
  }

  /** `f` has shape (h, w, q). */
  ghost predicate IsField(f: Field, h: nat, w: nat, q: nat)
  {
    |f| == h &&
    forall i :: 0 <= i < h ==> |f[i]| == w && forall j :: 0 <= j < w ==> |f[i][j]| == q
  }

  /** The all-zero field of shape (h, w, q), numpy's `zeros((h, w, q))`. */
  function Zeros(h: nat, w: nat, q: nat): (f: Field)
    ensures IsField(f, h, w, q)
    ensures forall i, j, k :: 0 <= i < h && 0 <= j < w && 0 <= k < q ==> f[i][j][k] == 0.0
  {
    seq(h, _ => seq(w, _ => seq(q, _ => 0.0)))
  }

  /** The plane of shape (h, w) filled with `v`: numpy's `zeros((h, w))` or `ones((h, w))`. */
  function Filled(h: nat, w: nat, v: real): (p: Plane)
    ensures IsPlane(p, h, w)
    ensures forall i, j :: 0 <= i < h && 0 <= j < w ==> p[i][j] == v
  {
    seq(h, _ => seq(w, _ => v))
  }

  /** Field `f` with the single population (a, b, c) replaced by `v`. */
  function Set3(f: Field, a: nat, b: nat, c: nat, v: real): Field
    requires a < |f| && b < |f[a]| && c < |f[a][b]|
  {
    f[a := f[a][b := f[a][b][c := v]]]
  }

  /** Field `f` with the whole cell (a, b) replaced by `cell`. */
  function SetCell(f: Field, a: nat, b: nat, cell: seq<real>): Field
    requires a < |f| && b < |f[a]|
  {
    f[a := f[a][b := cell]]
  }

  /** Plane `p` with entry (a, b) replaced by `v`. */
  function Set2(p: Plane, a: nat, b: nat, v: real): Plane
    requires a < |p| && b < |p[a]|
  {
    p[a := p[a][b := v]]
  }

  // ---------------------------------------------------------------------
  // Sums
  // ---------------------------------------------------------------------

  /** Sum of a sequence of reals (numpy's `np.sum` of a 1-D array). */
  function Sum(s: seq<real>): real
  {
    if |s| == 0 then 0.0 else Sum(s[..|s| - 1]) + s[|s| - 1]
  }

  /** Sum of all populations of a row of cells. */
  function RowTotal(row: seq<seq<real>>): real
  {
    if |row| == 0 then 0.0 else RowTotal(row[..|row| - 1]) + Sum(row[|row| - 1])
  }

  /** Sum of all populations of a field. */
  function GridTotal(f: Field): real
  {
    if |f| == 0 then 0.0 else GridTotal(f[..|f| - 1]) + RowTotal(f[|f| - 1])
  }

  /** Sum of all entries of a plane. */
  function PlaneTotal(p: Plane): real
  {
    if |p| == 0 then 0.0 else PlaneTotal(p[..|p| - 1]) + Sum(p[|p| - 1])
  }

  /** Sum of the populations of the cells of a row that the mask row leaves open. */
  function FluidRowTotal(row: seq<seq<real>>, mrow: seq<bool>): real
    requires |mrow| == |row|
  {
    if |row| == 0 then 0.0
    else
      FluidRowTotal(row[..|row| - 1], mrow[..|row| - 1])
      + (if mrow[|row| - 1] then 0.0 else Sum(row[|row| - 1]))
  }

  /** Sum of the populations of every cell the mask leaves open (non-wall cells). */
  function FluidTotal(f: Field, mask: Mask): real
    requires |mask| == |f| && forall i :: 0 <= i < |f| ==> |mask[i]| == |f[i]|
  {
    if |f| == 0 then 0.0
    else
      FluidTotal(f[..|f| - 1], mask[..|f| - 1])
      + FluidRowTotal(f[|f| - 1], mask[|f| - 1])
  }

  // ---------------------------------------------------------------------
  // Update lemmas: replacing one entry changes a total by the difference
  // ---------------------------------------------------------------------

  lemma {:induction false} SumUpdate(s: seq<real>, p: nat, v: real)
    requires p < |s|
    ensures Sum(s[p := v]) == Sum(s) - s[p] + v
  {
    var n := |s| - 1;
    if p == n {
      assert s[p := v][..n] == s[..n];
    } else {
      SumUpdate(s[..n], p, v);
      assert s[p := v][..n] == s[..n][p := v];
    }
  }

  lemma {:induction false} RowTotalUpdate(row: seq<seq<real>>, p: nat, cell: seq<real>)
    requires p < |row|
    ensures RowTotal(row[p := cell]) == RowTotal(row) - Sum(row[p]) + Sum(cell)
  {
    var n := |row| - 1;
    if p == n {
      assert row[p := cell][..n] == row[..n];
    } else {
      RowTotalUpdate(row[..n], p, cell);
      assert row[p := cell][..n] == row[..n][p := cell];
    }
  }

  lemma {:induction false} GridTotalUpdate(f: Field, p: nat, row: seq<seq<real>>)
    requires p < |f|
    ensures GridTotal(f[p := row]) == GridTotal(f) - RowTotal(f[p]) + RowTotal(row)
  {
    var n := |f| - 1;
    if p == n {
      assert f[p := row][..n] == f[..n];
    } else {
      GridTotalUpdate(f[..n], p, row);
      assert f[p := row][..n] == f[..n][p := row];
    }
  }

  lemma {:induction false} PlaneTotalUpdate(g: Plane, p: nat, row: seq<real>)
    requires p < |g|
    ensures PlaneTotal(g[p := row]) == PlaneTotal(g) - Sum(g[p]) + Sum(row)
  {
    var n := |g| - 1;
    if p == n {
      assert g[p := row][..n] == g[..n];
    } else {
      PlaneTotalUpdate(g[..n], p, row);
      assert g[p := row][..n] == g[..n][p := row];
    }
  }

  /** Writing `v` into one population changes the field total by `v` minus the old value. */
  lemma GridTotalSet3(f: Field, a: nat, b: nat, c: nat, v: real)
    requires a < |f| && b < |f[a]| && c < |f[a][b]|
    ensures GridTotal(Set3(f, a, b, c, v)) == GridTotal(f) - f[a][b][c] + v
  {
    SumUpdate(f[a][b], c, v);
    RowTotalUpdate(f[a], b, f[a][b][c := v]);
    GridTotalUpdate(f, a, f[a][b := f[a][b][c := v]]);
  }

  /** Replacing one whole cell changes the field total by the difference of the cell sums. */
  lemma GridTotalSetCell(f: Field, a: nat, b: nat, cell: seq<real>)
    requires a < |f| && b < |f[a]|
    ensures GridTotal(SetCell(f, a, b, cell)) == GridTotal(f) - Sum(f[a][b]) + Sum(cell)
  {
    RowTotalUpdate(f[a], b, cell);
    GridTotalUpdate(f, a, f[a][b := cell]);
  }

  lemma {:induction false} SumOfZeros(n: nat)
    ensures Sum(seq(n, _ => 0.0)) == 0.0
  {
    if n > 0 {
      SumOfZeros(n - 1);
      assert seq(n, _ => 0.0)[..n - 1] == seq(n - 1, _ => 0.0);
    }
  }

  lemma {:induction false} RowTotalOfZeros(w: nat, q: nat)
    ensures RowTotal(seq(w, _ => seq(q, _ => 0.0))) == 0.0
  {
    if w > 0 {
      RowTotalOfZeros(w - 1, q);
      SumOfZeros(q);
      assert seq(w, _ => seq(q, _ => 0.0))[..w - 1] == seq(w - 1, _ => seq(q, _ => 0.0));
    }
  }

  /** A freshly zeroed field holds no mass. */
  lemma {:induction false} GridTotalOfZeros(h: nat, w: nat, q: nat)
    ensures GridTotal(Zeros(h, w, q)) == 0.0
  {
    if h > 0 {
      GridTotalOfZeros(h - 1, w, q);
      RowTotalOfZeros(w, q);
      assert Zeros(h, w, q)[..h - 1] == Zeros(h - 1, w, q);
    }
  }

  /**
   * When every masked cell holds nothing, the total over the open cells is the
   * total over all cells.
   */
  lemma {:induction false} FluidRowTotalOfEmptyWalls(row: seq<seq<real>>, mrow: seq<bool>)
    requires |mrow| == |row|
    requires forall j :: 0 <= j < |row| && mrow[j] ==> Sum(row[j]) == 0.0
    ensures FluidRowTotal(row, mrow) == RowTotal(row)
  {
    if |row| > 0 {
      FluidRowTotalOfEmptyWalls(row[..|row| - 1], mrow[..|row| - 1]);
    }
  }

  lemma {:induction false} FluidTotalOfEmptyWalls(f: Field, mask: Mask)
    requires |mask| == |f| && forall i :: 0 <= i < |f| ==> |mask[i]| == |f[i]|
    requires forall i, j :: 0 <= i < |f| && 0 <= j < |f[i]| && mask[i][j] ==> Sum(f[i][j]) == 0.0
    ensures FluidTotal(f, mask) == GridTotal(f)
  {
    if |f| > 0 {
      var n := |f| - 1;
      FluidTotalOfEmptyWalls(f[..n], mask[..n]);
      FluidRowTotalOfEmptyWalls(f[n], mask[n]);
    }
  }

  /** Two fields of the same shape that agree at every population are equal. */
  lemma FieldExtensionality(f: Field, g: Field, h: nat, w: nat, q: nat)
    requires IsField(f, h, w, q) && IsField(g, h, w, q)
    requires forall a, b, c :: 0 <= a < h && 0 <= b < w && 0 <= c < q ==> f[a][b][c] == g[a][b][c]
    ensures f == g
  {
    forall a | 0 <= a < h ensures f[a] == g[a] {
      forall b | 0 <= b < w ensures f[a][b] == g[a][b] {
        assert forall c :: 0 <= c < q ==> f[a][b][c] == g[a][b][c];
      }
    }
  }

  /** Summing a field cell by cell gives the same total as summing the plane of its cell sums. */
  lemma {:induction false} RowTotalOfCellSums(row: seq<seq<real>>, sums: seq<real>)
    requires |sums| == |row| && forall j :: 0 <= j < |row| ==> Sum(row[j]) == sums[j]
    ensures RowTotal(row) == Sum(sums)
  {
    if |row| > 0 {
      RowTotalOfCellSums(row[..|row| - 1], sums[..|row| - 1]);
    }
  }

  lemma {:induction false} GridTotalOfCellSums(f: Field, p: Plane)
    requires |p| == |f| && forall i :: 0 <= i < |f| ==> |p[i]| == |f[i]|
    requires forall i, j :: 0 <= i < |f| && 0 <= j < |f[i]| ==> Sum(f[i][j]) == p[i][j]
    ensures GridTotal(f) == PlaneTotal(p)
  {
    if |f| > 0 {
      var n := |f| - 1;
      GridTotalOfCellSums(f[..n], p[..n]);
      RowTotalOfCellSums(f[n], p[n]);
    }
  }

  /** A sequence with a non-zero sum has a non-zero entry. */
  lemma {:induction false} NonzeroSumHasNonzeroEntry(s: seq<real>)
    requires Sum(s) != 0.0
    ensures exists k :: 0 <= k < |s| && s[k] != 0.0
  {
    var n := |s| - 1;
    if s[n] == 0.0 {
      NonzeroSumHasNonzeroEntry(s[..n]);
      var k :| 0 <= k < n && s[..n][k] != 0.0;
      assert s[k] != 0.0;
    }
  }

  /** A sequence that is entrywise at least another has at least its sum. */
  lemma {:induction false} SumMono(s: seq<real>, t: seq<real>)
    requires |t| == |s| && forall k :: 0 <= k < |s| ==> s[k] <= t[k]
    ensures Sum(s) <= Sum(t)
  {
    if |s| > 0 {
      SumMono(s[..|s| - 1], t[..|s| - 1]);
    }
  }

  lemma {:induction false} RowTotalMono(row: seq<seq<real>>, row': seq<seq<real>>)
    requires |row'| == |row| && forall j :: 0 <= j < |row| ==> Sum(row[j]) <= Sum(row'[j])
    ensures RowTotal(row) <= RowTotal(row')
  {
    if |row| > 0 {
      RowTotalMono(row[..|row| - 1], row'[..|row| - 1]);
    }
  }

  /** A field whose every cell sum is at least that of another's has at least its total. */
  lemma {:induction false} GridTotalMono(f: Field, g: Field)
    requires |g| == |f| && forall i :: 0 <= i < |f| ==> |g[i]| == |f[i]|
    requires forall i, j :: 0 <= i < |f| && 0 <= j < |f[i]| ==> Sum(f[i][j]) <= Sum(g[i][j])
    ensures GridTotal(f) <= GridTotal(g)
  {
    if |f| > 0 {
      var n := |f| - 1;
      GridTotalMono(f[..n], g[..n]);
      RowTotalMono(f[n], g[n]);
    }
  }

  /** Two fields whose cells pairwise have equal sums have equal totals. */
  lemma GridTotalCellwise(f: Field, g: Field)
    requires |g| == |f| && forall i :: 0 <= i < |f| ==> |g[i]| == |f[i]|
    requires forall i, j :: 0 <= i < |f| && 0 <= j < |f[i]| ==> Sum(f[i][j]) == Sum(g[i][j])
    ensures GridTotal(f) == GridTotal(g)
  {
    var p := seq(|f|, i requires 0 <= i < |f| => seq(|f[i]|, j requires 0 <= j < |f[i]| => Sum(f[i][j])));
    GridTotalOfCellSums(f, p);
    GridTotalOfCellSums(g, p);
  }

  /** Two planes of the same shape that agree at every entry are equal. */
  lemma PlaneExtensionality<T>(p: seq<seq<T>>, q: seq<seq<T>>, h: nat, w: nat)
    requires IsPlane(p, h, w) && IsPlane(q, h, w)
    requires forall a, b :: 0 <= a < h && 0 <= b < w ==> p[a][b] == q[a][b]
    ensures p == q
  {
    forall a | 0 <= a < h ensures p[a] == q[a] {
      assert forall b :: 0 <= b < w ==> p[a][b] == q[a][b];
    }
  }

  /** The cells a wall array (-1 wall, 0 open) marks with -1: `wall == -1` in numpy. */
  function WallMask(wall: seq<seq<int>>, h: nat, w: nat): (m: Mask)
    requires IsPlane(wall, h, w)
    ensures IsPlane(m, h, w)
    ensures forall i, j :: 0 <= i < h && 0 <= j < w ==> (m[i][j] <==> wall[i][j] == -1)
  {
    seq(h, i requires 0 <= i < h => seq(w, j requires 0 <= j < w => wall[i][j] == -1))
  }
}
