/**
 * Border handling and binary morphology of `lab_02/main.py`.
 *
 * An image is a rows x cols array of integer pixels; the binary images the
 * morphology works on hold 0 (black) and 255 (white).  `get_pixel` reads a
 * pixel at any (i, j), answering for off-image positions by one of four
 * border rules, and `None` for an unknown rule.  Python's negative indexing
 * is modelled: a reflected index that comes out negative counts from the
 * end, and only an index outside -n .. n - 1 fails.
 *
 * `dilatation` turns a white pixel black when some pixel of its
 * (2 radius + 1)^2 window is black, and `erosion` turns a black pixel white
 * when some pixel of its window is white; both read only the original image.
 */
module Lab02Morphology {
  import opened Grids
  import opened Arith

  type Image = seq<seq<int>>

  /** The `border_type` argument; `Other` stands for every unrecognised name. */
  datatype BorderType = Constant | Replicate | Reflect | Wrap | Other

  function BorderTypeOf(name: string): (b: BorderType)
    ensures b == Other <==> name !in {"constant", "replicate", "reflect", "wrap"}
  {
    if name == "constant" then Constant
    else if name == "replicate" then Replicate
    else if name == "reflect" then Reflect
    else if name == "wrap" then Wrap
    else Other
  }

  // ---------------------------------------------------------------------
  // get_pixel
  // ---------------------------------------------------------------------

  /** `max(0, min(i, n - 1))`. */
  function Clamp(i: int, n: nat): (k: nat)
    requires n > 0
    ensures k < n
  {
    if i < 0 then 0 else if i > n - 1 then n - 1 else i
  }

  /** The mirrored index of the "reflect" rule, before Python indexing. */
  function ReflectIndex(i: int, n: nat): int
  {
    if i < 0 then -i else if i >= n then 2 * n - i - 2 else i
  }

  /** The reads that do not raise: only the "reflect" rule can index outside the image. */
  predicate Readable(rows: nat, cols: nat, i: int, j: int, border: BorderType)
  {
    border == Reflect ==> PyIndexable(ReflectIndex(i, rows), rows) && PyIndexable(ReflectIndex(j, cols), cols)
  }

  /** `get_pixel`: the pixel at (i, j) under the border rule, `None` for an unknown rule. */
  function GetPixel(image: Image, rows: nat, cols: nat, i: int, j: int, border: BorderType, constant: int): Option<int>
    requires IsPlane(image, rows, cols) && rows > 0 && cols > 0 && Readable(rows, cols, i, j, border)
  {
    match border
    case Constant =>
      if 0 > i || rows <= i || 0 > j || cols <= j then Some(constant) else Some(image[i][j])
    case Replicate =>
      Some(image[Clamp(i, rows)][Clamp(j, cols)])
    case Reflect =>
      Some(image[PyIndex(ReflectIndex(i, rows), rows)][PyIndex(ReflectIndex(j, cols), cols)])
    case Wrap =>
      Some(image[i % rows][j % cols])
    case Other =>
      None
  }

  /** Inside the image every known rule reads the pixel itself. */
  lemma InsideReadsPixel(image: Image, rows: nat, cols: nat, i: int, j: int, border: BorderType, constant: int)
    requires IsPlane(image, rows, cols) && 0 <= i < rows && 0 <= j < cols
    ensures Readable(rows, cols, i, j, border)
    ensures GetPixel(image, rows, cols, i, j, border, constant) == if border == Other then None else Some(image[i][j])
  {
    ModSmall(i, rows);
    ModSmall(j, cols);
  }

  /** "constant" answers the constant everywhere off the image. */
  lemma ConstantOutside(image: Image, rows: nat, cols: nat, i: int, j: int, constant: int)
    requires IsPlane(image, rows, cols) && rows > 0 && cols > 0 && !(0 <= i < rows && 0 <= j < cols)
    ensures GetPixel(image, rows, cols, i, j, Constant, constant) == Some(constant)
  {
  }

  /**
   * "replicate" extends the edge pixels outwards: a row above the image reads
   * the first row, a row below it the last, and likewise for columns.
   */
  lemma ReplicateExtendsEdges(image: Image, rows: nat, cols: nat, i: int, j: int)
    requires IsPlane(image, rows, cols) && rows > 0 && cols > 0 && 0 <= j < cols
    ensures i < 0 ==> GetPixel(image, rows, cols, i, j, Replicate, 0) == Some(image[0][j])
    ensures i >= rows ==> GetPixel(image, rows, cols, i, j, Replicate, 0) == Some(image[rows - 1][j])
  {
  }

  /**
   * "reflect" can be read exactly for -n < i <= 3n - 2; beyond 2n - 2 the
   * mirrored index is negative and Python counts it from the end.
   */
  lemma ReflectReadableRange(i: int, n: int)
    requires n > 0
    ensures PyIndexable(ReflectIndex(i, n), n) <==> -n < i <= 3 * n - 2
    ensures -n < i <= 2 * n - 2 ==> 0 <= ReflectIndex(i, n) < n
  {
  }

  /**
   * "reflect" mirrors the image about its first and its last row without
   * repeating them: row -d reads row d and row (rows - 1) + d reads row
   * (rows - 1) - d.
   */
  lemma ReflectMirrors(image: Image, rows: nat, cols: nat, d: int, j: int)
    requires IsPlane(image, rows, cols) && 0 < d < rows && 0 <= j < cols
    ensures GetPixel(image, rows, cols, -d, j, Reflect, 0) == Some(image[d][j])
    ensures GetPixel(image, rows, cols, rows - 1 + d, j, Reflect, 0) == Some(image[rows - 1 - d][j])
  {
  }

  /** "wrap" reads the image as a torus: one period further along either axis reads the same pixel. */
  lemma WrapIsPeriodic(image: Image, rows: nat, cols: nat, i: int, j: int)
    requires IsPlane(image, rows, cols) && rows > 0 && cols > 0
    ensures GetPixel(image, rows, cols, i + rows, j, Wrap, 0) == GetPixel(image, rows, cols, i, j, Wrap, 0)
    ensures GetPixel(image, rows, cols, i, j + cols, Wrap, 0) == GetPixel(image, rows, cols, i, j, Wrap, 0)
    ensures 0 <= i < rows && 0 <= j < cols ==> GetPixel(image, rows, cols, i, j, Wrap, 0) == Some(image[i][j])
  {
    ModShift(i, rows);
    ModShift(j, cols);
    if 0 <= i < rows && 0 <= j < cols {
      ModSmall(i, rows);
      ModSmall(j, cols);
    }
  }

  // ---------------------------------------------------------------------
  // The window scan shared by dilatation and erosion
  // ---------------------------------------------------------------------

  /**
   * Every read of a window of this radius around a pixel of the image
   * succeeds.  An image without pixels is never read.
   */
  predicate WindowReadable(rows: nat, cols: nat, radius: int, border: BorderType)
  {
    border == Reflect && rows > 0 && cols > 0 ==> radius < rows && radius < cols
  }

  /**
   * Some window position before (i + di, j + dj), in the order the scan
   * visits them (row by row, each row left to right), reads `target`.
   */
  ghost predicate HitBefore(image: Image, rows: nat, cols: nat, i: int, j: int, radius: int, border: BorderType,
                            fill: int, target: int, di: int, dj: int)
    requires IsPlane(image, rows, cols) && 0 <= i < rows && 0 <= j < cols && WindowReadable(rows, cols, radius, border)
  {
    exists ni, nj :: (ni < i + di || (ni == i + di && nj < j + dj)) &&
      WindowHit(image, rows, cols, i, j, radius, border, fill, target, ni, nj)
  }

  /** (ni, nj) lies in the window around (i, j) and reads `target`. */
  ghost predicate WindowHit(image: Image, rows: nat, cols: nat, i: int, j: int, radius: int, border: BorderType,
                            fill: int, target: int, ni: int, nj: int)
    requires IsPlane(image, rows, cols) && 0 <= i < rows && 0 <= j < cols && WindowReadable(rows, cols, radius, border)
  {
    i - radius <= ni <= i + radius && j - radius <= nj <= j + radius &&
    GetPixel(image, rows, cols, ni, nj, border, fill) == Some(target)
  }

  /** Some pixel of the (2 radius + 1)^2 window around (i, j) reads `target`. */
  ghost predicate WindowHas(image: Image, rows: nat, cols: nat, i: int, j: int, radius: int, border: BorderType,
                            fill: int, target: int)
    requires IsPlane(image, rows, cols) && 0 <= i < rows && 0 <= j < cols && WindowReadable(rows, cols, radius, border)
  {
    HitBefore(image, rows, cols, i, j, radius, border, fill, target, radius + 1, -radius)
  }

  /**
   * The image after the sweep: a pixel equal to `from` whose window reads
   * `target` (off-image reads answering `fill`) becomes `target`; every
   * other pixel keeps its value.
   */
  ghost function Swept(image: Image, rows: nat, cols: nat, radius: int, border: BorderType, from: int, fill: int, target: int): (g: Image)
    requires IsPlane(image, rows, cols) && WindowReadable(rows, cols, radius, border)
    ensures IsPlane(g, rows, cols)
  {
    seq(rows, i requires 0 <= i < rows => seq(cols, j requires 0 <= j < cols =>
      if image[i][j] == from && WindowHas(image, rows, cols, i, j, radius, border, fill, target) then target else image[i][j]))
  }

  /** The scan of one pixel's window, with the `break` that ends a row of the window at the first hit. */
  method ScanWindow(image: Image, rows: nat, cols: nat, i: nat, j: nat, radius: int, border: BorderType,
                    fill: int, target: int, result: Image) returns (result': Image)
    requires IsPlane(image, rows, cols) && IsPlane(result, rows, cols) && i < rows && j < cols
    requires WindowReadable(rows, cols, radius, border)
    ensures result' == result[i := result[i][j := if WindowHas(image, rows, cols, i, j, radius, border, fill, target) then target else result[i][j]]]
  {
    result' := result;
    NoHitAtStart(image, rows, cols, i, j, radius, border, fill, target);
    assert result[i][j := result[i][j]] == result[i];
    assert result[i := result[i]] == result;
    var di := -radius;
    while di < radius + 1
      invariant -radius <= di && (radius >= 0 ==> di <= radius + 1)
      invariant result' == result[i := result[i][j := if HitBefore(image, rows, cols, i, j, radius, border, fill, target, di, -radius) then target else result[i][j]]]
    {
      var dj := -radius;
      while dj < radius + 1
        invariant -radius <= dj <= radius + 1
        invariant result' == result[i := result[i][j := if HitBefore(image, rows, cols, i, j, radius, border, fill, target, di, dj) then target else result[i][j]]]
      {
        var neighbor := GetPixel(image, rows, cols, i + di, j + dj, border, fill);
        HitStep(image, rows, cols, i, j, radius, border, fill, target, di, dj);
        if neighbor == Some(target) {
          assert result'[i][j := target] == result[i][j := target];
          result' := result'[i := result'[i][j := target]];
          HitLater(image, rows, cols, i, j, radius, border, fill, target, di, dj);
          break;
        }
        dj := dj + 1;
      }
      HitNextRow(image, rows, cols, i, j, radius, border, fill, target, di);
      di := di + 1;
    }
  }

  /** Nothing comes before the first window position, and a negative radius leaves no window at all. */
  lemma NoHitAtStart(image: Image, rows: nat, cols: nat, i: int, j: int, radius: int, border: BorderType,
                     fill: int, target: int)
    requires IsPlane(image, rows, cols) && 0 <= i < rows && 0 <= j < cols && WindowReadable(rows, cols, radius, border)
    ensures !HitBefore(image, rows, cols, i, j, radius, border, fill, target, -radius, -radius)
    ensures radius < 0 ==> !WindowHas(image, rows, cols, i, j, radius, border, fill, target)
  {
  }

  /** One more window position: a hit before it, or a hit at it. */
  lemma HitStep(image: Image, rows: nat, cols: nat, i: int, j: int, radius: int, border: BorderType,
                fill: int, target: int, di: int, dj: int)
    requires IsPlane(image, rows, cols) && 0 <= i < rows && 0 <= j < cols && WindowReadable(rows, cols, radius, border)
    requires -radius <= di <= radius && -radius <= dj <= radius
    ensures HitBefore(image, rows, cols, i, j, radius, border, fill, target, di, dj + 1) <==>
      HitBefore(image, rows, cols, i, j, radius, border, fill, target, di, dj) ||
      GetPixel(image, rows, cols, i + di, j + dj, border, fill) == Some(target)
  {
    if GetPixel(image, rows, cols, i + di, j + dj, border, fill) == Some(target) {
      assert WindowHit(image, rows, cols, i, j, radius, border, fill, target, i + di, j + dj);
    }
  }

  /** A hit at (di, dj) is a hit before the start of the next window row. */
  lemma HitLater(image: Image, rows: nat, cols: nat, i: int, j: int, radius: int, border: BorderType,
                 fill: int, target: int, di: int, dj: int)
    requires IsPlane(image, rows, cols) && 0 <= i < rows && 0 <= j < cols && WindowReadable(rows, cols, radius, border)
    requires -radius <= di <= radius && -radius <= dj <= radius
    requires GetPixel(image, rows, cols, i + di, j + dj, border, fill) == Some(target)
    ensures HitBefore(image, rows, cols, i, j, radius, border, fill, target, di + 1, -radius)
  {
    assert WindowHit(image, rows, cols, i, j, radius, border, fill, target, i + di, j + dj);
  }

  /** The end of one window row is the start of the next. */
  lemma HitNextRow(image: Image, rows: nat, cols: nat, i: int, j: int, radius: int, border: BorderType,
                   fill: int, target: int, di: int)
    requires IsPlane(image, rows, cols) && 0 <= i < rows && 0 <= j < cols && WindowReadable(rows, cols, radius, border)
    ensures HitBefore(image, rows, cols, i, j, radius, border, fill, target, di, radius + 1) <==>
      HitBefore(image, rows, cols, i, j, radius, border, fill, target, di + 1, -radius)
  {
  }

  /**
   * The shared body of `dilatation` and `erosion`: a copy of the image, then
   * every pixel equal to `from` scanned in turn.
   */
  method Sweep(image: Image, rows: nat, cols: nat, radius: int, border: BorderType, from: int, fill: int, target: int)
    returns (result: Image)
    requires IsPlane(image, rows, cols) && WindowReadable(rows, cols, radius, border)
    ensures result == Swept(image, rows, cols, radius, border, from, fill, target)
  {
    result := image;
    for i := 0 to rows
      invariant IsPlane(result, rows, cols)
      invariant forall a, b :: 0 <= a < rows && 0 <= b < cols ==>
        result[a][b] == if a < i then Swept(image, rows, cols, radius, border, from, fill, target)[a][b] else image[a][b]
    {
      for j := 0 to cols
        invariant IsPlane(result, rows, cols)
        invariant forall a, b :: 0 <= a < rows && 0 <= b < cols ==>
          result[a][b] == if a < i || (a == i && b < j) then Swept(image, rows, cols, radius, border, from, fill, target)[a][b] else image[a][b]
      {
        if image[i][j] == from {
          result := ScanWindow(image, rows, cols, i, j, radius, border, fill, target, result);
        }
      }
    }
    PlaneExtensionality(result, Swept(image, rows, cols, radius, border, from, fill, target), rows, cols);
  }

  // ---------------------------------------------------------------------
  // dilatation, erosion, opening, closing
  // ---------------------------------------------------------------------

  /** A white pixel becomes black iff its window (read with 255 off the image) holds a black pixel. */
  ghost function Dilated(image: Image, rows: nat, cols: nat, radius: int, border: BorderType): (g: Image)
    requires IsPlane(image, rows, cols) && WindowReadable(rows, cols, radius, border)
    ensures IsPlane(g, rows, cols)
    ensures forall i, j :: 0 <= i < rows && 0 <= j < cols ==>
      g[i][j] == if image[i][j] == 255 && WindowHas(image, rows, cols, i, j, radius, border, 255, 0) then 0 else image[i][j]
  {
    Swept(image, rows, cols, radius, border, 255, 255, 0)
  }

  /** A black pixel becomes white iff its window (read with 0 off the image) holds a white pixel. */
  ghost function Eroded(image: Image, rows: nat, cols: nat, radius: int, border: BorderType): (g: Image)
    requires IsPlane(image, rows, cols) && WindowReadable(rows, cols, radius, border)
    ensures IsPlane(g, rows, cols)
    ensures forall i, j :: 0 <= i < rows && 0 <= j < cols ==>
      g[i][j] == if image[i][j] == 0 && WindowHas(image, rows, cols, i, j, radius, border, 0, 255) then 255 else image[i][j]
  {
    Swept(image, rows, cols, radius, border, 0, 0, 255)
  }

  /** `dilatation`. */
  method Dilatation(image: Image, rows: nat, cols: nat, radius: int, border: BorderType) returns (result: Image)
    requires IsPlane(image, rows, cols) && WindowReadable(rows, cols, radius, border)
    ensures result == Dilated(image, rows, cols, radius, border)
  {
    result := Sweep(image, rows, cols, radius, border, 255, 255, 0);
  }

  /** `erosion`. */
  method Erosion(image: Image, rows: nat, cols: nat, radius: int, border: BorderType) returns (result: Image)
    requires IsPlane(image, rows, cols) && WindowReadable(rows, cols, radius, border)
    ensures result == Eroded(image, rows, cols, radius, border)
  {
    result := Sweep(image, rows, cols, radius, border, 0, 0, 255);
  }

  /** `morphological_opening`: erosion, then dilatation, both with the default "reflect" border. */
  method MorphologicalOpening(image: Image, rows: nat, cols: nat, radius: int) returns (openedImage: Image)
    requires IsPlane(image, rows, cols) && WindowReadable(rows, cols, radius, Reflect)
    ensures openedImage == Dilated(Eroded(image, rows, cols, radius, Reflect), rows, cols, radius, Reflect)
  {
    var eroded := Erosion(image, rows, cols, radius, Reflect);
    openedImage := Dilatation(eroded, rows, cols, radius, Reflect);
  }

  /** `morphological_closing`: dilatation, then erosion, both with the default "reflect" border. */
  method MorphologicalClosing(image: Image, rows: nat, cols: nat, radius: int) returns (closedImage: Image)
    requires IsPlane(image, rows, cols) && WindowReadable(rows, cols, radius, Reflect)
    ensures closedImage == Eroded(Dilated(image, rows, cols, radius, Reflect), rows, cols, radius, Reflect)
  {
    var dilated := Dilatation(image, rows, cols, radius, Reflect);
    closedImage := Erosion(dilated, rows, cols, radius, Reflect);
  }

  // ---------------------------------------------------------------------
  // Properties
  // ---------------------------------------------------------------------

  /** Every pixel is black or white. */
  ghost predicate IsBinary(image: Image, rows: nat, cols: nat)
  {
    IsPlane(image, rows, cols) && forall i, j :: 0 <= i < rows && 0 <= j < cols ==> image[i][j] == 0 || image[i][j] == 255
  }

  /** Dilatation and erosion keep a binary image binary; dilatation only blackens and erosion only whitens. */
  lemma SweepsKeepBinary(image: Image, rows: nat, cols: nat, radius: int, border: BorderType)
    requires IsPlane(image, rows, cols) && WindowReadable(rows, cols, radius, border)
    ensures IsBinary(image, rows, cols) ==> IsBinary(Dilated(image, rows, cols, radius, border), rows, cols)
    ensures IsBinary(image, rows, cols) ==> IsBinary(Eroded(image, rows, cols, radius, border), rows, cols)
    ensures forall i, j :: 0 <= i < rows && 0 <= j < cols && Dilated(image, rows, cols, radius, border)[i][j] != image[i][j] ==>
      image[i][j] == 255 && Dilated(image, rows, cols, radius, border)[i][j] == 0
    ensures forall i, j :: 0 <= i < rows && 0 <= j < cols && Eroded(image, rows, cols, radius, border)[i][j] != image[i][j] ==>
      image[i][j] == 0 && Eroded(image, rows, cols, radius, border)[i][j] == 255
  {
  }

  /** The photographic negative: 255 - p for every pixel. */
  function Invert(image: Image, rows: nat, cols: nat): (g: Image)
    requires IsPlane(image, rows, cols)
    ensures IsPlane(g, rows, cols)
    ensures forall i, j :: 0 <= i < rows && 0 <= j < cols ==> g[i][j] == 255 - image[i][j]
  {
    seq(rows, i requires 0 <= i < rows => seq(cols, j requires 0 <= j < cols => 255 - image[i][j]))
  }

  /** Reading the negative with the complementary constant reads the negative of the pixel. */
  lemma GetPixelOfNegative(image: Image, rows: nat, cols: nat, i: int, j: int, border: BorderType, fill: int)
    requires IsPlane(image, rows, cols) && rows > 0 && cols > 0 && Readable(rows, cols, i, j, border)
    ensures var p := GetPixel(image, rows, cols, i, j, border, fill);
      GetPixel(Invert(image, rows, cols), rows, cols, i, j, border, 255 - fill) ==
        if p.Some? then Some(255 - p.value) else None
  {
  }

  /** A window of the negative holds black exactly where the window of the image holds white. */
  lemma WindowOfNegative(image: Image, rows: nat, cols: nat, i: int, j: int, radius: int, border: BorderType, fill: int, target: int)
    requires IsPlane(image, rows, cols) && 0 <= i < rows && 0 <= j < cols && WindowReadable(rows, cols, radius, border)
    ensures WindowHas(Invert(image, rows, cols), rows, cols, i, j, radius, border, 255 - fill, 255 - target) <==>
      WindowHas(image, rows, cols, i, j, radius, border, fill, target)
  {
    var neg := Invert(image, rows, cols);
    if WindowHas(neg, rows, cols, i, j, radius, border, 255 - fill, 255 - target) {
      var ni, nj :| ni < i + radius + 1 && WindowHit(neg, rows, cols, i, j, radius, border, 255 - fill, 255 - target, ni, nj);
      GetPixelOfNegative(image, rows, cols, ni, nj, border, fill);
      assert WindowHit(image, rows, cols, i, j, radius, border, fill, target, ni, nj);
    }
    if WindowHas(image, rows, cols, i, j, radius, border, fill, target) {
      var ni, nj :| ni < i + radius + 1 && WindowHit(image, rows, cols, i, j, radius, border, fill, target, ni, nj);
      GetPixelOfNegative(image, rows, cols, ni, nj, border, fill);
      assert WindowHit(neg, rows, cols, i, j, radius, border, 255 - fill, 255 - target, ni, nj);
    }
  }

  /**
   * Duality: dilating the negative is the negative of eroding the image,
   * and eroding the negative is the negative of dilating it.
   */
  lemma DilationErosionDuality(image: Image, rows: nat, cols: nat, radius: int, border: BorderType)
    requires IsPlane(image, rows, cols) && WindowReadable(rows, cols, radius, border)
    ensures Dilated(Invert(image, rows, cols), rows, cols, radius, border) == Invert(Eroded(image, rows, cols, radius, border), rows, cols)
    ensures Eroded(Invert(image, rows, cols), rows, cols, radius, border) == Invert(Dilated(image, rows, cols, radius, border), rows, cols)
  {
    var neg := Invert(image, rows, cols);
    var d, e := Dilated(neg, rows, cols, radius, border), Invert(Eroded(image, rows, cols, radius, border), rows, cols);
    forall i, j | 0 <= i < rows && 0 <= j < cols
      ensures d[i][j] == e[i][j]
    {
      DilatedNegativeAt(image, rows, cols, radius, border, i, j);
    }
    PlaneExtensionality(d, e, rows, cols);
    var d', e' := Eroded(neg, rows, cols, radius, border), Invert(Dilated(image, rows, cols, radius, border), rows, cols);
    forall i, j | 0 <= i < rows && 0 <= j < cols
      ensures d'[i][j] == e'[i][j]
    {
      ErodedNegativeAt(image, rows, cols, radius, border, i, j);
    }
    PlaneExtensionality(d', e', rows, cols);
  }

  /** The duality at one pixel: dilating the negative blackens what eroding the image whitens. */
  lemma DilatedNegativeAt(image: Image, rows: nat, cols: nat, radius: int, border: BorderType, i: int, j: int)
    requires IsPlane(image, rows, cols) && WindowReadable(rows, cols, radius, border) && 0 <= i < rows && 0 <= j < cols
    ensures Dilated(Invert(image, rows, cols), rows, cols, radius, border)[i][j] == 255 - Eroded(image, rows, cols, radius, border)[i][j]
  {
    var neg := Invert(image, rows, cols);
    var hit := WindowHas(image, rows, cols, i, j, radius, border, 0, 255);
    WindowOfNegative(image, rows, cols, i, j, radius, border, 0, 255);
    assert WindowHas(neg, rows, cols, i, j, radius, border, 255, 0) == hit;
    assert neg[i][j] == 255 - image[i][j];
  }

  /** And eroding the negative whitens what dilating the image blackens. */
  lemma ErodedNegativeAt(image: Image, rows: nat, cols: nat, radius: int, border: BorderType, i: int, j: int)
    requires IsPlane(image, rows, cols) && WindowReadable(rows, cols, radius, border) && 0 <= i < rows && 0 <= j < cols
    ensures Eroded(Invert(image, rows, cols), rows, cols, radius, border)[i][j] == 255 - Dilated(image, rows, cols, radius, border)[i][j]
  {
    var neg := Invert(image, rows, cols);
    var hit := WindowHas(image, rows, cols, i, j, radius, border, 255, 0);
    WindowOfNegative(image, rows, cols, i, j, radius, border, 255, 0);
    assert WindowHas(neg, rows, cols, i, j, radius, border, 0, 255) == hit;
    assert neg[i][j] == 255 - image[i][j];
  }

  /** Closing the negative is the negative of opening the image. */
  lemma OpeningClosingDuality(image: Image, rows: nat, cols: nat, radius: int)
    requires IsPlane(image, rows, cols) && WindowReadable(rows, cols, radius, Reflect)
    ensures var neg := Invert(image, rows, cols);
      Eroded(Dilated(neg, rows, cols, radius, Reflect), rows, cols, radius, Reflect) ==
        Invert(Dilated(Eroded(image, rows, cols, radius, Reflect), rows, cols, radius, Reflect), rows, cols)
  {
    var eroded := Eroded(image, rows, cols, radius, Reflect);
    DilationErosionDuality(image, rows, cols, radius, Reflect);
    DilationErosionDuality(eroded, rows, cols, radius, Reflect);
  }
}
