/**
  The data the registration works on: organized clouds of points, the pinhole
  camera, rigid transforms and the foreign numerical primitives (PCL, Eigen and
  the photometric helpers), which enter the model as function-valued fields.
 */
module Geometry {
  import opened Wrappers

  /** A rigid transform (Eigen's Affine3f). Its numerics are foreign. */
  type Transform(==)

  /**
    One sample of an organized cloud. `finite` is false for the not-a-number
    sentinel of a missing depth; x, y and z then carry no meaning, while the
    colour channel (`intensity`) is still there.
   */
  datatype Point = Point(x: real, y: real, z: real, intensity: real, finite: bool)

  /** An image coordinate: column (x) and row (y). */
  datatype Pixel = Pixel(col: int, row: int)

  /** Pinhole intrinsics and the size of the organized grids. */
  datatype Camera = Camera(fx: real, fy: real, cx: real, cy: real, width: int, height: int)

  /** A pose vector (Vector6f): translation x, y, z, then three Euler angles. */
  type Vector6 = s: seq<real> | |s| == 6 witness [0.0, 0.0, 0.0, 0.0, 0.0, 0.0]

  /** One correspondence handed to the weighted transform solver. */
  datatype WeightedPair = WeightedPair(from: Point, to: Point, weight: real)

  /**
    The primitives the core calls but does not define:
    transformPoint (pcl::transformPoint), norm (Euclidean distance of two
    finite points), colorSim (colorsimGray, None for NaN), residual
    (getresidual, None for NaN), solve (TransformationFromCorrespondences),
    compose (the product of two Affine3f), toPose
    (getTranslationAndEulerAngles), fromPose (getTransformation) and the
    identity transform.
   */
  datatype Ops = Ops(
    transformPoint: (Transform, Point) -> Point,
    norm: (Point, Point) -> real,
    colorSim: (Point, Point) -> Option<real>,
    residual: (Point, Point) -> Option<real>,
    solve: seq<WeightedPair> -> Transform,
    compose: (Transform, Transform) -> Transform,
    toPose: Transform -> Vector6,
    fromPose: Vector6 -> Transform,
    identity: Transform)

  /** The 3D gap between two points; not-a-number (None) unless both are finite. */
  function Distance(ops: Ops, a: Point, b: Point): Option<real>
  {
    if a.finite && b.finite then Some(ops.norm(a, b)) else None
  }

  /**
    Pinhole projection `floor(fx/z*x + cx)`, `floor(fy/z*y + cy)`. A point
    without depth, or at depth zero, has no pixel: the float code would
    produce an out-of-range integer that every caller rejects.
   */
  function Project(cam: Camera, p: Point): Option<Pixel>
  {
    if !p.finite || p.z == 0.0 then None
    else Some(Pixel((cam.fx / p.z * p.x + cam.cx).Floor, (cam.fy / p.z * p.y + cam.cy).Floor))
  }

  function Abs(x: real): real { if x < 0.0 then -x else x }

  /** A row-major position inside a width x height grid lies inside the grid's storage. */
  lemma GridIndexInRange(col: int, row: int, w: int, h: int)
    requires 0 <= col < w && 0 <= row < h
    ensures 0 <= row * w + col < w * h
  {
    assert row * w + w == (row + 1) * w;
    assert (row + 1) * w <= h * w by {
      MulLeq(row + 1, h, w);
    }
  }

  lemma MulLeq(a: int, b: int, c: int)
    requires a <= b && 0 <= c
    ensures a * c <= b * c
  {
    assert b * c - a * c == (b - a) * c;
  }

  /** A non-negative number written as q*w + r with 0 <= r < w has quotient q and remainder r. */
  lemma DivModUnique(k: int, w: int, q: int, r: int)
    requires 0 < w && 0 <= r < w && k == q * w + r
    ensures k / w == q && k % w == r
  {
    var q', r' := k / w, k % w;
    assert k == q' * w + r';
    assert (q - q') * w == r' - r;
    if q > q' {
      MulLeq(1, q - q', w);
    } else if q < q' {
      MulLeq(1, q' - q, w);
    }
  }

  /**
    The bounds-checked grid accessor: the storage index of pixel (col, row),
    or None outside the grid. The index it gives addresses exactly that
    column and that row.
   */
  function GridIndex(w: int, h: int, col: int, row: int): (k: Option<int>)
    ensures k.Some? <==> 0 <= col < w && 0 <= row < h
    ensures k.Some? ==> 0 <= k.value < w * h && k.value / w == row && k.value % w == col
  {
    if 0 <= col < w && 0 <= row < h then
      GridIndexInRange(col, row, w, h);
      DivModUnique(row * w + col, w, row, col);
      Some(row * w + col)
    else None
  }

  // ---------------------------------------------------------------------
  // The sampler's neighbour reads as the source writes them, in size_t
  // (unsigned 64-bit) arithmetic.

  const SizeTModulus: int := 0x1_0000_0000_0000_0000

  /** Conversion to size_t: wrap-around modulo 2^64. */
  function SizeT(x: int): nat { x % SizeTModulus }

  /** `(j-4)*width+i` with j, i and the products in size_t. */
  function UpIndexAsWritten(col: nat, row: nat, w: nat): nat
  {
    SizeT(SizeT(row - 4) * w + col)
  }

  /** `j*width+i-4` with every operand in size_t. */
  function LeftIndexAsWritten(col: nat, row: nat, w: nat): nat
  {
    SizeT(row * w + col - 4)
  }

  lemma ModShift(a: int, q: int)
    ensures (a + q * SizeTModulus) % SizeTModulus == a % SizeTModulus
  {
    DivModUnique(a + q * SizeTModulus, SizeTModulus, a / SizeTModulus + q, a % SizeTModulus);
  }

  /**
    For the rows 2 and 3 of the sampling lattice the up-neighbour index
    wraps around in size_t and lands beyond the end of the grid.
   */
  lemma UpIndexAsWrittenLeavesGrid(col: nat, row: nat, w: nat, h: nat)
    requires row < 4 && col < w && w * h + 4 * w <= SizeTModulus
    ensures UpIndexAsWritten(col, row, w) >= w * h
  {
    var m := SizeTModulus;
    DivModUnique(row - 4, m, -1, m + row - 4);
    assert SizeT(row - 4) == m + row - 4;
    var a := (row - 4) * w + col;
    assert (m + row - 4) * w + col == a + w * m;
    ModShift(a, w);
    assert -4 * w <= a < 0 by {
      MulLeq(row - 4, -1, w);
      MulLeq(-4, row - 4, w);
    }
    DivModUnique(a, m, -1, a + m);
    assert UpIndexAsWritten(col, row, w) == a + m;
  }

  /** The same read on a concrete 640 x 480 grid, at lattice site (3, 3). */
  lemma UpIndexAsWrittenExample()
    ensures UpIndexAsWritten(3, 3, 640) >= 640 * 480
  {
    UpIndexAsWrittenLeavesGrid(3, 3, 640, 480);
  }

  /**
    For the columns 2 and 3 of the lattice the left-neighbour index stays in
    the grid but addresses the previous row, at the far right: column
    w + col - 4, not the pixel four columns to the left.
   */
  lemma LeftIndexAsWrittenWrapsRow(col: nat, row: nat, w: nat, h: nat)
    requires col < 4 && 1 <= row < h && 4 <= w && w * h <= SizeTModulus
    ensures GridIndex(w, h, w + col - 4, row - 1).Some?
    ensures LeftIndexAsWritten(col, row, w) == GridIndex(w, h, w + col - 4, row - 1).value
    ensures GridIndex(w, h, col - 4, row).None?
  {
    var k := (row - 1) * w + (w + col - 4);
    assert row * w + col - 4 == k;
    GridIndexInRange(w + col - 4, row - 1, w, h);
    DivModUnique(k, SizeTModulus, 0, k);
  }
}
