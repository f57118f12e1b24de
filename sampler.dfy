/**
  The salient-point sampler: a stride-2 lattice over the source grid, the
  depth, border, discontinuity and salience tests applied at each lattice
  site, the random fallback when too few sites pass, and the final removal
  of points without depth.
 */
module Sampler {
  import opened Wrappers
  import opened Geometry

  /** Points farther than this (in metres) are not sampled. */
  const MaxDepth: real := 8.0
  /** A ±2 neighbour more than 0.021 z nearer than the site marks a depth discontinuity. */
  const EdgeRatio: real := 0.021
  /** A colour similarity at or below this marks an intensity edge. */
  const SimilarityLimit: real := 0.85
  /** An intensity residual above this marks a site the prediction gets wrong. */
  const ResidualLimit: real := 100.0
  /** A second depth difference above 0.03 z marks a bend in the surface. */
  const CurvatureRatio: real := 0.03
  /** Fewer kept sites than this call for the fallback. */
  const MinSalient: nat := 200
  /** How many random source points the fallback appends. */
  const FallbackCount: nat := 1000
  /** The projected pixel must keep this distance from every image edge. */
  const SampleBorder: int := 3

  /** The two organized grids, the camera, the primitives and the predicted transform. */
  datatype Frames = Frames(src: seq<Point>, tgt: seq<Point>, cam: Camera, ops: Ops, predict: Transform)
  {
    /** Two grids of the camera's size, at least 7 x 7 (below that the lattice bound wraps around). */
    predicate Valid()
    {
      cam.width >= 7 && cam.height >= 7 &&
      |src| == cam.width * cam.height && |tgt| == cam.width * cam.height
    }
  }

  /** The source point at (col, row). */
  function SourceAt(f: Frames, col: int, row: int): Point
    requires f.Valid() && 0 <= col < f.cam.width && 0 <= row < f.cam.height
  {
    GridIndexInRange(col, row, f.cam.width, f.cam.height);
    f.src[row * f.cam.width + col]
  }

  /** Sites whose ±2 neighbours and right and lower ±4 neighbours all lie in the grid. */
  predicate Interior(f: Frames, i: int, j: int)
  {
    2 <= i && i + 4 < f.cam.width && 2 <= j && j + 4 < f.cam.height
  }

  /** `z - z'` towards a neighbour; not a number when the neighbour has no depth. */
  function DepthDiff(p: Point, q: Point): Option<real>
  {
    if q.finite then Some(p.z - q.z) else None
  }

  /** The depth differences towards the right, left, upper and lower neighbours at distance 2. */
  function DepthDiffs(f: Frames, i: int, j: int): (d: seq<Option<real>>)
    requires f.Valid() && Interior(f, i, j)
    ensures |d| == 4
  {
    var p := SourceAt(f, i, j);
    [DepthDiff(p, SourceAt(f, i + 2, j)), DepthDiff(p, SourceAt(f, i - 2, j)),
     DepthDiff(p, SourceAt(f, i, j - 2)), DepthDiff(p, SourceAt(f, i, j + 2))]
  }

  /** Not on a discontinuity: all four differences defined and none above 0.021 z. */
  predicate OnSurface(d: seq<Option<real>>, z: real)
    requires |d| == 4
  {
    Below(d[0], EdgeRatio * z) && Below(d[1], EdgeRatio * z) &&
    Below(d[2], EdgeRatio * z) && Below(d[3], EdgeRatio * z)
  }

  /** A defined difference no greater than the limit. */
  predicate Below(o: Option<real>, limit: real)
  {
    o.Some? && o.value <= limit
  }

  /**
    The colour similarity of the two points four pixels either side of the
    site, not a number when either lies outside the grid.
   */
  function Similarity(f: Frames, a: Pixel, b: Pixel): Option<real>
    requires f.Valid()
  {
    var ka := GridIndex(f.cam.width, f.cam.height, a.col, a.row);
    var kb := GridIndex(f.cam.width, f.cam.height, b.col, b.row);
    if ka.None? || kb.None? then None else f.ops.colorSim(f.src[ka.value], f.src[kb.value])
  }

  /** An intensity edge across the site, horizontally or vertically. */
  predicate Textured(f: Frames, i: int, j: int)
    requires f.Valid()
  {
    var sim1 := Similarity(f, Pixel(i - 4, j), Pixel(i + 4, j));
    var sim2 := Similarity(f, Pixel(i, j - 4), Pixel(i, j + 4));
    (sim1.Some? && sim1.value <= SimilarityLimit) || (sim2.Some? && sim2.value <= SimilarityLimit)
  }

  /** The predicted target pixel disagrees in intensity with the untransformed source point. */
  predicate Contrasting(f: Frames, pt: Point, px: Pixel)
    requires f.Valid() && 0 <= px.col < f.cam.width && 0 <= px.row < f.cam.height
  {
    GridIndexInRange(px.col, px.row, f.cam.width, f.cam.height);
    var residual := f.ops.residual(f.tgt[px.row * f.cam.width + px.col], pt);
    residual.Some? && Abs(residual.value) > ResidualLimit
  }

  /** The surface bends: a second difference above 0.03 z, horizontally or vertically. */
  predicate Bent(d: seq<Option<real>>, z: real)
    requires |d| == 4 && d[0].Some? && d[1].Some? && d[2].Some? && d[3].Some?
  {
    Abs(d[0].value - d[1].value) > CurvatureRatio * z || Abs(d[2].value - d[3].value) > CurvatureRatio * z
  }

  /** Where the predicted transform sends a source point in the target image. */
  function WarpedPixel(f: Frames, pt: Point): Option<Pixel>
  {
    Project(f.cam, f.ops.transformPoint(f.predict, pt))
  }

  /** Inside the target image with a 3-pixel margin: [3, width-4] x [3, height-4]. */
  predicate InSampleBorder(cam: Camera, px: Pixel)
  {
    SampleBorder <= px.col < cam.width - SampleBorder && SampleBorder <= px.row < cam.height - SampleBorder
  }

  /**
    The sampler keeps site (i, j): an interior site whose point has depth, no
    deeper than 8, lands inside the margin under the prediction, is not on a
    depth discontinuity, and passes one of the three salience tests.
   */
  predicate Salient(f: Frames, i: int, j: int)
    requires f.Valid()
  {
    Interior(f, i, j) &&
    var pt := SourceAt(f, i, j);
    pt.finite && pt.z <= MaxDepth &&
    var px := WarpedPixel(f, pt);
    px.Some? && InSampleBorder(f.cam, px.value) &&
    var d := DepthDiffs(f, i, j);
    OnSurface(d, pt.z) &&
    (Textured(f, i, j) || Contrasting(f, pt, px.value) || Bent(d, pt.z))
  }

  /**
    Lines 51-98: the tests at one site, in the source's order, each failed
    one abandoning the site and the first passed salience test keeping it.
   */
  method Inspect(f: Frames, i: int, j: int) returns (keep: bool)
    requires f.Valid() && Interior(f, i, j)
    ensures keep == Salient(f, i, j)
  {
    var w, h := f.cam.width, f.cam.height;
    var pt := SourceAt(f, i, j);
    if !pt.finite || pt.z > MaxDepth {
      return false;
    }
    var px := WarpedPixel(f, pt);
    if px.None? {
      return false;
    }
    var xpos, ypos := px.value.col, px.value.row;
    if xpos >= w - 3 || ypos >= h - 3 || xpos < 3 || ypos < 3 {
      return false;
    }
    var z := pt.z;
    var diff1 := DepthDiff(pt, SourceAt(f, i + 2, j));
    var diff2 := DepthDiff(pt, SourceAt(f, i - 2, j));
    var diff3 := DepthDiff(pt, SourceAt(f, i, j - 2));
    var diff4 := DepthDiff(pt, SourceAt(f, i, j + 2));
    ghost var d := DepthDiffs(f, i, j);
    assert d == [diff1, diff2, diff3, diff4];
    if diff1.None? || diff2.None? || diff3.None? || diff4.None? {
      return false;
    }
    var thres := EdgeRatio * z;
    if diff1.value > thres || diff2.value > thres || diff3.value > thres || diff4.value > thres {
      return false;
    }
    assert OnSurface(d, z);
    var sim1 := Similarity(f, Pixel(i - 4, j), Pixel(i + 4, j));
    var sim2 := Similarity(f, Pixel(i, j - 4), Pixel(i, j + 4));
    if (sim1.Some? && sim1.value <= SimilarityLimit) || (sim2.Some? && sim2.value <= SimilarityLimit) {
      return true;
    }
    GridIndexInRange(xpos, ypos, w, h);
    var residual := f.ops.residual(f.tgt[ypos * w + xpos], pt);
    if residual.Some? && Abs(residual.value) > ResidualLimit {
      return true;
    }
    if Abs(diff1.value - diff2.value) > CurvatureRatio * z || Abs(diff3.value - diff4.value) > CurvatureRatio * z {
      return true;
    }
    return false;
  }

  // ---------------------------------------------------------------------
  // The lattice

  /** How many of begin, begin+2, ... lie below `extent - begin - 4`. */
  function LatticeCount(extent: int, begin: int): nat
  {
    if extent - 2 * begin - 4 <= 0 then 0 else (extent - 2 * begin - 3) / 2
  }

  /** Step k of the lattice is inside the loop bound exactly when k is below LatticeCount. */
  lemma LatticeCountSpec(extent: int, begin: int, k: nat)
    ensures begin + 2 * k < extent - begin - 4 <==> k < LatticeCount(extent, begin)
  {
  }

  /** The two starting offsets `2 + rand() % 2`. */
  predicate ValidBegin(begin: int) { begin == 2 || begin == 3 }

  /** A site of the lattice that starts at `begin`: both coordinates begin + 2k, inside the loop bounds. */
  predicate LatticeSite(f: Frames, begin: int, p: Pixel)
  {
    begin <= p.col && (p.col - begin) % 2 == 0 && (p.col - begin) / 2 < LatticeCount(f.cam.width, begin) &&
    begin <= p.row && (p.row - begin) % 2 == 0 && (p.row - begin) / 2 < LatticeCount(f.cam.height, begin)
  }

  /** The kept sites of column i among its first n lattice rows, top to bottom. */
  function ColumnSites(f: Frames, begin: int, i: int, n: nat): seq<Pixel>
    requires f.Valid()
  {
    if n == 0 then []
    else
      var j := begin + 2 * (n - 1);
      ColumnSites(f, begin, i, n - 1) + (if Salient(f, i, j) then [Pixel(i, j)] else [])
  }

  lemma ColumnSitesStep(f: Frames, begin: int, i: int, b: nat)
    requires f.Valid()
    ensures ColumnSites(f, begin, i, b + 1) ==
      ColumnSites(f, begin, i, b) + (if Salient(f, i, begin + 2 * b) then [Pixel(i, begin + 2 * b)] else [])
  {
  }

  /** The kept sites of the first m lattice columns, column by column. */
  function KeptSites(f: Frames, begin: int, m: nat): seq<Pixel>
    requires f.Valid()
  {
    if m == 0 then []
    else KeptSites(f, begin, m - 1) + ColumnSites(f, begin, begin + 2 * (m - 1), LatticeCount(f.cam.height, begin))
  }

  lemma KeptSitesStep(f: Frames, begin: int, a: nat)
    requires f.Valid()
    ensures KeptSites(f, begin, a + 1) ==
      KeptSites(f, begin, a) + ColumnSites(f, begin, begin + 2 * a, LatticeCount(f.cam.height, begin))
  {
  }

  /** The kept sites of the whole lattice. */
  function LatticeSites(f: Frames, begin: int): seq<Pixel>
    requires f.Valid()
  {
    KeptSites(f, begin, LatticeCount(f.cam.width, begin))
  }

  /** The offsets begin + 2k for k < n are those for k < n - 1 and begin + 2(n - 1). */
  lemma StrideStep(x: int, begin: int, n: nat)
    requires n > 0
    ensures (begin <= x && (x - begin) % 2 == 0 && (x - begin) / 2 < n) <==>
      (begin <= x && (x - begin) % 2 == 0 && (x - begin) / 2 < n - 1) || x == begin + 2 * (n - 1)
  {
  }

  lemma {:induction false} ColumnSitesSpec(f: Frames, begin: int, i: int, n: nat, p: Pixel)
    requires f.Valid()
    ensures p in ColumnSites(f, begin, i, n) <==>
      p.col == i && begin <= p.row && (p.row - begin) % 2 == 0 && (p.row - begin) / 2 < n && Salient(f, i, p.row)
  {
    if n > 0 {
      ColumnSitesSpec(f, begin, i, n - 1, p);
      StrideStep(p.row, begin, n);
    }
  }

  lemma {:induction false} KeptSitesSpec(f: Frames, begin: int, m: nat, p: Pixel)
    requires f.Valid()
    ensures p in KeptSites(f, begin, m) <==>
      begin <= p.col && (p.col - begin) % 2 == 0 && (p.col - begin) / 2 < m &&
      begin <= p.row && (p.row - begin) % 2 == 0 && (p.row - begin) / 2 < LatticeCount(f.cam.height, begin) &&
      Salient(f, p.col, p.row)
  {
    if m > 0 {
      KeptSitesSpec(f, begin, m - 1, p);
      ColumnSitesSpec(f, begin, begin + 2 * (m - 1), LatticeCount(f.cam.height, begin), p);
      StrideStep(p.col, begin, m);
    }
  }

  /**
    The sampler keeps exactly the lattice sites that pass the tests: every
    kept site is a salient lattice site and every salient lattice site is kept.
   */
  lemma LatticeSitesSpec(f: Frames, begin: int)
    requires f.Valid()
    ensures forall p :: p in LatticeSites(f, begin) <==> LatticeSite(f, begin, p) && Salient(f, p.col, p.row)
  {
    forall p
      ensures p in LatticeSites(f, begin) <==> LatticeSite(f, begin, p) && Salient(f, p.col, p.row)
    {
      KeptSitesSpec(f, begin, LatticeCount(f.cam.width, begin), p);
    }
  }

  predicate SitesInGrid(f: Frames, sites: seq<Pixel>)
  {
    forall k :: 0 <= k < |sites| ==> 0 <= sites[k].col < f.cam.width && 0 <= sites[k].row < f.cam.height
  }

  /** The source points at a sequence of grid sites. */
  function PointsAt(f: Frames, sites: seq<Pixel>): (pts: seq<Point>)
    requires f.Valid() && SitesInGrid(f, sites)
    ensures |pts| == |sites|
  {
    seq(|sites|, k requires 0 <= k < |sites| => SourceAt(f, sites[k].col, sites[k].row))
  }

  lemma PointsAtAppend(f: Frames, sites: seq<Pixel>, p: Pixel)
    requires f.Valid() && SitesInGrid(f, sites) && 0 <= p.col < f.cam.width && 0 <= p.row < f.cam.height
    ensures SitesInGrid(f, sites + [p])
    ensures PointsAt(f, sites + [p]) == PointsAt(f, sites) + [SourceAt(f, p.col, p.row)]
  {
  }

  /** Kept sites are interior sites of the grid. */
  lemma LatticeSitesInGrid(f: Frames, begin: int)
    requires f.Valid()
    ensures forall k :: 0 <= k < |LatticeSites(f, begin)| ==>
      Interior(f, LatticeSites(f, begin)[k].col, LatticeSites(f, begin)[k].row)
  {
    LatticeSitesSpec(f, begin);
    forall k | 0 <= k < |LatticeSites(f, begin)|
      ensures Interior(f, LatticeSites(f, begin)[k].col, LatticeSites(f, begin)[k].row)
    {
      var p := LatticeSites(f, begin)[k];
      assert p in LatticeSites(f, begin);
    }
  }

  /** The points the lattice phase keeps, in the order it keeps them. */
  function LatticePoints(f: Frames, begin: int): seq<Point>
    requires f.Valid()
  {
    LatticeSitesInGrid(f, begin);
    PointsAt(f, LatticeSites(f, begin))
  }

  /**
    Every point the lattice phase keeps has depth, lies no deeper than 8,
    and comes from a salient lattice site.
   */
  lemma LatticePointsSpec(f: Frames, begin: int)
    requires f.Valid()
    ensures |LatticePoints(f, begin)| == |LatticeSites(f, begin)|
    ensures forall k :: 0 <= k < |LatticePoints(f, begin)| ==>
      var p := LatticeSites(f, begin)[k];
      LatticeSite(f, begin, p) && Salient(f, p.col, p.row) &&
      LatticePoints(f, begin)[k] == SourceAt(f, p.col, p.row) &&
      LatticePoints(f, begin)[k].finite && LatticePoints(f, begin)[k].z <= MaxDepth
  {
    LatticeSitesSpec(f, begin);
    LatticeSitesInGrid(f, begin);
    forall k | 0 <= k < |LatticePoints(f, begin)|
      ensures LatticeSite(f, begin, LatticeSites(f, begin)[k]) &&
        Salient(f, LatticeSites(f, begin)[k].col, LatticeSites(f, begin)[k].row)
    {
      assert LatticeSites(f, begin)[k] in LatticeSites(f, begin);
    }
  }

  /**
    Lines 46-108: the lattice loops, columns outer and rows inner, both from
    `begin` in steps of 2 below `extent - begin - 4`; each kept point is
    appended and counted.
   */
  method ScanLattice(f: Frames, begin: int) returns (kept: seq<Point>, cnt: nat)
    requires f.Valid() && ValidBegin(begin)
    ensures kept == LatticePoints(f, begin)
    ensures cnt == |kept|
  {
    var w := f.cam.width;
    kept, cnt := [], 0;
    ghost var a: nat := 0;
    var i := begin;
    while i < w - begin - 4
      invariant i == begin + 2 * a && a <= LatticeCount(w, begin)
      invariant SitesInGrid(f, KeptSites(f, begin, a))
      invariant kept == PointsAt(f, KeptSites(f, begin, a)) && cnt == |kept|
      decreases w - i
    {
      LatticeCountSpec(w, begin, a);
      kept, cnt := ScanColumn(f, begin, i, KeptSites(f, begin, a), kept, cnt);
      KeptSitesStep(f, begin, a);
      i := i + 2;
      a := a + 1;
    }
    LatticeCountSpec(w, begin, a);
  }

  /** One row of a column: the kept sites and their points grow by the site exactly when it is salient. */
  lemma ColumnSitesAdvance(f: Frames, begin: int, i: int, b: nat, before: seq<Pixel>, keep: bool)
    requires f.Valid() && ValidBegin(begin) && begin <= i < f.cam.width - begin - 4
    requires begin + 2 * b < f.cam.height - begin - 4
    requires keep == Salient(f, i, begin + 2 * b)
    requires SitesInGrid(f, before + ColumnSites(f, begin, i, b))
    ensures SitesInGrid(f, before + ColumnSites(f, begin, i, b + 1))
    ensures PointsAt(f, before + ColumnSites(f, begin, i, b + 1)) ==
      PointsAt(f, before + ColumnSites(f, begin, i, b)) + (if keep then [SourceAt(f, i, begin + 2 * b)] else [])
  {
    var col := ColumnSites(f, begin, i, b);
    var p := Pixel(i, begin + 2 * b);
    ColumnSitesStep(f, begin, i, b);
    if keep {
      PointsAtAppend(f, before + col, p);
      assert before + col + [p] == before + (col + [p]);
    } else {
      assert col + [] == col;
    }
  }

  /** Lines 51-106 at one site: the site's point is appended and counted exactly when the site passes the tests. */
  method ScanSite(f: Frames, begin: int, i: int, j: int, ghost b: nat, ghost before: seq<Pixel>, kept0: seq<Point>, cnt0: nat)
    returns (kept: seq<Point>, cnt: nat)
    requires f.Valid() && ValidBegin(begin) && begin <= i < f.cam.width - begin - 4
    requires j == begin + 2 * b && j < f.cam.height - begin - 4
    requires SitesInGrid(f, before + ColumnSites(f, begin, i, b))
    requires kept0 == PointsAt(f, before + ColumnSites(f, begin, i, b)) && cnt0 == |kept0|
    ensures SitesInGrid(f, before + ColumnSites(f, begin, i, b + 1))
    ensures kept == PointsAt(f, before + ColumnSites(f, begin, i, b + 1)) && cnt == |kept|
  {
    var keep := Inspect(f, i, j);
    ColumnSitesAdvance(f, begin, i, b, before, keep);
    kept, cnt := kept0, cnt0;
    if keep {
      kept := kept + [SourceAt(f, i, j)];
      cnt := cnt + 1;
    }
  }

  /** The inner loop of the lattice scan: the rows of column i, appended to what was kept before. */
  method ScanColumn(f: Frames, begin: int, i: int, ghost before: seq<Pixel>, kept0: seq<Point>, cnt0: nat)
    returns (kept: seq<Point>, cnt: nat)
    requires f.Valid() && ValidBegin(begin) && begin <= i < f.cam.width - begin - 4
    requires SitesInGrid(f, before) && kept0 == PointsAt(f, before) && cnt0 == |kept0|
    ensures SitesInGrid(f, before + ColumnSites(f, begin, i, LatticeCount(f.cam.height, begin)))
    ensures kept == PointsAt(f, before + ColumnSites(f, begin, i, LatticeCount(f.cam.height, begin)))
    ensures cnt == |kept|
  {
    var h := f.cam.height;
    kept, cnt := kept0, cnt0;
    ghost var b: nat := 0;
    assert before + [] == before;
    var j := begin;
    while j < h - begin - 4
      invariant j == begin + 2 * b && b <= LatticeCount(h, begin)
      invariant SitesInGrid(f, before + ColumnSites(f, begin, i, b))
      invariant kept == PointsAt(f, before + ColumnSites(f, begin, i, b)) && cnt == |kept|
      decreases h - j
    {
      LatticeCountSpec(h, begin, b);
      kept, cnt := ScanSite(f, begin, i, j, b, before, kept, cnt);
      j := j + 2;
      b := b + 1;
    }
    LatticeCountSpec(h, begin, b);
  }

  // ---------------------------------------------------------------------
  // Fallback and the removal of points without depth

  /** The n source points drawn by rand() values cursor, cursor+1, ... */
  function FallbackDraws(src: seq<Point>, rand: nat -> nat, cursor: nat, n: nat): (r: seq<Point>)
    requires |src| > 0
    ensures |r| == n
  {
    seq(n, k requires 0 <= k < n => src[rand(cursor + k) % |src|])
  }

  /** Lines 110-112: 1000 random source points are appended to what is there. */
  method AppendFallback(src: seq<Point>, points: seq<Point>, rand: nat -> nat, cursor: nat)
    returns (appended: seq<Point>, next: nat)
    requires |src| > 0
    ensures appended == points + FallbackDraws(src, rand, cursor, FallbackCount)
    ensures |appended| == |points| + FallbackCount && appended[..|points|] == points
    ensures next == cursor + FallbackCount
  {
    appended, next := points, cursor;
    for i := 0 to FallbackCount
      invariant next == cursor + i
      invariant appended == points + FallbackDraws(src, rand, cursor, i)
    {
      appended := appended + [src[rand(next) % |src|]];
      next := next + 1;
    }
  }

  /**
    removeNaNFromPointCloud: the points with depth, in their order. A point
    is in the result exactly when it is in the cloud and has depth.
   */
  function RemoveNaN(s: seq<Point>): (r: seq<Point>)
    ensures |r| <= |s|
    ensures forall k :: 0 <= k < |r| ==> r[k].finite
    ensures forall p :: p in r <==> p in s && p.finite
  {
    if s == [] then []
    else if s[0].finite then [s[0]] + RemoveNaN(s[1..])
    else RemoveNaN(s[1..])
  }

  /** Filtering two clouds one after the other filters each and keeps their order. */
  lemma {:induction false} RemoveNaNAppend(a: seq<Point>, b: seq<Point>)
    ensures RemoveNaN(a + b) == RemoveNaN(a) + RemoveNaN(b)
  {
    if a == [] {
      assert a + b == b;
    } else {
      assert (a + b)[0] == a[0];
      assert (a + b)[1..] == a[1..] + b;
      RemoveNaNAppend(a[1..], b);
    }
  }

  /** A cloud whose points all have depth passes the filter unchanged. */
  lemma {:induction false} RemoveNaNKeepsFinite(a: seq<Point>)
    requires forall k :: 0 <= k < |a| ==> a[k].finite
    ensures RemoveNaN(a) == a
  {
    if a != [] {
      RemoveNaNKeepsFinite(a[1..]);
      assert a == [a[0]] + a[1..];
    }
  }

  /** Removing points without depth leaves a prefix of points with depth untouched. */
  lemma RemoveNaNKeepsFinitePrefix(a: seq<Point>, b: seq<Point>)
    requires forall k :: 0 <= k < |a| ==> a[k].finite
    ensures RemoveNaN(a + b) == a + RemoveNaN(b)
  {
    RemoveNaNAppend(a, b);
    RemoveNaNKeepsFinite(a);
  }

  /** The lattice's starting offset drawn from rand() value number `cursor`. */
  function Begin(rand: nat -> nat, cursor: nat): (begin: int)
    ensures ValidBegin(begin)
  {
    2 + rand(cursor) % 2
  }

  /** The salient cloud sampleSource leaves, drawing from rand() value `cursor` on. */
  function Sampled(f: Frames, rand: nat -> nat, cursor: nat): seq<Point>
    requires f.Valid()
  {
    var kept := LatticePoints(f, Begin(rand, cursor));
    RemoveNaN(if |kept| < MinSalient then kept + FallbackDraws(f.src, rand, cursor + 1, FallbackCount) else kept)
  }

  /** How many rand() values sampleSource consumes. */
  function SamplingDraws(f: Frames, rand: nat -> nat, cursor: nat): nat
    requires f.Valid()
  {
    if |LatticePoints(f, Begin(rand, cursor))| < MinSalient then 1 + FallbackCount else 1
  }

  /**
    The sampled cloud starts with the points the lattice kept, in order;
    with fewer than 200 of them the 1000 fallback points follow (those with
    depth), otherwise nothing does. Every point of the cloud has depth.
   */
  lemma SampledSpec(f: Frames, rand: nat -> nat, cursor: nat)
    requires f.Valid()
    ensures var kept := LatticePoints(f, Begin(rand, cursor));
      var fallback := FallbackDraws(f.src, rand, cursor + 1, FallbackCount);
      (|kept| < MinSalient ==> Sampled(f, rand, cursor) == kept + RemoveNaN(fallback) && |fallback| == FallbackCount) &&
      (|kept| >= MinSalient ==> Sampled(f, rand, cursor) == kept)
    ensures forall k :: 0 <= k < |Sampled(f, rand, cursor)| ==> Sampled(f, rand, cursor)[k].finite
  {
    var begin := Begin(rand, cursor);
    var kept := LatticePoints(f, begin);
    LatticePointsSpec(f, begin);
    RemoveNaNKeepsFinitePrefix(kept, FallbackDraws(f.src, rand, cursor + 1, FallbackCount));
    RemoveNaNKeepsFinitePrefix(kept, []);
    assert kept + [] == kept;
  }

  /**
    Lines 42-117: sampleSource on the frames, reading rand() values from
    `cursor` on: the lattice's start, the lattice scan, the fallback when
    fewer than 200 sites were kept, and the removal of points without depth.
   */
  method Sample(f: Frames, rand: nat -> nat, cursor: nat) returns (salient: seq<Point>, next: nat)
    requires f.Valid()
    ensures salient == Sampled(f, rand, cursor)
    ensures next == cursor + SamplingDraws(f, rand, cursor)
    ensures forall k :: 0 <= k < |salient| ==> salient[k].finite
  {
    var begin := 2 + rand(cursor) % 2;
    next := cursor + 1;
    var kept, cnt := ScanLattice(f, begin);
    if cnt < MinSalient {
      kept, next := AppendFallback(f.src, kept, rand, next);
    }
    salient := RemoveNaN(kept);
    SampledSpec(f, rand, cursor);
  }
}
