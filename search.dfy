/**
  The correspondence search of one registration iteration: for a warped
  salient point, the best-weighted target pixel in a disc of radius 4 scaled
  by the pixel offset; the draw loop that collects at most 150 such pairs;
  and the weighted pairs handed to the transform solver.
 */
module Search {
  import opened Wrappers
  import opened Geometry
  import opened Robust

  /** The initial best weight `1e-10`. */
  const MinWeight: real := 0.0000000001
  /** The radius of the search disc, in grid steps. */
  const SearchRange: int := 4
  /** The side of the square of offsets the two search loops enumerate. */
  const SearchSide: int := 2 * SearchRange + 1
  /** At most this many correspondences per iteration. */
  const MaxPairs: nat := 150
  /** A pair whose untransformed source lies this far or farther from its target is dropped. */
  const MaxGap: real := 1000.0

  /**
    The robust statistics the search reads: the geometric scale (the
    geometric median is taken as 0), the intensity median and scale.
   */
  datatype Stats = Stats(geoMad: real, intMedian: real, intMad: real)

  /**
    What one iteration searches in: the salient source points, the target
    grid, the camera, the foreign primitives, the statistics of the previous
    iteration, the current transform, the pixel offset of this level, and the
    stream of rand() values.
   */
  datatype Scene = Scene(
    salient: seq<Point>,
    tgt: seq<Point>,
    cam: Camera,
    ops: Ops,
    stats: Stats,
    trans: Transform,
    offset: int,
    rand: nat -> nat)
  {
    predicate Valid()
    {
      0 <= cam.width && 0 <= cam.height && |tgt| == cam.width * cam.height &&
      stats.geoMad > 0.0 && stats.intMad > 0.0
    }
  }

  /** A target pixel the search scored: its point, weight, both residuals and the offset it sits at. */
  datatype Candidate = Candidate(target: Point, weight: real, geoResidual: real, intResidual: real, dx: int, dy: int)

  /** The best candidate so far and its weight. */
  datatype Outcome = Outcome(best: Option<Candidate>, maxWeight: real)

  /** The circular neighbourhood: `sqrt(xx^2 + yy^2) <= 4`. */
  predicate InDisc(xx: int, yy: int)
  {
    xx * xx + yy * yy <= SearchRange * SearchRange
  }

  /** The pixels the search may read: [2, width-3] x [2, height-3]. */
  predicate InSearchBorder(cam: Camera, p: Pixel)
  {
    2 <= p.col < cam.width - 2 && 2 <= p.row < cam.height - 2
  }

  /** The pixel at grid offset (xx, yy) from `at`, scaled by the level's offset. */
  function Shifted(at: Pixel, offset: int, xx: int, yy: int): Pixel
  {
    Pixel(at.col + xx * offset, at.row + yy * offset)
  }

  /**
    The score of the target pixel at offset (xx, yy): None where the search
    skips it (outside the disc, outside the border, a not-a-number distance
    or residual), otherwise the pixel's point with the product of the
    geometric weight (median 0) and the intensity weight, each scaled by 100.
   */
  function Score(sc: Scene, pt: Point, at: Pixel, xx: int, yy: int): (c: Option<Candidate>)
    requires sc.Valid()
    ensures c.Some? ==> 0.0 < c.value.weight <= 14400.0 && c.value.dx == xx && c.value.dy == yy
  {
    var p := Shifted(at, sc.offset, xx, yy);
    var w, h := sc.cam.width, sc.cam.height;
    if !InDisc(xx, yy) || !InSearchBorder(sc.cam, p) then None
    else
      GridIndexInRange(p.col, p.row, w, h);
      var pt2 := sc.tgt[p.row * w + p.col];
      var dist := Distance(sc.ops, pt, pt2);
      var residual := sc.ops.residual(pt2, pt);
      if dist.None? || residual.None? then None
      else
        var geoWeight := 100.0 * Weight(dist.value, 0.0, sc.stats.geoMad);
        var colWeight := 100.0 * Weight(residual.value, sc.stats.intMedian, sc.stats.intMad);
        ProductBounded(geoWeight, colWeight, 120.0);
        Some(Candidate(pt2, geoWeight * colWeight, dist.value, residual.value, xx, yy))
  }

  /**
    The search scores exactly the offsets inside the disc whose pixel lies
    inside the border and has a defined distance and residual; the score
    carries that pixel's point and both residuals.
   */
  lemma ScoreSpec(sc: Scene, pt: Point, at: Pixel, xx: int, yy: int)
    requires sc.Valid()
    ensures var p := Shifted(at, sc.offset, xx, yy);
      var c := Score(sc, pt, at, xx, yy);
      (c.Some? <==>
        InDisc(xx, yy) && InSearchBorder(sc.cam, p) &&
        0 <= p.row * sc.cam.width + p.col < |sc.tgt| &&
        Distance(sc.ops, pt, sc.tgt[p.row * sc.cam.width + p.col]).Some? &&
        sc.ops.residual(sc.tgt[p.row * sc.cam.width + p.col], pt).Some?) &&
      (c.Some? ==>
        c.value.target == sc.tgt[p.row * sc.cam.width + p.col] &&
        Distance(sc.ops, pt, c.value.target) == Some(c.value.geoResidual) &&
        sc.ops.residual(c.value.target, pt) == Some(c.value.intResidual))
  {
    var p := Shifted(at, sc.offset, xx, yy);
    if InSearchBorder(sc.cam, p) {
      GridIndexInRange(p.col, p.row, sc.cam.width, sc.cam.height);
    }
  }

  lemma ProductBounded(a: real, b: real, m: real)
    requires 0.0 < a <= m && 0.0 < b <= m
    ensures 0.0 < a * b <= m * m
  {
    MulPositive(a, b);
    assert a * b <= a * m;
    assert a * m <= m * m;
  }

  /** The offset examined at step n of the two nested loops (xx outer, yy inner, both from -4). */
  function OffsetAt(n: int): (int, int)
  {
    (n / SearchSide - SearchRange, n % SearchSide - SearchRange)
  }

  /** The step at which the nested loops examine offset (xx, yy). */
  function StepOf(xx: int, yy: int): int
  {
    (xx + SearchRange) * SearchSide + (yy + SearchRange)
  }

  lemma OffsetAtStep(xx: int, yy: int)
    requires -SearchRange <= xx <= SearchRange && -SearchRange <= yy <= SearchRange
    ensures 0 <= StepOf(xx, yy) < SearchSide * SearchSide
    ensures OffsetAt(StepOf(xx, yy)) == (xx, yy)
  {
    DivModUnique(StepOf(xx, yy), SearchSide, xx + SearchRange, yy + SearchRange);
  }

  lemma StepOfOffset(n: int)
    requires 0 <= n < SearchSide * SearchSide
    ensures StepOf(OffsetAt(n).0, OffsetAt(n).1) == n
  {
  }

  function ScoreAt(sc: Scene, pt: Point, at: Pixel, n: int): Option<Candidate>
    requires sc.Valid()
  {
    Score(sc, pt, at, OffsetAt(n).0, OffsetAt(n).1)
  }

  /**
    The state of the search after its first n steps: a candidate replaces the
    best one only when its weight is strictly greater.
   */
  function Scan(sc: Scene, pt: Point, at: Pixel, n: nat): Outcome
    requires sc.Valid()
  {
    if n == 0 then Outcome(None, MinWeight)
    else
      var prev := Scan(sc, pt, at, n - 1);
      var c := ScoreAt(sc, pt, at, n - 1);
      if c.Some? && c.value.weight > prev.maxWeight then Outcome(c, c.value.weight) else prev
  }

  /** The outcome of the whole search around pixel `at`. */
  function BestMatch(sc: Scene, pt: Point, at: Pixel): Outcome
    requires sc.Valid()
  {
    Scan(sc, pt, at, SearchSide * SearchSide)
  }

  /**
    The running maximum starts at 1e-10 and never drops; there is a best
    candidate exactly when the maximum has risen above its start, and the
    maximum is then that candidate's weight.
   */
  lemma {:induction false} ScanBounds(sc: Scene, pt: Point, at: Pixel, n: nat)
    requires sc.Valid()
    ensures Scan(sc, pt, at, n).maxWeight >= MinWeight
    ensures Scan(sc, pt, at, n).best.Some? <==> Scan(sc, pt, at, n).maxWeight > MinWeight
    ensures Scan(sc, pt, at, n).best.Some? ==> Scan(sc, pt, at, n).best.value.weight == Scan(sc, pt, at, n).maxWeight
  {
    if n > 0 {
      ScanBounds(sc, pt, at, n - 1);
    }
  }

  /** No step examined so far scored above the running maximum. */
  lemma {:induction false} ScanMaximal(sc: Scene, pt: Point, at: Pixel, n: nat)
    requires sc.Valid()
    ensures forall m :: 0 <= m < n && ScoreAt(sc, pt, at, m).Some? ==>
      ScoreAt(sc, pt, at, m).value.weight <= Scan(sc, pt, at, n).maxWeight
  {
    if n > 0 {
      ScanMaximal(sc, pt, at, n - 1);
      ScanBounds(sc, pt, at, n - 1);
    }
  }

  /**
    The best candidate is the score of an examined step, and every step
    before it scored strictly less: the first candidate wins a tie.
   */
  lemma {:induction false} ScanWitness(sc: Scene, pt: Point, at: Pixel, n: nat)
    requires sc.Valid()
    requires n <= SearchSide * SearchSide
    ensures var o := Scan(sc, pt, at, n);
      o.best.Some? ==>
        var k := StepOf(o.best.value.dx, o.best.value.dy);
        0 <= k < n && ScoreAt(sc, pt, at, k) == o.best &&
        forall m :: 0 <= m < k && ScoreAt(sc, pt, at, m).Some? ==> ScoreAt(sc, pt, at, m).value.weight < o.maxWeight
  {
    if n > 0 {
      ScanWitness(sc, pt, at, n - 1);
      ScanMaximal(sc, pt, at, n - 1);
      var o := Scan(sc, pt, at, n);
      var c := ScoreAt(sc, pt, at, n - 1);
      if c.Some? && c.value.weight > Scan(sc, pt, at, n - 1).maxWeight {
        StepOfOffset(n - 1);
      }
    }
  }

  /**
    Properties of the whole search: the weight is at least 1e-10, a best
    candidate exists exactly when it is above that, the candidate lies in the
    disc and inside the border, carries the maximum weight, no examined offset
    scores higher, and every offset examined before it scores strictly lower.
   */
  lemma BestMatchSpec(sc: Scene, pt: Point, at: Pixel)
    requires sc.Valid()
    ensures BestMatch(sc, pt, at).maxWeight >= MinWeight
    ensures BestMatch(sc, pt, at).best.Some? <==> BestMatch(sc, pt, at).maxWeight > MinWeight
    ensures forall xx, yy ::
      -SearchRange <= xx <= SearchRange && -SearchRange <= yy <= SearchRange && Score(sc, pt, at, xx, yy).Some? ==>
      Score(sc, pt, at, xx, yy).value.weight <= BestMatch(sc, pt, at).maxWeight
    ensures BestMatch(sc, pt, at).best.Some? ==>
      var c := BestMatch(sc, pt, at).best.value;
      -SearchRange <= c.dx <= SearchRange && -SearchRange <= c.dy <= SearchRange &&
      Score(sc, pt, at, c.dx, c.dy) == BestMatch(sc, pt, at).best &&
      c.weight == BestMatch(sc, pt, at).maxWeight &&
      forall xx, yy ::
        -SearchRange <= xx <= SearchRange && -SearchRange <= yy <= SearchRange &&
        StepOf(xx, yy) < StepOf(c.dx, c.dy) && Score(sc, pt, at, xx, yy).Some? ==>
        Score(sc, pt, at, xx, yy).value.weight < c.weight
  {
    var n := SearchSide * SearchSide;
    var o := Scan(sc, pt, at, n);
    ScanBounds(sc, pt, at, n);
    ScanMaximal(sc, pt, at, n);
    ScanWitness(sc, pt, at, n);
    forall xx, yy |
      -SearchRange <= xx <= SearchRange && -SearchRange <= yy <= SearchRange && Score(sc, pt, at, xx, yy).Some?
      ensures Score(sc, pt, at, xx, yy).value.weight <= o.maxWeight
    {
      OffsetAtStep(xx, yy);
      assert ScoreAt(sc, pt, at, StepOf(xx, yy)) == Score(sc, pt, at, xx, yy);
    }
    if o.best.Some? {
      var c := o.best.value;
      var k := StepOf(c.dx, c.dy);
      StepOfOffset(k);
      assert ScoreAt(sc, pt, at, k) == o.best;
      assert OffsetAt(k) == (c.dx, c.dy);
      forall xx, yy |
        -SearchRange <= xx <= SearchRange && -SearchRange <= yy <= SearchRange &&
        StepOf(xx, yy) < k && Score(sc, pt, at, xx, yy).Some?
        ensures Score(sc, pt, at, xx, yy).value.weight < c.weight
      {
        OffsetAtStep(xx, yy);
        assert ScoreAt(sc, pt, at, StepOf(xx, yy)) == Score(sc, pt, at, xx, yy);
      }
    }
  }

  /**
    Lines 155-175: one offset of the search. It is skipped outside the disc,
    outside the border, or when the distance or the residual is not a
    number; otherwise its weight replaces the best so far only when strictly
    greater.
   */
  method Examine(sc: Scene, pt: Point, at: Pixel, xx: int, yy: int, best: Option<Candidate>, maxWeight: real)
    returns (best': Option<Candidate>, maxWeight': real)
    requires sc.Valid()
    ensures var score := Score(sc, pt, at, xx, yy);
      Outcome(best', maxWeight') ==
        if score.Some? && score.value.weight > maxWeight then Outcome(score, score.value.weight)
        else Outcome(best, maxWeight)
  {
    var w, h := sc.cam.width, sc.cam.height;
    best', maxWeight' := best, maxWeight;
    if xx * xx + yy * yy > SearchRange * SearchRange {
      assert Score(sc, pt, at, xx, yy).None?;
      return;
    }
    var col, row := at.col + xx * sc.offset, at.row + yy * sc.offset;
    if col >= w - 2 || row >= h - 2 || col < 2 || row < 2 {
      assert Score(sc, pt, at, xx, yy).None?;
      return;
    }
    GridIndexInRange(col, row, w, h);
    var pt2 := sc.tgt[row * w + col];
    var dist := Distance(sc.ops, pt, pt2);
    if dist.Some? {
      var residual := sc.ops.residual(pt2, pt);
      if residual.Some? {
        var geoWeight := 100.0 * Weight(dist.value, 0.0, sc.stats.geoMad);
        var colWeight := 100.0 * Weight(residual.value, sc.stats.intMedian, sc.stats.intMad);
        var thisWeight := geoWeight * colWeight;
        assert InDisc(xx, yy);
        assert InSearchBorder(sc.cam, Shifted(at, sc.offset, xx, yy));
        assert Score(sc, pt, at, xx, yy).Some?;
        assert Score(sc, pt, at, xx, yy).value.target == pt2;
        assert Score(sc, pt, at, xx, yy).value.weight == thisWeight;
        assert Score(sc, pt, at, xx, yy) == Some(Candidate(pt2, thisWeight, dist.value, residual.value, xx, yy));
        if thisWeight > maxWeight {
          best' := Some(Candidate(pt2, thisWeight, dist.value, residual.value, xx, yy));
          maxWeight' := thisWeight;
        }
      }
    }
  }

  /**
    Lines 150-177: the two nested loops over the square of offsets, keeping
    the strictly greatest weight, which starts at 1e-10.
   */
  method SearchNeighbourhood(sc: Scene, pt: Point, at: Pixel) returns (best: Option<Candidate>, maxWeight: real)
    requires sc.Valid()
    ensures Outcome(best, maxWeight) == BestMatch(sc, pt, at)
    ensures maxWeight >= MinWeight && (best.Some? <==> maxWeight > MinWeight)
  {
    best, maxWeight := None, MinWeight;
    for xx := -SearchRange to SearchRange + 1
      invariant Outcome(best, maxWeight) == Scan(sc, pt, at, StepOf(xx, -SearchRange))
    {
      best, maxWeight := SearchColumn(sc, pt, at, xx, best, maxWeight);
    }
    ScanBounds(sc, pt, at, SearchSide * SearchSide);
  }

  /** Examining offset (xx, yy) after the scan up to it yields the scan one step further. */
  lemma ExamineAdvancesScan(sc: Scene, pt: Point, at: Pixel, xx: int, yy: int,
                            best: Option<Candidate>, maxWeight: real, best': Option<Candidate>, maxWeight': real)
    requires sc.Valid() && -SearchRange <= xx <= SearchRange && -SearchRange <= yy <= SearchRange
    requires Outcome(best, maxWeight) == Scan(sc, pt, at, StepOf(xx, yy))
    requires var score := Score(sc, pt, at, xx, yy);
      Outcome(best', maxWeight') ==
        if score.Some? && score.value.weight > maxWeight then Outcome(score, score.value.weight)
        else Outcome(best, maxWeight)
    ensures Outcome(best', maxWeight') == Scan(sc, pt, at, StepOf(xx, yy + 1))
  {
    OffsetAtStep(xx, yy);
    var n := StepOf(xx, yy);
    assert ScoreAt(sc, pt, at, n) == Score(sc, pt, at, xx, yy);
    assert StepOf(xx, yy + 1) == n + 1;
  }

  /** One step of the search loops: examining offset (xx, yy) carries the scan one offset further. */
  method Advance(sc: Scene, pt: Point, at: Pixel, xx: int, yy: int, best: Option<Candidate>, maxWeight: real)
    returns (best': Option<Candidate>, maxWeight': real)
    requires sc.Valid() && -SearchRange <= xx <= SearchRange && -SearchRange <= yy <= SearchRange
    requires Outcome(best, maxWeight) == Scan(sc, pt, at, StepOf(xx, yy))
    ensures Outcome(best', maxWeight') == Scan(sc, pt, at, StepOf(xx, yy + 1))
  {
    best', maxWeight' := Examine(sc, pt, at, xx, yy, best, maxWeight);
    ExamineAdvancesScan(sc, pt, at, xx, yy, best, maxWeight, best', maxWeight');
  }

  /** The inner loop of the search: the offsets (xx, -4) .. (xx, 4), continuing the scan. */
  method SearchColumn(sc: Scene, pt: Point, at: Pixel, xx: int, best0: Option<Candidate>, maxWeight0: real)
    returns (best: Option<Candidate>, maxWeight: real)
    requires sc.Valid() && -SearchRange <= xx <= SearchRange
    requires Outcome(best0, maxWeight0) == Scan(sc, pt, at, StepOf(xx, -SearchRange))
    ensures Outcome(best, maxWeight) == Scan(sc, pt, at, StepOf(xx + 1, -SearchRange))
  {
    best, maxWeight := best0, maxWeight0;
    for yy := -SearchRange to SearchRange + 1
      invariant Outcome(best, maxWeight) == Scan(sc, pt, at, StepOf(xx, yy))
    {
      best, maxWeight := Advance(sc, pt, at, xx, yy, best, maxWeight);
    }
    assert StepOf(xx, SearchRange + 1) == StepOf(xx + 1, -SearchRange);
  }

  /**
    The guard `maxWeight > 0` as the source writes it. The search starts
    from 1e-10, so it holds after every search, including one that found no
    candidate; the draw then uses a target point that was never assigned.
   */
  predicate AcceptGuardAsWritten(maxWeight: real)
  {
    maxWeight > 0.0
  }

  /** Once the running maximum is at 1e-10, no later step leaves it without a best candidate unless none scored. */
  lemma {:induction false} ScanWithoutScores(sc: Scene, pt: Point, at: Pixel, n: nat)
    requires sc.Valid()
    requires forall m :: 0 <= m < n ==> ScoreAt(sc, pt, at, m).None?
    ensures Scan(sc, pt, at, n) == Outcome(None, MinWeight)
  {
    if n > 0 {
      ScanWithoutScores(sc, pt, at, n - 1);
    }
  }

  /**
    The as-written guard passes after every search; when the target grid
    holds no point with depth, the search finds nothing and the guard
    passes all the same.
   */
  lemma AcceptGuardAsWrittenAlwaysPasses(sc: Scene, pt: Point, at: Pixel)
    requires sc.Valid()
    ensures AcceptGuardAsWritten(BestMatch(sc, pt, at).maxWeight)
    ensures (forall k :: 0 <= k < |sc.tgt| ==> !sc.tgt[k].finite) ==>
      BestMatch(sc, pt, at).best.None? && AcceptGuardAsWritten(BestMatch(sc, pt, at).maxWeight)
  {
    ScanBounds(sc, pt, at, SearchSide * SearchSide);
    if forall k :: 0 <= k < |sc.tgt| ==> !sc.tgt[k].finite {
      forall m | 0 <= m < SearchSide * SearchSide
        ensures ScoreAt(sc, pt, at, m).None?
      {
        ScoreSpec(sc, pt, at, OffsetAt(m).0, OffsetAt(m).1);
      }
      ScanWithoutScores(sc, pt, at, SearchSide * SearchSide);
    }
  }

  // ---------------------------------------------------------------------
  // The draw loop (lines 139-191)

  /** One accepted pair: the warped source point, its target, and their two residuals. */
  datatype Correspondence = Correspondence(from: Point, to: Point, geoResidual: real, intResidual: real)

  /**
    The outcome of the draw that consumes rand() value number d: the drawn
    salient point is warped and projected; a pixel outside the grid is
    skipped; otherwise the best match is accepted when the search found one
    and the untransformed point lies within 1000 of it.
   */
  function Draw(sc: Scene, d: nat): Option<Correspondence>
    requires sc.Valid() && |sc.salient| > 0
  {
    var temp := sc.salient[sc.rand(d) % |sc.salient|];
    var pt := sc.ops.transformPoint(sc.trans, temp);
    var px := Project(sc.cam, pt);
    if px.None? || !(0 <= px.value.col < sc.cam.width && 0 <= px.value.row < sc.cam.height) then None
    else
      var o := BestMatch(sc, pt, px.value);
      BestMatchSpec(sc, pt, px.value);
      if o.maxWeight > MinWeight && sc.ops.norm(temp, o.best.value.target) < MaxGap then
        Some(Correspondence(pt, o.best.value.target, o.best.value.geoResidual, o.best.value.intResidual))
      else None
  }

  /**
    An accepted pair joins the warped drawn point to a target grid point
    within 1000 of the drawn point, and its residuals are the distance and the
    intensity residual of the two (the values lines 184-185 recompute).
   */
  lemma DrawSpec(sc: Scene, d: nat)
    requires sc.Valid() && |sc.salient| > 0
    ensures Draw(sc, d).Some? ==>
      var c := Draw(sc, d).value;
      var temp := sc.salient[sc.rand(d) % |sc.salient|];
      c.from == sc.ops.transformPoint(sc.trans, temp) &&
      c.to in sc.tgt &&
      sc.ops.norm(temp, c.to) < MaxGap &&
      Distance(sc.ops, c.from, c.to) == Some(c.geoResidual) &&
      sc.ops.residual(c.to, c.from) == Some(c.intResidual)
  {
    if Draw(sc, d).Some? {
      var temp := sc.salient[sc.rand(d) % |sc.salient|];
      var pt := sc.ops.transformPoint(sc.trans, temp);
      var at := Project(sc.cam, pt).value;
      BestMatchSpec(sc, pt, at);
      var c := BestMatch(sc, pt, at).best.value;
      ScoreSpec(sc, pt, at, c.dx, c.dy);
    }
  }

  /**
    The pairs collected by the remaining `left` passes of the draw loop,
    starting from rand() value number `cursor` with `acc` collected so far,
    and the number of rand() values consumed by then. A pass first stops
    the loop once 150 pairs are there.
   */
  function Gather(sc: Scene, cursor: nat, left: nat, acc: seq<Correspondence>): (seq<Correspondence>, nat)
    requires sc.Valid() && (left > 0 ==> |sc.salient| > 0)
    decreases left
  {
    if left == 0 || |acc| >= MaxPairs then (acc, cursor)
    else
      var o := Draw(sc, cursor);
      Gather(sc, cursor + 1, left - 1, if o.Some? then acc + [o.value] else acc)
  }

  /**
    The draw loop keeps what it had, accepts at most 150 pairs, makes at most
    one draw per pass and at least one per accepted pair, and runs every
    pass when it stops short of 150; each new pair is the outcome of one of
    its draws.
   */
  lemma {:induction false} GatherSpec(sc: Scene, cursor: nat, left: nat, acc: seq<Correspondence>)
    requires sc.Valid() && (left > 0 ==> |sc.salient| > 0)
    requires |acc| <= MaxPairs
    ensures var (pairs, next) := Gather(sc, cursor, left, acc);
      |acc| <= |pairs| <= MaxPairs && pairs[..|acc|] == acc &&
      cursor <= next <= cursor + left &&
      |pairs| - |acc| <= next - cursor &&
      (|pairs| < MaxPairs ==> next == cursor + left) &&
      forall k :: |acc| <= k < |pairs| ==> exists d :: cursor <= d < next && Draw(sc, d) == Some(pairs[k])
    decreases left
  {
    if left > 0 && |acc| < MaxPairs {
      var o := Draw(sc, cursor);
      var acc' := if o.Some? then acc + [o.value] else acc;
      GatherSpec(sc, cursor + 1, left - 1, acc');
      var (pairs, next) := Gather(sc, cursor + 1, left - 1, acc');
      assert Gather(sc, cursor, left, acc) == (pairs, next);
      assert pairs[..|acc|] == acc by {
        assert pairs[..|acc|] == pairs[..|acc'|][..|acc|];
      }
      forall k | |acc| <= k < |pairs|
        ensures exists d :: cursor <= d < next && Draw(sc, d) == Some(pairs[k])
      {
        if k < |acc'| {
          assert pairs[k] == acc'[k] == o.value;
          assert Draw(sc, cursor) == Some(pairs[k]);
        }
      }
    }
  }

  /** The outcome of every draw on the scene, as a total function of the draw number. */
  function Draws(sc: Scene): nat -> Option<Correspondence>
  {
    (d: nat) => if sc.Valid() && |sc.salient| > 0 then Draw(sc, d) else None
  }

  /** The draw loop of Gather over any outcome function f. */
  function Collect(f: nat -> Option<Correspondence>, cursor: nat, left: nat, acc: seq<Correspondence>): (seq<Correspondence>, nat)
    decreases left
  {
    if left == 0 || |acc| >= MaxPairs then (acc, cursor)
    else Collect(f, cursor + 1, left - 1, if f(cursor).Some? then acc + [f(cursor).value] else acc)
  }

  /** How many of the outcomes f(a) up to (not including) f(b) are pairs. */
  function CountSome(f: nat -> Option<Correspondence>, a: nat, b: nat): (n: nat)
    requires a <= b
    ensures n <= b - a
    decreases b - a
  {
    if a == b then 0 else (if f(a).Some? then 1 else 0) + CountSome(f, a + 1, b)
  }

  /** How many of the draws numbered a up to (not including) b are accepted. */
  function Accepted(sc: Scene, a: nat, b: nat): nat
    requires a <= b
  {
    CountSome(Draws(sc), a, b)
  }

  /**
    The draw loop over any outcomes keeps what it had and appends the pair
    of every accepted draw it makes, in draw order, and nothing else; when
    it stops at 150 pairs it stops right after the draw of the 150th.
   */
  lemma {:induction false} CollectKeepsAccepted(f: nat -> Option<Correspondence>, cursor: nat, left: nat, acc: seq<Correspondence>)
    requires |acc| <= MaxPairs
    ensures var (pairs, next) := Collect(f, cursor, left, acc);
      cursor <= next <= cursor + left &&
      |acc| <= |pairs| <= MaxPairs && pairs[..|acc|] == acc &&
      |pairs| == |acc| + CountSome(f, cursor, next) &&
      (forall d {:trigger CountSome(f, cursor, d)} :: cursor <= d < next && f(d).Some? ==>
        |acc| + CountSome(f, cursor, d) < |pairs| && pairs[|acc| + CountSome(f, cursor, d)] == f(d).value) &&
      (|pairs| == MaxPairs && |acc| < MaxPairs ==> f(next - 1).Some?)
    decreases left
  {
    if left > 0 && |acc| < MaxPairs {
      var o := f(cursor);
      var acc' := if o.Some? then acc + [o.value] else acc;
      CollectKeepsAccepted(f, cursor + 1, left - 1, acc');
      var (pairs, next) := Collect(f, cursor + 1, left - 1, acc');
      assert Collect(f, cursor, left, acc) == (pairs, next);
      assert pairs[..|acc|] == acc by {
        assert pairs[..|acc|] == pairs[..|acc'|][..|acc|];
      }
      assert CountSome(f, cursor, next) == (if o.Some? then 1 else 0) + CountSome(f, cursor + 1, next);
      forall d | cursor <= d < next && f(d).Some?
        ensures |acc| + CountSome(f, cursor, d) < |pairs| && pairs[|acc| + CountSome(f, cursor, d)] == f(d).value
      {
        if d == cursor {
          assert pairs[|acc|] == pairs[..|acc'|][|acc|] == acc'[|acc|];
        } else {
          assert CountSome(f, cursor, d) == (if o.Some? then 1 else 0) + CountSome(f, cursor + 1, d);
        }
      }
      if |pairs| == MaxPairs && |acc'| == MaxPairs {
        assert Collect(f, cursor + 1, left - 1, acc') == (acc', cursor + 1);
      }
    }
  }

  /** Gather is the draw loop over the scene's draws. */
  lemma {:induction false} GatherIsCollect(sc: Scene, cursor: nat, left: nat, acc: seq<Correspondence>)
    requires sc.Valid() && (left > 0 ==> |sc.salient| > 0)
    ensures Gather(sc, cursor, left, acc) == Collect(Draws(sc), cursor, left, acc)
    decreases left
  {
    if left > 0 && |acc| < MaxPairs {
      var o := Draw(sc, cursor);
      assert Draws(sc)(cursor) == o;
      GatherIsCollect(sc, cursor + 1, left - 1, if o.Some? then acc + [o.value] else acc);
    }
  }

  /**
    The converse of GatherSpec: the loop keeps every accepted draw it makes,
    in the order of the draws, and nothing else; when it stops at 150 pairs
    it stops right after the draw that brought the 150th.
   */
  lemma GatherAccepted(sc: Scene, cursor: nat, left: nat, acc: seq<Correspondence>)
    requires sc.Valid() && (left > 0 ==> |sc.salient| > 0)
    requires |acc| <= MaxPairs
    ensures var (pairs, next) := Gather(sc, cursor, left, acc);
      cursor <= next <= cursor + left &&
      |pairs| == |acc| + Accepted(sc, cursor, next) &&
      (forall d {:trigger Accepted(sc, cursor, d)} :: cursor <= d < next && Draw(sc, d).Some? ==>
        |acc| + Accepted(sc, cursor, d) < |pairs| && pairs[|acc| + Accepted(sc, cursor, d)] == Draw(sc, d).value) &&
      (|pairs| == MaxPairs && |acc| < MaxPairs ==> Draw(sc, next - 1).Some?)
  {
    GatherIsCollect(sc, cursor, left, acc);
    CollectKeepsAccepted(Draws(sc), cursor, left, acc);
  }

  /**
    Lines 139-191: at most |salient| passes; each pass stops the loop at 150
    pairs, otherwise draws a salient point, searches around its projection
    and appends to the four parallel lists when the match is accepted. The
    lists stay of equal length and hold the pairs Gather describes.
   */
  method DrawCorrespondences(sc: Scene, cursor0: nat)
    returns (srcPairs: seq<Point>, tgtPairs: seq<Point>, geoResiduals: seq<real>, intResiduals: seq<real>, cursor: nat)
    requires sc.Valid()
    ensures var (pairs, next) := Gather(sc, cursor0, |sc.salient|, []);
      cursor == next &&
      |srcPairs| == |tgtPairs| == |geoResiduals| == |intResiduals| == |pairs| &&
      forall k :: 0 <= k < |pairs| ==>
        srcPairs[k] == pairs[k].from && tgtPairs[k] == pairs[k].to &&
        geoResiduals[k] == pairs[k].geoResidual && intResiduals[k] == pairs[k].intResidual
    ensures |srcPairs| <= MaxPairs
    ensures cursor0 <= cursor <= cursor0 + |sc.salient|
    ensures |srcPairs| < MaxPairs ==> cursor == cursor0 + |sc.salient|
  {
    var w, h := sc.cam.width, sc.cam.height;
    srcPairs, tgtPairs, geoResiduals, intResiduals := [], [], [], [];
    cursor := cursor0;
    var counter := 0;
    ghost var pairs: seq<Correspondence> := [];
    GatherSpec(sc, cursor0, |sc.salient|, []);
    for i := 0 to |sc.salient|
      invariant Gather(sc, cursor, |sc.salient| - i, pairs) == Gather(sc, cursor0, |sc.salient|, [])
      invariant counter == |pairs| <= MaxPairs
      invariant |srcPairs| == |tgtPairs| == |geoResiduals| == |intResiduals| == |pairs|
      invariant forall k :: 0 <= k < |pairs| ==>
        srcPairs[k] == pairs[k].from && tgtPairs[k] == pairs[k].to &&
        geoResiduals[k] == pairs[k].geoResidual && intResiduals[k] == pairs[k].intResidual
    {
      if counter >= MaxPairs {
        break;
      }
      ghost var drawn := Draw(sc, cursor);
      var thisIndex := sc.rand(cursor) % |sc.salient|;
      cursor := cursor + 1;
      var temp := sc.salient[thisIndex];
      var pt := sc.ops.transformPoint(sc.trans, temp);
      var px := Project(sc.cam, pt);
      if px.None? {
        continue;
      }
      var xpos, ypos := px.value.col, px.value.row;
      if xpos >= w || ypos >= h || xpos < 0 || ypos < 0 {
        continue;
      }
      var best, maxWeight := SearchNeighbourhood(sc, pt, Pixel(xpos, ypos));
      if maxWeight > MinWeight {
        var tgtpt := best.value.target;
        if sc.ops.norm(temp, tgtpt) < MaxGap {
          srcPairs := srcPairs + [pt];
          tgtPairs := tgtPairs + [tgtpt];
          geoResiduals := geoResiduals + [best.value.geoResidual];
          intResiduals := intResiduals + [best.value.intResidual];
          counter := counter + 1;
          pairs := pairs + [drawn.value];
        }
      }
    }
  }

  // ---------------------------------------------------------------------
  // The solver's input (lines 218-226)

  /** The depth confidence `1 / (0.0012 + 0.0019 (z - 0.4)^2)`: positive, and at most its value at 0.4. */
  function SensorReliability(z: real): (r: real)
    ensures 0.0 < r <= 1.0 / 0.0012
  {
    var e := (z - 0.4) * (z - 0.4);
    SquareSign(z - 0.4);
    ReciprocalAntitone(0.0012, 0.0012 + 0.0019 * e);
    1.0 / (0.0012 + 0.0019 * e)
  }

  lemma SquareSign(d: real)
    ensures d * d >= 0.0
  {
    SquareOfAbs(d);
    if d != 0.0 {
      MulPositive(Abs(d), Abs(d));
    }
  }

  /** 1/x decreases on the positive reals, strictly between distinct points. */
  lemma ReciprocalAntitone(a: real, b: real)
    requires 0.0 < a <= b
    ensures 1.0 / b <= 1.0 / a
    ensures a < b ==> 1.0 / b < 1.0 / a
  {
    SixOverAntitone(a, b);
    assert 1.0 / b == (6.0 / b) / 6.0;
    assert 1.0 / a == (6.0 / a) / 6.0;
  }

  /**
    Lines 219-226: every pair goes to the solver with the product of its two
    robust weights and the depth confidence of its source point; positive
    robust weights give positive solver weights.
   */
  method CollectPairs(srcPairs: seq<Point>, tgtPairs: seq<Point>, geoWeights: seq<real>, intWeights: seq<real>)
    returns (input: seq<WeightedPair>)
    requires |tgtPairs| == |srcPairs| && |geoWeights| == |srcPairs| && |intWeights| == |srcPairs|
    ensures |input| == |srcPairs|
    ensures forall k :: 0 <= k < |input| ==>
      input[k].from == srcPairs[k] && input[k].to == tgtPairs[k] &&
      input[k].weight == geoWeights[k] * intWeights[k] * SensorReliability(srcPairs[k].z)
    ensures (forall k :: 0 <= k < |srcPairs| ==> geoWeights[k] > 0.0 && intWeights[k] > 0.0) ==>
      forall k :: 0 <= k < |input| ==> input[k].weight > 0.0
  {
    input := [];
    for i := 0 to |srcPairs|
      invariant |input| == i
      invariant forall k :: 0 <= k < i ==>
        input[k].from == srcPairs[k] && input[k].to == tgtPairs[k] &&
        input[k].weight == geoWeights[k] * intWeights[k] * SensorReliability(srcPairs[k].z)
    {
      var sensorRel := SensorReliability(srcPairs[i].z);
      input := input + [WeightedPair(srcPairs[i], tgtPairs[i], geoWeights[i] * intWeights[i] * sensorRel)];
    }
    if forall k :: 0 <= k < |srcPairs| ==> geoWeights[k] > 0.0 && intWeights[k] > 0.0 {
      forall k | 0 <= k < |input|
        ensures input[k].weight > 0.0
      {
        MulPositive(geoWeights[k], intWeights[k]);
        MulPositive(geoWeights[k] * intWeights[k], SensorReliability(srcPairs[k].z));
      }
    }
  }
}
