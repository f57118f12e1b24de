/**
  The registration object: the two frames and the camera, the salient
  source points, the current transform and the robust statistics that carry
  over from one iteration to the next; the setup calls, the sampler, one
  iteration, one level of iterations and the three-level schedule.
 */
module Registration {
  import opened Wrappers
  import opened Geometry
  import opened Pose
  import opened Robust
  import opened Search
  import opened Sampler

  /** The geometric residuals of the collected pairs, in order. */
  function GeoResiduals(pairs: seq<Correspondence>): (r: seq<real>)
    ensures |r| == |pairs| && forall k :: 0 <= k < |r| ==> r[k] == pairs[k].geoResidual
  {
    seq(|pairs|, k requires 0 <= k < |pairs| => pairs[k].geoResidual)
  }

  /** The intensity residuals of the collected pairs, in order. */
  function IntResiduals(pairs: seq<Correspondence>): (r: seq<real>)
    ensures |r| == |pairs| && forall k :: 0 <= k < |r| ==> r[k] == pairs[k].intResidual
  {
    seq(|pairs|, k requires 0 <= k < |pairs| => pairs[k].intResidual)
  }

  /**
    What the solver is given: each pair weighted by its geometric weight
    (median 0), its intensity weight and the depth confidence of its source.
   */
  function SolverInput(pairs: seq<Correspondence>, geoMad: real, intMedian: real, intMad: real): seq<WeightedPair>
    requires geoMad > 0.0 && intMad > 0.0
  {
    seq(|pairs|, k requires 0 <= k < |pairs| =>
      WeightedPair(pairs[k].from, pairs[k].to,
        Weight(pairs[k].geoResidual, 0.0, geoMad) * Weight(pairs[k].intResidual, intMedian, intMad) *
        SensorReliability(pairs[k].from.z)))
  }

  /** Every pair reaches the solver with a positive weight, at most (6/5)^2 / 0.0012. */
  lemma SolverInputWeights(pairs: seq<Correspondence>, geoMad: real, intMedian: real, intMad: real)
    requires geoMad > 0.0 && intMad > 0.0
    ensures |SolverInput(pairs, geoMad, intMedian, intMad)| == |pairs|
    ensures forall k :: 0 <= k < |pairs| ==>
      0.0 < SolverInput(pairs, geoMad, intMedian, intMad)[k].weight <= MaxSolverWeight
  {
    forall k | 0 <= k < |pairs|
      ensures 0.0 < SolverInput(pairs, geoMad, intMedian, intMad)[k].weight <= MaxSolverWeight
    {
      var g := Weight(pairs[k].geoResidual, 0.0, geoMad);
      var i := Weight(pairs[k].intResidual, intMedian, intMad);
      var s := SensorReliability(pairs[k].from.z);
      TripleProductBounded(g, i, s);
    }
  }

  lemma TripleProductBounded(g: real, i: real, s: real)
    requires 0.0 < g <= 6.0 / 5.0 && 0.0 < i <= 6.0 / 5.0 && 0.0 < s <= 1.0 / 0.0012
    ensures 0.0 < g * i * s <= MaxSolverWeight
  {
    ProductBounded(g, i, 6.0 / 5.0);
    var p := g * i;
    MulPositive(p, s);
    MulLeqReal(p, 1.44, s);
    MulLeqReal(s, 1.0 / 0.0012, 1.44);
    assert p * s <= 1.44 * s;
    assert s * 1.44 <= 1200.0;
  }

  /** The largest weight a pair can reach the solver with: (6/5)^2 / 0.0012. */
  const MaxSolverWeight: real := 1200.0

  lemma MulLeqReal(a: real, b: real, c: real)
    requires a <= b && c >= 0.0
    ensures a * c <= b * c
  {
    assert b * c - a * c == (b - a) * c;
    if b > a && c > 0.0 {
      MulPositive(b - a, c);
    }
  }

  /** `int(x)` in C++: truncation towards zero. */
  function Truncate(x: real): int
  {
    if x >= 0.0 then x.Floor else -((-x).Floor)
  }

  /** The three maximum distances of the schedule, stored in an `int`, are all 0. */
  lemma ScheduleDistancesTruncate()
    ensures Truncate(0.15) == 0 && Truncate(0.06) == 0 && Truncate(0.02) == 0
  {
  }

  /** n copies of x. */
  function Repeat(x: int, n: nat): (r: seq<int>)
    ensures |r| == n && forall k :: 0 <= k < n ==> r[k] == x
  {
    seq(n, _ => x)
  }

  /** One more copy at the end. */
  lemma RepeatSnoc(o: seq<int>, x: int, n: nat)
    ensures o + Repeat(x, n + 1) == o + Repeat(x, n) + [x]
  {
  }

  /** The pixel offsets of the transform updates `run` performs, in order. */
  function ScheduleOffsets(): seq<int>
  {
    Repeat(7, 7) + Repeat(3, 7) + Repeat(1, 15)
  }

  /** The schedule makes 29 updates: 7 at offset 7, then 7 at offset 3, then 15 at offset 1. */
  lemma ScheduleSpec()
    ensures |ScheduleOffsets()| == 29
    ensures forall k :: 0 <= k < 7 ==> ScheduleOffsets()[k] == 7
    ensures forall k :: 7 <= k < 14 ==> ScheduleOffsets()[k] == 3
    ensures forall k :: 14 <= k < 29 ==> ScheduleOffsets()[k] == 1
  {
  }

  /** The pairs collectPairs builds from the two weight lists are what the solver is given. */
  lemma CollectedInput(input: seq<WeightedPair>, pairs: seq<Correspondence>,
                       srcPairs: seq<Point>, tgtPairs: seq<Point>, geoResiduals: seq<real>, intResiduals: seq<real>,
                       geoWeights: seq<real>, intWeights: seq<real>, geoMad: real, intMedian: real, intMad: real)
    requires geoMad > 0.0 && intMad > 0.0
    requires |srcPairs| == |tgtPairs| == |geoResiduals| == |intResiduals| == |pairs|
    requires forall k :: 0 <= k < |pairs| ==>
      srcPairs[k] == pairs[k].from && tgtPairs[k] == pairs[k].to &&
      geoResiduals[k] == pairs[k].geoResidual && intResiduals[k] == pairs[k].intResidual
    requires |geoWeights| == |geoResiduals| && |intWeights| == |intResiduals|
    requires forall k :: 0 <= k < |geoWeights| ==> geoWeights[k] == Weight(geoResiduals[k], 0.0, geoMad)
    requires forall k :: 0 <= k < |intWeights| ==> intWeights[k] == Weight(intResiduals[k], intMedian, intMad)
    requires |input| == |srcPairs|
    requires forall k :: 0 <= k < |input| ==>
      input[k].from == srcPairs[k] && input[k].to == tgtPairs[k] &&
      input[k].weight == geoWeights[k] * intWeights[k] * SensorReliability(srcPairs[k].z)
    ensures input == SolverInput(pairs, geoMad, intMedian, intMad)
  {
    var expected := SolverInput(pairs, geoMad, intMedian, intMad);
    forall k | 0 <= k < |input|
      ensures input[k] == expected[k]
    {
      var e := expected[k];
      assert e.weight == geoWeights[k] * intWeights[k] * SensorReliability(pairs[k].from.z);
      assert e.from == input[k].from && e.to == input[k].to && e.weight == input[k].weight;
    }
  }

  /** The statistics and the transform one iteration leaves behind. */
  datatype Estimate = Estimate(geoMedian: real, geoMad: real, intMedian: real, intMad: real, trans: Transform)

  /**
    What the second half of an iteration computes from a non-empty set of
    pairs and the transform before it.
   */
  function Reestimated(ops: Ops, trans: Transform, pairs: seq<Correspondence>): (e: Estimate)
    requires |pairs| > 0
    ensures e.geoMad >= MadEpsilon && e.intMad >= MadEpsilon
  {
    var geoMad := Mad(GeoResiduals(pairs));
    var intMedian := Median(IntResiduals(pairs));
    var intMad := Mad(IntResiduals(pairs));
    Estimate(Median(GeoResiduals(pairs)), geoMad, intMedian, intMad,
      Normalise(ops, ops.compose(ops.solve(SolverInput(pairs, geoMad, intMedian, intMad)), trans)))
  }

  /**
    After an iteration each new median splits its residual population in
    half, each new scale is at least 1e-11, and the solver was given every
    pair with a weight in (0, 1200].
   */
  lemma ReestimatedSpec(ops: Ops, trans: Transform, pairs: seq<Correspondence>)
    requires |pairs| > 0
    ensures var e := Reestimated(ops, trans, pairs);
      2 * Count(GeoResiduals(pairs), AtMost(e.geoMedian)) >= |pairs| &&
      2 * Count(GeoResiduals(pairs), AtLeast(e.geoMedian)) >= |pairs| &&
      2 * Count(IntResiduals(pairs), AtMost(e.intMedian)) >= |pairs| &&
      2 * Count(IntResiduals(pairs), AtLeast(e.intMedian)) >= |pairs| &&
      e.geoMad >= MadEpsilon && e.intMad >= MadEpsilon &&
      var input := SolverInput(pairs, e.geoMad, e.intMedian, e.intMad);
      |input| == |pairs| &&
      (forall k :: 0 <= k < |pairs| ==> input[k].from == pairs[k].from && input[k].to == pairs[k].to) &&
      (forall k :: 0 <= k < |pairs| ==> 0.0 < input[k].weight <= MaxSolverWeight)
  {
    var e := Reestimated(ops, trans, pairs);
    MedianSplitsPopulation(GeoResiduals(pairs));
    MedianSplitsPopulation(IntResiduals(pairs));
    SolverInputWeights(pairs, e.geoMad, e.intMedian, e.intMad);
  }

  /**
    The second half of one iteration: both medians and scales from the new
    residuals, the weighted pairs, the solver's increment, and the
    increment left-composed into the transform through its wrapped pose
    vector.
   */
  method Reestimate(ops: Ops, trans: Transform, ghost pairs: seq<Correspondence>,
                    srcPairs: seq<Point>, tgtPairs: seq<Point>, geoResiduals: seq<real>, intResiduals: seq<real>)
    returns (e: Estimate)
    requires |pairs| > 0
    requires |srcPairs| == |tgtPairs| == |geoResiduals| == |intResiduals| == |pairs|
    requires forall k :: 0 <= k < |pairs| ==>
      srcPairs[k] == pairs[k].from && tgtPairs[k] == pairs[k].to &&
      geoResiduals[k] == pairs[k].geoResidual && intResiduals[k] == pairs[k].intResidual
    ensures e == Reestimated(ops, trans, pairs)
  {
    assert geoResiduals == GeoResiduals(pairs) && intResiduals == IntResiduals(pairs);
    var geoMedian, geoMad := RobustScale(geoResiduals);
    var geoWeights := ToWeights(geoResiduals, 0.0, geoMad);
    var intMedian, intMad := RobustScale(intResiduals);
    var intWeights := ToWeights(intResiduals, intMedian, intMad);
    var input := CollectPairs(srcPairs, tgtPairs, geoWeights, intWeights);
    CollectedInput(input, pairs, srcPairs, tgtPairs, geoResiduals, intResiduals, geoWeights, intWeights,
                   geoMad, intMedian, intMad);
    var increTrans := ops.solve(input);
    var pose := ToVector(ops, ops.compose(increTrans, trans));
    e := Estimate(geoMedian, geoMad, intMedian, intMad, ops.fromPose(pose));
  }


  // ---------------------------------------------------------------------
  // The passes of iterateLevel as functions of what they read and change

  /** What the passes only read: the salient points, the target grid, the camera, the primitives and rand(). */
  datatype Setting = Setting(salient: seq<Point>, tgt: seq<Point>, cam: Camera, ops: Ops, rand: nat -> nat)
  {
    /** The target grid matches the camera. */
    predicate Valid()
    {
      0 <= cam.width && 0 <= cam.height && |tgt| == cam.width * cam.height
    }
  }

  /** What the passes change: the rand() cursor, the statistics with the transform, and the latest pairs. */
  datatype Progress = Progress(draws: nat, est: Estimate, srcPairs: seq<Point>, tgtPairs: seq<Point>)
  {
    /** Both scales are usable divisors; the latest pairs come two by two and number at most 150. */
    predicate Valid()
    {
      est.geoMad > 0.0 && est.intMad > 0.0 && |srcPairs| == |tgtPairs| <= MaxPairs
    }
  }

  /** The scene a pass at this offset searches, with the statistics and the transform of `est`. */
  function SceneAt(s: Setting, est: Estimate, offset: int): Scene
  {
    Scene(s.salient, s.tgt, s.cam, s.ops, Stats(est.geoMad, est.intMedian, est.intMad), est.trans, offset, s.rand)
  }

  /**
    One pass of iterateLevel: the pairs drawn with the statistics the
    previous pass left, then the re-estimate when there are any. A pass keeps
    the state usable and consumes at most one rand() value per salient point.
   */
  function Step(s: Setting, p: Progress, offset: int): (q: Progress)
    requires s.Valid() && p.Valid()
    ensures q.Valid()
    ensures p.draws <= q.draws <= p.draws + |s.salient|
  {
    var sc := SceneAt(s, p.est, offset);
    GatherSpec(sc, p.draws, |s.salient|, []);
    var (pairs, next) := Gather(sc, p.draws, |s.salient|, []);
    Progress(next, if pairs == [] then p.est else Reestimated(s.ops, p.est.trans, pairs),
      seq(|pairs|, k requires 0 <= k < |pairs| => pairs[k].from),
      seq(|pairs|, k requires 0 <= k < |pairs| => pairs[k].to))
  }

  /** Passes at the given offsets, each starting from the state the previous one left. */
  function Steps(s: Setting, p: Progress, offsets: seq<int>): (q: Progress)
    requires s.Valid() && p.Valid()
    ensures q.Valid()
    decreases |offsets|
  {
    if offsets == [] then p else Steps(s, Step(s, p, offsets[0]), offsets[1..])
  }

  /** Running two lists of passes one after the other is running their concatenation: nothing is reset in between. */
  lemma {:induction false} StepsConcat(s: Setting, p: Progress, a: seq<int>, b: seq<int>)
    requires s.Valid() && p.Valid()
    ensures Steps(s, p, a + b) == Steps(s, Steps(s, p, a), b)
    decreases |a|
  {
    if a == [] {
      assert a + b == b;
    } else {
      assert (a + b)[0] == a[0];
      assert (a + b)[1..] == a[1..] + b;
      StepsConcat(s, Step(s, p, a[0]), a[1..], b);
    }
  }

  /** One more pass after a list of passes. */
  lemma StepsSnoc(s: Setting, p: Progress, a: seq<int>, offset: int)
    requires s.Valid() && p.Valid()
    ensures Steps(s, p, a + [offset]) == Step(s, Steps(s, p, a), offset)
  {
    StepsConcat(s, p, a, [offset]);
    assert [offset][1..] == [];
  }

  /** One more pass at the offset of a level. */
  lemma StepsRepeat(s: Setting, p: Progress, offset: int, n: nat)
    requires s.Valid() && p.Valid() && n > 0
    ensures Steps(s, p, Repeat(offset, n)) == Step(s, Steps(s, p, Repeat(offset, n - 1)), offset)
  {
    assert Repeat(offset, n) == Repeat(offset, n - 1) + [offset];
    StepsSnoc(s, p, Repeat(offset, n - 1), offset);
  }

  /** The offsets of the three levels, appended one after the other, are the schedule. */
  lemma ScheduleAppend(o: seq<int>)
    ensures o + Repeat(7, 7) + Repeat(3, 7) + Repeat(1, 15) == o + ScheduleOffsets()
  {
  }

  /** The three levels of run, one after the other, are the passes of the schedule. */
  lemma ScheduleSteps(s: Setting, p0: Progress, p1: Progress, p2: Progress, p3: Progress)
    requires s.Valid() && p0.Valid() && p1.Valid() && p2.Valid()
    requires p1 == Steps(s, p0, Repeat(7, 7))
    requires p2 == Steps(s, p1, Repeat(3, 7))
    requires p3 == Steps(s, p2, Repeat(1, 15))
    ensures p3 == Steps(s, p0, ScheduleOffsets())
  {
    StepsConcat(s, p0, Repeat(7, 7), Repeat(3, 7));
    StepsConcat(s, p0, Repeat(7, 7) + Repeat(3, 7), Repeat(1, 15));
  }

  /** n passes consume at most n rand() values per salient point, and never go back. */
  lemma {:induction false} StepsDraws(s: Setting, p: Progress, offsets: seq<int>)
    requires s.Valid() && p.Valid()
    ensures p.draws <= Steps(s, p, offsets).draws <= p.draws + |offsets| * |s.salient|
    decreases |offsets|
  {
    if offsets != [] {
      var q := Step(s, p, offsets[0]);
      StepsDraws(s, q, offsets[1..]);
      MulSucc(|offsets[1..]|, |s.salient|);
    }
  }

  lemma MulSucc(n: nat, m: nat)
    ensures (n + 1) * m == m + n * m
  {
  }

  /** A pass that stores the drawn pairs and the re-estimate (or keeps the estimate without pairs) is a Step. */
  lemma PassIsStep(s: Setting, p: Progress, offset: int, pairs: seq<Correspondence>, next: nat, q: Progress)
    requires s.Valid() && p.Valid()
    requires (pairs, next) == Gather(SceneAt(s, p.est, offset), p.draws, |s.salient|, [])
    requires q.draws == next && |q.srcPairs| == |q.tgtPairs| == |pairs|
    requires forall k :: 0 <= k < |pairs| ==> q.srcPairs[k] == pairs[k].from && q.tgtPairs[k] == pairs[k].to
    requires q.est == if pairs == [] then p.est else Reestimated(s.ops, p.est.trans, pairs)
    ensures q == Step(s, p, offset)
  {
  }

  class Iaicp {
    /** fx, fy, cx, cy, width, height. */
    const cam: Camera
    /** The foreign numerical primitives. */
    const ops: Ops
    /** The values rand() returns, in order. */
    const rand: nat -> nat
    /** How many rand() values have been consumed. */
    var draws: nat

    var src: seq<Point>
    var tgt: seq<Point>
    var salient: seq<Point>
    /** src_ and tgt_: the pairs of the latest iteration. */
    var srcPairs: seq<Point>
    var tgtPairs: seq<Point>
    var trans: Transform
    var predict: Transform
    var intMedian: real
    var geoMedian: real
    var intMad: real
    var geoMad: real

    /**
      The pixel offset of every transform update so far. It only records the
      offsets for a reader of the contracts: `State() == Steps(...)` already
      determines what the passes compute.
     */
    ghost var offsets: seq<int>

    /** The latest pairs come two by two and number at most 150; every salient point has depth. */
    ghost predicate Valid()
      reads this`srcPairs, this`tgtPairs, this`salient
    {
      |srcPairs| == |tgtPairs| <= MaxPairs &&
      forall k :: 0 <= k < |salient| ==> salient[k].finite
    }

    /** Both frames are set and match the camera, which is at least 7 x 7. */
    predicate Loaded()
      reads this`src, this`tgt, this`predict
    {
      Frames(src, tgt, cam, ops, predict).Valid()
    }

    /** Loaded, and both scales are usable divisors. */
    predicate Ready()
      reads this`src, this`tgt, this`predict, this`geoMad, this`intMad
    {
      Loaded() && geoMad > 0.0 && intMad > 0.0
    }

    function CurrentFrames(): Frames
      reads this`src, this`tgt, this`predict
    {
      Frames(src, tgt, cam, ops, predict)
    }

    /** What the passes only read. */
    function CurrentSetting(): Setting
      reads this`salient, this`tgt
    {
      Setting(salient, tgt, cam, ops, rand)
    }

    /** What the passes change. */
    function State(): Progress
      reads this`draws, this`geoMedian, this`geoMad, this`intMedian, this`intMad, this`trans
      reads this`srcPairs, this`tgtPairs
    {
      Progress(draws, Estimate(geoMedian, geoMad, intMedian, intMad, trans), srcPairs, tgtPairs)
    }

    /** What the next iteration searches in, with the statistics the previous one left. */
    function CurrentScene(offset: int): Scene
      reads this
    {
      Scene(salient, tgt, cam, ops, Stats(geoMad, intMedian, intMad), trans, offset, rand)
    }

    /** The pairs the next iteration at this offset collects, and the rand() cursor after it. */
    function Drawn(offset: int): (seq<Correspondence>, nat)
      requires Ready()
      reads this
    {
      Gather(CurrentScene(offset), draws, |salient|, [])
    }

    /**
      The camera comes from the caller in place of the parameter server;
      both transforms start at the identity. The statistics are not set
      until setupSource and setupTarget (they read as 0 here).
     */
    constructor (cam: Camera, ops: Ops, rand: nat -> nat)
      ensures this.cam == cam && this.ops == ops && this.rand == rand
      ensures trans == ops.identity && predict == ops.identity
      ensures src == [] && tgt == [] && salient == [] && srcPairs == [] && tgtPairs == []
      ensures draws == 0 && offsets == []
      ensures geoMad == 0.0 && intMad == 0.0 && geoMedian == 0.0 && intMedian == 0.0
      ensures Valid()
    {
      this.cam, this.ops, this.rand := cam, ops, rand;
      draws := 0;
      src, tgt, salient, srcPairs, tgtPairs := [], [], [], [], [];
      trans, predict := ops.identity, ops.identity;
      intMedian, geoMedian, intMad, geoMad := 0.0, 0.0, 0.0, 0.0;
      offsets := [];
    }

    /** setupSource: the source frame, and the intensity statistics reset to median 0, scale 45. */
    method SetupSource(source: seq<Point>)
      requires Valid()
      modifies this`src, this`intMedian, this`intMad
      ensures src == source && intMedian == 0.0 && intMad == 45.0
      ensures Valid()
    {
      src := source;
      intMedian, intMad := 0.0, 45.0;
    }

    /**
      setupTarget: the target frame, the geometric statistics reset to
      median 0, scale 0.02, and the intensity ones to median 0, scale 45.
     */
    method SetupTarget(target: seq<Point>)
      requires Valid()
      modifies this`tgt, this`geoMedian, this`geoMad, this`intMedian, this`intMad
      ensures tgt == target && geoMedian == 0.0 && geoMad == 0.02 && intMedian == 0.0 && intMad == 45.0
      ensures Valid()
      ensures Loaded() ==> Ready()
    {
      tgt := target;
      geoMedian, geoMad := 0.0, 0.02;
      intMedian, intMad := 0.0, 45.0;
    }

    /** setupPredict: the prediction becomes the starting transform as well. */
    method SetupPredict(pred: Transform)
      requires Valid()
      modifies this`predict, this`trans
      ensures predict == pred && trans == pred
      ensures Valid()
    {
      predict, trans := pred, pred;
    }

    /**
      sampleSource: draws the lattice's start, scans the lattice, appends the
      fallback when fewer than 200 sites were kept, and removes the points
      without depth.
     */
    method SampleSource()
      requires Valid() && Loaded()
      modifies this`salient, this`draws
      ensures salient == Sampled(CurrentFrames(), rand, old(draws))
      ensures draws == old(draws) + SamplingDraws(CurrentFrames(), rand, old(draws))
      ensures Valid()
    {
      salient, draws := Sample(CurrentFrames(), rand, draws);
    }

    /**
      One pass of iterateLevel's loop: collect pairs with the statistics the
      previous pass left, recompute both medians and scales from the new
      residuals, weight the pairs, solve, and left-compose the increment into
      the transform through its wrapped pose vector. With no pair collected
      the statistics and the transform stay as they are.
     */
    method Iterate(maxDist: int, offset: int)
      requires Valid() && Ready()
      modifies this`srcPairs, this`tgtPairs, this`geoMedian, this`geoMad, this`intMedian, this`intMad
      modifies this`trans, this`draws, this`offsets
      ensures Valid() && Ready()
      ensures State() == Step(CurrentSetting(), old(State()), offset)
      ensures offsets == old(offsets) + [offset]
    {
      ghost var s, p := CurrentSetting(), State();
      assert SceneAt(s, p.est, offset) == CurrentScene(offset);
      ghost var pairs;
      var geoResiduals, intResiduals;
      pairs, geoResiduals, intResiduals := Collect(offset);
      if |geoResiduals| > 0 {
        var e := Reestimate(ops, trans, pairs, srcPairs, tgtPairs, geoResiduals, intResiduals);
        Apply(e);
      }
      PassIsStep(s, p, offset, pairs, draws, State());
      assert CurrentSetting() == s;
    }

    /**
      The first half of one iteration: the pairs are drawn and stored, with
      their residuals returned in the same order.
     */
    method Collect(offset: int) returns (ghost pairs: seq<Correspondence>, geoResiduals: seq<real>, intResiduals: seq<real>)
      requires Valid() && Ready()
      modifies this`srcPairs, this`tgtPairs, this`draws, this`offsets
      ensures Valid() && Ready()
      ensures (pairs, draws) == old(Drawn(offset))
      ensures |srcPairs| == |tgtPairs| == |geoResiduals| == |intResiduals| == |pairs|
      ensures forall k :: 0 <= k < |pairs| ==>
        srcPairs[k] == pairs[k].from && tgtPairs[k] == pairs[k].to &&
        geoResiduals[k] == pairs[k].geoResidual && intResiduals[k] == pairs[k].intResidual
      ensures offsets == old(offsets) + [offset]
    {
      pairs := Drawn(offset).0;
      var src_, tgt_, next;
      src_, tgt_, geoResiduals, intResiduals, next := DrawCorrespondences(CurrentScene(offset), draws);
      srcPairs, tgtPairs, draws := src_, tgt_, next;
      offsets := offsets + [offset];
    }

    /** The new statistics and transform take the place of the old ones. */
    method Apply(e: Estimate)
      modifies this`geoMedian, this`geoMad, this`intMedian, this`intMad, this`trans
      ensures Estimate(geoMedian, geoMad, intMedian, intMad, trans) == e
    {
      geoMedian, geoMad, intMedian, intMad, trans := e.geoMedian, e.geoMad, e.intMedian, e.intMad, e.trans;
    }

    /**
      iterateLevel: maxIter iterations at one pixel offset; maxDist plays no
      part. `s` and `p` name the setting and the state it starts from.
     */
    method IterateLevel(maxDist: int, offset: int, maxIter: nat, ghost s: Setting, ghost p: Progress)
      requires Valid() && Ready() && s == CurrentSetting() && p == State()
      modifies this`srcPairs, this`tgtPairs, this`geoMedian, this`geoMad, this`intMedian, this`intMad
      modifies this`trans, this`draws, this`offsets
      ensures Valid() && Ready()
      ensures CurrentSetting() == s && CurrentFrames() == old(CurrentFrames())
      ensures s.Valid() && p.Valid() && State() == Steps(s, p, Repeat(offset, maxIter))
      ensures offsets == old(offsets) + Repeat(offset, maxIter)
    {
      for iteration := 0 to maxIter
        invariant Valid() && Ready()
        invariant CurrentSetting() == s && State() == Steps(s, p, Repeat(offset, iteration))
        invariant offsets == old(offsets) + Repeat(offset, iteration)
      {
        Iterate(maxDist, offset);
        RepeatSnoc(old(offsets), offset, iteration);
        StepsRepeat(s, p, offset, iteration + 1);
      }
    }

    /**
      run: sample once, then three levels at offsets 7, 3 and 1 with 7, 7
      and 15 iterations: 29 passes, each starting from the transform and
      statistics the previous one left.
     */
    method Run()
      requires Valid() && Ready()
      modifies this`salient, this`srcPairs, this`tgtPairs, this`geoMedian, this`geoMad, this`intMedian, this`intMad
      modifies this`trans, this`draws, this`offsets
      ensures Valid() && Ready()
      ensures salient == Sampled(CurrentFrames(), rand, old(draws))
      ensures State() ==
        Steps(CurrentSetting(), old(State()).(draws := old(draws) + SamplingDraws(CurrentFrames(), rand, old(draws))),
              ScheduleOffsets())
      ensures offsets == old(offsets) + ScheduleOffsets()
    {
      ghost var o0 := offsets;
      SampleSource();
      ghost var fr, s, p0 := CurrentFrames(), CurrentSetting(), State();
      assert p0 == old(State()).(draws := old(draws) + SamplingDraws(fr, rand, old(draws)));
      var iterPerLevel := 7;
      var offset, maxDist := 7, Truncate(0.15);
      IterateLevel(maxDist, offset, iterPerLevel, s, p0);
      ghost var p1 := State();
      offset, maxDist := 3, Truncate(0.06);
      IterateLevel(maxDist, offset, iterPerLevel, s, p1);
      ghost var p2 := State();
      offset, maxDist := 1, Truncate(0.02);
      IterateLevel(maxDist, offset, 15, s, p2);
      ScheduleSteps(s, p0, p1, p2, State());
      ScheduleAppend(o0);
      assert CurrentFrames() == fr && CurrentSetting() == s;
    }
  }
}
