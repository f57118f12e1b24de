/**
  Pose vectors: `checkAngles`, which pulls the three Euler angles of a pose
  into [-pi, pi] in place, and `toVector`/`toEigen`, the round trip through a
  pose vector that the registration applies to every updated transform.
 */
module Pose {
  import opened Geometry

  /** M_PI. */
  const Pi: real := 3.141592653589793
  const TwoPi: real := 2.0 * Pi

  /** True when x is a whole number. */
  predicate Whole(x: real) { x.Floor as real == x }

  lemma WholeShift(x: real, y: real)
    requires Whole(x) && (y == x + 1.0 || y == x - 1.0)
    ensures Whole(y)
  {
    var n := x.Floor;
    assert x == n as real;
    if y == x + 1.0 {
      assert y == (n + 1) as real;
    } else {
      assert y == (n - 1) as real;
    }
  }

  /** What the first loop of checkAngles leaves: subtract 2*pi while above pi. */
  function PullDown(a: real): real
    decreases if a > Pi then ((a - Pi) / TwoPi).Floor + 1 else 0
  {
    if a > Pi then PullDown(a - TwoPi) else a
  }

  /** What the second loop of checkAngles leaves: add 2*pi while below -pi. */
  function PushUp(a: real): real
    decreases if a < -Pi then ((-Pi - a) / TwoPi).Floor + 1 else 0
  {
    if a < -Pi then PushUp(a + TwoPi) else a
  }

  /** One angle after checkAngles. */
  function Wrap(a: real): real
  {
    PushUp(PullDown(a))
  }

  lemma {:induction false} PullDownSpec(a: real)
    ensures PullDown(a) <= Pi
    ensures a <= Pi ==> PullDown(a) == a
    ensures a > Pi ==> PullDown(a) > -Pi
    ensures Whole((a - PullDown(a)) / TwoPi)
    decreases if a > Pi then ((a - Pi) / TwoPi).Floor + 1 else 0
  {
    if a > Pi {
      PullDownSpec(a - TwoPi);
      var r := PullDown(a - TwoPi);
      assert (a - r) / TwoPi == (a - TwoPi - r) / TwoPi + 1.0;
      WholeShift((a - TwoPi - r) / TwoPi, (a - r) / TwoPi);
    }
  }

  lemma {:induction false} PushUpSpec(a: real)
    ensures PushUp(a) >= -Pi
    ensures a >= -Pi ==> PushUp(a) == a
    ensures a < -Pi ==> PushUp(a) < Pi
    ensures Whole((a - PushUp(a)) / TwoPi)
    decreases if a < -Pi then ((-Pi - a) / TwoPi).Floor + 1 else 0
  {
    if a < -Pi {
      PushUpSpec(a + TwoPi);
      var r := PushUp(a + TwoPi);
      assert (a - r) / TwoPi == (a + TwoPi - r) / TwoPi - 1.0;
      WholeShift((a + TwoPi - r) / TwoPi, (a - r) / TwoPi);
    }
  }

  /**
    checkAngles puts an angle into [-pi, pi], moving it by a whole number of
    turns; an angle above pi lands in (-pi, pi], one below -pi in [-pi, pi),
    and an angle already in range is left alone.
   */
  lemma WrapSpec(a: real)
    ensures -Pi <= Wrap(a) <= Pi
    ensures -Pi <= a <= Pi ==> Wrap(a) == a
    ensures a > Pi ==> Wrap(a) > -Pi
    ensures a < -Pi ==> Wrap(a) < Pi
    ensures Whole((a - Wrap(a)) / TwoPi)
  {
    PullDownSpec(a);
    var d := PullDown(a);
    PushUpSpec(d);
    var k1 := (a - d) / TwoPi;
    var k2 := (d - Wrap(a)) / TwoPi;
    assert (a - Wrap(a)) / TwoPi == k1 + k2;
  }

  /** Applying checkAngles a second time changes nothing. */
  lemma WrapIdempotent(a: real)
    ensures Wrap(Wrap(a)) == Wrap(a)
  {
    WrapSpec(a);
    WrapSpec(Wrap(a));
  }

  /** The pose vector after checkAngles: translation kept, the three angles wrapped. */
  function WrapPose(v: Vector6): Vector6
  {
    v[..3] + [Wrap(v[3]), Wrap(v[4]), Wrap(v[5])]
  }

  /**
    checkAngles leaves the translation alone, brings the angles into
    [-pi, pi], and is idempotent.
   */
  lemma WrapPoseSpec(v: Vector6)
    ensures WrapPose(v)[..3] == v[..3]
    ensures forall k :: 3 <= k < 6 ==> -Pi <= WrapPose(v)[k] <= Pi
    ensures WrapPose(WrapPose(v)) == WrapPose(v)
  {
    WrapSpec(v[3]);
    WrapSpec(v[4]);
    WrapSpec(v[5]);
    WrapIdempotent(v[3]);
    WrapIdempotent(v[4]);
    WrapIdempotent(v[5]);
  }

  /** checkAngles, on the Vector6f it is given. */
  method CheckAngles(vec: array<real>)
    requires vec.Length == 6
    modifies vec
    ensures vec[..] == WrapPose(old(vec[..]))
  {
    for i := 3 to 6
      invariant forall k :: 0 <= k < 6 && (k < 3 || i <= k) ==> vec[k] == old(vec[k])
      invariant forall k :: 3 <= k < i ==> vec[k] == Wrap(old(vec[k]))
    {
      ghost var before := vec[..];
      while vec[i] > Pi
        invariant PullDown(vec[i]) == PullDown(before[i])
        invariant forall k :: 0 <= k < 6 && k != i ==> vec[k] == before[k]
        decreases ((vec[i] - Pi) / TwoPi).Floor
      {
        vec[i] := vec[i] - TwoPi;
      }
      while vec[i] < -Pi
        invariant PushUp(vec[i]) == Wrap(before[i])
        invariant forall k :: 0 <= k < 6 && k != i ==> vec[k] == before[k]
        decreases ((-Pi - vec[i]) / TwoPi).Floor
      {
        vec[i] := vec[i] + TwoPi;
      }
    }
  }

  /**
    toVector: the pose vector of a transform with its angles wrapped; the
    translation is the foreign decomposition's, every angle lies in
    [-pi, pi].
   */
  method ToVector(ops: Ops, pose: Transform) returns (v: Vector6)
    ensures v == WrapPose(ops.toPose(pose))
    ensures v[..3] == ops.toPose(pose)[..3]
    ensures forall k :: 3 <= k < 6 ==> -Pi <= v[k] <= Pi
  {
    var p := ops.toPose(pose);
    var temp := new real[6](k => if 0 <= k < 6 then p[k] else 0.0);
    assert temp[..] == p;
    CheckAngles(temp);
    v := temp[..];
    WrapPoseSpec(p);
  }

  /** toEigen(toVector(t)): the transform rebuilt from its wrapped pose vector. */
  function Normalise(ops: Ops, t: Transform): Transform
  {
    ops.fromPose(WrapPose(ops.toPose(t)))
  }
}
