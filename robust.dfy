/**
  The robust statistics of one registration iteration: the weight function,
  the median and the MAD-derived scale of a residual population, and the
  rewriting of residuals into weights.
 */
module Robust {
  import opened Geometry

  /** 1.4826 * MAD approximates the standard deviation of Gaussian residuals. */
  const MadFactor: real := 1.4826
  /** Added to every scale so that it is never zero (1e-11). */
  const MadEpsilon: real := 0.00000000001

  /** The weight 6 / (5 + u^2) of a residual r, with u = (r - median) / scale. */
  function Weight(r: real, median: real, scale: real): (w: real)
    requires scale != 0.0
    ensures 0.0 < w <= 6.0 / 5.0
  {
    var u := (r - median) / scale;
    6.0 / (5.0 + u * u)
  }

  /** The weight reaches its peak 6/5 exactly when the residual equals the median. */
  lemma WeightPeak(r: real, median: real, scale: real)
    requires scale != 0.0
    ensures Weight(r, median, scale) == 6.0 / 5.0 <==> r == median
  {
    var u := (r - median) / scale;
    if r != median {
      assert u != 0.0;
      assert u * u > 0.0;
      assert 6.0 / (5.0 + u * u) < 6.0 / 5.0;
    }
  }

  /** The weight is symmetric about the median. */
  lemma WeightSymmetric(median: real, d: real, scale: real)
    requires scale != 0.0
    ensures Weight(median + d, median, scale) == Weight(median - d, median, scale)
  {
    var u := (median + d - median) / scale;
    var v := (median - d - median) / scale;
    assert v == -u;
    assert u * u == v * v;
  }

  lemma SquareMonotone(a: real, b: real)
    requires 0.0 <= a <= b
    ensures a * a <= b * b
    ensures a < b ==> a * a < b * b
  {
    assert b * b - a * a == (b - a) * (b + a);
    if a < b {
      MulPositive(b - a, b + a);
    } else {
      assert a == b;
    }
  }

  lemma MulPositive(x: real, y: real)
    requires x > 0.0 && y > 0.0
    ensures x * y > 0.0
  {
  }

  lemma SquareOfAbs(d: real)
    ensures Abs(d) * Abs(d) == d * d
  {
  }

  lemma DivideByPositive(a: real, b: real, c: real)
    requires c > 0.0 && a <= b
    ensures a / c <= b / c
    ensures a < b ==> a / c < b / c
  {
    assert b / c - a / c == (b - a) / c;
  }

  /** 6/x decreases on the positive reals, strictly between distinct points. */
  lemma SixOverAntitone(a: real, b: real)
    requires 0.0 < a <= b
    ensures 6.0 / b <= 6.0 / a
    ensures a < b ==> 6.0 / b < 6.0 / a
  {
    assert 6.0 / a - 6.0 / b == 6.0 * (b - a) / (a * b);
    MulPositive(a, b);
    if a < b {
      MulPositive(6.0, b - a);
    }
  }

  /** The size of a product is the product of the sizes. */
  lemma AbsProduct(a: real, b: real)
    ensures Abs(a * b) == Abs(a) * Abs(b)
  {
    if a >= 0.0 && b >= 0.0 {
      MulNonNegative(a, b);
    } else if a < 0.0 && b >= 0.0 {
      MulNonNegative(-a, b);
      assert (-a) * b == -(a * b);
    } else if a >= 0.0 && b < 0.0 {
      MulNonNegative(a, -b);
      assert a * (-b) == -(a * b);
    } else {
      MulNonNegative(-a, -b);
      assert (-a) * (-b) == a * b;
    }
  }

  lemma MulNonNegative(x: real, y: real)
    requires x >= 0.0 && y >= 0.0
    ensures x * y >= 0.0
  {
    if x > 0.0 && y > 0.0 {
      MulPositive(x, y);
    }
  }

  /** A non-zero factor cancels. */
  lemma CancelFactor(x: real, y: real, z: real)
    requires z != 0.0 && x * z == y * z
    ensures x == y
  {
    assert (x - y) * z == 0.0;
    if x != y {
      AbsProduct(x - y, z);
      MulPositive(Abs(x - y), Abs(z));
    }
  }

  /** The size of a quotient is the quotient of the sizes. */
  lemma AbsQuotient(d: real, c: real)
    requires c != 0.0
    ensures Abs(d / c) == Abs(d) / Abs(c)
  {
    var q := d / c;
    assert q * c == d;
    AbsProduct(q, c);
    var r := Abs(d) / Abs(c);
    assert r * Abs(c) == Abs(d);
    CancelFactor(Abs(q), r, Abs(c));
  }

  /**
    The weight does not increase as the residual moves away from the median,
    and strictly decreases as the distance grows.
   */
  lemma WeightNonIncreasing(r1: real, r2: real, median: real, scale: real)
    requires scale != 0.0
    requires Abs(r1 - median) <= Abs(r2 - median)
    ensures Weight(r2, median, scale) <= Weight(r1, median, scale)
    ensures Abs(r1 - median) < Abs(r2 - median) ==> Weight(r2, median, scale) < Weight(r1, median, scale)
  {
    var d1, d2 := r1 - median, r2 - median;
    QuotientSizeMonotone(d1, d2, scale);
    var u1, u2 := d1 / scale, d2 / scale;
    ReciprocalOfSquareAntitone(u1, u2);
    WeightOfQuotient(r1, median, scale, u1);
    WeightOfQuotient(r2, median, scale, u2);
  }

  lemma WeightOfQuotient(r: real, median: real, scale: real, u: real)
    requires scale != 0.0 && u == (r - median) / scale
    ensures Weight(r, median, scale) == 6.0 / (5.0 + u * u)
  {
  }

  lemma QuotientSizeMonotone(d1: real, d2: real, c: real)
    requires c != 0.0 && Abs(d1) <= Abs(d2)
    ensures Abs(d1 / c) <= Abs(d2 / c)
    ensures Abs(d1) < Abs(d2) ==> Abs(d1 / c) < Abs(d2 / c)
  {
    AbsQuotient(d1, c);
    AbsQuotient(d2, c);
    DivideByPositive(Abs(d1), Abs(d2), Abs(c));
  }

  lemma ReciprocalOfSquareAntitone(u1: real, u2: real)
    requires Abs(u1) <= Abs(u2)
    ensures 6.0 / (5.0 + u2 * u2) <= 6.0 / (5.0 + u1 * u1)
    ensures Abs(u1) < Abs(u2) ==> 6.0 / (5.0 + u2 * u2) < 6.0 / (5.0 + u1 * u1)
  {
    SquareMonotone(0.0, Abs(u1));
    SquareMonotone(Abs(u1), Abs(u2));
    SquareOfAbs(u1);
    SquareOfAbs(u2);
    SixOverAntitone(5.0 + u1 * u1, 5.0 + u2 * u2);
  }

  // ---------------------------------------------------------------------
  // Sorting (std::sort) and counting

  predicate Sorted(s: seq<real>)
  {
    forall i, j :: 0 <= i < j < |s| ==> s[i] <= s[j]
  }

  function Insert(x: real, s: seq<real>): (r: seq<real>)
    ensures |r| == |s| + 1
  {
    if s == [] then [x]
    else if x <= s[0] then [x] + s
    else [s[0]] + Insert(x, s[1..])
  }

  /** A head no greater than any element of a sorted tail gives a sorted sequence. */
  lemma SortedCons(h: real, t: seq<real>)
    requires Sorted(t) && forall k :: 0 <= k < |t| ==> h <= t[k]
    ensures Sorted([h] + t)
  {
    var u := [h] + t;
    forall i, j | 0 <= i < j < |u|
      ensures u[i] <= u[j]
    {
      assert u[j] == t[j - 1];
      if i > 0 {
        assert u[i] == t[i - 1];
      }
    }
  }

  /** Inserting adds exactly x to the population. */
  lemma {:induction false} InsertPermutes(x: real, s: seq<real>)
    ensures multiset(Insert(x, s)) == multiset(s) + multiset{x}
  {
    if s != [] && x > s[0] {
      var t := s[1..];
      InsertPermutes(x, t);
      assert s == [s[0]] + t;
      assert Insert(x, s) == [s[0]] + Insert(x, t);
      assert multiset(Insert(x, s)) == multiset{s[0]} + multiset(Insert(x, t));
      assert multiset(s) == multiset{s[0]} + multiset(t);
    }
  }

  /** The tail of a sorted sequence is sorted, and its head is at most every element. */
  lemma SortedTail(s: seq<real>)
    requires Sorted(s) && s != []
    ensures Sorted(s[1..])
    ensures forall k :: 0 <= k < |s| ==> s[0] <= s[k]
  {
    var t := s[1..];
    forall i, j | 0 <= i < j < |t|
      ensures t[i] <= t[j]
    {
      assert t[i] == s[i + 1] && t[j] == s[j + 1];
    }
  }

  /** Inserting into a sorted population keeps it sorted and adds exactly x. */
  lemma {:induction false} InsertSpec(x: real, s: seq<real>)
    requires Sorted(s)
    ensures Sorted(Insert(x, s)) && multiset(Insert(x, s)) == multiset(s) + multiset{x}
  {
    InsertPermutes(x, s);
    if s == [] {
    } else if x <= s[0] {
      SortedTail(s);
      SortedCons(x, s);
    } else {
      var t := s[1..];
      SortedTail(s);
      var rest := Insert(x, t);
      InsertSpec(x, t);
      assert Insert(x, s) == [s[0]] + rest;
      forall k | 0 <= k < |rest|
        ensures s[0] <= rest[k]
      {
        assert rest[k] in multiset(t) + multiset{x} by {
          assert rest[k] in multiset(rest);
        }
        if rest[k] != x {
          var j :| 0 <= j < |t| && t[j] == rest[k];
          assert t[j] == s[j + 1];
        }
      }
      SortedCons(s[0], rest);
    }
  }

  /** The ascending arrangement of a residual population. */
  function Sort(s: seq<real>): (r: seq<real>)
    ensures |r| == |s|
  {
    if s == [] then [] else Insert(s[0], Sort(s[1..]))
  }

  /** Sort orders the population and neither adds nor drops an element. */
  lemma {:induction false} SortSpec(s: seq<real>)
    ensures Sorted(Sort(s)) && multiset(Sort(s)) == multiset(s)
  {
    if s != [] {
      SortSpec(s[1..]);
      InsertSpec(s[0], Sort(s[1..]));
      assert s == [s[0]] + s[1..];
    }
  }

  function Count(s: seq<real>, p: real -> bool): nat
  {
    if s == [] then 0 else (if p(s[0]) then 1 else 0) + Count(s[1..], p)
  }

  function AtMost(m: real): real -> bool { x => x <= m }
  function AtLeast(m: real): real -> bool { x => x >= m }

  lemma {:induction false} CountAppend(a: seq<real>, b: seq<real>, p: real -> bool)
    ensures Count(a + b, p) == Count(a, p) + Count(b, p)
  {
    if a == [] {
      assert a + b == b;
    } else {
      assert (a + b)[0] == a[0];
      assert (a + b)[1..] == a[1..] + b;
      CountAppend(a[1..], b, p);
    }
  }

  /** Inserting x counts as putting it in front. */
  lemma {:induction false} CountInsert(x: real, t: seq<real>, p: real -> bool)
    ensures Count(Insert(x, t), p) == Count([x] + t, p)
  {
    if t != [] && x > t[0] {
      CountInsert(x, t[1..], p);
      assert ([x] + t)[1..] == t;
      assert ([x] + t[1..])[1..] == t[1..];
      assert (Insert(x, t))[1..] == Insert(x, t[1..]);
    }
  }

  /** Sorting does not change how many elements pass a test. */
  lemma {:induction false} CountSort(s: seq<real>, p: real -> bool)
    ensures Count(Sort(s), p) == Count(s, p)
  {
    if s != [] {
      CountSort(s[1..], p);
      CountInsert(s[0], Sort(s[1..]), p);
      assert ([s[0]] + Sort(s[1..]))[1..] == Sort(s[1..]);
    }
  }

  /** When every element passes, the count is the length. */
  lemma {:induction false} CountAll(s: seq<real>, p: real -> bool)
    requires forall k :: 0 <= k < |s| ==> p(s[k])
    ensures Count(s, p) == |s|
  {
    if s != [] {
      CountAll(s[1..], p);
    }
  }

  // ---------------------------------------------------------------------
  // The median

  /** The position of the median in the sorted population (the upper middle for an even count). */
  function MedianIndex(n: nat): nat { n / 2 }

  /** The median of a non-empty population. */
  function Median(s: seq<real>): real
    requires |s| >= 1
  {
    Sort(s)[MedianIndex(|s|)]
  }

  /** In a sorted population, everything up to position h lies at or below the element at h. */
  lemma SortedCountAtMost(t: seq<real>, h: nat)
    requires Sorted(t) && h < |t|
    ensures Count(t, AtMost(t[h])) >= h + 1
  {
    var m := t[h];
    var low := t[..h + 1];
    assert t == low + t[h + 1..];
    forall k | 0 <= k < |low|
      ensures AtMost(m)(low[k])
    {
      assert low[k] == t[k] <= m;
    }
    CountAll(low, AtMost(m));
    CountAppend(low, t[h + 1..], AtMost(m));
  }

  /** In a sorted population, everything from position h on lies at or above the element at h. */
  lemma SortedCountAtLeast(t: seq<real>, h: nat)
    requires Sorted(t) && h < |t|
    ensures Count(t, AtLeast(t[h])) >= |t| - h
  {
    var m := t[h];
    var high := t[h..];
    assert t == t[..h] + high;
    forall k | 0 <= k < |high|
      ensures AtLeast(m)(high[k])
    {
      assert high[k] == t[h + k] >= m;
    }
    CountAll(high, AtLeast(m));
    CountAppend(t[..h], high, AtLeast(m));
  }

  /**
    Median is a median: at least half of the population lies at or below
    it and at least half at or above it.
   */
  lemma MedianSplitsPopulation(s: seq<real>)
    requires |s| >= 1
    ensures 2 * Count(s, AtMost(Median(s))) >= |s|
    ensures 2 * Count(s, AtLeast(Median(s))) >= |s|
  {
    var t := Sort(s);
    SortSpec(s);
    var h := |s| / 2;
    var m := t[h];
    assert Median(s) == m;
    CountSort(s, AtMost(m));
    CountSort(s, AtLeast(m));
    SortedCountAtMost(t, h);
    SortedCountAtLeast(t, h);
  }

  /** `temp[temp.size() - temp.size()/2]`, the index the source reads. */
  function MedianIndexAsWritten(n: nat): int { n - n / 2 }

  /**
    The source's index agrees with the upper median's for an even count and
    is one past it for an odd count.
   */
  lemma MedianIndexAsWrittenParity(n: nat)
    ensures n % 2 == 0 ==> MedianIndexAsWritten(n) == MedianIndex(n)
    ensures n % 2 == 1 ==> MedianIndexAsWritten(n) == MedianIndex(n) + 1
  {
  }

  /** The source's read is inside the population only from two residuals on. */
  lemma MedianIndexAsWrittenInRange(n: nat)
    ensures 0 <= MedianIndexAsWritten(n) < n <==> n >= 2
  {
  }

  /** The source's median, defined where its read is in range. */
  function MedianAsWritten(s: seq<real>): real
    requires |s| >= 2
  {
    Sort(s)[MedianIndexAsWritten(|s|)]
  }

  lemma SortOfThree()
    ensures Sort([1.0, 2.0, 3.0]) == [1.0, 2.0, 3.0]
  {
    assert [1.0, 2.0, 3.0][1..] == [2.0, 3.0];
    assert [2.0, 3.0][1..] == [3.0];
    assert [3.0][1..] == [];
    assert Sort([3.0]) == [3.0];
    assert Sort([2.0, 3.0]) == [2.0, 3.0];
  }

  /**
    On three residuals the source picks the largest one, which has only one
    third of the population at or above it; the corrected median picks the
    middle one.
   */
  lemma MedianAsWrittenCounterexample()
    ensures MedianAsWritten([1.0, 2.0, 3.0]) == 3.0
    ensures 2 * Count([1.0, 2.0, 3.0], AtLeast(3.0)) < 3
    ensures Median([1.0, 2.0, 3.0]) == 2.0
  {
    SortOfThree();
    assert [1.0, 2.0, 3.0][1..] == [2.0, 3.0];
    assert [2.0, 3.0][1..] == [3.0];
    assert [3.0][1..] == [];
    assert Count([3.0], AtLeast(3.0)) == 1;
    assert Count([2.0, 3.0], AtLeast(3.0)) == 1;
  }

  // ---------------------------------------------------------------------
  // The MAD-derived scale

  /** The absolute deviations of a population from a centre, in place of each element. */
  function AbsDev(s: seq<real>, centre: real): (r: seq<real>)
    ensures |r| == |s| && forall k :: 0 <= k < |r| ==> r[k] == Abs(s[k] - centre) && r[k] >= 0.0
  {
    seq(|s|, k requires 0 <= k < |s| => Abs(s[k] - centre))
  }

  /**
    1.4826 times the median absolute deviation from the median, plus 1e-11:
    never below 1e-11, so it is always a valid divisor.
   */
  function Mad(s: seq<real>): (scale: real)
    requires |s| >= 1
    ensures scale >= MadEpsilon > 0.0
  {
    var devs := AbsDev(Sort(s), Median(s));
    var t := Sort(devs);
    var x := t[MedianIndex(|s|)];
    SortSpec(devs);
    assert x in multiset(devs);
    MadFactor * x + MadEpsilon
  }

  /**
    Lines 194-201 (and 206-213): sort a copy, read the median, overwrite the
    copy in place with absolute deviations, sort again, read the scale.
   */
  method RobustScale(residuals: seq<real>) returns (median: real, mad: real)
    requires |residuals| >= 1
    ensures median == Median(residuals) && mad == Mad(residuals)
    ensures mad >= MadEpsilon
  {
    var temp := Sort(residuals);
    median := temp[|temp| / 2];
    ghost var sorted := temp;
    var i := 0;
    while i < |temp|
      invariant 0 <= i <= |temp| == |residuals|
      invariant forall k :: 0 <= k < i ==> temp[k] == Abs(sorted[k] - median)
      invariant forall k :: i <= k < |temp| ==> temp[k] == sorted[k]
    {
      temp := temp[i := Abs(temp[i] - median)];
      i := i + 1;
    }
    assert temp == AbsDev(sorted, median);
    temp := Sort(temp);
    mad := MadFactor * temp[|temp| / 2] + MadEpsilon;
  }

  /**
    Lines 202-204 (and 214-216): every residual is overwritten in place by
    its weight under the given median and scale; every weight lies in
    (0, 6/5].
   */
  method ToWeights(residuals: seq<real>, median: real, scale: real) returns (weights: seq<real>)
    requires scale > 0.0
    ensures |weights| == |residuals|
    ensures forall k :: 0 <= k < |weights| ==> weights[k] == Weight(residuals[k], median, scale)
    ensures forall k :: 0 <= k < |weights| ==> 0.0 < weights[k] <= 6.0 / 5.0
  {
    weights := residuals;
    for i := 0 to |weights|
      invariant |weights| == |residuals|
      invariant forall k :: 0 <= k < i ==> weights[k] == Weight(residuals[k], median, scale)
      invariant forall k :: i <= k < |weights| ==> weights[k] == residuals[k]
    {
      weights := weights[i := Weight(weights[i], median, scale)];
    }
  }
}
