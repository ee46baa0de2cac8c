/**
 * The fuzzy inference used by the controllers: ramps and triangles, conjunction by minimum,
 * implication by product, accumulation by algebraic sum, and the centroid over sample points.
 */
module Fuzzy {
  import opened Reals

  // ---------------------------------------------------------------- membership

  function Ramp(start: real, end: real, x: real): real
    requires start != end
  {
    if start < end then
      if x <= start then 0.0 else if x >= end then 1.0 else (x - start) / (end - start)
    else
      if x >= start then 0.0 else if x <= end then 1.0 else (start - x) / (start - end)
  }

  function Triangle(a: real, b: real, c: real, x: real): real
    requires a < b < c
  {
    if x < a || x > c then 0.0
    else if x == b then 1.0
    else if x < b then (x - a) / (b - a)
    else (c - x) / (c - b)
  }

  lemma RampRange(start: real, end: real, x: real)
    requires start != end
    ensures 0.0 <= Ramp(start, end, x) <= 1.0
    ensures Ramp(start, end, x) > 0.0 <==> (if start < end then x > start else x < start)
    ensures Ramp(start, end, x) == 1.0 <==> (if start < end then x >= end else x <= end)
  {
    if start < x < end {
      ProperFraction(x - start, end - start);
    } else if end < x < start {
      ProperFraction(start - x, start - end);
    }
  }

  lemma TriangleRange(a: real, b: real, c: real, x: real)
    requires a < b < c
    ensures 0.0 <= Triangle(a, b, c, x) <= 1.0
    ensures Triangle(a, b, c, x) > 0.0 <==> a < x < c
    ensures Triangle(a, b, c, x) == 1.0 <==> x == b
  {
    if a < x < b {
      ProperFraction(x - a, b - a);
    } else if b < x < c {
      ProperFraction(c - x, c - b);
    } else if x == a {
      assert (x - a) / (b - a) == 0.0;
    } else if x == c {
      assert (c - x) / (c - b) == 0.0;
    }
  }

  lemma ProperFraction(num: real, den: real)
    requires 0.0 < num < den
    ensures 0.0 < num / den < 1.0
  {
    QuotientPositive(num, den);
    var f := num / den;
    assert f * den == num;
    if f >= 1.0 {
      MulLe(den, 1.0, f, den, num);
    }
  }

  /** Between its ends a ramp is a straight line: half-way between two points it is half-way in degree. */
  lemma RampLine(start: real, end: real, x: real, y: real)
    requires start <= x <= end && start <= y <= end && start < end
    ensures Ramp(start, end, 0.5 * (x + y)) == 0.5 * (Ramp(start, end, x) + Ramp(start, end, y))
  {
    var d := end - start;
    RampRatio(start, end, x, d);
    RampRatio(start, end, y, d);
    RampRatio(start, end, 0.5 * (x + y), d);
    MeanRatio(x - start, y - start, 0.5 * (x + y) - start, d);
  }

  lemma RampRatio(start: real, end: real, x: real, d: real)
    requires start <= x <= end && d == end - start > 0.0
    ensures Ramp(start, end, x) == (x - start) / d
  {
    if x == end {
      assert d / d == 1.0;
    }
  }

  lemma MeanRatio(x: real, y: real, z: real, d: real)
    requires d != 0.0 && z == 0.5 * (x + y)
    ensures z / d == 0.5 * (x / d + y / d)
  {
    var u, v, w := x / d, y / d, z / d;
    assert u * d == x && v * d == y && w * d == z;
    SameRatio(d, w, 0.5 * (u + v));
  }

  lemma SameRatio(d: real, x: real, y: real)
    requires d != 0.0 && x * d == y * d
    ensures x == y
  {
    if x != y {
      NonZeroProduct(x - y, d, (x - y) * d);
    }
  }

  /** A falling ramp is what a rising one leaves of one. */
  lemma RampComplement(start: real, end: real, x: real)
    requires start < end
    ensures Ramp(start, end, x) + Ramp(end, start, x) == 1.0
  {
    if start < x < end {
      var d := end - start;
      var u, v := (x - start) / d, (end - x) / d;
      assert u * d == x - start && v * d == end - x;
      SameRatio(d, u + v, 1.0);
    }
  }

  /** A triangle is the lower of its two flanks. */
  lemma TriangleIsLower(a: real, b: real, c: real, x: real)
    requires a < b < c
    ensures Triangle(a, b, c, x) == Min(Ramp(a, b, x), Ramp(c, b, x))
  {
    RampRange(a, b, x);
    RampRange(c, b, x);
    TriangleRange(a, b, c, x);
  }

  // ---------------------------------------------------------------- the output terms

  datatype Change = Bdw | Dwn | Sty | Up | Bup

  function Shape(t: Change, x: real): real {
    match t
    case Bdw => Triangle(-1.0, -0.55, -0.10, x)
    case Dwn => Triangle(-0.20, -0.125, -0.05, x)
    case Sty => Triangle(-0.10, 0.0, 0.10, x)
    case Up => Triangle(0.05, 0.125, 0.20, x)
    case Bup => Triangle(0.10, 0.55, 1.00, x)
  }

  function SupportLow(t: Change): real {
    match t
    case Bdw => -1.0
    case Dwn => -0.20
    case Sty => -0.10
    case Up => 0.05
    case Bup => 0.10
  }

  function SupportHigh(t: Change): real {
    match t
    case Bdw => -0.10
    case Dwn => -0.05
    case Sty => 0.10
    case Up => 0.20
    case Bup => 1.00
  }

  lemma ShapeRange(t: Change, x: real)
    ensures 0.0 <= Shape(t, x) <= 1.0
    ensures Shape(t, x) > 0.0 <==> SupportLow(t) < x < SupportHigh(t)
    ensures Shape(t, x) == 1.0 <==> x == 0.5 * (SupportLow(t) + SupportHigh(t))
  {
    match t
    case Bdw => TriangleRange(-1.0, -0.55, -0.10, x);
    case Dwn => TriangleRange(-0.20, -0.125, -0.05, x);
    case Sty => TriangleRange(-0.10, 0.0, 0.10, x);
    case Up => TriangleRange(0.05, 0.125, 0.20, x);
    case Bup => TriangleRange(0.10, 0.55, 1.00, x);
  }

  // ---------------------------------------------------------------- inference

  /** A rule that fired: how strongly, and what it concludes. */
  datatype Activation = Activation(degree: real, change: Change)

  ghost predicate Degrees(acts: seq<Activation>) {
    forall i :: 0 <= i < |acts| ==> 0.0 <= acts[i].degree <= 1.0
  }

  function Accumulated(acts: seq<Activation>, x: real): real {
    if |acts| == 0 then 0.0
    else
      var a := acts[|acts| - 1];
      AlgebraicSum(Accumulated(acts[..|acts| - 1], x), Implied(a, x))
  }

  /** A conclusion weighed by the degree of its rule. */
  function Implied(a: Activation, x: real): real {
    a.degree * Shape(a.change, x)
  }

  function AlgebraicSum(r: real, v: real): real {
    r + v - r * v
  }

  lemma SumRange(r: real, v: real)
    requires 0.0 <= r <= 1.0 && 0.0 <= v <= 1.0
    ensures 0.0 <= AlgebraicSum(r, v) <= 1.0
    ensures AlgebraicSum(r, v) > 0.0 <==> r > 0.0 || v > 0.0
  {
    ShareOf(r, v, r * v);
    ShareOf(v, r, v * r);
    var w := (1.0 - r) * (1.0 - v);
    MulNonNegative(1.0 - r, 1.0 - v, w);
    assert AlgebraicSum(r, v) == 1.0 - w;
    if v < 1.0 && r > 0.0 {
      var z := (1.0 - v) * r;
      MulLt(1.0 - v, 0.0, r, 0.0, z);
      assert AlgebraicSum(r, v) == v + z;
    }
  }

  ghost predicate Fires(a: Activation, x: real) {
    a.degree > 0.0 && Shape(a.change, x) > 0.0
  }

  ghost predicate SomeFires(acts: seq<Activation>, x: real) {
    exists i :: 0 <= i < |acts| && Fires(acts[i], x)
  }

  lemma SomeFiresSnoc(acts: seq<Activation>, x: real)
    requires |acts| > 0
    ensures SomeFires(acts, x) <==> SomeFires(acts[..|acts| - 1], x) || Fires(acts[|acts| - 1], x)
  {
    var front := acts[..|acts| - 1];
    if i :| 0 <= i < |front| && Fires(front[i], x) {
      assert Fires(acts[i], x);
    }
    if i :| 0 <= i < |acts| && Fires(acts[i], x) && i < |front| {
      assert Fires(front[i], x);
    }
  }

  lemma ImpliedRange(a: Activation, x: real)
    requires 0.0 <= a.degree <= 1.0
    ensures 0.0 <= Implied(a, x) <= 1.0
    ensures Implied(a, x) > 0.0 <==> Fires(a, x)
  {
    hide Shape;
    ShapeRange(a.change, x);
    WeighedRange(a.degree, Shape(a.change, x), Implied(a, x));
  }

  lemma WeighedRange(d: real, s: real, v: real)
    requires 0.0 <= d <= 1.0 && 0.0 <= s <= 1.0 && v == d * s
    ensures 0.0 <= v <= 1.0
    ensures v > 0.0 <==> d > 0.0 && s > 0.0
  {
    ShareOf(d, s, v);
    if d == 0.0 || s == 0.0 {
      assert v == 0.0;
    } else {
      NonZeroProduct(d, s, v);
    }
  }

  /** The accumulated output is a degree, positive exactly where a fired conclusion is. */
  lemma {:induction false} AccumulatedRange(acts: seq<Activation>, x: real)
    requires Degrees(acts)
    ensures 0.0 <= Accumulated(acts, x) <= 1.0
    ensures Accumulated(acts, x) > 0.0 <==> SomeFires(acts, x)
  {
    if |acts| > 0 {
      var n := |acts| - 1;
      AccumulatedRange(acts[..n], x);
      SomeFiresSnoc(acts, x);
      ImpliedRange(acts[n], x);
      SumRange(Accumulated(acts[..n], x), Implied(acts[n], x));
    }
  }

  function Left(a: Activation, x: real): real {
    1.0 - a.degree * Shape(a.change, x)
  }

  /** What the fired conclusions leave of one at x, one after the other. */
  function Uncovered(acts: seq<Activation>, x: real): real {
    if |acts| == 0 then 1.0
    else Left(acts[0], x) * Uncovered(acts[1..], x)
  }

  lemma {:induction false} UncoveredConcat(acts: seq<Activation>, more: seq<Activation>, x: real)
    ensures Uncovered(acts + more, x) == Uncovered(acts, x) * Uncovered(more, x)
  {
    hide Left;
    if |acts| == 0 {
      assert acts + more == more;
    } else {
      assert (acts + more)[1..] == acts[1..] + more;
      UncoveredConcat(acts[1..], more, x);
      Regrouped(Left(acts[0], x), Uncovered(acts[1..], x), Uncovered(more, x));
    }
  }

  lemma Regrouped(x: real, y: real, z: real)
    ensures x * (y * z) == x * y * z
  {
  }

  /** The algebraic sum: the complements of the conclusions are multiplied. */
  lemma {:induction false} AccumulatedIs(acts: seq<Activation>, x: real)
    ensures 1.0 - Accumulated(acts, x) == Uncovered(acts, x)
  {
    hide Shape;
    if |acts| > 0 {
      var n := |acts| - 1;
      AccumulatedIs(acts[..n], x);
      assert acts == acts[..n] + [acts[n]];
      UncoveredConcat(acts[..n], [acts[n]], x);
      UncoveredOne(acts[n], x);
      Complement(Accumulated(acts[..n], x), Implied(acts[n], x));
    }
  }

  lemma UncoveredOne(a: Activation, x: real)
    ensures Uncovered([a], x) == 1.0 - Implied(a, x)
  {
    hide Shape;
    assert Uncovered([a][1..], x) == 1.0;
  }

  lemma Complement(r: real, v: real)
    ensures 1.0 - AlgebraicSum(r, v) == (1.0 - r) * (1.0 - v)
  {
  }

  /** The order in which the rules are evaluated makes no difference. */
  lemma {:induction false} AccumulatedIgnoresOrder(acts: seq<Activation>, acts': seq<Activation>, x: real)
    requires multiset(acts) == multiset(acts')
    ensures Accumulated(acts, x) == Accumulated(acts', x)
  {
    hide Accumulated, Shape;
    AccumulatedIs(acts, x);
    AccumulatedIs(acts', x);
    UncoveredIgnoresOrder(acts, acts', x);
  }

  lemma {:induction false} UncoveredIgnoresOrder(acts: seq<Activation>, acts': seq<Activation>, x: real)
    requires multiset(acts) == multiset(acts')
    ensures Uncovered(acts, x) == Uncovered(acts', x)
    decreases |acts|
  {
    if |acts| == 0 {
      assert |multiset(acts')| == 0;
    } else {
      hide Uncovered;
      var a, rest := acts[0], acts[1..];
      assert acts == [a] + rest;
      assert a in multiset(acts');
      var i :| 0 <= i < |acts'| && acts'[i] == a;
      var before, after := acts'[..i], acts'[i + 1..];
      assert acts' == before + ([a] + after);
      SameRest(a, rest, before, after);
      UncoveredIgnoresOrder(rest, before + after, x);
      UncoveredMoved(a, rest, before, after, x);
    }
  }

  lemma UncoveredMoved(a: Activation, rest: seq<Activation>, before: seq<Activation>, after: seq<Activation>, x: real)
    requires Uncovered(rest, x) == Uncovered(before + after, x)
    ensures Uncovered([a] + rest, x) == Uncovered(before + ([a] + after), x)
  {
    hide Uncovered;
    UncoveredConcat([a], rest, x);
    UncoveredConcat(before, [a] + after, x);
    UncoveredConcat([a], after, x);
    UncoveredConcat(before, after, x);
    Exchanged(Uncovered(before, x), Uncovered([a], x), Uncovered(after, x));
  }

  lemma SameRest(a: Activation, rest: seq<Activation>, before: seq<Activation>, after: seq<Activation>)
    requires multiset([a] + rest) == multiset(before + ([a] + after))
    ensures multiset(rest) == multiset(before + after)
  {
    assert multiset([a] + rest) == multiset{a} + multiset(rest);
    assert multiset(before + ([a] + after)) == multiset{a} + multiset(before + after);
    assert multiset(rest) == multiset([a] + rest) - multiset{a};
  }

  lemma Exchanged(x: real, y: real, z: real)
    ensures x * (y * z) == y * (x * z)
  {
  }

  function Area(acts: seq<Activation>, points: seq<real>): real {
    if |points| == 0 then 0.0
    else Area(acts, points[..|points| - 1]) + Accumulated(acts, points[|points| - 1])
  }

  function Moment(acts: seq<Activation>, points: seq<real>): real {
    if |points| == 0 then 0.0
    else
      var x := points[|points| - 1];
      Moment(acts, points[..|points| - 1]) + Torque(acts, x)
  }

  function Torque(acts: seq<Activation>, x: real): real {
    x * Accumulated(acts, x)
  }

  /** The centroid of the accumulated output; not a number when nothing fired. */
  function Defuzzified(acts: seq<Activation>, points: seq<real>): Number {
    if Area(acts, points) == 0.0 then NaN else Value(Moment(acts, points) / Area(acts, points))
  }

  lemma {:induction false} AreaPositive(acts: seq<Activation>, points: seq<real>)
    requires Degrees(acts)
    ensures 0.0 <= Area(acts, points)
    ensures forall k :: 0 <= k < |points| ==> Accumulated(acts, points[k]) <= Area(acts, points)
  {
    if |points| > 0 {
      var n := |points| - 1;
      AreaPositive(acts, points[..n]);
      AccumulatedRange(acts, points[n]);
      forall k | 0 <= k < n
        ensures Accumulated(acts, points[k]) <= Area(acts, points[..n])
      {
        assert points[..n][k] == points[k];
      }
    }
  }

  ghost predicate ConcludesWithin(acts: seq<Activation>, lo: real, hi: real) {
    forall i :: 0 <= i < |acts| && acts[i].degree > 0.0
                ==> lo <= SupportLow(acts[i].change) && SupportHigh(acts[i].change) <= hi
  }

  /** Where the output is positive, some fired conclusion reaches. */
  lemma PositiveWithin(acts: seq<Activation>, x: real, lo: real, hi: real)
    requires Degrees(acts) && ConcludesWithin(acts, lo, hi) && Accumulated(acts, x) > 0.0
    ensures lo < x < hi
  {
    AccumulatedRange(acts, x);
    var i :| 0 <= i < |acts| && Fires(acts[i], x);
    ShapeRange(acts[i].change, x);
  }

  ghost predicate Balanced(a: real, m: real, lo: real, hi: real) {
    if a == 0.0 then m == 0.0 else lo * a < m < hi * a
  }

  lemma {:induction false} MomentWithin(acts: seq<Activation>, points: seq<real>, lo: real, hi: real)
    requires Degrees(acts) && ConcludesWithin(acts, lo, hi)
    ensures Balanced(Area(acts, points), Moment(acts, points), lo, hi)
  {
    if |points| > 0 {
      var n := |points| - 1;
      var front, x := points[..n], points[n];
      MomentWithin(acts, front, lo, hi);
      AreaPositive(acts, front);
      AccumulatedRange(acts, x);
      var w := Accumulated(acts, x);
      if w > 0.0 {
        PositiveWithin(acts, x, lo, hi);
      }
      AddMass(Area(acts, front), Moment(acts, front), x, w, Torque(acts, x), lo, hi);
      assert Area(acts, points) == Area(acts, front) + w;
      assert Moment(acts, points) == Moment(acts, front) + Torque(acts, x);
    }
  }

  lemma AddMass(a: real, m: real, x: real, w: real, xw: real, lo: real, hi: real)
    requires 0.0 <= a && 0.0 <= w && (w > 0.0 ==> lo < x < hi) && xw == x * w
    requires Balanced(a, m, lo, hi)
    ensures Balanced(a + w, m + xw, lo, hi)
  {
    var p, r := lo * w, hi * w;
    if w > 0.0 {
      MulLt(w, lo, x, p, xw);
      MulLt(w, x, hi, xw, r);
      SplitBound(lo, a, w, lo * a, p, lo * (a + w));
      SplitBound(hi, a, w, hi * a, r, hi * (a + w));
    } else {
      assert a + w == a && m + xw == m;
    }
  }

  lemma SplitBound(k: real, a: real, w: real, ka: real, kw: real, kaw: real)
    requires ka == k * a && kw == k * w && kaw == k * (a + w)
    ensures kaw == ka + kw
  {
  }

  /** If a point falls under some fired conclusion, the centroid exists, strictly within all of them. */
  lemma CentroidWithin(acts: seq<Activation>, points: seq<real>, lo: real, hi: real, i: nat, k: nat)
    requires Degrees(acts) && ConcludesWithin(acts, lo, hi)
    requires i < |acts| && k < |points| && Fires(acts[i], points[k])
    ensures Defuzzified(acts, points).Value? && lo < Defuzzified(acts, points).x < hi
  {
    assert SomeFires(acts, points[k]);
    AccumulatedRange(acts, points[k]);
    AreaPositive(acts, points);
    MomentWithin(acts, points, lo, hi);
    var a, m := Area(acts, points), Moment(acts, points);
    assert a > 0.0 by { assert Accumulated(acts, points[k]) <= a; }
    QuotientBetween(m, a, lo, hi);
  }

  lemma QuotientBetween(m: real, a: real, lo: real, hi: real)
    requires a > 0.0 && Balanced(a, m, lo, hi)
    ensures lo < m / a < hi
  {
    var q := m / a;
    assert q * a == m;
    if q <= lo {
      MulLe(a, q, lo, a * q, a * lo);
    }
    if hi <= q {
      MulLe(a, hi, q, a * hi, a * q);
    }
  }

  /** What the output at the points, as weights on a beam, turns about c. */
  function Turn(acts: seq<Activation>, points: seq<real>, c: real): real {
    if |points| == 0 then 0.0
    else (points[0] - c) * Accumulated(acts, points[0]) + Turn(acts, points[1..], c)
  }

  lemma {:induction false} TurnSnoc(acts: seq<Activation>, points: seq<real>, x: real, c: real)
    ensures Turn(acts, points + [x], c) == Turn(acts, points, c) + (x - c) * Accumulated(acts, x)
  {
    if |points| == 0 {
      assert points + [x] == [x];
      assert Turn(acts, [x][1..], c) == 0.0;
    } else {
      assert (points + [x])[1..] == points[1..] + [x];
      TurnSnoc(acts, points[1..], x, c);
    }
  }

  lemma {:induction false} TurnIs(acts: seq<Activation>, points: seq<real>, c: real)
    ensures Turn(acts, points, c) == Moment(acts, points) - c * Area(acts, points)
  {
    hide Accumulated;
    if |points| > 0 {
      var n := |points| - 1;
      TurnIs(acts, points[..n], c);
      assert points == points[..n] + [points[n]];
      TurnSnoc(acts, points[..n], points[n], c);
      Distributed(c, points[n], Area(acts, points[..n]), Accumulated(acts, points[n]));
    }
  }

  lemma Distributed(c: real, x: real, y: real, a: real)
    ensures c * (y + a) == c * y + c * a
    ensures (x - c) * a == x * a - c * a
  {
  }

  /** The output is the one point about which the accumulated conclusions balance. */
  lemma CentroidBalances(acts: seq<Activation>, points: seq<real>, c: real)
    requires Defuzzified(acts, points).Value?
    ensures Turn(acts, points, c) == 0.0 <==> c == Defuzzified(acts, points).x
  {
    hide Moment, Area, Turn;
    var m, a, q := Moment(acts, points), Area(acts, points), Defuzzified(acts, points).x;
    assert q * a == m;
    TurnIs(acts, points, c);
    if c * a == m {
      SameRatio(a, c, q);
    }
  }

  // ---------------------------------------------------------------- sample points

  ghost predicate Seen(points: seq<real>, t: Change) {
    exists k :: 0 <= k < |points| && SupportLow(t) < points[k] < SupportHigh(t)
  }

  /** Every output term is seen by some sample point. */
  ghost predicate Adequate(points: seq<real>) {
    forall t: Change :: Seen(points, t)
  }

  /** The library's default: the midpoints of 200 slices of [-1, 1]. */
  function DefaultPoints(): (p: seq<real>)
    ensures |p| == 200 && forall i :: 0 <= i < 200 ==> p[i] == -1.0 + (i as real + 0.5) * 0.01
  {
    seq(200, i => -1.0 + (i as real + 0.5) * 0.01)
  }

  lemma DefaultPointsAdequate()
    ensures Adequate(DefaultPoints())
  {
    var p := DefaultPoints();
    assert p[44] == -0.555 && p[87] == -0.125 && p[99] == -0.005 && p[112] == 0.125 && p[154] == 0.545;
    forall t: Change
      ensures Seen(p, t)
    {
      match t
      case Bdw => assert SupportLow(t) < p[44] < SupportHigh(t);
      case Dwn => assert SupportLow(t) < p[87] < SupportHigh(t);
      case Sty => assert SupportLow(t) < p[99] < SupportHigh(t);
      case Up => assert SupportLow(t) < p[112] < SupportHigh(t);
      case Bup => assert SupportLow(t) < p[154] < SupportHigh(t);
    }
  }
}
