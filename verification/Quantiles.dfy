/** Sample quantiles: type 7 (linear interpolation) and nearest rank, and counting in samples. */
module Quantiles {
  import opened Reals
  import opened Sorting

  // ---------------------------------------------------------------- counting

  function CountLe(s: seq<real>, x: real): nat {
    if |s| == 0 then 0 else CountLe(s[..|s| - 1], x) + (if s[|s| - 1] <= x then 1 else 0)
  }

  function CountLt(s: seq<real>, x: real): nat {
    if |s| == 0 then 0 else CountLt(s[..|s| - 1], x) + (if s[|s| - 1] < x then 1 else 0)
  }

  /** The number of samples at distance at most c from x. */
  function CountNear(s: seq<real>, x: real, c: real): nat {
    if |s| == 0 then 0 else CountNear(s[..|s| - 1], x, c) + (if Abs(s[|s| - 1] - x) <= c then 1 else 0)
  }

  lemma {:induction false} CountBounds(s: seq<real>, x: real)
    ensures CountLe(s, x) <= |s|
  {
    if |s| > 0 {
      CountBounds(s[..|s| - 1], x);
    }
  }

  /** The samples at indices below n that lie at or below x, and those strictly below it. */
  function AtOrBelow(s: seq<real>, x: real): set<int> {
    set i | 0 <= i < |s| && s[i] <= x
  }

  function StrictlyBelow(s: seq<real>, x: real): set<int> {
    set i | 0 <= i < |s| && s[i] < x
  }

  /** What the counting loops count. */
  lemma {:induction false} CountMeaning(s: seq<real>, x: real)
    ensures CountLe(s, x) == |AtOrBelow(s, x)| && CountLt(s, x) == |StrictlyBelow(s, x)|
  {
    if |s| == 0 {
      assert AtOrBelow(s, x) == {} && StrictlyBelow(s, x) == {};
    } else {
      CountMeaning(s[..|s| - 1], x);
      OneMoreAtOrBelow(s, x);
      OneMoreBelow(s, x);
    }
  }

  lemma OneMoreAtOrBelow(s: seq<real>, x: real)
    requires |s| > 0
    ensures |AtOrBelow(s, x)| == |AtOrBelow(s[..|s| - 1], x)| + if s[|s| - 1] <= x then 1 else 0
  {
    var k := |s| - 1;
    assert AtOrBelow(s, x) == if s[k] <= x then AtOrBelow(s[..k], x) + {k} else AtOrBelow(s[..k], x);
  }

  lemma OneMoreBelow(s: seq<real>, x: real)
    requires |s| > 0
    ensures |StrictlyBelow(s, x)| == |StrictlyBelow(s[..|s| - 1], x)| + if s[|s| - 1] < x then 1 else 0
  {
    var k := |s| - 1;
    assert StrictlyBelow(s, x) == if s[k] < x then StrictlyBelow(s[..k], x) + {k} else StrictlyBelow(s[..k], x);
  }

  /** The samples within c of x are those at or below x + c without those below x - c. */
  lemma {:induction false} CountNearMeaning(s: seq<real>, x: real, c: real)
    requires 0.0 <= c
    ensures CountNear(s, x, c) == CountLe(s, x + c) - CountLt(s, x - c)
  {
    if |s| > 0 {
      CountNearMeaning(s[..|s| - 1], x, c);
    }
  }

  lemma {:induction false} CountConcat(s: seq<real>, t: seq<real>, x: real)
    ensures CountLe(s + t, x) == CountLe(s, x) + CountLe(t, x)
    ensures CountLt(s + t, x) == CountLt(s, x) + CountLt(t, x)
  {
    if |t| == 0 {
      assert s + t == s;
    } else {
      assert (s + t)[..|s + t| - 1] == s + t[..|t| - 1];
      CountConcat(s, t[..|t| - 1], x);
    }
  }

  lemma CountInsert(s: seq<real>, v: real, x: real)
    ensures CountLe(Insert(s, v), x) == CountLe(s, x) + (if v <= x then 1 else 0)
    ensures CountLt(Insert(s, v), x) == CountLt(s, x) + (if v < x then 1 else 0)
  {
    var i := Position(s, v);
    assert s == s[..i] + s[i..];
    CountConcat(s[..i], s[i..], x);
    CountConcat(s[..i], [v], x);
    CountConcat(s[..i] + [v], s[i..], x);
    assert CountLe([v], x) == (if v <= x then 1 else 0) && CountLt([v], x) == (if v < x then 1 else 0);
  }

  /** Sorting does not change how many samples lie below a value. */
  lemma {:induction false} CountSort(s: seq<real>, x: real)
    ensures CountLe(Sort(s), x) == CountLe(s, x)
    ensures CountLt(Sort(s), x) == CountLt(s, x)
  {
    if |s| > 0 {
      CountSort(s[..|s| - 1], x);
      CountInsert(Sort(s[..|s| - 1]), s[|s| - 1], x);
    }
  }

  lemma {:induction false} CountAll(s: seq<real>, x: real)
    ensures (forall i :: 0 <= i < |s| ==> s[i] <= x) ==> CountLe(s, x) == |s|
    ensures (forall i :: 0 <= i < |s| ==> x <= s[i]) ==> CountLt(s, x) == 0
    ensures (forall i :: 0 <= i < |s| ==> x < s[i]) ==> CountLe(s, x) == 0
  {
    if |s| > 0 {
      CountAll(s[..|s| - 1], x);
    }
  }

  lemma {:induction false} CountLtBounds(s: seq<real>, x: real)
    ensures CountLt(s, x) <= |s|
  {
    if |s| > 0 {
      CountLtBounds(s[..|s| - 1], x);
    }
  }

  /** In a sorted sample at least k+1 values are at most the k-th. */
  lemma SortedCountLe(s: seq<real>, k: nat)
    requires Sorted(s) && k < |s|
    ensures CountLe(s, s[k]) >= k + 1
  {
    var lo, hi, x := s[..k + 1], s[k + 1..], s[k];
    assert s == lo + hi;
    assert forall i :: 0 <= i < |lo| ==> lo[i] <= x;
    CountAll(lo, x);
    CountConcat(lo, hi, x);
  }

  /** At most k values are below the k-th. */
  lemma SortedCountLt(s: seq<real>, k: nat)
    requires Sorted(s) && k < |s|
    ensures CountLt(s, s[k]) <= k
  {
    var lo, hi := s[..k], s[k..];
    assert s == lo + hi;
    CountConcat(lo, hi, s[k]);
    assert forall i :: 0 <= i < |hi| ==> s[k] <= hi[i];
    CountAll(hi, s[k]);
    CountLtBounds(lo, s[k]);
  }

  /** At most k values are at or below anything less than the k-th. */
  lemma SortedCountBelow(s: seq<real>, k: nat, x: real)
    requires Sorted(s) && k < |s| && x < s[k]
    ensures CountLe(s, x) <= k
  {
    var lo, hi := s[..k], s[k..];
    assert s == lo + hi;
    CountConcat(lo, hi, x);
    assert forall i :: 0 <= i < |hi| ==> x < hi[i];
    CountAll(hi, x);
    CountBounds(lo, x);
  }

  // ---------------------------------------------------------------- nearest rank

  /** The rank that a probability stands for among n samples. */
  function RankOf(n: nat, prob: real): real {
    prob * n as real
  }

  function NearestRankIndex(n: nat, prob: real): int {
    var k := Ceil(RankOf(n, prob));
    (if k < n then k else n) - 1
  }

  function NearestRank(s: seq<real>, prob: real): real
    requires |s| > 0 && 0.0 < prob <= 1.0
  {
    SortSorts(s);
    RankInRange(|s|, prob);
    Sort(s)[NearestRankIndex(|s|, prob)]
  }

  lemma RankInRange(n: nat, prob: real)
    requires n > 0 && 0.0 < prob <= 1.0
    ensures var k := NearestRankIndex(n, prob);
            && 0 <= k < n && k as real < RankOf(n, prob) <= (k + 1) as real
  {
    var x := RankOf(n, prob);
    MulLt(n as real, 0.0, prob, 0.0, x);
    MulLe(n as real, prob, 1.0, x, n as real);
  }

  /**
   * The nearest-rank quantile has at least prob*n samples at or below it and fewer than prob*n
   * below it, and no smaller value has the former.
   */
  lemma NearestRankMeaning(s: seq<real>, prob: real)
    requires |s| > 0 && 0.0 < prob <= 1.0
    ensures var q := NearestRank(s, prob);
            && q in s
            && CountLe(s, q) as real >= prob * |s| as real
            && (CountLt(s, q) as real) < prob * |s| as real
            && forall x :: x < q ==> (CountLe(s, x) as real) < prob * |s| as real
  {
    assert prob * |s| as real == RankOf(|s|, prob);
    hide RankOf;
    SortSorts(s);
    RankInRange(|s|, prob);
    var k := NearestRankIndex(|s|, prob);
    RankMeaning(s, RankOf(|s|, prob), k);
    SampleOf(s, k);
  }

  lemma RankMeaning(s: seq<real>, rank: real, k: nat)
    requires k < |s| == |Sort(s)| && k as real < rank <= (k + 1) as real
    ensures var q := Sort(s)[k];
            && CountLe(s, q) as real >= rank
            && (CountLt(s, q) as real) < rank
            && forall x :: x < q ==> (CountLe(s, x) as real) < rank
  {
    SortSorts(s);
    var t := Sort(s);
    SortedCountLe(t, k);
    SortedCountLt(t, k);
    CountSort(s, t[k]);
    forall x | x < t[k]
      ensures (CountLe(s, x) as real) < rank
    {
      SortedCountBelow(t, k, x);
      CountSort(s, x);
    }
  }

  // ---------------------------------------------------------------- type 7

  /** The value at a real position between the first and the last of sorted samples. */
  function ValueAt(s: seq<real>, x: real): real
    requires 0.0 <= x <= (|s| - 1) as real
  {
    var lo, hi := x.Floor, Ceil(x);
    var h := x - lo as real;
    (1.0 - h) * s[lo] + h * s[hi]
  }

  function PositionOf(n: nat, prob: real): real {
    (n - 1) as real * prob
  }

  function Type7(s: seq<real>, prob: real): real
    requires |s| > 0 && 0.0 <= prob <= 1.0
  {
    PositionInRange(|s|, prob);
    ValueAt(s, PositionOf(|s|, prob))
  }

  lemma PositionInRange(n: nat, prob: real)
    requires n > 0 && 0.0 <= prob <= 1.0
    ensures 0.0 <= PositionOf(n, prob) <= (n - 1) as real
  {
    ShareOf(prob, (n - 1) as real, PositionOf(n, prob));
  }

  /** Interpolation stays between its neighbours. */
  lemma ValueBetween(s: seq<real>, x: real)
    requires Sorted(s) && 0.0 <= x <= (|s| - 1) as real
    ensures s[x.Floor] <= ValueAt(s, x) <= s[Ceil(x)]
  {
    var lo, hi := x.Floor, Ceil(x);
    assert lo <= hi;
    BlendInRange(x - lo as real, s[hi], s[lo], s[lo], s[hi]);
  }

  /** The interpolated value never falls as the position rises. */
  lemma ValueMonotone(s: seq<real>, x: real, y: real)
    requires Sorted(s) && 0.0 <= x <= y <= (|s| - 1) as real
    ensures ValueAt(s, x) <= ValueAt(s, y)
  {
    if x == y {
    } else if Ceil(x) <= y.Floor {
      ValueBetween(s, x);
      ValueBetween(s, y);
    } else {
      // both inside one cell
      var lo := x.Floor;
      assert y.Floor == lo && Ceil(y) == lo + 1 && Ceil(x) == lo + 1;
      CellMonotone(s[lo], s[lo + 1], x - lo as real, y - lo as real);
    }
  }

  lemma CellMonotone(a: real, b: real, h: real, h': real)
    requires a <= b && h <= h'
    ensures (1.0 - h) * a + h * b <= (1.0 - h') * a + h' * b
  {
    var d := b - a;
    MulLe(d, h, h', d * h, d * h');
    assert (1.0 - h) * a + h * b == a + d * h;
    assert (1.0 - h') * a + h' * b == a + d * h';
  }

  /** A higher probability never gives a lower quantile. */
  lemma Type7Monotone(s: seq<real>, p: real, p': real)
    requires |s| > 0 && Sorted(s) && 0.0 <= p <= p' <= 1.0
    ensures Type7(s, p) <= Type7(s, p')
  {
    hide ValueAt;
    PositionInRange(|s|, p);
    PositionInRange(|s|, p');
    var x, y := PositionOf(|s|, p), PositionOf(|s|, p');
    MulLe((|s| - 1) as real, p, p', x, y);
    ValueMonotone(s, x, y);
  }

  /** From one sample to the next the value runs along a straight line. */
  lemma ValueInCell(s: seq<real>, k: nat, h: real)
    requires k + 1 < |s| && 0.0 <= h <= 1.0
    ensures ValueAt(s, k as real + h) == s[k] + h * (s[k + 1] - s[k])
  {
    var x := k as real + h;
    if h == 1.0 {
      assert x.Floor == k + 1 && Ceil(x) == k + 1;
      assert x - x.Floor as real == 0.0;
      CellEnds(s[k], s[k + 1]);
    } else {
      assert x.Floor == k && Ceil(x) == if h == 0.0 then k else k + 1;
      CellLine(s[k], s[k + 1], h);
    }
  }

  lemma CellEnds(a: real, b: real)
    ensures (1.0 - 0.0) * b + 0.0 * b == b == a + 1.0 * (b - a)
  {
  }

  lemma CellLine(a: real, b: real, h: real)
    ensures (1.0 - h) * a + h * b == a + h * (b - a)
  {
  }

  /** The i-th of n samples is the quantile at i / (n - 1); what lies between two is linear in the probability. */
  lemma Type7AtRank(s: seq<real>, i: nat, h: real, prob: real)
    requires |s| > 1 && i + 1 < |s| && 0.0 <= h <= 1.0 && prob * (|s| - 1) as real == i as real + h
    ensures 0.0 <= prob <= 1.0
    ensures Type7(s, prob) == s[i] + h * (s[i + 1] - s[i])
  {
    hide ValueAt;
    var n := (|s| - 1) as real;
    if prob < 0.0 {
      MulLt(n, prob, 0.0, n * prob, 0.0);
    } else if prob > 1.0 {
      MulLt(n, 1.0, prob, n, n * prob);
    }
    ValueInCell(s, i, h);
    assert PositionOf(|s|, prob) == i as real + h;
  }

  // ---------------------------------------------------------------- range

  /** x lies between two samples. */
  ghost predicate Spans(s: seq<real>, x: real) {
    (exists i :: 0 <= i < |s| && s[i] <= x) && (exists j :: 0 <= j < |s| && x <= s[j])
  }

  lemma SpansGrows(s: seq<real>, t: seq<real>, x: real)
    requires Spans(s, x) && |s| <= |t| && (t[..|s|] == s || t[|t| - |s|..] == s)
    ensures Spans(t, x)
  {
    var i :| 0 <= i < |s| && s[i] <= x;
    var j :| 0 <= j < |s| && x <= s[j];
    var d := if t[..|s|] == s then 0 else |t| - |s|;
    assert t[i + d] == s[i] && t[j + d] == s[j];
  }

  lemma SpansBlend(s: seq<real>, w: real, x: real, y: real)
    requires Spans(s, x) && Spans(s, y) && 0.0 <= w <= 1.0
    ensures Spans(s, Blend(w, x, y))
  {
    var lo, hi := Min(x, y), Max(x, y);
    BlendInRange(w, x, y, lo, hi);
    var i :| 0 <= i < |s| && s[i] <= lo;
    var j :| 0 <= j < |s| && hi <= s[j];
    assert s[i] <= Blend(w, x, y) <= s[j];
  }

  lemma Type7Spans(s: seq<real>, prob: real)
    requires |s| > 0 && 0.0 <= prob <= 1.0
    ensures |Sort(s)| == |s| && Spans(s, Type7(Sort(s), prob))
  {
    hide ValueAt, PositionOf;
    SortSorts(s);
    PositionInRange(|s|, prob);
    var t := Sort(s);
    var x := PositionOf(|s|, prob);
    ValueBetween(t, x);
    SampleOf(s, x.Floor);
    SampleOf(s, Ceil(x));
  }

  lemma SampleOf(s: seq<real>, k: nat)
    requires k < |Sort(s)|
    ensures Sort(s)[k] in s
  {
    SortSorts(s);
    assert Sort(s)[k] in multiset(Sort(s));
    assert Sort(s)[k] in multiset(s);
  }

  lemma NearestRankSpans(s: seq<real>, prob: real)
    requires |s| > 0 && 0.0 < prob <= 1.0
    ensures Spans(s, NearestRank(s, prob))
  {
    SortSorts(s);
    RankInRange(|s|, prob);
    SampleOf(s, NearestRankIndex(|s|, prob));
  }
}
