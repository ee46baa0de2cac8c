/**
 * The estimators that keep samples: the exact one, Welsh's nearest rank with EWMA, and Chen's
 * EWMA over a sliding window.  A ghost history of the observations since the last reset states
 * what their fields mean.
 */
module Estimators {
  import opened Reals
  import opened Sorting
  import opened Quantiles

  // ---------------------------------------------------------------- the exact estimator

  /** Insert a batch, sample by sample, into a sorted list. */
  function InsertAll(s: seq<real>, batch: seq<real>): seq<real> {
    if |batch| == 0 then s else Insert(InsertAll(s, batch[..|batch| - 1]), batch[|batch| - 1])
  }

  lemma {:induction false} InsertAllSorts(seen: seq<real>, batch: seq<real>)
    ensures InsertAll(Sort(seen), batch) == Sort(seen + batch)
  {
    if |batch| == 0 {
      assert seen + batch == seen;
    } else {
      InsertAllSorts(seen, batch[..|batch| - 1]);
      assert (seen + batch)[..|seen + batch| - 1] == seen + batch[..|batch| - 1];
    }
  }

  class TrueQuantileEstimator {
    const prob: real
    var data: seq<real>
    var n: nat
    ghost var seen: seq<real>

    ghost predicate Valid()
      reads this
    {
      0.0 <= prob <= 1.0 && data == Sort(seen) && n == |seen|
    }

    constructor (prob: real)
      requires 0.0 <= prob <= 1.0
      ensures Valid() && seen == [] && this.prob == prob
    {
      this.prob := prob;
      data, n, seen := [], 0, [];
    }

    method Collect(batch: seq<real>)
      requires Valid()
      modifies this
      ensures Valid() && seen == old(seen) + batch
    {
      InsertAllSorts(seen, batch);
      for i := 0 to |batch|
        invariant data == InsertAll(old(data), batch[..i]) && n == old(n) && seen == old(seen)
      {
        assert batch[..i + 1][..i] == batch[..i];
        InsertInOrder(batch[i]);
      }
      assert batch[..|batch|] == batch;
      n := n + |batch|;
      seen := seen + batch;
    }

    /** Put a value before the first element that is not below it. */
    method InsertInOrder(val: real)
      modifies this`data
      ensures data == Insert(old(data), val)
    {
      var k := 0;
      while k < |data| && data[k] < val
        invariant 0 <= k <= |data|
        invariant forall j :: 0 <= j < k ==> data[j] < val
      {
        k := k + 1;
      }
      PositionUnique(data, val, k);
      data := data[..k] + [val] + data[k..];
    }

    /** The type-7 quantile of everything observed, in whatever order and batches it came. */
    method Estimate() returns (q: Number)
      requires Valid()
      ensures |seen| == 0 ==> q == NaN
      ensures |seen| > 0 ==> |Sort(seen)| > 0 && q == Value(Type7(Sort(seen), prob))
    {
      SortSorts(seen);
      q := if |data| == 0 then NaN else Value(Type7(data, prob));
    }

    method Reset()
      requires Valid()
      modifies this
      ensures Valid() && seen == []
    {
      data, n, seen := [], 0, [];
    }
  }

  /** A linear scan stops at one place only. */
  lemma {:induction false} PositionUnique(s: seq<real>, v: real, k: nat)
    requires k <= |s| && (forall j :: 0 <= j < k ==> s[j] < v) && (k < |s| ==> v <= s[k])
    ensures Position(s, v) == k
  {
    if k > 0 {
      assert s[0] < v;
      PositionUnique(s[1..], v, k - 1);
    }
  }

  function Joined(batches: seq<seq<real>>): seq<real> {
    if |batches| == 0 then [] else Joined(batches[..|batches| - 1]) + batches[|batches| - 1]
  }

  function ExactRun(batches: seq<seq<real>>): seq<real> {
    if |batches| == 0 then [] else InsertAll(ExactRun(batches[..|batches| - 1]), batches[|batches| - 1])
  }

  lemma {:induction false} ExactRunSorts(batches: seq<seq<real>>)
    ensures ExactRun(batches) == Sort(Joined(batches))
  {
    if |batches| > 0 {
      ExactRunSorts(batches[..|batches| - 1]);
      InsertAllSorts(Joined(batches[..|batches| - 1]), batches[|batches| - 1]);
    }
  }

  /** The exact estimator's list depends only on the bag of observations. */
  lemma ExactIgnoresOrderAndBatching(batches: seq<seq<real>>, batches': seq<seq<real>>)
    requires multiset(Joined(batches)) == multiset(Joined(batches'))
    ensures ExactRun(batches) == ExactRun(batches')
    ensures Sorted(ExactRun(batches)) && multiset(ExactRun(batches)) == multiset(Joined(batches))
  {
    ExactRunSorts(batches);
    ExactRunSorts(batches');
    SortIgnoresOrder(Joined(batches), Joined(batches'));
    SortSorts(Joined(batches));
  }

  // ---------------------------------------------------------------- Welsh

  /** The plain version takes the sample before the first one at probability 0; the extended one does not. */
  predicate Accepts(prob: real, extended: bool) {
    0.0 <= prob <= 1.0 && (prob > 0.0 || extended)
  }

  /** The quantile of one batch: nearest rank, or interpolated in the extended version. */
  function BatchQuantile(data: seq<real>, prob: real, extended: bool): real
    requires |data| > 0 && Accepts(prob, extended)
  {
    SortSorts(data);
    if extended then Type7(Sort(data), prob) else NearestRank(data, prob)
  }

  lemma BatchQuantileSpans(data: seq<real>, prob: real, extended: bool)
    requires |data| > 0 && Accepts(prob, extended)
    ensures Spans(data, BatchQuantile(data, prob, extended))
  {
    if extended {
      Type7Spans(data, prob);
    } else {
      NearestRankSpans(data, prob);
    }
  }

  /** The plain version's quantile has its nearest rank in the batch. */
  lemma PlainQuantileMeaning(data: seq<real>, prob: real)
    requires |data| > 0 && 0.0 < prob <= 1.0
    ensures var q := BatchQuantile(data, prob, false);
            && q in data
            && CountLe(data, q) as real >= prob * |data| as real
            && (CountLt(data, q) as real) < prob * |data| as real
  {
    hide NearestRank;
    NearestRankMeaning(data, prob);
  }

  /** The extended version's lies where the probability does between the sorted data. */
  lemma ExtendedQuantileMeaning(data: seq<real>, prob: real, i: nat, h: real)
    requires i + 1 < |data| && 0.0 <= h <= 1.0 && prob * (|data| - 1) as real == i as real + h
    ensures 0.0 <= prob <= 1.0 && |Sort(data)| == |data|
    ensures BatchQuantile(data, prob, true) == Sort(data)[i] + h * (Sort(data)[i + 1] - Sort(data)[i])
  {
    hide Type7, Sorted;
    SortSorts(data);
    hide Sort;
    var t := Sort(data);
    Type7AtRank(t, i, h, prob);
  }

  class WelshEstimator {
    const prob: real
    const alpha: real
    const extended: bool
    var data: seq<real>
    var ewma: real
    var init: bool
    ghost var seen: seq<real>

    /** The data are the end of the history; a published average lies in the range of the history. */
    ghost predicate Valid()
      reads this
    {
      && Accepts(prob, extended) && 0.0 <= alpha <= 1.0
      && |data| <= |seen| && seen[|seen| - |data|..] == data
      && (!init ==> Spans(seen, ewma))
      && (init ==> ewma == 0.0)
    }

    constructor (prob: real, alpha: real, extended: bool)
      requires Accepts(prob, extended) && 0.0 <= alpha <= 1.0
      ensures Valid() && init && data == [] && seen == []
    {
      this.prob, this.alpha, this.extended := prob, alpha, extended;
      data, ewma, init, seen := [], 0.0, true, [];
    }

    method Collect(batch: seq<real>)
      requires Valid()
      modifies this`data, this`seen
      ensures Valid() && data == old(data) + batch && seen == old(seen) + batch
    {
      for i := 0 to |batch|
        invariant data == old(data) + batch[..i] && seen == old(seen)
      {
        data := data + [batch[i]];
      }
      if !init {
        SpansGrows(seen, seen + batch, ewma);
      }
      seen := seen + batch;
    }

    method Estimate() returns (q: real)
      requires Valid()
      modifies this`data, this`ewma, this`init
      ensures Valid() && q == ewma && data == []
      ensures old(data) == [] ==> ewma == old(ewma) && init == old(init)
      ensures old(data) != [] ==>
                var x := BatchQuantile(old(data), prob, extended);
                !init && ewma == if old(init) then x else alpha * old(ewma) + (1.0 - alpha) * x
    {
      hide Spans, BatchQuantile;
      var m := |data|;
      if m > 0 {
        BatchQuantileSpans(data, prob, extended);
        var x := BatchQuantile(data, prob, extended);
        SpansGrows(data, seen, x);
        if init {
          ewma := x;
          init := false;
        } else {
          SpansBlend(seen, alpha, ewma, x);
          ewma := Blend(alpha, ewma, x);
        }
        data := [];
      }
      q := ewma;
    }

    method Reset()
      requires Valid()
      modifies this
      ensures Valid() && init && data == [] && seen == []
    {
      init := true;
      data, ewma, seen := [], 0.0, [];
    }
  }

  // ---------------------------------------------------------------- the sliding window

  /** boost::circular_buffer::push_back: a full buffer drops its oldest element. */
  function Push(buf: seq<real>, capacity: nat, v: real): seq<real>
    requires |buf| <= capacity
  {
    if capacity == 0 then buf
    else if |buf| < capacity then buf + [v]
    else buf[1..] + [v]
  }

  function Last(s: seq<real>, n: nat): seq<real> {
    if n <= |s| then s[|s| - n..] else s
  }

  /** Pushing keeps the buffer the end of the stream. */
  lemma PushKeepsLast(stream: seq<real>, capacity: nat, v: real)
    ensures |Last(stream, capacity)| <= capacity
    ensures Push(Last(stream, capacity), capacity, v) == Last(stream + [v], capacity)
  {
  }

  lemma LastOfFew(s: seq<real>, capacity: nat)
    requires |s| <= capacity
    ensures Last(s, capacity) == s
  {
  }

  lemma CollectKeepsLast(stream: seq<real>, data: seq<real>, val: real)
    requires |data| <= |stream| && data == Last(stream, |data|)
    ensures data + [val] == Last(stream + [val], |data| + 1)
  {
  }

  lemma SpansSnoc(s: seq<real>, v: real, x: real)
    requires Spans(s, x)
    ensures Spans(s + [v], x)
  {
    assert (s + [v])[..|s|] == s;
    SpansGrows(s, s + [v], x);
  }

  lemma LastNone(s: seq<real>)
    ensures Last(s, 0) == []
  {
  }

  /** The samples an estimate is made of: the new ones if they outnumber the buffered ones. */
  function Window(data: seq<real>, buf: seq<real>): seq<real> {
    if |data| > |buf| then data else buf
  }

  /** The window is an end of the stream, and misses no sample collected since the last estimate. */
  lemma WindowIsSuffix(stream: seq<real>, data: seq<real>, capacity: nat)
    requires |data| <= |stream| && data == Last(stream, |data|)
    ensures var w := Window(data, Last(stream, capacity));
            && w == Last(stream, |w|) && |data| <= |w| <= |stream|
            && data == Last(w, |data|)
            && |w| == if |data| < capacity <= |stream| then capacity else if |data| < capacity then |stream| else |data|
  {
  }

  lemma WindowQuantile(stream: seq<real>, data: seq<real>, capacity: nat, prob: real)
    requires 0 < |data| <= |stream| && data == Last(stream, |data|) && 0.0 <= prob <= 1.0
    ensures var w := Window(data, Last(stream, capacity));
            |Sort(w)| == |w| > 0 && Spans(stream, Type7(Sort(w), prob))
  {
    var w := Window(data, Last(stream, capacity));
    WindowIsSuffix(stream, data, capacity);
    Type7Spans(w, prob);
    SpansGrows(w, stream, Type7(Sort(w), prob));
  }

  // ---------------------------------------------------------------- Chen's EWMA

  datatype Range = Empty | Between(lo: real, hi: real)

  /** Widen a range; empty stands for the infinite initial bounds. */
  function Widen(r: Range, v: real): Range {
    match r
    case Empty => Between(v, v)
    case Between(lo, hi) => Between(if v < lo then v else lo, if v > hi then v else hi)
  }

  ghost predicate IsRangeOf(r: Range, s: seq<real>) {
    match r
    case Empty => |s| == 0
    case Between(lo, hi) =>
      && (exists i :: 0 <= i < |s| && s[i] == lo) && (exists i :: 0 <= i < |s| && s[i] == hi)
      && forall i :: 0 <= i < |s| ==> lo <= s[i] <= hi
  }

  lemma WidenKeepsRange(r: Range, s: seq<real>, v: real)
    requires IsRangeOf(r, s)
    ensures IsRangeOf(Widen(r, v), s + [v])
  {
    var t := s + [v];
    assert t[|s|] == v;
    if r.Between? {
      var i :| 0 <= i < |s| && s[i] == r.lo;
      var j :| 0 <= j < |s| && s[j] == r.hi;
      assert t[i] == r.lo && t[j] == r.hi;
    }
  }

  lemma SpannedInRange(r: Range, s: seq<real>, x: real)
    requires IsRangeOf(r, s) && Spans(s, x)
    ensures r.Between? && r.lo <= x <= r.hi
  {
  }

  class ChenEwmaEstimator {
    const prob: real
    const w: real
    const capacity: nat
    const clamp: bool
    var data: seq<real>
    var buf: seq<real>
    var ewma: real
    var range: Range
    var init: bool
    ghost var seen: seq<real>
    ghost var estimated: bool

    ghost predicate Valid()
      reads this
    {
      && 0.0 <= prob <= 1.0 && 0.0 <= w <= 1.0
      && |data| <= |seen| && data == Last(seen, |data|)
      && buf == Last(seen, capacity)
      && (if clamp then IsRangeOf(range, seen) else range == Empty)
      && (estimated ==> Spans(seen, ewma))
      && (!estimated ==> init && data == seen)
    }

    constructor (prob: real, w: real, capacity: nat, clamp: bool)
      requires 0.0 <= prob <= 1.0 && 0.0 <= w <= 1.0
      ensures Valid() && !estimated && seen == []
    {
      this.prob, this.w, this.capacity, this.clamp := prob, w, capacity, clamp;
      data, buf, ewma, range, init := [], [], 0.0, Empty, true;
      seen, estimated := [], false;
    }

    method Collect(batch: seq<real>)
      requires Valid()
      modifies this`data, this`buf, this`range, this`seen
      ensures Valid() && seen == old(seen) + batch && data == old(data) + batch
    {
      hide IsRangeOf, Spans, Last;
      for i := 0 to |batch|
        invariant Valid() && seen == old(seen) + batch[..i] && data == old(data) + batch[..i]
      {
        CollectOne(batch[i]);
        assert old(seen) + batch[..i + 1] == old(seen) + batch[..i] + [batch[i]];
        assert old(data) + batch[..i + 1] == old(data) + batch[..i] + [batch[i]];
      }
    }

    method CollectOne(val: real)
      requires Valid()
      modifies this`data, this`buf, this`range, this`seen
      ensures Valid() && seen == old(seen) + [val] && data == old(data) + [val]
    {
      hide IsRangeOf, Spans, Push, Widen, Last;
      PushKeepsLast(seen, capacity, val);
      CollectKeepsLast(seen, data, val);
      data := data + [val];
      buf := Push(buf, capacity, val);
      if clamp {
        WidenKeepsRange(range, seen, val);
        range := Widen(range, val);
      }
      if estimated {
        SpansSnoc(seen, val, ewma);
      }
      seen := seen + [val];
    }

    /** The next average: the window's quantile at first, and until the buffer has filled. */
    method Estimate() returns (q: real)
      requires Valid()
      modifies this`data, this`ewma, this`init, this`estimated
      ensures Valid() && q == ewma && data == []
      ensures old(data) == [] ==> ewma == old(ewma) && init == old(init) && estimated == old(estimated)
      ensures old(data) != [] ==>
                var win := Window(old(data), buf);
                && estimated && |Sort(win)| == |win| > 0
                && (init <==> old(init) && |buf| != capacity)
                && ewma == if old(init) then Type7(Sort(win), prob) else w * Type7(Sort(win), prob) + (1.0 - w) * old(ewma)
    {
      hide IsRangeOf, Spans, Type7, Last, Sort;
      LastNone(seen);
      var m := |data|;
      if m > 0 {
        var win := Window(data, buf);
        WindowQuantile(seen, data, capacity, prob);
        var x := Type7(Sort(win), prob);
        if init {
          ewma := x;
          if |buf| == capacity {
            init := false;
          }
        } else {
          SpansBlend(seen, w, x, ewma);
          ewma := Blend(w, x, ewma);
        }
        if clamp {
          // An average of quantiles is in range already: the clamp changes nothing.
          SpannedInRange(range, seen, ewma);
          ewma := Clamp(ewma, range.lo, range.hi);
        }
        data := [];
        estimated := true;
      }
      q := ewma;
    }

    method Reset()
      requires Valid()
      modifies this
      ensures Valid() && !estimated && seen == []
    {
      init := true;
      data, buf, ewma, range := [], [], 0.0, Empty;
      seen, estimated := [], false;
    }
  }
}
