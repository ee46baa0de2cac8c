/** Sorted sequences of samples; `Sort` stands for std::sort. */
module Sorting {

  ghost predicate Sorted(s: seq<real>) {
    forall i, j :: 0 <= i < j < |s| ==> s[i] <= s[j]
  }

  /** The number of leading elements below v: where a linear scan stops. */
  function Position(s: seq<real>, v: real): (i: nat)
    ensures i <= |s|
    ensures forall j :: 0 <= j < i ==> s[j] < v
    ensures i < |s| ==> v <= s[i]
  {
    if |s| > 0 && s[0] < v then 1 + Position(s[1..], v) else 0
  }

  function Insert(s: seq<real>, v: real): seq<real> {
    s[..Position(s, v)] + [v] + s[Position(s, v)..]
  }

  function Sort(s: seq<real>): seq<real> {
    if |s| == 0 then [] else Insert(Sort(s[..|s| - 1]), s[|s| - 1])
  }

  lemma InsertKeepsSorted(s: seq<real>, v: real)
    requires Sorted(s)
    ensures Sorted(Insert(s, v))
  {
    var i, t := Position(s, v), Insert(s, v);
    forall a, b | 0 <= a < b < |t|
      ensures t[a] <= t[b]
    {
      var a', b' := if a < i then a else a - 1, if b < i then b else b - 1;
      assert a != i ==> t[a] == s[a'];
      assert b != i ==> t[b] == s[b'];
    }
  }

  lemma InsertAdds(s: seq<real>, v: real)
    ensures multiset(Insert(s, v)) == multiset(s) + multiset{v}
    ensures |Insert(s, v)| == |s| + 1
  {
    var i := Position(s, v);
    assert s == s[..i] + s[i..];
  }

  lemma {:induction false} SortSorts(s: seq<real>)
    ensures Sorted(Sort(s))
    ensures multiset(Sort(s)) == multiset(s)
    ensures |Sort(s)| == |s|
  {
    hide Sorted, Insert;
    if |s| == 0 {
      assert Sorted([]) by { EmptySorted(); }
    } else {
      var front := s[..|s| - 1];
      SortSorts(front);
      InsertKeepsSorted(Sort(front), s[|s| - 1]);
      InsertAdds(Sort(front), s[|s| - 1]);
      assert s == front + [s[|s| - 1]];
    }
  }

  lemma EmptySorted()
    ensures Sorted([])
  {
  }

  lemma HeadIsLeast(s: seq<real>, t: seq<real>)
    requires Sorted(s) && |s| > 0 && |t| > 0 && multiset(s) == multiset(t)
    ensures s[0] <= t[0]
  {
    assert t[0] in multiset(t);
    assert t[0] in multiset(s);
  }

  lemma TailBag(s: seq<real>)
    requires |s| > 0
    ensures multiset(s[1..]) == multiset(s) - multiset{s[0]}
  {
    assert s == [s[0]] + s[1..];
  }

  /** There is only one way to sort a bag of samples. */
  lemma {:induction false} SortedUnique(s: seq<real>, t: seq<real>)
    requires Sorted(s) && Sorted(t) && multiset(s) == multiset(t)
    ensures s == t
  {
    assert |multiset(s)| == |s| && |multiset(t)| == |t|;
    if |s| > 0 {
      HeadIsLeast(s, t);
      HeadIsLeast(t, s);
      TailBag(s);
      TailBag(t);
      SortedUnique(s[1..], t[1..]);
      assert s == [s[0]] + s[1..] && t == [t[0]] + t[1..];
    }
  }

  /** Order and batching do not matter to a sorted collection. */
  lemma SortIgnoresOrder(s: seq<real>, t: seq<real>)
    requires multiset(s) == multiset(t)
    ensures Sort(s) == Sort(t)
  {
    SortSorts(s);
    SortSorts(t);
    SortedUnique(Sort(s), Sort(t));
  }
}
