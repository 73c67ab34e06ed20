/**
 * The list operations behind every list view: `Array.prototype.filter` as one
 * generic function (every page supplies its own predicate), the order-preserving
 * subsequence relation it establishes, and the order-of-first-occurrence
 * de-duplication that `[...new Set(xs)]` performs.
 */
module Lists {

  /** r can be obtained from s by deleting elements, keeping the order of the rest. */
  predicate IsSubsequence<T(==,!new)>(r: seq<T>, s: seq<T>)
    decreases |s|
  {
    if r == [] then true
    else if s == [] then false
    else if r[0] == s[0] then IsSubsequence(r[1..], s[1..])
    else IsSubsequence(r, s[1..])
  }

  /** `s.filter(p)` */
  function Filter<T(==,!new)>(s: seq<T>, p: T -> bool): (r: seq<T>)
    ensures |r| <= |s|
    ensures IsSubsequence(r, s)
    ensures forall x :: x in r <==> x in s && p(x)
    ensures forall x :: multiset(r)[x] == if p(x) then multiset(s)[x] else 0
    decreases |s|
  {
    if s == [] then []
    else
      assert s == [s[0]] + s[1..];
      if p(s[0]) then [s[0]] + Filter(s[1..], p) else Filter(s[1..], p)
  }

  /** The first element counts towards the length of a filter exactly when it passes. */
  lemma FilterLengthFirst<T(!new)>(s: seq<T>, p: T -> bool)
    requires s != []
    ensures |Filter(s, p)| == (if p(s[0]) then 1 else 0) + |Filter(s[1..], p)|
  {
  }

  /** The positions of s whose element passes p. */
  function Positions<T(!new)>(s: seq<T>, p: T -> bool): (r: set<nat>)
    ensures forall i: nat :: i in r <==> i < |s| && p(s[i])
  {
    PassingFrom(s, p, 0)
  }

  /** The length of a filter is the number of positions whose element passes. */
  lemma FilterLengthCountsPositions<T(!new)>(s: seq<T>, p: T -> bool)
    ensures |Filter(s, p)| == |Positions(s, p)|
  {
    FilterLengthFrom(s, p, 0);
    assert s[0..] == s;
  }

  lemma {:induction false} FilterLengthFrom<T(!new)>(s: seq<T>, p: T -> bool, lo: nat)
    requires lo <= |s|
    ensures |Filter(s[lo..], p)| == |PassingFrom(s, p, lo)|
    decreases |s| - lo
  {
    if lo == |s| {
      assert PassingFrom(s, p, lo) == {};
    } else {
      FilterLengthFrom(s, p, lo + 1);
      FilterLengthFirst(s[lo..], p);
      assert s[lo..][1..] == s[lo + 1..];
      PassingFromFirst(s, p, lo);
    }
  }

  /** The positions from lo on whose element passes. */
  function PassingFrom<T(!new)>(s: seq<T>, p: T -> bool, lo: nat): set<nat> {
    set i: nat | lo <= i < |s| && p(s[i])
  }

  lemma PassingFromFirst<T(!new)>(s: seq<T>, p: T -> bool, lo: nat)
    requires lo < |s|
    ensures |PassingFrom(s, p, lo)| == (if p(s[lo]) then 1 else 0) + |PassingFrom(s, p, lo + 1)|
  {
    var later := PassingFrom(s, p, lo + 1);
    assert lo !in later;
    if p(s[lo]) {
      assert PassingFrom(s, p, lo) == later + {lo};
    } else {
      assert PassingFrom(s, p, lo) == later;
    }
  }

  /** Filtering twice is filtering once by the conjunction; with p == q this is idempotence. */
  lemma {:induction false} FilterFilter<T(!new)>(s: seq<T>, p: T -> bool, q: T -> bool, both: T -> bool)
    requires forall x :: x in s ==> (both(x) <==> p(x) && q(x))
    ensures Filter(Filter(s, p), q) == Filter(s, both)
    decreases |s|
  {
    if s != [] {
      FilterFilter(s[1..], p, q, both);
      if p(s[0]) {
        assert Filter(s, p) == [s[0]] + Filter(s[1..], p);
        assert ([s[0]] + Filter(s[1..], p))[1..] == Filter(s[1..], p);
      }
    }
  }

  /** Two predicates that agree on the elements of s keep the same elements. */
  lemma {:induction false} FilterCongruent<T(!new)>(s: seq<T>, p: T -> bool, q: T -> bool)
    requires forall x :: x in s ==> (p(x) <==> q(x))
    ensures Filter(s, p) == Filter(s, q)
    decreases |s|
  {
    if s != [] {
      FilterCongruent(s[1..], p, q);
    }
  }

  /** When every element passes, filtering returns the input itself. */
  lemma {:induction false} FilterAll<T(!new)>(s: seq<T>, p: T -> bool)
    requires forall x :: x in s ==> p(x)
    ensures Filter(s, p) == s
    decreases |s|
  {
    if s != [] {
      FilterAll(s[1..], p);
    }
  }

  /** When no element passes, filtering returns the empty list. */
  lemma FilterNone<T(!new)>(s: seq<T>, p: T -> bool)
    requires forall x :: x in s ==> !p(x)
    ensures Filter(s, p) == []
  {
    if Filter(s, p) != [] {
      assert Filter(s, p)[0] in Filter(s, p);
    }
  }

  /** Two disjoint predicates whose union is p split p's result, element for element. */
  lemma FilterPartition<T(!new)>(s: seq<T>, p: T -> bool, a: T -> bool, b: T -> bool)
    requires forall x :: x in s ==> (p(x) <==> a(x) || b(x))
    requires forall x :: x in s ==> !(a(x) && b(x))
    ensures multiset(Filter(s, a)) + multiset(Filter(s, b)) == multiset(Filter(s, p))
    ensures multiset(Filter(s, a)) !! multiset(Filter(s, b))
  {
    var ma, mb, mp := multiset(Filter(s, a)), multiset(Filter(s, b)), multiset(Filter(s, p));
    forall x
      ensures (ma + mb)[x] == mp[x]
    {
      if x !in s {
        assert multiset(s)[x] == 0;
      }
    }
  }

  /** The smallest index at which x occurs in s. */
  function FirstIndex<T(==,!new)>(s: seq<T>, x: T): (i: nat)
    requires x in s
    ensures i < |s| && s[i] == x && x !in s[..i]
    decreases |s|
  {
    if s[0] == x then 0
    else
      var j := FirstIndex(s[1..], x);
      assert s[..j + 1] == [s[0]] + s[1..][..j];
      j + 1
  }

  /** Appending to s does not move the first occurrence of an element already in s. */
  lemma FirstIndexAppend<T(!new)>(s: seq<T>, x: T, y: T)
    requires y in s
    ensures FirstIndex(s + [x], y) == FirstIndex(s, y)
  {
    var i, k := FirstIndex(s, y), FirstIndex(s + [x], y);
    assert (s + [x])[i] == y;
    assert forall j :: 0 <= j < i ==> s[..i][j] == (s + [x])[j];
  }

  predicate NoDuplicates<T(==,!new)>(s: seq<T>) {
    forall i, j :: 0 <= i < j < |s| ==> s[i] != s[j]
  }

  /** `[...new Set(s)]`: each element once, in the order of its first occurrence in s. */
  function Distinct<T(==,!new)>(s: seq<T>): (r: seq<T>)
    ensures NoDuplicates(r)
    ensures forall x :: x in r <==> x in s
    ensures forall i, j :: 0 <= i < j < |r| ==> FirstIndex(s, r[i]) < FirstIndex(s, r[j])
    decreases |s|
  {
    if s == [] then []
    else
      var init, last := s[..|s| - 1], s[|s| - 1];
      assert s == init + [last];
      var d := Distinct(init);
      forall y | y in init
        ensures FirstIndex(s, y) == FirstIndex(init, y)
      {
        FirstIndexAppend(init, last, y);
      }
      if last in d then d
      else
        assert FirstIndex(s, last) == |init|;
        d + [last]
  }
}
