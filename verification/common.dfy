/** Shared vocabulary: identifiers, instance states and a few facts about sets, sequences and sorting. */
module Common {
  /** A row identifier (the source's UUIDs). Only equality matters. */
  type Id = int

  datatype Option<+T> = None | Some(value: T)

  datatype Result<+T, +E> = Ok(value: T) | Err(error: E)

  datatype InstanceState = Scheduled | Starting | Running | Stopped | Error {
    /** Membership of the source's LIVE_STATES. */
    predicate Live() {
      this in {Scheduled, Starting, Running}
    }
  }

  datatype Desired = WantRunning | WantStopped

  function Max(a: int, b: int): int { if a >= b then a else b }

  function Min(a: int, b: int): int { if a <= b then a else b }
}

module Sets {
  function Elements<T>(s: seq<T>): set<T> {
    set x | x in s
  }

  lemma SameElements<T(!new)>(s: seq<T>, m: set<T>)
    requires forall x :: x in s <==> x in m
    ensures Elements(s) == m
  {
  }

  /** A set never outgrows one that contains it. */
  lemma SubsetSize<T>(a: set<T>, b: set<T>)
    requires a <= b
    ensures |a| <= |b|
  {
    assert b == a + (b - a);
  }

  lemma Member<T>(s: set<T>) returns (x: T)
    requires s != {}
    ensures x in s
  {
    x :| x in s;
  }

  lemma DifferenceSize<T>(a: set<T>, b: set<T>)
    requires b <= a
    ensures |a - b| == |a| - |b|
  {
    assert a == b + (a - b);
  }

  lemma DisjointUnionSize<T>(a: set<T>, b: set<T>)
    requires a !! b
    ensures |a + b| == |a| + |b|
  {
  }

  /** Any element, as iteration over a dictionary would yield in some order. */
  method AnyOf<T>(s: set<T>) returns (x: T)
    requires s != {}
    ensures x in s
  {
    x :| x in s;
  }

  lemma {:induction false} ElementsAtMost<T>(s: seq<T>)
    ensures |set x | x in s| <= |s|
  {
    if s != [] {
      var front := s[..|s| - 1];
      assert s == front + [s[|s| - 1]];
      assert (set x | x in s) == (set x | x in front) + {s[|s| - 1]};
      ElementsAtMost(front);
    }
  }

  lemma {:induction false} DistinctSize<T>(s: seq<T>)
    requires forall i, j :: 0 <= i < j < |s| ==> s[i] != s[j]
    ensures |set x | x in s| == |s|
  {
    if s != [] {
      var front := s[..|s| - 1];
      assert s == front + [s[|s| - 1]];
      assert (set x | x in s) == (set x | x in front) + {s[|s| - 1]};
      DistinctSize(front);
    }
  }
}

/** Python's `sorted`: a stable sort under a total preorder. */
module Sorting {

  ghost predicate TotalPreorder<T(!new)>(leq: (T, T) -> bool) {
    && (forall x, y :: leq(x, y) || leq(y, x))
    && (forall x, y, z :: leq(x, y) && leq(y, z) ==> leq(x, z))
  }

  ghost predicate SortedBy<T>(s: seq<T>, leq: (T, T) -> bool) {
    forall i, j :: 0 <= i < j < |s| ==> leq(s[i], s[j])
  }

  function Insert<T>(x: T, s: seq<T>, leq: (T, T) -> bool): seq<T> {
    if s == [] then [x]
    else if leq(x, s[0]) then [x] + s
    else [s[0]] + Insert(x, s[1..], leq)
  }

  function Sort<T>(s: seq<T>, leq: (T, T) -> bool): seq<T> {
    if s == [] then [] else Insert(s[0], Sort(s[1..], leq), leq)
  }

  function Filter<T>(s: seq<T>, p: T -> bool): seq<T> {
    if s == [] then []
    else if p(s[0]) then [s[0]] + Filter(s[1..], p)
    else Filter(s[1..], p)
  }

  lemma {:induction false} InsertPermutes<T>(x: T, s: seq<T>, leq: (T, T) -> bool)
    ensures multiset(Insert(x, s, leq)) == multiset{x} + multiset(s)
    ensures |Insert(x, s, leq)| == |s| + 1
  {
    if s == [] {
    } else if leq(x, s[0]) {
    } else {
      InsertPermutes(x, s[1..], leq);
      assert s == [s[0]] + s[1..];
    }
  }

  /** Sorting neither loses nor invents an element. */
  lemma {:induction false} SortPermutes<T(!new)>(s: seq<T>, leq: (T, T) -> bool)
    ensures multiset(Sort(s, leq)) == multiset(s)
    ensures |Sort(s, leq)| == |s|
    ensures forall x :: x in Sort(s, leq) <==> x in s
  {
    if s != [] {
      SortPermutes(s[1..], leq);
      InsertPermutes(s[0], Sort(s[1..], leq), leq);
      assert s == [s[0]] + s[1..];
    }
    assert forall x :: x in Sort(s, leq) <==> x in multiset(Sort(s, leq));
    assert forall x :: x in s <==> x in multiset(s);
  }

  lemma {:induction false} InsertSorts<T(!new)>(x: T, s: seq<T>, leq: (T, T) -> bool)
    requires TotalPreorder(leq) && SortedBy(s, leq)
    ensures SortedBy(Insert(x, s, leq), leq)
  {
    if s != [] && !leq(x, s[0]) {
      InsertSorts(x, s[1..], leq);
      InsertPermutes(x, s[1..], leq);
      var tail := Insert(x, s[1..], leq);
      forall j | 0 <= j < |tail| ensures leq(s[0], tail[j]) {
        assert tail[j] in multiset(tail);
        assert tail[j] == x || tail[j] in s[1..];
      }
    }
  }

  lemma {:induction false} SortSorts<T(!new)>(s: seq<T>, leq: (T, T) -> bool)
    requires TotalPreorder(leq)
    ensures SortedBy(Sort(s, leq), leq)
  {
    if s != [] {
      SortSorts(s[1..], leq);
      InsertSorts(s[0], Sort(s[1..], leq), leq);
    }
  }

  lemma {:induction false} FilterMembers<T(!new)>(s: seq<T>, p: T -> bool)
    ensures forall x :: x in Filter(s, p) <==> x in s && p(x)
  {
    if s != [] {
      FilterMembers(s[1..], p);
      assert s == [s[0]] + s[1..];
    }
  }

  lemma {:induction false} FilterAll<T(!new)>(s: seq<T>, p: T -> bool)
    requires forall x :: x in s ==> p(x)
    ensures Filter(s, p) == s
  {
    if s != [] {
      FilterAll(s[1..], p);
    }
  }

  lemma {:induction false} FilterConcat<T>(s: seq<T>, t: seq<T>, p: T -> bool)
    ensures Filter(s + t, p) == Filter(s, p) + Filter(t, p)
  {
    if s == [] {
      assert s + t == t;
    } else {
      assert (s + t)[1..] == s[1..] + t;
      FilterConcat(s[1..], t, p);
    }
  }

  lemma {:induction false} FilterInsert<T(!new)>(x: T, s: seq<T>, leq: (T, T) -> bool, p: T -> bool)
    requires TotalPreorder(leq) && SortedBy(s, leq)
    ensures Filter(Insert(x, s, leq), p) == if p(x) then Insert(x, Filter(s, p), leq) else Filter(s, p)
  {
    if s == [] {
    } else if leq(x, s[0]) {
      assert ([x] + s)[1..] == s;
      var kept := Filter(s, p);
      if p(x) && kept != [] {
        FilterMembers(s, p);
        assert kept[0] in s;
        assert leq(x, kept[0]);
      }
    } else {
      FilterInsert(x, s[1..], leq, p);
      var tail := Insert(x, s[1..], leq);
      assert ([s[0]] + tail)[1..] == tail;
      if p(s[0]) {
        assert Filter(s, p)[1..] == Filter(s[1..], p);
      }
    }
  }

  /** Stability: selecting elements after sorting is sorting the selected elements. */
  lemma {:induction false} SortStable<T(!new)>(s: seq<T>, leq: (T, T) -> bool, p: T -> bool)
    requires TotalPreorder(leq)
    ensures Filter(Sort(s, leq), p) == Sort(Filter(s, p), leq)
  {
    if s != [] {
      SortStable(s[1..], leq, p);
      SortSorts(s[1..], leq);
      FilterInsert(s[0], Sort(s[1..], leq), leq, p);
      if p(s[0]) {
        assert Filter(s, p)[1..] == Filter(s[1..], p);
      }
    }
  }

  /** A sequence keeps its order exactly when it was sorted already. */
  lemma {:induction false} SortKeepsOrder<T(!new)>(s: seq<T>, leq: (T, T) -> bool)
    requires TotalPreorder(leq)
    ensures Sort(s, leq) == s <==> SortedBy(s, leq)
  {
    SortSorts(s, leq);
    if SortedBy(s, leq) && s != [] {
      SortKeepsOrder(s[1..], leq);
      assert SortedBy(s[1..], leq);
      if |s| > 1 {
        assert leq(s[0], s[1]);
      }
      assert s == [s[0]] + s[1..];
    }
  }

  /** Every two elements are apart (for a symmetric relation, such as having different ids). */
  ghost predicate PairwiseApart<T>(s: seq<T>, apart: (T, T) -> bool) {
    forall i, j :: 0 <= i < j < |s| ==> apart(s[i], s[j])
  }

  lemma {:induction false} FilterKeepsApart<T(!new)>(s: seq<T>, p: T -> bool, apart: (T, T) -> bool)
    requires PairwiseApart(s, apart)
    ensures PairwiseApart(Filter(s, p), apart)
  {
    if s != [] {
      FilterKeepsApart(s[1..], p, apart);
      FilterMembers(s[1..], p);
      var kept := Filter(s[1..], p);
      forall k | 0 <= k < |kept| ensures apart(s[0], kept[k]) {
        assert kept[k] in kept;
        var j :| 0 <= j < |s[1..]| && s[1..][j] == kept[k];
        assert apart(s[0], s[j + 1]);
      }
    }
  }

  lemma {:induction false} InsertKeepsApart<T(!new)>(x: T, s: seq<T>, leq: (T, T) -> bool, apart: (T, T) -> bool)
    requires PairwiseApart(s, apart) && forall y :: y in s ==> apart(x, y) && apart(y, x)
    ensures PairwiseApart(Insert(x, s, leq), apart)
  {
    if s != [] && !leq(x, s[0]) {
      InsertKeepsApart(x, s[1..], leq, apart);
      InsertPermutes(x, s[1..], leq);
      var tail := Insert(x, s[1..], leq);
      forall j | 0 <= j < |tail| ensures apart(s[0], tail[j]) {
        assert tail[j] in multiset(tail);
        assert tail[j] == x || tail[j] in s[1..];
      }
    }
  }

  lemma {:induction false} SortKeepsApart<T(!new)>(s: seq<T>, leq: (T, T) -> bool, apart: (T, T) -> bool)
    requires PairwiseApart(s, apart) && forall x, y :: apart(x, y) ==> apart(y, x)
    ensures PairwiseApart(Sort(s, leq), apart)
  {
    if s != [] {
      SortKeepsApart(s[1..], leq, apart);
      SortPermutes(s[1..], leq);
      InsertKeepsApart(s[0], Sort(s[1..], leq), leq, apart);
    }
  }
}
