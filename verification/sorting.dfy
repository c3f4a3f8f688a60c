/** Ordering of query results (`ORDER BY`) and of chart entries
    (`Array.prototype.sort`): a stable insertion sort under a total preorder. */
module Sorting {
  import opened Seqs

  /** `le` is total and transitive, as the comparisons the source sorts by are. */
  ghost predicate TotalPreorder<T(!new)>(le: (T, T) -> bool)
  {
    && (forall a, b :: le(a, b) || le(b, a))
    && (forall a, b, c :: le(a, b) && le(b, c) ==> le(a, c))
  }

  predicate SortedBy<T>(s: seq<T>, le: (T, T) -> bool)
  {
    forall i, j :: 0 <= i < j < |s| ==> le(s[i], s[j])
  }

  /** Places `x` before the first element it may precede. */
  function Insert<T>(x: T, s: seq<T>, le: (T, T) -> bool): (r: seq<T>)
    ensures |r| == |s| + 1
    ensures multiset(r) == multiset(s) + multiset{x}
  {
    if s == [] then [x]
    else if le(x, s[0]) then [x] + s
    else
      assert s == [s[0]] + s[1..];
      [s[0]] + Insert(x, s[1..], le)
  }

  /** Elements that compare equal keep their original order. */
  function SortBy<T>(s: seq<T>, le: (T, T) -> bool): (r: seq<T>)
    ensures |r| == |s|
    ensures multiset(r) == multiset(s)
  {
    if s == [] then []
    else
      assert s == [s[0]] + s[1..];
      Insert(s[0], SortBy(s[1..], le), le)
  }

  lemma {:induction false} InsertSorted<T(!new)>(x: T, s: seq<T>, le: (T, T) -> bool)
    requires TotalPreorder(le) && SortedBy(s, le)
    ensures SortedBy(Insert(x, s, le), le)
  {
    if s != [] && !le(x, s[0]) {
      InsertSorted(x, s[1..], le);
      var r := Insert(x, s, le);
      var t := Insert(x, s[1..], le);
      assert r == [s[0]] + t;
      forall j | 0 < j < |r|
        ensures le(r[0], r[j])
      {
        assert r[j] in multiset(t);
        assert r[j] in multiset(s[1..]) || r[j] == x;
        if r[j] != x {
          var k :| 0 <= k < |s[1..]| && s[1..][k] == r[j];
          assert s[k + 1] == r[j];
        }
      }
    }
  }

  lemma {:induction false} SortBySorted<T(!new)>(s: seq<T>, le: (T, T) -> bool)
    requires TotalPreorder(le)
    ensures SortedBy(SortBy(s, le), le)
  {
    if s != [] {
      SortBySorted(s[1..], le);
      InsertSorted(s[0], SortBy(s[1..], le), le);
    }
  }

  lemma SortByMembers<T>(s: seq<T>, le: (T, T) -> bool, x: T)
    ensures x in SortBy(s, le) <==> x in s
  {
    assert x in multiset(SortBy(s, le)) <==> x in multiset(s);
  }

  lemma SortedPrefix<T>(s: seq<T>, n: nat, le: (T, T) -> bool)
    requires SortedBy(s, le) && n <= |s|
    ensures SortedBy(s[..n], le)
  {
  }

  /** The first `n` of a sorted copy (`ORDER BY ... LIMIT n`): in order, drawn
      from `s`, and no element left out comes before an element kept. */
  lemma FirstOfSorted<T(!new)>(s: seq<T>, n: nat, le: (T, T) -> bool)
    requires TotalPreorder(le)
    ensures |Take(SortBy(s, le), n)| == Min(n, |s|)
    ensures SortedBy(Take(SortBy(s, le), n), le)
    ensures forall x :: x in Take(SortBy(s, le), n) ==> x in s
    ensures forall e, x :: e in s && e !in Take(SortBy(s, le), n) && x in Take(SortBy(s, le), n) ==> le(x, e)
  {
    var r := SortBy(s, le);
    var t := Take(r, n);
    SortBySorted(s, le);
    forall x | x in t
      ensures x in s
    {
      SortByMembers(s, le, x);
    }
    forall e, x | e in s && e !in t && x in t
      ensures le(x, e)
    {
      SortByMembers(s, le, e);
      var i :| 0 <= i < |r| && r[i] == e;
      var j :| 0 <= j < |t| && t[j] == x;
      assert r[j] == x;
      assert j < i;
    }
  }

  /** Selecting rows of a sorted sequence keeps it sorted. */
  lemma {:induction false} FilterKeepsSorted<T>(s: seq<T>, p: T -> bool, le: (T, T) -> bool)
    requires SortedBy(s, le)
    ensures SortedBy(Filter(s, p), le)
  {
    if s != [] {
      FilterKeepsSorted(s[1..], p, le);
      if p(s[0]) {
        var r := Filter(s, p);
        forall j | 0 < j < |r|
          ensures le(r[0], r[j])
        {
          assert r[j] in Filter(s[1..], p);
          FilterMembers(s[1..], p, r[j]);
          var k :| 0 <= k < |s[1..]| && s[1..][k] == r[j];
          assert s[k + 1] == r[j];
        }
      }
    }
  }
}
