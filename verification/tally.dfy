/** The count dictionaries the pages fill inside `forEach`
    (`counts[k] = (counts[k] || 0) + 1`), kept as association lists in key
    insertion order, which is the order `Object.entries` lists them in; and the
    `sort` by count, largest first, followed by `slice(0, n)`. */
module Tally {
  import opened Common
  import opened Seqs
  import opened Sorting

  datatype Entry = Entry(key: string, count: nat)

  /** `counts[k] || 0` */
  function Lookup(t: seq<Entry>, k: string): nat
  {
    if t == [] then 0 else if t[0].key == k then t[0].count else Lookup(t[1..], k)
  }

  /** `counts[k] = (counts[k] || 0) + 1` */
  function Bump(t: seq<Entry>, k: string): seq<Entry>
  {
    if t == [] then [Entry(k, 1)]
    else if t[0].key == k then [Entry(k, t[0].count + 1)] + t[1..]
    else [t[0]] + Bump(t[1..], k)
  }

  /** The dictionary after the `forEach` visited `keys` in order; `None` stands
      for an element the loop skips. */
  function TallyOf(keys: seq<Option<string>>): seq<Entry>
  {
    if keys == [] then []
    else
      var t := TallyOf(keys[..|keys| - 1]);
      match keys[|keys| - 1]
      case None => t
      case Some(k) => Bump(t, k)
  }

  /** One more element visited: the prefix's dictionary, bumped at its key. */
  lemma TallyStep(keys: seq<Option<string>>, i: nat)
    requires i < |keys|
    ensures keys[i].None? ==> TallyOf(keys[..i + 1]) == TallyOf(keys[..i])
    ensures keys[i].Some? ==> TallyOf(keys[..i + 1]) == Bump(TallyOf(keys[..i]), keys[i].value)
  {
    assert keys[..i + 1][..i] == keys[..i];
  }

  function KeyIs(k: string): Option<string> -> bool
  {
    (o: Option<string>) => o == Some(k)
  }

  /** Number of times `k` is counted. */
  function Occurrences(keys: seq<Option<string>>, k: string): nat
  {
    Count(keys, KeyIs(k))
  }

  /** Number of elements that are counted at all. */
  function Counted(keys: seq<Option<string>>): nat
  {
    Count(keys, (o: Option<string>) => o.Some?)
  }

  predicate DistinctKeys(t: seq<Entry>)
  {
    forall i, j :: 0 <= i < j < |t| ==> t[i].key != t[j].key
  }

  function Labels(t: seq<Entry>): (r: seq<string>)
    ensures |r| == |t| && forall i :: 0 <= i < |t| ==> r[i] == t[i].key
  {
    if t == [] then [] else [t[0].key] + Labels(t[1..])
  }

  function Counts(t: seq<Entry>): (r: seq<nat>)
    ensures |r| == |t| && forall i :: 0 <= i < |t| ==> r[i] == t[i].count
  {
    if t == [] then [] else [t[0].count] + Counts(t[1..])
  }

  /** The `forEach` loop: one dictionary update per element. */
  method CountKeys(keys: seq<Option<string>>) returns (t: seq<Entry>)
    ensures t == TallyOf(keys)
  {
    t := [];
    for i := 0 to |keys|
      invariant t == TallyOf(keys[..i])
    {
      assert keys[..i + 1][..i] == keys[..i];
      match keys[i]
      case None =>
      case Some(k) => t := Bump(t, k);
    }
    assert keys[..|keys|] == keys;
  }

  // ---------------------------------------------------------------------------
  // What a tally holds

  /** One update keeps the keys distinct and every count positive, and adds
      no key but `k`. */
  lemma {:induction false} BumpShape(t: seq<Entry>, k: string)
    requires DistinctKeys(t) && forall e :: e in t ==> e.count >= 1
    ensures DistinctKeys(Bump(t, k)) && forall e :: e in Bump(t, k) ==> e.count >= 1
    ensures forall e :: e in Bump(t, k) ==> e.key == k || exists f :: f in t && f.key == e.key
  {
    if t != [] && t[0].key != k {
      BumpShape(t[1..], k);
      var r := Bump(t, k);
      assert r == [t[0]] + Bump(t[1..], k);
      forall j | 0 < j < |r|
        ensures r[0].key != r[j].key
      {
        assert r[j] in Bump(t[1..], k);
      }
    }
  }

  /** One update adds one to the count of `k` and to no other. */
  lemma {:induction false} BumpLookup(t: seq<Entry>, k: string, k': string)
    ensures Lookup(Bump(t, k), k') == Lookup(t, k') + (if k' == k then 1 else 0)
  {
    if t != [] && t[0].key != k {
      BumpLookup(t[1..], k, k');
    }
  }

  /** One update adds one to the counts' total. */
  lemma {:induction false} BumpSum(t: seq<Entry>, k: string)
    ensures Sum(Counts(Bump(t, k))) == Sum(Counts(t)) + 1
  {
    if t != [] && t[0].key != k {
      BumpSum(t[1..], k);
      assert Counts(Bump(t, k)) == [t[0].count] + Counts(Bump(t[1..], k));
    }
  }

  lemma BumpFacts(t: seq<Entry>, k: string)
    requires DistinctKeys(t) && forall e :: e in t ==> e.count >= 1
    ensures DistinctKeys(Bump(t, k)) && forall e :: e in Bump(t, k) ==> e.count >= 1
    ensures forall k' :: Lookup(Bump(t, k), k') == Lookup(t, k') + (if k' == k then 1 else 0)
    ensures forall e :: e in Bump(t, k) ==> e.key == k || exists f :: f in t && f.key == e.key
    ensures Sum(Counts(Bump(t, k))) == Sum(Counts(t)) + 1
  {
    BumpShape(t, k);
    forall k' ensures Lookup(Bump(t, k), k') == Lookup(t, k') + (if k' == k then 1 else 0) {
      BumpLookup(t, k, k');
    }
    BumpSum(t, k);
  }

  lemma {:induction false} LookupPositive(t: seq<Entry>, k: string)
    requires forall e :: e in t ==> e.count >= 1
    ensures Lookup(t, k) >= 1 <==> exists e :: e in t && e.key == k
  {
    if t != [] {
      LookupPositive(t[1..], k);
    }
  }

  lemma {:induction false} LookupEntry(t: seq<Entry>, e: Entry)
    requires DistinctKeys(t) && e in t
    ensures Lookup(t, e.key) == e.count
  {
    if t[0] != e {
      LookupEntry(t[1..], e);
    }
  }

  lemma {:induction false} TallyInvariant(keys: seq<Option<string>>)
    ensures DistinctKeys(TallyOf(keys))
    ensures forall e :: e in TallyOf(keys) ==> e.count >= 1
    ensures forall k :: Lookup(TallyOf(keys), k) == Occurrences(keys, k)
    ensures Sum(Counts(TallyOf(keys))) == Counted(keys)
  {
    if keys != [] {
      var init := keys[..|keys| - 1];
      var last := keys[|keys| - 1];
      assert keys == init + [last];
      TallyInvariant(init);
      forall k
        ensures Occurrences(keys, k) == Occurrences(init, k) + (if last == Some(k) then 1 else 0)
      {
        FilterAppend(init, [last], KeyIs(k));
      }
      FilterAppend(init, [last], (o: Option<string>) => o.Some?);
      if last.Some? {
        BumpFacts(TallyOf(init), last.value);
      }
    }
  }

  /** No key twice in the dictionary. */
  lemma TallyDistinct(keys: seq<Option<string>>)
    ensures DistinctKeys(TallyOf(keys))
  {
    TallyInvariant(keys);
  }

  /** The dictionary holds exactly the counted keys, each once, each with the
      number of times it was counted, and its counts add up to the number of
      counted elements. */
  lemma TallyCorrect(keys: seq<Option<string>>)
    ensures DistinctKeys(TallyOf(keys))
    ensures forall e :: e in TallyOf(keys) ==> e.count == Occurrences(keys, e.key) >= 1
    ensures forall k :: Some(k) in keys <==> k in Labels(TallyOf(keys))
    ensures Sum(Counts(TallyOf(keys))) == Counted(keys) <= |keys|
  {
    var t := TallyOf(keys);
    TallyInvariant(keys);
    forall e | e in t
      ensures e.count == Occurrences(keys, e.key)
    {
      LookupEntry(t, e);
    }
    forall k
      ensures Some(k) in keys <==> k in Labels(t)
    {
      TallyLabel(keys, t, k);
    }
    CountMonotone(keys, (o: Option<string>) => o.Some?, (o: Option<string>) => true);
    FilterAllKept(keys, (o: Option<string>) => true);
  }

  lemma TallyLabel(keys: seq<Option<string>>, t: seq<Entry>, k: string)
    requires forall e :: e in t ==> e.count >= 1
    requires Lookup(t, k) == Occurrences(keys, k)
    ensures Some(k) in keys <==> k in Labels(t)
  {
    LookupPositive(t, k);
    LabelsMembers(t, k);
    var f := Filter(keys, KeyIs(k));
    FilterMembers(keys, KeyIs(k), Some(k));
    if Some(k) in keys {
      assert Some(k) in f;
    }
    if k in Labels(t) {
      assert f[0] in f;
      assert KeyIs(k)(f[0]);
    }
  }

  lemma {:induction false} LabelsMembers(t: seq<Entry>, k: string)
    ensures k in Labels(t) <==> exists e :: e in t && e.key == k
  {
    if k in Labels(t) {
      var i :| 0 <= i < |t| && Labels(t)[i] == k;
      assert t[i] in t;
    }
  }

  // ---------------------------------------------------------------------------
  // Sorting by count and keeping the first n

  predicate ByCountDesc(a: Entry, b: Entry) { a.count >= b.count }

  /** `Object.entries(counts).sort(([,a], [,b]) => b - a).slice(0, n)` */
  function Top(t: seq<Entry>, n: nat): seq<Entry>
  {
    Take(SortBy(t, ByCountDesc), n)
  }

  lemma {:induction false} InsertDistinct(x: Entry, s: seq<Entry>)
    requires DistinctKeys(s) && forall e :: e in s ==> e.key != x.key
    ensures DistinctKeys(Insert(x, s, ByCountDesc))
  {
    if s != [] && !ByCountDesc(x, s[0]) {
      InsertDistinct(x, s[1..]);
      var r := Insert(x, s, ByCountDesc);
      var t := Insert(x, s[1..], ByCountDesc);
      assert r == [s[0]] + t;
      forall j | 0 < j < |r|
        ensures r[0].key != r[j].key
      {
        assert r[j] in multiset(t);
      }
    }
  }

  lemma {:induction false} SortDistinct(s: seq<Entry>)
    requires DistinctKeys(s)
    ensures DistinctKeys(SortBy(s, ByCountDesc))
  {
    if s != [] {
      SortDistinct(s[1..]);
      forall e | e in SortBy(s[1..], ByCountDesc)
        ensures e.key != s[0].key
      {
        SortByMembers(s[1..], ByCountDesc, e);
      }
      InsertDistinct(s[0], SortBy(s[1..], ByCountDesc));
    }
  }

  /** The entries kept have distinct keys, largest count first. */
  lemma TopOrdered(t: seq<Entry>, n: nat)
    requires DistinctKeys(t)
    ensures DistinctKeys(Top(t, n))
    ensures forall i, j :: 0 <= i < j < |Top(t, n)| ==> Top(t, n)[i].count >= Top(t, n)[j].count
  {
    assert TotalPreorder(ByCountDesc);
    SortBySorted(t, ByCountDesc);
    SortDistinct(t);
  }

  /** Every entry kept is an entry of the dictionary. */
  lemma TopMembers(t: seq<Entry>, n: nat)
    ensures |Top(t, n)| == Min(n, |t|)
    ensures forall e :: e in Top(t, n) ==> e in t
  {
    forall e | e in Top(t, n)
      ensures e in t
    {
      SortByMembers(t, ByCountDesc, e);
    }
  }

  /** No entry left out counts more than an entry kept. */
  lemma TopLeftOut(t: seq<Entry>, n: nat)
    ensures forall e, x :: e in t && e !in Top(t, n) && x in Top(t, n) ==> x.count >= e.count
  {
    var s := SortBy(t, ByCountDesc);
    assert TotalPreorder(ByCountDesc);
    SortBySorted(t, ByCountDesc);
    forall e, x | e in t && e !in Top(t, n) && x in Top(t, n)
      ensures x.count >= e.count
    {
      SortByMembers(t, ByCountDesc, e);
      var i :| 0 <= i < |s| && s[i] == e;
      var j :| 0 <= j < |Top(t, n)| && Top(t, n)[j] == x;
      assert s[j] == x;
      assert j < i;
    }
  }

  /** The chart keeps at most n entries, drawn from the dictionary, with distinct
      keys, in non-increasing order of count; every entry it leaves out counts no
      more than any entry it keeps. */
  lemma TopCorrect(t: seq<Entry>, n: nat)
    requires DistinctKeys(t)
    ensures |Top(t, n)| == Min(n, |t|)
    ensures DistinctKeys(Top(t, n))
    ensures forall e :: e in Top(t, n) ==> e in t
    ensures forall i, j :: 0 <= i < j < |Top(t, n)| ==> Top(t, n)[i].count >= Top(t, n)[j].count
    ensures forall e, x :: e in t && e !in Top(t, n) && x in Top(t, n) ==> x.count >= e.count
  {
    TopMembers(t, n);
    TopOrdered(t, n);
    TopLeftOut(t, n);
  }
}
