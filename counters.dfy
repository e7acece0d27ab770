/** `collections.Counter` as the analysis script uses it: counts per string key, a
    missing key reading as 0, `+=` on a missing key inserting it, `del` tolerating a
    missing key, and `most_common(n)`. The keys are kept in first-insertion order,
    because Python dictionaries iterate in that order and `most_common` breaks ties by it. */
module Counters {
  import opened Seqs

  datatype Counter = Counter(order: seq<string>, counts: map<string, int>)

  /** Every key once in `order`, and `order` lists exactly the keys of `counts`. */
  ghost predicate Valid(c: Counter) {
    && Distinct(c.order)
    && (forall k :: k in c.counts ==> k in c.order)
    && (forall i :: 0 <= i < |c.order| ==> c.order[i] in c.counts)
  }

  const Empty := Counter([], map[])

  /** `c[k]`: a missing key counts 0. */
  function Get(c: Counter, k: string): int {
    if k in c.counts then c.counts[k] else 0
  }

  function SumOver(ks: seq<string>, m: map<string, int>): int
    requires forall i :: 0 <= i < |ks| ==> ks[i] in m
  {
    if ks == [] then 0 else SumOver(ks[..|ks| - 1], m) + m[ks[|ks| - 1]]
  }

  /** `sum(c.values())`. */
  function Total(c: Counter): int
    requires Valid(c)
  {
    SumOver(c.order, c.counts)
  }

  lemma {:induction false} SumOverOtherKey(ks: seq<string>, m: map<string, int>, k: string, v: int)
    requires forall i :: 0 <= i < |ks| ==> ks[i] in m
    requires k !in ks
    ensures SumOver(ks, m[k := v]) == SumOver(ks, m)
  {
    if ks != [] {
      SumOverOtherKey(ks[..|ks| - 1], m, k, v);
    }
  }

  lemma {:induction false} SumOverBump(ks: seq<string>, m: map<string, int>, k: string, n: int)
    requires forall i :: 0 <= i < |ks| ==> ks[i] in m
    requires Distinct(ks) && k in ks
    ensures SumOver(ks, m[k := m[k] + n]) == SumOver(ks, m) + n
  {
    var init, last := ks[..|ks| - 1], ks[|ks| - 1];
    LastSplit(ks);
    if last == k {
      assert k !in init;
      SumOverOtherKey(init, m, k, m[k] + n);
    } else {
      SumOverBump(init, m, k, n);
    }
  }

  /** `c[k] += n`: a new key goes to the end of the order. */
  function Add(c: Counter, k: string, n: int): (r: Counter)
    requires Valid(c)
    ensures Valid(r)
    ensures Get(r, k) == Get(c, k) + n
    ensures forall k' :: k' != k ==> Get(r, k') == Get(c, k')
    ensures r.order == if k in c.counts then c.order else c.order + [k]
  {
    if k in c.counts then Counter(c.order, c.counts[k := c.counts[k] + n])
    else
      var r := Counter(c.order + [k], c.counts[k := n]);
      assert r.order[..|c.order|] == c.order;
      r
  }

  /** Adding `n` to one count adds `n` to the sum of the counts. */
  lemma AddTotal(c: Counter, k: string, n: int)
    requires Valid(c)
    ensures Total(Add(c, k, n)) == Total(c) + n
  {
    if k in c.counts {
      SumOverBump(c.order, c.counts, k, n);
    } else {
      var r := Add(c, k, n);
      assert r.order[..|c.order|] == c.order;
      SumOverOtherKey(c.order, c.counts, k, n);
    }
  }

  function IsNot(k: string): string -> bool {
    x => x != k
  }

  /** Dropping a key from the order and the counts keeps a counter well formed. */
  lemma DeleteValid(c: Counter, k: string)
    requires Valid(c)
    ensures Valid(Counter(Filter(c.order, IsNot(k)), c.counts - {k}))
  {
    var order := Filter(c.order, IsNot(k));
    FilterKeepsDistinct(c.order, IsNot(k));
    FilterMembers(c.order, IsNot(k));
    FilterAllKeep(c.order, IsNot(k));
    forall k' | k' in c.counts - {k}
      ensures k' in order
    {
      var i :| 0 <= i < |c.order| && c.order[i] == k';
      assert IsNot(k)(c.order[i]);
    }
    forall i | 0 <= i < |order|
      ensures order[i] in c.counts - {k}
    {
      assert IsNot(k)(order[i]);
    }
  }

  /** A key that is not counted is not in the order either. */
  lemma AbsentKeyOrder(c: Counter, k: string)
    requires Valid(c) && k !in c.counts
    ensures Filter(c.order, IsNot(k)) == c.order
  {
    forall i | 0 <= i < |c.order|
      ensures IsNot(k)(c.order[i])
    {
      assert c.order[i] in c.counts;
    }
    FilterKeepsAll(c.order, IsNot(k));
  }

  /** `del c[k]`: the key is gone, nothing else changes, the other keys keep their
      iteration order, and a missing key is no error. */
  function Delete(c: Counter, k: string): (r: Counter)
    requires Valid(c)
    ensures Valid(r)
    ensures k !in r.counts
    ensures forall k' :: k' != k ==> Get(r, k') == Get(c, k')
    ensures r.order == Filter(c.order, IsNot(k))
    ensures k !in c.counts ==> r == c
  {
    DeleteValid(c, k);
    if k in c.counts then Counter(Filter(c.order, IsNot(k)), c.counts - {k})
    else AbsentKeyOrder(c, k); c
  }

  /** `c.items()` in iteration order. */
  function Items(c: Counter): (items: seq<(string, int)>)
    requires Valid(c)
    ensures |items| == |c.order|
    ensures forall i :: 0 <= i < |items| ==> items[i] == (c.order[i], c.counts[c.order[i]])
  {
    seq(|c.order|, i requires 0 <= i < |c.order| => (c.order[i], c.counts[c.order[i]]))
  }

  /** The sort key of an entry: its count, negated for a largest-first order. */
  function NegCount(p: (string, int)): int { -p.1 }

  /** The sorted entries are the counter's entries, one per key, largest count first. */
  lemma ByCountDescFacts(c: Counter)
    requires Valid(c)
    ensures |SortBy(Items(c), NegCount)| == |c.order|
    ensures forall i :: 0 <= i < |SortBy(Items(c), NegCount)| ==>
      SortBy(Items(c), NegCount)[i].0 in c.counts && SortBy(Items(c), NegCount)[i].1 == c.counts[SortBy(Items(c), NegCount)[i].0]
    ensures forall i, j :: 0 <= i < j < |SortBy(Items(c), NegCount)| ==> SortBy(Items(c), NegCount)[i].0 != SortBy(Items(c), NegCount)[j].0
    ensures forall i, j :: 0 <= i < j < |SortBy(Items(c), NegCount)| ==> SortBy(Items(c), NegCount)[i].1 >= SortBy(Items(c), NegCount)[j].1
  {
    var sorted, items := SortBy(Items(c), NegCount), Items(c);
    SortBySorted(items, NegCount);
    forall i | 0 <= i < |sorted|
      ensures sorted[i].0 in c.counts && sorted[i].1 == c.counts[sorted[i].0]
    {
      assert sorted[i] in multiset(items);
      var ki :| 0 <= ki < |items| && items[ki] == sorted[i];
    }
    assert Distinct(items);
    DistinctMultiset(items);
    DistinctMultiset(sorted);
    forall i, j | 0 <= i < j < |sorted|
      ensures sorted[i].1 >= sorted[j].1
    {
      assert NegCount(sorted[i]) <= NegCount(sorted[j]);
    }
  }

  /** `c.most_common(n)`: the entries sorted by count, largest first, ties in iteration
      order (what `heapq.nlargest` and `sorted(..., reverse=True)` produce), cut to `n`. */
  function MostCommon(c: Counter, n: nat): (r: seq<(string, int)>)
    requires Valid(c)
    ensures |r| == if n < |c.order| then n else |c.order|
  {
    Take(SortBy(Items(c), NegCount), n)
  }

  /** `most_common(n)` returns at most `n` entries, each a key with its count, no key
      twice, counts non-increasing. */
  lemma MostCommonEntries(c: Counter, n: nat)
    requires Valid(c)
    ensures forall i :: 0 <= i < |MostCommon(c, n)| ==>
      MostCommon(c, n)[i].0 in c.counts && MostCommon(c, n)[i].1 == Get(c, MostCommon(c, n)[i].0)
    ensures forall i, j :: 0 <= i < j < |MostCommon(c, n)| ==> MostCommon(c, n)[i].0 != MostCommon(c, n)[j].0
    ensures forall i, j :: 0 <= i < j < |MostCommon(c, n)| ==> MostCommon(c, n)[i].1 >= MostCommon(c, n)[j].1
  {
    ByCountDescFacts(c);
    var r := MostCommon(c, n);
    assert forall i :: 0 <= i < |r| ==> r[i] == SortBy(Items(c), NegCount)[i];
  }

  /** `most_common(n)` really returns the largest counts: a key left out counts no more
      than any entry returned. */
  lemma MostCommonIsTop(c: Counter, n: nat, k: string)
    requires Valid(c) && k in c.counts
    requires forall i :: 0 <= i < |MostCommon(c, n)| ==> MostCommon(c, n)[i].0 != k
    ensures forall i :: 0 <= i < |MostCommon(c, n)| ==> Get(c, k) <= MostCommon(c, n)[i].1
  {
    var sorted, items, r := SortBy(Items(c), NegCount), Items(c), MostCommon(c, n);
    SortBySorted(items, NegCount);
    var p := (k, c.counts[k]);
    var ki :| 0 <= ki < |c.order| && c.order[ki] == k;
    assert items[ki] == p;
    assert p in multiset(sorted);
    var j :| 0 <= j < |sorted| && sorted[j] == p;
    assert j >= |r|;
    forall i | 0 <= i < |r|
      ensures Get(c, k) <= r[i].1
    {
      assert r[i] == sorted[i];
      assert NegCount(sorted[i]) <= NegCount(sorted[j]);
    }
  }

  /** The condition "has count `v`". */
  function HasCount(v: int): ((string, int)) -> bool {
    (p: (string, int)) => p.1 == v
  }

  /** Ties keep iteration order: the entries returned with any one count are the first
      entries with that count in iteration order. */
  lemma MostCommonTies(c: Counter, n: nat, v: int)
    requires Valid(c)
    ensures Filter(MostCommon(c, n), HasCount(v)) <= Filter(Items(c), HasCount(v))
  {
    var items := Items(c);
    var w := -v;
    var key := KeyIs(NegCount, w);
    SortTakeStable(items, NegCount, n, w);
    assert MostCommon(c, n) == Take(SortBy(items, NegCount), n);
    FilterSameCondition(MostCommon(c, n), HasCount(v), key);
    FilterSameCondition(items, HasCount(v), key);
  }
}
