/** The list operations the analysis script leans on: list comprehensions with a
    condition, Python's stable `sorted`, and slicing. */
module Seqs {

  lemma LastSplit<T>(s: seq<T>)
    requires s != []
    ensures s == s[..|s| - 1] + [s[|s| - 1]]
  {
  }

  lemma SnocSplit<T>(s: seq<T>, x: T)
    ensures (s + [x])[..|s|] == s && (s + [x])[|s|] == x
  {
  }

  lemma PrefixSnoc<T>(s: seq<T>, i: nat)
    requires i < |s|
    ensures s[..i + 1] == s[..i] + [s[i]]
  {
  }

  /** `[x for x in s if keep(x)]`. */
  function Filter<T>(s: seq<T>, keep: T -> bool): (r: seq<T>)
    ensures |r| <= |s|
  {
    if s == [] then []
    else
      var init := s[..|s| - 1];
      LastSplit(s);
      Filter(init, keep) + if keep(s[|s| - 1]) then [s[|s| - 1]] else []
  }

  lemma FilterSnoc<T>(s: seq<T>, x: T, keep: T -> bool)
    ensures Filter(s + [x], keep) == Filter(s, keep) + if keep(x) then [x] else []
  {
    SnocSplit(s, x);
  }

  /** Filtering keeps relative order: it distributes over concatenation. */
  lemma {:induction false} FilterConcat<T>(a: seq<T>, b: seq<T>, keep: T -> bool)
    ensures Filter(a + b, keep) == Filter(a, keep) + Filter(b, keep)
    decreases |b|
  {
    if b == [] {
      assert a + b == a;
    } else {
      var b', x := b[..|b| - 1], b[|b| - 1];
      FilterConcat(a, b', keep);
      assert a + b == (a + b') + [x];
      FilterSnoc(a + b', x, keep);
      FilterSnoc(b', x, keep);
      assert b == b' + [x];
    }
  }

  /** Each element is kept as often as it occurs, or dropped every time. */
  lemma {:induction false} FilterMultiplicity<T>(s: seq<T>, keep: T -> bool, x: T)
    ensures multiset(Filter(s, keep))[x] == if keep(x) then multiset(s)[x] else 0
  {
    if s != [] {
      var init := s[..|s| - 1];
      FilterMultiplicity(init, keep, x);
      LastSplit(s);
    }
  }

  /** The kept elements are exactly the elements that satisfy the condition. */
  lemma FilterMembers<T>(s: seq<T>, keep: T -> bool)
    ensures forall i :: 0 <= i < |Filter(s, keep)| ==> Filter(s, keep)[i] in s
    ensures forall i :: 0 <= i < |s| && keep(s[i]) ==> s[i] in Filter(s, keep)
  {
    var r := Filter(s, keep);
    forall i | 0 <= i < |r|
      ensures r[i] in s
    {
      FilterMultiplicity(s, keep, r[i]);
      assert r[i] in multiset(r);
    }
    forall i | 0 <= i < |s| && keep(s[i])
      ensures s[i] in r
    {
      FilterMultiplicity(s, keep, s[i]);
      assert s[i] in multiset(s);
    }
  }

  /** Every kept element satisfies the condition. */
  lemma {:induction false} FilterAllKeep<T>(s: seq<T>, keep: T -> bool)
    ensures forall i :: 0 <= i < |Filter(s, keep)| ==> keep(Filter(s, keep)[i])
  {
    if s != [] {
      FilterAllKeep(s[..|s| - 1], keep);
    }
  }

  lemma {:induction false} FilterKeepsAll<T>(s: seq<T>, keep: T -> bool)
    requires forall i :: 0 <= i < |s| ==> keep(s[i])
    ensures Filter(s, keep) == s
  {
    if s != [] {
      FilterKeepsAll(s[..|s| - 1], keep);
    }
  }

  /** Two conditions that agree everywhere keep the same elements. */
  lemma {:induction false} FilterSameCondition<T>(s: seq<T>, p: T -> bool, q: T -> bool)
    requires forall x :: p(x) == q(x)
    ensures Filter(s, p) == Filter(s, q)
  {
    if s != [] {
      FilterSameCondition(s[..|s| - 1], p, q);
    }
  }

  /** Filtering twice is filtering once with a condition that asks for both. */
  lemma {:induction false} FilterFilter<T>(s: seq<T>, p: T -> bool, q: T -> bool, both: T -> bool)
    requires forall x :: both(x) == (p(x) && q(x))
    ensures Filter(Filter(s, p), q) == Filter(s, both)
  {
    if s != [] {
      var init, last := s[..|s| - 1], s[|s| - 1];
      FilterFilter(init, p, q, both);
      assert Filter(s, p) == Filter(init, p) + if p(last) then [last] else [];
      assert Filter(s, both) == Filter(init, both) + if both(last) then [last] else [];
      if p(last) {
        FilterSnoc(Filter(init, p), last, q);
        assert both(last) == q(last);
      } else {
        assert Filter(s, p) == Filter(init, p);
        assert !both(last);
        assert Filter(s, both) == Filter(init, both);
      }
    }
  }

  /** Filtering twice with the same condition is filtering once. */
  lemma FilterIdempotent<T>(s: seq<T>, keep: T -> bool)
    ensures Filter(Filter(s, keep), keep) == Filter(s, keep)
  {
    FilterAllKeep(s, keep);
    FilterKeepsAll(Filter(s, keep), keep);
  }

  /** The filtered prefix is a prefix of the filtered whole. */
  lemma FilterPrefix<T>(s: seq<T>, n: nat, keep: T -> bool)
    requires n <= |s|
    ensures Filter(s[..n], keep) <= Filter(s, keep)
  {
    var front, back := s[..n], s[n..];
    TakeDrop(s, n);
    FilterConcat(front, back, keep);
    PrefixOfConcat(Filter(front, keep), Filter(back, keep));
  }

  lemma TakeDrop<T>(s: seq<T>, n: nat)
    requires n <= |s|
    ensures s[..n] + s[n..] == s
  {
  }

  lemma PrefixOfConcat<T>(a: seq<T>, b: seq<T>)
    ensures a <= a + b
  {
    assert (a + b)[..|a|] == a;
  }

  /** Filtering a sorted sequence leaves it sorted. */
  lemma {:induction false} FilterKeepsSorted<T>(s: seq<T>, keep: T -> bool, key: T -> int)
    requires SortedBy(s, key)
    ensures SortedBy(Filter(s, keep), key)
  {
    if s != [] {
      var init := s[..|s| - 1];
      FilterKeepsSorted(init, keep, key);
      var r := Filter(init, keep);
      FilterMembers(init, keep);
      forall k | 0 <= k < |r|
        ensures key(r[k]) <= key(s[|s| - 1])
      {
        assert r[k] in init;
        var i :| 0 <= i < |init| && init[i] == r[k];
        assert s[i] == r[k];
      }
      FilterSnoc(init, s[|s| - 1], keep);
      LastSplit(s);
    }
  }

  ghost predicate Distinct<T>(s: seq<T>) {
    forall i, j :: 0 <= i < j < |s| ==> s[i] != s[j]
  }

  lemma {:induction false} FilterKeepsDistinct<T>(s: seq<T>, keep: T -> bool)
    requires Distinct(s)
    ensures Distinct(Filter(s, keep))
  {
    if s != [] {
      var init, last := s[..|s| - 1], s[|s| - 1];
      FilterKeepsDistinct(init, keep);
      FilterMembers(init, keep);
      FilterSnoc(init, last, keep);
      LastSplit(s);
      var r := Filter(init, keep);
      forall i | 0 <= i < |r|
        ensures r[i] != last
      {
        assert r[i] in init;
      }
    }
  }

  /** A sequence is distinct exactly when no element occurs twice in its multiset. */
  lemma {:induction false} DistinctMultiset<T>(s: seq<T>)
    ensures Distinct(s) <==> forall x :: multiset(s)[x] <= 1
  {
    if s != [] {
      var init, last := s[..|s| - 1], s[|s| - 1];
      DistinctMultiset(init);
      LastSplit(s);
      if Distinct(s) {
        assert last !in init;
      } else {
        var i, j :| 0 <= i < j < |s| && s[i] == s[j];
        if j < |s| - 1 {
          assert init[i] == init[j];
          assert !Distinct(init);
          var x :| multiset(init)[x] > 1;
          assert multiset(s) == multiset(init) + multiset{last};
          assert multiset(s)[x] > 1;
        } else {
          assert s[i] in init;
          assert multiset(s)[last] >= 2;
        }
      }
    }
  }

  ghost predicate SortedBy<T>(s: seq<T>, key: T -> int) {
    forall i, j :: 0 <= i < j < |s| ==> key(s[i]) <= key(s[j])
  }

  /** Places `x` after every element whose key is at most its own. */
  function InsertBy<T>(r: seq<T>, x: T, key: T -> int): (res: seq<T>)
    ensures |res| == |r| + 1
    ensures multiset(res) == multiset(r) + multiset{x}
  {
    if r == [] then [x]
    else if key(r[|r| - 1]) <= key(x) then r + [x]
    else
      var init := r[..|r| - 1];
      LastSplit(r);
      InsertBy(init, x, key) + [r[|r| - 1]]
  }

  /** Inserting into a sorted sequence keeps it sorted. */
  lemma {:induction false} InsertBySorted<T>(r: seq<T>, x: T, key: T -> int)
    requires SortedBy(r, key)
    ensures SortedBy(InsertBy(r, x, key), key)
  {
    if r != [] && key(r[|r| - 1]) > key(x) {
      var init, last := r[..|r| - 1], r[|r| - 1];
      LastSplit(r);
      InsertBySorted(init, x, key);
      var front := InsertBy(init, x, key);
      forall i | 0 <= i < |front|
        ensures key(front[i]) <= key(last)
      {
        assert front[i] in multiset(front);
        if front[i] != x {
          assert front[i] in multiset(init);
          var k :| 0 <= k < |init| && init[k] == front[i];
          assert r[k] == front[i];
        }
      }
      var res := front + [last];
      forall i, j | 0 <= i < j < |res|
        ensures key(res[i]) <= key(res[j])
      {
        if j < |front| {
          assert res[i] == front[i] && res[j] == front[j];
        }
      }
    }
  }

  /** Python's stable `sorted(s, key=key)`: a permutation of the input. */
  function SortBy<T>(s: seq<T>, key: T -> int): (r: seq<T>)
    ensures multiset(r) == multiset(s)
    ensures |r| == |s|
  {
    if s == [] then []
    else
      var init := s[..|s| - 1];
      LastSplit(s);
      InsertBy(SortBy(init, key), s[|s| - 1], key)
  }

  /** The sort is ascending in the key. */
  lemma {:induction false} SortBySorted<T>(s: seq<T>, key: T -> int)
    ensures SortedBy(SortBy(s, key), key)
  {
    if s != [] {
      var init := s[..|s| - 1];
      SortBySorted(init, key);
      InsertBySorted(SortBy(init, key), s[|s| - 1], key);
    }
  }

  /** The condition "has key `v`". */
  function KeyIs<T>(key: T -> int, v: int): T -> bool {
    x => key(x) == v
  }

  lemma {:induction false} InsertByStable<T>(r: seq<T>, x: T, key: T -> int, v: int)
    ensures Filter(InsertBy(r, x, key), KeyIs(key, v))
            == Filter(r, KeyIs(key, v)) + if key(x) == v then [x] else []
  {
    var p := KeyIs(key, v);
    if r == [] {
      assert [x] == [] + [x];
      FilterSnoc([], x, p);
    } else if key(r[|r| - 1]) <= key(x) {
      FilterSnoc(r, x, p);
    } else {
      var init, last := r[..|r| - 1], r[|r| - 1];
      var front := InsertBy(init, x, key);
      var xs := if key(x) == v then [x] else [];
      var lasts := if p(last) then [last] else [];
      assert InsertBy(r, x, key) == front + [last];
      InsertByStable(init, x, key, v);
      FilterSnoc(front, last, p);
      assert Filter(r, p) == Filter(init, p) + lasts by {
        LastSplit(r);
        FilterSnoc(init, last, p);
      }
      if key(x) == v {
        assert lasts == [];
        assert Filter(InsertBy(r, x, key), p) == Filter(init, p) + xs;
      } else {
        assert xs == [];
        assert Filter(InsertBy(r, x, key), p) == Filter(init, p) + lasts;
      }
    }
  }

  /** Stability: the elements with any one key keep their input order. */
  lemma {:induction false} SortByStable<T>(s: seq<T>, key: T -> int, v: int)
    ensures Filter(SortBy(s, key), KeyIs(key, v)) == Filter(s, KeyIs(key, v))
  {
    if s != [] {
      var init := s[..|s| - 1];
      var last, p := s[|s| - 1], KeyIs(key, v);
      var sortedInit := SortBy(init, key);
      var tail := if key(last) == v then [last] else [];
      SortByStable(init, key, v);
      InsertByStable(sortedInit, last, key, v);
      FilterSnoc(init, last, p);
      calc {
        Filter(SortBy(s, key), p);
        Filter(InsertBy(sortedInit, last, key), p);
        Filter(sortedInit, p) + tail;
        Filter(init, p) + tail;
        { LastSplit(s); }
        Filter(s, p);
      }
    }
  }

  /** `s[:n]`. */
  function Take<T>(s: seq<T>, n: nat): (r: seq<T>)
    ensures |r| == if n < |s| then n else |s|
    ensures r <= s
  {
    if n < |s| then s[..n] else s
  }

  /** The kept elements of a prefix are a prefix of the kept elements. */
  lemma TakeFilter<T>(s: seq<T>, n: nat, keep: T -> bool)
    ensures Filter(Take(s, n), keep) <= Filter(s, keep)
  {
    if n < |s| {
      FilterPrefix(s, n, keep);
    }
  }

  /** The first `n` of a stable sort hold, for each key, the first elements with that key. */
  lemma SortTakeStable<T>(s: seq<T>, key: T -> int, n: nat, v: int)
    ensures Filter(Take(SortBy(s, key), n), KeyIs(key, v)) <= Filter(s, KeyIs(key, v))
  {
    SortByStable(s, key, v);
    TakeFilter(SortBy(s, key), n, KeyIs(key, v));
  }

  /** `s[-n:]` for `n > 0`: the last `n` elements, or all of them. */
  function TakeLast<T>(s: seq<T>, n: nat): (r: seq<T>)
    ensures |r| == if n < |s| then n else |s|
    ensures r == s[|s| - |r|..]
  {
    if n < |s| then s[|s| - n..] else s
  }

  lemma SplitMultiset<T>(s: seq<T>, k: nat)
    requires k <= |s|
    ensures multiset(s) == multiset(s[..k]) + multiset(s[k..])
  {
    TakeDrop(s, k);
  }

  /** In a sorted sequence, an element that the first `k` do not account for is
      at least as large as every one of the first `k`. */
  lemma SortedFrontIsLeast<T>(s: seq<T>, key: T -> int, k: nat, x: T)
    requires SortedBy(s, key) && k <= |s|
    requires multiset(s[..k])[x] < multiset(s)[x]
    ensures forall y :: y in multiset(s[..k]) ==> key(y) <= key(x)
  {
    SplitMultiset(s, k);
    assert x in multiset(s[k..]);
    var j :| 0 <= j < |s[k..]| && s[k..][j] == x;
    assert s[k + j] == x;
    forall y | y in multiset(s[..k])
      ensures key(y) <= key(x)
    {
      var i :| 0 <= i < k && s[..k][i] == y;
      assert s[i] == y;
    }
  }

  /** In a sorted sequence, an element that the elements from position `k` on do not
      account for is at most as large as every one of them. */
  lemma SortedBackIsGreatest<T>(s: seq<T>, key: T -> int, k: nat, x: T)
    requires SortedBy(s, key) && k <= |s|
    requires multiset(s[k..])[x] < multiset(s)[x]
    ensures forall y :: y in multiset(s[k..]) ==> key(x) <= key(y)
  {
    SplitMultiset(s, k);
    assert x in multiset(s[..k]);
    var j :| 0 <= j < k && s[..k][j] == x;
    assert s[j] == x;
    forall y | y in multiset(s[k..])
      ensures key(x) <= key(y)
    {
      var i :| 0 <= i < |s| - k && s[k..][i] == y;
      assert s[k + i] == y;
    }
  }
}
