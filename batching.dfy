/** `batched(iterable, n)` of the ingest script: cut a sequence into consecutive
    batches of `n` items, the last one possibly shorter. */
module Batching {
  import opened Wrappers

  datatype BatchError = ValueError

  function Min(a: int, b: int): int { if a <= b then a else b }

  /** The batches `batched` yields, in order. */
  function Chunks<T>(xs: seq<T>, n: nat): seq<seq<T>>
    requires n >= 1
    decreases |xs|
  {
    if xs == [] then []
    else if |xs| <= n then [xs]
    else [xs[..n]] + Chunks(xs[n..], n)
  }

  function Flatten<T>(bs: seq<seq<T>>): seq<T> {
    if bs == [] then [] else bs[0] + Flatten(bs[1..])
  }

  /** The batches put back together are the input. */
  lemma {:induction false} ChunksFlatten<T>(xs: seq<T>, n: nat)
    requires n >= 1
    ensures Flatten(Chunks(xs, n)) == xs
    decreases |xs|
  {
    if xs != [] && |xs| > n {
      ChunksFlatten(xs[n..], n);
      assert xs[..n] + xs[n..] == xs;
    } else if xs != [] {
      assert Chunks(xs, n) == [xs];
      assert Flatten([xs]) == xs + Flatten([xs][1..]);
    }
  }

  /** Every batch but the last has exactly `n` items; the last has between 1 and `n`. */
  lemma {:induction false} ChunkSizes<T>(xs: seq<T>, n: nat)
    requires n >= 1
    ensures forall k :: 0 <= k < |Chunks(xs, n)| - 1 ==> |Chunks(xs, n)[k]| == n
    ensures xs != [] ==> |Chunks(xs, n)| >= 1 && 1 <= |Chunks(xs, n)[|Chunks(xs, n)| - 1]| <= n
    ensures xs == [] <==> Chunks(xs, n) == []
    decreases |xs|
  {
    if xs != [] && |xs| > n {
      ChunkSizes(xs[n..], n);
    }
  }

  /** Batch `k` holds the items at positions `k*n` up to `k*n + n` (fewer for the last). */
  lemma {:induction false} ChunkAt<T>(xs: seq<T>, n: nat, k: nat)
    requires n >= 1 && k < |Chunks(xs, n)|
    ensures k * n < |xs|
    ensures Chunks(xs, n)[k] == xs[k * n .. Min(k * n + n, |xs|)]
    decreases |xs|
  {
    if k > 0 {
      assert |xs| > n;
      ChunkAt(xs[n..], n, k - 1);
      assert (k - 1) * n + n == k * n;
      assert xs[n..][(k - 1) * n .. Min((k - 1) * n + n, |xs| - n)] == xs[k * n .. Min(k * n + n, |xs|)];
    }
  }

  /** There are just enough batches: `|Chunks| * n` reaches `|xs|` and one batch fewer would not. */
  lemma {:induction false} ChunkCount<T>(xs: seq<T>, n: nat)
    requires n >= 1
    ensures |xs| <= |Chunks(xs, n)| * n < |xs| + n
    decreases |xs|
  {
    if xs != [] && |xs| > n {
      ChunkCount(xs[n..], n);
      assert |Chunks(xs, n)| * n == (|Chunks(xs[n..], n)| + 1) * n == |Chunks(xs[n..], n)| * n + n;
    }
  }

  /** `batched(xs, n)`: `n < 1` raises `ValueError`; otherwise the loop takes up to `n`
      items at a time off the front until nothing is left. */
  method Batched<T>(xs: seq<T>, n: int) returns (r: Result<seq<seq<T>>, BatchError>)
    ensures r.Failure? <==> n < 1
    ensures r.Success? ==> r.value == Chunks(xs, n)
  {
    if n < 1 {
      return Failure(ValueError);
    }
    var rest := xs;
    var batches: seq<seq<T>> := [];
    while |rest| > 0
      invariant batches + Chunks(rest, n) == Chunks(xs, n)
      decreases |rest|
    {
      var batch := rest[..Min(n, |rest|)];
      assert Chunks(rest, n) == [batch] + Chunks(rest[|batch|..], n) by {
        if |rest| <= n {
          assert batch == rest && rest[|batch|..] == [];
        }
      }
      batches := batches + [batch];
      rest := rest[|batch|..];
    }
    return Success(batches);
  }
}
