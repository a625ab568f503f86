/** Two sequence idioms the code repeats: cutting a list into consecutive
    slices (`for i in range(0, len(xs), size): xs[i:i+size]`) and dropping
    every element whose key was already seen (`seen_ids` in `store_chunks`). */
module Batching {
  import opened Base

  /** The slices `xs[i:i+size]` for `i = 0, size, 2*size, ...` below `|xs|`. */
  function Batches<T>(xs: seq<T>, size: nat): (bs: seq<seq<T>>)
    requires size > 0
    ensures forall i :: 0 <= i < |bs| ==> 0 < |bs[i]| <= size
    ensures forall i :: 0 <= i < |bs| - 1 ==> |bs[i]| == size
    decreases |xs|
  {
    if |xs| == 0 then []
    else if |xs| <= size then [xs]
    else [xs[..size]] + Batches(xs[size..], size)
  }

  function Flatten<T>(bs: seq<seq<T>>): seq<T>
    decreases |bs|
  {
    if |bs| == 0 then [] else bs[0] + Flatten(bs[1..])
  }

  lemma {:induction false} FlattenAppend<T>(a: seq<seq<T>>, b: seq<seq<T>>)
    ensures Flatten(a + b) == Flatten(a) + Flatten(b)
    decreases |a|
  {
    if |a| == 0 {
      assert a + b == b;
    } else {
      assert (a + b)[1..] == a[1..] + b;
      FlattenAppend(a[1..], b);
    }
  }

  /** The batches cover the input exactly once, in order. */
  lemma {:induction false} FlattenBatches<T>(xs: seq<T>, size: nat)
    requires size > 0
    ensures Flatten(Batches(xs, size)) == xs
    decreases |xs|
  {
    if |xs| > size {
      FlattenBatches(xs[size..], size);
      assert xs == xs[..size] + xs[size..];
    }
  }

  lemma MulSucc(k: nat, size: nat)
    requires k > 0
    ensures k * size == (k - 1) * size + size
  {
  }

  /** A slice of the tail, shifted back into the whole. */
  lemma SliceOfTail<T>(xs: seq<T>, size: nat, a: nat, m: nat)
    requires size <= |xs| && a <= m <= |xs| - size
    ensures xs[size..][a..m] == xs[a + size .. m + size]
  {
  }

  /** Batch `k` is exactly the slice `xs[k*size : (k+1)*size]`, cut at the end. */
  lemma {:induction false} BatchIsSlice<T>(xs: seq<T>, size: nat, k: nat)
    requires size > 0
    requires k < |Batches(xs, size)|
    ensures k * size < |xs|
    ensures Batches(xs, size)[k] == xs[k * size .. Min(k * size + size, |xs|)]
    decreases |xs|
  {
    if k == 0 {
      if |xs| <= size {
        assert Batches(xs, size) == [xs];
        assert xs[0..|xs|] == xs;
      } else {
        assert Batches(xs, size)[0] == xs[..size];
      }
    } else {
      assert |xs| > size;
      var rest := xs[size..];
      assert Batches(xs, size) == [xs[..size]] + Batches(rest, size);
      assert Batches(xs, size)[k] == Batches(rest, size)[k - 1];
      BatchIsSlice(rest, size, k - 1);
      var a := (k - 1) * size;
      MulSucc(k, size);
      var m := Min(a + size, |rest|);
      SliceOfTail(xs, size, a, m);
    }
  }

  /** One batch per started block of `size` elements. */
  lemma {:induction false} BatchCount<T>(xs: seq<T>, size: nat)
    requires size > 0
    ensures |Batches(xs, size)| * size >= |xs|
    ensures |Batches(xs, size)| == 0 || (|Batches(xs, size)| - 1) * size < |xs|
    decreases |xs|
  {
    if |xs| > size {
      BatchCount(xs[size..], size);
      var n := |Batches(xs[size..], size)|;
      assert |Batches(xs, size)| == n + 1;
      assert (n + 1) * size == n * size + size;
      assert n * size == (n - 1) * size + size;
    }
  }

  /** Equal-length inputs are cut at the same places: they get the same
      number of batches, and corresponding batches have equal lengths. */
  lemma {:induction false} BatchesAligned<T, U>(xs: seq<T>, ys: seq<U>, size: nat)
    requires size > 0
    requires |xs| == |ys|
    ensures |Batches(xs, size)| == |Batches(ys, size)|
    ensures forall k :: 0 <= k < |Batches(xs, size)| ==> |Batches(xs, size)[k]| == |Batches(ys, size)[k]|
    decreases |xs|
  {
    if |xs| > size {
      BatchesAligned(xs[size..], ys[size..], size);
    }
  }

  /** The concatenation of `f(x)` over `xs`, in order. */
  function FlatMap<T, U>(xs: seq<T>, f: T -> seq<U>): seq<U>
    decreases |xs|
  {
    if |xs| == 0 then [] else f(xs[0]) + FlatMap(xs[1..], f)
  }

  lemma {:induction false} FlatMapAppend<T, U>(a: seq<T>, b: seq<T>, f: T -> seq<U>)
    ensures FlatMap(a + b, f) == FlatMap(a, f) + FlatMap(b, f)
    decreases |a|
  {
    if |a| == 0 {
      assert a + b == b;
    } else {
      assert (a + b)[0] == a[0];
      assert (a + b)[1..] == a[1..] + b;
      FlatMapAppend(a[1..], b, f);
    }
  }

  lemma FlatMapSingle<T, U>(x: T, f: T -> seq<U>)
    ensures FlatMap([x], f) == f(x)
  {
    assert FlatMap([x], f) == f(x) + FlatMap([x][1..], f);
  }

  /** `xs[i]` is the first element carrying its key. */
  predicate FirstOccurrence<T, K(==)>(xs: seq<T>, key: T -> K, i: nat)
    requires i < |xs|
  {
    forall j :: 0 <= j < i ==> key(xs[j]) != key(xs[i])
  }

  /** The first-occurrence elements among `xs[..n]`, in order. */
  function KeepFirst<T, K(==)>(xs: seq<T>, key: T -> K, n: nat): seq<T>
    requires n <= |xs|
    decreases n
  {
    if n == 0 then []
    else KeepFirst(xs, key, n - 1) + (if FirstOccurrence(xs, key, n - 1) then [xs[n - 1]] else [])
  }

  /** Order-preserving deduplication by key, keeping the first occurrence. */
  function Dedup<T, K(==)>(xs: seq<T>, key: T -> K): seq<T>
  {
    KeepFirst(xs, key, |xs|)
  }

  /** `r` is `xs` restricted to the strictly increasing positions `idx`. */
  ghost predicate SubsequenceAt<T>(r: seq<T>, xs: seq<T>, idx: seq<nat>)
  {
    && |idx| == |r|
    && (forall i :: 0 <= i < |idx| ==> idx[i] < |xs| && r[i] == xs[idx[i]])
    && (forall i, j :: 0 <= i < j < |idx| ==> idx[i] < idx[j])
  }

  /** The kept elements are exactly the first occurrences, taken in order. */
  lemma {:induction false} KeepFirstPositions<T, K>(xs: seq<T>, key: T -> K, n: nat) returns (idx: seq<nat>)
    requires n <= |xs|
    ensures SubsequenceAt(KeepFirst(xs, key, n), xs, idx)
    ensures forall i :: 0 <= i < |idx| ==> idx[i] < n && FirstOccurrence(xs, key, idx[i])
    ensures forall p :: 0 <= p < n && FirstOccurrence(xs, key, p) ==> p in idx
    decreases n
  {
    if n == 0 {
      idx := [];
    } else {
      var prev := KeepFirstPositions(xs, key, n - 1);
      var r := KeepFirst(xs, key, n - 1);
      if FirstOccurrence(xs, key, n - 1) {
        idx := prev + [n - 1];
        SubsequenceSnoc(r, xs, prev, n - 1);
        assert KeepFirst(xs, key, n) == r + [xs[n - 1]];
      } else {
        idx := prev;
        assert KeepFirst(xs, key, n) == r;
      }
    }
  }

  /** Appending a later position extends a subsequence. */
  lemma SubsequenceSnoc<T>(r: seq<T>, xs: seq<T>, idx: seq<nat>, p: nat)
    requires SubsequenceAt(r, xs, idx) && p < |xs|
    requires forall i :: 0 <= i < |idx| ==> idx[i] < p
    ensures SubsequenceAt(r + [xs[p]], xs, idx + [p])
  {
  }

  /** No two kept elements share a key. */
  lemma {:induction false} KeepFirstDistinct<T, K>(xs: seq<T>, key: T -> K, n: nat)
    requires n <= |xs|
    ensures forall i, j :: 0 <= i < j < |KeepFirst(xs, key, n)| ==>
      key(KeepFirst(xs, key, n)[i]) != key(KeepFirst(xs, key, n)[j])
  {
    var r := KeepFirst(xs, key, n);
    var idx := KeepFirstPositions(xs, key, n);
    forall i, j | 0 <= i < j < |r| ensures key(r[i]) != key(r[j]) {
      assert idx[i] < idx[j];
      assert FirstOccurrence(xs, key, idx[j]);
    }
  }

  /** Every key of `xs[..n]` survives: its first occurrence is kept. */
  lemma {:induction false} KeepFirstCovers<T, K>(xs: seq<T>, key: T -> K, n: nat, p: nat)
    requires p < n <= |xs|
    ensures exists i :: 0 <= i < |KeepFirst(xs, key, n)| && key(KeepFirst(xs, key, n)[i]) == key(xs[p])
    decreases p
  {
    if FirstOccurrence(xs, key, p) {
      var idx := KeepFirstPositions(xs, key, n);
      var i :| 0 <= i < |idx| && idx[i] == p;
      assert KeepFirst(xs, key, n)[i] == xs[p];
    } else {
      var q :| 0 <= q < p && key(xs[q]) == key(xs[p]);
      KeepFirstCovers(xs, key, n, q);
    }
  }

  /** Deduplication of `xs`: a subsequence of first occurrences, keys
      pairwise distinct, and no key lost. */
  lemma DedupSpec<T, K>(xs: seq<T>, key: T -> K) returns (idx: seq<nat>)
    ensures SubsequenceAt(Dedup(xs, key), xs, idx)
    ensures forall i :: 0 <= i < |idx| ==> FirstOccurrence(xs, key, idx[i])
    ensures forall i, j :: 0 <= i < j < |Dedup(xs, key)| ==> key(Dedup(xs, key)[i]) != key(Dedup(xs, key)[j])
    ensures forall p :: 0 <= p < |xs| ==> exists i :: 0 <= i < |Dedup(xs, key)| && key(Dedup(xs, key)[i]) == key(xs[p])
  {
    idx := KeepFirstPositions(xs, key, |xs|);
    KeepFirstDistinct(xs, key, |xs|);
    var r := Dedup(xs, key);
    assert r == KeepFirst(xs, key, |xs|);
    forall p | 0 <= p < |xs|
      ensures exists i :: 0 <= i < |r| && key(r[i]) == key(xs[p])
    {
      KeepFirstCovers(xs, key, |xs|, p);
    }
  }

  /** Deduplicating a list with distinct keys changes nothing. */
  lemma {:induction false} DedupOfDistinct<T, K>(xs: seq<T>, key: T -> K, n: nat)
    requires n <= |xs|
    requires forall i, j :: 0 <= i < j < |xs| ==> key(xs[i]) != key(xs[j])
    ensures KeepFirst(xs, key, n) == xs[..n]
    decreases n
  {
    if n > 0 {
      DedupOfDistinct(xs, key, n - 1);
      assert xs[..n] == xs[..n - 1] + [xs[n - 1]];
    }
  }
}
