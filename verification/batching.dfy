/** The batching loop of `startCheck`: the valid descriptors are cut into
    consecutive slices of at most ten, `validLinks.slice(i, i + 10)` for
    `i = 0, 10, 20, ...`, and the slices are probed one after another. */
module Batching {
  import opened Seqs

  const BatchSize := 10

  function Min(a: int, b: int): int {
    if a <= b then a else b
  }

  /** All the slices laid end to end. */
  function Concat<T>(ss: seq<seq<T>>): seq<T>
    decreases |ss|
  {
    if |ss| == 0 then [] else Concat(ss[..|ss| - 1]) + ss[|ss| - 1]
  }

  /** The slices the loop `for (i = 0; i < n; i += 10)` takes, in order. */
  function Batches<T>(xs: seq<T>): (r: seq<seq<T>>)
    ensures |r| == (|xs| + BatchSize - 1) / BatchSize
    ensures forall k :: 0 <= k < |r| ==> r[k] == xs[k * BatchSize..Min(k * BatchSize + BatchSize, |xs|)]
    ensures forall k :: 0 <= k < |r| ==> 0 < |r[k]| <= BatchSize
    decreases |xs|
  {
    if |xs| == 0 then []
    else
      var n := Min(BatchSize, |xs|);
      var rest := Batches(xs[n..]);
      [xs[..n]] + rest
  }

  /** Concatenating the slices gives back the valid list, in order. */
  lemma {:induction false} ConcatBatches<T>(xs: seq<T>, k: nat)
    requires k <= |Batches(xs)|
    ensures Concat(Batches(xs)[..k]) == xs[..Min(k * BatchSize, |xs|)]
    decreases k
  {
    var bs := Batches(xs);
    if k > 0 {
      ConcatBatches(xs, k - 1);
      var lo := (k - 1) * BatchSize;
      var hi := Min(k * BatchSize, |xs|);
      PrefixOfPrefix(bs, k - 1, k);
      assert Concat(bs[..k]) == Concat(bs[..k - 1]) + bs[k - 1];
      assert bs[k - 1] == xs[lo..hi];
      AdjacentSlices(xs, lo, hi);
    }
  }

  /** The whole partition concatenates to the input. */
  lemma ConcatAllBatches<T>(xs: seq<T>)
    ensures Concat(Batches(xs)) == xs
  {
    var bs := Batches(xs);
    ConcatBatches(xs, |bs|);
    assert bs[..|bs|] == bs;
  }
}
