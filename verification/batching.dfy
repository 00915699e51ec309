/**
 * The upload loop's cut of a record list into consecutive requests of at
 * most 2000 records: `records[i:i+2000]` for `i` in `range(0, n, 2000)`.
 */
module Batching {
  import opened Base

  /** The per-request limit the upload script uses for both layers. */
  const BatchSize: nat := 2000

  function Flatten<T>(bs: seq<seq<T>>): seq<T>
  {
    if |bs| == 0 then [] else bs[0] + Flatten(bs[1..])
  }

  lemma {:induction false} FlattenAppend<T>(bs: seq<seq<T>>, b: seq<T>)
    ensures Flatten(bs + [b]) == Flatten(bs) + b
    decreases |bs|
  {
    if |bs| == 0 {
      assert Flatten([b][1..]) == [];
    } else {
      assert (bs + [b])[1..] == bs[1..] + [b];
      FlattenAppend(bs[1..], b);
    }
  }

  /** The reference definition: the first slice of at most `BatchSize` records, then the batches of the rest. */
  function Batches<T>(xs: seq<T>): (bs: seq<seq<T>>)
    ensures |bs| == CeilDiv(|xs|, BatchSize)
    ensures forall j :: 0 <= j < |bs| ==> 0 < |bs[j]| <= BatchSize
    decreases |xs|
  {
    if |xs| == 0 then []
    else
      var m := Min(BatchSize, |xs|);
      [xs[..m]] + Batches(xs[m..])
  }

  /** Concatenating the batches in order gives back the record list: nothing dropped, duplicated or reordered. */
  lemma {:induction false} BatchesFlatten<T>(xs: seq<T>)
    ensures Flatten(Batches(xs)) == xs
    decreases |xs|
  {
    if |xs| > 0 {
      var m := Min(BatchSize, |xs|);
      BatchesFlatten(xs[m..]);
      assert Batches(xs)[1..] == Batches(xs[m..]);
      assert xs == xs[..m] + xs[m..];
    }
  }

  lemma SliceOfSuffix<T>(xs: seq<T>, m: nat, a: nat, b: nat)
    requires m <= |xs| && a <= b <= |xs| - m
    ensures xs[m..][a..b] == xs[m + a..m + b]
  {
  }

  /** Batch `j` is the slice starting at `j * BatchSize`, cut at `BatchSize` records or at the end of the list. */
  lemma {:induction false} BatchesAreSlices<T>(xs: seq<T>)
    ensures forall j :: 0 <= j < |Batches(xs)| ==>
      j * BatchSize < |xs| && Batches(xs)[j] == xs[j * BatchSize..Min(j * BatchSize + BatchSize, |xs|)]
    decreases |xs|
  {
    if |xs| > 0 {
      var m := Min(BatchSize, |xs|);
      var rest := xs[m..];
      BatchesAreSlices(rest);
      forall j | 0 <= j < |Batches(xs)|
        ensures j * BatchSize < |xs| && Batches(xs)[j] == xs[j * BatchSize..Min(j * BatchSize + BatchSize, |xs|)]
      {
        if j > 0 {
          assert Batches(xs)[j] == Batches(rest)[j - 1];
          assert m == BatchSize;
          assert (j - 1) * BatchSize + BatchSize == j * BatchSize;
          SliceOfSuffix(xs, m, (j - 1) * BatchSize, Min((j - 1) * BatchSize + BatchSize, |rest|));
        }
      }
    }
  }

  /** The script's loop: advance `i` by `BatchSize` from 0 while it is below the length, slicing one batch per step. */
  method SliceBatches<T>(records: seq<T>) returns (batches: seq<seq<T>>)
    ensures |batches| == CeilDiv(|records|, BatchSize)
    ensures forall j :: 0 <= j < |batches| ==>
      batches[j] == records[j * BatchSize..Min(j * BatchSize + BatchSize, |records|)]
    ensures Flatten(batches) == records
    ensures batches == Batches(records)
  {
    batches := [];
    var i := 0;
    while i < |records|
      invariant i == |batches| * BatchSize
      invariant i < |records| + BatchSize
      invariant forall j :: 0 <= j < |batches| ==>
        batches[j] == records[j * BatchSize..Min(j * BatchSize + BatchSize, |records|)]
      invariant Flatten(batches) == records[..Min(i, |records|)]
    {
      var batch := records[i..Min(i + BatchSize, |records|)];
      FlattenAppend(batches, batch);
      assert records[..Min(i + BatchSize, |records|)] == records[..i] + batch;
      batches := batches + [batch];
      i := i + BatchSize;
    }
    assert records[..Min(i, |records|)] == records;
    BatchesAreSlices(records);
    assert |batches| == |Batches(records)|;
  }
}
