/**
 * The batch loop of `create_vector_db` in utils/vector_db_creation.py: the aligned document,
 * metadata and id lists are cut into consecutive slices of 50 for `collection.add`.
 */
module Batching {
  // ---------------------------------------------------------------- batches

  /** One call `collection.add(documents=..., metadatas=..., ids=...)`; `batch_size` is 50. */
  datatype Batch<M> = Batch(documents: seq<string>, metadatas: seq<M>, ids: seq<string>)

  /** `s[i:j]` in Python for `0 <= i <= j`: clamped to the sequence. */
  function Slice<T>(s: seq<T>, i: nat, j: nat): (r: seq<T>)
    requires i <= j
    ensures |r| == (if j <= |s| then j - i else if i <= |s| then |s| - i else 0)
  {
    if i >= |s| then [] else if j <= |s| then s[i..j] else s[i..]
  }

  /** The batches for lists whose documents number `n`: batch `b` covers positions
      `50 * b` up to `50 * b + 50`, clamped. */
  function BatchAt<M>(documents: seq<string>, metadatas: seq<M>, ids: seq<string>, start: nat): Batch<M> {
    Batch(Slice(documents, start, start + 50), Slice(metadatas, start, start + 50),
          Slice(ids, start, start + 50))
  }

  function DocsOf<M>(batches: seq<Batch<M>>): seq<seq<string>> {
    seq(|batches|, k requires 0 <= k < |batches| => batches[k].documents)
  }

  function MetasOf<M>(batches: seq<Batch<M>>): seq<seq<M>> {
    seq(|batches|, k requires 0 <= k < |batches| => batches[k].metadatas)
  }

  function IdsOf<M>(batches: seq<Batch<M>>): seq<seq<string>> {
    seq(|batches|, k requires 0 <= k < |batches| => batches[k].ids)
  }

  /** The in-order concatenation of a list of lists. */
  function Flatten<T>(parts: seq<seq<T>>): seq<T> {
    if parts == [] then [] else Flatten(parts[..|parts| - 1]) + parts[|parts| - 1]
  }

  /** The batch loop of `create_vector_db`: `for i in range(0, len(documents), 50)`. */
  method MakeBatches<M>(documents: seq<string>, metadatas: seq<M>, ids: seq<string>)
    returns (batches: seq<Batch<M>>)
    ensures |batches| == (|documents| + 50 - 1) / 50
    ensures forall b :: 0 <= b < |batches| ==> batches[b] == BatchAt(documents, metadatas, ids, 50 * b)
    ensures forall b :: 0 <= b < |batches| ==> 1 <= |batches[b].documents| <= 50
    ensures Flatten(DocsOf(batches)) == documents
    ensures |metadatas| == |documents| ==> Flatten(MetasOf(batches)) == metadatas
    ensures |ids| == |documents| ==> Flatten(IdsOf(batches)) == ids
  {
    batches := [];
    var i := 0;
    while i < |documents|
      invariant i == 50 * |batches| <= |documents| + 49
      invariant forall b :: 0 <= b < |batches| ==> batches[b] == BatchAt(documents, metadatas, ids, 50 * b)
      invariant forall b :: 0 <= b < |batches| ==> 50 * b < |documents|
      decreases |documents| - i
    {
      batches := batches + [BatchAt(documents, metadatas, ids, i)];
      i := i + 50;
    }
    BatchesCover(documents, metadatas, ids, batches);
  }

  /** Batches that start every 50 positions and reach the end hold the lists exactly, and
      there are as many as `len(documents)` divided by 50, rounded up. */
  lemma BatchesCover<M>(documents: seq<string>, metadatas: seq<M>, ids: seq<string>, batches: seq<Batch<M>>)
    requires |documents| <= 50 * |batches| <= |documents| + 49
    requires forall b :: 0 <= b < |batches| ==> batches[b] == BatchAt(documents, metadatas, ids, 50 * b)
    ensures |batches| == (|documents| + 50 - 1) / 50
    ensures Flatten(DocsOf(batches)) == documents
    ensures |metadatas| == |documents| ==> Flatten(MetasOf(batches)) == metadatas
    ensures |ids| == |documents| ==> Flatten(IdsOf(batches)) == ids
  {
    FlattenSlices(documents, DocsOf(batches));
    FlattenSlices(metadatas, MetasOf(batches));
    FlattenSlices(ids, IdsOf(batches));
  }

  /** Consecutive slices of 50, concatenated, give back the covered prefix. */
  lemma {:induction false} FlattenSlices<T>(s: seq<T>, parts: seq<seq<T>>)
    requires forall b :: 0 <= b < |parts| ==> parts[b] == Slice(s, 50 * b, 50 * b + 50)
    ensures Flatten(parts) == Slice(s, 0, 50 * |parts|)
  {
    if parts != [] {
      var init := parts[..|parts| - 1];
      FlattenSlices(s, init);
      assert Flatten(parts) == Flatten(init) + parts[|parts| - 1];
    }
  }
}
