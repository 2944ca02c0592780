/**
 * `create_vector_db` of `IstanbulNeighborhoodVectorDB` in utils/vector_db_creation.py,
 * without the vector store: the per-row loop that builds the aligned document, metadata
 * and id lists, numbering repeated ids, and the batches handed to `collection.add`.
 */
module IndexBuild {
  import opened Text
  import opened DataModel
  import opened IndexText
  import opened Batching

  // ---------------------------------------------------------------- ids

  /** `f"{row['İlçe']}_{row['Mahalle']}".replace(' ', '_')`. */
  function BaseIdOf(r: Row): string {
    BaseId(r.ilce, r.mahalle)
  }

  /** How often `x` occurs in `s`. */
  function Count(s: seq<string>, x: string): nat {
    multiset(s)[x]
  }

  /** The id given to the `i`-th base: the base itself the first time, and the base followed
      by `_k` for its `k`-th repeat. */
  function DocId(bases: seq<string>, i: int): string
    requires 0 <= i < |bases|
  {
    var k := Count(bases[..i], bases[i]);
    if k == 0 then bases[i] else bases[i] + "_" + NatStr(k)
  }

  /** The embedding texts of `rows`, in order. */
  function Documents(rows: seq<Row>, render: Num -> string): (docs: seq<string>)
    ensures |docs| == |rows|
  {
    seq(|rows|, i requires 0 <= i < |rows| => EmbeddingText(rows[i], render))
  }

  /** The metadata of `rows`, in order. */
  function Metadatas(rows: seq<Row>): (metas: seq<Metadata>)
    ensures |metas| == |rows|
  {
    seq(|rows|, i requires 0 <= i < |rows| => MetadataOf(rows[i]))
  }

  /** The ids of the bases, in order. */
  function DocIds(bases: seq<string>): (ids: seq<string>)
    ensures |ids| == |bases|
  {
    seq(|bases|, i requires 0 <= i < |bases| => DocId(bases, i))
  }

  /** The records `create_vector_db` prepares from the table: the embedding text, the
      metadata and the id of each row, in table order. */
  method PrepareRecords(rows: seq<Row>, render: Num -> string)
    returns (documents: seq<string>, metadatas: seq<Metadata>, ids: seq<string>)
    ensures documents == Documents(rows, render) && metadatas == Metadatas(rows)
    ensures ids == DocIds(BaseIds(rows))
  {
    documents, metadatas, ids := [], [], [];
    var idCounter: map<string, nat> := map[];
    ghost var bases := BaseIds(rows);
    for i := 0 to |rows|
      invariant documents == Documents(rows, render)[..i] && metadatas == Metadatas(rows)[..i]
      invariant ids == DocIds(bases)[..i]
      invariant Counts(idCounter, bases[..i])
    {
      documents := AddDocument(documents, rows, i, render);
      metadatas := AddMetadata(metadatas, rows, i);
      idCounter, ids := AddId(idCounter, ids, rows, bases, i);
    }
    assert Documents(rows, render)[..|rows|] == Documents(rows, render);
    assert Metadatas(rows)[..|rows|] == Metadatas(rows);
    assert DocIds(bases)[..|rows|] == DocIds(bases);
  }

  /** `doc_text = self.create_text_for_embedding(row)`, appended to `documents`. */
  method AddDocument(documents: seq<string>, rows: seq<Row>, i: nat, render: Num -> string)
    returns (documents': seq<string>)
    requires i < |rows| && documents == Documents(rows, render)[..i]
    ensures documents' == Documents(rows, render)[..i + 1]
  {
    var docText := CreateTextForEmbedding(rows[i], render);
    documents' := documents + [docText];
    assert Documents(rows, render)[..i + 1] == Documents(rows, render)[..i] + [Documents(rows, render)[i]];
  }

  /** `metadata = self.create_metadata(row)`, appended to `metadatas`. */
  method AddMetadata(metadatas: seq<Metadata>, rows: seq<Row>, i: nat)
    returns (metadatas': seq<Metadata>)
    requires i < |rows| && metadatas == Metadatas(rows)[..i]
    ensures metadatas' == Metadatas(rows)[..i + 1]
  {
    var metadata := CreateMetadata(rows[i]);
    metadatas' := metadatas + [metadata];
    assert Metadatas(rows)[..i + 1] == Metadatas(rows)[..i] + [Metadatas(rows)[i]];
  }

  /** The base id of the row, made unique through `id_counter`, appended to `ids`. */
  method AddId(idCounter: map<string, nat>, ids: seq<string>, rows: seq<Row>, ghost bases: seq<string>, i: nat)
    returns (counter: map<string, nat>, ids': seq<string>)
    requires i < |rows| && bases == BaseIds(rows)
    requires ids == DocIds(bases)[..i] && Counts(idCounter, bases[..i])
    ensures ids' == DocIds(bases)[..i + 1] && Counts(counter, bases[..i + 1])
  {
    var docId;
    counter, docId := NextId(idCounter, BaseId(rows[i].ilce, rows[i].mahalle), bases, i);
    ids' := ids + [docId];
    assert DocIds(bases)[..i + 1] == DocIds(bases)[..i] + [DocIds(bases)[i]];
  }

  /** `id_counter` after the bases `seen`: a base is a key once it has occurred, and its
      value is one less than the number of its occurrences. */
  ghost predicate Counts(counter: map<string, nat>, seen: seq<string>) {
    forall b :: (b in counter <==> Count(seen, b) > 0) && (b in counter ==> counter[b] + 1 == Count(seen, b))
  }

  /** One step of the id loop of `create_vector_db` for the `i`-th base id. */
  method NextId(idCounter: map<string, nat>, baseId: string, ghost bases: seq<string>, ghost i: int)
    returns (counter: map<string, nat>, docId: string)
    requires 0 <= i < |bases| && baseId == bases[i]
    requires Counts(idCounter, bases[..i])
    ensures Counts(counter, bases[..i + 1])
    ensures docId == DocId(bases, i)
  {
    assert bases[..i + 1] == bases[..i] + [baseId];
    if baseId in idCounter {
      counter := idCounter[baseId := idCounter[baseId] + 1];
      docId := baseId + "_" + NatStr(counter[baseId]);
    } else {
      counter := idCounter[baseId := 0];
      docId := baseId;
    }
  }

  function BaseIds(rows: seq<Row>): (bases: seq<string>)
    ensures |bases| == |rows| && forall i :: 0 <= i < |rows| ==> bases[i] == BaseIdOf(rows[i])
  {
    seq(|rows|, i requires 0 <= i < |rows| => BaseIdOf(rows[i]))
  }

  /** The first occurrence of a base id keeps it unchanged, and in general every id begins
      with its base. */
  lemma DocIdKeepsBase(bases: seq<string>, i: int)
    requires 0 <= i < |bases|
    ensures bases[i] !in bases[..i] ==> DocId(bases, i) == bases[i]
    ensures bases[i] <= DocId(bases, i)
  {
  }

  /** Rows with the same base id get different ids. */
  lemma DocIdsDistinctWithinBase(bases: seq<string>, i: int, j: int)
    requires 0 <= i < j < |bases| && bases[i] == bases[j]
    ensures DocId(bases, i) != DocId(bases, j)
  {
    var b := bases[i];
    var ki, kj := Count(bases[..i], b), Count(bases[..j], b);
    assert bases[..j] == bases[..i] + bases[i..j];
    assert bases[i..j] == [b] + bases[i + 1..j];
    assert kj >= ki + 1;
    if ki == 0 {
      assert |DocId(bases, j)| > |b|;
    } else {
      var si, sj := NatStr(ki), NatStr(kj);
      NatStrInjective(ki, kj);
      assert DocId(bases, i)[|b| + 1..] == si;
      assert DocId(bases, j)[|b| + 1..] == sj;
    }
  }

  /** Across different base ids, suffixing can collide: two rows "b" in district "a" and a
      row "b_1" in "a" all end up with id "a_b_1" for the second and third rows. */
  lemma DocIdsCanCollide()
    ensures var bases := ["a_b", "a_b", "a_b_1"];
      DocId(bases, 1) == DocId(bases, 2) == "a_b_1"
  {
    var bases := ["a_b", "a_b", "a_b_1"];
    assert bases[..1] == ["a_b"];
    assert multiset(bases[..1])["a_b"] == 1;
    assert multiset(bases[..2])["a_b_1"] == 0;
  }

  /** `create_vector_db` without the index: the batches handed to `collection.add`. Together
      they hold, row by row and in table order, the embedding text, the metadata and the id. */
  method CreateVectorDb(rows: seq<Row>, render: Num -> string) returns (batches: seq<Batch<Metadata>>)
    ensures forall b :: 0 <= b < |batches| ==> 1 <= |batches[b].documents| <= 50
    ensures forall b :: 0 <= b < |batches| ==>
      |batches[b].documents| == |batches[b].metadatas| == |batches[b].ids|
    ensures Flatten(DocsOf(batches)) == Documents(rows, render)
    ensures Flatten(MetasOf(batches)) == Metadatas(rows)
    ensures Flatten(IdsOf(batches)) == DocIds(BaseIds(rows))
  {
    var documents, metadatas, ids := PrepareRecords(rows, render);
    batches := MakeBatches(documents, metadatas, ids);
  }
}
