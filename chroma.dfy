/**
 * The logic `ChromaVectorStore` owns around its chromadb collection: the
 * records it builds for `upsert`, the guards and the distance-to-score mapping
 * of `similarity_search`, and the count `delete_by_document` reports. The
 * collection's contents are a map from id to stored record; its
 * nearest-neighbour query is a function given to the store.
 */
module Chroma {
  import opened Wrappers
  import opened Json
  import opened Text
  import opened VectorStore
  import opened StableSort

  const DocumentIdKey: string := "document_id"
  const ChunkIdKey: string := "chunk_id"

  /** The two metadata keys the store sets itself. */
  const Reserved: set<string> := {DocumentIdKey, ChunkIdKey}

  /** What the collection keeps under one id: the document text and its metadata. */
  datatype StoredRecord = StoredRecord(document: string, metadata: map<string, Json>)

  /** A collection call that changes its contents. */
  datatype Call = UpsertCall(ids: seq<string>) | DeleteCall(documentId: string)

  /** A distance as returned by the collection: a number, or something `float()` rejects. */
  datatype Distance = Finite(d: real) | Unparsable

  /**
   * The `query` response, one column per `include` field; a column is absent,
   * or a list with one inner list per query text.
   */
  datatype QueryResponse = QueryResponse(
    documents: Option<seq<seq<string>>>,
    metadatas: Option<seq<seq<map<string, Json>>>>,
    distances: Option<seq<seq<Distance>>>)

  /**
   * The collection's query: contents, query text and `n_results` to a
   * response. That a response holds at most `n_results` rows is chromadb's
   * promise; the model places no constraint on the backend.
   */
  type Backend = (map<string, StoredRecord>, string, int) -> QueryResponse

  // ---------------------------------------------------------------------------
  // add

  /** A `chunk_id` that Python treats as true: present and non-empty. */
  predicate HasOwnId(ch: Chunk) {
    ch.chunkId.Some? && ch.chunkId.value != ""
  }

  /** `ch.chunk_id or f"{ch.document_id}:{idx}"`. */
  function ResolveId(ch: Chunk, idx: nat): string {
    if HasOwnId(ch) then ch.chunkId.value else ChunkIdFor(ch.documentId, idx)
  }

  /**
   * The stored metadata: `document_id` and `chunk_id` set by the store, then
   * every chunk metadata entry whose key is not one of those two.
   */
  function StoredMetadata(ch: Chunk, cid: string): (r: map<string, Json>)
    ensures r.Keys == ch.metadata.Keys + Reserved
    ensures r[DocumentIdKey] == JString(ch.documentId) && r[ChunkIdKey] == JString(cid)
    ensures forall k :: k in ch.metadata && k !in Reserved ==> r[k] == ch.metadata[k]
  {
    (ch.metadata - Reserved)[DocumentIdKey := JString(ch.documentId)][ChunkIdKey := JString(cid)]
  }

  /** The `(id, record)` pairs `add` sends to `upsert`, in input order. */
  function Batch(chunks: seq<Chunk>): seq<(string, StoredRecord)> {
    seq(|chunks|, i requires 0 <= i < |chunks| =>
      (ResolveId(chunks[i], i), StoredRecord(chunks[i].content, StoredMetadata(chunks[i], ResolveId(chunks[i], i)))))
  }

  /** The ids of a batch. */
  function IdsOf(batch: seq<(string, StoredRecord)>): seq<string> {
    seq(|batch|, i requires 0 <= i < |batch| => batch[i].0)
  }

  /** No id occurs twice. */
  predicate Distinct(ids: seq<string>) {
    forall i, j :: 0 <= i < j < |ids| ==> ids[i] != ids[j]
  }

  /** The collection after `upsert`: each pair written in turn, a later one replacing an earlier. */
  function Upsert(records: map<string, StoredRecord>, batch: seq<(string, StoredRecord)>): map<string, StoredRecord> {
    if batch == [] then records
    else Upsert(records, batch[..|batch| - 1])[batch[|batch| - 1].0 := batch[|batch| - 1].1]
  }

  lemma {:induction false} UpsertKeys(records: map<string, StoredRecord>, batch: seq<(string, StoredRecord)>)
    ensures Upsert(records, batch).Keys == records.Keys + set i | 0 <= i < |batch| :: batch[i].0
  {
    if batch != [] {
      var init := batch[..|batch| - 1];
      UpsertKeys(records, init);
      assert forall i :: 0 <= i < |init| ==> init[i] == batch[i];
      assert (set i | 0 <= i < |batch| :: batch[i].0)
          == (set i | 0 <= i < |init| :: init[i].0) + {batch[|batch| - 1].0};
    }
  }

  lemma {:induction false} UpsertUntouched(records: map<string, StoredRecord>, batch: seq<(string, StoredRecord)>, id: string)
    requires id in records && forall i :: 0 <= i < |batch| ==> batch[i].0 != id
    ensures id in Upsert(records, batch) && Upsert(records, batch)[id] == records[id]
  {
    if batch != [] {
      var init := batch[..|batch| - 1];
      assert forall i :: 0 <= i < |init| ==> init[i] == batch[i];
      UpsertUntouched(records, init, id);
    }
  }

  /** Dropping the last pair keeps the ids distinct, and the last id is new. */
  lemma DistinctInit(batch: seq<(string, StoredRecord)>)
    requires batch != [] && Distinct(IdsOf(batch))
    ensures Distinct(IdsOf(batch[..|batch| - 1]))
    ensures forall i :: 0 <= i < |batch| - 1 ==> batch[i].0 != batch[|batch| - 1].0
  {
    var init := batch[..|batch| - 1];
    forall i, j | 0 <= i < j < |init| ensures IdsOf(init)[i] != IdsOf(init)[j] {
      assert IdsOf(batch)[i] == init[i].0 && IdsOf(batch)[j] == init[j].0;
    }
    forall i | 0 <= i < |init| ensures batch[i].0 != batch[|batch| - 1].0 {
      assert IdsOf(batch)[i] == batch[i].0;
      assert IdsOf(batch)[|batch| - 1] == batch[|batch| - 1].0;
    }
  }

  lemma {:induction false} UpsertOwn(records: map<string, StoredRecord>, batch: seq<(string, StoredRecord)>, i: nat)
    requires Distinct(IdsOf(batch)) && i < |batch|
    ensures batch[i].0 in Upsert(records, batch) && Upsert(records, batch)[batch[i].0] == batch[i].1
  {
    var init := batch[..|batch| - 1];
    if i < |init| {
      DistinctInit(batch);
      assert init[i] == batch[i];
      UpsertOwn(records, init, i);
    }
  }

  /**
   * `upsert` writes exactly the batch's ids, leaving every other record as it
   * was; with distinct ids each one holds its own record afterwards.
   */
  lemma UpsertEffect(records: map<string, StoredRecord>, batch: seq<(string, StoredRecord)>)
    ensures Upsert(records, batch).Keys == records.Keys + set i | 0 <= i < |batch| :: batch[i].0
    ensures forall id :: id in records && (forall i :: 0 <= i < |batch| ==> batch[i].0 != id) ==>
      Upsert(records, batch)[id] == records[id]
    ensures Distinct(IdsOf(batch)) ==> forall i :: 0 <= i < |batch| ==> Upsert(records, batch)[batch[i].0] == batch[i].1
  {
    UpsertKeys(records, batch);
    forall id | id in records && (forall i :: 0 <= i < |batch| ==> batch[i].0 != id)
      ensures Upsert(records, batch)[id] == records[id]
    {
      UpsertUntouched(records, batch, id);
    }
    if Distinct(IdsOf(batch)) {
      forall i | 0 <= i < |batch| ensures Upsert(records, batch)[batch[i].0] == batch[i].1 {
        UpsertOwn(records, batch, i);
      }
    }
  }

  /**
   * Chunks of one document that carry no id of their own get the distinct ids
   * `"{document_id}:0"`, `"{document_id}:1"`, ... in input order.
   */
  lemma SynthesisedIdsDistinct(chunks: seq<Chunk>, documentId: string)
    requires forall i :: 0 <= i < |chunks| ==> chunks[i].documentId == documentId && !HasOwnId(chunks[i])
    ensures forall i :: 0 <= i < |chunks| ==> IdsOf(Batch(chunks))[i] == ChunkIdFor(documentId, i)
    ensures Distinct(IdsOf(Batch(chunks)))
  {
    var ids := IdsOf(Batch(chunks));
    forall i, j | 0 <= i < j < |ids| ensures ids[i] != ids[j] {
      ChunkIdForInjective(documentId, i, j);
    }
  }

  // ---------------------------------------------------------------------------
  // similarity_search

  /** `max(0.0, d)`, with a distance `float()` rejects counted as 0. */
  function Clipped(dist: Distance): real {
    match dist
    case Unparsable => 0.0
    case Finite(d) => if d > 0.0 then d else 0.0
  }

  /** `1.0 / (1.0 + max(0.0, d))`. */
  function ScoreOf(dist: Distance): real {
    1.0 / (1.0 + Clipped(dist))
  }

  /** The score lies in `(0, 1]`; it is 1 for a distance of at most 0 or one that does not parse. */
  lemma ScoreBounds(dist: Distance)
    ensures 0.0 < ScoreOf(dist) <= 1.0
    ensures (dist.Unparsable? || dist.d <= 0.0) ==> ScoreOf(dist) == 1.0
  {
    var c := Clipped(dist);
    assert 1.0 / (1.0 + c) * (1.0 + c) == 1.0;
  }

  /** A greater distance never gives a greater score. */
  lemma ScoreNonIncreasing(d1: real, d2: real)
    requires d1 <= d2
    ensures ScoreOf(Finite(d2)) <= ScoreOf(Finite(d1))
  {
    var a, b := 1.0 + Clipped(Finite(d1)), 1.0 + Clipped(Finite(d2));
    assert 1.0 <= a <= b;
    assert 1.0 / b <= 1.0 / a by {
      assert 1.0 / a * a == 1.0 && 1.0 / b * b == 1.0;
      assert (1.0 / b) * a <= (1.0 / b) * b;
    }
  }

  /** `(res.get(column) or [[]])[0]`: the first query's list, or nothing. */
  function FirstOf<T>(column: Option<seq<seq<T>>>): seq<T> {
    match column
    case None => []
    case Some(lists) => if lists == [] then [] else lists[0]
  }

  /** `str(meta.get("document_id", ""))`. */
  function DocumentIdOf(meta: map<string, Json>): string {
    if DocumentIdKey in meta then Str(meta[DocumentIdKey]) else ""
  }

  /** `str(meta.get("chunk_id"))` when that is not `None`. */
  function ChunkIdOf(meta: map<string, Json>): Option<string> {
    if ChunkIdKey in meta && meta[ChunkIdKey] != JNull then Some(Str(meta[ChunkIdKey])) else None
  }

  /** The chunk rebuilt from one result row. */
  function ChunkOfRow(doc: string, meta: map<string, Json>): Chunk {
    Chunk(DocumentIdOf(meta), doc, ChunkIdOf(meta), meta - Reserved)
  }

  /**
   * A stored record comes back as the chunk it was built from, with the
   * resolved id as its `chunk_id` and without the chunk metadata keys that
   * collided with the two reserved ones.
   */
  lemma MetadataRoundTrip(ch: Chunk, idx: nat)
    ensures var cid := ResolveId(ch, idx);
      ChunkOfRow(ch.content, StoredMetadata(ch, cid))
        == Chunk(ch.documentId, ch.content, Some(cid), ch.metadata - Reserved)
  {
    var cid := ResolveId(ch, idx);
    var meta := StoredMetadata(ch, cid);
    assert meta - Reserved == ch.metadata - Reserved;
  }

  /** A chunk with an id of its own and no reserved metadata keys comes back unchanged. */
  lemma ChunkRoundTrip(ch: Chunk, idx: nat)
    requires HasOwnId(ch) && ch.metadata.Keys !! Reserved
    ensures ChunkOfRow(ch.content, StoredMetadata(ch, ResolveId(ch, idx))) == ch
  {
    MetadataRoundTrip(ch, idx);
    assert ch.metadata - Reserved == ch.metadata;
  }

  /** The result row `i` of the zipped columns. */
  function RowHit(docs: seq<string>, metas: seq<map<string, Json>>, dists: seq<Distance>, i: nat): Hit
    requires i < |docs| && i < |metas| && i < |dists|
  {
    (ScoreOf(dists[i]), ChunkOfRow(docs[i], metas[i]))
  }

  /** `zip(docs, metas, dists)`'s length: the shortest column's. */
  function ZipLength(a: nat, b: nat, c: nat): (n: nat)
    ensures n <= a && n <= b && n <= c && (n == a || n == b || n == c)
  {
    if a <= b && a <= c then a else if b <= c then b else c
  }

  /** The unsorted results: one hit per row of the zipped columns. */
  function Rows(res: QueryResponse): seq<Hit> {
    var docs, metas, dists := FirstOf(res.documents), FirstOf(res.metadatas), FirstOf(res.distances);
    seq(ZipLength(|docs|, |metas|, |dists|), i requires 0 <= i < ZipLength(|docs|, |metas|, |dists|) =>
      RowHit(docs, metas, dists, i))
  }

  /** What `similarity_search(query, top_k)` returns when the collection holds `records`. */
  function SearchSpec(records: map<string, StoredRecord>, backend: Backend, query: string, topK: int): seq<Hit> {
    if !HasVisible(query) then []
    else SortDesc(Rows(backend(records, query, ClampTopK(topK))), Score)
  }

  lemma RowsNormalised(res: QueryResponse)
    ensures Normalised(Rows(res))
    ensures forall i :: 0 <= i < |Rows(res)| ==> 0.0 < Rows(res)[i].0
  {
    var docs, metas, dists := FirstOf(res.documents), FirstOf(res.metadatas), FirstOf(res.distances);
    forall i | 0 <= i < |Rows(res)| ensures 0.0 < Rows(res)[i].0 <= 1.0 {
      ScoreBounds(dists[i]);
    }
  }

  /**
   * The result ranks the response rows best first with scores in `(0, 1]`:
   * a rearrangement of the rows, with ties in response order; and it comes
   * from a query with `n_results` clamped into `[1, 50]`.
   */
  lemma SearchRanking(records: map<string, StoredRecord>, backend: Backend, query: string, topK: int)
    requires HasVisible(query)
    ensures var res := backend(records, query, ClampTopK(topK));
      var r := SearchSpec(records, backend, query, topK);
      IsRanking(r) && multiset(r) == multiset(Rows(res))
      && forall k :: WithKey(r, Score, k) == WithKey(Rows(res), Score, k)
  {
    var rows := Rows(backend(records, query, ClampTopK(topK)));
    var r := SortDesc(rows, Score);
    RowsNormalised(backend(records, query, ClampTopK(topK)));
    SortDescPermutes(rows, Score);
    SortDescSorted(rows, Score);
    forall i | 0 <= i < |r| ensures 0.0 <= r[i].0 <= 1.0 {
      assert r[i] in multiset(rows);
      var j :| 0 <= j < |rows| && rows[j] == r[i];
    }
    forall i, j | 0 <= i < j < |r| ensures r[i].0 >= r[j].0 {
      assert Score(r[i]) >= Score(r[j]);
    }
    forall k ensures WithKey(r, Score, k) == WithKey(rows, Score, k) {
      SortDescStable(rows, Score, k);
    }
  }

  /** A blank query returns nothing, before the collection is consulted. */
  lemma SearchBlankQuery(records: map<string, StoredRecord>, backend: Backend, query: string, topK: int)
    requires !HasVisible(query)
    ensures SearchSpec(records, backend, query, topK) == []
  {
  }

  /** Any `top_k` behaves as its clamped value. */
  lemma SearchClampsTopK(records: map<string, StoredRecord>, backend: Backend, query: string, topK: int)
    ensures SearchSpec(records, backend, query, topK) == SearchSpec(records, backend, query, ClampTopK(topK))
  {
    assert ClampTopK(ClampTopK(topK)) == ClampTopK(topK);
  }

  // ---------------------------------------------------------------------------
  // delete_by_document

  /** The ids `get(where={"document_id": d})` returns. */
  function Matching(records: map<string, StoredRecord>, d: string): set<string> {
    set id | id in records && DocumentIdKey in records[id].metadata
                           && records[id].metadata[DocumentIdKey] == JString(d)
  }

  /**
   * After a delete no record of `d` is left, and every record of another
   * document, or with no `document_id`, is kept unchanged.
   */
  lemma DeleteEffect(records: map<string, StoredRecord>, d: string)
    ensures Matching(records - Matching(records, d), d) == {}
    ensures forall id :: id in records && id !in Matching(records, d) ==>
      id in records - Matching(records, d) && (records - Matching(records, d))[id] == records[id]
  {
  }

  /** Every record an `add` stores is found by a delete of its chunk's document. */
  lemma AddedRecordsMatch(records: map<string, StoredRecord>, chunks: seq<Chunk>, i: nat)
    requires i < |chunks| && Distinct(IdsOf(Batch(chunks)))
    ensures Batch(chunks)[i].0 in Matching(Upsert(records, Batch(chunks)), chunks[i].documentId)
  {
    UpsertEffect(records, Batch(chunks));
    assert Batch(chunks)[i].0 in set j | 0 <= j < |Batch(chunks)| :: Batch(chunks)[j].0;
  }

  lemma RowsStep(res: QueryResponse, i: nat)
    requires i < |Rows(res)|
    ensures Rows(res)[..i + 1] == Rows(res)[..i] + [Rows(res)[i]]
  {
  }

  /** The loop over `zip(docs, metas, dists)`: one hit per row, in response order. */
  method BuildRows(res: QueryResponse) returns (results: seq<Hit>)
    ensures results == Rows(res)
  {
    var docs, metas, dists := FirstOf(res.documents), FirstOf(res.metadatas), FirstOf(res.distances);
    var n := ZipLength(|docs|, |metas|, |dists|);
    results := [];
    for i := 0 to n
      invariant results == Rows(res)[..i]
    {
      var d := match dists[i] case Unparsable => 0.0 case Finite(x) => x;
      var score := 1.0 / (1.0 + (if d > 0.0 then d else 0.0));
      assert score == ScoreOf(dists[i]);
      RowsStep(res, i);
      results := results + [(score, ChunkOfRow(docs[i], metas[i]))];
    }
    assert Rows(res)[..n] == Rows(res);
  }

  // ---------------------------------------------------------------------------
  // The store

  /** `ChromaVectorStore`, over its collection's contents and the changes it has asked for. */
  class ChromaVectorStore {
    var records: map<string, StoredRecord>
    var log: seq<Call>
    const backend: Backend

    constructor (backend: Backend)
      ensures records == map[] && log == [] && this.backend == backend
    {
      records := map[];
      log := [];
      this.backend := backend;
    }

    /**
     * `add`: builds one record per chunk and upserts them in one call; no
     * chunks means no call. Returns the number of chunks given.
     */
    method Add(chunks: seq<Chunk>) returns (count: int)
      modifies this
      ensures count == |chunks|
      ensures chunks == [] ==> records == old(records) && log == old(log)
      ensures chunks != [] ==>
        records == Upsert(old(records), Batch(chunks))
        && log == old(log) + [UpsertCall(IdsOf(Batch(chunks)))]
    {
      var ids: seq<string> := [];
      var documents: seq<string> := [];
      var metadatas: seq<map<string, Json>> := [];
      for idx := 0 to |chunks|
        invariant |ids| == idx && |documents| == idx && |metadatas| == idx
        invariant forall k :: 0 <= k < idx ==>
          Batch(chunks)[k] == (ids[k], StoredRecord(documents[k], metadatas[k]))
      {
        var ch := chunks[idx];
        var cid := if ch.chunkId.Some? && ch.chunkId.value != "" then ch.chunkId.value
                   else ch.documentId + ":" + NatToString(idx);
        ids := ids + [cid];
        documents := documents + [ch.content];
        var meta := map[DocumentIdKey := JString(ch.documentId), ChunkIdKey := JString(cid)];
        meta := meta + (ch.metadata - meta.Keys);
        assert meta == StoredMetadata(ch, cid);
        metadatas := metadatas + [meta];
      }
      if ids == [] {
        return 0;
      }
      var batch := seq(|ids|, k requires 0 <= k < |ids| => (ids[k], StoredRecord(documents[k], metadatas[k])));
      assert batch == Batch(chunks);
      assert IdsOf(batch) == ids;
      records := Upsert(records, batch);
      log := log + [UpsertCall(ids)];
      count := |ids|;
    }

    /**
     * `similarity_search`: clamps `top_k`, returns nothing for a blank
     * query, otherwise turns each response row into a hit and sorts the hits
     * best first.
     */
    method SimilaritySearch(query: string, topK: int := DefaultTopK) returns (hits: seq<Hit>)
      ensures hits == SearchSpec(records, backend, query, topK)
    {
      var k := ClampTopK(topK);
      if Strip(query) == [] {
        return [];
      }
      var res := backend(records, query, k);
      var results := BuildRows(res);
      hits := SortList(results, Score);
    }

    /**
     * `delete_by_document`: counts the records of `d` and deletes them, with
     * a delete call only when there is something to delete.
     */
    method DeleteByDocument(d: string) returns (removed: int)
      modifies this
      ensures removed == |Matching(old(records), d)|
      ensures records == old(records) - Matching(old(records), d)
      ensures log == old(log) + (if removed > 0 then [DeleteCall(d)] else [])
    {
      var ids := Matching(records, d);
      removed := |ids|;
      if removed > 0 {
        records := records - ids;
        log := log + [DeleteCall(d)];
      } else {
        assert ids == {};
        assert records - ids == records;
      }
    }
  }
}
