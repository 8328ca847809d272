/**
 * `IndexDocumentChunks`: reads a document's chunks from the chunk source and
 * adds them to the vector store, first deleting the document's old chunks when
 * asked to re-index. Modelled over the JSONL source and the in-memory store.
 */
module IndexDocumentChunks {
  import opened Wrappers
  import opened VectorStore
  import opened InMemory
  import opened JsonlSource
  import Json

  /** `IndexResult`. */
  datatype IndexResult = IndexResult(documentId: string, added: int)

  /** The source's iteration raised (a malformed line); it propagates out of `execute`. */
  datatype IndexError = MalformedChunkFile

  /** The store's contents after indexing chunks `cs` of document `d`. */
  function IndexSpec(m: ByDoc, d: string, reindex: bool, cs: seq<Chunk>): ByDoc {
    AddAll(if reindex then RemoveDoc(m, d) else m, cs)
  }

  /** Chunks of a document with no entry yet form one new entry at the end. */
  lemma {:induction false} AddAllFresh(m: ByDoc, d: string, cs: seq<Chunk>)
    requires Lookup(m, d).None? && AllOf(cs, d) && cs != []
    ensures AddAll(m, cs) == m + [(d, cs)]
  {
    var init, c := cs[..|cs| - 1], cs[|cs| - 1];
    if init == [] {
      assert cs == [c];
    } else {
      AddAllFresh(m, d, init);
      var m' := m + [(d, init)];
      assert forall i :: 0 <= i < |m| ==> m'[i] == m[i];
      assert Lookup(m', d) == Some(|m|);
      assert init + [c] == cs;
    }
  }

  /** An entry at the end is removed by cutting it off. */
  lemma RemoveLast(m: ByDoc, d: string, cs: seq<Chunk>)
    requires Lookup(m, d).None?
    ensures RemoveDoc(m + [(d, cs)], d) == m
  {
    var m' := m + [(d, cs)];
    assert Lookup(m', d) == Some(|m|);
    assert m'[..|m|] == m;
  }

  lemma RemovedIsAbsent(m: ByDoc, d: string)
    requires WellFormed(m)
    ensures Lookup(RemoveDoc(m, d), d).None?
  {
    RemoveDocEffect(m, d);
    assert ChunksOf(RemoveDoc(m, d), d) == [];
  }

  /**
   * Re-indexing leaves the document's stored chunks equal to the source's
   * chunks and every other document as it was.
   */
  lemma ReindexReplaces(m: ByDoc, d: string, cs: seq<Chunk>)
    requires WellFormed(m) && AllOf(cs, d)
    ensures WellFormed(IndexSpec(m, d, true, cs))
    ensures ChunksOf(IndexSpec(m, d, true, cs), d) == cs
    ensures forall e :: e != d ==> ChunksOf(IndexSpec(m, d, true, cs), e) == ChunksOf(m, e)
  {
    RemoveDocEffect(m, d);
    var r := RemoveDoc(m, d);
    AddAllEffect(r, cs);
    OfDocumentAll(cs, d);
    forall e | e != d ensures ChunksOf(IndexSpec(m, d, true, cs), e) == ChunksOf(m, e) {
      AddAllOthers(r, cs, e);
    }
  }

  /** Re-indexing the same chunks again changes nothing: no duplicates accumulate. */
  lemma ReindexIdempotent(m: ByDoc, d: string, cs: seq<Chunk>)
    requires WellFormed(m) && AllOf(cs, d)
    ensures IndexSpec(IndexSpec(m, d, true, cs), d, true, cs) == IndexSpec(m, d, true, cs)
  {
    var r := RemoveDoc(m, d);
    RemoveDocEffect(m, d);
    RemovedIsAbsent(m, d);
    if cs == [] {
      RemoveDocEffect(r, d);
    } else {
      AddAllFresh(r, d, cs);
      RemoveLast(r, d, cs);
    }
  }

  /** Without re-indexing nothing is deleted: the chunks are appended to what was there. */
  lemma IndexAppends(m: ByDoc, d: string, cs: seq<Chunk>)
    requires WellFormed(m) && AllOf(cs, d)
    ensures ChunksOf(IndexSpec(m, d, false, cs), d) == ChunksOf(m, d) + cs
    ensures forall e :: e != d ==> ChunksOf(IndexSpec(m, d, false, cs), e) == ChunksOf(m, e)
  {
    AddAllEffect(m, cs);
    OfDocumentAll(cs, d);
    forall e | e != d ensures ChunksOf(IndexSpec(m, d, false, cs), e) == ChunksOf(m, e) {
      AddAllOthers(m, cs, e);
    }
  }

  /**
   * A document without a chunk file adds nothing and does not fail: without
   * `reindex` the store is unchanged, with it the document's chunks are gone.
   */
  lemma MissingFileIndexesNothing(m: ByDoc, files: map<string, seq<string>>, loads: Json.Loads,
                                  d: string, reindex: bool)
    requires WellFormed(m) && FileName(d) !in files
    ensures SourceSpec(files, loads, d) == Stream([], false)
    ensures var after := IndexSpec(m, d, reindex, SourceSpec(files, loads, d).chunks);
      after == (if reindex then RemoveDoc(m, d) else m)
      && ChunksOf(after, d) == (if reindex then [] else ChunksOf(m, d))
      && forall e :: e != d ==> ChunksOf(after, e) == ChunksOf(m, e)
  {
    MissingFileIsEmpty(files, loads, d);
    RemoveDocEffect(m, d);
  }

  /**
   * Indexing a document without a chunk file into an empty store leaves every
   * search empty.
   */
  lemma EmptyIndexFindsNothing(files: map<string, seq<string>>, loads: Json.Loads, d: string, reindex: bool,
                               query: string, topK: int)
    requires FileName(d) !in files
    ensures SearchSpec(IndexSpec([], d, reindex, SourceSpec(files, loads, d).chunks), query, topK) == []
  {
    MissingFileIndexesNothing([], files, loads, d, reindex);
    assert RemoveDoc([], d) == [];
  }

  /** The source's chunks for `d` all belong to `d`. */
  lemma SourceChunksOf(files: map<string, seq<string>>, loads: Json.Loads, d: string)
    ensures AllOf(SourceSpec(files, loads, d).chunks, d)
  {
    SourceShape(files, loads, d);
  }

  /** `IndexDocumentChunks`, over a JSONL chunk source and an in-memory store. */
  class IndexDocumentChunks {
    const source: FilesystemJsonlChunkSource
    const store: InMemoryVectorStore

    constructor (source: FilesystemJsonlChunkSource, store: InMemoryVectorStore)
      ensures this.source == source && this.store == store
    {
      this.source := source;
      this.store := store;
    }

    /**
     * `execute`: with `reindex`, deletes the document's chunks first; then
     * adds what the source yields. When the source raises, the chunks it
     * yielded before are already in the store and the error propagates.
     */
    method Execute(documentId: string, reindex: bool := false) returns (r: Result<IndexResult, IndexError>)
      requires store.Valid()
      modifies store
      ensures store.Valid()
      ensures var s := SourceSpec(source.files, source.loads, documentId);
        store.byDoc == IndexSpec(old(store.byDoc), documentId, reindex, s.chunks)
        && (s.failed ==> r == Failure(MalformedChunkFile))
        && (!s.failed ==> r == Success(IndexResult(documentId, |s.chunks|)))
      ensures FileName(documentId) !in source.files ==>
        r == Success(IndexResult(documentId, 0))
        && store.byDoc == if reindex then RemoveDoc(old(store.byDoc), documentId) else old(store.byDoc)
    {
      if reindex {
        var _ := store.DeleteByDocument(documentId);
      }
      var s := source.IterChunks(documentId);
      if FileName(documentId) !in source.files {
        MissingFileIsEmpty(source.files, source.loads, documentId);
      }
      var added := store.Add(s.chunks);
      if s.failed {
        return Failure(MalformedChunkFile);
      }
      r := Success(IndexResult(documentId, added));
    }
  }
}
