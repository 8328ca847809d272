/**
 * The domain's vector-store port: the `Chunk` record every backend stores and
 * returns, the `(score, chunk)` hit, and the properties every backend's
 * `similarity_search` result is meant to have.
 */
module VectorStore {
  import opened Wrappers
  import opened Json
  import Text

  /**
   * The unit of retrieval. A datatype value, so immutable like the frozen
   * dataclass; `chunkId` defaults to none and `metadata` to the empty mapping.
   */
  datatype Chunk = Chunk(
    documentId: string,
    content: string,
    chunkId: Option<string> := None,
    metadata: map<string, Json> := map[])

  /** A search result: `(score, chunk)`. */
  type Hit = (real, Chunk)

  /** The `top_k` a search uses when the caller gives none. */
  const DefaultTopK: int := 5

  /** The bounds every caller-supplied `top_k` is clamped into before a backend query. */
  const MinTopK: int := 1
  const MaxTopK: int := 50

  /** `max(1, min(50, k))`. */
  function ClampTopK(k: int): (r: int)
    ensures MinTopK <= r <= MaxTopK
    ensures MinTopK <= k <= MaxTopK ==> r == k
    ensures k < MinTopK ==> r == MinTopK
    ensures k > MaxTopK ==> r == MaxTopK
  {
    if k < MinTopK then MinTopK else if k > MaxTopK then MaxTopK else k
  }

  /** The synthesised chunk id `"{document_id}:{index}"`. */
  function ChunkIdFor(documentId: string, index: nat): (id: string)
    ensures Text.StartsWith(id, documentId + ":")
  {
    documentId + ":" + Text.NatToString(index)
  }

  /** Within one document, distinct positions give distinct synthesised ids. */
  lemma ChunkIdForInjective(documentId: string, i: nat, j: nat)
    requires i != j
    ensures ChunkIdFor(documentId, i) != ChunkIdFor(documentId, j)
  {
    Text.NatToStringInjective(i, j);
    if ChunkIdFor(documentId, i) == ChunkIdFor(documentId, j) {
      Text.PrefixCancel(documentId + ":", Text.NatToString(i), Text.NatToString(j));
    }
  }

  /** The score of a hit. */
  function Score(h: Hit): real {
    h.0
  }

  /** Hits in non-increasing score order. */
  predicate Descending(hits: seq<Hit>) {
    forall i, j :: 0 <= i < j < |hits| ==> hits[i].0 >= hits[j].0
  }

  /** Every score lies in the closed interval from 0 to 1. */
  predicate Normalised(hits: seq<Hit>) {
    forall i :: 0 <= i < |hits| ==> 0.0 <= hits[i].0 <= 1.0
  }

  /** What the port promises of a search result: normalised scores, best first. */
  predicate IsRanking(hits: seq<Hit>) {
    Descending(hits) && Normalised(hits)
  }
}
