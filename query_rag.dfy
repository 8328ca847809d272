/**
 * `QueryRAG`: the retrieval use case. It trims the question, clamps `top_k`,
 * asks the vector store once and copies each hit into a `RetrievedChunk`.
 * The store's `similarity_search` is a function given by the caller.
 */
module QueryRag {
  import opened Wrappers
  import opened Text
  import opened Json
  import opened VectorStore
  import InMemory

  /** `QueryRAGInput`; a missing question stands for Python's `None`. */
  datatype QueryRAGInput = QueryRAGInput(question: Option<string>, topK: int := DefaultTopK)

  /** `RetrievedChunk`: one hit as the application sees it. */
  datatype RetrievedChunk = RetrievedChunk(
    score: real,
    documentId: string,
    content: string,
    chunkId: Option<string>,
    metadata: map<string, Json>)

  /** `QueryRAGOutput`. */
  datatype QueryRAGOutput = QueryRAGOutput(hits: seq<RetrievedChunk>)

  /** A store's `similarity_search(query, top_k)`. */
  type Search = (string, int) -> seq<Hit>

  /** `inp.question or ""`. */
  function QuestionText(inp: QueryRAGInput): string {
    match inp.question
    case None => ""
    case Some(q) => q
  }

  /** `hits` carries the store's results one for one, in their order, every field unchanged. */
  predicate Mirrors(hits: seq<RetrievedChunk>, results: seq<Hit>) {
    |hits| == |results|
    && forall i :: 0 <= i < |hits| ==>
         var (score, c) := results[i];
         hits[i] == RetrievedChunk(score, c.documentId, c.content, c.chunkId, c.metadata)
  }

  function ToRetrieved(h: Hit): RetrievedChunk {
    RetrievedChunk(h.0, h.1.documentId, h.1.content, h.1.chunkId, h.1.metadata)
  }

  /**
   * `QueryRAG.execute`. A blank question answers with no hits and leaves the
   * store alone; otherwise the store is asked once, with the trimmed question
   * and `top_k` clamped into the accepted range.
   */
  function Execute(inp: QueryRAGInput, search: Search): (out: QueryRAGOutput)
    ensures !HasVisible(QuestionText(inp)) ==> out.hits == []
    ensures HasVisible(QuestionText(inp)) ==>
      Mirrors(out.hits, search(Strip(QuestionText(inp)), ClampTopK(inp.topK)))
  {
    var q := Strip(QuestionText(inp));
    if q == [] then QueryRAGOutput([])
    else
      var results := search(q, ClampTopK(inp.topK));
      QueryRAGOutput(seq(|results|, i requires 0 <= i < |results| => ToRetrieved(results[i])))
  }

  /** A blank question never reaches the store: any store gives the same, empty, answer. */
  lemma BlankSkipsStore(inp: QueryRAGInput, s1: Search, s2: Search)
    requires !HasVisible(QuestionText(inp))
    ensures Execute(inp, s1) == Execute(inp, s2) == QueryRAGOutput([])
  {
  }

  /**
   * The answer depends on the store only through the one call with the
   * trimmed question and the clamped `top_k`.
   */
  lemma OneStoreCall(inp: QueryRAGInput, s1: Search, s2: Search)
    requires s1(Strip(QuestionText(inp)), ClampTopK(inp.topK)) == s2(Strip(QuestionText(inp)), ClampTopK(inp.topK))
    ensures Execute(inp, s1) == Execute(inp, s2)
  {
  }

  /** Surrounding whitespace in the question changes nothing. */
  lemma TrimmedQuestion(q: string, topK: int, search: Search)
    ensures Execute(QueryRAGInput(Some(q), topK), search) == Execute(QueryRAGInput(Some(Strip(q)), topK), search)
  {
    StripIdempotent(q);
    HasStrippedVisible(q);
  }

  lemma HasStrippedVisible(q: string)
    ensures HasVisible(Strip(q)) <==> HasVisible(q)
  {
    StripIdempotent(q);
  }

  /** The scores of the hits, in order. */
  predicate RankedHits(hits: seq<RetrievedChunk>) {
    (forall i, j :: 0 <= i < j < |hits| ==> hits[i].score >= hits[j].score)
    && forall i :: 0 <= i < |hits| ==> 0.0 <= hits[i].score <= 1.0
  }

  /** A store that answers with a ranking gives ranked hits. */
  lemma RankingCarriesOver(inp: QueryRAGInput, search: Search)
    requires IsRanking(search(Strip(QuestionText(inp)), ClampTopK(inp.topK)))
    ensures RankedHits(Execute(inp, search).hits)
  {
  }

  /** `top_k` defaults to five. */
  lemma DefaultFive(q: Option<string>)
    ensures QueryRAGInput(q).topK == 5
  {
  }

  /**
   * Over the in-memory store: every hit is a stored chunk with its Jaccard
   * score, positive, best first, and there are at most `ClampTopK(top_k)`
   * of them.
   */
  lemma OverInMemory(m: InMemory.ByDoc, inp: QueryRAGInput)
    ensures var hits := Execute(inp, (q: string, k: int) => InMemory.SearchSpec(m, q, k)).hits;
      RankedHits(hits) && |hits| <= ClampTopK(inp.topK) <= MaxTopK
      && forall i :: 0 <= i < |hits| ==> 0.0 < hits[i].score && exists c :: c in InMemory.AllChunks(m) && ToRetrieved((hits[i].score, c)) == hits[i]
  {
    var search := (q: string, k: int) => InMemory.SearchSpec(m, q, k);
    var q, k := Strip(QuestionText(inp)), ClampTopK(inp.topK);
    var hits := Execute(inp, search).hits;
    if HasVisible(QuestionText(inp)) {
      InMemory.SearchRanking(m, q, k);
      var r := search(q, k);
      forall i | 0 <= i < |hits|
        ensures 0.0 < hits[i].score && exists c :: c in InMemory.AllChunks(m) && ToRetrieved((hits[i].score, c)) == hits[i]
      {
        assert ToRetrieved((hits[i].score, r[i].1)) == hits[i];
      }
      RankingCarriesOver(inp, search);
    }
  }
}
