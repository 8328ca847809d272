/** The list-documents use case: every stored document, newest first. */
module ListDocuments {
  import opened Document
  import StableSort

  datatype ListDocumentsOutput = ListDocumentsOutput(documents: seq<Document>)

  /** The sort key, `created_at`. */
  function CreatedKey(d: Document): real {
    d.createdAt as real
  }

  /** The documents created at instant `t`, in their order in `docs`. */
  function CreatedAt(docs: seq<Document>, t: int): seq<Document> {
    StableSort.WithKey(docs, CreatedKey, t as real)
  }

  /**
   * `execute`: materialises the repository's listing (given as `listed`) into a
   * list and sorts it in place, stably, by descending creation time.
   */
  method Execute(listed: seq<Document>) returns (out: ListDocumentsOutput)
    ensures out.documents == StableSort.SortDesc(listed, CreatedKey)
  {
    var docs := new Document[|listed|](i requires 0 <= i < |listed| => listed[i]);
    assert docs[..] == listed;
    StableSort.SortInPlace(docs, CreatedKey);
    out := ListDocumentsOutput(docs[..]);
  }

  /**
   * The listing is a permutation of the repository's documents, ordered by
   * non-increasing `created_at`, with documents of equal `created_at` in
   * repository order; an empty repository gives an empty listing.
   */
  lemma ListingOrder(listed: seq<Document>)
    ensures multiset(StableSort.SortDesc(listed, CreatedKey)) == multiset(listed)
    ensures var out := StableSort.SortDesc(listed, CreatedKey);
      forall i, j :: 0 <= i < j < |out| ==> out[i].createdAt >= out[j].createdAt
    ensures forall t: int :: CreatedAt(StableSort.SortDesc(listed, CreatedKey), t) == CreatedAt(listed, t)
    ensures listed == [] ==> StableSort.SortDesc(listed, CreatedKey) == []
  {
    StableSort.SortDescPermutes(listed, CreatedKey);
    StableSort.SortDescSorted(listed, CreatedKey);
    var out := StableSort.SortDesc(listed, CreatedKey);
    forall i, j | 0 <= i < j < |out| ensures out[i].createdAt >= out[j].createdAt {
      assert CreatedKey(out[i]) >= CreatedKey(out[j]);
    }
    forall t: int ensures CreatedAt(out, t) == CreatedAt(listed, t) {
      StableSort.SortDescStable(listed, CreatedKey, t as real);
    }
  }
}
