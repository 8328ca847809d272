/**
 * The in-memory vector store: chunks grouped by document in a dictionary that
 * keeps first-insertion order, scored against a query by the Jaccard
 * similarity of their case-folded word sets.
 */
module InMemory {
  import opened Wrappers
  import opened Text
  import opened VectorStore
  import opened StableSort

  // ---------------------------------------------------------------------------
  // Tokens and the Jaccard score

  /** The set of case-folded whitespace-separated words of `text`. */
  function Tokenize(text: string): (r: set<string>)
    ensures forall w :: w in r ==> IsWord(w)
  {
    var ws := Words(Lower(text));
    set i | 0 <= i < |ws| :: ws[i]
  }

  lemma LowerVisible(s: string)
    ensures HasVisible(Lower(s)) <==> HasVisible(s)
  {
    if HasVisible(s) {
      var i :| 0 <= i < |s| && !IsSpace(s[i]);
      assert !IsSpace(Lower(s)[i]);
    }
    if HasVisible(Lower(s)) {
      var i :| 0 <= i < |s| && !IsSpace(Lower(s)[i]);
      assert !IsSpace(s[i]);
    }
  }

  /** A text has no tokens exactly when it is blank. */
  lemma TokenizeBlank(text: string)
    ensures Tokenize(text) == {} <==> !HasVisible(text)
  {
    LowerVisible(text);
    var ws := Words(Lower(text));
    if ws != [] {
      assert ws[0] in Tokenize(text);
    }
  }

  /** Tokens ignore case: a text and its lower-cased form have the same tokens. */
  lemma TokenizeIgnoresCase(text: string)
    ensures Tokenize(Lower(text)) == Tokenize(text)
  {
    LowerIdempotent(text);
  }

  /** `_jaccard`: 0 when either set is empty, otherwise `|a ∩ b| / |a ∪ b|`. */
  function Jaccard(a: set<string>, b: set<string>): real {
    if a == {} || b == {} then 0.0
    else (|a * b| as real) / (|a + b| as real)
  }

  lemma SubsetCard<T>(a: set<T>, b: set<T>)
    requires a <= b
    ensures |a| <= |b|
    ensures |a| == |b| ==> a == b
    decreases |b|
  {
    if b != {} {
      var x :| x in b;
      if x in a {
        SubsetCard(a - {x}, b - {x});
        if |a| == |b| {
          assert a == (a - {x}) + {x} && b == (b - {x}) + {x};
        }
      } else {
        SubsetCard(a, b - {x});
      }
    }
  }

  /** The score lies in `[0, 1]`; it is positive exactly when the sets share a token. */
  lemma JaccardBounds(a: set<string>, b: set<string>)
    ensures 0.0 <= Jaccard(a, b) <= 1.0
    ensures Jaccard(a, b) > 0.0 <==> a * b != {}
  {
    if a != {} && b != {} {
      SubsetCard(a * b, a + b);
      var x :| x in a;
      assert x in a + b;
      var i, u := |a * b| as real, |a + b| as real;
      assert 0.0 < u && i <= u;
      assert i / u <= 1.0 by {
        assert i / u * u == i;
      }
      if a * b != {} {
        var y :| y in a * b;
        assert |a * b| > 0;
      }
    }
  }

  lemma JaccardSymmetric(a: set<string>, b: set<string>)
    ensures Jaccard(a, b) == Jaccard(b, a)
  {
    assert a * b == b * a && a + b == b + a;
  }

  /** The score is 1 exactly for two equal non-empty sets. */
  lemma JaccardOne(a: set<string>, b: set<string>)
    ensures Jaccard(a, b) == 1.0 <==> a == b && a != {}
  {
    if a != {} && b != {} {
      SubsetCard(a * b, a + b);
      var x :| x in a;
      assert x in a + b;
      var i, u := |a * b| as real, |a + b| as real;
      if i / u == 1.0 {
        assert i == u;
        assert a * b == a + b;
        assert a == b by {
          forall y | y in a ensures y in b { assert y in a + b; }
          forall y | y in b ensures y in a { assert y in a + b; }
        }
      }
      if a == b {
        assert a * b == a + b;
      }
    }
  }

  // ---------------------------------------------------------------------------
  // The store's contents

  /** `_by_doc`: document ids with their chunk lists, in first-insertion order. */
  type ByDoc = seq<(string, seq<Chunk>)>

  /** Every chunk of `cs` belongs to document `d`. */
  predicate AllOf(cs: seq<Chunk>, d: string) {
    forall k :: 0 <= k < |cs| ==> cs[k].documentId == d
  }

  /** Keys are distinct; each list is non-empty and holds that document's chunks only. */
  predicate WellFormed(m: ByDoc) {
    (forall i, j :: 0 <= i < j < |m| ==> m[i].0 != m[j].0)
    && (forall i :: 0 <= i < |m| ==> m[i].1 != [] && AllOf(m[i].1, m[i].0))
  }

  /** The position of document `d`, if it has an entry. */
  function Lookup(m: ByDoc, d: string): (r: Option<nat>)
    ensures r.Some? ==> r.value < |m| && m[r.value].0 == d
    ensures r.None? <==> forall i :: 0 <= i < |m| ==> m[i].0 != d
  {
    if m == [] then None
    else if m[|m| - 1].0 == d then Some(|m| - 1)
    else
      var r := Lookup(m[..|m| - 1], d);
      assert forall i :: 0 <= i < |m| - 1 ==> m[..|m| - 1][i] == m[i];
      r
  }

  /** The chunks stored for `d`: `_by_doc.get(d, [])`. */
  function ChunksOf(m: ByDoc, d: string): seq<Chunk> {
    match Lookup(m, d)
    case None => []
    case Some(i) => m[i].1
  }

  /** `_by_doc[c.document_id].append(c)`: an absent document gets a new entry at the end. */
  function AppendChunk(m: ByDoc, c: Chunk): ByDoc {
    match Lookup(m, c.documentId)
    case None => m + [(c.documentId, [c])]
    case Some(i) => m[i := (m[i].0, m[i].1 + [c])]
  }

  /** Appending each chunk of `cs` in turn. */
  function AddAll(m: ByDoc, cs: seq<Chunk>): ByDoc {
    if cs == [] then m else AppendChunk(AddAll(m, cs[..|cs| - 1]), cs[|cs| - 1])
  }

  /** `del _by_doc[d]` when `d` has an entry; nothing otherwise. */
  function RemoveDoc(m: ByDoc, d: string): ByDoc {
    match Lookup(m, d)
    case None => m
    case Some(i) => m[..i] + m[i + 1..]
  }

  /** The chunks of `cs` that belong to `d`, in order. */
  function OfDocument(cs: seq<Chunk>, d: string): seq<Chunk> {
    if cs == [] then []
    else OfDocument(cs[..|cs| - 1], d) + (if cs[|cs| - 1].documentId == d then [cs[|cs| - 1]] else [])
  }

  /** Every stored chunk in scan order: documents by first insertion, then each list in add order. */
  function AllChunks(m: ByDoc): seq<Chunk> {
    if m == [] then [] else AllChunks(m[..|m| - 1]) + m[|m| - 1].1
  }

  /** With distinct keys, `Lookup` finds the one position holding a key. */
  lemma LookupUnique(m: ByDoc, j: nat)
    requires WellFormed(m) && j < |m|
    ensures Lookup(m, m[j].0) == Some(j)
  {
    var r := Lookup(m, m[j].0);
    assert r.Some?;
  }

  /** A chunk of a document with no entry opens a new entry at the end. */
  lemma AppendNew(m: ByDoc, c: Chunk)
    requires WellFormed(m) && Lookup(m, c.documentId).None?
    ensures AppendChunk(m, c) == m + [(c.documentId, [c])]
    ensures WellFormed(AppendChunk(m, c))
  {
    var m' := m + [(c.documentId, [c])];
    assert forall i :: 0 <= i < |m| ==> m'[i] == m[i];
    assert AllOf([c], c.documentId);
  }

  /** A chunk of a document at position `i` is appended to that entry's list. */
  lemma AppendExisting(m: ByDoc, c: Chunk, i: nat)
    requires WellFormed(m) && Lookup(m, c.documentId) == Some(i)
    ensures AppendChunk(m, c) == m[i := (m[i].0, m[i].1 + [c])]
    ensures WellFormed(AppendChunk(m, c))
  {
    assert AllOf(m[i].1 + [c], c.documentId);
  }

  /** Another document's list is untouched by appending `c`. */
  lemma AppendOther(m: ByDoc, c: Chunk, e: string)
    requires WellFormed(m) && e != c.documentId
    ensures ChunksOf(AppendChunk(m, c), e) == ChunksOf(m, e)
  {
    var m' := AppendChunk(m, c);
    if Lookup(m, c.documentId).None? {
      AppendNew(m, c);
    } else {
      AppendExisting(m, c, Lookup(m, c.documentId).value);
    }
    match Lookup(m, e)
    case None =>
    case Some(j) => LookupUnique(m', j);
  }

  /** `c`'s own document gets `c` at the end of its list. */
  lemma AppendOwn(m: ByDoc, c: Chunk)
    requires WellFormed(m)
    ensures ChunksOf(AppendChunk(m, c), c.documentId) == ChunksOf(m, c.documentId) + [c]
    ensures |m| <= |AppendChunk(m, c)|
    ensures forall i :: 0 <= i < |m| ==> AppendChunk(m, c)[i].0 == m[i].0
  {
    var m' := AppendChunk(m, c);
    if Lookup(m, c.documentId).None? {
      AppendNew(m, c);
      LookupUnique(m', |m|);
    } else {
      var i := Lookup(m, c.documentId).value;
      AppendExisting(m, c, i);
      LookupUnique(m', i);
    }
  }

  /**
   * Adding one chunk appends it to the end of its document's list and changes
   * no other document; documents already present keep their positions.
   */
  lemma AppendChunkEffect(m: ByDoc, c: Chunk)
    requires WellFormed(m)
    ensures WellFormed(AppendChunk(m, c))
    ensures ChunksOf(AppendChunk(m, c), c.documentId) == ChunksOf(m, c.documentId) + [c]
    ensures forall e :: e != c.documentId ==> ChunksOf(AppendChunk(m, c), e) == ChunksOf(m, e)
    ensures |m| <= |AppendChunk(m, c)|
    ensures forall i :: 0 <= i < |m| ==> AppendChunk(m, c)[i].0 == m[i].0
  {
    if Lookup(m, c.documentId).None? {
      AppendNew(m, c);
    } else {
      AppendExisting(m, c, Lookup(m, c.documentId).value);
    }
    AppendOwn(m, c);
    forall e | e != c.documentId ensures ChunksOf(AppendChunk(m, c), e) == ChunksOf(m, e) {
      AppendOther(m, c, e);
    }
  }

  /**
   * `add` appends each chunk, in input order, to the end of its document's list
   * and changes nothing else: afterwards the list of every document `d` is its
   * old list followed by the chunks of `cs` that belong to `d`.
   */
  lemma {:induction false} AddAllEffect(m: ByDoc, cs: seq<Chunk>)
    requires WellFormed(m)
    ensures WellFormed(AddAll(m, cs))
    ensures forall d :: ChunksOf(AddAll(m, cs), d) == ChunksOf(m, d) + OfDocument(cs, d)
  {
    if cs != [] {
      var init, c := cs[..|cs| - 1], cs[|cs| - 1];
      AddAllEffect(m, init);
      AppendChunkEffect(AddAll(m, init), c);
    }
  }

  /** Documents already present keep their positions, so scan order is first-insertion order. */
  lemma {:induction false} AddAllKeepsOrder(m: ByDoc, cs: seq<Chunk>)
    requires WellFormed(m)
    ensures |m| <= |AddAll(m, cs)|
    ensures forall i :: 0 <= i < |m| ==> AddAll(m, cs)[i].0 == m[i].0
  {
    if cs != [] {
      var init, c := cs[..|cs| - 1], cs[|cs| - 1];
      AddAllKeepsOrder(m, init);
      AddAllEffect(m, init);
      AppendChunkEffect(AddAll(m, init), c);
    }
  }

  /** A document none of whose chunks are added is left exactly as it was. */
  lemma AddAllOthers(m: ByDoc, cs: seq<Chunk>, d: string)
    requires WellFormed(m)
    requires forall k :: 0 <= k < |cs| ==> cs[k].documentId != d
    ensures ChunksOf(AddAll(m, cs), d) == ChunksOf(m, d)
  {
    AddAllEffect(m, cs);
    OfDocumentNone(cs, d);
  }

  lemma {:induction false} OfDocumentNone(cs: seq<Chunk>, d: string)
    requires forall k :: 0 <= k < |cs| ==> cs[k].documentId != d
    ensures OfDocument(cs, d) == []
  {
    if cs != [] {
      OfDocumentNone(cs[..|cs| - 1], d);
    }
  }

  /** Chunks all of one document are all kept for it. */
  lemma {:induction false} OfDocumentAll(cs: seq<Chunk>, d: string)
    requires AllOf(cs, d)
    ensures OfDocument(cs, d) == cs
  {
    if cs != [] {
      OfDocumentAll(cs[..|cs| - 1], d);
    }
  }

  /**
   * `delete_by_document` empties document `d` and leaves every other
   * document's list as it was; for a document with no entry the map is
   * unchanged (no entry is created).
   */
  lemma RemoveDocEffect(m: ByDoc, d: string)
    requires WellFormed(m)
    ensures WellFormed(RemoveDoc(m, d))
    ensures ChunksOf(RemoveDoc(m, d), d) == []
    ensures forall e :: e != d ==> ChunksOf(RemoveDoc(m, d), e) == ChunksOf(m, e)
    ensures Lookup(m, d).None? ==> RemoveDoc(m, d) == m
  {
    if Lookup(m, d).Some? {
      var i := Lookup(m, d).value;
      RemoveDocAt(m, d, i);
      RemoveAtWellFormed(m, i);
      forall e | e != d ensures ChunksOf(RemoveDoc(m, d), e) == ChunksOf(m, e) {
        RemoveAtLookup(m, i, e);
      }
    }
  }

  lemma RemoveDocAt(m: ByDoc, d: string, i: nat)
    requires Lookup(m, d) == Some(i)
    ensures RemoveDoc(m, d) == m[..i] + m[i + 1..] && m[i].0 == d
  {
  }

  /** The position in `m` of the entry at `j` once the entry at `i` is removed. */
  function Shift(i: nat, j: nat): nat {
    if j < i then j else j + 1
  }

  lemma RemoveAtShape(m: ByDoc, i: nat)
    requires i < |m|
    ensures |m[..i] + m[i + 1..]| == |m| - 1
    ensures forall j :: 0 <= j < |m| - 1 ==> (m[..i] + m[i + 1..])[j] == m[Shift(i, j)]
  {
  }

  lemma RemoveAtWellFormed(m: ByDoc, i: nat)
    requires WellFormed(m) && i < |m|
    ensures WellFormed(m[..i] + m[i + 1..])
    ensures Lookup(m[..i] + m[i + 1..], m[i].0).None?
  {
    RemoveAtShape(m, i);
    var m' := m[..i] + m[i + 1..];
    forall j, k | 0 <= j < k < |m'| ensures m'[j].0 != m'[k].0 {
      assert m'[j] == m[Shift(i, j)] && m'[k] == m[Shift(i, k)];
    }
    forall j | 0 <= j < |m'| ensures m'[j].1 != [] && AllOf(m'[j].1, m'[j].0) && m'[j].0 != m[i].0 {
      assert m'[j] == m[Shift(i, j)];
    }
  }

  lemma RemoveAtLookup(m: ByDoc, i: nat, e: string)
    requires WellFormed(m) && i < |m| && e != m[i].0
    ensures ChunksOf(m[..i] + m[i + 1..], e) == ChunksOf(m, e)
  {
    RemoveAtShape(m, i);
    RemoveAtWellFormed(m, i);
    var m' := m[..i] + m[i + 1..];
    match Lookup(m, e)
    case None =>
      forall j | 0 <= j < |m'| ensures m'[j].0 != e {
        assert m'[j] == m[Shift(i, j)];
      }
    case Some(j0) =>
      var j := if j0 < i then j0 else j0 - 1;
      assert m'[j] == m[j0];
      LookupUnique(m', j);
  }

  // ---------------------------------------------------------------------------
  // Search

  /** The score `similarity_search` gives chunk `c` against the query tokens `q`. */
  function ScoreFn(q: set<string>): Chunk -> real {
    (c: Chunk) => Jaccard(q, Tokenize(c.content))
  }

  /** `(score(c), c)` for each chunk `c` of `cs` whose score is positive, in order. */
  function ScoreAll(score: Chunk -> real, cs: seq<Chunk>): seq<Hit> {
    if cs == [] then []
    else ScoreAll(score, cs[..|cs| - 1]) + HitOf(score, cs[|cs| - 1])
  }

  /** The hit for chunk `c`: present only when its score is positive. */
  function HitOf(score: Chunk -> real, c: Chunk): seq<Hit> {
    if score(c) > 0.0 then [(score(c), c)] else []
  }

  /** One more chunk scanned: its hit, if any, comes last. */
  lemma ScoreAllSnoc(score: Chunk -> real, xs: seq<Chunk>, c: Chunk)
    ensures ScoreAll(score, xs + [c]) == ScoreAll(score, xs) + HitOf(score, c)
  {
    assert (xs + [c])[..|xs|] == xs;
  }

  /** One more document scanned: its list follows the earlier ones. */
  lemma AllChunksSnoc(m: ByDoc, i: nat)
    requires i < |m|
    ensures AllChunks(m[..i + 1]) == AllChunks(m[..i]) + m[i].1
  {
    assert m[..i + 1][..i] == m[..i];
  }

  lemma {:induction false} ScoreAllConcat(score: Chunk -> real, xs: seq<Chunk>, ys: seq<Chunk>)
    ensures ScoreAll(score, xs + ys) == ScoreAll(score, xs) + ScoreAll(score, ys)
  {
    if ys == [] {
      assert xs + ys == xs;
    } else {
      var init, y := ys[..|ys| - 1], ys[|ys| - 1];
      assert xs + ys == (xs + init) + [y];
      ScoreAllSnoc(score, xs + init, y);
      ScoreAllConcat(score, xs, init);
      assert ys == init + [y];
      ScoreAllSnoc(score, init, y);
    }
  }

  lemma SliceSnoc<T>(s: seq<T>, j: nat)
    requires j < |s|
    ensures s[..j + 1] == s[..j] + [s[j]]
  {
  }

  /** The inner loop of `similarity_search`: scores one document's list, appending positive hits. */
  method ScoreList(q: set<string>, lst: seq<Chunk>, scored0: seq<Hit>) returns (scored: seq<Hit>)
    ensures scored == scored0 + ScoreAll(ScoreFn(q), lst)
  {
    scored := scored0;
    for j := 0 to |lst|
      invariant scored == scored0 + ScoreAll(ScoreFn(q), lst[..j])
    {
      var score := Jaccard(q, Tokenize(lst[j].content));
      assert score == ScoreFn(q)(lst[j]);
      SliceSnoc(lst, j);
      ScoreAllSnoc(ScoreFn(q), lst[..j], lst[j]);
      if score > 0.0 {
        scored := scored + [(score, lst[j])];
      }
    }
    assert lst[..|lst|] == lst;
  }

  /** `seq[:k]`, where a negative `k` counts from the end. */
  function PyPrefix<T>(s: seq<T>, k: int): (r: seq<T>)
    ensures |r| <= |s| && r == s[..|r|]
    ensures 0 <= k ==> |r| == if k <= |s| then k else |s|
    ensures k < 0 ==> |r| == if |s| + k > 0 then |s| + k else 0
  {
    if 0 <= k then (if k <= |s| then s[..k] else s)
    else if |s| + k > 0 then s[..|s| + k]
    else []
  }

  /** What `similarity_search(query, top_k)` returns on contents `m`. */
  function SearchSpec(m: ByDoc, query: string, topK: int): seq<Hit> {
    PyPrefix(SortDesc(ScoreAll(ScoreFn(Tokenize(query)), AllChunks(m)), Score), topK)
  }

  /** `a` is a prefix of `b`. */
  ghost predicate IsPrefix<T>(a: seq<T>, b: seq<T>) {
    |a| <= |b| && a == b[..|a|]
  }

  lemma {:induction false} ScoreAllShape(score: Chunk -> real, cs: seq<Chunk>)
    ensures forall i :: 0 <= i < |ScoreAll(score, cs)| ==>
      ScoreAll(score, cs)[i].1 in cs
      && ScoreAll(score, cs)[i].0 == score(ScoreAll(score, cs)[i].1)
      && 0.0 < ScoreAll(score, cs)[i].0
  {
    if cs != [] {
      var init, c := cs[..|cs| - 1], cs[|cs| - 1];
      ScoreAllShape(score, init);
      var prev := ScoreAll(score, init);
      var s := ScoreAll(score, cs);
      assert forall i :: 0 <= i < |prev| ==> s[i] == prev[i];
      assert forall x :: x in init ==> x in cs;
    }
  }

  lemma {:induction false} ScoreAllIncludes(score: Chunk -> real, cs: seq<Chunk>, c: Chunk)
    requires c in cs && score(c) > 0.0
    ensures (score(c), c) in ScoreAll(score, cs)
  {
    var init := cs[..|cs| - 1];
    if cs[|cs| - 1] != c {
      assert c in init;
      ScoreAllIncludes(score, init, c);
    }
  }

  lemma {:induction false} ScoreAllNone(score: Chunk -> real, cs: seq<Chunk>)
    requires forall k :: 0 <= k < |cs| ==> score(cs[k]) <= 0.0
    ensures ScoreAll(score, cs) == []
  {
    if cs != [] {
      ScoreAllNone(score, cs[..|cs| - 1]);
    }
  }

  lemma WithKeyPrefix<T>(a: seq<T>, b: seq<T>, key: T -> real, k: real)
    requires IsPrefix(a, b)
    ensures IsPrefix(WithKey(a, key, k), WithKey(b, key, k))
  {
    assert b == a + b[|a|..];
    WithKeyConcat(a, b[|a|..], key, k);
  }

  /**
   * The result ranks hits best first, with every score in `(0, 1]`; it holds at
   * most `top_k` hits when `top_k >= 0`; and every hit is a stored chunk paired
   * with its own Jaccard score against the query.
   */
  lemma SearchRanking(m: ByDoc, query: string, topK: int)
    ensures var r := SearchSpec(m, query, topK);
      IsRanking(r)
      && (forall i :: 0 <= i < |r| ==>
            (0.0 < r[i].0 && r[i].1 in AllChunks(m)
             && r[i].0 == Jaccard(Tokenize(query), Tokenize(r[i].1.content))))
      && (0 <= topK ==> |r| <= topK)
  {
    var f := ScoreFn(Tokenize(query));
    var scored := ScoreAll(f, AllChunks(m));
    var sorted := SortDesc(scored, Score);
    var r := SearchSpec(m, query, topK);
    ScoreAllShape(f, AllChunks(m));
    SortDescPermutes(scored, Score);
    SortDescSorted(scored, Score);
    forall i | 0 <= i < |r| ensures 0.0 < r[i].0 <= 1.0
      && r[i].1 in AllChunks(m) && r[i].0 == Jaccard(Tokenize(query), Tokenize(r[i].1.content))
    {
      assert r[i] == sorted[i];
      assert sorted[i] in multiset(scored);
      var j :| 0 <= j < |scored| && scored[j] == sorted[i];
      JaccardBounds(Tokenize(query), Tokenize(r[i].1.content));
    }
    forall i, j | 0 <= i < j < |r| ensures r[i].0 >= r[j].0 {
      assert r[i] == sorted[i] && r[j] == sorted[j];
      assert Score(sorted[i]) >= Score(sorted[j]);
    }
  }

  /**
   * The result keeps the best hits: a stored chunk that scores above zero is
   * either returned, or the result is full (`top_k` hits) and every returned
   * hit scores at least as high.
   */
  lemma SearchKeepsBest(m: ByDoc, query: string, topK: int, c: Chunk)
    requires 0 <= topK && c in AllChunks(m) && Jaccard(Tokenize(query), Tokenize(c.content)) > 0.0
    ensures var r, s := SearchSpec(m, query, topK), Jaccard(Tokenize(query), Tokenize(c.content));
      (s, c) in r || (|r| == topK && forall i :: 0 <= i < |r| ==> r[i].0 >= s)
  {
    var f := ScoreFn(Tokenize(query));
    var s := f(c);
    var scored := ScoreAll(f, AllChunks(m));
    var sorted := SortDesc(scored, Score);
    var r := SearchSpec(m, query, topK);
    ScoreAllIncludes(f, AllChunks(m), c);
    SortDescPermutes(scored, Score);
    SortDescSorted(scored, Score);
    assert (s, c) in multiset(sorted);
    var j :| 0 <= j < |sorted| && sorted[j] == (s, c);
    if j < |r| {
      assert r[j] == (s, c);
    } else {
      forall i | 0 <= i < |r| ensures r[i].0 >= s {
        assert r[i] == sorted[i];
        assert Score(sorted[i]) >= Score(sorted[j]);
      }
    }
  }

  /**
   * Hits of equal score keep their scan order (documents by first insertion,
   * then chunks by add order): for every score, the hits with that score are a
   * prefix of the scanned chunks with that score.
   */
  lemma SearchTiesKeepScanOrder(m: ByDoc, query: string, topK: int)
    ensures forall k :: IsPrefix(WithKey(SearchSpec(m, query, topK), Score, k),
                                  WithKey(ScoreAll(ScoreFn(Tokenize(query)), AllChunks(m)), Score, k))
  {
    var scored := ScoreAll(ScoreFn(Tokenize(query)), AllChunks(m));
    var sorted := SortDesc(scored, Score);
    forall k ensures IsPrefix(WithKey(SearchSpec(m, query, topK), Score, k), WithKey(scored, Score, k)) {
      SortDescStable(scored, Score, k);
      WithKeyPrefix(SearchSpec(m, query, topK), sorted, Score, k);
    }
  }

  /** A blank query matches nothing. */
  lemma SearchBlankQuery(m: ByDoc, query: string, topK: int)
    requires !HasVisible(query)
    ensures SearchSpec(m, query, topK) == []
  {
    TokenizeBlank(query);
    var f := ScoreFn(Tokenize(query));
    var cs := AllChunks(m);
    forall k | 0 <= k < |cs| ensures f(cs[k]) <= 0.0 {
      assert f(cs[k]) == Jaccard({}, Tokenize(cs[k].content));
    }
    ScoreAllNone(f, cs);
  }

  /** The first element after sorting has a key at least that of every element. */
  lemma {:induction false} BestFirst(scored: seq<Hit>, x: Hit)
    requires x in scored
    ensures SortDesc(scored, Score) != [] && Score(SortDesc(scored, Score)[0]) >= Score(x)
  {
    var sorted := SortDesc(scored, Score);
    SortDescPermutes(scored, Score);
    SortDescSorted(scored, Score);
    assert x in multiset(sorted);
    var j :| 0 <= j < |sorted| && sorted[j] == x;
    if j != 0 {
      assert Score(sorted[0]) >= Score(sorted[j]);
    }
  }

  /** A query with exactly the word set of a stored chunk gets a best hit of score 1. */
  lemma SearchExactMatch(m: ByDoc, query: string, topK: int, c: Chunk)
    requires c in AllChunks(m) && Tokenize(c.content) == Tokenize(query) && HasVisible(query)
    requires 1 <= topK
    ensures var r := SearchSpec(m, query, topK);
      r != [] && r[0].0 == 1.0
  {
    var q := Tokenize(query);
    var f := ScoreFn(q);
    TokenizeBlank(query);
    JaccardOne(q, Tokenize(c.content));
    assert f(c) == 1.0;
    ScoreAllIncludes(f, AllChunks(m), c);
    var scored := ScoreAll(f, AllChunks(m));
    BestFirst(scored, (1.0, c));
    SearchRanking(m, query, topK);
    assert SearchSpec(m, query, topK)[0] == SortDesc(scored, Score)[0];
  }

  /** The outer loop of `similarity_search`: scans the documents in order. */
  method ScanStore(q: set<string>, m: ByDoc) returns (scored: seq<Hit>)
    ensures scored == ScoreAll(ScoreFn(q), AllChunks(m))
  {
    scored := [];
    for i := 0 to |m|
      invariant scored == ScoreAll(ScoreFn(q), AllChunks(m[..i]))
    {
      AllChunksSnoc(m, i);
      ScoreAllConcat(ScoreFn(q), AllChunks(m[..i]), m[i].1);
      scored := ScoreList(q, m[i].1, scored);
    }
    assert m[..|m|] == m;
  }

  // ---------------------------------------------------------------------------
  // The store

  /** `InMemoryVectorStore`. */
  class InMemoryVectorStore {
    var byDoc: ByDoc

    ghost predicate Valid()
      reads this
    {
      WellFormed(byDoc)
    }

    constructor ()
      ensures Valid() && byDoc == []
    {
      byDoc := [];
    }

    /** `add`: appends each chunk to its document's list and returns how many were given. */
    method Add(chunks: seq<Chunk>) returns (count: int)
      requires Valid()
      modifies this
      ensures Valid() && byDoc == AddAll(old(byDoc), chunks)
      ensures count == |chunks|
    {
      count := 0;
      ghost var m0 := byDoc;
      for i := 0 to |chunks|
        invariant byDoc == AddAll(m0, chunks[..i]) && WellFormed(byDoc)
        invariant count == i
      {
        assert chunks[..i + 1][..i] == chunks[..i];
        AppendChunkEffect(byDoc, chunks[i]);
        byDoc := AppendChunk(byDoc, chunks[i]);
        count := count + 1;
      }
      assert chunks[..|chunks|] == chunks;
    }

    /** `similarity_search`: score every stored chunk, keep the positive ones, sort best first, cut to `top_k`. */
    method SimilaritySearch(query: string, topK: int := DefaultTopK) returns (hits: seq<Hit>)
      ensures hits == SearchSpec(byDoc, query, topK)
    {
      var q := Tokenize(query);
      var scored := ScanStore(q, byDoc);
      var sorted := SortList(scored, Score);
      hits := PyPrefix(sorted, topK);
    }

    /** `delete_by_document`: how many chunks document `d` had, after removing its entry. */
    method DeleteByDocument(d: string) returns (removed: int)
      requires Valid()
      modifies this
      ensures Valid() && byDoc == RemoveDoc(old(byDoc), d)
      ensures removed == |ChunksOf(old(byDoc), d)|
    {
      removed := |ChunksOf(byDoc, d)|;
      if Lookup(byDoc, d).Some? {
        RemoveDocEffect(byDoc, d);
        byDoc := RemoveDoc(byDoc, d);
      } else {
        RemoveDocEffect(byDoc, d);
      }
    }
  }
}
