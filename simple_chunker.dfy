/**
 * The sliding-window chunker: text is cut into paragraphs on blank lines,
 * flattened into a word sequence with a paragraph-break sentinel between
 * paragraphs, and covered by windows of `maxTokens` words that overlap by
 * `overlapTokens` words.
 */
module Chunking {
  import opened Text

  /** The paragraph-break marker, both as separator and as sentinel word. */
  const Sentinel: string := "\n\n"

  const DefaultMaxTokens: int := 800
  const DefaultOverlapTokens: int := 120

  /** One emitted chunk: its text and the word range `[offsetStart, offsetEnd)` it covers. */
  datatype ChunkRecord = ChunkRecord(content: string, offsetStart: nat, offsetEnd: nat)

  // ---------------------------------------------------------------------------
  // Paragraphs

  /** A paragraph as `_split_paragraphs` keeps it: non-empty and stripped. */
  predicate IsParagraph(p: string) {
    p != [] && Strip(p) == p
  }

  /** No block holds a non-whitespace character. */
  predicate AllBlank(blocks: seq<string>) {
    forall k :: 0 <= k < |blocks| ==> !HasVisible(blocks[k])
  }

  /** `[b.strip() for b in blocks if b.strip()]`. */
  function StrippedBlocks(blocks: seq<string>): (ps: seq<string>)
    ensures forall k :: 0 <= k < |ps| ==> IsParagraph(ps[k])
  {
    if blocks == [] then []
    else
      var b := Strip(blocks[0]);
      StripIdempotent(blocks[0]);
      (if b != [] then [b] else []) + StrippedBlocks(blocks[1..])
  }

  lemma {:induction false} StrippedBlocksEmpty(blocks: seq<string>)
    ensures StrippedBlocks(blocks) == [] <==> AllBlank(blocks)
  {
    if blocks != [] {
      var rest := blocks[1..];
      StrippedBlocksEmpty(rest);
      var b := Strip(blocks[0]);
      assert StrippedBlocks(blocks) == (if b != [] then [b] else []) + StrippedBlocks(rest);
      assert AllBlank(blocks) <==> !HasVisible(blocks[0]) && AllBlank(rest) by {
        assert forall k :: 1 <= k < |blocks| ==> blocks[k] == rest[k - 1];
      }
    }
  }

  /** `_split_paragraphs`: the stripped non-blank blocks between `"\n\n"`s, or the whole text if there are none. */
  function SplitParagraphs(text: string): (ps: seq<string>)
    ensures ps != []
  {
    var blocks := StrippedBlocks(SplitOn(text, Sentinel));
    if blocks != [] then blocks else [text]
  }

  lemma SentinelIsNotAWord()
    ensures !IsWord(Sentinel) && !HasVisible(Sentinel)
  {
    assert IsSpace(Sentinel[0]) && IsSpace(Sentinel[1]);
  }

  /**
   * The whole text is used as the only paragraph exactly when it is blank;
   * otherwise every paragraph is a non-empty stripped block.
   */
  lemma ParagraphsOfText(text: string)
    ensures StrippedBlocks(SplitOn(text, Sentinel)) == [] <==> !HasVisible(text)
    ensures HasVisible(text) ==> forall k :: 0 <= k < |SplitParagraphs(text)| ==> IsParagraph(SplitParagraphs(text)[k])
  {
    var parts := SplitOn(text, Sentinel);
    JoinVisible(parts, Sentinel);
    SentinelIsNotAWord();
    StrippedBlocksEmpty(parts);
  }

  // ---------------------------------------------------------------------------
  // The word sequence

  /** The `words` list after the paragraph loop: each paragraph's words, then a sentinel. */
  function WordStream(paras: seq<string>): seq<string> {
    if paras == [] then []
    else WordStream(paras[..|paras| - 1]) + Words(paras[|paras| - 1]) + [Sentinel]
  }

  lemma WordStreamSnoc(paras: seq<string>, i: nat)
    requires i < |paras|
    ensures WordStream(paras[..i + 1]) == WordStream(paras[..i]) + Words(paras[i]) + [Sentinel]
  {
    assert paras[..i + 1][..i] == paras[..i];
  }

  /** `words` once a trailing sentinel has been dropped. */
  function DropTrailingSentinel(words: seq<string>): seq<string> {
    if |words| > 0 && words[|words| - 1] == Sentinel then words[..|words| - 1] else words
  }

  /** The word sequence `chunk` slides its window over. */
  function Tokens(text: string): seq<string> {
    DropTrailingSentinel(WordStream(SplitParagraphs(text)))
  }

  /** Sentinels stand only between two words: never first, never last, never next to another. */
  predicate SentinelsSeparate(t: seq<string>) {
    forall i :: 0 <= i < |t| && t[i] == Sentinel ==>
      0 < i < |t| - 1 && t[i - 1] != Sentinel && t[i + 1] != Sentinel
  }

  /** Every token that is not a sentinel is a word of `str.split()`. */
  predicate OthersAreWords(t: seq<string>) {
    forall i :: 0 <= i < |t| && t[i] != Sentinel ==> IsWord(t[i])
  }

  /** Every element is a word of `str.split()`. */
  predicate AllWords(t: seq<string>) {
    forall i :: 0 <= i < |t| ==> IsWord(t[i])
  }

  /** A non-empty token sequence holding `sentinels` well-placed sentinels, the rest words. */
  predicate TokenShape(t: seq<string>, sentinels: nat) {
    t != [] && SentinelsSeparate(t) && OthersAreWords(t) && multiset(t)[Sentinel] == sentinels
  }

  lemma WordsShape(w: seq<string>)
    requires w != [] && AllWords(w)
    ensures TokenShape(w, 0)
  {
    SentinelIsNotAWord();
    assert Sentinel !in w;
  }

  lemma TokenShapeAppend(t: seq<string>, c: nat, w: seq<string>)
    requires TokenShape(t, c)
    requires w != [] && AllWords(w)
    ensures TokenShape(t + [Sentinel] + w, c + 1)
  {
    SentinelIsNotAWord();
    assert Sentinel !in w;
    var u := t + [Sentinel] + w;
    assert multiset(u) == multiset(t) + multiset{Sentinel} + multiset(w);
    assert forall i :: 0 <= i < |t| ==> u[i] == t[i];
    assert forall i :: |t| < i < |u| ==> u[i] == w[i - |t| - 1];
    assert u[|t|] == Sentinel && u[|t| - 1] == t[|t| - 1] && u[|t| + 1] == w[0];
  }

  /** Every paragraph has at least one word. */
  predicate AllWordy(ps: seq<string>) {
    forall k :: 0 <= k < |ps| ==> Words(ps[k]) != []
  }

  /** A word stream so far: tokens of the given shape, then a closing sentinel. */
  predicate StreamShaped(w: seq<string>, sentinels: nat) {
    |w| > 1 && w[|w| - 1] == Sentinel && TokenShape(w[..|w| - 1], sentinels)
  }

  /** The first paragraph's words and sentinel. */
  lemma StreamFirst(wp: seq<string>)
    requires wp != [] && AllWords(wp)
    ensures StreamShaped(wp + [Sentinel], 0)
  {
    assert (wp + [Sentinel])[..|wp|] == wp;
    WordsShape(wp);
  }

  /** One more paragraph's words and sentinel add one separating sentinel. */
  lemma StreamStep(prev: seq<string>, wp: seq<string>, c: nat)
    requires StreamShaped(prev, c)
    requires wp != [] && AllWords(wp)
    ensures StreamShaped(prev + wp + [Sentinel], c + 1)
  {
    var t' := prev[..|prev| - 1];
    assert prev == t' + [Sentinel];
    TokenShapeAppend(t', c, wp);
    var w := prev + wp + [Sentinel];
    assert w[..|w| - 1] == t' + [Sentinel] + wp;
  }

  lemma {:induction false} WordStreamShape(ps: seq<string>)
    requires ps != [] && AllWordy(ps)
    ensures StreamShaped(WordStream(ps), |ps| - 1)
  {
    var init := ps[..|ps| - 1];
    var wp := LastWords(ps);
    if init == [] {
      StreamFirst(wp);
    } else {
      WordStreamShape(init);
      StreamStep(WordStream(init), wp, |init| - 1);
    }
  }

  /** The last paragraph's words, and the facts the induction needs about the rest. */
  lemma LastWords(ps: seq<string>) returns (wp: seq<string>)
    requires ps != [] && AllWordy(ps)
    ensures wp != [] && AllWords(wp)
    ensures WordStream(ps) == WordStream(ps[..|ps| - 1]) + wp + [Sentinel]
    ensures AllWordy(ps[..|ps| - 1])
  {
    wp := Words(ps[|ps| - 1]);
    assert forall k :: 0 <= k < |ps| - 1 ==> ps[..|ps| - 1][k] == ps[k];
  }

  /**
   * For a text that is not blank, the word sequence is non-empty; it holds one
   * sentinel fewer than there are paragraphs, none of them first, last or next
   * to another; every other token is a whitespace-free word.
   */
  lemma TokensShape(text: string)
    requires HasVisible(text)
    ensures TokenShape(Tokens(text), |SplitParagraphs(text)| - 1)
  {
    var ps := SplitParagraphs(text);
    ParagraphsOfText(text);
    forall k | 0 <= k < |ps| ensures Words(ps[k]) != [] {
      assert IsParagraph(ps[k]);
      assert HasVisible(ps[k]);
    }
    WordStreamShape(ps);
  }

  // ---------------------------------------------------------------------------
  // The window schedule

  function Min(a: int, b: int): int {
    if a <= b then a else b
  }

  /** Every window is a valid slice `[lo, hi)` of `n` words. */
  predicate SlicesOf(ws: seq<(nat, nat)>, n: nat) {
    forall i :: 0 <= i < |ws| ==> ws[i].0 <= ws[i].1 <= n
  }

  /**
   * The loop from `start` terminates: either each window starts after the one
   * before (`overlap < maxTokens`), or the first window already reaches the end.
   * Otherwise `start` falls back to 0 for ever.
   */
  predicate Halts(start: nat, n: nat, maxTokens: nat, overlap: int) {
    overlap < maxTokens || n <= start + maxTokens
  }

  /**
   * Where `Halts` fails, the window does not reach the end and the next start
   * `max(0, end - overlap)` is no later than this one: the loop repeats for ever.
   */
  lemma NoProgress(start: nat, n: nat, maxTokens: nat, overlap: int)
    requires !Halts(start, n, maxTokens, overlap)
    ensures var end := Min(start + maxTokens, n);
      end < n && (if end - overlap > 0 then end - overlap else 0) <= start
  {
  }

  /** The windows `(start, end)` the loop visits from `start` on. */
  function WindowsFrom(start: nat, n: nat, maxTokens: nat, overlap: int): (ws: seq<(nat, nat)>)
    requires start < n && Halts(start, n, maxTokens, overlap)
    ensures SlicesOf(ws, n)
    decreases n - start
  {
    var end := Min(start + maxTokens, n);
    if end >= n then [(start, end)]
    else
      var next := if end - overlap > 0 then end - overlap else 0;
      if next >= n then [(start, end)]
      else
        var rest := WindowsFrom(next, n, maxTokens, overlap);
        assert forall i :: 1 <= i < |rest| + 1 ==> ([(start, end)] + rest)[i] == rest[i - 1];
        [(start, end)] + rest
  }

  lemma ConcatAssoc<T>(a: seq<T>, b: seq<T>, c: seq<T>)
    ensures a + (b + c) == (a + b) + c
  {
  }

  /**
   * One step of the schedule: the first window, then (if the first window stops
   * short of the end and the next start is in range) the schedule from the
   * next start, `overlap` words before the first window's end.
   */
  lemma WindowsFromStep(start: nat, n: nat, maxTokens: nat, overlap: int)
    requires start < n && Halts(start, n, maxTokens, overlap)
    ensures var ws := WindowsFrom(start, n, maxTokens, overlap);
      var end := Min(start + maxTokens, n);
      && ws != [] && ws[0] == (start, end)
      && (end >= n || end - overlap >= n ==> ws == [(start, end)])
      && (end < n && end - overlap < n ==>
            start < end - overlap && Halts(end - overlap, n, maxTokens, overlap)
            && ws[1..] == WindowsFrom(end - overlap, n, maxTokens, overlap))
  {
    var end := Min(start + maxTokens, n);
    if end < n && end - overlap < n {
      var rest := WindowsFrom(end - overlap, n, maxTokens, overlap);
      assert ([(start, end)] + rest)[1..] == rest;
    }
  }

  /** The records the loop has still to yield when it reaches `start`. */
  function Pending(words: seq<string>, start: nat, maxTokens: nat, overlap: int, content: seq<string> -> string): seq<ChunkRecord>
    requires Halts(0, |words|, maxTokens, overlap)
  {
    if start < |words| then EmitWith(words, WindowsFrom(start, |words|, maxTokens, overlap), content) else []
  }

  /** The record a window yields: none when its content is empty. */
  function RecordOf(c: string, start: nat, end: nat): seq<ChunkRecord> {
    if c != [] then [ChunkRecord(c, start, end)] else []
  }

  /** The last turn of the window loop: the window at `start` reaches the end. */
  lemma EmitLast(words: seq<string>, start: nat, end: nat, maxTokens: nat, overlap: int, content: seq<string> -> string)
    requires start < |words| && Halts(0, |words|, maxTokens, overlap)
    requires end == Min(start + maxTokens, |words|) && end >= |words|
    ensures Pending(words, start, maxTokens, overlap, content) == RecordOf(content(words[start..end]), start, end)
  {
    WindowsFromStep(start, |words|, maxTokens, overlap);
    var ws := WindowsFrom(start, |words|, maxTokens, overlap);
    assert ws == [(start, end)];
    assert EmitWith(words, ws, content) == RecordOf(content(words[start..end]), start, end) + EmitWith(words, ws[1..], content);
  }

  /** Any other turn: the record of the window at `start` (if any), then those from the next start. */
  lemma EmitNext(words: seq<string>, start: nat, end: nat, next: nat, maxTokens: nat, overlap: int, content: seq<string> -> string)
    requires start < |words| && Halts(0, |words|, maxTokens, overlap)
    requires end == Min(start + maxTokens, |words|) && end < |words|
    requires next == if end - overlap > 0 then end - overlap else 0
    ensures start < next
    ensures Pending(words, start, maxTokens, overlap, content)
      == RecordOf(content(words[start..end]), start, end) + Pending(words, next, maxTokens, overlap, content)
  {
    WindowsFromStep(start, |words|, maxTokens, overlap);
    var ws := WindowsFrom(start, |words|, maxTokens, overlap);
    assert EmitWith(words, ws, content) == RecordOf(content(words[start..end]), start, end) + EmitWith(words, ws[1..], content);
    if next < |words| {
      assert ws[1..] == WindowsFrom(next, |words|, maxTokens, overlap);
    } else {
      assert ws[1..] == [];
    }
  }

  /** Every window the loop visits over `n` words. */
  function Windows(n: nat, maxTokens: nat, overlap: int): (ws: seq<(nat, nat)>)
    requires Halts(0, n, maxTokens, overlap)
    ensures SlicesOf(ws, n)
  {
    if n == 0 then [] else WindowsFrom(0, n, maxTokens, overlap)
  }

  /** In-range windows of at most `maxTokens` words, none empty, none starting before `lo`. */
  predicate WindowsWithin(ws: seq<(nat, nat)>, lo: nat, n: nat, maxTokens: nat) {
    forall i :: 0 <= i < |ws| ==> lo <= ws[i].0 < ws[i].1 <= n && ws[i].1 <= ws[i].0 + maxTokens
  }

  /** Each window but the last is full, and the next one starts `overlap` words before its end. */
  predicate Consecutive(ws: seq<(nat, nat)>, maxTokens: nat, overlap: int) {
    forall i :: 0 <= i < |ws| - 1 ==> ws[i].0 + maxTokens == ws[i].1 && ws[i + 1].0 + overlap == ws[i].1
  }

  /** Window starts strictly increase. */
  predicate StartsIncrease(ws: seq<(nat, nat)>) {
    forall i, j :: 0 <= i < j < |ws| ==> ws[i].0 < ws[j].0
  }

  /** Some window contains word position `j`. */
  ghost predicate Covered(ws: seq<(nat, nat)>, j: int) {
    exists i :: 0 <= i < |ws| && ws[i].0 <= j < ws[i].1
  }

  /** Every position of `[lo, n)` lies in some window. */
  ghost predicate Covers(ws: seq<(nat, nat)>, lo: nat, n: nat) {
    forall j :: lo <= j < n ==> Covered(ws, j)
  }

  lemma {:induction false} WindowsFromBounds(start: nat, n: nat, maxTokens: nat, overlap: int)
    requires start < n && 0 < maxTokens && Halts(start, n, maxTokens, overlap)
    ensures var ws := WindowsFrom(start, n, maxTokens, overlap);
      ws != [] && WindowsWithin(ws, start, n, maxTokens)
      && (0 <= overlap ==> ws[|ws| - 1].1 == n)
    decreases n - start
  {
    WindowsFromStep(start, n, maxTokens, overlap);
    var end := Min(start + maxTokens, n);
    if end < n && end - overlap < n {
      var next := end - overlap;
      WindowsFromBounds(next, n, maxTokens, overlap);
      var rest := WindowsFrom(next, n, maxTokens, overlap);
      var ws := [(start, end)] + rest;
      assert WindowsFrom(start, n, maxTokens, overlap) == ws;
      assert forall i :: 1 <= i < |ws| ==> ws[i] == rest[i - 1];
    }
  }

  lemma {:induction false} WindowsFromConsecutive(start: nat, n: nat, maxTokens: nat, overlap: int)
    requires start < n && Halts(start, n, maxTokens, overlap)
    ensures Consecutive(WindowsFrom(start, n, maxTokens, overlap), maxTokens, overlap)
    decreases n - start
  {
    WindowsFromStep(start, n, maxTokens, overlap);
    var end := Min(start + maxTokens, n);
    if end < n && end - overlap < n {
      var next := end - overlap;
      WindowsFromConsecutive(next, n, maxTokens, overlap);
      WindowsFromStep(next, n, maxTokens, overlap);
      var rest := WindowsFrom(next, n, maxTokens, overlap);
      var ws := [(start, end)] + rest;
      assert WindowsFrom(start, n, maxTokens, overlap) == ws;
      forall i | 0 <= i < |ws| - 1
        ensures ws[i].0 + maxTokens == ws[i].1 && ws[i + 1].0 + overlap == ws[i].1
      {
        if i == 0 {
          assert ws[1] == rest[0];
        } else {
          assert ws[i] == rest[i - 1] && ws[i + 1] == rest[i];
        }
      }
    }
  }

  lemma {:induction false} WindowsFromIncrease(start: nat, n: nat, maxTokens: nat, overlap: int)
    requires start < n && Halts(start, n, maxTokens, overlap)
    ensures StartsIncrease(WindowsFrom(start, n, maxTokens, overlap))
    ensures forall i :: 0 <= i < |WindowsFrom(start, n, maxTokens, overlap)| ==>
      start <= WindowsFrom(start, n, maxTokens, overlap)[i].0
    decreases n - start
  {
    WindowsFromStep(start, n, maxTokens, overlap);
    var end := Min(start + maxTokens, n);
    if end < n && end - overlap < n {
      var next := end - overlap;
      WindowsFromIncrease(next, n, maxTokens, overlap);
      var rest := WindowsFrom(next, n, maxTokens, overlap);
      var ws := [(start, end)] + rest;
      assert WindowsFrom(start, n, maxTokens, overlap) == ws;
      assert forall i :: 1 <= i < |ws| ==> ws[i] == rest[i - 1];
      forall i, j | 0 <= i < j < |ws| ensures ws[i].0 < ws[j].0 {
        assert ws[j] == rest[j - 1];
        if i > 0 {
          assert ws[i] == rest[i - 1];
        }
      }
    }
  }

  lemma {:induction false} WindowsFromCover(start: nat, n: nat, maxTokens: nat, overlap: int)
    requires start < n && 0 <= overlap && Halts(start, n, maxTokens, overlap)
    ensures Covers(WindowsFrom(start, n, maxTokens, overlap), start, n)
    decreases n - start
  {
    WindowsFromStep(start, n, maxTokens, overlap);
    var ws := WindowsFrom(start, n, maxTokens, overlap);
    var end := Min(start + maxTokens, n);
    if end < n {
      var next := end - overlap;
      WindowsFromCover(next, n, maxTokens, overlap);
      var rest := WindowsFrom(next, n, maxTokens, overlap);
      assert ws == [(start, end)] + rest;
      forall j | start <= j < n ensures Covered(ws, j) {
        if j < end {
          assert ws[0].0 <= j < ws[0].1;
        } else {
          assert Covered(rest, j);
          var i :| 0 <= i < |rest| && rest[i].0 <= j < rest[i].1;
          assert ws[i + 1] == rest[i];
        }
      }
    } else {
      forall j | start <= j < n ensures Covered(ws, j) {
        assert ws[0].0 <= j < ws[0].1;
      }
    }
  }

  /**
   * Over `n > 0` words, with `maxTokens > 0` and a schedule that halts: the windows
   * start at 0; each holds between 1 and `maxTokens` words; each window but the
   * last holds exactly `maxTokens` words and the next one starts `overlap` words
   * before its end, so consecutive windows share exactly `overlap` words (a
   * negative `overlap` skips words); starts strictly increase; and when
   * `overlap >= 0` the last window ends at `n` and the windows cover `[0, n)`.
   */
  lemma WindowsShape(n: nat, maxTokens: nat, overlap: int)
    requires 0 < n && 0 < maxTokens && Halts(0, n, maxTokens, overlap)
    ensures var ws := Windows(n, maxTokens, overlap);
      ws != [] && ws[0].0 == 0
      && WindowsWithin(ws, 0, n, maxTokens) && Consecutive(ws, maxTokens, overlap)
      && StartsIncrease(ws)
      && (0 <= overlap ==> ws[|ws| - 1].1 == n && Covers(ws, 0, n))
  {
    WindowsFromStep(0, n, maxTokens, overlap);
    WindowsFromBounds(0, n, maxTokens, overlap);
    WindowsFromConsecutive(0, n, maxTokens, overlap);
    WindowsFromIncrease(0, n, maxTokens, overlap);
    if 0 <= overlap {
      WindowsFromCover(0, n, maxTokens, overlap);
    }
  }

  // ---------------------------------------------------------------------------
  // Window contents and the emitted records

  /** `" ".join(piece).replace(" \n\n ", "\n\n").strip()`. */
  function Content(piece: seq<string>): string {
    Strip(Replace(Join(piece, " "), " \n\n ", "\n\n"))
  }

  /** The records the loop yields for the windows `ws`: one per window whose content is not empty. */
  function Emit(words: seq<string>, ws: seq<(nat, nat)>): seq<ChunkRecord>
    requires SlicesOf(ws, |words|)
  {
    EmitWith(words, ws, Content)
  }

  /** `Emit`, for any content function. */
  function EmitWith(words: seq<string>, ws: seq<(nat, nat)>, content: seq<string> -> string): seq<ChunkRecord>
    requires SlicesOf(ws, |words|)
  {
    if ws == [] then []
    else
      var c := content(words[ws[0].0..ws[0].1]);
      (if c != [] then [ChunkRecord(c, ws[0].0, ws[0].1)] else []) + EmitWith(words, ws[1..], content)
  }

  /** The records of every window over `words`. */
  function EmitAll(words: seq<string>, maxTokens: nat, overlap: int): seq<ChunkRecord>
    requires Halts(0, |words|, maxTokens, overlap)
  {
    Emit(words, Windows(|words|, maxTokens, overlap))
  }

  /** `chunk(text)` terminates for a chunker with these parameters. */
  predicate ChunkHalts(text: string, maxTokens: nat, overlap: int) {
    Strip(text) == [] || Halts(0, |Tokens(text)|, maxTokens, overlap)
  }

  /** What `chunk(text)` yields for a chunker with these parameters. */
  function ChunkText(text: string, maxTokens: nat, overlap: int): seq<ChunkRecord>
    requires ChunkHalts(text, maxTokens, overlap)
  {
    if Strip(text) == [] then [] else EmitAll(Tokens(text), maxTokens, overlap)
  }

  /** `r` is the record of one of the windows `ws`, with that window's non-empty content. */
  ghost predicate FromWindow(words: seq<string>, ws: seq<(nat, nat)>, r: ChunkRecord, content: seq<string> -> string) {
    exists i :: 0 <= i < |ws| && ws[i] == (r.offsetStart, r.offsetEnd)
      && r.offsetStart <= r.offsetEnd <= |words|
      && r.content == content(words[r.offsetStart..r.offsetEnd]) && r.content != []
  }

  lemma {:induction false} EmitShape(words: seq<string>, ws: seq<(nat, nat)>, content: seq<string> -> string, k: nat)
    requires SlicesOf(ws, |words|)
    requires k < |EmitWith(words, ws, content)|
    ensures FromWindow(words, ws, EmitWith(words, ws, content)[k], content)
  {
    var rest := ws[1..];
    var c := content(words[ws[0].0..ws[0].1]);
    var head := if c != [] then [ChunkRecord(c, ws[0].0, ws[0].1)] else [];
    var rs := EmitWith(words, ws, content);
    var tail := EmitWith(words, rest, content);
    assert rs == head + tail;
    if k < |head| {
      assert rs[k] == ChunkRecord(c, ws[0].0, ws[0].1);
      assert ws[0] == (rs[k].offsetStart, rs[k].offsetEnd);
    } else {
      EmitShape(words, rest, content, k - |head|);
      var r := tail[k - |head|];
      assert rs[k] == r;
      var i :| 0 <= i < |rest| && rest[i] == (r.offsetStart, r.offsetEnd)
        && r.offsetStart <= r.offsetEnd <= |words|
        && r.content == content(words[r.offsetStart..r.offsetEnd]) && r.content != [];
      assert ws[i + 1] == rest[i];
    }
  }

  /**
   * A window's content is empty exactly when every word of the window is a
   * sentinel; such a window is skipped.
   */
  lemma ContentEmptyIffOnlySentinels(piece: seq<string>)
    requires OthersAreWords(piece)
    ensures Content(piece) == [] <==> forall k :: 0 <= k < |piece| ==> piece[k] == Sentinel
  {
    var joined := Join(piece, " ");
    assert !HasVisible(" ") by { assert IsSpace(" "[0]); }
    assert !HasVisible(" \n\n ") by {
      assert IsSpace(" \n\n "[0]) && IsSpace(" \n\n "[1]) && IsSpace(" \n\n "[2]) && IsSpace(" \n\n "[3]);
    }
    SentinelIsNotAWord();
    ReplaceVisible(joined, " \n\n ", "\n\n");
    JoinVisible(piece, " ");
    forall k | 0 <= k < |piece| ensures HasVisible(piece[k]) <==> piece[k] != Sentinel {
      if piece[k] != Sentinel {
        assert IsWord(piece[k]);
        assert !IsSpace(piece[k][0]);
      }
    }
  }

  /** A record covering `[offsetStart, offsetEnd)` of `n` words, at most `maxTokens` of them, with stripped non-empty content. */
  predicate RecordShape(r: ChunkRecord, n: nat, maxTokens: nat) {
    r.offsetStart < r.offsetEnd <= n && r.offsetEnd <= r.offsetStart + maxTokens
    && r.content != [] && Strip(r.content) == r.content
  }

  /**
   * Every record `chunk` yields covers words `[offsetStart, offsetEnd)` with
   * `0 <= offsetStart < offsetEnd <= n` and at most `maxTokens` words, where `n` is
   * the length of the word sequence; its content is non-empty and stripped; and its
   * range and content are those of one of the windows of the schedule.
   */
  lemma ChunkRecordsShape(text: string, maxTokens: nat, overlap: int)
    requires 0 < maxTokens && ChunkHalts(text, maxTokens, overlap)
    ensures var rs := ChunkText(text, maxTokens, overlap);
      var n := |Tokens(text)|;
      forall k :: 0 <= k < |rs| ==>
        RecordShape(rs[k], n, maxTokens) && FromWindow(Tokens(text), Windows(n, maxTokens, overlap), rs[k], Content)
  {
    var words := Tokens(text);
    var n := |words|;
    if Strip(text) != [] && n > 0 {
      WindowsShape(n, maxTokens, overlap);
      var ws := Windows(n, maxTokens, overlap);
      var rs := ChunkText(text, maxTokens, overlap);
      assert rs == EmitAll(words, maxTokens, overlap);
      assert rs == EmitWith(words, ws, Content);
      forall k | 0 <= k < |rs| ensures RecordShape(rs[k], n, maxTokens) && FromWindow(words, ws, rs[k], Content) {
        EmitShape(words, ws, Content, k);
        var r := rs[k];
        assert FromWindow(words, ws, r, Content);
        StripIdempotent(Replace(Join(words[r.offsetStart..r.offsetEnd], " "), " \n\n ", "\n\n"));
      }
    }
  }

  lemma WindowSkipped(t: seq<string>, a: nat, b: nat)
    requires a <= b <= |t| && OthersAreWords(t)
    ensures Content(t[a..b]) == [] <==> forall k :: a <= k < b ==> t[k] == Sentinel
  {
    var piece := t[a..b];
    assert forall k :: 0 <= k < |piece| ==> piece[k] == t[a + k];
    ContentEmptyIffOnlySentinels(piece);
  }

  /**
   * For a non-blank text, a window is left out of the output exactly when all
   * its words are paragraph sentinels.
   */
  lemma SkippedWindows(text: string, maxTokens: nat, overlap: int, i: nat)
    requires 0 < maxTokens && HasVisible(text) && Halts(0, |Tokens(text)|, maxTokens, overlap)
    requires i < |Windows(|Tokens(text)|, maxTokens, overlap)|
    ensures var t := Tokens(text);
      var w := Windows(|t|, maxTokens, overlap)[i];
      w.0 <= w.1 <= |t|
      && (Content(t[w.0..w.1]) == [] <==> forall k :: w.0 <= k < w.1 ==> t[k] == Sentinel)
  {
    var t := Tokens(text);
    TokensShape(text);
    var ws := Windows(|t|, maxTokens, overlap);
    WindowsShape(|t|, maxTokens, overlap);
    var w := ws[i];
    assert w.0 < w.1 <= |t|;
    WindowSkipped(t, w.0, w.1);
  }

  // ---------------------------------------------------------------------------
  // The chunker

  /** `SimpleChunker`: its two parameters are fixed at construction. */
  class SimpleChunker {
    const maxTokens: int
    const overlapTokens: int

    constructor (maxTokens: int := DefaultMaxTokens, overlapTokens: int := DefaultOverlapTokens)
      ensures this.maxTokens == maxTokens && this.overlapTokens == overlapTokens
    {
      this.maxTokens := maxTokens;
      this.overlapTokens := overlapTokens;
    }

    /**
     * `chunk`: builds the word sequence paragraph by paragraph, then slides the
     * window. Nothing stops a caller configuring `overlapTokens >= maxTokens`,
     * for which the loop never ends on a text longer than one window; the
     * precondition excludes exactly those calls.
     */
    method Chunk(text: string) returns (records: seq<ChunkRecord>)
      requires 0 <= maxTokens && ChunkHalts(text, maxTokens, overlapTokens)
      ensures records == ChunkText(text, maxTokens, overlapTokens)
      ensures Strip(text) == [] ==> records == []
      ensures 0 < maxTokens ==>
        forall k :: 0 <= k < |records| ==> RecordShape(records[k], |Tokens(text)|, maxTokens)
    {
      if 0 < maxTokens {
        ChunkRecordsShape(text, maxTokens, overlapTokens);
      }
      if Strip(text) == [] {
        return [];
      }
      var words := WordSequence(text);
      records := SlideWindows(words, Content);
    }

    /**
     * The window loop of `chunk` over the word sequence; `content` is the text
     * a window's words become (`Content` in `chunk`).
     */
    method SlideWindows(words: seq<string>, content: seq<string> -> string) returns (records: seq<ChunkRecord>)
      requires 0 <= maxTokens && Halts(0, |words|, maxTokens, overlapTokens)
      ensures records == EmitWith(words, Windows(|words|, maxTokens, overlapTokens), content)
    {
      ghost var target := Pending(words, 0, maxTokens, overlapTokens, content);
      assert target == EmitWith(words, Windows(|words|, maxTokens, overlapTokens), content);
      var start := 0;
      var n := |words|;
      records := [];
      while start < n
        invariant records + Pending(words, start, maxTokens, overlapTokens, content) == target
        decreases n - start
      {
        var end := Min(start + maxTokens, n);
        var c := content(words[start..end]);
        ghost var before := records;
        if c != [] {
          records := records + [ChunkRecord(c, start, end)];
        }
        assert records == before + RecordOf(c, start, end);
        if end >= n {
          EmitLast(words, start, end, maxTokens, overlapTokens, content);
          return;
        }
        var next := if end - overlapTokens > 0 then end - overlapTokens else 0;
        EmitNext(words, start, end, next, maxTokens, overlapTokens, content);
        ConcatAssoc(before, RecordOf(c, start, end), Pending(words, next, maxTokens, overlapTokens, content));
        start := next;
      }
      assert records + [] == records;
    }

    /** The paragraph loop of `chunk`: the words of each paragraph followed by a sentinel, the last sentinel dropped. */
    method WordSequence(text: string) returns (words: seq<string>)
      ensures words == Tokens(text)
    {
      var paras := SplitParagraphs(text);
      words := [];
      for i := 0 to |paras|
        invariant words == WordStream(paras[..i])
      {
        WordStreamSnoc(paras, i);
        words := words + Words(paras[i]);
        words := words + [Sentinel];
      }
      assert paras[..|paras|] == paras;
      if |words| > 0 && words[|words| - 1] == Sentinel {
        words := words[..|words| - 1];
      }
    }
  }
}
