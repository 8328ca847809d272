/**
 * `FilesystemJsonlChunkSource`: reads a document's chunks from
 * `"{document_id}.chunks.jsonl"`, one JSON object per line. The directory is a
 * map from file name to the file's lines; `json.loads` is a given function.
 */
module JsonlSource {
  import opened Wrappers
  import opened Json
  import opened Text
  import opened VectorStore

  const ContentKey: string := "content"
  const Suffix: string := ".chunks.jsonl"

  /** The file a document's chunks are read from. */
  function FileName(documentId: string): string {
    documentId + Suffix
  }

  /** What one line contributes: nothing, a record, or the error that ends the iteration. */
  datatype LineResult = Skipped | Malformed | Record(content: string, metadata: map<string, Json>)

  /** `data.get("content", "")`. */
  function ContentOf(entries: seq<(string, Json)>): Json {
    match Get(entries, ContentKey)
    case None => JString("")
    case Some(v) => v
  }

  /**
   * One line, stripped: blank lines and records whose `str(content)` strips
   * to nothing are skipped; a line `json.loads` rejects, or one that is not
   * an object (it has no `.get`), raises.
   */
  function ReadLine(line: string, loads: Loads): LineResult {
    var t := Strip(line);
    if t == [] then Skipped
    else match loads(t)
      case None => Malformed
      case Some(v) =>
        if !v.JObject? then Malformed
        else
          var c := Strip(Str(ContentOf(v.entries)));
          if c == [] then Skipped else Record(c, ToMap(v.entries) - {ContentKey})
  }

  /** `ReadLine` with `json.loads` fixed. */
  function Reader(loads: Loads): string -> LineResult {
    (line: string) => ReadLine(line, loads)
  }

  /** What an iteration produces: the chunks it yielded, and whether it then raised. */
  datatype Stream = Stream(chunks: seq<Chunk>, failed: bool)

  /** The chunks `_iter_file` yields from `lines`, read by `read`, when `idx` chunks were yielded before them. */
  function ChunksFrom(lines: seq<string>, documentId: string, read: string -> LineResult, idx: nat): Stream
    decreases |lines|
  {
    if lines == [] then Stream([], false)
    else match read(lines[0])
      case Skipped => ChunksFrom(lines[1..], documentId, read, idx)
      case Malformed => Stream([], true)
      case Record(c, md) =>
        var rest := ChunksFrom(lines[1..], documentId, read, idx + 1);
        Stream([Chunk(documentId, c, Some(ChunkIdFor(documentId, idx)), md)] + rest.chunks, rest.failed)
  }

  /** `iter_chunks`: a missing file yields nothing and does not raise. */
  function SourceSpec(files: map<string, seq<string>>, loads: Loads, documentId: string): Stream {
    if FileName(documentId) in files then ChunksFrom(files[FileName(documentId)], documentId, Reader(loads), 0)
    else Stream([], false)
  }

  /** A record read from a line has non-empty stripped content and no `content` key in its metadata. */
  predicate RecordShaped(r: LineResult) {
    r.Record? ==> r.content != [] && Strip(r.content) == r.content && ContentKey !in r.metadata
  }

  /**
   * `{k: v for k, v in data.items() if k != "content"}`: every key of the
   * object except `content`, each with its value; a `chunk_id` key is kept.
   */
  ghost predicate KeepsOtherKeys(metadata: map<string, Json>, entries: seq<(string, Json)>) {
    (forall k :: k in metadata <==> k != ContentKey && Get(entries, k).Some?)
    && forall k :: k in metadata ==> Some(metadata[k]) == Get(entries, k)
  }

  /** A record read from `line` comes from the object `json.loads` makes of the stripped line. */
  ghost predicate FromObject(line: string, loads: Loads, r: LineResult) {
    r.Record? ==>
      var t := Strip(line);
      loads(t).Some? && loads(t).value.JObject?
      && r.content == Strip(Str(ContentOf(loads(t).value.entries)))
      && KeepsOtherKeys(r.metadata, loads(t).value.entries)
  }

  /** What `ReadLine` guarantees for every line. */
  ghost predicate ReaderShaped(read: string -> LineResult) {
    forall line :: RecordShaped(read(line)) && (!HasVisible(line) ==> read(line).Skipped?)
  }

  /** Every record the reader returns comes from its line's object. */
  ghost predicate ReadsObjects(read: string -> LineResult, loads: Loads) {
    forall line :: FromObject(line, loads, read(line))
  }

  /**
   * A record read from a line has non-empty stripped content, taken from the
   * object's `content`, and its metadata is every other key of the object.
   */
  lemma ReadLineRecord(line: string, loads: Loads)
    ensures RecordShaped(ReadLine(line, loads))
    ensures FromObject(line, loads, ReadLine(line, loads))
  {
    var t := Strip(line);
    if t != [] && loads(t).Some? && loads(t).value.JObject? {
      var e := loads(t).value.entries;
      StripIdempotent(Str(ContentOf(e)));
      OtherKeys(e);
    }
  }

  /** The object's mapping without `content` keeps every other key. */
  lemma OtherKeys(entries: seq<(string, Json)>)
    ensures KeepsOtherKeys(ToMap(entries) - {ContentKey}, entries)
  {
  }

  lemma ReadBlankLine(line: string, loads: Loads)
    ensures !HasVisible(line) ==> ReadLine(line, loads).Skipped?
  {
  }

  lemma ReadLineShape(loads: Loads)
    ensures ReaderShaped(Reader(loads)) && ReadsObjects(Reader(loads), loads)
  {
    forall line
      ensures RecordShaped(Reader(loads)(line)) && (!HasVisible(line) ==> Reader(loads)(line).Skipped?)
      ensures FromObject(line, loads, Reader(loads)(line))
    {
      ReadLineRecord(line, loads);
      ReadBlankLine(line, loads);
    }
  }

  /** The `k`-th chunk yielded has the document's id, synthesised id number `n`, and stripped content. */
  predicate ChunkShaped(ch: Chunk, documentId: string, n: nat) {
    ch.documentId == documentId
    && ch.chunkId == Some(ChunkIdFor(documentId, n))
    && ch.content != [] && Strip(ch.content) == ch.content
    && ContentKey !in ch.metadata
  }

  /** The chunk carries the content and metadata of the record read from some line. */
  ghost predicate FromLine(ch: Chunk, lines: seq<string>, read: string -> LineResult) {
    exists i :: 0 <= i < |lines| && read(lines[i]) == Record(ch.content, ch.metadata)
  }

  /**
   * The chunk at position `k` of the stream is shaped for overall position
   * `n == idx + k`, and its content and metadata are those of one line's record.
   */
  lemma {:induction false} ChunksFromShape(lines: seq<string>, documentId: string, read: string -> LineResult,
                                           idx: nat, k: nat, n: nat)
    requires ReaderShaped(read)
    requires k < |ChunksFrom(lines, documentId, read, idx).chunks| && n == idx + k
    ensures ChunkShaped(ChunksFrom(lines, documentId, read, idx).chunks[k], documentId, n)
    ensures FromLine(ChunksFrom(lines, documentId, read, idx).chunks[k], lines, read)
    decreases |lines|
  {
    assert RecordShaped(read(lines[0]));
    var s := ChunksFrom(lines, documentId, read, idx);
    match read(lines[0])
    case Skipped =>
      assert s == ChunksFrom(lines[1..], documentId, read, idx);
      ChunksFromShape(lines[1..], documentId, read, idx, k, n);
      LineOfTail(s.chunks[k], lines, read);
    case Record(c, md) =>
      var rest := ChunksFrom(lines[1..], documentId, read, idx + 1);
      assert s.chunks == [Chunk(documentId, c, Some(ChunkIdFor(documentId, idx)), md)] + rest.chunks;
      if k > 0 {
        assert s.chunks[k] == rest.chunks[k - 1];
        ChunksFromShape(lines[1..], documentId, read, idx + 1, k - 1, n);
        LineOfTail(s.chunks[k], lines, read);
      } else {
        assert read(lines[0]) == Record(s.chunks[0].content, s.chunks[0].metadata);
      }
  }

  lemma LineOfTail(ch: Chunk, lines: seq<string>, read: string -> LineResult)
    requires lines != [] && FromLine(ch, lines[1..], read)
    ensures FromLine(ch, lines, read)
  {
    var i :| 0 <= i < |lines[1..]| && read(lines[1..][i]) == Record(ch.content, ch.metadata);
    assert lines[1..][i] == lines[i + 1];
  }

  /**
   * Every chunk `iter_chunks` yields carries the `document_id` asked for,
   * the id `"{document_id}:{k}"` for its position `k`, and non-empty stripped
   * content; its metadata has no `content` key. So the ids are distinct.
   */
  lemma SourceShape(files: map<string, seq<string>>, loads: Loads, documentId: string)
    ensures var s := SourceSpec(files, loads, documentId);
      (forall k :: 0 <= k < |s.chunks| ==> ChunkShaped(s.chunks[k], documentId, k))
      && forall i, j :: 0 <= i < j < |s.chunks| ==> s.chunks[i].chunkId != s.chunks[j].chunkId
  {
    var s := SourceSpec(files, loads, documentId);
    if FileName(documentId) in files {
      ReadLineShape(loads);
      assert s == ChunksFrom(files[FileName(documentId)], documentId, Reader(loads), 0);
      forall k | 0 <= k < |s.chunks| ensures ChunkShaped(s.chunks[k], documentId, k) {
        ChunksFromShape(files[FileName(documentId)], documentId, Reader(loads), 0, k, k);
      }
      IdsDistinct(s.chunks, documentId);
    }
  }

  /**
   * Each chunk of a document's file is the `content` of one line's object,
   * stripped, with every other key of that object as its metadata.
   */
  lemma SourceMetadata(files: map<string, seq<string>>, loads: Loads, documentId: string, k: nat)
    requires FileName(documentId) in files && k < |SourceSpec(files, loads, documentId).chunks|
    ensures var lines, ch := files[FileName(documentId)], SourceSpec(files, loads, documentId).chunks[k];
      exists i :: 0 <= i < |lines| && FromObject(lines[i], loads, Record(ch.content, ch.metadata))
  {
    var lines, ch := files[FileName(documentId)], SourceSpec(files, loads, documentId).chunks[k];
    ReadLineShape(loads);
    ChunksFromShape(lines, documentId, Reader(loads), 0, k, k);
    var i :| 0 <= i < |lines| && Reader(loads)(lines[i]) == Record(ch.content, ch.metadata);
    assert FromObject(lines[i], loads, Reader(loads)(lines[i]));
  }

  const ChunkIdKey: string := "chunk_id"

  /**
   * A record's own `chunk_id` does not name the chunk: the id is synthesised
   * from the position, and the record's value stays in the metadata.
   */
  lemma OwnChunkIdKept(line: string, rest: seq<string>, documentId: string, loads: Loads, idx: nat,
                       entries: seq<(string, Json)>, v: Json)
    requires ReadLine(line, loads).Record?
    requires loads(Strip(line)) == Some(JObject(entries)) && Get(entries, ChunkIdKey) == Some(v)
    ensures var cs := ChunksFrom([line] + rest, documentId, Reader(loads), idx).chunks;
      cs != [] && cs[0].chunkId == Some(ChunkIdFor(documentId, idx))
      && ChunkIdKey in cs[0].metadata && cs[0].metadata[ChunkIdKey] == v
  {
    KeysDiffer();
    FirstRecord(line, rest, documentId, Reader(loads), idx);
    ReadLineRecord(line, loads);
  }

  lemma KeysDiffer()
    ensures ChunkIdKey != ContentKey
  {
    assert ChunkIdKey[1] != ContentKey[1];
  }

  /** A line that reads as a record yields the stream's first chunk. */
  lemma FirstRecord(line: string, rest: seq<string>, documentId: string, read: string -> LineResult, idx: nat)
    requires read(line).Record?
    ensures var cs := ChunksFrom([line] + rest, documentId, read, idx).chunks;
      cs != [] && cs[0] == Chunk(documentId, read(line).content, Some(ChunkIdFor(documentId, idx)), read(line).metadata)
  {
    assert ([line] + rest)[0] == line;
  }

  lemma IdsDistinct(cs: seq<Chunk>, documentId: string)
    requires forall k :: 0 <= k < |cs| ==> ChunkShaped(cs[k], documentId, k)
    ensures forall i, j :: 0 <= i < j < |cs| ==> cs[i].chunkId != cs[j].chunkId
  {
    forall i, j | 0 <= i < j < |cs| ensures cs[i].chunkId != cs[j].chunkId {
      assert cs[i].chunkId == Some(ChunkIdFor(documentId, i));
      assert cs[j].chunkId == Some(ChunkIdFor(documentId, j));
      ChunkIdForInjective(documentId, i, j);
    }
  }

  /** A missing file yields an empty sequence without raising. */
  lemma MissingFileIsEmpty(files: map<string, seq<string>>, loads: Loads, documentId: string)
    requires FileName(documentId) !in files
    ensures SourceSpec(files, loads, documentId) == Stream([], false)
  {
  }

  /** The lines that are not blank, in order. */
  function NonBlank(lines: seq<string>): seq<string> {
    if lines == [] then []
    else (if HasVisible(lines[0]) then [lines[0]] else []) + NonBlank(lines[1..])
  }

  lemma {:induction false} BlankLinesIgnoredBy(lines: seq<string>, documentId: string, read: string -> LineResult, idx: nat)
    requires ReaderShaped(read)
    ensures ChunksFrom(NonBlank(lines), documentId, read, idx) == ChunksFrom(lines, documentId, read, idx)
    decreases |lines|
  {
    if lines != [] {
      BlankLinesIgnoredBy(lines[1..], documentId, read, idx);
      BlankLinesIgnoredBy(lines[1..], documentId, read, idx + 1);
      if HasVisible(lines[0]) {
        assert ([lines[0]] + NonBlank(lines[1..]))[1..] == NonBlank(lines[1..]);
        assert ([lines[0]] + NonBlank(lines[1..]))[0] == lines[0];
      } else {
        assert read(lines[0]).Skipped?;
        assert NonBlank(lines) == NonBlank(lines[1..]);
      }
    }
  }

  /** Blank lines do not matter: they neither yield a chunk nor use up an index. */
  lemma BlankLinesIgnored(lines: seq<string>, documentId: string, loads: Loads)
    ensures ChunksFrom(NonBlank(lines), documentId, Reader(loads), 0) == ChunksFrom(lines, documentId, Reader(loads), 0)
  {
    ReadLineShape(loads);
    BlankLinesIgnoredBy(lines, documentId, Reader(loads), 0);
  }

  /**
   * The iteration raises exactly when some line is malformed: not blank, and
   * either rejected by `json.loads` or not a JSON object.
   */
  lemma {:induction false} FailsIffMalformedLine(lines: seq<string>, documentId: string, read: string -> LineResult, idx: nat)
    ensures ChunksFrom(lines, documentId, read, idx).failed
      <==> exists j :: 0 <= j < |lines| && read(lines[j]).Malformed?
    decreases |lines|
  {
    if lines != [] {
      FailsIffMalformedLine(lines[1..], documentId, read, idx);
      FailsIffMalformedLine(lines[1..], documentId, read, idx + 1);
      if exists j :: 0 <= j < |lines[1..]| && read(lines[1..][j]).Malformed? {
        var j :| 0 <= j < |lines[1..]| && read(lines[1..][j]).Malformed?;
        assert read(lines[j + 1]).Malformed?;
      }
      if exists j :: 0 <= j < |lines| && read(lines[j]).Malformed? {
        var j :| 0 <= j < |lines| && read(lines[j]).Malformed?;
        if j > 0 {
          assert read(lines[1..][j - 1]).Malformed?;
        }
      }
    }
  }

  /** The stream of the first `i` lines' records followed by what the rest yields. */
  function Prepend(cs: seq<Chunk>, s: Stream): Stream {
    Stream(cs + s.chunks, s.failed)
  }

  lemma ReadStep(lines: seq<string>, documentId: string, read: string -> LineResult, idx: nat, i: nat)
    requires i < |lines|
    ensures var r := read(lines[i]);
      var rest := ChunksFrom(lines[i + 1..], documentId, read, if r.Record? then idx + 1 else idx);
      ChunksFrom(lines[i..], documentId, read, idx)
        == match r
           case Skipped => rest
           case Malformed => Stream([], true)
           case Record(c, md) => Prepend([Chunk(documentId, c, Some(ChunkIdFor(documentId, idx)), md)], rest)
  {
    assert lines[i..][0] == lines[i];
    assert lines[i..][1..] == lines[i + 1..];
  }

  lemma PrependAssoc(a: seq<Chunk>, b: seq<Chunk>, s: Stream)
    ensures Prepend(a, Prepend(b, s)) == Prepend(a + b, s)
  {
    assert a + (b + s.chunks) == (a + b) + s.chunks;
  }

  /** `_iter_file`: the loop over the file's lines, counting the chunks it yields. */
  method IterFile(lines: seq<string>, documentId: string, loads: Loads) returns (s: Stream)
    ensures s == ChunksFrom(lines, documentId, Reader(loads), 0)
  {
    ghost var read := Reader(loads);
    var chunks: seq<Chunk> := [];
    var idx := 0;
    var i := 0;
    while i < |lines|
      invariant 0 <= i <= |lines| && idx == |chunks|
      invariant Prepend(chunks, ChunksFrom(lines[i..], documentId, read, idx)) == ChunksFrom(lines, documentId, read, 0)
    {
      ReadStep(lines, documentId, read, idx, i);
      var line := Strip(lines[i]);
      if line == [] {
        assert read(lines[i]) == Skipped;
        i := i + 1;
        continue;
      }
      var data := loads(line);
      if data.None? || !data.value.JObject? {
        assert read(lines[i]) == Malformed;
        return Stream(chunks, true);
      }
      var content := Strip(Str(ContentOf(data.value.entries)));
      if content == [] {
        assert read(lines[i]) == Skipped;
        i := i + 1;
        continue;
      }
      var metadata := ToMap(data.value.entries) - {ContentKey};
      assert read(lines[i]) == Record(content, metadata);
      var ch := Chunk(documentId, content, Some(ChunkIdFor(documentId, idx)), metadata);
      PrependAssoc(chunks, [ch], ChunksFrom(lines[i + 1..], documentId, read, idx + 1));
      chunks := chunks + [ch];
      idx := idx + 1;
      i := i + 1;
    }
    assert lines[i..] == [];
    assert chunks + [] == chunks;
    s := Stream(chunks, false);
  }

  /** `FilesystemJsonlChunkSource`, over the processed directory's files. */
  class FilesystemJsonlChunkSource {
    const files: map<string, seq<string>>
    const loads: Loads

    constructor (files: map<string, seq<string>>, loads: Loads)
      ensures this.files == files && this.loads == loads
    {
      this.files := files;
      this.loads := loads;
    }

    /** `iter_chunks`: the file's chunks, or nothing when there is no file. */
    method IterChunks(documentId: string) returns (s: Stream)
      ensures s == SourceSpec(files, loads, documentId)
    {
      var name := documentId + Suffix;
      if name !in files {
        return Stream([], false);
      }
      s := IterFile(files[name], documentId, loads);
    }
  }
}
