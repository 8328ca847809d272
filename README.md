# rag-fastapi retrieval core, modelled in Dafny

This project models the retrieval core of `rag-fastapi`, a service that
answers questions over uploaded PDF documents. The model covers:

- the chunker that cuts extracted text into overlapping word windows;
- the JSONL chunk source that reads a document's prepared chunks;
- the two vector stores: an in-memory one scored by token Jaccard similarity, and one backed by a Chroma collection;
- the port they share;
- the use cases that index a document's chunks, answer a retrieval query and list documents;
- the `is_pdf` rule of the document entity;
- the parser for the allowed CORS origins setting.

The project is organised as one module per source file:

| module | source | form |
|---|---|---|
| `Chunking` | `infrastructure/chunking/simple_chunker.py` | class `SimpleChunker` with loop methods, proved against `ChunkText` |
| `JsonlSource` | `infrastructure/chunk_sources/filesystem_jsonl.py` | class with the `_iter_file` loop, proved against `SourceSpec` |
| `InMemory` | `infrastructure/vectorstores/in_memory.py` | class `InMemoryVectorStore` over `_by_doc`, proved against `AddAll`, `SearchSpec` and `RemoveDoc` |
| `Chroma` | `infrastructure/vectorstores/chroma.py` | class `ChromaVectorStore` over the collection's records |
| `VectorStore` | `domain/services/vector_store.py` | `Chunk`, the `top_k` bounds and what a search result is |
| `IndexDocumentChunks` | `use_cases/index_document_chunks.py` | class over a JSONL source and an in-memory store |
| `QueryRag` | `use_cases/query_rag.py` | pure function over a store's search |
| `ListDocuments` | `use_cases/list_documents.py` | method over the repository's listing |
| `Document` | `domain/entities/document.py` | `Document` and `is_pdf` |
| `Config` | `app/core/config.py` | `_parse_origins` |

Shared modules provide the Python behaviour the core relies on:

- `Text`: `str.isspace`, `strip`, `split`, `join`, `replace`, `lower`, and `str(int)`.
- `Json`: the values `json.loads` returns, with `str`/`repr` of them.
- `StableSort`: the stable `list.sort(key=..., reverse=True)`, as an in-place insertion sort on an array.
- `Wrappers`: `Option` and `Result`.

`json.loads` is a parameter of type `Json.Loads`; `None` means the call raises. The result of a Chroma nearest-neighbour query is a parameter of type `Chroma.Backend`.

`chunk` does not clamp its step. With `overlap_tokens >= max_tokens` and more words than one window, it yields the first window again and again. So:

- `SimpleChunker.Chunk` requires `ChunkHalts`, the exact condition under which the loop ends.
- `Chunking.NoProgress` shows that when that condition fails, the loop never advances.

## Model

| member | source | states |
|---|---|---|
| VectorStore.ClampTopK | infrastructure/vectorstores/chroma.py:80 | `max(1, min(50, k))` lies in [1, 50], is `k` inside the range and the nearer bound outside it |
| VectorStore.ChunkIdFor | infrastructure/chunk_sources/filesystem_jsonl.py:41 | a synthesised chunk id starts with `"{document_id}:"` |
| VectorStore.ChunkIdForInjective | infrastructure/chunk_sources/filesystem_jsonl.py:41 | different chunk indices give different ids for one document |
| Text.DecimalRoundTrip | infrastructure/chunk_sources/filesystem_jsonl.py:41 | the decimal text of an index reads back as that index |
| Text.Strip | infrastructure/chunk_sources/filesystem_jsonl.py:33 | `strip()` leaves no whitespace at either end and is empty exactly for blank text |
| Text.StripIdempotent | infrastructure/chunk_sources/filesystem_jsonl.py:37 | stripping a stripped text changes nothing |
| Text.Words | infrastructure/vectorstores/in_memory.py:45 | `split()` gives whitespace-free non-empty words, none exactly for blank text |
| Text.SplitOn | app/core/config.py:31 | the pieces of `split(sep)` joined with `sep` give back the text |
| Text.SplitJoin | app/core/config.py:31 | `split(c)` undoes `c.join` when no part holds `c` |
| Text.LowerIdempotent | infrastructure/vectorstores/in_memory.py:45 | lower-casing twice is lower-casing once |
| Json.Get | infrastructure/chunk_sources/filesystem_jsonl.py:37 | `data.get(key)` finds a value exactly when some entry has that key |
| Json.ToMap | infrastructure/chunk_sources/filesystem_jsonl.py:42 | the object's mapping has exactly the object's keys, each with its `get` value |
| Json.Str | infrastructure/chunk_sources/filesystem_jsonl.py:37 | `str` of a JSON string is the string itself |
| StableSort.SortDescPermutes | infrastructure/vectorstores/in_memory.py:34 | the sort returns a permutation of its input |
| StableSort.SortDescSorted | infrastructure/vectorstores/in_memory.py:34 | the sort returns keys in non-increasing order |
| StableSort.SortDescStable | infrastructure/vectorstores/in_memory.py:34 | elements with equal keys keep their input order (`list.sort` is stable) |
| StableSort.SortInPlace | infrastructure/vectorstores/in_memory.py:34 | sorting the array in place leaves it equal to the stable descending sort of its old contents |
| StableSort.SortList | infrastructure/vectorstores/chroma.py:118 | a list sorted through an array equals the stable descending sort |
| Chunking.StrippedBlocks | infrastructure/chunking/simple_chunker.py:14 | every kept block is stripped and not blank |
| Chunking.StrippedBlocksEmpty | infrastructure/chunking/simple_chunker.py:14 | no block is kept exactly when every block is blank |
| Chunking.SplitParagraphs | infrastructure/chunking/simple_chunker.py:13-15 | the paragraph list is never empty (it falls back to `[text]`) |
| Chunking.ParagraphsOfText | infrastructure/chunking/simple_chunker.py:13-15 | the blocks are all blank exactly when the text is; for a non-blank text every paragraph is stripped and non-blank |
| Chunking.WordStreamShape | infrastructure/chunking/simple_chunker.py:23-25 | the paragraph loop yields words and gives each paragraph one closing `"\n\n"` sentinel |
| Chunking.TokensShape | infrastructure/chunking/simple_chunker.py:21-28 | after the trailing sentinel is dropped the sequence is non-empty and has one sentinel fewer than paragraphs; no sentinel comes first, last or next to another, and every other token is a word |
| Chunking.WindowsFromStep | infrastructure/chunking/simple_chunker.py:32-40 | each window is `[start, min(start + max, n))`, the next starts at `end - overlap` after it, and the loop stops at the end |
| Chunking.NoProgress | infrastructure/chunking/simple_chunker.py:38-40 | with `overlap >= max_tokens` and more words than one window, the next start is no later than this one |
| Chunking.WindowsShape | infrastructure/chunking/simple_chunker.py:30-40 | windows start at 0, stay within `n` and `max_tokens` words, and chain by `end - overlap`; their starts strictly increase; with `overlap >= 0` the last one ends at `n` and together they cover every word |
| Chunking.WindowsFromConsecutive | infrastructure/chunking/simple_chunker.py:40 | each following window starts `overlap` words before the previous one ended |
| Chunking.WindowsFromCover | infrastructure/chunking/simple_chunker.py:30-40 | with a non-negative overlap every word lies in some window |
| Chunking.ContentEmptyIffOnlySentinels | infrastructure/chunking/simple_chunker.py:35-36 | a window's content is empty exactly when the window holds only sentinels |
| Chunking.SkippedWindows | infrastructure/chunking/simple_chunker.py:35-37 | a window yields no record exactly when it holds paragraph breaks only |
| Chunking.ChunkRecordsShape | infrastructure/chunking/simple_chunker.py:30-40 | every record carries the stripped, non-empty content of its own window, with `offset_start < offset_end <= n` and at most `max_tokens` words |
| Chunking.SimpleChunker.constructor | infrastructure/chunking/simple_chunker.py:9-11 | the chunker keeps `max_tokens` and `overlap_tokens` (defaults 800 and 120) |
| Chunking.SimpleChunker.WordSequence | infrastructure/chunking/simple_chunker.py:21-28 | the paragraph loop builds exactly the token sequence `Tokens(text)` |
| Chunking.SimpleChunker.SlideWindows | infrastructure/chunking/simple_chunker.py:30-40 | the window loop yields the records of exactly the windows `Windows(n)`, skipping empty content |
| Chunking.SimpleChunker.Chunk | infrastructure/chunking/simple_chunker.py:17-40 | `chunk` yields `ChunkText(text)`: nothing for blank text, otherwise well-shaped records |
| JsonlSource.ReadLineRecord | infrastructure/chunk_sources/filesystem_jsonl.py:33-42 | a record read from a line comes from the object `json.loads` makes of the stripped line; its content is that object's `str(content)`, stripped and non-empty; its metadata holds exactly the object's other keys, each with its value |
| JsonlSource.ReadBlankLine | infrastructure/chunk_sources/filesystem_jsonl.py:33-35 | a blank line is skipped |
| JsonlSource.ReadLineShape | infrastructure/chunk_sources/filesystem_jsonl.py:33-42 | for every line, the reader skips blank lines and returns only records taken from the line's object in this way |
| JsonlSource.ChunksFromShape | infrastructure/chunk_sources/filesystem_jsonl.py:29-49 | the k-th chunk yielded after `idx` earlier ones has the document's id, chunk id `"{doc}:{idx + k}"`, and stripped non-empty content; its content and metadata are those of the record read from one of the lines |
| JsonlSource.SourceShape | infrastructure/chunk_sources/filesystem_jsonl.py:21-49 | chunk k of a document is numbered k, and chunk ids are distinct |
| JsonlSource.SourceMetadata | infrastructure/chunk_sources/filesystem_jsonl.py:36-42 | each chunk of a document's file is the stripped `content` of one line's object, and its metadata is every other key of that object with its value |
| JsonlSource.OwnChunkIdKept | infrastructure/chunk_sources/filesystem_jsonl.py:41-42 | a record's own `chunk_id` does not name the chunk: the id is synthesised from the position, and the record's value stays in the metadata |
| JsonlSource.IdsDistinct | infrastructure/chunk_sources/filesystem_jsonl.py:41 | consecutively numbered chunks have pairwise distinct ids |
| JsonlSource.MissingFileIsEmpty | infrastructure/chunk_sources/filesystem_jsonl.py:23-25 | a missing file yields nothing and does not raise |
| JsonlSource.BlankLinesIgnored | infrastructure/chunk_sources/filesystem_jsonl.py:33-35 | removing blank lines changes neither the chunks nor their numbering |
| JsonlSource.FailsIffMalformedLine | infrastructure/chunk_sources/filesystem_jsonl.py:36 | iteration raises exactly when some line, reached or not, fails to parse as a JSON object (earlier lines cannot stop it) |
| JsonlSource.IterFile | infrastructure/chunk_sources/filesystem_jsonl.py:29-49 | the line loop yields exactly `ChunksFrom(lines)` and stops at the first malformed line |
| JsonlSource.FilesystemJsonlChunkSource.IterChunks | infrastructure/chunk_sources/filesystem_jsonl.py:21-26 | `iter_chunks` yields exactly `SourceSpec` for the document's file |
| InMemory.Tokenize | infrastructure/vectorstores/in_memory.py:44-45 | every token is a whitespace-free non-empty word |
| InMemory.TokenizeBlank | infrastructure/vectorstores/in_memory.py:44-45 | the token set is empty exactly for blank text |
| InMemory.TokenizeIgnoresCase | infrastructure/vectorstores/in_memory.py:44-45 | texts equal up to case have the same tokens |
| InMemory.JaccardBounds | infrastructure/vectorstores/in_memory.py:48-53 | the score lies in [0, 1] and is positive exactly when the sets share a token |
| InMemory.JaccardSymmetric | infrastructure/vectorstores/in_memory.py:48-53 | the score does not depend on argument order |
| InMemory.JaccardOne | infrastructure/vectorstores/in_memory.py:48-53 | the score is 1 exactly for equal non-empty sets |
| InMemory.Lookup | infrastructure/vectorstores/in_memory.py:38 | a document's entry is found exactly when one has its key |
| InMemory.AppendChunkEffect | infrastructure/vectorstores/in_memory.py:21 | appending a chunk adds it at the end of its own document's list; no other list changes and existing entries keep their places |
| InMemory.AddAllEffect | infrastructure/vectorstores/in_memory.py:18-23 | after `add`, each document's list is its old list followed by its chunks from the input, in input order |
| InMemory.AddAllKeepsOrder | infrastructure/vectorstores/in_memory.py:21-28 | documents keep their first-insertion positions, which fix the scan order |
| InMemory.AddAllOthers | infrastructure/vectorstores/in_memory.py:18-23 | a document with no added chunks is untouched |
| InMemory.RemoveDocEffect | infrastructure/vectorstores/in_memory.py:37-41 | after deletion the document has no chunks, every other document is unchanged, and deleting an absent document changes nothing |
| InMemory.ScoreList | infrastructure/vectorstores/in_memory.py:29-33 | the inner loop appends exactly the positive-scored chunks of one list, in order |
| InMemory.ScanStore | infrastructure/vectorstores/in_memory.py:28-33 | the scan scores every stored chunk in scan order, keeping the positive ones |
| InMemory.PyPrefix | infrastructure/vectorstores/in_memory.py:35 | `scored[:top_k]` follows Python slicing, including a negative `top_k` |
| InMemory.SearchRanking | infrastructure/vectorstores/in_memory.py:25-35 | results are best first with scores in (0, 1]; each is a stored chunk with its own Jaccard score; at most `top_k` are returned |
| InMemory.SearchKeepsBest | infrastructure/vectorstores/in_memory.py:34-35 | the result keeps the best hits: for `top_k >= 0`, a stored chunk with a positive score is returned, or else `top_k` hits are returned and each scores at least as high |
| InMemory.SearchTiesKeepScanOrder | infrastructure/vectorstores/in_memory.py:34-35 | chunks with equal scores come out in scan order, as a prefix of the scanned ones |
| InMemory.SearchBlankQuery | infrastructure/vectorstores/in_memory.py:26 | a blank query finds nothing |
| InMemory.SearchExactMatch | infrastructure/vectorstores/in_memory.py:25-35 | if some chunk has exactly the query's tokens, the first result scores 1 |
| InMemory.InMemoryVectorStore.constructor | infrastructure/vectorstores/in_memory.py:15-16 | a new store is empty |
| InMemory.InMemoryVectorStore.Add | infrastructure/vectorstores/in_memory.py:18-23 | `add` leaves the store at `AddAll(old, chunks)`, keeps it well formed and returns the number of chunks |
| InMemory.InMemoryVectorStore.SimilaritySearch | infrastructure/vectorstores/in_memory.py:25-35 | the search returns exactly `SearchSpec` of the stored chunks |
| InMemory.InMemoryVectorStore.DeleteByDocument | infrastructure/vectorstores/in_memory.py:37-41 | deletion leaves the store at `RemoveDoc(old, d)` and returns how many chunks the document had |
| Chroma.StoredMetadata | infrastructure/vectorstores/chroma.py:58-61 | a record's metadata carries the two reserved keys with the document and chunk ids; the chunk's other keys are kept, and it has no further keys |
| Chroma.UpsertEffect | infrastructure/vectorstores/chroma.py:71-75 | upsert adds exactly the batch's ids and leaves other records as they were; with distinct ids each id holds its own record |
| Chroma.SynthesisedIdsDistinct | infrastructure/vectorstores/chroma.py:54-55 | chunks without ids get `"{doc}:{idx}"` in input order, all distinct |
| Chroma.ScoreBounds | infrastructure/vectorstores/chroma.py:97-101 | a score lies in (0, 1], and is 1 for a non-positive or unparsable distance |
| Chroma.ScoreNonIncreasing | infrastructure/vectorstores/chroma.py:101 | a larger distance never scores higher |
| Chroma.MetadataRoundTrip | infrastructure/vectorstores/chroma.py:105-114 | reading back a stored record gives the chunk with its resolved id and its metadata minus the reserved keys |
| Chroma.ChunkRoundTrip | infrastructure/vectorstores/chroma.py:54-62 | a chunk with its own id and no reserved metadata keys reads back unchanged |
| Chroma.ZipLength | infrastructure/vectorstores/chroma.py:96 | `zip(..., strict=False)` stops at the shortest of the three lists |
| Chroma.RowsNormalised | infrastructure/vectorstores/chroma.py:96-116 | every converted row scores in (0, 1] |
| Chroma.SearchRanking | infrastructure/vectorstores/chroma.py:79-119 | for a non-blank query the result is a best-first permutation of the converted rows, with equally scored rows in returned order |
| Chroma.SearchBlankQuery | infrastructure/vectorstores/chroma.py:81-82 | a blank query returns nothing |
| Chroma.SearchClampsTopK | infrastructure/vectorstores/chroma.py:80 | the search depends on `top_k` only through its clamped value |
| Chroma.DeleteEffect | infrastructure/vectorstores/chroma.py:121-128 | after deletion no record of the document is left and the others are unchanged |
| Chroma.AddedRecordsMatch | infrastructure/vectorstores/chroma.py:54-62 | every added chunk is found by the deletion filter of its own document |
| Chroma.BuildRows | infrastructure/vectorstores/chroma.py:91-116 | the conversion loop builds exactly `Rows(res)` |
| Chroma.ChromaVectorStore.constructor | infrastructure/vectorstores/chroma.py:35-47 | a new store has an empty collection |
| Chroma.ChromaVectorStore.Add | infrastructure/vectorstores/chroma.py:49-77 | `add` returns the number of chunks; an empty input changes nothing; otherwise it upserts the batch once |
| Chroma.ChromaVectorStore.SimilaritySearch | infrastructure/vectorstores/chroma.py:79-119 | the search returns exactly `SearchSpec` |
| Chroma.ChromaVectorStore.DeleteByDocument | infrastructure/vectorstores/chroma.py:121-128 | deletion removes exactly the matching records and returns their count; a delete call is made only when that count is positive |
| IndexDocumentChunks.ReindexReplaces | use_cases/index_document_chunks.py:24-28 | re-indexing leaves the document's chunks equal to the source's chunks and every other document unchanged |
| IndexDocumentChunks.ReindexIdempotent | use_cases/index_document_chunks.py:24-28 | re-indexing the same chunks twice gives the same store as once |
| IndexDocumentChunks.IndexAppends | use_cases/index_document_chunks.py:24-28 | without `reindex` nothing is deleted and the chunks are appended to the document's old ones |
| IndexDocumentChunks.MissingFileIndexesNothing | use_cases/index_document_chunks.py:24-28 | a document without a chunk file yields nothing and no error. Without `reindex` the store is unchanged; with it the document's chunks are removed and every other document is unchanged |
| IndexDocumentChunks.EmptyIndexFindsNothing | use_cases/index_document_chunks.py:24-28 | indexing a document without a chunk file into an empty store leaves every search empty |
| IndexDocumentChunks.SourceChunksOf | infrastructure/chunk_sources/filesystem_jsonl.py:43-44 | every chunk the source yields belongs to the requested document |
| IndexDocumentChunks.IndexDocumentChunks.Execute | use_cases/index_document_chunks.py:24-28 | `execute` deletes first when `reindex` is set, then adds the source's chunks; it returns their count, or the source's error after the chunks yielded before it. A missing file gives `added == 0`, with only the deletion, if any, applied |
| QueryRag.Execute | use_cases/query_rag.py:50-69 | a blank or missing question gives no hits; otherwise the hits mirror, one for one and field by field, what the store returns for the trimmed question and the clamped `top_k` |
| QueryRag.BlankSkipsStore | use_cases/query_rag.py:52-54 | a blank question gives the same empty answer whatever the store |
| QueryRag.OneStoreCall | use_cases/query_rag.py:56-58 | the answer depends on the store only through the one call with the trimmed question and the clamped `top_k` |
| QueryRag.TrimmedQuestion | use_cases/query_rag.py:52 | whitespace around the question changes nothing |
| QueryRag.RankingCarriesOver | use_cases/query_rag.py:58-68 | a store result that is a ranking gives best-first hits with scores in [0, 1] |
| QueryRag.DefaultFive | use_cases/query_rag.py:16 | `top_k` defaults to 5 |
| QueryRag.OverInMemory | use_cases/query_rag.py:50-69 | over the in-memory store, each hit is a stored chunk with a positive score; hits are best first, and there are at most the clamped `top_k` (at most 50) |
| Config.ListPassesThrough | app/core/config.py:19-20 | a list of strings is returned as it is |
| Config.JsonListParsed | app/core/config.py:21-27 | a text that strips to a `[`-prefix and parses as a list of strings gives that list |
| Config.FallsBackToCsv | app/core/config.py:28-31 | a text that fails to parse, or does not parse as a list of strings, is read as comma-separated |
| Config.OtherValuesDefault | app/core/config.py:33 | any value that is neither a string nor a list of strings gives the two localhost origins |
| Config.MixedListDefaults | app/core/config.py:19-33 | a list holding a non-string gives the defaults |
| Config.BlankGivesNone | app/core/config.py:31 | a blank text gives no origins |
| Config.CsvHasNoComma | app/core/config.py:31 | no comma-separated origin contains a comma |
| Config.QuoteOnlyPieceIsEmpty | app/core/config.py:31 | a piece made only of double quotes passes the blank filter and gives an empty origin |
| Config.CsvRoundTrip | app/core/config.py:21-31 | plain origins joined with commas parse back to the same list |
| ListDocuments.Execute | use_cases/list_documents.py:18-21 | the listing is sorted stably, newest first |
| ListDocuments.ListingOrder | use_cases/list_documents.py:20 | the output is a permutation of the repository's documents, newest first, with documents of equal time in listing order |
| Document.IsPdfCases | domain/entities/document.py:17-21 | `is_pdf` holds exactly when the content type is `application/pdf` or the stored name ends in `.pdf`, ignoring case |
| Document.LowerEndsWithPdf | domain/entities/document.py:19-21 | the lower-cased name ends in `.pdf` exactly when the name's last four characters are `.pdf` up to case |
| Document.DefaultIsPdf | domain/entities/document.py:15 | a document built with the default content type is a PDF |

## Left out

- The hashing embedding function (`chroma.py:14-29`) is left out. Floating-point `hash`, vector norms and chromadb's L2 nearest-neighbour search are replaced by the `Chroma.Backend` parameter.
- The Chroma client, its persistence directory and the collection's creation (`chroma.py:35-47`) are left out. A new store is an empty map of records.
- chromadb's own checks in `upsert` are not modelled; it rejects duplicate ids in one batch and some metadata values. `Chroma.Upsert` writes the batch in order, a later id replacing an earlier one.
- The `where` filter of deletion is modelled only as equality on the stored `document_id`.
- Json.Repr: always quotes a string with `'` and escapes nothing. Python's `repr` uses `"` for a text that holds `'` and no `"`, and it escapes `\`, newlines and other control characters. So `str(content)` is exact only for a `content` that is a string, or a value with no such characters inside it.
- Chroma.SearchSpec: that the backend returns at most `n_results` rows is chromadb's promise, not the model's. The backend is an unconstrained parameter, so the model does not bound the number of hits by the clamped `top_k`.
- Floating point: scores and distances are reals. A distance that `float()` rejects is `Unparsable` and scores 1. NaN and infinity are not modelled.
- InMemory.Tokenize: `str.casefold` is modelled as ASCII lower-casing, because full Unicode case folding is not available. `Document.IsPdf` lower-cases the same way.
- Files are left out: paths, existence and UTF-8 reading. A JSONL file is given as its list of lines, so the text-mode file iteration that splits at `\n`, `\r` and `\r\n` is not modelled. Any other character, such as `\x0b` or `\u2028`, stays inside its line, where `strip()` removes it only at the ends. `json.loads` is the `Loads` parameter.
- Chunking.SimpleChunker.Chunk: requires `max_tokens >= 0`. A negative size would index Python slices from the end, and that is not modelled.
- Chunking.SimpleChunker.Chunk: requires `ChunkHalts`, because the source loop does not end when `overlap_tokens >= max_tokens` and the text is longer than one window (see `Chunking.NoProgress`).
- IndexDocumentChunks.IndexDocumentChunks.Execute: modelled over the JSONL source and the in-memory store only. With the Chroma store, `add` collects the whole stream before the upsert, so a source error would leave the store unchanged. That combination is not modelled.
- `QueryRAG` receives an integer `top_k`, so `int(inp.top_k)` on other types is not modelled. `float(score)` is the identity on reals.
- `ListDocuments` takes the repository's listing as its input, and `created_at` is an integer timestamp.
- The settings class, environment and `.env` loading, and directory creation in `config.py` are left out.
- A Python value given to `_parse_origins` is represented by the JSON value of the same shape. Every other kind of object takes the default branch, as in the source.
