# RepoSearch core, modelled in Dafny

RepoSearch indexes GitHub repositories for semantic search. It works in three steps:

1. It downloads a repository's files.
2. It cuts the text files into chunks with deterministic ids and line numbers.
3. It embeds the chunks in batches and stores them in a ChromaDB-backed store. The store also keeps one status record per repository (`owner/name`): the indexed commit, the counts, and one success flag per stage.

`SearchEngine.index_repository` is the incremental orchestrator. It compares the stored record with the freshly fetched one. It then decides which stages to run, runs them, and persists the record after each stage.

This project models that core as pure functions over immutable data:

| file | module | what it holds |
|---|---|---|
| `base.dfy` | `Base` | `Option`, `Result`, and the Python exception kinds the code raises or catches |
| `text.dfy` | `Text` | the Python string operations the code uses: `str(int)`, `int(str)`, `isdigit`, `lower`, `split`/`join` on a character, `count`, substring search |
| `paths.dfy` | `Paths` | `Path.name` and `Path.suffix` |
| `models.dfy` | `Models` | `RepositoryInfo`, `DocumentChunk` with its dynamically typed metadata, and `SearchResult` |
| `batching.dfy` | `Batching` | the `xs[i:i+size]` slicing loop, order-preserving first-occurrence deduplication, and flat-map |
| `repository.dfy` | `Repository` | name parsing, the fresh status record, the download counter, and the text-file classifier |
| `chunker.dfy` | `Chunker` | token estimate, truncation, chunk ids, splitter/type selection, line numbering, per-file error skipping |
| `embedder.dfy` | `Embeddings` | batched `embed_texts`/`embed_chunks` against an API oracle |
| `store.dfy` | `Store` | the record and chunk collections as maps: record encode/decode, upsert/get/delete, `store_chunks`, `get_chunk` |
| `engine.dfy` | `Engine` | `index_repository` as a step function over the store, and `search`'s argument defaulting |

Everything outside the code is an oracle parameter:

- **GitHub:** the repository lookup and the content listing.
- **Directory walk:** the files it yields and the exception it may end with.
- **Chunking:** the LangChain splitter and the `uuid5` hash.
- **Embeddings:** the embeddings API.
- **Clock:** the engine's `datetime.now()` reading, and one reading per repository whose record `store_chunks` updates.
- **Clean-up:** the outcome of `shutil.rmtree`.

The model follows the code as written, including behaviour a reader may not expect:

- **Chunking after a stored download.** When the commit is unchanged and the stored download succeeded, a failed stored chunking is never retried. Chunking needs a download in the same call. Nothing is persisted, and the fetcher's blank record is returned (`Engine.ChunkRetryNeverRuns`).
- **Forced re-embed.** Forcing only the re-embed persists the fetcher's blank record with the embedding flag set. The download and chunking flags become false and the chunk count 0 (`Engine.ReembedOnlyResetsRecord`).
- **Partial chunks.** Chunks yielded before a swallowed `UnicodeDecodeError` are still stored (`Engine.PartialChunksStored`).
- **Storing the same chunks again.** Storing chunks that are already present adds nothing, but it still raises the stored chunk count (`Store.StoreAgainCountsAgain`).
- **`.Makefile` entry.** The `.Makefile` text extension can never match, because the suffix is lower-cased first (`Repository.MakefileEntryUnreachable`).
- **Truncated chunks.** A truncated chunk can still exceed the token limit (`Chunker.TruncationMayStayOversize`).
- **Negative line numbers.** A negative line number is lost when stored: `"-3"` is not all digits (`Store.NegativeLineLost`).
- **Unparsable records.** A record whose document no longer parses can never be deleted (`Store.UnparsableRecordNotDeleted`).

Line-number metadata: an absent `start_line`/`end_line` is stored as `""`, and an explicit `None` as `str(None) == "None"`. Both read back as `None` (`Store.LineRoundTrip`).

## Model

| member | source | states |
|---|---|---|
| Text.NatToString | src/repo_search/database/chroma.py:127-128 | `str(n)` of a non-negative int is all decimal digits |
| Text.ParseNatToString | src/repo_search/database/chroma.py:262-264 | `int(v)` on the digits `str(n)` produced gives back `n` |
| Text.NatToStringInjective | src/repo_search/processing/chunker.py:237 | different numbers print differently |
| Text.IntToString | src/repo_search/models.py:81 | `str(i)` of any int is non-empty |
| Text.ParseIntToString | src/repo_search/models.py:52 | `int(str(i)) == i` for every int, negative ones included |
| Text.Lower | src/repo_search/github/repository.py:191 | `.lower()` lower-cases each ASCII letter in place and leaves every other character alone, so no upper-case letter remains |
| Text.LowerIdempotent | src/repo_search/github/repository.py:191 | lower-casing an already lower-cased string changes nothing |
| Text.LowerEqualIff | src/repo_search/github/repository.py:191 | two strings lower-case to the same string exactly when they have the same length and agree letter by letter up to case |
| Text.IndexOf | src/repo_search/github/repository.py:43 | the first position of a character, or none exactly when it does not occur |
| Text.LastIndexOf | src/repo_search/processing/chunker.py:118-119 | the last position of a character, or none exactly when it does not occur |
| Text.Split | src/repo_search/processing/chunker.py:230 | `split('\n')` gives at least one part and no part contains the separator |
| Text.JoinSplit | src/repo_search/processing/chunker.py:230-232 | `'\n'.join(s.split('\n')) == s` |
| Text.SplitCount | src/repo_search/processing/chunker.py:230 | the number of lines is the number of newlines plus one |
| Text.JoinSplitPrefix | src/repo_search/processing/chunker.py:231-232 | joining the first k lines gives a prefix of the text |
| Text.FindFrom | src/repo_search/processing/chunker.py:168 | substring search returns the first occurrence at or after a position, and none when there is none |
| Text.TextBefore | src/repo_search/processing/chunker.py:168 | `s.split(piece)[0]` is the prefix of `s` that ends where the first occurrence of `piece` begins, or all of `s` when `piece` does not occur |
| Text.TextBeforeFirst | src/repo_search/processing/chunker.py:168 | in `a + piece + b`, when `piece` starts nowhere inside `a`, the text before `piece` is exactly `a` |
| Paths.Basename | src/repo_search/processing/chunker.py:119 | `Path.name` is the slash-free tail after the last `/`: the whole path when it has no `/`, otherwise the tail preceded by a `/` |
| Paths.BasenameOfJoin | src/repo_search/processing/chunker.py:119 | the name of `dir/name` is `name`, whatever the directory |
| Paths.Suffix | src/repo_search/processing/chunker.py:118 | `Path.suffix` is a dot-led, dot-free proper tail of the name; it is empty exactly when the name has no `.` or its last `.` is the first or the last character |
| Paths.SuffixOfDotted | src/repo_search/processing/chunker.py:118 | `stem.ext` with a non-empty stem and a dot-free, non-empty extension has suffix `.ext` |
| Models.ChunkType | src/repo_search/models.py:43-46 | the stored chunk type, or "text" when the key is absent |
| Models.IntOf | src/repo_search/models.py:52 | `int(v)` of an int metadata value is that int |
| Models.LineOf | src/repo_search/models.py:48-58 | `start_line`/`end_line` is None exactly when the key is absent or the value is None; an int is returned as is and a digit string is parsed |
| Models.Source | src/repo_search/models.py:72-83 | the plain repository when `file_path` is falsy; `"repo - path"` when a line is missing; exactly `"repo - path:start-end"` when both lines are present; a failing line conversion raises |
| Chunker.SourceOfCreatedChunk | src/repo_search/models.py:75-81 | a chunk made by `_create_chunk` with a non-empty path has source `"repo - path:start-end"` |
| Batching.Batches | src/repo_search/embedding/openai.py:67-68 | every batch is non-empty and at most `size` long, and every batch but the last is full |
| Batching.FlattenBatches | src/repo_search/database/chroma.py:139-147 | the batches concatenate back to the input, covering every element once and in order |
| Batching.BatchIsSlice | src/repo_search/embedding/openai.py:98-99 | batch k is exactly `xs[k*size : (k+1)*size]`, cut at the end |
| Batching.BatchCount | src/repo_search/database/chroma.py:140 | there is one batch per started block of `size` elements |
| Batching.BatchesAligned | src/repo_search/embedding/openai.py:98-99 | equal-length lists get the same number of batches, and batch k has the same length in both |
| Batching.KeepFirstPositions | src/repo_search/database/chroma.py:101-109 | the kept elements are exactly the first occurrences, in order |
| Batching.KeepFirstDistinct | src/repo_search/database/chroma.py:104-109 | no two kept elements share a key |
| Batching.KeepFirstCovers | src/repo_search/database/chroma.py:104-109 | every key of the input survives deduplication |
| Batching.DedupSpec | src/repo_search/database/chroma.py:100-113 | deduplication gives a subsequence of first occurrences with distinct keys, and loses no key |
| Batching.DedupOfDistinct | src/repo_search/database/chroma.py:100-113 | deduplicating a list whose keys are already distinct changes nothing |
| Repository.SplitName | src/repo_search/github/repository.py:42-45 | a name without "/" raises ValueError; otherwise the owner has no "/" and `owner + "/" + name` is the input |
| Repository.SplitFullName | src/repo_search/models.py:23-26 | splitting `full_name` gives back owner and name when the owner has no "/" |
| Repository.GetRepositoryInfo | src/repo_search/github/repository.py:30-57 | it succeeds exactly when the name has a "/" and the lookup succeeds; every failure is a ValueError; the record has the input as full name, the URL, the latest commit, and every other field at its default |
| Repository.CountDownloaded | src/repo_search/github/repository.py:99-128 | `num_files` is at most the number of listed items; it equals that number exactly when every item is a written base64 file, and it is zero exactly when none is |
| Repository.IsTextFile | src/repo_search/github/repository.py:161-214 | a binary extension gives false; otherwise a text extension gives true; otherwise the answer is "not in a skipped directory and decodes" |
| Repository.MakefileEntryUnreachable | src/repo_search/github/repository.py:187-191 | the lower-cased extension is never ".Makefile" |
| Repository.ExtensionCaseIgnored | src/repo_search/github/repository.py:191-195 | two paths whose suffixes differ only in letter case are classified alike when either extension table decides |
| Repository.UpperCaseSuffixIsText | src/repo_search/github/repository.py:191-195 | a file ending in `.PY` is text, by the `.py` entry of the text table, whatever its content |
| Chunker.EstimateTokens | src/repo_search/processing/chunker.py:59-70 | the estimate n satisfies `4n <= len(text) < 4n + 4` |
| Chunker.KeptLines | src/repo_search/processing/chunker.py:231 | the number of kept lines k is the floor of `lines * max / estimate`: `k*estimate <= lines*max < (k+1)*estimate`, and k never exceeds the line count |
| Chunker.TruncateContent | src/repo_search/processing/chunker.py:225-232 | content within the token limit is unchanged; the result is always a prefix of the content with no more newlines |
| Chunker.TruncatedLines | src/repo_search/processing/chunker.py:227-232 | oversize content becomes its first k lines, so the line count never grows |
| Chunker.TruncationMayStayOversize | src/repo_search/processing/chunker.py:225-232 | there is content whose truncation still exceeds the limit |
| Chunker.LineRangeInjective | src/repo_search/processing/chunker.py:237 | the text `"start-end"` determines both numbers |
| Chunker.ChunkKeyDistinguishesRanges | src/repo_search/processing/chunker.py:235-238 | within one file, different line ranges give different id keys |
| Chunker.CreateChunk | src/repo_search/processing/chunker.py:201-254 | the id is the hash of `"repo/path:start-end"`; there is no embedding; the content is the possibly truncated prefix; the path and type read back as written |
| Chunker.CreateChunkLines | src/repo_search/processing/chunker.py:240-247 | the start and end line stored in a created chunk read back as the numbers it was made with |
| Chunker.CreateChunkKeys | src/repo_search/processing/chunker.py:240-247 | the metadata of a created chunk has exactly the keys `file_path`, `chunk_type`, `start_line` and `end_line` |
| Chunker.SelectSplitter | src/repo_search/processing/chunker.py:131-155 | "code" exactly for a code extension, "markdown" exactly for ".md", "text" otherwise; the Python splitter only for ".py" |
| Chunker.StartLineAt | src/repo_search/processing/chunker.py:162-169 | the first chunk starts at line 0; a later chunk raises exactly when its text is empty (splitting on ""); otherwise its start is the number of newlines in the file before the first occurrence of its text, which is at most the file's newline count |
| Chunker.StartLines | src/repo_search/processing/chunker.py:162-171 | on success, one start line per chunk |
| Chunker.StartLinesFail | src/repo_search/processing/chunker.py:162-169 | the numbering fails exactly when a chunk after the first is empty |
| Chunker.StartLinesAt | src/repo_search/processing/chunker.py:164-169 | the k-th start line is the one computed for the k-th chunk on its own |
| Chunker.ChunkPieces | src/repo_search/processing/chunker.py:161-183 | on success, one chunk per splitter piece |
| Chunker.ChunkPiecesSpec | src/repo_search/processing/chunker.py:161-183 | it fails exactly when a later piece is empty; otherwise chunk k carries piece k with start line as computed, `end = start + newlines`, so `end >= start` |
| Chunker.ChunkFile | src/repo_search/processing/chunker.py:117-183 | `chunk_file` returns one chunk per piece produced by the splitter the extension selects (names, types and lines are stated by `Chunker.ChunkFileSpec`) |
| Chunker.ChunkFileSpec | src/repo_search/processing/chunker.py:117-183 | every chunk of a file is well numbered, named by the basename and typed by the extension |
| Chunker.SameBasenameSameChunks | src/repo_search/processing/chunker.py:235-238 | files with the same name in different directories get the same chunks and ids (see also line 119) |
| Chunker.ChunkRepositoryAppend | src/repo_search/processing/chunker.py:273-308 | chunking a walk is chunking its parts in order |
| Chunker.ChunkRepositorySingle | src/repo_search/processing/chunker.py:288-308 | a one-file walk yields that file's chunks |
| Chunker.FailingFileSkipped | src/repo_search/processing/chunker.py:295-308 | a file whose reading or chunking fails contributes nothing and the walk continues |
| Chunker.ChunkRepositoryAttribution | src/repo_search/processing/chunker.py:273-308 | every chunk of a repository walk is attributed to that repository |
| Embeddings.EffectiveBatchSize | src/repo_search/embedding/openai.py:38 | a given non-zero batch size is used; an absent or zero one falls back to the configured one |
| Embeddings.EmbedTexts | src/repo_search/embedding/openai.py:55-80 | a zero batch size raises ValueError; a negative one sends nothing |
| Embeddings.EmbedBatchesConcat | src/repo_search/embedding/openai.py:67-80 | the loop succeeds exactly when every call does, and returns the answers concatenated in batch order |
| Embeddings.EmbedTextsLength | src/repo_search/embedding/openai.py:55-80 | with a one-vector-per-input API, there is one embedding per text |
| Embeddings.EmbedTextsEmpty | src/repo_search/embedding/openai.py:67 | for a non-zero batch size, empty input returns `[]` whatever the API (a zero batch size raises even on empty input) |
| Embeddings.BatchesOfContents | src/repo_search/embedding/openai.py:95-99 | text batch k is the contents of chunk batch k |
| Embeddings.ZipBatch | src/repo_search/embedding/openai.py:117-120 | more vectors than chunks raises IndexError; otherwise output j is chunk j with vector j, and fewer vectors drop the rest |
| Embeddings.EmbedChunks | src/repo_search/embedding/openai.py:82-122 | a zero batch size raises ValueError; a negative one returns nothing; every chunk returned carries an embedding |
| Embeddings.EmbedChunkBatchesEmbedded | src/repo_search/embedding/openai.py:108-120 | every chunk the batch loop returns has its embedding set, whatever the API answers |
| Embeddings.EmbedChunksPositional | src/repo_search/embedding/openai.py:82-122 | with a one-vector-per-input API, output k is input chunk k with only the embedding replaced |
| Embeddings.EmbedChunksEmpty | src/repo_search/embedding/openai.py:98-99 | for a non-zero batch size, empty input returns `[]` whatever the API (a zero batch size raises even on empty input) |
| Store.IsoFormatRoundTrip | src/repo_search/database/chroma.py:333 | a timestamp survives `isoformat`/`fromisoformat` (see also line 391) |
| Store.Encode | src/repo_search/database/chroma.py:329-338 | the document has exactly the eight record keys |
| Store.IntField | src/repo_search/database/chroma.py:398-399 | an absent count defaults to 0; a present one must be an int |
| Store.BoolField | src/repo_search/database/chroma.py:401-403 | an absent flag defaults to false; a present one must be a bool |
| Store.CommitField | src/repo_search/database/chroma.py:400 | an absent commit hash defaults to None |
| Store.TimeField | src/repo_search/database/chroma.py:389-391 | an absent or falsy timestamp gives None |
| Store.Decode | src/repo_search/database/chroma.py:386-407 | a decoded record keeps the stored owner and name; a document without a string `url` gives None |
| Store.DecodeEncode | src/repo_search/database/chroma.py:388-404 | decoding an encoded record gives the same record (see also lines 329-338) |
| Store.DecodeDefaults | src/repo_search/database/chroma.py:396-403 | a document holding only `url` decodes with every other field at its default |
| Store.GetRepository | src/repo_search/database/chroma.py:369-407 | an unknown name gives None; a found record carries the stored owner and name |
| Store.AddRepository | src/repo_search/database/chroma.py:320-367 | upsert under `full_name`: a following get returns the record; only that key is added or changed; chunks are untouched |
| Store.GetAfterAdd | src/repo_search/database/chroma.py:320-407 | after an add, get returns the added record under its name and the old answer under any other name |
| Store.AddKeepsKeyConsistent | src/repo_search/database/chroma.py:351-353 | every entry stays keyed by its own `owner/name` (see also line 326) |
| Store.DeleteRepository | src/repo_search/database/chroma.py:409-429 | it returns false and changes nothing exactly when get finds no record; otherwise it removes the record and exactly the chunks stored under the name, keeps everything else, and returns true |
| Store.UnparsableRecordNotDeleted | src/repo_search/database/chroma.py:419-421 | a stored record without `url` is never deleted |
| Store.FlattenMetadata | src/repo_search/database/chroma.py:122-135 | the stored metadata has the chunk's keys plus the five written ones; the repository is set unless overridden; `file_path` and `chunk_type` keep their defaults; every other value is a string |
| Store.ReadLine | src/repo_search/database/chroma.py:262-266 | a line value is parsed exactly when it is all digits, and is otherwise None |
| Store.ReadMetadata | src/repo_search/database/chroma.py:259-268 | a non-string line value raises AttributeError; otherwise the keys are kept and non-line values are unchanged |
| Store.GetChunk | src/repo_search/database/chroma.py:239-276 | an unknown id gives None; a found chunk has the id, the stored document, the stored repository and no embedding |
| Store.LineRoundTrip | src/repo_search/database/chroma.py:262-266 | a non-negative int line survives store and read; an absent or None line reads back as None (see also lines 127-128) |
| Store.NegativeLineLost | src/repo_search/database/chroma.py:262-266 | a negative line reads back as None (see also lines 127-128) |
| Store.DedupById | src/repo_search/database/chroma.py:100-113 | the `seen_ids` loop computes the first-occurrence deduplication by id, and its ids are distinct |
| Store.AddBatchesFlatten | src/repo_search/database/chroma.py:138-147 | adding batch by batch equals adding the whole list |
| Store.AddBatchKeeps | src/repo_search/database/chroma.py:142-147 | adding chunks adds exactly their ids and leaves existing entries untouched |
| Store.AddBatchFirst | src/repo_search/database/chroma.py:142-147 | a new id holds the entry of its first chunk |
| Store.CountForPositive | src/repo_search/database/chroma.py:169-173 | a repository's chunk count is positive exactly when it has a chunk |
| Store.BumpOneEffect | src/repo_search/database/chroma.py:171-175 | one update raises a readable record's count and sets its time; other records and the chunks are unchanged |
| Store.BumpCountsEffect | src/repo_search/database/chroma.py:168-175 | the loop updates each readable record of a repository still to be visited, once, stamping it with the clock reading taken for that repository, and nothing else |
| Store.EnsureEmbedded | src/repo_search/database/chroma.py:91-98 | fully embedded chunks are kept; a missing embedding without an embedder raises ValueError; otherwise all chunks are re-embedded; on success every chunk carries an embedding |
| Store.StoreChunks | src/repo_search/database/chroma.py:82-175 | `[]` changes nothing; it fails exactly when embedding fails; a missing embedding without an embedder raises ValueError |
| Store.StoreChunksMap | src/repo_search/database/chroma.py:100-147 | the chunk collection becomes the deduplicated chunks added in one pass |
| Store.DedupIds | src/repo_search/database/chroma.py:100-113 | deduplication keeps the set of ids |
| Store.DedupKeepsFirst | src/repo_search/database/chroma.py:100-113 | the first chunk with an id survives deduplication |
| Store.StoreChunksStores | src/repo_search/database/chroma.py:82-147 | afterwards every chunk id is present; old entries are untouched; a new id holds its first chunk's entry |
| Store.StoreChunksCounts | src/repo_search/database/chroma.py:168-175 | each readable record of a stored repository gains that repository's deduplicated chunk count and the clock reading taken for that repository; every other record is unchanged |
| Store.StoreAgainCountsAgain | src/repo_search/database/chroma.py:138-175 | storing chunks that are all present leaves the chunks unchanged but still raises the counts |
| Engine.Normalize | src/repo_search/search/engine.py:65-67 | `force_refresh` turns on the three stage flags |
| Engine.Decide | src/repo_search/search/engine.py:84-142 | chunking can be skipped only if the download is, and embedding only if chunking is; counts are copied exactly on the changed branch; without an unchanged stored record every stage runs; otherwise each stage runs when the previous one does, when forced, or when its stored flag is false |
| Engine.ForceRefreshRunsEverything | src/repo_search/search/engine.py:130-140 | `force_refresh` runs all three stages and copies counts exactly when a record exists (see also lines 66-67, 91) |
| Engine.SkipAllIff | src/repo_search/search/engine.py:89-129 | every stage is skipped exactly when there is a stored record with a truthy, equal commit hash, nothing is forced, and all three flags are set |
| Engine.FastPath | src/repo_search/search/engine.py:123-129 | on the fast path the stored record is returned with no stage, no persist and no temporary directory |
| Engine.DownloadStage | src/repo_search/search/engine.py:144-165 | a download makes the temporary directory and persists the record with the download flag; a failure re-raises; a success records `num_files` |
| Engine.ChunkStage | src/repo_search/search/engine.py:167-182 | chunking runs only when needed and a download happened; it persists the flag and keeps the chunks collected; only a non-`UnicodeDecodeError` is re-raised |
| Engine.EmbedStage | src/repo_search/search/engine.py:184-199 | the stage runs only when needed and there are chunks or chunking was not needed; it stores the chunks only if there are any; success sets the flag, the time and (with chunks) the count; failure persists the flag false and re-raises |
| Engine.Finish | src/repo_search/search/engine.py:201-208 | a raise skips the clean-up; a normal return removes the directory and a removal failure is swallowed |
| Engine.StartRecord | src/repo_search/search/engine.py:138-140 | the working record is the fetched one, with the stored counts copied on the changed branch (see also lines 80-81) |
| Engine.Index | src/repo_search/search/engine.py:68-75 | a failed repository lookup raises ValueError with nothing changed |
| Engine.DownloadFailure | src/repo_search/search/engine.py:161-165 | a failed download persists `download_successful = false`, re-raises, runs no other stage, touches no chunk and leaves the directory |
| Engine.ChunkingNeedsDownload | src/repo_search/search/engine.py:169 | chunking only runs after a download in the same call |
| Engine.ChunkRetryNeverRuns | src/repo_search/search/engine.py:96-113 | same commit with a good download and failed chunking: nothing runs and nothing is persisted, and the returned record has all flags false and differs from the stored one (see also lines 169, 185) |
| Engine.ReembedOnlyResetsRecord | src/repo_search/search/engine.py:185-194 | forcing only re-embedding persists the fetched record with the download and chunking flags false and `num_chunks` 0, and stores nothing (see also lines 113-116) |
| Engine.ChunkErrorRaised | src/repo_search/search/engine.py:177-182 | a non-Unicode chunking error is re-raised after persisting the failed flag; nothing is stored and the directory stays |
| Engine.UnicodeErrorSwallowed | src/repo_search/search/engine.py:177-185 | a `UnicodeDecodeError` with no chunks returns normally with chunking recorded as failed and embedding skipped |
| Engine.PartialChunksStored | src/repo_search/search/engine.py:172-194 | chunks collected before a swallowed `UnicodeDecodeError` are stored, so embedding succeeds while chunking is recorded as failed |
| Engine.EmptyWalkSkipsStore | src/repo_search/search/engine.py:185 | a walk yielding no chunks skips the embed stage |
| Engine.EmbedOutcome | src/repo_search/search/engine.py:185-199 | with chunks: success sets the flag, the time and `num_chunks = len(chunks)`; failure persists the flag false and leaves the directory |
| Engine.RaiseLeavesTemp | src/repo_search/search/engine.py:199-206 | a raised error never removes the temporary directory (see also lines 147, 165, 182) |
| Engine.CleanupOnReturn | src/repo_search/search/engine.py:201-206 | a normal return after a download removes the directory unless removal fails; a removal failure changes nothing else |
| Engine.IndexShape | src/repo_search/search/engine.py:144-206 | the stages that ran are a prefix of download, chunking, storing, in that order; without a download there is no temporary directory; after one the directory is left on a raise or a failed removal and removed otherwise |
| Engine.ReturnedCommit | src/repo_search/search/engine.py:70-81 | a normal return means the repository lookup succeeded, and the returned record carries the latest commit hash it reported (see also lines 123-129, 208) |
| Engine.QuietCallIsFastPath | src/repo_search/search/engine.py:123-129 | a call that persists nothing and returns a record with a successful download took the fast path: it returns the stored record, changes nothing and runs no stage (see also lines 144-208) |
| Engine.ReturnedIsStored | src/repo_search/search/engine.py:160-208 | after any persist, the returned record is the last one persisted and is what `get_repository` reads |
| Engine.SecondCallFastPath | src/repo_search/search/engine.py:89-129 | after a fully successful index, a second unforced call with the same commit changes nothing |
| Engine.SearchDefaults | src/repo_search/search/engine.py:228-229 | a given non-zero limit or threshold is used; an absent or zero one falls back to the configuration |
| Engine.ZeroSearchArgumentsAreAbsent | src/repo_search/search/engine.py:228-229 | passing zero is the same as passing nothing |
| Engine.SearchDefaultsIdempotent | src/repo_search/search/engine.py:228-229 | applying the defaults twice changes nothing |

## Left out

- **I/O, third-party libraries and logging** (file reading and writing, the GitHub client, LangChain splitters, ChromaDB's index and query, `uuid5`, `datetime.now`, `print`/`tqdm`): these are oracles or parameters.
  - `max_file_size` is not modelled; the read oracle stands for it.
  - The encoding probe of `is_text_file` is a boolean per file.
- **Search itself:** `ChromaVectorDatabase.search` and `list_repositories` are left out. They are float similarity arithmetic over ChromaDB query results. Only the defaulting in `SearchEngine.search` is modelled.
- **Constructors, configuration and `clear`:** `SearchEngine.__init__`, the embedder's API-key check, configuration loading and `clear` are out of scope.
- **The second lookup in `fetch_repository_contents`:** it calls `get_repository_info` again. Its failure is folded into the download failure, and its record is read only for `num_files`.
- **Store write failures:** a failing `add_repository` or `chunks_collection.add` is not modelled. Nor is the per-item retry in `store_chunks`.
  - Re-adding a stored id is modelled as leaving the stored entry unchanged, which is where both the batch path and the retry path end.
- **ChromaDB metadata validation:** it would reject non-scalar values. Float metadata values are not modelled.
- **Pydantic lax coercions:** `"5"` to int and bool to int are not modelled. A JSON field of the wrong type counts as a parse failure, so `get_repository` returns `None`.
- **JSON text:** the serialized document is modelled as its decoded map. `isoformat` is modelled as the decimal form of a microsecond count, and only its round trip matters.
- **Python built-ins:** Unicode `isdigit`/`lower` are limited to ASCII. `int()` of strings with whitespace or underscores is not modelled.
- **Store.BumpCounts:** the loop over repository names iterates a Python `set`, whose order is unspecified. The model fixes that order to first appearance. Under the keying invariant (`Store.AddKeepsKeyConsistent`) each name's bump touches only its own record, so the order should not change the result, but no lemma states this.
- **Parallelism:** concurrency and interleaved indexing calls are not modelled. The code is single-threaded.
- **Chunker.KeptLines:** `int(len(lines) * max_tokens / token_estimate)` is computed in floating point. The model uses the exact floor, which can differ by one when the float quotient rounds across an integer.
- **Engine.Index:** the engine's `datetime.now()` reading and the per-repository readings inside `store_chunks` are separate parameters. Their relative order is not constrained.
- **Embeddings.EmbedTexts:** the per-call result is a vector list from the oracle. A response whose `data` is out of order is not modelled.
