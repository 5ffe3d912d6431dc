# Repository analyzer retrieval core, in Dafny

This project models the retrieval pipeline of the repository analyzer. A cloned repository's
`.py`, `.md` and `.txt` files are split into line-aligned chunks. Each chunk is embedded and
stored in a flat vector index, with a metadata record beside its vector. Queries are answered by
mapping the index's nearest-neighbour hits back to those records. The model covers three parts.

- `AsyncUtils` (`async_utils.dfy`): `file_chunker`.
  - `FileChunker` runs its buffer-and-flush loop over the lines of a file.
  - It is proved equal to the specification function `Chunks`.
  - `IsChunking` describes chunkings independently of the loop. `GroupsAreChunking` shows that
    `Chunks` meets it, which gives the size and round-trip properties.
  - `ChunkingIsUnique` shows no other chunking fits. The scenario properties (`HelloFileChunks`,
    `OneLinePerChunk`, `ChunksAfterFlush`, `ShortFileIsOneChunk`) are derived from that.
- `Vectorstore` (`vectorstore.dfy`): the `VectorStore` class.
  - Fields: the metadata list and the FAISS flat index, whose stored vectors are in insertion
    order.
  - `AddText`, `Search`, `SaveIndex`, `LoadIndex` and the constructor.
  - A `Disk` object stands for the snapshot files.
  - `Search` is proved against `SearchResults`, which keeps the source's `idx < len(metadata)`
    check and Python's negative indexing.
- `Repository` (`repository.dfy`): `RepositoryManager.list_files`, `process_file` and
  `index_repository_files`.
  - Each is proved against a specification function: `Filter(Walked(..))`, `AddChunks` and
    `IndexFiles`.
  - `AddChunksOutcome`, `IndexFilesAttemptsEveryFile` and `EveryFileAttempted` state what those
    functions do.

The outside world is given to the model:
- a file's decoded, newline-translated text is an `Option<string>` (`None` when it cannot be
  opened);
- `os.walk` is the sequence of steps it yields;
- the embedding service's reply is a `Result` per request, and the n-th request of an indexing
  run gets `embed(n)`;
- FAISS's `search` is a function from the index, the query vector and `top_k` to hits.

Where the system's documented design and its code disagree, the model follows the code:
- `search` on a store with no records raises `IndexError` as soon as FAISS pads its answer with
  -1 (`Vectorstore.NoRecordsPaddingFails`). The design says an empty index gives an empty
  answer.
- When the store has records, `search` repeats the last record for every padding hit
  (`Vectorstore.PaddingRepeatsLastRecord`), where the design promises no padding.
- `index_repository_files` only prints the failed files. It reports nothing to its caller.

## Model

| member | source | states |
|---|---|---|
| AsyncUtils.FileChunker | src/utils/async_utils.py:4-15 | the chunks the generator yields for a file's text are `Chunks(Lines(content), chunkSize)` |
| AsyncUtils.FirstLineLength | src/utils/async_utils.py:8 | a line read from a file ends at the first newline, inclusive, or at the end of the text |
| AsyncUtils.LinesSplitText | src/utils/async_utils.py:6-8 | the lines read from a file join back to its text, and each is non-empty with a newline only at its end, required except on the last line |
| AsyncUtils.LinesOfJoin | src/utils/async_utils.py:8 | proper lines written out one after the other are read back as the same lines |
| AsyncUtils.GroupsAreChunking | src/utils/async_utils.py:7-15 | the loop's groups of lines are a chunking: a concatenation of the lines into non-empty runs, each cut at the first line with which it reaches `chunk_size`, and all but the last reach it |
| AsyncUtils.ChunkingIsUnique | src/utils/async_utils.py:7-15 | a sequence of lines has only one such chunking |
| AsyncUtils.ChunksJoinToLines | src/utils/async_utils.py:8-15 | joining the chunks in order gives the joined lines: nothing lost or duplicated |
| AsyncUtils.FileChunksJoinToContent | src/utils/async_utils.py:6-15 | joining a file's chunks gives back the file's text |
| AsyncUtils.ChunksReachSize | src/utils/async_utils.py:10-11 | every chunk except the last is at least `chunk_size` long |
| AsyncUtils.ChunkSizeBound | src/utils/async_utils.py:9-12 | with `chunk_size > 0` and lines of at most `maxLine` characters, every chunk is shorter than `chunk_size + maxLine`: overshoot is less than one line |
| AsyncUtils.ChunksEmptyIff | src/utils/async_utils.py:7-15 | there are no chunks exactly when there are no lines |
| AsyncUtils.ChunksNotEmpty | src/utils/async_utils.py:9-15 | from non-empty lines no chunk is empty |
| AsyncUtils.OneLinePerChunk | src/utils/async_utils.py:10-12 | with `chunk_size <= 0` every line is a chunk of its own |
| AsyncUtils.ChunksAfterFlush | src/utils/async_utils.py:10-15 | when input ends exactly on a flush no trailing chunk follows, and chunking resumes from an empty buffer |
| AsyncUtils.HelloFileChunks | tests/unit/test_vectorstore.py:16-26 | 100 lines `print('Hello')\n` at `chunk_size=500` give three chunks of 510, 510 and 480 characters |
| Vectorstore.VectorStore.constructor | src/core/vectorstore.py:14-21 | a new store has no records and the snapshot's index if there is one, else an empty index of the given dimension; vectors and records are in step exactly when no non-empty snapshot was loaded |
| Vectorstore.VectorStore.AddText | src/core/vectorstore.py:32-37 | a successful embedding appends one vector and one record; a failed one raises its error and changes nothing; the vector-record offset is kept |
| Vectorstore.VectorStore.Search | src/core/vectorstore.py:39-49 | a failed query embedding raises; otherwise the result is `SearchResults` over FAISS's hits for `top_k` |
| Vectorstore.VectorStore.SaveIndex | src/core/vectorstore.py:51-53 | the index, and only the index, is written to the path |
| Vectorstore.VectorStore.LoadIndex | src/core/vectorstore.py:55-61 | the index becomes the snapshot if it can be read, and otherwise stays as it was |
| Vectorstore.SaveAndReopen | src/core/vectorstore.py:14-21 | after `save_index()` a store built on the default file gets back the index but none of the records, so a non-empty index is out of step with its records |
| Vectorstore.SearchResultsAppend | src/core/vectorstore.py:44-49 | results follow the hits' order: the results of two runs of hits are those of the first followed by those of the second, with the first failure winning |
| Vectorstore.SearchFailsIff | src/core/vectorstore.py:46-48 | search raises exactly when some hit's index is below `-len(metadata)`, and then with `IndexError` |
| Vectorstore.SearchResultsCount | src/core/vectorstore.py:45-49 | a successful search gives one result per hit whose index is below `len(metadata)`, never more results than hits |
| Vectorstore.SearchResultsInRange | src/core/vectorstore.py:45-48 | when every hit names a stored record, the i-th result is that record's text with the i-th distance |
| Vectorstore.PaddingRepeatsLastRecord | src/core/vectorstore.py:47-48 | with records in step with the vectors and `top_k` above their number, every padding hit returns the last record's text |
| Vectorstore.NoRecordsPaddingFails | src/core/vectorstore.py:47-48 | with no records, a search that FAISS pads raises `IndexError` |
| Vectorstore.NoRecordsNoPaddingIsEmpty | src/core/vectorstore.py:45-48 | with no records and no padding, search returns nothing |
| Vectorstore.CheckedSearchDropsPadding | src/core/vectorstore.py:47 | with the intended check `0 <= idx < len(metadata)`, search returns exactly `min(top_k, stored)` results, the i-th being the i-th hit's record |
| Vectorstore.CheckedAgreesInRange | src/core/vectorstore.py:47-48 | where every hit names a stored record, the intended check and the written one agree |
| Vectorstore.CheckedSkipsPadding | src/core/vectorstore.py:47 | under the intended check padding hits contribute nothing |
| Repository.RepositoryManager.constructor | src/core/repository.py:38-41 | the manager keeps the URL, the clone path and the store it is given |
| Repository.RepositoryManager.ListFiles | src/core/repository.py:61-74 | the listed paths are the walked files, in walk order, whose names end with one of the extensions; all of them when none are given |
| Repository.EndsWithAny | src/core/repository.py:72 | a name ends with the tuple of suffixes exactly when it ends with one of them |
| Repository.WalkedMembers | src/core/repository.py:69-73 | a path is walked exactly when some walk step lists the name in that directory |
| Repository.FilterMembers | src/core/repository.py:71-73 | a path is listed exactly when it was walked and its name passes the suffix test |
| Repository.FilterNothing | src/core/repository.py:67-72 | with `extensions` `None` or empty every walked file is listed, in order |
| Repository.ListsPythonAndMarkdown | tests/unit/test_repository.py:47-62 | among `file1.py`, `file2.md`, `file3.txt` and `image.png`, the `.py`/`.md` filter lists exactly the first two |
| Repository.LastDot | src/core/repository.py:92 | the position of the name's last dot, or -1 when it has none |
| Repository.Suffix | src/core/repository.py:92 | `file.suffix` is non-empty exactly when the name has a dot after its first character and does not end with a dot; it is then the dot-started ending of the name that holds no other dot |
| Repository.DotFileHasNoSuffix | src/core/repository.py:92-99 | a file named `.py` passes the indexing filter but its records carry an empty extension |
| Repository.FirstFailure | src/core/repository.py:94-104 | the number of chunks added before the first failing add: all requests before it succeed and the one at it fails |
| Repository.RecordsAt | src/core/repository.py:95-100 | the record of the i-th chunk holds the chunk, the file's name, the file's suffix and chunk number `first + i` |
| Repository.RepliesAt | src/core/repository.py:101 | the i-th stored vector is the reply to the i-th embedding request |
| Repository.AddChunksOutcome | src/core/repository.py:91-104 | processing a file adds its first `j` chunks, `j` being the adds that succeed before the first failure, with records numbered 0 to `j-1`; the failed add is the last request made and the rest of the file is skipped |
| Repository.AddedVectors | src/core/repository.py:101-104 | the vectors added for a file are the replies to the requests before the first failure |
| Repository.AddedRecords | src/core/repository.py:93-104 | the records added for a file are those of its first `j` chunks, numbered from 0 |
| Repository.AddedCalls | src/core/repository.py:94-104 | a file makes one request per chunk until the first failure, the failing one included |
| Repository.RepositoryManager.ProcessFile | src/core/repository.py:89-104 | with the add awaited, the store ends as `AddChunks` describes, and `process_file` never raises |
| Repository.RepositoryManager.ProcessFileAsWritten | src/core/repository.py:89-104 | as written, the loop counts the file's chunks while the store, outside the method's frame, does not change |
| Repository.AwaitedAddStoresChunk | src/core/repository.py:101 | for a file with text and a working embedding service, the awaited add stores at least one record |
| Repository.RepositoryManager.IndexRepositoryFiles | src/core/repository.py:76-87 | every listed `.py`/`.md`/`.txt` file is processed in list order, then the index is saved once, to the default file |
| Repository.IndexFilesAttemptsEveryFile | src/core/repository.py:79-81 | indexing only appends and keeps the vector-record offset; in total, the requests number at least one per file with a chunk and at most one per chunk |
| Repository.IndexFilesAppend | src/core/repository.py:80-81 | indexing a run of files is indexing its first part, then the rest from the state the first part left |
| Repository.IndexFilesEachFile | src/core/repository.py:80-81 | file `k` is processed from its first chunk on whatever state the files before it left, failed or not |
| Repository.EveryFileAttempted | src/core/repository.py:80-81 | every file with a chunk makes at least one request even after earlier files failed, and its chunks up to its first failed request, with their vectors, are appended after the records of the files before it |
| Repository.ShortFileIsOneChunk | src/core/repository.py:94 | a non-empty file shorter than 512 characters is one chunk, its whole text |
| Repository.OneFailedFileSkipsOnlyItself | tests/unit/test_repository.py:102-116 | three one-chunk files whose second add fails make three add requests, and the first and third files are indexed |

## Left out

- Asynchrony and concurrency are not modelled. This covers the `async` generator, `asyncio.gather` over the files, `asyncio.to_thread` and signal-driven shutdown.
  - Files are processed one after the other, in list order, which is one of the interleavings the real code allows.
  - Across files, the order of records and the assignment of embedding replies to requests depend on scheduling in the real code.
- Decoding with `errors="ignore"` and universal-newline translation are not modelled: a file's content is taken as already-decoded text.
- The embedding service, the rate limiter, the OpenAI client and the test of `_get_embedding` are outside the model: the service is a reply per request.
- FAISS's distance computation, the ordering of hits by distance and the dimension check in `IndexFlatL2.add` are not modelled.
  - Search is given FAISS's hits.
  - `FlatSearchShape` states only their count and the -1 padding.
  - The distance scenario from the design (≈ 0.02) is therefore not stated.
- Metadata records are the four-field record `process_file` builds. An arbitrary dictionary without `"text"`, whose `KeyError` in `search` would then be possible, is not modelled.
- Snapshot writes are not modelled as failing. A failed `faiss.write_index` would propagate out of `index_repository_files`.
- Logging with `print` is not modelled: the error loop of `index_repository_files` only prints, so it has no counterpart.
- Cloning is not modelled: `clone_repository`, `async_repo_manager`, the Git client, `shutdown` and the module-level event-loop setup.
- `src/core/assistant.py`, `src/api/endpoints.py`, `src/utils/config.py` and `src/utils/rate_limiter.py` are not part of this model.
- Repository.Suffix: follows `PurePath.suffix` as in Python 3.9 to 3.13, where a name ending in a dot has no suffix. Python 3.14 counts a trailing single dot as a suffix; that version's behaviour is not modelled.
- Repository.RepositoryManager.IndexRepositoryFiles: processes the files sequentially and assumes the awaited add of `ProcessFile`. With the add as written, nothing would be indexed (see Findings).

## Findings

| source | as written | input that shows it | evidently intended | confidence | as-written member | corrected member |
|---|---|---|---|---|---|---|
| tests/unit/test_vectorstore.py:26 | asserts every chunk of the chunker is at most `chunk_size` long | 100 lines `print('Hello')\n` with `chunk_size=500`: the first two chunks are 510 characters | a chunk overshoots `chunk_size` by less than its last line, as the chunker flushes only once the size is reached | not executed | AsyncUtils.HelloFileChunks | AsyncUtils.ChunkSizeBound |
| src/core/vectorstore.py:47 | keeps any hit with `idx < len(metadata)`, so FAISS's -1 padding passes and reads `metadata[-1]` | 2 records, `top_k=5`: hits 3 to 5 all return the last record's text; with 0 records, any padded search raises `IndexError` | keep only `0 <= idx < len(metadata)`: `min(top_k, stored)` results, no padding, no error | not executed | Vectorstore.PaddingRepeatsLastRecord | Vectorstore.CheckedSearchDropsPadding |
| src/core/repository.py:101 | passes the coroutine function `add_text` to `asyncio.to_thread`, which only creates the coroutine and never awaits it | any file with text: no embedding is requested and no record is stored | await `add_text` for each chunk, stopping the file at the first failure | not executed | Repository.RepositoryManager.ProcessFileAsWritten | Repository.RepositoryManager.ProcessFile |
