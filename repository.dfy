/**
 * The indexing half of `RepositoryManager` in src/core/repository.py.
 *
 * `ListFiles` walks the cloned repository and keeps the files whose names end with one of the
 * given suffixes; `ProcessFile` chunks one file and adds every chunk, numbered from 0, to the
 * vector store, stopping at the first add that fails and never raising; `IndexRepositoryFiles`
 * processes every `.py`, `.md` and `.txt` file and then saves the index once.
 *
 * The file system is given to the model: `os.walk` is the sequence of steps it yields, a file's
 * decoded text is `contents(file)` (`None` when it cannot be opened), and the embedding service
 * answers the n-th embedding request of the run with `embed(n)`. Files are processed one after
 * the other.
 */
module Repository {
  import opened Wrappers
  import opened AsyncUtils
  import opened Vectorstore

  /** The `chunk_size` that `process_file` gives the chunker. */
  const CHUNK_SIZE: int := 512

  /** The suffixes `index_repository_files` asks `list_files` for. */
  const INDEXED_EXTENSIONS: seq<string> := [".py", ".md", ".txt"]

  /** The embedding service's reply to each request, by the request's position in the run. */
  type EmbeddingReplies = nat -> Result<Vector, Error>

  /** One step of `os.walk`: a directory, its sub-directories and the names of its files. */
  datatype WalkStep = WalkStep(root: string, dirs: seq<string>, files: seq<string>)

  /** `Path(root) / name` for a file `name` found in directory `root`. */
  datatype FilePath = FilePath(dir: string, name: string)

  // ---------------------------------------------------------------------------------------------
  // Listing files
  // ---------------------------------------------------------------------------------------------

  /** `s.endswith(suffix)` */
  predicate EndsWith(s: string, suffix: string)
  {
    |suffix| <= |s| && s[|s| - |suffix|..] == suffix
  }

  /** `name.endswith(tuple(extensions))`: the suffixes are tried in order. */
  predicate EndsWithAny(name: string, extensions: seq<string>)
    ensures EndsWithAny(name, extensions) <==> exists e :: e in extensions && EndsWith(name, e)
    decreases |extensions|
  {
    extensions != [] && (EndsWith(name, extensions[0]) || EndsWithAny(name, extensions[1..]))
  }

  /** The test of `list_files`, once `extensions or []` has been applied. */
  predicate Selected(extensions: seq<string>, name: string)
  {
    extensions == [] || EndsWithAny(name, extensions)
  }

  /** `extensions or []` */
  function Extensions(extensions: Option<seq<string>>): seq<string>
  {
    match extensions
    case None => []
    case Some(e) => e
  }

  /** The files of one walk step, in the order the step lists them. */
  function StepFiles(step: WalkStep): seq<FilePath>
  {
    seq(|step.files|, i requires 0 <= i < |step.files| => FilePath(step.root, step.files[i]))
  }

  /** Every file the walk visits, in walk order. */
  function Walked(walk: seq<WalkStep>): seq<FilePath>
  {
    if walk == [] then [] else StepFiles(walk[0]) + Walked(walk[1..])
  }

  /** The selected paths, in their original order. */
  function Filter(paths: seq<FilePath>, extensions: seq<string>): seq<FilePath>
  {
    if paths == [] then []
    else (if Selected(extensions, paths[0].name) then [paths[0]] else []) + Filter(paths[1..], extensions)
  }

  lemma {:induction false} WalkedAppend(a: seq<WalkStep>, b: seq<WalkStep>)
    ensures Walked(a + b) == Walked(a) + Walked(b)
  {
    if a == [] {
      assert a + b == b;
    } else {
      assert (a + b)[1..] == a[1..] + b;
      WalkedAppend(a[1..], b);
    }
  }

  lemma {:induction false} FilterAppend(a: seq<FilePath>, b: seq<FilePath>, extensions: seq<string>)
    ensures Filter(a + b, extensions) == Filter(a, extensions) + Filter(b, extensions)
  {
    if a == [] {
      assert a + b == b;
    } else {
      assert (a + b)[0] == a[0];
      assert (a + b)[1..] == a[1..] + b;
      FilterAppend(a[1..], b, extensions);
    }
  }

  lemma WalkedStep(walk: seq<WalkStep>, s: nat)
    requires s < |walk|
    ensures Walked(walk[..s + 1]) == Walked(walk[..s]) + StepFiles(walk[s])
  {
    WalkedAppend(walk[..s], [walk[s]]);
    assert walk[..s + 1] == walk[..s] + [walk[s]];
    assert Walked([walk[s]]) == StepFiles(walk[s]) + Walked([]);
    assert StepFiles(walk[s]) + [] == StepFiles(walk[s]);
  }

  lemma FilterStep(prefix: seq<FilePath>, step: WalkStep, f: nat, extensions: seq<string>)
    requires f < |step.files|
    ensures Filter(prefix + StepFiles(step)[..f + 1], extensions) ==
      Filter(prefix + StepFiles(step)[..f], extensions) +
      (if Selected(extensions, step.files[f]) then [FilePath(step.root, step.files[f])] else [])
  {
    var path := FilePath(step.root, step.files[f]);
    assert StepFiles(step)[..f + 1] == StepFiles(step)[..f] + [path];
    assert prefix + StepFiles(step)[..f + 1] == (prefix + StepFiles(step)[..f]) + [path];
    FilterAppend(prefix + StepFiles(step)[..f], [path], extensions);
    assert Filter([path], extensions) == (if Selected(extensions, path.name) then [path] else []) + Filter([], extensions);
  }

  /** A path is listed exactly when it was walked and its name passes the suffix test. */
  lemma {:induction false} FilterMembers(paths: seq<FilePath>, extensions: seq<string>, p: FilePath)
    ensures p in Filter(paths, extensions) <==> p in paths && Selected(extensions, p.name)
  {
    if paths != [] {
      FilterMembers(paths[1..], extensions, p);
      assert paths == [paths[0]] + paths[1..];
    }
  }

  /** With no suffixes (`None` or `[]`), every walked file is listed, in walk order. */
  lemma {:induction false} FilterNothing(paths: seq<FilePath>)
    ensures Filter(paths, []) == paths
  {
    if paths != [] {
      FilterNothing(paths[1..]);
      assert paths == [paths[0]] + paths[1..];
    }
  }

  /** A walked file: some step of the walk lists `name` in directory `dir`. */
  lemma {:induction false} WalkedMembers(walk: seq<WalkStep>, p: FilePath)
    ensures p in Walked(walk) <==> exists s :: 0 <= s < |walk| && walk[s].root == p.dir && p.name in walk[s].files
  {
    if walk != [] {
      WalkedMembers(walk[1..], p);
      assert p in StepFiles(walk[0]) <==> walk[0].root == p.dir && p.name in walk[0].files by {
        if p.name in walk[0].files {
          var i :| 0 <= i < |walk[0].files| && walk[0].files[i] == p.name;
          assert StepFiles(walk[0])[i] == FilePath(walk[0].root, p.name);
        }
      }
      if exists s :: 0 <= s < |walk[1..]| && walk[1..][s].root == p.dir && p.name in walk[1..][s].files {
        var s :| 0 <= s < |walk[1..]| && walk[1..][s].root == p.dir && p.name in walk[1..][s].files;
        assert walk[s + 1] == walk[1..][s];
      }
      if exists s :: 0 <= s < |walk| && walk[s].root == p.dir && p.name in walk[s].files {
        var s :| 0 <= s < |walk| && walk[s].root == p.dir && p.name in walk[s].files;
        if s > 0 {
          assert walk[1..][s - 1] == walk[s];
        }
      }
    }
  }

  // ---------------------------------------------------------------------------------------------
  // File names
  // ---------------------------------------------------------------------------------------------

  /** `name.rfind('.')` */
  function LastDot(name: string): (i: int)
    ensures -1 <= i < |name|
    ensures 0 <= i ==> name[i] == '.'
    ensures forall j :: i < j < |name| ==> name[j] != '.'
  {
    if name == [] then -1
    else if name[|name| - 1] == '.' then |name| - 1
    else LastDot(name[..|name| - 1])
  }

  /**
   * `PurePath.suffix`: the part of the name from its last dot on, or empty when the name has no
   * dot strictly inside it or ends with a dot.
   */
  function Suffix(name: string): (suffix: string)
    ensures suffix != [] <==>
      |name| > 0 && name[|name| - 1] != '.' && exists j :: 0 < j < |name| - 1 && name[j] == '.'
    ensures suffix != [] ==>
      EndsWith(name, suffix) && |suffix| < |name| && suffix[0] == '.' && '.' !in suffix[1..]
  {
    var i := LastDot(name);
    if 0 < i < |name| - 1 then name[i..] else ""
  }

  /** The record `process_file` stores for chunk number `number` of `file`. */
  function ChunkRecord(file: FilePath, chunk: string, number: nat): Metadata
  {
    Metadata(chunk, file.name, number, Suffix(file.name))
  }

  /**
   * A file named just `.py` passes the `.py` filter of `list_files`, yet its records carry an
   * empty extension, since a leading dot does not start a suffix.
   */
  lemma DotFileHasNoSuffix()
    ensures Selected(INDEXED_EXTENSIONS, ".py")
    ensures ChunkRecord(FilePath("repo", ".py"), "x", 0).fileExtension == ""
  {
    assert EndsWith(".py", ".py");
  }

  // ---------------------------------------------------------------------------------------------
  // Processing one file
  // ---------------------------------------------------------------------------------------------

  /** The chunks `file_chunker` yields for a file, none when the file cannot be opened. */
  function FileChunks(content: Option<string>): seq<string>
  {
    match content
    case None => []
    case Some(text) => Chunks(Lines(text), CHUNK_SIZE)
  }

  /** The store's vectors and records, and the number of embedding requests made so far. */
  datatype Progress = Progress(vectors: seq<Vector>, records: seq<Metadata>, calls: nat)

  /**
   * Adding `chunks`, numbered from `number` on, one by one: each add makes one embedding request;
   * the first request that fails raises out of the loop, and the rest are not attempted.
   */
  function AddChunks(p: Progress, file: FilePath, chunks: seq<string>, number: nat, embed: EmbeddingReplies): Progress
    decreases |chunks|
  {
    if chunks == [] then p
    else
      match embed(p.calls)
      case Failure(_) => p.(calls := p.calls + 1)
      case Success(v) =>
        AddChunks(Progress(p.vectors + [v], p.records + [ChunkRecord(file, chunks[0], number)], p.calls + 1),
                  file, chunks[1..], number + 1, embed)
  }

  /** Requests `from` to `from + count - 1` all succeed. */
  predicate AllSucceed(embed: EmbeddingReplies, from: nat, count: nat)
  {
    forall n :: from <= n < from + count ==> embed(n).Success?
  }

  /** How many of `count` requests, from request `from` on, succeed before the first failure. */
  function FirstFailure(embed: EmbeddingReplies, from: nat, count: nat): (j: nat)
    ensures j <= count
    ensures AllSucceed(embed, from, j)
    ensures j < count ==> embed(from + j).Failure?
    decreases count
  {
    if count == 0 || embed(from).Failure? then 0
    else 1 + FirstFailure(embed, from + 1, count - 1)
  }

  /** The vectors of `count` successful replies from request `from` on. */
  function Replies(embed: EmbeddingReplies, from: nat, count: nat): (vs: seq<Vector>)
    requires AllSucceed(embed, from, count)
    ensures |vs| == count
    decreases count
  {
    if count == 0 then [] else [embed(from).value] + Replies(embed, from + 1, count - 1)
  }

  /** The records of `chunks` of `file`, numbered from `number` on. */
  function Records(file: FilePath, chunks: seq<string>, number: nat): (rs: seq<Metadata>)
    ensures |rs| == |chunks|
    decreases |chunks|
  {
    if chunks == [] then [] else [ChunkRecord(file, chunks[0], number)] + Records(file, chunks[1..], number + 1)
  }

  /** The `i`-th successful reply is the reply to request `from + i`. */
  lemma {:induction false} RepliesAt(embed: EmbeddingReplies, from: nat, count: nat, i: nat)
    requires AllSucceed(embed, from, count)
    requires i < count
    ensures Replies(embed, from, count)[i] == embed(from + i).value
    decreases count
  {
    if i > 0 {
      RepliesAt(embed, from + 1, count - 1, i - 1);
    }
  }

  /** The record of the `i`-th chunk carries the chunk, the file's name and suffix, and `number + i`. */
  lemma {:induction false} RecordsAt(file: FilePath, chunks: seq<string>, number: nat, i: nat)
    requires i < |chunks|
    ensures Records(file, chunks, number)[i] == Metadata(chunks[i], file.name, number + i, Suffix(file.name))
    decreases |chunks|
  {
    if i > 0 {
      RecordsAt(file, chunks[1..], number + 1, i - 1);
    }
  }

  /**
   * What processing a file does: the first `j` chunks, `j` being the number of requests that
   * succeed before the first failure, are added with their vectors and with records numbered
   * consecutively; one more request is made, and fails, if `j` falls short of the chunks.
   */
  lemma AddChunksOutcome(p: Progress, file: FilePath, chunks: seq<string>, number: nat, embed: EmbeddingReplies)
    ensures var j := FirstFailure(embed, p.calls, |chunks|);
      var r := AddChunks(p, file, chunks, number, embed);
      && r.vectors == p.vectors + Replies(embed, p.calls, j)
      && r.records == p.records + Records(file, chunks[..j], number)
      && r.calls == p.calls + (if j < |chunks| then j + 1 else j)
  {
    AddedVectors(p, file, chunks, number, embed);
    AddedRecords(p, file, chunks, number, embed);
    AddedCalls(p, file, chunks, number, embed);
  }

  lemma {:induction false} AddedVectors(p: Progress, file: FilePath, chunks: seq<string>, number: nat, embed: EmbeddingReplies)
    ensures var j := FirstFailure(embed, p.calls, |chunks|);
      AddChunks(p, file, chunks, number, embed).vectors == p.vectors + Replies(embed, p.calls, j)
    decreases |chunks|
  {
    if chunks == [] || embed(p.calls).Failure? {
      NothingAdded(p, file, chunks, number, embed);
    } else {
      var j := FirstFailure(embed, p.calls, |chunks|);
      var q := Progress(p.vectors + [embed(p.calls).value], p.records + [ChunkRecord(file, chunks[0], number)], p.calls + 1);
      AddedFirst(p, file, chunks, number, embed);
      AddedVectors(q, file, chunks[1..], number + 1, embed);
      assert j == FirstFailure(embed, p.calls + 1, |chunks| - 1) + 1;
      RepliesStep(embed, p.calls, j, p.vectors);
    }
  }

  lemma {:induction false} AddedRecords(p: Progress, file: FilePath, chunks: seq<string>, number: nat, embed: EmbeddingReplies)
    ensures var j := FirstFailure(embed, p.calls, |chunks|);
      AddChunks(p, file, chunks, number, embed).records == p.records + Records(file, chunks[..j], number)
    decreases |chunks|
  {
    if chunks == [] || embed(p.calls).Failure? {
      NothingAdded(p, file, chunks, number, embed);
    } else {
      var j := FirstFailure(embed, p.calls, |chunks|);
      var q := Progress(p.vectors + [embed(p.calls).value], p.records + [ChunkRecord(file, chunks[0], number)], p.calls + 1);
      AddedFirst(p, file, chunks, number, embed);
      AddedRecords(q, file, chunks[1..], number + 1, embed);
      assert j == FirstFailure(embed, p.calls + 1, |chunks| - 1) + 1;
      RecordsStep(file, chunks, number, j, p.records);
    }
  }

  lemma {:induction false} AddedCalls(p: Progress, file: FilePath, chunks: seq<string>, number: nat, embed: EmbeddingReplies)
    ensures var j := FirstFailure(embed, p.calls, |chunks|);
      AddChunks(p, file, chunks, number, embed).calls == p.calls + (if j < |chunks| then j + 1 else j)
    decreases |chunks|
  {
    if chunks == [] || embed(p.calls).Failure? {
      NothingAdded(p, file, chunks, number, embed);
    } else {
      var j := FirstFailure(embed, p.calls, |chunks|);
      var q := Progress(p.vectors + [embed(p.calls).value], p.records + [ChunkRecord(file, chunks[0], number)], p.calls + 1);
      AddedFirst(p, file, chunks, number, embed);
      AddedCalls(q, file, chunks[1..], number + 1, embed);
      var j' := FirstFailure(embed, p.calls + 1, |chunks| - 1);
      assert j == j' + 1;
      assert (j < |chunks|) == (j' < |chunks| - 1);
    }
  }

  lemma AddedFirst(p: Progress, file: FilePath, chunks: seq<string>, number: nat, embed: EmbeddingReplies)
    requires chunks != [] && embed(p.calls).Success?
    ensures AddChunks(p, file, chunks, number, embed) ==
      AddChunks(Progress(p.vectors + [embed(p.calls).value], p.records + [ChunkRecord(file, chunks[0], number)], p.calls + 1),
                file, chunks[1..], number + 1, embed)
  {
  }

  lemma NothingAdded(p: Progress, file: FilePath, chunks: seq<string>, number: nat, embed: EmbeddingReplies)
    requires chunks == [] || embed(p.calls).Failure?
    ensures var r := AddChunks(p, file, chunks, number, embed);
      && FirstFailure(embed, p.calls, |chunks|) == 0
      && r.vectors == p.vectors + Replies(embed, p.calls, 0)
      && r.records == p.records + Records(file, chunks[..0], number)
      && r.calls == p.calls + (if 0 < |chunks| then 1 else 0)
  {
    assert Replies(embed, p.calls, 0) == [];
    assert Records(file, chunks[..0], number) == [];
    assert p.vectors + [] == p.vectors && p.records + [] == p.records;
  }

  lemma RepliesStep(embed: EmbeddingReplies, from: nat, count: nat, prefix: seq<Vector>)
    requires 0 < count
    requires AllSucceed(embed, from, count)
    ensures (prefix + [embed(from).value]) + Replies(embed, from + 1, count - 1) == prefix + Replies(embed, from, count)
  {
    assert Replies(embed, from, count) == [embed(from).value] + Replies(embed, from + 1, count - 1);
  }

  lemma RecordsStep(file: FilePath, chunks: seq<string>, number: nat, j: nat, prefix: seq<Metadata>)
    requires 0 < j <= |chunks|
    ensures (prefix + [ChunkRecord(file, chunks[0], number)]) + Records(file, chunks[1..][..j - 1], number + 1)
         == prefix + Records(file, chunks[..j], number)
  {
    assert chunks[..j][1..] == chunks[1..][..j - 1];
    assert Records(file, chunks[..j], number) == [ChunkRecord(file, chunks[0], number)] + Records(file, chunks[1..][..j - 1], number + 1);
  }

  // ---------------------------------------------------------------------------------------------
  // Indexing every file
  // ---------------------------------------------------------------------------------------------

  /** Processing `files` one after the other. */
  function IndexFiles(p: Progress, files: seq<FilePath>, contents: FilePath -> Option<string>, embed: EmbeddingReplies): Progress
    decreases |files|
  {
    if files == [] then p
    else IndexFiles(AddChunks(p, files[0], FileChunks(contents(files[0])), 0, embed), files[1..], contents, embed)
  }

  /** Number of files that yield at least one chunk. */
  function CountWithChunks(files: seq<FilePath>, contents: FilePath -> Option<string>): nat
  {
    if files == [] then 0
    else (if FileChunks(contents(files[0])) != [] then 1 else 0) + CountWithChunks(files[1..], contents)
  }

  /** Number of chunks of all files. */
  function TotalChunks(files: seq<FilePath>, contents: FilePath -> Option<string>): nat
  {
    if files == [] then 0
    else |FileChunks(contents(files[0]))| + TotalChunks(files[1..], contents)
  }

  /**
   * Indexing only appends, keeps the vectors and the records in step, and attempts every file:
   * each file with a chunk makes at least one embedding request, whatever happened to the files
   * before it, and no chunk is requested twice.
   */
  lemma {:induction false} IndexFilesAttemptsEveryFile(p: Progress, files: seq<FilePath>, contents: FilePath -> Option<string>, embed: EmbeddingReplies)
    ensures var q := IndexFiles(p, files, contents, embed);
      |p.vectors| <= |q.vectors| && q.vectors[..|p.vectors|] == p.vectors &&
      |p.records| <= |q.records| && q.records[..|p.records|] == p.records &&
      |q.vectors| - |q.records| == |p.vectors| - |p.records| &&
      p.calls + CountWithChunks(files, contents) <= q.calls <= p.calls + TotalChunks(files, contents)
    decreases |files|
  {
    if files != [] {
      var chunks := FileChunks(contents(files[0]));
      var p' := AddChunks(p, files[0], chunks, 0, embed);
      AddChunksOutcome(p, files[0], chunks, 0, embed);
      IndexFilesAttemptsEveryFile(p', files[1..], contents, embed);
      var q := IndexFiles(p', files[1..], contents, embed);
      assert q.vectors[..|p.vectors|] == q.vectors[..|p'.vectors|][..|p.vectors|];
      assert q.records[..|p.records|] == q.records[..|p'.records|][..|p.records|];
    }
  }

  /** Indexing two runs of files is indexing the first run, then the second from where it stopped. */
  lemma {:induction false} IndexFilesAppend(p: Progress, a: seq<FilePath>, b: seq<FilePath>, contents: FilePath -> Option<string>, embed: EmbeddingReplies)
    ensures IndexFiles(p, a + b, contents, embed) == IndexFiles(IndexFiles(p, a, contents, embed), b, contents, embed)
    decreases |a|
  {
    if a == [] {
      assert a + b == b;
    } else {
      assert (a + b)[0] == a[0];
      assert (a + b)[1..] == a[1..] + b;
      IndexFilesAppend(AddChunks(p, a[0], FileChunks(contents(a[0])), 0, embed), a[1..], b, contents, embed);
    }
  }

  /** File `k` is processed, from its first chunk, on whatever state the files before it left. */
  lemma IndexFilesEachFile(p: Progress, files: seq<FilePath>, contents: FilePath -> Option<string>, embed: EmbeddingReplies, k: nat)
    requires k < |files|
    ensures IndexFiles(p, files[..k + 1], contents, embed)
      == AddChunks(IndexFiles(p, files[..k], contents, embed), files[k], FileChunks(contents(files[k])), 0, embed)
  {
    assert files[..k + 1] == files[..k] + [files[k]];
    IndexFilesAppend(p, files[..k], [files[k]], contents, embed);
    assert [files[k]][1..] == [];
  }

  /**
   * Every file with a chunk is attempted, even after earlier files failed: it makes at least
   * one embedding request, and its chunks up to its first failed request are stored after the
   * records of the files before it.
   */
  lemma EveryFileAttempted(p: Progress, files: seq<FilePath>, contents: FilePath -> Option<string>, embed: EmbeddingReplies, k: nat)
    requires k < |files| && FileChunks(contents(files[k])) != []
    ensures var before := IndexFiles(p, files[..k], contents, embed);
      var after := IndexFiles(p, files[..k + 1], contents, embed);
      var chunks := FileChunks(contents(files[k]));
      var j := FirstFailure(embed, before.calls, |chunks|);
      && before.calls < after.calls
      && after.records == before.records + Records(files[k], chunks[..j], 0)
      && after.vectors == before.vectors + Replies(embed, before.calls, j)
  {
    var before := IndexFiles(p, files[..k], contents, embed);
    IndexFilesEachFile(p, files, contents, embed, k);
    AddChunksOutcome(before, files[k], FileChunks(contents(files[k])), 0, embed);
  }

  /** A non-empty file shorter than `CHUNK_SIZE` is a single chunk. */
  lemma ShortFileIsOneChunk(text: string)
    requires text != [] && |text| < CHUNK_SIZE
    ensures FileChunks(Some(text)) == [text]
  {
    var lines := Lines(text);
    LinesSplitText(text);
    assert lines != [];
    assert Flatten([lines]) == lines + Flatten([]);
    TotalLengthIsJoinLength(lines);
    forall k | 0 < k < |lines|
      ensures TotalLength(lines[..k]) < CHUNK_SIZE
    {
      assert lines == lines[..k] + lines[k..];
      TotalLengthAppend(lines[..k], lines[k..]);
    }
    assert IsChunking([lines], lines, CHUNK_SIZE);
    GroupsAreChunking(lines, CHUNK_SIZE);
    ChunkingIsUnique(Groups(lines, CHUNK_SIZE), [lines], lines, CHUNK_SIZE);
  }

  /**
   * Three one-chunk files whose second add fails: three adds are attempted, and the first and
   * third files are indexed.
   */
  lemma OneFailedFileSkipsOnlyItself(p: Progress, files: seq<FilePath>, texts: seq<string>,
                                     contents: FilePath -> Option<string>, embed: EmbeddingReplies)
    requires |files| == 3 && |texts| == 3
    requires forall i :: 0 <= i < 3 ==> contents(files[i]) == Some(texts[i]) && texts[i] != [] && |texts[i]| < CHUNK_SIZE
    requires embed(p.calls).Success? && embed(p.calls + 1).Failure? && embed(p.calls + 2).Success?
    ensures var q := IndexFiles(p, files, contents, embed);
      q.calls == p.calls + 3 &&
      q.records == p.records + [ChunkRecord(files[0], texts[0], 0), ChunkRecord(files[2], texts[2], 0)] &&
      q.vectors == p.vectors + [embed(p.calls).value, embed(p.calls + 2).value]
  {
    ShortFileIsOneChunk(texts[0]);
    ShortFileIsOneChunk(texts[1]);
    ShortFileIsOneChunk(texts[2]);
    var p1 := AddChunks(p, files[0], [texts[0]], 0, embed);
    var p2 := AddChunks(p1, files[1], [texts[1]], 0, embed);
    var p3 := AddChunks(p2, files[2], [texts[2]], 0, embed);
    var q1 := Progress(p.vectors + [embed(p.calls).value], p.records + [ChunkRecord(files[0], texts[0], 0)], p.calls + 1);
    assert [texts[0]][1..] == [];
    assert AddChunks(q1, files[0], [], 1, embed) == q1;
    assert p1 == q1;
    assert p2 == p1.(calls := p.calls + 2);
    var q3 := Progress(p2.vectors + [embed(p.calls + 2).value], p2.records + [ChunkRecord(files[2], texts[2], 0)], p.calls + 3);
    assert [texts[2]][1..] == [];
    assert AddChunks(q3, files[2], [], 1, embed) == q3;
    assert p3 == q3;
    assert files[1..][1..][1..] == [];
    assert FileChunks(contents(files[0])) == [texts[0]];
    assert FileChunks(contents(files[1..][0])) == [texts[1]];
    assert FileChunks(contents(files[1..][1..][0])) == [texts[2]];
    assert IndexFiles(p3, files[1..][1..][1..], contents, embed) == p3;
    assert IndexFiles(p2, files[1..][1..], contents, embed) == p3;
    assert IndexFiles(p1, files[1..], contents, embed) == p3;
  }

  /**
   * Awaiting the add is what stores a chunk: for a file with text and a working embedding
   * service, processing adds at least one record, where the never-awaited adds of
   * `RepositoryManager.ProcessFileAsWritten` leave the store as it was.
   */
  lemma AwaitedAddStoresChunk(p: Progress, file: FilePath, text: string, embed: EmbeddingReplies)
    requires text != [] && embed(p.calls).Success?
    ensures |AddChunks(p, file, FileChunks(Some(text)), 0, embed).records| > |p.records|
  {
    ChunksEmptyIff(Lines(text), CHUNK_SIZE);
    AddChunksOutcome(p, file, FileChunks(Some(text)), 0, embed);
  }

  /** `list_files(extensions=[".py", ".md"])` over a directory holding three texts and an image. */
  lemma SelectsPythonAndMarkdown()
    ensures Selected([".py", ".md"], "file1.py") && Selected([".py", ".md"], "file2.md")
    ensures !Selected([".py", ".md"], "file3.txt") && !Selected([".py", ".md"], "image.png")
  {
    assert [".py", ".md"][1..] == [".md"] && [".md"][1..] == [];
    assert "file3.txt"[6..] == "txt" && "file3.txt"[7..] == "xt";
    assert "image.png"[6..] == "png" && "image.png"[7..] == "ng";
  }

  lemma KeepsFirstTwo(ps: seq<FilePath>, extensions: seq<string>)
    requires |ps| == 4
    requires Selected(extensions, ps[0].name) && Selected(extensions, ps[1].name)
    requires !Selected(extensions, ps[2].name) && !Selected(extensions, ps[3].name)
    ensures Filter(ps, extensions) == [ps[0], ps[1]]
  {
    assert Filter(ps[3..], extensions) == [] by {
      assert ps[3..][1..] == [];
    }
    assert Filter(ps[2..], extensions) == [] by {
      assert ps[2..][1..] == ps[3..];
    }
    assert Filter(ps[1..], extensions) == [ps[1]] by {
      assert ps[1..][1..] == ps[2..];
    }
  }

  lemma ListsPythonAndMarkdown(root: string)
    ensures Filter(Walked([WalkStep(root, [], ["file1.py", "file2.md", "file3.txt", "image.png"])]), [".py", ".md"])
         == [FilePath(root, "file1.py"), FilePath(root, "file2.md")]
  {
    var step := WalkStep(root, [], ["file1.py", "file2.md", "file3.txt", "image.png"]);
    var ps := StepFiles(step);
    assert Walked([step]) == ps by {
      assert Walked([step]) == ps + Walked([]);
      assert ps + [] == ps;
    }
    assert ps[0] == FilePath(root, "file1.py") && ps[1] == FilePath(root, "file2.md");
    assert ps[2] == FilePath(root, "file3.txt") && ps[3] == FilePath(root, "image.png");
    SelectsPythonAndMarkdown();
    KeepsFirstTwo(ps, [".py", ".md"]);
  }

  // ---------------------------------------------------------------------------------------------
  // The manager
  // ---------------------------------------------------------------------------------------------

  class RepositoryManager {
    const repoUrl: string
    const clonePath: string
    const vectorStore: VectorStore

    constructor (repoUrl: string, clonePath: string, vectorStore: VectorStore)
      ensures this.repoUrl == repoUrl && this.clonePath == clonePath && this.vectorStore == vectorStore
    {
      this.repoUrl := repoUrl;
      this.clonePath := clonePath;
      this.vectorStore := vectorStore;
    }

    /**
     * `list_files`: the files of `walk` (what `os.walk(clonePath)` yields), in walk order, whose
     * names end with one of `extensions`; all of them when `extensions` is `None` or empty.
     */
    method ListFiles(walk: seq<WalkStep>, extensions: Option<seq<string>>) returns (allFiles: seq<FilePath>)
      ensures allFiles == Filter(Walked(walk), Extensions(extensions))
    {
      var exts := if extensions.Some? then extensions.value else [];
      allFiles := [];
      var s := 0;
      while s < |walk|
        invariant 0 <= s <= |walk|
        invariant allFiles == Filter(Walked(walk[..s]), exts)
      {
        var step := walk[s];
        assert StepFiles(step)[..0] == [];
        assert Walked(walk[..s]) + [] == Walked(walk[..s]);
        var f := 0;
        while f < |step.files|
          invariant 0 <= f <= |step.files|
          invariant allFiles == Filter(Walked(walk[..s]) + StepFiles(step)[..f], exts)
        {
          var file := step.files[f];
          FilterStep(Walked(walk[..s]), step, f, exts);
          if exts == [] || EndsWithAny(file, exts) {
            allFiles := allFiles + [FilePath(step.root, file)];
          }
          f := f + 1;
        }
        assert StepFiles(step)[..f] == StepFiles(step);
        WalkedStep(walk, s);
        s := s + 1;
      }
      assert walk[..s] == walk;
    }

    /**
     * `process_file`: adds the chunks of `file` (whose text is `content`, `None` if it cannot
     * be opened) to the store one by one, numbered from 0, until an add raises; the error is
     * swallowed. `calls` is the number of embedding requests made before; the result, after.
     */
    method ProcessFile(file: FilePath, content: Option<string>, embed: EmbeddingReplies, calls: nat)
      returns (callsAfter: nat)
      modifies vectorStore
      ensures var q := AddChunks(Progress(old(vectorStore.index.vectors), old(vectorStore.metadata), calls),
                                 file, FileChunks(content), 0, embed);
        vectorStore.index.vectors == q.vectors && vectorStore.metadata == q.records && callsAfter == q.calls
      ensures vectorStore.index.dim == old(vectorStore.index.dim)
    {
      var fileExtension := Suffix(file.name);
      var chunks: seq<string> := [];
      if content.Some? {
        chunks := FileChunker(content.value, CHUNK_SIZE);
      }
      ghost var goal := AddChunks(Progress(vectorStore.index.vectors, vectorStore.metadata, calls), file, chunks, 0, embed);
      var chunkNumber := 0;
      callsAfter := calls;
      while chunkNumber < |chunks|
        invariant 0 <= chunkNumber <= |chunks|
        invariant vectorStore.index.dim == old(vectorStore.index.dim)
        invariant AddChunks(Progress(vectorStore.index.vectors, vectorStore.metadata, callsAfter),
                            file, chunks[chunkNumber..], chunkNumber, embed) == goal
      {
        var chunk := chunks[chunkNumber];
        var metadata := Metadata(chunk, file.name, chunkNumber, fileExtension);
        assert chunks[chunkNumber..][1..] == chunks[chunkNumber + 1..];
        var outcome := vectorStore.AddText(chunk, metadata, embed(callsAfter));
        callsAfter := callsAfter + 1;
        if outcome.Fail? {
          return;
        }
        chunkNumber := chunkNumber + 1;
      }
    }

    /**
     * `process_file` as written: each chunk's `add_text` is handed to `asyncio.to_thread`, which
     * calls it in a worker thread; calling a coroutine function only creates the coroutine, and
     * nothing awaits it, so no embedding is requested, nothing is added and nothing raises. The
     * store is outside this method's frame. The result is the final `chunk_number`.
     */
    method ProcessFileAsWritten(file: FilePath, content: Option<string>) returns (chunkNumber: nat)
      ensures chunkNumber == |FileChunks(content)|
    {
      var chunks: seq<string> := [];
      if content.Some? {
        chunks := FileChunker(content.value, CHUNK_SIZE);
      }
      chunkNumber := 0;
      while chunkNumber < |chunks|
        invariant chunkNumber <= |chunks|
      {
        chunkNumber := chunkNumber + 1;
      }
    }

    /**
     * `index_repository_files`: processes every listed `.py`, `.md` and `.txt` file, whatever
     * happens to the others, then saves the index once, to the default snapshot path.
     */
    method IndexRepositoryFiles(walk: seq<WalkStep>, contents: FilePath -> Option<string>, embed: EmbeddingReplies,
                                calls: nat, disk: Disk)
      returns (callsAfter: nat)
      modifies vectorStore, disk
      ensures var q := IndexFiles(Progress(old(vectorStore.index.vectors), old(vectorStore.metadata), calls),
                                  Filter(Walked(walk), INDEXED_EXTENSIONS), contents, embed);
        vectorStore.index.vectors == q.vectors && vectorStore.metadata == q.records && callsAfter == q.calls
      ensures vectorStore.index.dim == old(vectorStore.index.dim)
      ensures disk.files == old(disk.files)[DEFAULT_INDEX_FILE := vectorStore.index]
      ensures disk.writes == old(disk.writes) + [DEFAULT_INDEX_FILE]
    {
      var files := ListFiles(walk, Some(INDEXED_EXTENSIONS));
      ghost var goal := IndexFiles(Progress(vectorStore.index.vectors, vectorStore.metadata, calls), files, contents, embed);
      callsAfter := calls;
      var k := 0;
      while k < |files|
        invariant 0 <= k <= |files|
        invariant vectorStore.index.dim == old(vectorStore.index.dim)
        invariant disk.files == old(disk.files) && disk.writes == old(disk.writes)
        invariant IndexFiles(Progress(vectorStore.index.vectors, vectorStore.metadata, callsAfter),
                             files[k..], contents, embed) == goal
      {
        assert files[k..][1..] == files[k + 1..];
        callsAfter := ProcessFile(files[k], contents(files[k]), embed, callsAfter);
        k := k + 1;
      }
      vectorStore.SaveIndex(disk, DEFAULT_INDEX_FILE);
    }
  }
}
