/**
 * The vector store of src/core/vectorstore.py.
 *
 * A `VectorStore` keeps a FAISS flat L2 index next to a list of metadata records; the i-th record
 * is meant to describe the i-th vector. The index can be written to and read from a snapshot
 * file, but the records are never persisted.
 *
 * What lies outside the store is given to it: the remote embedding service is the reply it gave
 * (`Result<Vector, Error>`), FAISS's nearest-neighbour search is a function from the index, the
 * query vector and `top_k` to the hits it returns, and the snapshot files are a `Disk` object.
 * Distances are opaque: they are only passed along, never computed.
 */
module Vectorstore {
  import opened Wrappers

  type Vector = seq<real>

  /** A FAISS `IndexFlatL2`: its dimension and its vectors in insertion order. */
  datatype FlatIndex = FlatIndex(dim: int, vectors: seq<Vector>)

  /** The record kept beside each vector. */
  datatype Metadata = Metadata(text: string, filename: string, chunkNumber: int, fileExtension: string)

  /** One hit of a FAISS search: a distance and a vector position, or -1 where FAISS pads. */
  datatype Hit = Hit(distance: real, idx: int)

  /** One search result: `(metadata[idx]["text"], distance)`. */
  datatype Match = Match(text: string, distance: real)

  datatype Error =
    | EmbeddingFailed   // the embedding service raised
    | IndexError        // `self.metadata[idx]` with `idx < -len(self.metadata)`

  /** FAISS's search: the index, the query vector and `top_k` determine the hits. */
  type SearchOracle = (FlatIndex, Vector, int) -> seq<Hit>

  const DEFAULT_EMBEDDING_DIM: int := 1536
  const DEFAULT_INDEX_FILE: string := "vectorstore.index"

  /**
   * The snapshot files FAISS can read, by path; a path that is not a key is missing or
   * unreadable. `writes` records, in order, every path an index was written to.
   */
  class Disk {
    var files: map<string, FlatIndex>
    ghost var writes: seq<string>

    constructor (files: map<string, FlatIndex>)
      ensures this.files == files && writes == []
    {
      this.files := files;
      writes := [];
    }
  }

  // ---------------------------------------------------------------------------------------------
  // Mapping search hits back to metadata
  // ---------------------------------------------------------------------------------------------

  /** Position that Python's `xs[idx]` reads in a list of `count` elements, negative labels counting from the end. */
  function ListPosition(count: nat, idx: int): int
  {
    if idx >= 0 then idx else count + idx
  }

  /**
   * The results `search` builds from FAISS's hits: a hit whose idx is not below
   * `len(metadata)` is skipped; any other idx indexes the list the Python way, and one below
   * `-len(metadata)` raises `IndexError`.
   */
  function SearchResults(metadata: seq<Metadata>, hits: seq<Hit>): Result<seq<Match>, Error>
  {
    if hits == [] then Success([])
    else
      var h := hits[0];
      if h.idx >= |metadata| then SearchResults(metadata, hits[1..])
      else if h.idx < -|metadata| then Failure(IndexError)
      else
        match SearchResults(metadata, hits[1..])
        case Success(rest) =>
          Success([Match(metadata[ListPosition(|metadata|, h.idx)].text, h.distance)] + rest)
        case Failure(e) => Failure(e)
  }

  /** Results of two runs of hits, one after the other; the first failure wins. */
  function Then(first: Result<seq<Match>, Error>, second: Result<seq<Match>, Error>): Result<seq<Match>, Error>
  {
    match first
    case Failure(e) => Failure(e)
    case Success(a) =>
      match second
      case Failure(e) => Failure(e)
      case Success(b) => Success(a + b)
  }

  /**
   * Results follow the hits' order: the results of two runs of hits are the results of the
   * first run followed by those of the second.
   */
  lemma {:induction false} SearchResultsAppend(metadata: seq<Metadata>, a: seq<Hit>, b: seq<Hit>)
    ensures SearchResults(metadata, a + b) == Then(SearchResults(metadata, a), SearchResults(metadata, b))
  {
    if a == [] {
      assert a + b == b;
      match SearchResults(metadata, b)
      case Success(y) => assert [] + y == y;
      case Failure(_) =>
    } else {
      assert (a + b)[0] == a[0];
      assert (a + b)[1..] == a[1..] + b;
      SearchResultsAppend(metadata, a[1..], b);
      var h := a[0];
      if -|metadata| <= h.idx < |metadata| {
        var m := Match(metadata[ListPosition(|metadata|, h.idx)].text, h.distance);
        match SearchResults(metadata, a[1..])
        case Failure(_) =>
        case Success(x) =>
          match SearchResults(metadata, b)
          case Failure(_) =>
          case Success(y) =>
            assert [m] + (x + y) == ([m] + x) + y;
      }
    }
  }

  /** `search` raises exactly when some hit's idx lies below `-len(metadata)`, and then with `IndexError`. */
  lemma {:induction false} SearchFailsIff(metadata: seq<Metadata>, hits: seq<Hit>)
    ensures SearchResults(metadata, hits).Failure? <==>
            exists i :: 0 <= i < |hits| && hits[i].idx < -|metadata|
    ensures SearchResults(metadata, hits).Failure? ==> SearchResults(metadata, hits).error == IndexError
  {
    if hits != [] {
      SearchFailsIff(metadata, hits[1..]);
      if exists i :: 0 <= i < |hits[1..]| && hits[1..][i].idx < -|metadata| {
        var i :| 0 <= i < |hits[1..]| && hits[1..][i].idx < -|metadata|;
        assert hits[i + 1] == hits[1..][i];
      }
      if exists i :: 0 <= i < |hits| && hits[i].idx < -|metadata| {
        var i :| 0 <= i < |hits| && hits[i].idx < -|metadata|;
        if i > 0 {
          assert hits[1..][i - 1] == hits[i];
        }
      }
    }
  }

  /** Number of hits whose idx is below `bound`. */
  function CountBelow(hits: seq<Hit>, bound: int): nat
  {
    if hits == [] then 0
    else (if hits[0].idx < bound then 1 else 0) + CountBelow(hits[1..], bound)
  }

  /** A successful search returns one result per hit below `len(metadata)`, so never more than the hits. */
  lemma {:induction false} SearchResultsCount(metadata: seq<Metadata>, hits: seq<Hit>)
    requires SearchResults(metadata, hits).Success?
    ensures |SearchResults(metadata, hits).value| == CountBelow(hits, |metadata|) <= |hits|
  {
    if hits != [] {
      SearchResultsCount(metadata, hits[1..]);
    }
  }

  /** When every hit names a stored record, the i-th result is that record's text with the i-th distance. */
  lemma {:induction false} SearchResultsInRange(metadata: seq<Metadata>, hits: seq<Hit>)
    requires forall i :: 0 <= i < |hits| ==> 0 <= hits[i].idx < |metadata|
    ensures SearchResults(metadata, hits).Success?
    ensures var r := SearchResults(metadata, hits).value;
      |r| == |hits| &&
      forall i :: 0 <= i < |hits| ==> r[i] == Match(metadata[hits[i].idx].text, hits[i].distance)
  {
    if hits != [] {
      assert forall i :: 0 <= i < |hits[1..]| ==> hits[1..][i] == hits[i + 1];
      SearchResultsInRange(metadata, hits[1..]);
    }
  }

  /**
   * What `IndexFlatL2.search` answers for `k` neighbours over `total` stored vectors: `k` hits,
   * the first `min(k, total)` of them positions of stored vectors, the rest padding labelled -1.
   */
  ghost predicate FlatSearchShape(hits: seq<Hit>, total: nat, k: nat)
  {
    |hits| == k &&
    forall i :: 0 <= i < k ==> if i < total then 0 <= hits[i].idx < total else hits[i].idx == -1
  }

  /**
   * With records in lock-step with the vectors and more neighbours asked for than stored, the
   * padding hits pass the `idx < len(metadata)` check and each yields the LAST record's text.
   */
  lemma PaddingRepeatsLastRecord(metadata: seq<Metadata>, hits: seq<Hit>, k: nat)
    requires |metadata| > 0 && k > |metadata|
    requires FlatSearchShape(hits, |metadata|, k)
    ensures SearchResults(metadata, hits).Success?
    ensures var r := SearchResults(metadata, hits).value;
      |r| == k &&
      forall i :: |metadata| <= i < k ==> r[i] == Match(metadata[|metadata| - 1].text, hits[i].distance)
  {
    var n := |metadata|;
    var stored, padding := hits[..n], hits[n..];
    assert hits == stored + padding;
    SearchResultsInRange(metadata, stored);
    SearchResultsPadding(metadata, padding);
    SearchResultsAppend(metadata, stored, padding);
  }

  lemma {:induction false} SearchResultsPadding(metadata: seq<Metadata>, padding: seq<Hit>)
    requires |metadata| > 0
    requires forall i :: 0 <= i < |padding| ==> padding[i].idx == -1
    ensures SearchResults(metadata, padding).Success?
    ensures var r := SearchResults(metadata, padding).value;
      |r| == |padding| &&
      forall i :: 0 <= i < |padding| ==> r[i] == Match(metadata[|metadata| - 1].text, padding[i].distance)
  {
    if padding != [] {
      assert forall i :: 0 <= i < |padding[1..]| ==> padding[1..][i] == padding[i + 1];
      SearchResultsPadding(metadata, padding[1..]);
    }
  }

  /**
   * With no records (a fresh store, or one that loaded a snapshot), a search that asks for more
   * neighbours than the index holds raises `IndexError`: the padding idx -1 passes the check
   * and indexes the empty list.
   */
  lemma NoRecordsPaddingFails(hits: seq<Hit>, total: nat, k: nat)
    requires k > total && FlatSearchShape(hits, total, k)
    ensures SearchResults([], hits) == Failure(IndexError)
  {
    assert hits[total].idx < 0;
    SearchFailsIff([], hits);
  }

  /** With no records, a search that FAISS answers without padding returns nothing. */
  lemma {:induction false} NoRecordsNoPaddingIsEmpty(hits: seq<Hit>)
    requires forall i :: 0 <= i < |hits| ==> hits[i].idx >= 0
    ensures SearchResults([], hits) == Success([])
  {
    if hits != [] {
      assert forall i :: 0 <= i < |hits[1..]| ==> hits[1..][i] == hits[i + 1];
      NoRecordsNoPaddingIsEmpty(hits[1..]);
    }
  }

  /** The check `search` evidently intends: keep a hit only if `0 <= idx < len(metadata)`. */
  function SearchResultsChecked(metadata: seq<Metadata>, hits: seq<Hit>): seq<Match>
  {
    if hits == [] then []
    else
      var h := hits[0];
      (if 0 <= h.idx < |metadata| then [Match(metadata[h.idx].text, h.distance)] else [])
      + SearchResultsChecked(metadata, hits[1..])
  }

  /**
   * With the intended check, a store in lock-step returns exactly `min(k, total)` results, the
   * i-th being the record of the i-th hit, and padding never shows up.
   */
  lemma CheckedSearchDropsPadding(metadata: seq<Metadata>, hits: seq<Hit>, k: nat)
    requires FlatSearchShape(hits, |metadata|, k)
    ensures var r := SearchResultsChecked(metadata, hits);
      |r| == (if k < |metadata| then k else |metadata|) &&
      forall i :: 0 <= i < |r| ==> r[i] == Match(metadata[hits[i].idx].text, hits[i].distance)
  {
    var n := if k < |metadata| then k else |metadata|;
    assert hits == hits[..n] + hits[n..];
    CheckedAppend(metadata, hits[..n], hits[n..]);
    CheckedInRange(metadata, hits[..n]);
    CheckedSkipsPadding(metadata, hits[n..]);
  }

  lemma {:induction false} CheckedAppend(metadata: seq<Metadata>, a: seq<Hit>, b: seq<Hit>)
    ensures SearchResultsChecked(metadata, a + b) == SearchResultsChecked(metadata, a) + SearchResultsChecked(metadata, b)
  {
    if a == [] {
      assert a + b == b;
    } else {
      assert (a + b)[0] == a[0];
      assert (a + b)[1..] == a[1..] + b;
      CheckedAppend(metadata, a[1..], b);
    }
  }

  lemma {:induction false} CheckedInRange(metadata: seq<Metadata>, hits: seq<Hit>)
    requires forall i :: 0 <= i < |hits| ==> 0 <= hits[i].idx < |metadata|
    ensures var r := SearchResultsChecked(metadata, hits);
      |r| == |hits| &&
      forall i :: 0 <= i < |hits| ==> r[i] == Match(metadata[hits[i].idx].text, hits[i].distance)
  {
    if hits != [] {
      assert forall i :: 0 <= i < |hits[1..]| ==> hits[1..][i] == hits[i + 1];
      CheckedInRange(metadata, hits[1..]);
    }
  }

  lemma {:induction false} CheckedSkipsPadding(metadata: seq<Metadata>, padding: seq<Hit>)
    requires forall i :: 0 <= i < |padding| ==> padding[i].idx == -1
    ensures SearchResultsChecked(metadata, padding) == []
  {
    if padding != [] {
      assert forall i :: 0 <= i < |padding[1..]| ==> padding[1..][i] == padding[i + 1];
      CheckedSkipsPadding(metadata, padding[1..]);
    }
  }

  /** Where no hit is padding or out of range, the intended check and the written one agree. */
  lemma {:induction false} CheckedAgreesInRange(metadata: seq<Metadata>, hits: seq<Hit>)
    requires forall i :: 0 <= i < |hits| ==> 0 <= hits[i].idx < |metadata|
    ensures SearchResults(metadata, hits) == Success(SearchResultsChecked(metadata, hits))
  {
    if hits != [] {
      assert forall i :: 0 <= i < |hits[1..]| ==> hits[1..][i] == hits[i + 1];
      CheckedAgreesInRange(metadata, hits[1..]);
    }
  }

  // ---------------------------------------------------------------------------------------------
  // The store
  // ---------------------------------------------------------------------------------------------

  class VectorStore {
    const embeddingDim: int
    const indexFile: string
    var metadata: seq<Metadata>
    var index: FlatIndex

    /** The i-th vector and the i-th record belong together: both lists have the same length. */
    predicate InLockStep()
      reads this
    {
      |index.vectors| == |metadata|
    }

    /**
     * `__init__`: no records, and an empty index of `embeddingDim` unless the snapshot at
     * `indexFile` can be read, in which case that index, with no records for its vectors.
     */
    constructor (embeddingDim: int, indexFile: string, disk: Disk)
      ensures this.embeddingDim == embeddingDim && this.indexFile == indexFile
      ensures metadata == []
      ensures index == if indexFile in disk.files then disk.files[indexFile] else FlatIndex(embeddingDim, [])
      ensures InLockStep() <==> indexFile !in disk.files || disk.files[indexFile].vectors == []
    {
      this.embeddingDim := embeddingDim;
      this.indexFile := indexFile;
      metadata := [];
      index := FlatIndex(embeddingDim, []);
      new;
      LoadIndex(disk);
    }

    /**
     * `add_text`: if the embedding service answered, appends its vector to the index and
     * `record` to the metadata; if it raised, raises before touching either. `text` is what the
     * service was asked to embed.
     */
    method AddText(text: string, record: Metadata, embedding: Result<Vector, Error>) returns (outcome: Outcome<Error>)
      modifies this
      ensures outcome.Pass? <==> embedding.Success?
      ensures embedding.Failure? ==> outcome == Fail(embedding.error)
      ensures embedding.Success? ==>
        index == old(index).(vectors := old(index.vectors) + [embedding.value]) &&
        metadata == old(metadata) + [record]
      ensures embedding.Failure? ==> index == old(index) && metadata == old(metadata)
      ensures |index.vectors| - |metadata| == old(|index.vectors| - |metadata|)
      ensures InLockStep() <==> old(InLockStep())
    {
      if embedding.Failure? {
        return Fail(embedding.error);
      }
      index := index.(vectors := index.vectors + [embedding.value]);
      metadata := metadata + [record];
      outcome := Pass;
    }

    /**
     * `search`: embeds the query (`queryEmbedding` is the service's reply for `query`), asks FAISS
     * for `topK` neighbours, and maps the hits back to metadata texts, in FAISS's order.
     */
    method Search(query: string, topK: int, queryEmbedding: Result<Vector, Error>, faiss: SearchOracle)
      returns (results: Result<seq<Match>, Error>)
      ensures queryEmbedding.Failure? ==> results == Failure(queryEmbedding.error)
      ensures queryEmbedding.Success? ==>
        results == SearchResults(metadata, faiss(index, queryEmbedding.value, topK))
    {
      if queryEmbedding.Failure? {
        return Failure(queryEmbedding.error);
      }
      var hits := faiss(index, queryEmbedding.value, topK);
      var found: seq<Match> := [];
      var i := 0;
      while i < |hits|
        invariant 0 <= i <= |hits|
        invariant SearchResults(metadata, hits[..i]) == Success(found)
      {
        var idx := hits[i].idx;
        SearchResultsAppend(metadata, hits[..i], [hits[i]]);
        assert hits[..i + 1] == hits[..i] + [hits[i]];
        assert [hits[i]][1..] == [];
        if idx < |metadata| {
          if idx < -|metadata| {
            SearchResultsAppend(metadata, hits[..i + 1], hits[i + 1..]);
            assert hits == hits[..i + 1] + hits[i + 1..];
            return Failure(IndexError);
          }
          var m := Match(metadata[ListPosition(|metadata|, idx)].text, hits[i].distance);
          assert [m] + [] == [m];
          assert SearchResults(metadata, [hits[i]]) == Success([m]);
          found := found + [m];
        } else {
          assert SearchResults(metadata, [hits[i]]) == Success([]);
          assert found + [] == found;
        }
        i := i + 1;
      }
      assert hits[..i] == hits;
      results := Success(found);
    }

    /** `save_index`: writes the index, and only the index, to `path`. */
    method SaveIndex(disk: Disk, path: string)
      modifies disk
      ensures disk.files == old(disk.files)[path := index]
      ensures disk.writes == old(disk.writes) + [path]
    {
      disk.files := disk.files[path := index];
      disk.writes := disk.writes + [path];
    }

    /**
     * `load_index`: replaces the index with the snapshot at `indexFile` if it can be read, and
     * otherwise keeps it; the records are left as they are either way.
     */
    method LoadIndex(disk: Disk)
      modifies this`index
      ensures index == if indexFile in disk.files then disk.files[indexFile] else old(index)
    {
      if indexFile in disk.files {
        index := disk.files[indexFile];
      }
    }
  }

  /**
   * A restart after `save_index()`: a store built on the default snapshot file gets back the
   * saved index, but none of the records.
   */
  method SaveAndReopen(store: VectorStore, disk: Disk) returns (reopened: VectorStore)
    modifies disk
    ensures reopened.index == store.index
    ensures reopened.metadata == []
    ensures store.index.vectors != [] ==> !reopened.InLockStep()
  {
    store.SaveIndex(disk, DEFAULT_INDEX_FILE);
    reopened := new VectorStore(DEFAULT_EMBEDDING_DIM, DEFAULT_INDEX_FILE, disk);
  }
}
