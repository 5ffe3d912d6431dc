/**
 * The line-based file chunker of src/utils/async_utils.py.
 *
 * A text file is read line by line (each line keeps its newline). Whole lines are appended to a
 * buffer, and the buffer is emitted as one chunk as soon as the total length of its lines reaches
 * `chunkSize`; after the last line a non-empty buffer is emitted as the final chunk.
 *
 * `Groups` gives the runs of lines the chunker emits, `Chunks` their texts. `IsChunking` is an
 * independent description of those runs, and `GroupsAreChunking` with `ChunkingIsUnique` show that
 * the runs are the one and only split of the input that it describes.
 */
module AsyncUtils {

  /** `"".join(parts)` */
  function Join(parts: seq<string>): string
  {
    if parts == [] then "" else parts[0] + Join(parts[1..])
  }

  /** `sum(len(l) for l in parts)` */
  function TotalLength(parts: seq<string>): nat
  {
    if parts == [] then 0 else |parts[0]| + TotalLength(parts[1..])
  }

  lemma {:induction false} JoinAppend(a: seq<string>, b: seq<string>)
    ensures Join(a + b) == Join(a) + Join(b)
  {
    if a == [] {
      assert a + b == b;
    } else {
      assert (a + b)[1..] == a[1..] + b;
      JoinAppend(a[1..], b);
    }
  }

  lemma {:induction false} TotalLengthIsJoinLength(parts: seq<string>)
    ensures TotalLength(parts) == |Join(parts)|
  {
    if parts != [] {
      TotalLengthIsJoinLength(parts[1..]);
    }
  }

  lemma TotalLengthAppend(a: seq<string>, b: seq<string>)
    ensures TotalLength(a + b) == TotalLength(a) + TotalLength(b)
  {
    JoinAppend(a, b);
    TotalLengthIsJoinLength(a + b);
    TotalLengthIsJoinLength(a);
    TotalLengthIsJoinLength(b);
  }

  // ---------------------------------------------------------------------------------------------
  // Reading a file line by line
  // ---------------------------------------------------------------------------------------------

  /** Length of the first line of `text`: up to and including its first newline, else all of it. */
  function FirstLineLength(text: string): (k: nat)
    ensures k == 0 <==> text == []
    ensures k <= |text|
    ensures forall j :: 0 <= j < k - 1 ==> text[j] != '\n'
    ensures k < |text| ==> text[k - 1] == '\n'
  {
    if text == [] then 0
    else if text[0] == '\n' then 1
    else 1 + FirstLineLength(text[1..])
  }

  /** The lines that iterating over an open text file yields, each with its newline. */
  function Lines(text: string): seq<string>
    decreases |text|
  {
    if text == [] then []
    else
      var k := FirstLineLength(text);
      [text[..k]] + Lines(text[k..])
  }

  /**
   * `line` can be yielded by a text file: it is not empty, holds a newline only as its last
   * character, and ends in a newline unless it is the file's last line.
   */
  ghost predicate IsLine(line: string, last: bool)
  {
    line != [] &&
    (forall j :: 0 <= j < |line| - 1 ==> line[j] != '\n') &&
    (!last ==> line[|line| - 1] == '\n')
  }

  ghost predicate FileLines(lines: seq<string>)
  {
    forall i :: 0 <= i < |lines| ==> IsLine(lines[i], i == |lines| - 1)
  }

  /** Iterating a file loses nothing: its lines join back to the file, and they are proper lines. */
  lemma LinesSplitText(text: string)
    ensures Join(Lines(text)) == text
    ensures FileLines(Lines(text))
  {
    LinesJoinToText(text);
    LinesAreFileLines(text);
  }

  lemma {:induction false} LinesJoinToText(text: string)
    ensures Join(Lines(text)) == text
    decreases |text|
  {
    if text != [] {
      var k := FirstLineLength(text);
      LinesJoinToText(text[k..]);
      assert Lines(text) == [text[..k]] + Lines(text[k..]);
      assert text == text[..k] + text[k..];
    }
  }

  /** The first line read is a proper line, the last one exactly when nothing follows it. */
  lemma FirstLineIsLine(text: string)
    requires text != []
    ensures IsLine(text[..FirstLineLength(text)], FirstLineLength(text) == |text|)
  {
  }

  lemma {:induction false} LinesAreFileLines(text: string)
    ensures FileLines(Lines(text))
    decreases |text|
  {
    if text != [] {
      var k := FirstLineLength(text);
      var rest := Lines(text[k..]);
      LinesAreFileLines(text[k..]);
      FirstLineIsLine(text);
      assert Lines(text) == [text[..k]] + rest;
      assert k == |text| <==> rest == [];
      forall i | 0 <= i < |Lines(text)|
        ensures IsLine(Lines(text)[i], i == |Lines(text)| - 1)
      {
        if i > 0 {
          assert Lines(text)[i] == rest[i - 1];
        }
      }
    }
  }

  lemma {:induction false} FirstLineOfJoin(line: string, tail: string)
    requires line != []
    requires forall j :: 0 <= j < |line| - 1 ==> line[j] != '\n'
    requires tail != [] ==> line[|line| - 1] == '\n'
    ensures FirstLineLength(line + tail) == |line|
  {
    if |line| == 1 {
      assert (line + tail)[1..] == tail;
    } else {
      assert (line + tail)[1..] == line[1..] + tail;
      FirstLineOfJoin(line[1..], tail);
    }
  }

  /** Conversely, proper lines are exactly what iterating over their concatenation yields. */
  lemma {:induction false} LinesOfJoin(lines: seq<string>)
    requires FileLines(lines)
    ensures Lines(Join(lines)) == lines
  {
    if lines != [] {
      var rest := lines[1..];
      forall i | 0 <= i < |rest|
        ensures IsLine(rest[i], i == |rest| - 1)
      {
        assert rest[i] == lines[i + 1];
      }
      assert IsLine(lines[0], |lines| == 1);
      var text := Join(lines);
      FirstLineOfJoin(lines[0], Join(rest));
      assert text == lines[0] + Join(rest);
      assert text[..|lines[0]|] == lines[0];
      assert text[|lines[0]|..] == Join(rest);
      LinesOfJoin(rest);
    }
  }

  // ---------------------------------------------------------------------------------------------
  // What the chunker emits
  // ---------------------------------------------------------------------------------------------

  /** The runs of lines the chunker emits, given the lines already in its buffer. */
  function GroupsFrom(buffer: seq<string>, rest: seq<string>, chunkSize: int): seq<seq<string>>
    decreases |rest|
  {
    if rest == [] then
      if buffer == [] then [] else [buffer]
    else
      var filled := buffer + [rest[0]];
      if TotalLength(filled) >= chunkSize then [filled] + GroupsFrom([], rest[1..], chunkSize)
      else GroupsFrom(filled, rest[1..], chunkSize)
  }

  /** The runs of lines the chunker emits for a whole file. */
  function Groups(lines: seq<string>, chunkSize: int): seq<seq<string>>
  {
    GroupsFrom([], lines, chunkSize)
  }

  function JoinEach(groups: seq<seq<string>>): (texts: seq<string>)
  {
    seq(|groups|, i requires 0 <= i < |groups| => Join(groups[i]))
  }

  /** The chunks the chunker yields, in order. */
  function Chunks(lines: seq<string>, chunkSize: int): seq<string>
  {
    JoinEach(Groups(lines, chunkSize))
  }

  function Flatten(groups: seq<seq<string>>): seq<string>
  {
    if groups == [] then [] else groups[0] + Flatten(groups[1..])
  }

  /** No non-empty proper prefix of `group` reaches `chunkSize`. */
  ghost predicate Underfull(group: seq<string>, chunkSize: int)
  {
    forall k :: 0 < k < |group| ==> TotalLength(group[..k]) < chunkSize
  }

  /**
   * `groups` splits `lines` into non-empty runs of consecutive whole lines, each run ends at
   * the first line with which it reaches `chunkSize`, and every run but the last reaches it.
   */
  ghost predicate IsChunking(groups: seq<seq<string>>, lines: seq<string>, chunkSize: int)
  {
    Flatten(groups) == lines &&
    (forall i :: 0 <= i < |groups| ==> groups[i] != [] && Underfull(groups[i], chunkSize)) &&
    (forall i :: 0 <= i < |groups| - 1 ==> TotalLength(groups[i]) >= chunkSize)
  }

  lemma {:induction false} FlattenAppend(a: seq<seq<string>>, b: seq<seq<string>>)
    ensures Flatten(a + b) == Flatten(a) + Flatten(b)
  {
    if a == [] {
      assert a + b == b;
    } else {
      assert (a + b)[1..] == a[1..] + b;
      FlattenAppend(a[1..], b);
    }
  }

  lemma {:induction false} JoinFlatten(groups: seq<seq<string>>)
    ensures Join(JoinEach(groups)) == Join(Flatten(groups))
  {
    if groups != [] {
      assert JoinEach(groups)[1..] == JoinEach(groups[1..]);
      JoinFlatten(groups[1..]);
      JoinAppend(groups[0], Flatten(groups[1..]));
    }
  }

  lemma {:induction false} FlattenHasMember(groups: seq<seq<string>>, i: nat, j: nat)
    requires i < |groups| && j < |groups[i]|
    ensures groups[i][j] in Flatten(groups)
  {
    if i == 0 {
      assert groups[0][j] == Flatten(groups)[j];
    } else {
      FlattenHasMember(groups[1..], i - 1, j);
    }
  }

  lemma {:induction false} GroupsFromIsChunking(buffer: seq<string>, rest: seq<string>, chunkSize: int)
    requires forall k :: 0 < k <= |buffer| ==> TotalLength(buffer[..k]) < chunkSize
    ensures IsChunking(GroupsFrom(buffer, rest, chunkSize), buffer + rest, chunkSize)
    decreases |rest|
  {
    var groups := GroupsFrom(buffer, rest, chunkSize);
    if rest == [] {
      assert buffer + rest == buffer;
      if buffer != [] {
        assert Flatten([buffer]) == buffer + Flatten([]);
      }
    } else {
      var filled := buffer + [rest[0]];
      assert buffer + rest == filled + rest[1..];
      if TotalLength(filled) >= chunkSize {
        var tail := GroupsFrom([], rest[1..], chunkSize);
        GroupsFromIsChunking([], rest[1..], chunkSize);
        assert groups == [filled] + tail;
        assert groups[1..] == tail;
        forall k | 0 < k < |filled|
          ensures TotalLength(filled[..k]) < chunkSize
        {
          assert filled[..k] == buffer[..k];
        }
        forall i | 0 <= i < |groups|
          ensures groups[i] != [] && Underfull(groups[i], chunkSize)
        {
          if i > 0 {
            assert groups[i] == tail[i - 1];
          }
        }
        forall i | 0 <= i < |groups| - 1
          ensures TotalLength(groups[i]) >= chunkSize
        {
          if i > 0 {
            assert groups[i] == tail[i - 1];
          }
        }
      } else {
        forall k | 0 < k <= |filled|
          ensures TotalLength(filled[..k]) < chunkSize
        {
          if k == |filled| {
            assert filled[..k] == filled;
          } else {
            assert filled[..k] == buffer[..k];
          }
        }
        GroupsFromIsChunking(filled, rest[1..], chunkSize);
      }
    }
  }

  /** The runs the chunker emits satisfy the description. */
  lemma GroupsAreChunking(lines: seq<string>, chunkSize: int)
    ensures IsChunking(Groups(lines, chunkSize), lines, chunkSize)
  {
    GroupsFromIsChunking([], lines, chunkSize);
    assert [] + lines == lines;
  }

  lemma {:induction false} ChunkingTail(groups: seq<seq<string>>, lines: seq<string>, chunkSize: int)
    requires groups != [] && IsChunking(groups, lines, chunkSize)
    ensures |groups[0]| <= |lines| && lines[..|groups[0]|] == groups[0]
    ensures IsChunking(groups[1..], lines[|groups[0]|..], chunkSize)
  {
    var tail := groups[1..];
    assert lines == groups[0] + Flatten(tail);
    assert lines[|groups[0]|..] == Flatten(tail);
    forall i | 0 <= i < |tail|
      ensures tail[i] != [] && Underfull(tail[i], chunkSize)
    {
      assert tail[i] == groups[i + 1];
    }
    forall i | 0 <= i < |tail| - 1
      ensures TotalLength(tail[i]) >= chunkSize
    {
      assert tail[i] == groups[i + 1];
    }
  }

  lemma {:induction false} FlattenEmptyIff(groups: seq<seq<string>>)
    requires forall i :: 0 <= i < |groups| ==> groups[i] != []
    ensures Flatten(groups) == [] <==> groups == []
  {
    if groups != [] {
      assert groups[0] != [];
      assert Flatten(groups) == groups[0] + Flatten(groups[1..]);
    }
  }

  /**
   * The number of lines in the first run, searching from `from` lines on: the first count whose
   * lines reach `chunkSize`, or all the lines.
   */
  function FirstCut(lines: seq<string>, chunkSize: int, from: nat): nat
    decreases |lines| - from
  {
    if from >= |lines| then |lines|
    else if TotalLength(lines[..from]) >= chunkSize then from
    else FirstCut(lines, chunkSize, from + 1)
  }

  lemma {:induction false} FirstCutIs(lines: seq<string>, chunkSize: int, from: nat, m: nat)
    requires from <= m <= |lines|
    requires forall j :: from <= j < m ==> TotalLength(lines[..j]) < chunkSize
    requires m == |lines| || TotalLength(lines[..m]) >= chunkSize
    ensures FirstCut(lines, chunkSize, from) == m
    decreases m - from
  {
    if from < m {
      FirstCutIs(lines, chunkSize, from + 1, m);
    }
  }

  /** In any split the description admits, the first run is as long as `FirstCut` says. */
  lemma FirstGroupIsFirstCut(groups: seq<seq<string>>, lines: seq<string>, chunkSize: int)
    requires groups != [] && IsChunking(groups, lines, chunkSize)
    ensures |groups[0]| == FirstCut(lines, chunkSize, 1)
  {
    var g := groups[0];
    ChunkingTail(groups, lines, chunkSize);
    assert g != [] && Underfull(g, chunkSize);
    forall j | 1 <= j < |g|
      ensures TotalLength(lines[..j]) < chunkSize
    {
      assert lines[..j] == g[..j];
    }
    assert lines == g + Flatten(groups[1..]);
    assert |g| < |lines| ==> |groups| > 1;
    FirstCutIs(lines, chunkSize, 1, |g|);
  }

  /** The description admits only one split of a given input. */
  lemma {:induction false} ChunkingIsUnique(gs: seq<seq<string>>, hs: seq<seq<string>>, lines: seq<string>, chunkSize: int)
    requires IsChunking(gs, lines, chunkSize) && IsChunking(hs, lines, chunkSize)
    ensures gs == hs
    decreases |lines|
  {
    FlattenEmptyIff(gs);
    FlattenEmptyIff(hs);
    if lines != [] {
      ChunkingTail(gs, lines, chunkSize);
      ChunkingTail(hs, lines, chunkSize);
      FirstGroupIsFirstCut(gs, lines, chunkSize);
      FirstGroupIsFirstCut(hs, lines, chunkSize);
      var g := gs[0];
      assert g == hs[0];
      ChunkingIsUnique(gs[1..], hs[1..], lines[|g|..], chunkSize);
      assert gs == [g] + gs[1..];
      assert hs == [g] + hs[1..];
    }
  }

  // ---------------------------------------------------------------------------------------------
  // Properties of the chunks
  // ---------------------------------------------------------------------------------------------

  /** Joining the chunks in order gives back the joined lines: nothing is lost or duplicated. */
  lemma ChunksJoinToLines(lines: seq<string>, chunkSize: int)
    ensures Join(Chunks(lines, chunkSize)) == Join(lines)
  {
    GroupsAreChunking(lines, chunkSize);
    JoinFlatten(Groups(lines, chunkSize));
  }

  /** Every chunk except the last is at least `chunkSize` long. */
  lemma ChunksReachSize(lines: seq<string>, chunkSize: int)
    ensures forall i :: 0 <= i < |Chunks(lines, chunkSize)| - 1 ==> |Chunks(lines, chunkSize)[i]| >= chunkSize
  {
    var groups := Groups(lines, chunkSize);
    GroupsAreChunking(lines, chunkSize);
    forall i | 0 <= i < |groups| - 1
      ensures |Chunks(lines, chunkSize)[i]| >= chunkSize
    {
      TotalLengthIsJoinLength(groups[i]);
    }
  }

  /**
   * A chunk overshoots `chunkSize` by less than one line: with lines of at most `maxLine`
   * characters, every chunk is shorter than `chunkSize + maxLine`.
   */
  lemma ChunkSizeBound(lines: seq<string>, chunkSize: int, maxLine: nat)
    requires chunkSize > 0
    requires forall i :: 0 <= i < |lines| ==> |lines[i]| <= maxLine
    ensures forall c :: c in Chunks(lines, chunkSize) ==> |c| < chunkSize + maxLine
  {
    var groups := Groups(lines, chunkSize);
    GroupsAreChunking(lines, chunkSize);
    forall i | 0 <= i < |groups|
      ensures |Chunks(lines, chunkSize)[i]| < chunkSize + maxLine
    {
      var g := groups[i];
      var front := g[..|g| - 1];
      assert g == front + [g[|g| - 1]];
      TotalLengthAppend(front, [g[|g| - 1]]);
      TotalLengthIsJoinLength(g);
      assert TotalLength(front) < chunkSize by {
        if |g| > 1 {
          assert TotalLength(g[..|g| - 1]) < chunkSize;
        }
      }
      FlattenHasMember(groups, i, |g| - 1);
    }
  }

  /** No input, no chunks; and some input always gives at least one chunk. */
  lemma ChunksEmptyIff(lines: seq<string>, chunkSize: int)
    ensures Chunks(lines, chunkSize) == [] <==> lines == []
  {
    var groups := Groups(lines, chunkSize);
    GroupsAreChunking(lines, chunkSize);
    if groups != [] {
      assert Flatten(groups) == groups[0] + Flatten(groups[1..]);
    }
  }

  /** With lines that are not empty, no chunk is empty. */
  lemma ChunksNotEmpty(lines: seq<string>, chunkSize: int)
    requires forall i :: 0 <= i < |lines| ==> lines[i] != []
    ensures forall c :: c in Chunks(lines, chunkSize) ==> c != []
  {
    var groups := Groups(lines, chunkSize);
    GroupsAreChunking(lines, chunkSize);
    forall i | 0 <= i < |groups|
      ensures Chunks(lines, chunkSize)[i] != []
    {
      FlattenHasMember(groups, i, 0);
      assert Join(groups[i]) == groups[i][0] + Join(groups[i][1..]);
    }
  }

  /** With `chunkSize <= 0` every line is a chunk of its own. */
  lemma OneLinePerChunk(lines: seq<string>, chunkSize: int)
    requires chunkSize <= 0
    ensures Chunks(lines, chunkSize) == lines
  {
    var singles := seq(|lines|, i requires 0 <= i < |lines| => [lines[i]]);
    assert Flatten(singles) == lines by {
      FlattenOfSingles(lines);
    }
    assert IsChunking(singles, lines, chunkSize);
    GroupsAreChunking(lines, chunkSize);
    ChunkingIsUnique(Groups(lines, chunkSize), singles, lines, chunkSize);
    forall i | 0 <= i < |lines|
      ensures Chunks(lines, chunkSize)[i] == lines[i]
    {
      assert Join([lines[i]]) == lines[i] + Join([]);
    }
  }

  lemma {:induction false} FlattenOfSingles(lines: seq<string>)
    ensures Flatten(seq(|lines|, i requires 0 <= i < |lines| => [lines[i]])) == lines
  {
    var singles := seq(|lines|, i requires 0 <= i < |lines| => [lines[i]]);
    if lines != [] {
      assert singles[1..] == seq(|lines[1..]|, i requires 0 <= i < |lines[1..]| => [lines[1..][i]]);
      FlattenOfSingles(lines[1..]);
      assert lines == [lines[0]] + lines[1..];
    }
  }

  /** Chunkings of two runs of lines, the first ending on a full group, chunk their concatenation. */
  lemma ChunkingAppend(a: seq<seq<string>>, b: seq<seq<string>>, first: seq<string>, more: seq<string>, chunkSize: int)
    requires IsChunking(a, first, chunkSize) && IsChunking(b, more, chunkSize)
    requires a == [] || TotalLength(a[|a| - 1]) >= chunkSize
    ensures IsChunking(a + b, first + more, chunkSize)
  {
    FlattenAppend(a, b);
    forall i | 0 <= i < |a + b|
      ensures (a + b)[i] != [] && Underfull((a + b)[i], chunkSize)
    {
      if i >= |a| {
        assert (a + b)[i] == b[i - |a|];
      }
    }
    forall i | 0 <= i < |a + b| - 1
      ensures TotalLength((a + b)[i]) >= chunkSize
    {
      if i >= |a| {
        assert (a + b)[i] == b[i - |a|];
      }
    }
  }

  /**
   * Once a file's lines end exactly on a flush, nothing of them is left in the buffer: the
   * chunks of more lines after them are the chunks those lines would give on their own.
   */
  lemma ChunksAfterFlush(first: seq<string>, more: seq<string>, chunkSize: int)
    requires var gs := Groups(first, chunkSize); gs == [] || TotalLength(gs[|gs| - 1]) >= chunkSize
    ensures Chunks(first + more, chunkSize) == Chunks(first, chunkSize) + Chunks(more, chunkSize)
  {
    var a, b := Groups(first, chunkSize), Groups(more, chunkSize);
    GroupsAreChunking(first, chunkSize);
    GroupsAreChunking(more, chunkSize);
    ChunkingAppend(a, b, first, more, chunkSize);
    GroupsAreChunking(first + more, chunkSize);
    ChunkingIsUnique(Groups(first + more, chunkSize), a + b, first + more, chunkSize);
    assert JoinEach(a + b) == JoinEach(a) + JoinEach(b);
  }

  // ---------------------------------------------------------------------------------------------
  // The chunker itself
  // ---------------------------------------------------------------------------------------------

  /**
   * `file_chunker`: yields, in order, the chunks of the file whose decoded text is `content`.
   * The generator is modelled as the list of everything it yields.
   */
  method FileChunker(content: string, chunkSize: int) returns (chunks: seq<string>)
    ensures chunks == Chunks(Lines(content), chunkSize)
  {
    var lines := Lines(content);
    chunks := [];
    var chunk: seq<string> := [];
    var i := 0;
    while i < |lines|
      invariant 0 <= i <= |lines|
      invariant chunks + JoinEach(GroupsFrom(chunk, lines[i..], chunkSize)) == Chunks(lines, chunkSize)
    {
      ghost var rest := GroupsFrom(chunk, lines[i..], chunkSize);
      assert lines[i..][1..] == lines[i + 1..];
      chunk := chunk + [lines[i]];
      if TotalLength(chunk) >= chunkSize {
        ghost var tail := GroupsFrom([], lines[i + 1..], chunkSize);
        assert rest == [chunk] + tail;
        assert JoinEach(rest) == [Join(chunk)] + JoinEach(tail);
        chunks := chunks + [Join(chunk)];
        chunk := [];
      }
      i := i + 1;
    }
    assert lines[i..] == [];
    if chunk != [] {
      chunks := chunks + [Join(chunk)];
    }
  }

  /** The chunks of a file join back to the file's text. */
  lemma FileChunksJoinToContent(content: string, chunkSize: int)
    ensures Join(Chunks(Lines(content), chunkSize)) == content
  {
    ChunksJoinToLines(Lines(content), chunkSize);
    LinesSplitText(content);
  }

  // ---------------------------------------------------------------------------------------------
  // The file of one hundred `print('Hello')` lines
  // ---------------------------------------------------------------------------------------------

  const HelloLine: string := "print('Hello')\n"

  function Repeat(line: string, count: nat): (lines: seq<string>)
  {
    seq(count, _ => line)
  }

  lemma {:induction false} TotalLengthOfRepeat(line: string, count: nat)
    ensures TotalLength(Repeat(line, count)) == count * |line|
  {
    if count > 0 {
      assert Repeat(line, count)[1..] == Repeat(line, count - 1);
      TotalLengthOfRepeat(line, count - 1);
    }
  }

  lemma UnderfullRepeat(line: string, count: nat, chunkSize: int)
    requires (count - 1) * |line| < chunkSize
    ensures Underfull(Repeat(line, count), chunkSize)
  {
    forall k | 0 < k < count
      ensures TotalLength(Repeat(line, count)[..k]) < chunkSize
    {
      assert Repeat(line, count)[..k] == Repeat(line, k);
      TotalLengthOfRepeat(line, k);
      assert k * |line| <= (count - 1) * |line| by {
        MultiplyMonotone(k, count - 1, |line|);
      }
    }
  }

  lemma MultiplyMonotone(a: nat, b: nat, c: nat)
    requires a <= b
    ensures a * c <= b * c
  {
  }

  /**
   * A file of 100 lines `print('Hello')\n` with `chunkSize` 500 gives three chunks, of 510, 510
   * and 480 characters: more than one chunk, but the first two are longer than 500.
   */
  lemma HelloFileChunks()
    ensures var chunks := Chunks(Lines(Join(Repeat(HelloLine, 100))), 500);
      |chunks| == 3 && |chunks[0]| == 510 && |chunks[1]| == 510 && |chunks[2]| == 480
  {
    var lines := Repeat(HelloLine, 100);
    assert |HelloLine| == 15;
    assert IsLine(HelloLine, false);
    assert FileLines(lines);
    LinesOfJoin(lines);

    var r34, r32 := Repeat(HelloLine, 34), Repeat(HelloLine, 32);
    var expected := [r34, r34, r32];
    assert Flatten(expected) == lines by {
      assert Flatten([r32]) == r32 + Flatten([]);
      assert Flatten([r34, r32]) == r34 + Flatten([r32]);
      assert Flatten(expected) == r34 + Flatten([r34, r32]);
    }
    UnderfullRepeat(HelloLine, 34, 500);
    UnderfullRepeat(HelloLine, 32, 500);
    TotalLengthOfRepeat(HelloLine, 34);
    TotalLengthOfRepeat(HelloLine, 32);
    assert IsChunking(expected, lines, 500);
    GroupsAreChunking(lines, 500);
    ChunkingIsUnique(Groups(lines, 500), expected, lines, 500);
    TotalLengthIsJoinLength(r34);
    TotalLengthIsJoinLength(r32);
  }
}
