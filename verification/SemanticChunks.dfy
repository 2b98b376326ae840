/** Bounded chunking of document text (`semantic/units.py`, `_document_chunks`). */
module SemanticChunks {

  const MAX_UNIT_CHARACTERS := 1200

  datatype Chunk = Chunk(start: nat, end: nat, content: string)

  predicate OccursAt(content: string, pattern: string, i: int) {
    0 <= i <= |content| - |pattern| && content[i..i + |pattern|] == pattern
  }

  /** `content.rfind(pattern, low, high)`. */
  function RFind(content: string, pattern: string, low: nat, high: nat): (at: int)
    requires pattern != "" && high <= |content|
    ensures at == -1 || low <= at <= high - |pattern|
    decreases high
  {
    if high < low + |pattern| then -1
    else if OccursAt(content, pattern, high - |pattern|) then high - |pattern|
    else RFind(content, pattern, low, high - 1)
  }

  /** The last place where the pattern occurs inside the window. */
  ghost predicate IsLastIn(content: string, pattern: string, low: nat, high: nat, at: int) {
    && (at == -1 || (low <= at <= high - |pattern| && OccursAt(content, pattern, at)))
    && (forall i :: low <= i <= high - |pattern| && i > at ==> !OccursAt(content, pattern, i))
  }

  lemma {:induction false} RFindIsLast(content: string, pattern: string, low: nat, high: nat)
    requires pattern != "" && high <= |content|
    ensures IsLastIn(content, pattern, low, high, RFind(content, pattern, low, high))
    decreases high
  {
    if high >= low + |pattern| && !OccursAt(content, pattern, high - |pattern|) {
      RFindIsLast(content, pattern, low, high - 1);
    }
  }

  function Max(a: int, b: int): int {
    if a > b then a else b
  }

  /** Where the chunk that begins at the cursor ends. */
  function ChunkEnd(content: string, cursor: nat): int
    requires cursor < |content|
  {
    var target := if |content| < cursor + MAX_UNIT_CHARACTERS then |content| else cursor + MAX_UNIT_CHARACTERS;
    if target == |content| then target
    else
      var paragraph := RFind(content, "\n\n", cursor + 1, target + 1);
      var newline := RFind(content, "\n", cursor + 1, target + 1);
      var space := RFind(content, " ", cursor + 1, target + 1);
      var end := Max(if paragraph >= cursor then paragraph + 2 else 0, Max(newline + 1, space + 1));
      if end <= cursor then target else end
  }

  // ---------------------------------------------------------------- the cut, independently

  predicate IsBreak(content: string, i: nat) {
    i < |content| && (content[i] == '\n' || content[i] == ' ')
  }

  /** A chunk runs to the end of a short text; otherwise it ends just after the last newline
      or space of the window, or at the full width when the window has none. */
  ghost predicate IsCut(content: string, cursor: nat, end: nat) {
    && cursor < end <= |content|
    && (if |content| <= cursor + MAX_UNIT_CHARACTERS then end == |content|
        else if exists i :: cursor < i <= cursor + MAX_UNIT_CHARACTERS && IsBreak(content, i)
        then IsBreak(content, end - 1) && end - 1 > cursor && end <= cursor + MAX_UNIT_CHARACTERS + 1
             && forall i :: end <= i <= cursor + MAX_UNIT_CHARACTERS ==> !IsBreak(content, i)
        else end == cursor + MAX_UNIT_CHARACTERS)
  }

  lemma CutIsUnique(content: string, cursor: nat, end: nat, other: nat)
    requires IsCut(content, cursor, end) && IsCut(content, cursor, other)
    ensures end == other
  {
    assert IsBreak(content, end - 1) && IsBreak(content, other - 1) ==> end == other;
  }

  lemma OccursIsChar(content: string, c: char, i: int)
    ensures OccursAt(content, [c], i) <==> 0 <= i < |content| && content[i] == c
  {
    if 0 <= i < |content| { assert content[i..i + 1] == [content[i]]; }
  }

  /** The later of the last newline and the last space is the last break of the window. */
  lemma LastBreak(content: string, low: nat, high: nat)
    requires high <= |content|
    ensures var at := Max(RFind(content, "\n", low, high), RFind(content, " ", low, high));
      && (at == -1 || (low <= at < high && IsBreak(content, at)))
      && forall i :: low <= i < high && i > at ==> !IsBreak(content, i)
  {
    var newline, space := RFind(content, "\n", low, high), RFind(content, " ", low, high);
    RFindIsLast(content, "\n", low, high);
    RFindIsLast(content, " ", low, high);
    OccursIsChar(content, '\n', newline);
    OccursIsChar(content, ' ', space);
    forall i | low <= i < high && i > newline && i > space ensures !IsBreak(content, i) {
      OccursIsChar(content, '\n', i);
      OccursIsChar(content, ' ', i);
    }
  }

  /** A paragraph break in the window ends at a newline of the window. */
  lemma ParagraphEndsAtNewline(content: string, low: nat, high: nat)
    requires high <= |content| && RFind(content, "\n\n", low, high) >= 0
    ensures RFind(content, "\n", low, high) >= RFind(content, "\n\n", low, high) + 1
  {
    var at := RFind(content, "\n\n", low, high);
    RFindIsLast(content, "\n\n", low, high);
    RFindIsLast(content, "\n", low, high);
    assert content[at + 1] == content[at..at + 2][1] == '\n';
    OccursIsChar(content, '\n', at + 1);
  }

  /** The end computed by the three searches is the one the newline and space searches alone
      determine: a paragraph break never changes the cut. */
  lemma EndIsTheCut(content: string, cursor: nat)
    requires cursor < |content|
    ensures ChunkEnd(content, cursor) >= 0 && IsCut(content, cursor, ChunkEnd(content, cursor))
  {
    if cursor + MAX_UNIT_CHARACTERS < |content| {
      var low, high := cursor + 1, cursor + MAX_UNIT_CHARACTERS + 1;
      LastBreak(content, low, high);
      if RFind(content, "\n\n", low, high) >= 0 { ParagraphEndsAtNewline(content, low, high); }
      var at := Max(RFind(content, "\n", low, high), RFind(content, " ", low, high));
      assert ChunkEnd(content, cursor) == if at == -1 then cursor + MAX_UNIT_CHARACTERS else at + 1;
    }
  }

  // ---------------------------------------------------------------- all chunks

  /** The chunks from the cursor on. */
  function ChunksFrom(content: string, cursor: nat): (chunks: seq<Chunk>)
    requires cursor <= |content|
    decreases |content| - cursor
  {
    if cursor == |content| then []
    else
      EndIsTheCut(content, cursor);
      var end := ChunkEnd(content, cursor);
      [Chunk(cursor, end, content[cursor..end])] + ChunksFrom(content, end)
  }

  function DocumentChunks(content: string): seq<Chunk> {
    ChunksFrom(content, 0)
  }

  function Joined(chunks: seq<Chunk>): string {
    if chunks == [] then "" else chunks[0].content + Joined(chunks[1..])
  }

  /** The chunks tile the text from the cursor to its end, each cut by the rule. */
  ghost predicate Tiles(content: string, cursor: nat, chunks: seq<Chunk>)
    decreases chunks
  {
    if chunks == [] then cursor == |content|
    else
      && chunks[0].start == cursor && IsCut(content, cursor, chunks[0].end)
      && chunks[0].content == content[cursor..chunks[0].end]
      && Tiles(content, chunks[0].end, chunks[1..])
  }

  lemma {:induction false} ChunksTile(content: string, cursor: nat)
    requires cursor <= |content|
    ensures Tiles(content, cursor, ChunksFrom(content, cursor))
    decreases |content| - cursor
  {
    if cursor < |content| {
      EndIsTheCut(content, cursor);
      ChunksTile(content, ChunkEnd(content, cursor));
    }
  }

  /** The rule determines the chunks. */
  lemma {:induction false} TilingIsUnique(content: string, cursor: nat, chunks: seq<Chunk>)
    requires cursor <= |content| && Tiles(content, cursor, chunks)
    ensures chunks == ChunksFrom(content, cursor)
    decreases chunks
  {
    if chunks != [] {
      EndIsTheCut(content, cursor);
      CutIsUnique(content, cursor, chunks[0].end, ChunkEnd(content, cursor));
      TilingIsUnique(content, chunks[0].end, chunks[1..]);
      assert chunks == [chunks[0]] + chunks[1..];
    }
  }

  /** Chunks are non-empty, at most one character over the maximum, contiguous, and join to
      the text. */
  lemma {:induction false} TilesFacts(content: string, cursor: nat, chunks: seq<Chunk>)
    requires cursor <= |content| && Tiles(content, cursor, chunks)
    ensures Joined(chunks) == content[cursor..]
    ensures forall i :: 0 <= i < |chunks| ==>
      && chunks[i].start == (if i == 0 then cursor else chunks[i - 1].end)
      && 0 < |chunks[i].content| <= MAX_UNIT_CHARACTERS + 1
      && chunks[i].start + |chunks[i].content| == chunks[i].end <= |content|
    ensures chunks != [] ==> chunks[|chunks| - 1].end == |content|
    decreases chunks
  {
    if chunks != [] {
      var rest := chunks[1..];
      TilesFacts(content, chunks[0].end, rest);
      assert content[cursor..] == content[cursor..chunks[0].end] + content[chunks[0].end..];
      forall i | 0 <= i < |chunks|
        ensures chunks[i].start == (if i == 0 then cursor else chunks[i - 1].end)
        ensures 0 < |chunks[i].content| <= MAX_UNIT_CHARACTERS + 1
        ensures chunks[i].start + |chunks[i].content| == chunks[i].end <= |content|
      {
        if i > 0 { assert chunks[i] == rest[i - 1]; }
      }
      if rest != [] { assert chunks[|chunks| - 1] == rest[|rest| - 1]; }
    }
  }

  lemma NextChunk(content: string, cursor: nat, done: seq<Chunk>, chunk: Chunk)
    requires cursor < |content| && cursor < ChunkEnd(content, cursor) <= |content|
    requires chunk == Chunk(cursor, ChunkEnd(content, cursor), content[cursor..ChunkEnd(content, cursor)])
    ensures done + ChunksFrom(content, cursor) == done + [chunk] + ChunksFrom(content, chunk.end)
  {
    var rest := ChunksFrom(content, chunk.end);
    assert ChunksFrom(content, cursor) == [chunk] + rest;
    assert done + ([chunk] + rest) == done + [chunk] + rest;
  }

  /** Where the chunk at the cursor ends. */
  method FindEnd(content: string, cursor: nat) returns (end: nat)
    requires cursor < |content|
    ensures end == ChunkEnd(content, cursor) && cursor < end <= |content|
  {
    var length := |content|;
    var target := if length < cursor + MAX_UNIT_CHARACTERS then length else cursor + MAX_UNIT_CHARACTERS;
    var cut: int := target;
    if target < length {
      var paragraph := RFind(content, "\n\n", cursor + 1, target + 1);
      var newline := RFind(content, "\n", cursor + 1, target + 1);
      var space := RFind(content, " ", cursor + 1, target + 1);
      cut := Max(if paragraph >= cursor then paragraph + 2 else 0, Max(newline + 1, space + 1));
      if cut <= cursor { cut := target; }
    }
    EndIsTheCut(content, cursor);
    end := cut;
  }

  /** `_document_chunks`: the cursor moves to the end of each chunk in turn. */
  method SplitDocument(content: string) returns (chunks: seq<Chunk>)
    ensures chunks == DocumentChunks(content)
  {
    chunks := [];
    if content == "" { return; }
    var cursor := 0;
    while cursor < |content|
      invariant cursor <= |content|
      invariant chunks + ChunksFrom(content, cursor) == DocumentChunks(content)
      decreases |content| - cursor
    {
      var end := FindEnd(content, cursor);
      var chunk := Chunk(cursor, end, content[cursor..end]);
      NextChunk(content, cursor, chunks, chunk);
      chunks := chunks + [chunk];
      cursor := end;
    }
  }
}
