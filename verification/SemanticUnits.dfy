/** Construction and reconciliation of semantic units (`semantic/units.py`). */
module SemanticUnits {
  import opened Schema
  import opened SemanticChunks

  const CHUNKER_VERSION := "bounded-paragraph-v1"

  datatype SourceType = ChatMessage | ElectedDocumentText

  /** What identifies one revision of one source. */
  datatype SourceKey = SourceKey(kind: SourceType, id: string, revision: nat)

  datatype SourceText = SourceText(
    key: SourceKey, project: string, chat: Option<string>, content: string, updatedAt: Instant)

  datatype UnitId = UnitUuid(source: SourceKey, index: nat, chunker: string, digest: Digest)

  datatype SemanticUnit = SemanticUnit(
    id: UnitId, source: SourceKey, project: string, chat: Option<string>, index: nat, start: nat, end: nat,
    content: string, digest: Digest, chunker: string, updatedAt: Instant)

  type UnitTable = map<UnitId, SemanticUnit>

  // ---------------------------------------------------------------- building

  function ChunksOf(kind: SourceType, content: string): seq<Chunk> {
    if kind == ChatMessage then [Chunk(0, |content|, content)] else DocumentChunks(content)
  }

  function UnitAt(source: SourceText, index: nat, chunk: Chunk): SemanticUnit {
    var digest := Sha256(chunk.content);
    SemanticUnit(UnitUuid(source.key, index, CHUNKER_VERSION, digest), source.key, source.project, source.chat,
                 index, chunk.start, chunk.end, chunk.content, digest, CHUNKER_VERSION, source.updatedAt)
  }

  function UnitsOf(source: SourceText): seq<SemanticUnit> {
    var chunks := ChunksOf(source.key.kind, source.content);
    seq(|chunks|, i requires 0 <= i < |chunks| => UnitAt(source, i, chunks[i]))
  }

  /** `build_units`. */
  method BuildUnits(source: SourceText) returns (units: seq<SemanticUnit>)
    ensures units == UnitsOf(source)
  {
    var chunks;
    if source.key.kind == ChatMessage {
      chunks := [Chunk(0, |source.content|, source.content)];
    } else {
      chunks := SplitDocument(source.content);
    }
    units := [];
    for index := 0 to |chunks|
      invariant |units| == index
      invariant forall i :: 0 <= i < index ==> units[i] == UnitAt(source, i, chunks[i])
    {
      units := units + [UnitAt(source, index, chunks[index])];
    }
  }

  function Expected(sources: seq<SourceText>): seq<SemanticUnit> {
    if sources == [] then [] else Expected(sources[..|sources| - 1]) + UnitsOf(sources[|sources| - 1])
  }

  /** Each revision of a source is read once. */
  predicate DistinctSources(sources: seq<SourceText>) {
    forall i, j :: 0 <= i < j < |sources| ==> sources[i].key != sources[j].key
  }

  predicate DistinctUnits(units: seq<SemanticUnit>) {
    forall i, j :: 0 <= i < j < |units| ==> units[i].id != units[j].id
  }

  /** A unit's id repeats its identifying columns. */
  predicate WellNamed(u: SemanticUnit) {
    && u.id == UnitUuid(u.source, u.index, u.chunker, u.digest)
    && u.digest == Sha256(u.content)
  }

  /** Every expected unit comes from one source and one of its chunks. */
  ghost predicate ComesFrom(u: SemanticUnit, source: SourceText) {
    var chunks := ChunksOf(source.key.kind, source.content);
    u.index < |chunks| && u == UnitAt(source, u.index, chunks[u.index])
  }

  lemma {:induction false} ExpectedCome(sources: seq<SourceText>, k: nat) returns (i: nat)
    requires k < |Expected(sources)|
    ensures i < |sources| && ComesFrom(Expected(sources)[k], sources[i])
  {
    var front, last := sources[..|sources| - 1], sources[|sources| - 1];
    if k < |Expected(front)| {
      i := ExpectedCome(front, k);
    } else {
      i := |sources| - 1;
    }
  }

  lemma {:induction false} ExpectedAreDistinct(sources: seq<SourceText>)
    requires DistinctSources(sources)
    ensures DistinctUnits(Expected(sources))
  {
    if sources != [] {
      var front, last := sources[..|sources| - 1], sources[|sources| - 1];
      ExpectedAreDistinct(front);
      var all, before := Expected(sources), Expected(front);
      forall i, j | 0 <= i < j < |all| ensures all[i].id != all[j].id {
        if j >= |before| && i < |before| {
          var k := ExpectedCome(front, i);
          assert all[i].source == front[k].key != last.key == all[j].source;
          assert WellNamed(all[i]) && WellNamed(all[j]);
        } else if i >= |before| {
          assert all[i].id.index == i - |before|;
        }
      }
    }
  }

  // ---------------------------------------------------------------- reconciliation

  function Ids(units: seq<SemanticUnit>): set<UnitId> {
    set u | u in units :: u.id
  }

  /** The table built afresh. */
  function Fresh(units: seq<SemanticUnit>): UnitTable
    requires DistinctUnits(units)
  {
    map i | 0 <= i < |units| :: units[i].id := units[i]
  }

  /** The table holds exactly the units, each under its id. */
  predicate Holds(want: UnitTable, units: seq<SemanticUnit>) {
    && (forall u :: u in units ==> u.id in want && want[u.id] == u)
    && (forall id :: id in want ==> want[id] in units && want[id].id == id)
  }

  lemma FreshHolds(units: seq<SemanticUnit>)
    requires DistinctUnits(units)
    ensures Holds(Fresh(units), units)
  {
    forall u | u in units ensures u.id in Fresh(units) && Fresh(units)[u.id] == u {
      var i :| 0 <= i < |units| && units[i] == u;
    }
  }

  lemma HeldIds(want: UnitTable, units: seq<SemanticUnit>)
    requires Holds(want, units)
    ensures Ids(units) == want.Keys
  {}

  /** An existing row only takes the new project, chat and source time. */
  function Upserted(table: UnitTable, u: SemanticUnit): SemanticUnit {
    if u.id in table then table[u.id].(project := u.project, chat := u.chat, updatedAt := u.updatedAt) else u
  }

  function Reconciled(table: UnitTable, want: UnitTable): UnitTable {
    map id | id in want :: Upserted(table, want[id])
  }

  ghost predicate RowsWellNamed(table: UnitTable) {
    forall id :: id in table ==> table[id].id == id && WellNamed(table[id])
  }

  /** `UNIQUE(source_type, source_id, source_revision, unit_index, chunker_version)`. */
  ghost predicate OneRowPerSlot(table: UnitTable) {
    forall a, b :: a in table && b in table && a != b ==>
      table[a].source != table[b].source || table[a].index != table[b].index || table[a].chunker != table[b].chunker
  }

  lemma ExpectedAreWellNamed(sources: seq<SourceText>)
    ensures forall i :: 0 <= i < |Expected(sources)| ==>
      WellNamed(Expected(sources)[i]) && Expected(sources)[i].chunker == CHUNKER_VERSION
  {
    forall i | 0 <= i < |Expected(sources)| ensures WellNamed(Expected(sources)[i])
      && Expected(sources)[i].chunker == CHUNKER_VERSION {
      var k := ExpectedCome(sources, i);
    }
  }

  /** The table built afresh from sources: every row is named by its key and comes from this
      chunker. */
  ghost predicate Wanted(want: UnitTable) {
    RowsWellNamed(want) && forall id :: id in want ==> want[id].chunker == CHUNKER_VERSION
  }

  lemma FreshIsWanted(sources: seq<SourceText>)
    requires DistinctUnits(Expected(sources))
    ensures Wanted(Fresh(Expected(sources)))
  {
    ExpectedAreWellNamed(sources);
  }

  lemma UpsertedIsWellNamed(table: UnitTable, u: SemanticUnit)
    requires RowsWellNamed(table) && WellNamed(u)
    ensures var row := Upserted(table, u);
      row.id == u.id && WellNamed(row) && row.source == u.source && row.index == u.index && row.chunker == u.chunker
  {
    if u.id in table { assert WellNamed(table[u.id]); }
  }

  lemma ReconciledIsWellNamed(table: UnitTable, want: UnitTable)
    requires RowsWellNamed(table) && RowsWellNamed(want)
    ensures RowsWellNamed(Reconciled(table, want))
  {
    forall id | id in want ensures WellNamed(Upserted(table, want[id])) && Upserted(table, want[id]).id == id {
      UpsertedIsWellNamed(table, want[id]);
    }
  }

  lemma FreshComes(sources: seq<SourceText>, id: UnitId) returns (i: nat)
    requires DistinctUnits(Expected(sources)) && id in Fresh(Expected(sources))
    ensures i < |sources| && ComesFrom(Fresh(Expected(sources))[id], sources[i])
      && Fresh(Expected(sources))[id].id == id
  {
    var k :| 0 <= k < |Expected(sources)| && Expected(sources)[k].id == id;
    i := ExpectedCome(sources, k);
  }

  lemma KeyDeterminesSource(sources: seq<SourceText>, i: nat, j: nat)
    requires DistinctSources(sources) && i < |sources| && j < |sources| && sources[i].key == sources[j].key
    ensures i == j
  {}

  lemma SlotDeterminesUnit(sources: seq<SourceText>, u: SemanticUnit, v: SemanticUnit, i: nat, j: nat)
    requires DistinctSources(sources) && i < |sources| && j < |sources|
    requires ComesFrom(u, sources[i]) && ComesFrom(v, sources[j]) && u.source == v.source && u.index == v.index
    ensures u == v
  {
    KeyDeterminesSource(sources, i, j);
  }

  lemma FreshHasOneRowPerSlot(sources: seq<SourceText>)
    requires DistinctSources(sources) && DistinctUnits(Expected(sources))
    ensures OneRowPerSlot(Fresh(Expected(sources)))
  {
    var want := Fresh(Expected(sources));
    forall a, b | a in want && b in want && want[a].source == want[b].source && want[a].index == want[b].index
      ensures a == b {
      var i := FreshComes(sources, a);
      var j := FreshComes(sources, b);
      SlotDeterminesUnit(sources, want[a], want[b], i, j);
    }
  }

  /** The upserts never meet a slot taken by another row. */
  lemma ReconciledHasOneRowPerSlot(table: UnitTable, want: UnitTable)
    requires RowsWellNamed(table) && RowsWellNamed(want) && OneRowPerSlot(want)
    ensures OneRowPerSlot(Reconciled(table, want))
  {
    var t := Reconciled(table, want);
    forall id | id in t
      ensures t[id].source == want[id].source && t[id].index == want[id].index && t[id].chunker == want[id].chunker
    {
      UpsertedIsWellNamed(table, want[id]);
    }
  }

  predicate SameSpan(a: SemanticUnit, b: SemanticUnit) {
    a.start == b.start && a.end == b.end
  }

  /** The reconciled table is the fresh one if and only if every surviving row already had
      the span of its unit: the upsert does not refresh offsets. */
  lemma ReconciledIsFreshIff(table: UnitTable, want: UnitTable)
    requires RowsWellNamed(table) && RowsWellNamed(want)
    ensures Reconciled(table, want) == want <==>
            forall id :: id in want && id in table ==> SameSpan(table[id], want[id])
  {
    var t := Reconciled(table, want);
    if t == want {
      forall id | id in want && id in table ensures SameSpan(table[id], want[id]) {
        assert t[id] == Upserted(table, want[id]);
      }
    }
    if forall id :: id in want && id in table ==> SameSpan(table[id], want[id]) {
      forall id | id in want ensures t[id] == want[id] {
        if id in table { assert WellNamed(table[id]) && WellNamed(want[id]); }
      }
    }
  }

  // ---------------------------------------------------------------- stable contents

  /** Every revision read has the content the ledger gives its key. */
  ghost predicate Coherent(sources: seq<SourceText>, ledger: SourceKey -> string) {
    forall i :: 0 <= i < |sources| ==> sources[i].content == ledger(sources[i].key)
  }

  /** Every row spans the chunk of its slot. */
  ghost predicate SpansFollow(table: UnitTable, ledger: SourceKey -> string) {
    forall id :: id in table && table[id].chunker == CHUNKER_VERSION ==> SpanFollows(table[id], ledger)
  }

  ghost predicate SpanFollows(u: SemanticUnit, ledger: SourceKey -> string) {
    var chunks := ChunksOf(u.source.kind, ledger(u.source));
    u.index < |chunks| && u.start == chunks[u.index].start && u.end == chunks[u.index].end
  }

  lemma ExpectedFollow(sources: seq<SourceText>, ledger: SourceKey -> string)
    requires Coherent(sources, ledger)
    ensures forall i :: 0 <= i < |Expected(sources)| ==> SpanFollows(Expected(sources)[i], ledger)
  {
    forall i | 0 <= i < |Expected(sources)| ensures SpanFollows(Expected(sources)[i], ledger) {
      var k := ExpectedCome(sources, i);
    }
  }

  lemma FreshSpans(units: seq<SemanticUnit>, ledger: SourceKey -> string)
    requires DistinctUnits(units) && forall i :: 0 <= i < |units| ==> SpanFollows(units[i], ledger)
    ensures SpansFollow(Fresh(units), ledger)
  {}

  /** As long as a revision keeps its content, reconciling in place is rebuilding. */
  lemma StableContentsRebuild(table: UnitTable, sources: seq<SourceText>, ledger: SourceKey -> string)
    requires RowsWellNamed(table) && SpansFollow(table, ledger) && DistinctSources(sources) && Coherent(sources, ledger)
    ensures DistinctUnits(Expected(sources))
    ensures Reconciled(table, Fresh(Expected(sources))) == Fresh(Expected(sources))
    ensures SpansFollow(Fresh(Expected(sources)), ledger)
  {
    ExpectedAreDistinct(sources);
    FreshIsWanted(sources);
    ExpectedFollow(sources, ledger);
    var want := Fresh(Expected(sources));
    FreshSpans(Expected(sources), ledger);
    forall id | id in want && id in table ensures SameSpan(table[id], want[id]) {
      assert WellNamed(table[id]) && WellNamed(want[id]);
      assert SpanFollows(table[id], ledger) && SpanFollows(want[id], ledger);
    }
    ReconciledIsFreshIff(table, want);
  }

  // ---------------------------------------------------------------- a reused revision

  function Repeat(c: char, n: nat): string {
    seq(n, i => c)
  }

  /** `n` letters, a space, and a full chunk. */
  function TwoChunks(n: nat): string {
    Repeat('a', n) + " " + Repeat('b', MAX_UNIT_CHARACTERS)
  }

  lemma TwoChunksSplit(n: nat)
    requires 0 < n < MAX_UNIT_CHARACTERS
    ensures DocumentChunks(TwoChunks(n)) ==
            [Chunk(0, n + 1, Repeat('a', n) + " "), Chunk(n + 1, n + 1 + MAX_UNIT_CHARACTERS,
              Repeat('b', MAX_UNIT_CHARACTERS))]
  {
    var t := TwoChunks(n);
    var tail := Chunk(n + 1, n + 1 + MAX_UNIT_CHARACTERS, Repeat('b', MAX_UNIT_CHARACTERS));
    var chunks := [Chunk(0, n + 1, Repeat('a', n) + " "), tail];
    assert IsBreak(t, n);
    forall i | n + 1 <= i <= MAX_UNIT_CHARACTERS ensures !IsBreak(t, i) {}
    assert IsCut(t, 0, n + 1) && t[0..n + 1] == Repeat('a', n) + " ";
    assert IsCut(t, n + 1, |t|) && t[n + 1..|t|] == tail.content;
    assert chunks[1..] == [tail] && [tail][1..] == [];
    assert Tiles(t, |t|, []);
    assert Tiles(t, n + 1, [tail]);
    assert Tiles(t, 0, chunks);
    TilingIsUnique(t, 0, chunks);
  }

  /** A document removed and elected again between two cycles restarts at revision 1; when a
      later chunk has the same text at the same position in the list, its row keeps the old
      offsets. */
  lemma ReusedRevisionKeepsOldOffsets(id: string, project: string, before: Instant, after: Instant)
    ensures
      var key := SourceKey(ElectedDocumentText, id, 1);
      var first := [SourceText(key, project, None, TwoChunks(100), before)];
      var second := [SourceText(key, project, None, TwoChunks(200), after)];
      && DistinctUnits(Expected(first)) && DistinctUnits(Expected(second))
      && Reconciled(Fresh(Expected(first)), Fresh(Expected(second))) != Fresh(Expected(second))
  {
    var key := SourceKey(ElectedDocumentText, id, 1);
    var first := [SourceText(key, project, None, TwoChunks(100), before)];
    var second := [SourceText(key, project, None, TwoChunks(200), after)];
    ExpectedAreDistinct(first);
    ExpectedAreDistinct(second);
    TwoChunksSplit(100);
    TwoChunksSplit(200);
    assert first[..0] == [] && second[..0] == [];
    assert Expected(first) == [] + UnitsOf(first[0]) && Expected(second) == [] + UnitsOf(second[0]);
    var u, v := Expected(first)[1], Expected(second)[1];
    assert u.id == v.id && u.start == 101 && v.start == 201;
    assert Fresh(Expected(first))[u.id] == u && Fresh(Expected(second))[v.id] == v;
    assert Reconciled(Fresh(Expected(first)), Fresh(Expected(second)))[v.id] == Upserted(Fresh(Expected(first)), v);
  }
}
