/** What building, indexing, inspecting and maintaining the derived tables comes to, in terms of
    the sources and the rows alone. */
module DerivedEffects {
  import opened Schema
  import opened SemanticChunks
  import opened SemanticUnits
  import opened VectorIndex
  import opened DerivedState
  import opened DerivedMaintenance

  // ---------------------------------------------------------------- units

  /** The unit is a piece of the source: the whole text of a message, or the tile of its index
      of a document.  It carries the columns of its source and is named by what it holds. */
  ghost predicate PieceOf(u: SemanticUnit, source: SourceText) {
    && u.source == source.key && u.project == source.project && u.chat == source.chat
    && u.updatedAt == source.updatedAt && u.chunker == "bounded-paragraph-v1"
    && u.digest == Sha256(u.content)
    && u.id == UnitUuid(source.key, u.index, "bounded-paragraph-v1", u.digest)
    && u.start <= u.end <= |source.content| && u.content == source.content[u.start..u.end]
    && (source.key.kind == ChatMessage ==> u.index == 0 && u.start == 0 && u.end == |source.content|)
    && (source.key.kind == ElectedDocumentText ==> TileOf(u, source.content))
  }

  ghost predicate TileOf(u: SemanticUnit, text: string) {
    exists chunks :: Tiles(text, 0, chunks) && u.index < |chunks| && chunks[u.index] == Chunk(u.start, u.end, u.content)
  }

  lemma ChunkIsTile(u: SemanticUnit, text: string)
    ensures TileOf(u, text) <==>
      u.index < |DocumentChunks(text)| && DocumentChunks(text)[u.index] == Chunk(u.start, u.end, u.content)
  {
    ChunksTile(text, 0);
    if TileOf(u, text) {
      var chunks :| Tiles(text, 0, chunks) && u.index < |chunks|
        && chunks[u.index] == Chunk(u.start, u.end, u.content);
      TilingIsUnique(text, 0, chunks);
    }
  }

  lemma {:induction false} TileIsSlice(text: string, cursor: nat, chunks: seq<Chunk>, i: nat)
    requires cursor <= |text| && Tiles(text, cursor, chunks) && i < |chunks|
    ensures chunks[i].start <= chunks[i].end <= |text| && chunks[i].content == text[chunks[i].start..chunks[i].end]
    decreases chunks
  {
    if i > 0 { TileIsSlice(text, chunks[0].end, chunks[1..], i - 1); }
  }

  lemma PieceIff(u: SemanticUnit, source: SourceText)
    ensures PieceOf(u, source) <==> ComesFrom(u, source)
  {
    ChunkIsTile(u, source.content);
    assert source.content[0..|source.content|] == source.content;
    if source.key.kind == ElectedDocumentText && u.index < |DocumentChunks(source.content)| {
      ChunksTile(source.content, 0);
      TileIsSlice(source.content, 0, DocumentChunks(source.content), u.index);
    }
  }

  lemma OneComes(source: SourceText, u: SemanticUnit)
    requires ComesFrom(u, source)
    ensures u in UnitsOf(source)
  {
    assert UnitsOf(source)[u.index] == u;
  }

  lemma {:induction false} AllCome(sources: seq<SourceText>, i: nat, u: SemanticUnit)
    requires i < |sources| && u in UnitsOf(sources[i])
    ensures u in Expected(sources)
  {
    var front, last := sources[..|sources| - 1], sources[|sources| - 1];
    assert Expected(sources) == Expected(front) + UnitsOf(last);
    if i < |front| {
      AllCome(front, i, u);
    }
  }

  /** The units built from sources are exactly the pieces of the sources. */
  lemma UnitsAreThePieces(sources: seq<SourceText>, u: SemanticUnit)
    ensures u in Expected(sources) <==> exists i :: 0 <= i < |sources| && PieceOf(u, sources[i])
  {
    if u in Expected(sources) {
      var k :| 0 <= k < |Expected(sources)| && Expected(sources)[k] == u;
      var i := ExpectedCome(sources, k);
      PieceIff(u, sources[i]);
    }
    if i :| 0 <= i < |sources| && PieceOf(u, sources[i]) {
      PieceIff(u, sources[i]);
      OneComes(sources[i], u);
      AllCome(sources, i, u);
    }
  }

  /** A chat message becomes one unit, which is its whole text. */
  lemma MessageIsOneUnit(source: SourceText)
    requires source.key.kind == ChatMessage
    ensures exists u :: PieceOf(u, source) && UnitsOf(source) == [u] && u.content == source.content
  {
    var u := UnitsOf(source)[0];
    PieceIff(u, source);
    assert UnitsOf(source) == [u];
  }

  /** The units of a document follow each other from its beginning to its end. */
  lemma DocumentUnitsJoin(source: SourceText)
    requires source.key.kind == ElectedDocumentText
    ensures var units := UnitsOf(source);
      && (forall i :: 0 <= i < |units| ==> units[i].index == i && PieceOf(units[i], source))
      && (forall i :: 0 < i < |units| ==> units[i].start == units[i - 1].end)
      && (if source.content == "" then units == []
          else units != [] && units[0].start == 0 && units[|units| - 1].end == |source.content|)
  {
    var units, chunks := UnitsOf(source), DocumentChunks(source.content);
    DocumentTiles(source.content);
    assert |units| == |chunks|;
    forall i | 0 <= i < |units| ensures units[i].index == i && PieceOf(units[i], source) {
      PieceIff(units[i], source);
    }
    forall i | 0 < i < |units| ensures units[i].start == units[i - 1].end {
      assert units[i].start == chunks[i].start && units[i - 1].end == chunks[i - 1].end;
    }
  }

  lemma DocumentTiles(text: string)
    ensures var chunks := DocumentChunks(text);
      && (forall i :: 0 < i < |chunks| ==> chunks[i].start == chunks[i - 1].end)
      && (if text == "" then chunks == []
          else chunks != [] && chunks[0].start == 0 && chunks[|chunks| - 1].end == |text|)
  {
    ChunksTile(text, 0);
    TilesFacts(text, 0, DocumentChunks(text));
  }

  // ---------------------------------------------------------------- when the detector is quiet

  /** The record was indexed by this backend from the text of the unit. */
  predicate Current(r: Record, u: SemanticUnit, b: Backend) {
    && r.state == Indexed && r.version == b.version && r.model == b.model && r.vector.Some?
    && r.fingerprint == Fingerprint(b.version, b.model, u.digest)
  }

  /** One row for each unit, with its columns, and one current record. */
  ghost predicate TablesCurrent(s: Derived, want: UnitTable, b: Backend) {
    && s.units.Keys == want.Keys == s.records.Keys
    && (forall id :: id in want ==> SameUpToSpan(s.units[id], want[id]))
    && (forall id :: id in want ==> Current(s.records[id], want[id], b))
  }

  lemma RowStaleIff(row: SemanticUnit, u: SemanticUnit)
    requires WellNamed(row) && WellNamed(u) && row.id == u.id && u.chunker == CHUNKER_VERSION
    ensures RowStale(row, u) <==> !SameUpToSpan(row, u)
  {}

  lemma StaleRowsIff(units: UnitTable, want: UnitTable)
    requires RowsWellNamed(units) && Wanted(want)
    ensures forall id :: id in want && id in units ==>
      (RowStale(units[id], want[id]) <==> !SameUpToSpan(units[id], want[id]))
  {
    forall id | id in want && id in units
      ensures RowStale(units[id], want[id]) <==> !SameUpToSpan(units[id], want[id])
    {
      assert WellNamed(want[id]) && WellNamed(units[id]);
      RowStaleIff(units[id], want[id]);
    }
  }

  lemma NothingPendingIff(s: Derived, want: UnitTable, b: Backend)
    requires RowsWellNamed(s.units) && Wanted(want)
    ensures PendingUnits(s.units, want) + PendingEmbeddings(s.records, want, b) == 0 <==> TablesCurrent(s, want, b)
  {
    StaleRowsIff(s.units, want);
    if PendingUnits(s.units, want) + PendingEmbeddings(s.records, want, b) == 0 { NothingPending(s, want, b); }
    if TablesCurrent(s, want, b) { CurrentTablesPendNothing(s, want, b); }
  }

  lemma CurrentTablesPendNothing(s: Derived, want: UnitTable, b: Backend)
    requires Wanted(want) && s.units.Keys == want.Keys == s.records.Keys
    requires forall id :: id in want ==> !RowStale(s.units[id], want[id]) && Current(s.records[id], want[id], b)
    ensures PendingUnits(s.units, want) == 0 && PendingEmbeddings(s.records, want, b) == 0
  {
    assert StaleRows(s.units, want) == {} && PendingRecords(s.records, want, b) == {};
    assert (s.units.Keys - want.Keys) + (want.Keys - s.units.Keys) == {} && s.records.Keys - want.Keys == {};
  }

  lemma NothingPending(s: Derived, want: UnitTable, b: Backend)
    requires Wanted(want)
    requires PendingUnits(s.units, want) + PendingEmbeddings(s.records, want, b) == 0
    ensures s.units.Keys == want.Keys == s.records.Keys
    ensures forall id :: id in want ==> !RowStale(s.units[id], want[id]) && Current(s.records[id], want[id], b)
  {
    SameKeys(s.units.Keys, want.Keys);
    assert StaleRows(s.units, want) == {} && PendingRecords(s.records, want, b) == {}
      && s.records.Keys - want.Keys == {};
    forall id | id in want
      ensures id in s.records && !RowStale(s.units[id], want[id]) && Current(s.records[id], want[id], b)
    {
      assert id !in StaleRows(s.units, want) && id !in PendingRecords(s.records, want, b);
    }
    forall id | id in s.records ensures id in want {
      assert id !in s.records.Keys - want.Keys;
    }
  }

  /** Sources as some earlier inspection read them under a backend. */
  lemma SameSignatureIff(read: seq<SourceText>, c: Backend, found: seq<SourceText>, b: Backend)
    requires NamedChats(read) && NamedChats(found)
    ensures SignatureOf(read, c) == SignatureOf(found, b) <==>
            read == found && c.version == b.version && c.model == b.model
  {
    if SignatureOf(read, c) == SignatureOf(found, b) {
      assert SignatureOf(read, c) == SignatureOf(read, b);
      SignatureIsInjective(read, found, b);
    }
  }

  /** With the signatures of earlier sources and projections at hand, an inspection asks for no
      cycle if and only if the sources and the backend are those, the projections are those
      when recorded, and both tables are current. */
  lemma QuietIff(
    s: Derived, b: Backend, read: seq<SourceText>, c: Backend, projected: Option<seq<seq<string>>>)
    requires NamedChats(read) && NamedChats(s.sources)
    requires RowsWellNamed(s.units) && DistinctUnits(Expected(s.sources))
    ensures var recorded := if projected.Some? then Some(ProjectionSignature(projected.value)) else None;
      !Inspect(s, b, Some(SignatureOf(read, c)), recorded).requiresCycle <==>
        && s.sources == read && b.version == c.version && b.model == c.model
        && (projected.Some? ==> s.projections == projected.value)
        && TablesCurrent(s, Fresh(Expected(s.sources)), b)
  {
    FreshIsWanted(s.sources);
    NothingPendingIff(s, Fresh(Expected(s.sources)), b);
    SameSignatureIff(read, c, s.sources, b);
  }

  /** Without a source signature an inspection always asks for a cycle. */
  lemma UninspectedIsDirty(s: Derived, b: Backend, lastProjection: Option<ProjectionSignature>)
    requires DistinctUnits(Expected(s.sources))
    ensures Inspect(s, b, None, lastProjection).requiresCycle
  {}

  // ---------------------------------------------------------------- what an inspection reports

  /** Units whose row differs from the one built afresh, offsets aside. */
  function Outdated(units: UnitTable, want: UnitTable): set<UnitId> {
    set id | id in units && id in want && !SameUpToSpan(units[id], want[id])
  }

  function Unserved(records: RecordTable, want: UnitTable, b: Backend): set<UnitId> {
    set id | id in want && !(id in records && Current(records[id], want[id], b))
  }

  function Broken(records: RecordTable, want: UnitTable): set<UnitId> {
    set id | id in want && id in records && records[id].state == Failed
  }

  lemma DisjointUnion<T>(a: set<T>, b: set<T>)
    requires a !! b
    ensures |a + b| == |a| + |b|
  {}

  lemma {:induction false} IdsSize(units: seq<SemanticUnit>)
    requires DistinctUnits(units)
    ensures |Ids(units)| == |units|
  {
    if units != [] {
      var front, last := units[..|units| - 1], units[|units| - 1];
      IdsSize(front);
      assert units == front + [last];
      assert Ids(units) == Ids(front) + {last.id};
      assert last.id !in Ids(front);
    }
  }

  lemma FreshSize(units: seq<SemanticUnit>)
    requires DistinctUnits(units)
    ensures |Fresh(units).Keys| == |units|
  {
    IdsSize(units);
    FreshHolds(units);
    HeldIds(Fresh(units), units);
  }

  lemma PendingUnitsCounts(units: UnitTable, want: UnitTable)
    requires RowsWellNamed(units) && Wanted(want)
    ensures PendingUnits(units, want) ==
            |units.Keys - want.Keys| + |want.Keys - units.Keys| + |Outdated(units, want)|
  {
    StaleIsOutdated(units, want);
    DisjointUnion(units.Keys - want.Keys, want.Keys - units.Keys);
  }

  lemma StaleIsOutdated(units: UnitTable, want: UnitTable)
    requires RowsWellNamed(units) && Wanted(want)
    ensures StaleRows(units, want) == Outdated(units, want)
  {
    StaleRowsIff(units, want);
    forall id ensures id in StaleRows(units, want) <==> id in Outdated(units, want) {}
  }

  lemma PendingEmbeddingsCounts(records: RecordTable, want: UnitTable, b: Backend)
    requires Wanted(want)
    ensures PendingEmbeddings(records, want, b) == |records.Keys - want.Keys| + |Unserved(records, want, b)|
    ensures |FailedRecords(records, want)| == |Broken(records, want)|
  {
    assert PendingRecords(records, want, b) == Unserved(records, want, b);
    assert FailedRecords(records, want) == Broken(records, want);
  }

  /** The counts of an inspection: sources, units, units to drop, to add or to rewrite, records
      to drop or to compute, units whose embedding failed, and rows of each projection. */
  lemma InspectionCounts(
    s: Derived, b: Backend, lastSource: Option<SourceSignature>, lastProjection: Option<ProjectionSignature>)
    requires RowsWellNamed(s.units) && DistinctUnits(Expected(s.sources))
    ensures Reports(Inspect(s, b, lastSource, lastProjection), s, Fresh(Expected(s.sources)), b)
  {
    var want := Fresh(Expected(s.sources));
    FreshIsWanted(s.sources);
    FreshSize(Expected(s.sources));
    InspectionFields(s, b, lastSource, lastProjection);
    ReportsFrom(Inspect(s, b, lastSource, lastProjection), s, want, b);
  }

  ghost predicate Reports(i: Inspection, s: Derived, want: UnitTable, b: Backend) {
    && i.counts.sources == |s.sources| && i.counts.units == |want.Keys|
    && i.pendingUnits == |s.units.Keys - want.Keys| + |want.Keys - s.units.Keys| + |Outdated(s.units, want)|
    && i.pendingEmbeddings == |s.records.Keys - want.Keys| + |Unserved(s.records, want, b)|
    && i.counts.failedEmbeddings == |Broken(s.records, want)|
    && |i.counts.projections| == |s.projections|
    && forall k :: 0 <= k < |s.projections| ==> i.counts.projections[k] == |s.projections[k]|
  }

  lemma ReportsFrom(i: Inspection, s: Derived, want: UnitTable, b: Backend)
    requires RowsWellNamed(s.units) && Wanted(want)
    requires i.pendingUnits == PendingUnits(s.units, want) && i.pendingEmbeddings ==
      PendingEmbeddings(s.records, want, b)
    requires i.counts == Counts(|s.sources|, |want.Keys|, |FailedRecords(s.records, want)|, RowCounts(s.projections))
    ensures Reports(i, s, want, b)
  {
    PendingUnitsCounts(s.units, want);
    PendingEmbeddingsCounts(s.records, want, b);
  }

  lemma InspectionFields(
    s: Derived, b: Backend, lastSource: Option<SourceSignature>, lastProjection: Option<ProjectionSignature>)
    requires DistinctUnits(Expected(s.sources))
    ensures var i, want := Inspect(s, b, lastSource, lastProjection), Fresh(Expected(s.sources));
      && i.pendingUnits == PendingUnits(s.units, want) && i.pendingEmbeddings == PendingEmbeddings(s.records, want, b)
      && i.counts == Counts(|s.sources|, |Expected(s.sources)|, |FailedRecords(s.records, want)|,
           RowCounts(s.projections))
  {}

  // ---------------------------------------------------------------- what a cycle writes

  /** The record a unit had is kept when it was indexed from the same text. */
  predicate KeptRecord(records: RecordTable, id: UnitId, u: SemanticUnit, b: Backend) {
    && id in records && records[id].state == Indexed && records[id].vector.Some?
    && records[id].fingerprint == Fingerprint(b.version, b.model, u.digest)
  }

  /** The class of the error when embedding the text fails: of the call, or of its length. */
  function ErrorOf(p: Pass, text: string): Option<string> {
    if p.outage(text).Some? then p.outage(text)
    else if |p.embed(p.backend.version, p.backend.model, text)| != p.backend.dimension then Some("ValueError")
    else None
  }

  /** A record kept as it was, or written now: a failure with its class and no vector, or the
      encoded vector. */
  ghost predicate RecordAfter(records: RecordTable, r: Record, id: UnitId, u: SemanticUnit, p: Pass) {
    var b, error := p.backend, ErrorOf(p, u.content);
    if KeptRecord(records, id, u, b) then r == records[id]
    else
      && r.version == b.version && r.model == b.model && r.dimension == b.dimension && r.updatedAt == p.now
      && r.fingerprint == Fingerprint(b.version, b.model, u.digest)
      && r.errorClass == error
      && (error.Some? ==> r.state == Failed && r.vector == None)
      && (error.None? ==> r.state == Indexed && r.vector == Some(Packed(p.embed(b.version, b.model, u.content))))
  }

  /** A row that was there keeps all but project, chat and source time; a missing one is added. */
  predicate RowAfter(units: UnitTable, row: SemanticUnit, u: SemanticUnit) {
    if u.id in units then
      && row.project == u.project && row.chat == u.chat && row.updatedAt == u.updatedAt
      && row == units[u.id].(project := row.project, chat := row.chat, updatedAt := row.updatedAt)
    else row == u
  }

  lemma NextRecordIs(records: RecordTable, u: SemanticUnit, p: Pass)
    ensures RecordAfter(records, NextRecord(records, u, p), u.id, u, p)
  {}

  lemma SurvivorsServe(s: Derived, want: UnitTable, id: UnitId)
    requires id in want
    ensures id in Surviving(s, want) <==> id in s.records
    ensures id in s.records ==> Surviving(s, want)[id] == s.records[id]
  {}

  lemma CycleWritesRecords(s: Derived, want: UnitTable, p: Pass)
    requires Wanted(want)
    ensures forall id :: id in want ==>
      RecordAfter(s.records, Reindexed(Surviving(s, want), want, p)[id], id, want[id], p)
  {
    forall id | id in want
      ensures RecordAfter(s.records, Reindexed(Surviving(s, want), want, p)[id], id, want[id], p)
    {
      NextRecordIs(Surviving(s, want), want[id], p);
      SurvivorsServe(s, want, id);
    }
  }

  lemma CycleWritesRows(units: UnitTable, want: UnitTable)
    requires RowsWellNamed(units) && Wanted(want)
    ensures forall id :: id in want ==> RowAfter(units, Reconciled(units, want)[id], want[id])
  {}

  /** A committed cycle leaves one row and one record for each unit of the sources it read, the
      rebuilt projections, and the sources alone; a cycle that raises leaves everything. */
  lemma CycleWrites(s: Derived, p: Pass, rebuilt: Option<seq<seq<string>>>)
    requires DistinctSources(s.sources) && TablesSound(s, p.embed) && DistinctUnits(Expected(s.sources))
    ensures var (t, o) := Cycle(s, p, rebuilt);
      && (rebuilt.None? ==> o.RolledBack? && t == s)
      && (rebuilt.Some? ==>
            && o.Committed? && t.sources == s.sources && t.projections == rebuilt.value
            && Rewritten(s, t, Fresh(Expected(s.sources)), p))
  {
    CycleIsSound(s, p, rebuilt);
    FreshIsWanted(s.sources);
    if rebuilt.Some? {
      CommittedTables(s, p, rebuilt.value);
      WritesFrom(s, Cycle(s, p, rebuilt).0, Fresh(Expected(s.sources)), p);
    }
  }

  lemma WritesFrom(s: Derived, t: Derived, want: UnitTable, p: Pass)
    requires RowsWellNamed(s.units) && Wanted(want)
    requires t.units == Reconciled(s.units, want) && t.records == Reindexed(Surviving(s, want), want, p)
    ensures Rewritten(s, t, want, p)
  {
    CycleWritesRecords(s, want, p);
    CycleWritesRows(s.units, want);
  }

  lemma CommittedTables(s: Derived, p: Pass, rebuilt: seq<seq<string>>)
    requires DistinctUnits(Expected(s.sources)) && Cycle(s, p, Some(rebuilt)).1.Committed?
    ensures var want := Fresh(Expected(s.sources));
      Cycle(s, p, Some(rebuilt)).0 ==
      Derived(s.sources, Reconciled(s.units, want), Reindexed(Surviving(s, want), want, p), rebuilt)
  {}

  ghost predicate Rewritten(s: Derived, t: Derived, want: UnitTable, p: Pass) {
    && t.units.Keys == want.Keys == t.records.Keys
    && (forall id :: id in want ==> RowAfter(s.units, t.units[id], want[id]))
    && (forall id :: id in want ==> RecordAfter(s.records, t.records[id], id, want[id], p))
  }

  function KeptUnits(records: RecordTable, units: seq<SemanticUnit>, b: Backend): set<SemanticUnit> {
    set u | u in units && KeptRecord(records, u.id, u, b)
  }

  function FailedUnits(records: RecordTable, units: seq<SemanticUnit>, p: Pass): set<SemanticUnit> {
    set u | u in units && !KeptRecord(records, u.id, u, p.backend) && ErrorOf(p, u.content).Some?
  }

  lemma OneMore<T>(a: set<T>, b: set<T>, x: T, more: bool)
    requires x !in a && b == (if more then a + {x} else a)
    ensures |b| == |a| + (if more then 1 else 0)
  {}

  lemma {:induction false} TallyCounts(records: RecordTable, units: seq<SemanticUnit>, p: Pass)
    requires DistinctUnits(units)
    ensures var t := TallyOf(records, units, p);
      && t.same == |KeptUnits(records, units, p.backend)|
      && t.failed == |FailedUnits(records, units, p)|
      && t.indexed == |units| - t.same - t.failed
  {
    if units != [] {
      var front, last := units[..|units| - 1], units[|units| - 1];
      TallyCounts(records, front, p);
      CountsGrow(records, front, last, p);
      assert units == front + [last];
    }
  }

  lemma CountsGrow(records: RecordTable, front: seq<SemanticUnit>, last: SemanticUnit, p: Pass)
    requires last !in front
    ensures var kept := KeptRecord(records, last.id, last, p.backend);
      && |KeptUnits(records, front + [last], p.backend)| ==
         |KeptUnits(records, front, p.backend)| + (if kept then 1 else 0)
      && |FailedUnits(records, front + [last], p)| ==
         |FailedUnits(records, front, p)| + (if !kept && ErrorOf(p, last.content).Some? then 1 else 0)
  {
    var kept := KeptRecord(records, last.id, last, p.backend);
    KeptGrow(records, front, last, p.backend);
    FailedGrow(records, front, last, p);
    OneMore(KeptUnits(records, front, p.backend), KeptUnits(records, front + [last], p.backend), last, kept);
    OneMore(FailedUnits(records, front, p), FailedUnits(records, front + [last], p), last,
      !kept && ErrorOf(p, last.content).Some?);
  }

  lemma KeptGrow(records: RecordTable, front: seq<SemanticUnit>, last: SemanticUnit, b: Backend)
    ensures KeptUnits(records, front + [last], b) ==
            KeptUnits(records, front, b) + (if KeptRecord(records, last.id, last, b) then {last} else {})
  {}

  lemma FailedGrow(records: RecordTable, front: seq<SemanticUnit>, last: SemanticUnit, p: Pass)
    ensures FailedUnits(records, front + [last], p) ==
            FailedUnits(records, front, p) +
            (if !KeptRecord(records, last.id, last, p.backend) && ErrorOf(p, last.content).Some? then {last} else {})
  {}

  /** A committed cycle counts the units whose record it kept, those whose embedding failed, and
      the rest as indexed. */
  lemma CycleCounts(s: Derived, p: Pass, rebuilt: seq<seq<string>>)
    requires DistinctSources(s.sources) && TablesSound(s, p.embed) && DistinctUnits(Expected(s.sources))
    ensures var o, units := Cycle(s, p, Some(rebuilt)).1, Expected(s.sources);
      && o.Committed?
      && o.tally.same == |KeptUnits(s.records, units, p.backend)|
      && o.tally.failed == |FailedUnits(s.records, units, p)|
      && o.tally.indexed == |units| - o.tally.same - o.tally.failed
  {
    var units, records := Expected(s.sources), Surviving(s, Fresh(Expected(s.sources)));
    CycleIsSound(s, p, Some(rebuilt));
    TallyCounts(records, units, p);
    SurvivorsCount(s, units, p);
  }

  lemma SurvivorsCount(s: Derived, units: seq<SemanticUnit>, p: Pass)
    requires DistinctUnits(units)
    ensures var records := Surviving(s, Fresh(units));
      && KeptUnits(records, units, p.backend) == KeptUnits(s.records, units, p.backend)
      && FailedUnits(records, units, p) == FailedUnits(s.records, units, p)
  {
    FreshHolds(units);
    forall u | u in units
      ensures KeptRecord(Surviving(s, Fresh(units)), u.id, u, p.backend) == KeptRecord(s.records, u.id, u, p.backend)
    {
      SurvivorsServe(s, Fresh(units), u.id);
    }
  }

  // ---------------------------------------------------------------- the maintainer

  /** Both signatures are recorded together; while converged, the recorded projections are the
      stored ones. */
  ghost predicate Recorded(m: Maintained) {
    && (m.lastSource.Some? <==> m.lastProjection.Some?)
    && (m.convergence == Converged ==> m.lastProjection == Some(ProjectionSignature(m.derived.projections)))
  }

  lemma TurnRecords(m: Maintained, p: Pass, rebuilt: Option<seq<seq<string>>>, arriving: seq<SourceText>)
    requires Recorded(m) && DistinctUnits(Expected(m.derived.sources))
    ensures var next := RunOnce(m, p, rebuilt, arriving);
      && Recorded(next)
      && (next.convergence == Converged ==> next.lastSource == Some(SignatureOf(next.derived.sources, p.backend)))
      && next.convergence != Pending
  {
    var next := RunOnce(m, p, rebuilt, arriving);
    var (t, o) := Cycle(m.derived, p, rebuilt);
    if !Inspect(m.derived, p.backend, m.lastSource, m.lastProjection).requiresCycle {
      QuietKeepsSignatures(m.derived, p.backend, m.lastSource, m.lastProjection);
      assert next == m.(convergence := Converged);
    } else if o.RolledBack? {
      assert next == m.(convergence := Behind);
    } else if o.tally.failed == 0 {
      assert next == Maintained(t.(sources := arriving), Some(SignatureOf(arriving, p.backend)),
        Some(ProjectionSignature(t.projections)), Converged);
    } else {
      assert next == Maintained(t.(sources := arriving), m.lastSource, m.lastProjection, Behind);
    }
  }

  lemma QuietKeepsSignatures(
    s: Derived, b: Backend, lastSource: Option<SourceSignature>, lastProjection: Option<ProjectionSignature>)
    requires DistinctUnits(Expected(s.sources)) && !Inspect(s, b, lastSource, lastProjection).requiresCycle
    ensures lastSource == Some(SignatureOf(s.sources, b))
    ensures lastProjection.Some? ==> lastProjection.value == ProjectionSignature(s.projections)
  {}

  lemma {:induction false} RunsAreRecorded(events: seq<Event>)
    ensures Recorded(AfterAll(events))
  {
    if events != [] {
      var n := |events| - 1;
      RunsAreRecorded(events[..n]);
      var m, e := AfterAll(events[..n]), events[n];
      if e.Poll? && DistinctUnits(Expected(m.derived.sources)) { TurnRecords(m, e.pass, e.rebuilt, e.arriving); }
    }
  }

  /** After a converged run, any change of a projection makes every later inspection ask for a
      cycle, whatever else it finds and under whatever backend. */
  lemma LostProjectionIsNoticed(events: seq<Event>, found: Derived, b: Backend)
    requires AfterAll(events).convergence == Converged && DistinctUnits(Expected(found.sources))
    requires found.projections != AfterAll(events).derived.projections
    ensures var m := AfterAll(events); Inspect(found, b, m.lastSource, m.lastProjection).requiresCycle
  {
    RunsAreRecorded(events);
  }

  /** After a converged turn the next inspection is quiet if and only if it finds the sources,
      the projections and the backend of that turn, and both tables current. */
  lemma ConvergedTurnIsQuietIff(events: seq<Event>, turn: Event, found: Derived, b: Backend)
    requires turn.Poll? && DistinctUnits(Expected(AfterAll(events).derived.sources))
    requires AfterAll(events + [turn]).convergence == Converged
    requires NamedChats(AfterAll(events + [turn]).derived.sources) && NamedChats(found.sources)
    requires RowsWellNamed(found.units) && DistinctUnits(Expected(found.sources))
    ensures var m, backend := AfterAll(events + [turn]), turn.pass.backend;
      !Inspect(found, b, m.lastSource, m.lastProjection).requiresCycle <==>
        && found.sources == m.derived.sources && found.projections == m.derived.projections
        && b.version == backend.version && b.model == backend.model
        && TablesCurrent(found, Fresh(Expected(found.sources)), b)
  {
    var all := events + [turn];
    assert all[..|all| - 1] == events && all[|all| - 1] == turn;
    RunsAreRecorded(events);
    var m := AfterAll(all);
    TurnRecords(AfterAll(events), turn.pass, turn.rebuilt, turn.arriving);
    QuietIff(found, b, m.derived.sources, turn.pass.backend, Some(m.derived.projections));
  }

  /** A turn converges if and only if nothing had to be done, or its cycle committed and every
      unit was kept or embedded; only then do the signatures move. */
  lemma TurnConvergesIff(m: Maintained, p: Pass, rebuilt: Option<seq<seq<string>>>, arriving: seq<SourceText>)
    requires DistinctSources(m.derived.sources) && TablesSound(m.derived, p.embed)
    requires DistinctUnits(Expected(m.derived.sources))
    ensures var next := RunOnce(m, p, rebuilt, arriving);
      var quiet := !Inspect(m.derived, p.backend, m.lastSource, m.lastProjection).requiresCycle;
      && (next.convergence == Converged <==>
            quiet || (rebuilt.Some? && FailedUnits(m.derived.records, Expected(m.derived.sources), p) == {}))
      && (next.convergence != Converged ==> next.lastSource == m.lastSource && next.lastProjection == m.lastProjection)
      && (quiet || rebuilt.None? ==> next.derived == m.derived)
      && (!quiet && rebuilt.Some? ==> next.derived == Cycle(m.derived, p, rebuilt).0.(sources := arriving))
  {
    CycleIsSound(m.derived, p, rebuilt);
    var (t, o) := Cycle(m.derived, p, rebuilt);
    if rebuilt.Some? { CycleCounts(m.derived, p, rebuilt.value); }
    TurnOutcomes(m, p, rebuilt, arriving);
  }
}
