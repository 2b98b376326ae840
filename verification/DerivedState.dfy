/** Dirty detection and the atomic rebuild cycle (`derived_state/detector.py`,
    `derived_state/cycle.py`). */
module DerivedState {
  import opened Schema
  import opened SemanticUnits
  import opened VectorIndex

  /** The authoritative rows as one query reads them, the two tables the detector compares
      against them, and the identities of the remaining projections. */
  datatype Derived = Derived(
    sources: seq<SourceText>, units: UnitTable, records: RecordTable, projections: seq<seq<string>>)

  // ---------------------------------------------------------------- signatures

  datatype Material = Material(key: SourceKey, project: string, chat: string, digest: Digest, updatedAt: Instant)

  datatype SourceSignature = SourceSignature(chunker: string, version: string, model: string, materials: seq<Material>)

  datatype ProjectionSignature = ProjectionSignature(rows: seq<seq<string>>)

  function MaterialOf(s: SourceText): Material {
    Material(s.key, s.project, if s.chat.Some? then s.chat.value else "", Sha256(s.content), s.updatedAt)
  }

  function SignatureOf(sources: seq<SourceText>, b: Backend): SourceSignature {
    SourceSignature(CHUNKER_VERSION, b.version, b.model,
      seq(|sources|, i requires 0 <= i < |sources| => MaterialOf(sources[i])))
  }

  // ---------------------------------------------------------------- inspection

  /** The columns the detector compares. */
  predicate RowStale(row: SemanticUnit, u: SemanticUnit) {
    || row.project != u.project || row.chat != u.chat || row.source.revision != u.source.revision
    || row.digest != u.digest || row.chunker != CHUNKER_VERSION || row.updatedAt != u.updatedAt
  }

  function StaleRows(units: UnitTable, want: UnitTable): set<UnitId> {
    set id | id in units && id in want && RowStale(units[id], want[id])
  }

  function PendingUnits(units: UnitTable, want: UnitTable): nat {
    |(units.Keys - want.Keys) + (want.Keys - units.Keys)| + |StaleRows(units, want)|
  }

  predicate RecordPending(records: RecordTable, u: SemanticUnit, b: Backend) {
    u.id !in records || !Good(records[u.id], u, b)
  }

  function PendingRecords(records: RecordTable, want: UnitTable, b: Backend): set<UnitId> {
    set id | id in want && RecordPending(records, want[id], b)
  }

  function PendingEmbeddings(records: RecordTable, want: UnitTable, b: Backend): nat {
    |records.Keys - want.Keys| + |PendingRecords(records, want, b)|
  }

  /** Units whose record says that embedding them failed. */
  function FailedRecords(records: RecordTable, want: UnitTable): set<UnitId> {
    set id | id in want && id in records && records[id].state == Failed
  }

  /** The number of rows of each projection table. */
  function RowCounts(projections: seq<seq<string>>): seq<nat> {
    seq(|projections|, i requires 0 <= i < |projections| => |projections[i]|)
  }

  datatype Counts = Counts(sources: nat, units: nat, failedEmbeddings: nat, projections: seq<nat>)

  datatype Inspection = Inspection(
    sourceSignature: SourceSignature, projectionSignature: ProjectionSignature,
    pendingUnits: nat, pendingEmbeddings: nat, counts: Counts, requiresCycle: bool)

  predicate CycleRequired(
    source: SourceSignature, projection: ProjectionSignature, pending: nat,
    lastSource: Option<SourceSignature>, lastProjection: Option<ProjectionSignature>)
  {
    || lastSource.None? || source != lastSource.value || pending > 0
    || (lastProjection.Some? && projection != lastProjection.value)
  }

  function InspectAgainst(
    s: Derived, want: UnitTable, b: Backend,
    lastSource: Option<SourceSignature>, lastProjection: Option<ProjectionSignature>): Inspection
  {
    var pendingUnits := PendingUnits(s.units, want);
    var pendingEmbeddings := PendingEmbeddings(s.records, want, b);
    var source, projection := SignatureOf(s.sources, b), ProjectionSignature(s.projections);
    Inspection(source, projection, pendingUnits, pendingEmbeddings,
      Counts(|s.sources|, |Expected(s.sources)|, |FailedRecords(s.records, want)|, RowCounts(s.projections)),
      CycleRequired(source, projection, pendingUnits + pendingEmbeddings, lastSource, lastProjection))
  }

  function Inspect(
    s: Derived, b: Backend, lastSource: Option<SourceSignature>,
    lastProjection: Option<ProjectionSignature>): Inspection
    requires DistinctUnits(Expected(s.sources))
  {
    InspectAgainst(s, Fresh(Expected(s.sources)), b, lastSource, lastProjection)
  }

  // ---------------------------------------------------------------- the cycle

  /** Deleting a unit deletes its record. */
  function Surviving(s: Derived, want: UnitTable): RecordTable {
    s.records - (s.units.Keys - want.Keys)
  }

  datatype Outcome = Committed(tally: Tally) | RolledBack

  /** One transaction: units, vectors, then the other projections, which end at `rebuilt` or
      raise. */
  function Cycle(s: Derived, p: Pass, rebuilt: Option<seq<seq<string>>>): (Derived, Outcome)
    requires DistinctUnits(Expected(s.sources))
  {
    var units := Expected(s.sources);
    var want := Fresh(units);
    var records := Surviving(s, want);
    if Aborts(records, want, p.backend) || rebuilt.None? then (s, RolledBack)
    else
      (s.(units := Reconciled(s.units, want), records := Reindexed(records, want, p), projections := rebuilt.value),
       Committed(TallyOf(records, units, p).(invalidated := |records.Keys - want.Keys|)))
  }

  /** What every cycle keeps of the two tables; `embed` is how model versions embed. */
  ghost predicate TablesSound(s: Derived, embed: Embedder) {
    RowsWellNamed(s.units) && OneRowPerSlot(s.units) && AllFaithful(s.records, embed) && s.records.Keys <= s.units.Keys
  }

  lemma SurvivingKeeps(s: Derived, want: UnitTable, embed: Embedder)
    requires AllFaithful(s.records, embed) && s.records.Keys <= s.units.Keys
    ensures AllFaithful(Surviving(s, want), embed) && Surviving(s, want).Keys <= want.Keys
  {
    forall id | id in Surviving(s, want) ensures Faithful(id, Surviving(s, want)[id], embed) {
      assert Faithful(id, s.records[id], embed);
    }
  }

  /** A cycle keeps the tables sound and never stops on a stored vector; no record is ever
      left for the vector index to invalidate, because deleting a unit already deleted it. */
  lemma CycleIsSound(s: Derived, p: Pass, rebuilt: Option<seq<seq<string>>>)
    requires DistinctSources(s.sources) && TablesSound(s, p.embed) && DistinctUnits(Expected(s.sources))
    ensures TablesSound(Cycle(s, p, rebuilt).0, p.embed)
    ensures Cycle(s, p, rebuilt).1.Committed? <==> rebuilt.Some?
    ensures Cycle(s, p, rebuilt).1.Committed? ==> Cycle(s, p, rebuilt).1.tally.invalidated == 0
  {
    var want := Fresh(Expected(s.sources));
    var records := Surviving(s, want);
    FreshIsWanted(s.sources);
    FreshHasOneRowPerSlot(s.sources);
    SurvivingKeeps(s, want, p.embed);
    ReindexedIsFaithful(records, want, p);
    ReconciledIsWellNamed(s.units, want);
    ReconciledHasOneRowPerSlot(s.units, want);
    assert records.Keys - want.Keys == {};
  }

  // ---------------------------------------------------------------- quiet means exact

  /** The row equals the freshly built unit in everything but its offsets. */
  predicate SameUpToSpan(row: SemanticUnit, u: SemanticUnit) {
    row == u.(start := row.start, end := row.end)
  }

  lemma EmptyUnion<T>(a: set<T>, b: set<T>)
    requires |a + b| == 0
    ensures a == {} && b == {}
  {
    assert a + b == {};
    assert a <= a + b && b <= a + b;
  }

  lemma SameKeys<T>(a: set<T>, b: set<T>)
    requires |(a - b) + (b - a)| == 0
    ensures a == b
  {
    EmptyUnion(a - b, b - a);
  }

  lemma QuietAgainst(
    s: Derived, want: UnitTable, b: Backend, lastSource: Option<SourceSignature>,
    lastProjection: Option<ProjectionSignature>)
    requires !InspectAgainst(s, want, b, lastSource, lastProjection).requiresCycle
    ensures s.units.Keys == want.Keys
    ensures forall id :: id in want ==> !RowStale(s.units[id], want[id]) && !RecordPending(s.records, want[id], b)
    ensures forall id :: id in s.records ==> id in want
  {
    SameKeys(s.units.Keys, want.Keys);
    assert StaleRows(s.units, want) == {} && PendingRecords(s.records, want, b) == {}
      && s.records.Keys - want.Keys == {};
    forall id | id in want ensures !RowStale(s.units[id], want[id]) && !RecordPending(s.records, want[id], b) {
      assert id !in StaleRows(s.units, want) && id !in PendingRecords(s.records, want, b);
    }
    forall id | id in s.records ensures id in want {
      assert id !in s.records.Keys - want.Keys;
    }
  }

  lemma QuietAgainstIsExact(
    s: Derived, want: UnitTable, b: Backend, embed: Embedder,
    lastSource: Option<SourceSignature>, lastProjection: Option<ProjectionSignature>)
    requires RowsWellNamed(s.units) && AllFaithful(s.records, embed) && Wanted(want)
    requires !InspectAgainst(s, want, b, lastSource, lastProjection).requiresCycle
    ensures s.units.Keys == want.Keys == s.records.Keys && forall id :: id in want ==> ExactAt(s, b, embed, want, id)
  {
    QuietAgainst(s, want, b, lastSource, lastProjection);
    QuietRows(s, want, b, embed);
  }

  lemma QuietRows(s: Derived, want: UnitTable, b: Backend, embed: Embedder)
    requires RowsWellNamed(s.units) && AllFaithful(s.records, embed) && Wanted(want) && s.units.Keys == want.Keys
    requires forall id :: id in want ==> !RowStale(s.units[id], want[id]) && !RecordPending(s.records, want[id], b)
    requires forall id :: id in s.records ==> id in want
    ensures want.Keys == s.records.Keys && forall id :: id in want ==> ExactAt(s, b, embed, want, id)
  {
    forall id | id in want ensures ExactAt(s, b, embed, want, id) {
      QuietTableRow(s, b, embed, want, id);
    }
    forall id ensures id in s.records <==> id in want {
      assert id in want ==> ExactAt(s, b, embed, want, id);
    }
  }

  /** When the detector asks for no cycle, the stored units are the units built afresh, up to
      offsets, there is one record for each and its vector is the encoding of embedding the
      unit's content.  The recorded signatures play no part, so this holds whatever arrived
      between a cycle's commit and its inspection. */
  lemma QuietIsExact(
    s: Derived, b: Backend, embed: Embedder,
    lastSource: Option<SourceSignature>, lastProjection: Option<ProjectionSignature>)
    requires RowsWellNamed(s.units) && AllFaithful(s.records, embed) && DistinctUnits(Expected(s.sources))
    requires !Inspect(s, b, lastSource, lastProjection).requiresCycle
    ensures s.units.Keys == Fresh(Expected(s.sources)).Keys == s.records.Keys
    ensures forall id :: id in s.units ==> ExactAt(s, b, embed, Fresh(Expected(s.sources)), id)
  {
    FreshIsWanted(s.sources);
    QuietAgainstIsExact(s, Fresh(Expected(s.sources)), b, embed, lastSource, lastProjection);
  }

  /** The row of one unit and the vector stored for it. */
  predicate ExactAt(s: Derived, b: Backend, embed: Embedder, want: UnitTable, id: UnitId) {
    && id in want && id in s.units && id in s.records
    && SameUpToSpan(s.units[id], want[id])
    && s.records[id].vector == Some(Packed(embed(b.version, b.model, s.units[id].content)))
  }

  lemma QuietRow(s: Derived, b: Backend, embed: Embedder, want: UnitTable, id: UnitId)
    requires id in want && id in s.units && !RowStale(s.units[id], want[id]) && !RecordPending(s.records, want[id], b)
    requires want[id].id == id && WellNamed(want[id]) && want[id].chunker == CHUNKER_VERSION && s.units[id].id == id
      && WellNamed(s.units[id])
    requires id in s.records ==> Faithful(id, s.records[id], embed)
    ensures ExactAt(s, b, embed, want, id)
  {
    GoodMeansEmbedded(id, s.records[id], want[id], b, embed);
  }

  lemma QuietTableRow(s: Derived, b: Backend, embed: Embedder, want: UnitTable, id: UnitId)
    requires RowsWellNamed(s.units) && AllFaithful(s.records, embed) && Wanted(want)
    requires id in want && id in s.units && !RowStale(s.units[id], want[id]) && !RecordPending(s.records, want[id], b)
    ensures ExactAt(s, b, embed, want, id)
  {
    assert WellNamed(want[id]) && WellNamed(s.units[id]);
    assert id in s.records ==> Faithful(id, s.records[id], embed);
    QuietRow(s, b, embed, want, id);
  }

  // ---------------------------------------------------------------- one cycle is enough

  lemma NothingPendingAfterReconcile(table: UnitTable, want: UnitTable)
    requires RowsWellNamed(table) && Wanted(want)
    ensures PendingUnits(Reconciled(table, want), want) == 0
  {
    var t := Reconciled(table, want);
    assert (t.Keys - want.Keys) + (want.Keys - t.Keys) == {};
    forall id | id in want ensures !RowStale(t[id], want[id]) {
      UpsertedIsWellNamed(table, want[id]);
    }
    assert StaleRows(t, want) == {};
  }

  lemma RecordsPendingIff(records: RecordTable, want: UnitTable, p: Pass)
    requires AllFaithful(records, p.embed) && RowsWellNamed(want)
    ensures PendingEmbeddings(Reindexed(records, want, p), want, p.backend) == 0 <==>
            forall id :: id in want ==> Served(records, want[id], p)
  {
    var t, b := Reindexed(records, want, p), p.backend;
    assert t.Keys - want.Keys == {};
    var pending := PendingRecords(t, want, b);
    forall id | id in want ensures id in pending <==> !Served(records, want[id], p) {
      assert WellNamed(want[id]);
      GoodAfterPassIff(records, want[id], p);
    }
    if |pending| != 0 { var id :| id in pending; }
  }

  lemma ServedEverywhere(records: RecordTable, units: seq<SemanticUnit>, p: Pass)
    requires DistinctUnits(units)
    ensures TallyOf(records, units, p).failed == 0 <==> forall id :: id in Fresh(units) ==>
      Served(records, Fresh(units)[id], p)
  {
    NoFailureIff(records, units, p);
    FreshHolds(units);
  }

  /** After a committed cycle over unchanged sources, inspecting with the signatures it
      records asks for no further cycle if and only if no embedding failed. */
  lemma OneCycleIsEnoughIff(s: Derived, p: Pass, rebuilt: Option<seq<seq<string>>>)
    requires DistinctSources(s.sources) && TablesSound(s, p.embed) && DistinctUnits(Expected(s.sources))
      && rebuilt.Some?
    ensures var (t, o) := Cycle(s, p, rebuilt);
      && o.Committed? && t.sources == s.sources
      && (!Inspect(t, p.backend, Some(SignatureOf(t.sources, p.backend)),
         Some(ProjectionSignature(t.projections))).requiresCycle
          <==> o.tally.failed == 0)
  {
    var want := Fresh(Expected(s.sources));
    CycleIsSound(s, p, rebuilt);
    FreshIsWanted(s.sources);
    SurvivingKeeps(s, want, p.embed);
    NothingPendingAfterReconcile(s.units, want);
    RecordsPendingIff(Surviving(s, want), want, p);
    ServedEverywhere(Surviving(s, want), Expected(s.sources), p);
  }

  // ---------------------------------------------------------------- what the signature adds

  predicate NamedChats(sources: seq<SourceText>) {
    forall i :: 0 <= i < |sources| ==> sources[i].chat != Some("")
  }

  /** Equal signatures mean equal sources. */
  lemma SignatureIsInjective(a: seq<SourceText>, b: seq<SourceText>, backend: Backend)
    requires NamedChats(a) && NamedChats(b) && SignatureOf(a, backend) == SignatureOf(b, backend)
    ensures a == b
  {
    var x, y := SignatureOf(a, backend).materials, SignatureOf(b, backend).materials;
    assert |a| == |x| == |y| == |b|;
    forall i | 0 <= i < |a| ensures a[i] == b[i] {
      assert x[i] == MaterialOf(a[i]) && y[i] == MaterialOf(b[i]);
    }
  }

  /** Quiet against a signature taken over the sources the cycle read means that no source
      has changed since, in any column. */
  lemma QuietMeansUnchangedSources(
    s: Derived, b: Backend, read: seq<SourceText>, lastProjection: Option<ProjectionSignature>)
    requires DistinctUnits(Expected(s.sources)) && NamedChats(s.sources) && NamedChats(read)
    requires !Inspect(s, b, Some(SignatureOf(read, b)), lastProjection).requiresCycle
    ensures s.sources == read
  {
    SignatureIsInjective(s.sources, read, b);
  }

  /** Two tables built afresh have the same units, in everything but their offsets. */
  predicate SameUnits(a: UnitTable, b: UnitTable) {
    a.Keys == b.Keys && forall id :: id in a && id in b ==> SameUpToSpan(a[id], b[id])
  }

  lemma ReconciledRowIsStaleIff(table: UnitTable, want: UnitTable, arrived: UnitTable, id: UnitId)
    requires RowsWellNamed(table) && Wanted(want) && Wanted(arrived) && id in want && id in arrived
    ensures RowStale(Reconciled(table, want)[id], arrived[id]) <==> !SameUpToSpan(want[id], arrived[id])
  {
    UpsertedIsWellNamed(table, want[id]);
    assert WellNamed(want[id]) && WellNamed(arrived[id]);
  }

  lemma ReconciledPendingIff(table: UnitTable, want: UnitTable, arrived: UnitTable)
    requires RowsWellNamed(table) && Wanted(want) && Wanted(arrived)
    ensures PendingUnits(Reconciled(table, want), arrived) == 0 <==> SameUnits(want, arrived)
  {
    var t := Reconciled(table, want);
    assert t.Keys == want.Keys;
    forall id | id in want && id in arrived ensures id in StaleRows(t, arrived) <==>
      !SameUpToSpan(want[id], arrived[id]) {
      ReconciledRowIsStaleIff(table, want, arrived, id);
    }
    if PendingUnits(t, arrived) == 0 { SameKeys(t.Keys, arrived.Keys); }
    if SameUnits(want, arrived) { assert StaleRows(t, arrived) == {}; }
  }

  lemma SameRecordsPending(records: RecordTable, want: UnitTable, arrived: UnitTable, b: Backend)
    requires RowsWellNamed(want) && RowsWellNamed(arrived) && want.Keys == arrived.Keys
    ensures PendingEmbeddings(records, want, b) == PendingEmbeddings(records, arrived, b)
  {
    forall id | id in want ensures RecordPending(records, want[id], b) == RecordPending(records, arrived[id], b) {
      assert WellNamed(want[id]) && WellNamed(arrived[id]);
    }
    assert PendingRecords(records, want, b) == PendingRecords(records, arrived, b);
  }

  /** Whatever arrives between a cycle's commit and its inspection, the inspection with the
      signatures it records is quiet if and only if no embedding failed and the arrived
      sources build the units of the sources the cycle read, offsets aside.  An arrival that
      does so goes unseen. */
  lemma ArrivalIsUnseenIff(s: Derived, p: Pass, rebuilt: Option<seq<seq<string>>>, arrived: seq<SourceText>)
    requires DistinctSources(s.sources) && TablesSound(s, p.embed) && rebuilt.Some?
    requires DistinctUnits(Expected(s.sources)) && DistinctUnits(Expected(arrived))
    ensures var (t, o) := Cycle(s, p, rebuilt);
      && o.Committed?
      && (!Inspect(t.(sources := arrived), p.backend,
                   Some(SignatureOf(arrived, p.backend)), Some(ProjectionSignature(t.projections))).requiresCycle
          <==> o.tally.failed == 0 && SameUnits(Fresh(Expected(s.sources)), Fresh(Expected(arrived))))
  {
    var want, records := Fresh(Expected(s.sources)), Surviving(s, Fresh(Expected(s.sources)));
    CycleIsSound(s, p, rebuilt);
    FreshIsWanted(s.sources);
    FreshIsWanted(arrived);
    SurvivingKeeps(s, want, p.embed);
    ReconciledPendingIff(s.units, want, Fresh(Expected(arrived)));
    RecordsPendingIff(records, want, p);
    ServedEverywhere(records, Expected(s.sources), p);
    if want.Keys == Fresh(Expected(arrived)).Keys {
      SameRecordsPending(Reindexed(records, want, p), want, Fresh(Expected(arrived)), p.backend);
    }
  }

  lemma NoOutageNoFailure(records: RecordTable, units: seq<SemanticUnit>, p: Pass)
    requires forall content :: !Fails(p, content)
    ensures TallyOf(records, units, p).failed == 0
  {
    NoFailureIff(records, units, p);
  }

  lemma SameExpectedIsUnseen(s: Derived, p: Pass, rebuilt: seq<seq<string>>, arrived: seq<SourceText>)
    requires DistinctSources(s.sources) && TablesSound(s, p.embed) && DistinctUnits(Expected(s.sources))
    requires Expected(arrived) == Expected(s.sources)
    requires TallyOf(Surviving(s, Fresh(Expected(s.sources))), Expected(s.sources), p).failed == 0
    ensures !Inspect(Cycle(s, p, Some(rebuilt)).0.(sources := arrived), p.backend,
                     Some(SignatureOf(arrived, p.backend)), Some(ProjectionSignature(rebuilt))).requiresCycle
  {
    var (t, o) := Cycle(s, p, Some(rebuilt));
    ArrivalIsUnseenIff(s, p, Some(rebuilt), arrived);
    assert o.tally.failed == 0 && t.projections == rebuilt;
    assert SameUnits(Fresh(Expected(s.sources)), Fresh(Expected(arrived)));
  }

  /** A document emptied just after the cycle's commit: revision 1 is archived unchanged and
      revision 2 has no text, so the units are the same. */
  function BeforeEmptying(id: string, text: string): seq<SourceText> {
    [SourceText(SourceKey(ElectedDocumentText, id, 1), "p", None, text, 0)]
  }

  function AfterEmptying(id: string, text: string): seq<SourceText> {
    BeforeEmptying(id, text) + [SourceText(SourceKey(ElectedDocumentText, id, 2), "p", None, "", 1)]
  }

  /** It happens: the next inspection is quiet although the sources changed and the projections
      were computed before the change. */
  lemma ArrivalBeforeInspectionIsUnseen(id: string, text: string, p: Pass, rebuilt: seq<seq<string>>)
    requires forall content :: !Fails(p, content)
    ensures
      var read, arrived := BeforeEmptying(id, text), AfterEmptying(id, text);
      && DistinctUnits(Expected(read)) && DistinctUnits(Expected(arrived)) && read != arrived
      && var committed := Cycle(Derived(read, map[], map[], []), p, Some(rebuilt)).0;
         !Inspect(committed.(sources := arrived), p.backend,
                  Some(SignatureOf(arrived, p.backend)), Some(ProjectionSignature(rebuilt))).requiresCycle
  {
    var read, arrived := BeforeEmptying(id, text), AfterEmptying(id, text);
    EmptyingKeepsUnits(id, text);
    ExpectedAreDistinct(read);
    var s := Derived(read, map[], map[], []);
    NoOutageNoFailure(Surviving(s, Fresh(Expected(read))), Expected(read), p);
    SameExpectedIsUnseen(s, p, rebuilt, arrived);
  }

  lemma EmptyingKeepsUnits(id: string, text: string)
    ensures Expected(AfterEmptying(id, text)) == Expected(BeforeEmptying(id, text))
  {
    var read, arrived := BeforeEmptying(id, text), AfterEmptying(id, text);
    assert arrived[..|arrived| - 1] == read;
    assert UnitsOf(arrived[1]) == [];
  }
}
