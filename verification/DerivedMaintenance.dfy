/** The writers of the derived tables and the background maintainer
    (`semantic/units.py`, `semantic/vector_index.py`, `derived_state/detector.py`,
    `derived_state/cycle.py`, `derived_state/maintenance.py`). */
module DerivedMaintenance {
  import opened Schema
  import opened SemanticUnits
  import opened VectorIndex
  import opened DerivedState

  class DerivedDatabase {
    var sources: seq<SourceText>
    var units: UnitTable
    var records: RecordTable
    var projections: seq<seq<string>>

    constructor ()
      ensures View() == Derived([], map[], map[], [])
    {
      sources, units, records, projections := [], map[], map[], [];
    }

    function View(): Derived
      reads this
    {
      Derived(sources, units, records, projections)
    }
  }

  // ---------------------------------------------------------------- units

  method ExpectedUnits(sources: seq<SourceText>) returns (expected: seq<SemanticUnit>)
    ensures expected == Expected(sources)
  {
    expected := [];
    for i := 0 to |sources|
      invariant expected == Expected(sources[..i])
    {
      var built := BuildUnits(sources[i]);
      expected := expected + built;
      assert sources[..i + 1][..i] == sources[..i];
    }
    assert sources[..|sources|] == sources;
  }

  /** Deletes the stale rows, and with each its embedding record. */
  method DeleteStale(db: DerivedDatabase, expected: set<UnitId>)
    modifies db`units, db`records
    ensures forall id :: id in db.units <==> id in old(db.units) && id in expected
    ensures forall id :: id in db.units ==> db.units[id] == old(db.units)[id]
    ensures forall id :: id in db.records <==> id in old(db.records) && (id in old(db.units) ==> id in expected)
    ensures forall id :: id in db.records ==> db.records[id] == old(db.records)[id]
  {
    var stale := db.units.Keys - expected;
    while stale != {}
      invariant forall id :: id in stale ==> id in old(db.units) && id !in expected
      invariant forall id :: id in db.units <==> id in old(db.units) && (id in expected || id in stale)
      invariant forall id :: id in db.units ==> db.units[id] == old(db.units)[id]
      invariant forall id :: id in db.records <==>
                id in old(db.records) && (id in old(db.units) ==> id in expected || id in stale)
      invariant forall id :: id in db.records ==> db.records[id] == old(db.records)[id]
      decreases stale
    {
      var id :| id in stale;
      db.units, db.records := db.units - {id}, db.records - {id};
      stale := stale - {id};
    }
  }

  function UpsertAll(table: UnitTable, units: seq<SemanticUnit>): UnitTable {
    if units == [] then table
    else
      var before := UpsertAll(table, units[..|units| - 1]);
      var u := units[|units| - 1];
      before[u.id := Upserted(before, u)]
  }

  lemma {:induction false} UpsertAllElsewhere(table: UnitTable, units: seq<SemanticUnit>, id: UnitId)
    requires forall u :: u in units ==> u.id != id
    ensures id in UpsertAll(table, units) <==> id in table
    ensures id in table ==> UpsertAll(table, units)[id] == table[id]
  {
    if units != [] {
      var front, last := units[..|units| - 1], units[|units| - 1];
      assert last in units && forall u :: u in front ==> u in units;
      UpsertAllElsewhere(table, front, id);
    }
  }

  lemma {:induction false} UpsertAllRow(table: UnitTable, units: seq<SemanticUnit>, i: nat)
    requires DistinctUnits(units) && i < |units|
    ensures var t := UpsertAll(table, units); units[i].id in t && t[units[i].id] == Upserted(table, units[i])
  {
    var front, last := units[..|units| - 1], units[|units| - 1];
    if i < |front| {
      UpsertAllRow(table, front, i);
    } else {
      assert forall u :: u in front ==> u.id != last.id;
      UpsertAllElsewhere(table, front, last.id);
    }
  }

  /** Units have distinct ids, so each meets the row that was there at the start. */
  lemma UpsertAllRows(table: UnitTable, units: seq<SemanticUnit>)
    requires DistinctUnits(units)
    ensures forall u :: u in units ==>
      u.id in UpsertAll(table, units) && UpsertAll(table, units)[u.id] == Upserted(table, u)
    ensures forall id :: (forall u :: u in units ==> u.id != id) ==> (id in UpsertAll(table, units) <==> id in table)
  {
    forall u | u in units ensures u.id in UpsertAll(table, units)
      && UpsertAll(table, units)[u.id] == Upserted(table, u) {
      var i :| 0 <= i < |units| && units[i] == u;
      UpsertAllRow(table, units, i);
    }
    forall id | forall u :: u in units ==> u.id != id ensures id in UpsertAll(table, units) <==> id in table {
      UpsertAllElsewhere(table, units, id);
    }
  }

  lemma UpsertAllIsReconciled(table: UnitTable, survivors: UnitTable, units: seq<SemanticUnit>, want: UnitTable)
    requires DistinctUnits(units) && Holds(want, units)
    requires forall id :: id in survivors <==> id in table && id in want
    requires forall id :: id in survivors ==> survivors[id] == table[id]
    ensures UpsertAll(survivors, units) == Reconciled(table, want)
  {
    var t := UpsertAll(survivors, units);
    UpsertAllRows(survivors, units);
    forall id | id !in want ensures id !in t {
      assert forall u :: u in units ==> u.id != id;
    }
    forall id | id in want ensures id in t && t[id] == Upserted(table, want[id]) {
      assert want[id] in units;
    }
    assert t.Keys == want.Keys;
  }

  method UpsertUnits(db: DerivedDatabase, units: seq<SemanticUnit>)
    modifies db`units
    ensures db.units == UpsertAll(old(db.units), units)
  {
    for i := 0 to |units|
      invariant db.units == UpsertAll(old(db.units), units[..i])
    {
      var u := units[i];
      assert units[..i + 1][..i] == units[..i];
      if u.id in db.units {
        db.units := db.units[u.id := db.units[u.id].(project := u.project, chat := u.chat, updatedAt := u.updatedAt)];
      } else {
        db.units := db.units[u.id := u];
      }
    }
    assert units[..|units|] == units;
  }

  lemma ReconciledFromSurvivors(s: Derived, survivors: UnitTable, records: RecordTable, expected: seq<SemanticUnit>)
    requires DistinctUnits(expected)
    requires forall id :: id in survivors <==> id in s.units && id in Ids(expected)
    requires forall id :: id in survivors ==> survivors[id] == s.units[id]
    requires forall id :: id in records <==> id in s.records && (id in s.units ==> id in Ids(expected))
    requires forall id :: id in records ==> records[id] == s.records[id]
    ensures UpsertAll(survivors, expected) == Reconciled(s.units, Fresh(expected))
    ensures records == Surviving(s, Fresh(expected))
  {
    FreshHolds(expected);
    HeldIds(Fresh(expected), expected);
    UpsertAllIsReconciled(s.units, survivors, expected, Fresh(expected));
  }

  /** `reconcile_semantic_units`. */
  method ReconcileSemanticUnits(db: DerivedDatabase) returns (expected: seq<SemanticUnit>)
    requires DistinctUnits(Expected(db.sources))
    modifies db`units, db`records
    ensures expected == Expected(db.sources)
    ensures db.units == Reconciled(old(db.units), Fresh(expected))
    ensures db.records == Surviving(old(db.View()), Fresh(expected))
  {
    expected := ExpectedUnits(db.sources);
    DeleteStale(db, Ids(expected));
    ReconciledFromSurvivors(old(db.View()), db.units, db.records, expected);
    UpsertUnits(db, expected);
  }

  // ---------------------------------------------------------------- vectors

  method DropInactive(db: DerivedDatabase, active: set<UnitId>) returns (invalidated: nat)
    modifies db`records
    ensures forall id :: id in db.records <==> id in old(db.records) && id in active
    ensures forall id :: id in db.records ==> db.records[id] == old(db.records)[id]
    ensures invalidated == |old(db.records).Keys - active|
  {
    var inactive := db.records.Keys - active;
    ghost var total := inactive;
    invalidated := 0;
    while inactive != {}
      invariant forall id :: id in inactive ==> id in old(db.records) && id !in active
      invariant forall id :: id in db.records <==> id in old(db.records) && (id in active || id in inactive)
      invariant forall id :: id in db.records ==> db.records[id] == old(db.records)[id]
      invariant invalidated + |inactive| == |total|
      decreases inactive
    {
      var id :| id in inactive;
      db.records := db.records - {id};
      inactive := inactive - {id};
      invalidated := invalidated + 1;
    }
  }

  /** One unit of `SQLiteVectorIndex.index`. */
  method IndexUnit(db: DerivedDatabase, u: SemanticUnit, p: Pass, tally: Tally) returns (ok: bool, next: Tally)
    modifies db`records
    ensures ok == !(Kept(old(db.records), u, p.backend) && !Decodes(old(db.records)[u.id]))
    ensures ok ==> db.records == old(db.records)[u.id := NextRecord(old(db.records), u, p)]
    ensures ok ==> next == (if Kept(old(db.records), u, p.backend) then tally.(same := tally.same + 1)
                            else if Fails(p, u.content) then tally.(failed := tally.failed + 1)
                            else tally.(indexed := tally.indexed + 1))
  {
    var b := p.backend;
    var fingerprint := FingerprintOf(b, u.digest);
    if u.id in db.records && UpToDate(db.records[u.id], fingerprint) {
      ok := Decodes(db.records[u.id]);
      next := tally.(same := tally.same + 1);
      assert db.records == db.records[u.id := db.records[u.id]];
      return;
    }
    ok := true;
    var error := p.outage(u.content);
    var vector := Embedding(p, u.content);
    if error.None? && |vector| != b.dimension { error := Some("ValueError"); }
    if error.Some? {
      db.records := db.records[u.id := Record(Failed, b.version, b.model, b.dimension, fingerprint, None, error,
        p.now)];
      next := tally.(failed := tally.failed + 1);
    } else {
      db.records := db.records[u.id := Record(Indexed, b.version, b.model, b.dimension, fingerprint,
        Some(Packed(vector)), None, p.now)];
      next := tally.(indexed := tally.indexed + 1);
    }
  }

  function ReindexAll(records: RecordTable, units: seq<SemanticUnit>, p: Pass): RecordTable {
    if units == [] then records
    else
      var before := ReindexAll(records, units[..|units| - 1], p);
      var u := units[|units| - 1];
      before[u.id := NextRecord(before, u, p)]
  }

  predicate Undecodable(records: RecordTable, u: SemanticUnit, b: Backend) {
    Kept(records, u, b) && !Decodes(records[u.id])
  }

  lemma {:induction false} ReindexAllElsewhere(records: RecordTable, units: seq<SemanticUnit>, p: Pass, id: UnitId)
    requires forall u :: u in units ==> u.id != id
    ensures id in ReindexAll(records, units, p) <==> id in records
    ensures id in records ==> ReindexAll(records, units, p)[id] == records[id]
  {
    if units != [] {
      var front, last := units[..|units| - 1], units[|units| - 1];
      assert last in units && forall u :: u in front ==> u in units;
      ReindexAllElsewhere(records, front, p, id);
    }
  }

  lemma {:induction false} ReindexAllRow(records: RecordTable, units: seq<SemanticUnit>, p: Pass, i: nat)
    requires DistinctUnits(units) && i < |units|
    ensures var t := ReindexAll(records, units, p);
      units[i].id in t && t[units[i].id] == NextRecord(records, units[i], p)
  {
    var front, last := units[..|units| - 1], units[|units| - 1];
    if i < |front| {
      ReindexAllRow(records, front, p, i);
    } else {
      assert forall u :: u in front ==> u.id != last.id;
      ReindexAllElsewhere(records, front, p, last.id);
    }
  }

  /** Units have distinct ids, so each is indexed against the record it had at the start. */
  lemma ReindexAllRows(records: RecordTable, units: seq<SemanticUnit>, p: Pass)
    requires DistinctUnits(units)
    ensures forall u :: u in units ==>
      u.id in ReindexAll(records, units, p) && ReindexAll(records, units, p)[u.id] == NextRecord(records, u, p)
    ensures forall id :: (forall u :: u in units ==> u.id != id) ==>
              (id in ReindexAll(records, units, p) <==> id in records)
              && (id in records ==> ReindexAll(records, units, p)[id] == records[id])
  {
    forall u | u in units
      ensures u.id in ReindexAll(records, units, p) && ReindexAll(records, units, p)[u.id] == NextRecord(records, u, p)
    {
      var i :| 0 <= i < |units| && units[i] == u;
      ReindexAllRow(records, units, p, i);
    }
    forall id | forall u :: u in units ==> u.id != id
      ensures id in ReindexAll(records, units, p) <==> id in records
      ensures id in records ==> ReindexAll(records, units, p)[id] == records[id]
    {
      ReindexAllElsewhere(records, units, p, id);
    }
  }

  lemma NextUnitUntouched(records: RecordTable, units: seq<SemanticUnit>, i: nat, p: Pass)
    requires DistinctUnits(units) && i < |units|
    ensures var before := ReindexAll(records, units[..i], p); var u := units[i];
      && (u.id in before <==> u.id in records) && (u.id in records ==> before[u.id] == records[u.id])
      && ReindexAll(records, units[..i + 1], p) == before[u.id := NextRecord(before, u, p)]
  {
    ReindexAllRows(records, units[..i], p);
    assert units[..i + 1][..i] == units[..i];
    assert forall u :: u in units[..i] ==> u.id != units[i].id;
  }

  lemma TallyStep(records: RecordTable, units: seq<SemanticUnit>, i: nat, p: Pass)
    requires i < |units|
    ensures var t := TallyOf(records, units[..i], p); var u := units[i];
      TallyOf(records, units[..i + 1], p) ==
        (if Kept(records, u, p.backend) then t.(same := t.same + 1)
         else if Fails(p, u.content) then t.(failed := t.failed + 1)
         else t.(indexed := t.indexed + 1))
  {
    assert units[..i + 1][..i] == units[..i];
  }

  lemma ReindexAllIsReindexed(
    records: RecordTable, active: RecordTable, units: seq<SemanticUnit>, want: UnitTable, p: Pass)
    requires DistinctUnits(units) && Holds(want, units)
    requires forall id :: id in active <==> id in records && id in want
    requires forall id :: id in active ==> active[id] == records[id]
    ensures ReindexAll(active, units, p) == Reindexed(records, want, p)
  {
    var t := ReindexAll(active, units, p);
    ReindexAllRows(active, units, p);
    forall id | id !in want ensures id !in t {
      assert forall u :: u in units ==> u.id != id;
    }
    forall id | id in want ensures id in t && t[id] == NextRecord(records, want[id], p) {
      assert want[id] in units;
    }
    assert t.Keys == want.Keys;
  }

  lemma AbortsIff(records: RecordTable, units: seq<SemanticUnit>, want: UnitTable, b: Backend)
    requires Holds(want, units)
    ensures Aborts(records, want, b) <==> exists i :: 0 <= i < |units| && Undecodable(records, units[i], b)
  {
    if Aborts(records, want, b) {
      var id :| id in want && Kept(records, want[id], b) && !Decodes(records[want[id].id]);
      var i :| 0 <= i < |units| && units[i] == want[id];
      assert Undecodable(records, units[i], b);
    }
    if i :| 0 <= i < |units| && Undecodable(records, units[i], b) {
      assert units[i] in units;
    }
  }

  /** The records of units outside the table play no part in the tally. */
  lemma {:induction false} TallyOfActive(records: RecordTable, active: RecordTable, units: seq<SemanticUnit>, p: Pass)
    requires forall u :: u in units ==>
             (u.id in active <==> u.id in records) && (u.id in active ==> active[u.id] == records[u.id])
    ensures TallyOf(active, units, p) == TallyOf(records, units, p)
  {
    if units != [] {
      var front, last := units[..|units| - 1], units[|units| - 1];
      assert last in units && forall u :: u in front ==> u in units;
      TallyOfActive(records, active, front, p);
    }
  }

  method IndexEach(db: DerivedDatabase, units: seq<SemanticUnit>, p: Pass) returns (ok: bool, tally: Tally)
    requires DistinctUnits(units)
    modifies db`records
    ensures ok <==> forall i :: 0 <= i < |units| ==> !Undecodable(old(db.records), units[i], p.backend)
    ensures ok ==> db.records == ReindexAll(old(db.records), units, p) && tally == TallyOf(old(db.records), units, p)
  {
    ghost var before := db.records;
    tally := Tally(0, 0, 0, 0);
    for i := 0 to |units|
      invariant tally == TallyOf(before, units[..i], p)
      invariant db.records == ReindexAll(before, units[..i], p)
      invariant forall j :: 0 <= j < i ==> !Undecodable(before, units[j], p.backend)
    {
      NextUnitUntouched(before, units, i, p);
      TallyStep(before, units, i, p);
      ok, tally := IndexUnit(db, units[i], p, tally);
      if !ok {
        assert Undecodable(before, units[i], p.backend);
        return;
      }
    }
    ok := true;
    assert units[..|units|] == units;
  }

  /** `SQLiteVectorIndex.index`: stops when a kept vector cannot be decoded. */
  method IndexVectors(db: DerivedDatabase, units: seq<SemanticUnit>, p: Pass) returns (ok: bool, tally: Tally)
    requires DistinctUnits(units)
    modifies db`records
    ensures ok <==> !Aborts(old(db.records), Fresh(units), p.backend)
    ensures ok ==> db.records == Reindexed(old(db.records), Fresh(units), p)
    ensures ok ==>
      tally == TallyOf(old(db.records), units, p).(invalidated := |old(db.records).Keys - Fresh(units).Keys|)
  {
    ghost var before := db.records;
    ghost var want := Fresh(units);
    FreshHolds(units);
    HeldIds(want, units);
    var invalidated := DropInactive(db, Ids(units));
    ghost var active := db.records;
    SameOnUnits(before, active, units, p.backend);
    ok, tally := IndexEach(db, units, p);
    AbortsIff(before, units, want, p.backend);
    if ok {
      ReindexAllIsReindexed(before, active, units, want, p);
      TallyOfActive(before, active, units, p);
      tally := tally.(invalidated := invalidated);
    }
  }

  lemma SameOnUnits(records: RecordTable, active: RecordTable, units: seq<SemanticUnit>, b: Backend)
    requires forall id :: id in active <==> id in records && id in Ids(units)
    requires forall id :: id in active ==> active[id] == records[id]
    ensures forall u :: u in units ==>
            (u.id in active <==> u.id in records) && (u.id in active ==> active[u.id] == records[u.id])
    ensures forall i :: 0 <= i < |units| ==> (Undecodable(active, units[i], b) <==> Undecodable(records, units[i], b))
  {
    forall u | u in units ensures u.id in Ids(units) {}
  }

  // ---------------------------------------------------------------- one cycle

  /** `run_derived_state_cycle` up to its commit. */
  method RunCycle(db: DerivedDatabase, p: Pass, rebuilt: Option<seq<seq<string>>>) returns (o: Outcome)
    requires DistinctUnits(Expected(db.sources))
    modifies db
    ensures (db.View(), o) == Cycle(old(db.View()), p, rebuilt)
  {
    var units, records := db.units, db.records;
    var expected := ReconcileSemanticUnits(db);
    var ok, tally := IndexVectors(db, expected, p);
    if !ok || rebuilt.None? {
      db.units, db.records := units, records;
      return RolledBack;
    }
    db.projections := rebuilt.value;
    o := Committed(tally);
  }

  // ---------------------------------------------------------------- inspection

  method CountStaleRows(db: DerivedDatabase, want: UnitTable) returns (count: nat)
    ensures count == |StaleRows(db.units, want)|
  {
    var common := db.units.Keys * want.Keys;
    ghost var found: set<UnitId> := {};
    count := 0;
    while common != {}
      invariant forall id :: id in common ==> id in db.units && id in want
      invariant forall id :: id in found ==>
        id in db.units && id in want && RowStale(db.units[id], want[id]) && id !in common
      invariant forall id :: id in db.units && id in want && RowStale(db.units[id], want[id]) ==>
        id in common || id in found
      invariant count == |found|
      decreases common
    {
      var id :| id in common;
      if RowStale(db.units[id], want[id]) { count, found := count + 1, found + {id}; }
      common := common - {id};
    }
    assert found == StaleRows(db.units, want);
  }

  /** The loop over the expected units: how many records are pending, and how many failed. */
  method CountRecords(db: DerivedDatabase, want: UnitTable, b: Backend) returns (pending: nat, failed: nat)
    ensures pending == |PendingRecords(db.records, want, b)| && failed == |FailedRecords(db.records, want)|
  {
    var rest := want.Keys;
    ghost var waiting: set<UnitId>, broken: set<UnitId> := {}, {};
    pending, failed := 0, 0;
    while rest != {}
      invariant forall id :: id in rest ==> id in want
      invariant forall id :: id in waiting ==> id in want && RecordPending(db.records, want[id], b) && id !in rest
      invariant forall id :: id in want && RecordPending(db.records, want[id], b) ==> id in rest || id in waiting
      invariant forall id :: id in broken ==> id in FailedRecords(db.records, want) && id !in rest
      invariant forall id :: id in FailedRecords(db.records, want) ==> id in rest || id in broken
      invariant pending == |waiting| && failed == |broken|
      decreases rest
    {
      var id :| id in rest;
      if RecordPending(db.records, want[id], b) { pending, waiting := pending + 1, waiting + {id}; }
      if id in db.records && db.records[id].state == Failed { failed, broken := failed + 1, broken + {id}; }
      rest := rest - {id};
    }
    assert waiting == PendingRecords(db.records, want, b) && broken == FailedRecords(db.records, want);
  }

  method InspectTables(
    db: DerivedDatabase, expected: seq<SemanticUnit>, want: UnitTable, b: Backend,
    lastSource: Option<SourceSignature>, lastProjection: Option<ProjectionSignature>)
    returns (i: Inspection)
    requires expected == Expected(db.sources)
    ensures i == InspectAgainst(db.View(), want, b, lastSource, lastProjection)
  {
    var pendingUnits := |(db.units.Keys - want.Keys) + (want.Keys - db.units.Keys)|;
    var stale := CountStaleRows(db, want);
    pendingUnits := pendingUnits + stale;
    var pendingEmbeddings := |db.records.Keys - want.Keys|;
    var pending, failed := CountRecords(db, want, b);
    pendingEmbeddings := pendingEmbeddings + pending;
    var source, projection := SignatureOf(db.sources, b), ProjectionSignature(db.projections);
    i := Inspection(source, projection, pendingUnits, pendingEmbeddings,
           Counts(|db.sources|, |expected|, failed, RowCounts(db.projections)),
           CycleRequired(source, projection, pendingUnits + pendingEmbeddings, lastSource, lastProjection));
  }

  /** `inspect_derived_state`. */
  method InspectDerivedState(
    db: DerivedDatabase, b: Backend, lastSource: Option<SourceSignature>, lastProjection: Option<ProjectionSignature>)
    returns (i: Inspection)
    requires DistinctUnits(Expected(db.sources))
    ensures i == Inspect(db.View(), b, lastSource, lastProjection)
  {
    var expected := ExpectedUnits(db.sources);
    i := InspectTables(db, expected, Fresh(expected), b, lastSource, lastProjection);
  }

  // ---------------------------------------------------------------- the maintainer

  datatype Convergence = Pending | Converged | Behind

  datatype Maintained = Maintained(
    derived: Derived, lastSource: Option<SourceSignature>, lastProjection: Option<ProjectionSignature>,
    convergence: Convergence)

  /** One turn of the maintainer.  `arriving` are the sources as the inspection that follows
      the commit finds them.  A cycle that raises leaves the tables and the signatures. */
  function RunOnce(m: Maintained, p: Pass, rebuilt: Option<seq<seq<string>>>, arriving: seq<SourceText>): Maintained
    requires DistinctUnits(Expected(m.derived.sources))
  {
    if !Inspect(m.derived, p.backend, m.lastSource, m.lastProjection).requiresCycle then m.(convergence := Converged)
    else
      var (t, o) := Cycle(m.derived, p, rebuilt);
      if o.RolledBack? then m.(convergence := Behind)
      else
        var after := t.(sources := arriving);
        if o.tally.failed == 0
        then Maintained(after, Some(SignatureOf(arriving, p.backend)), Some(ProjectionSignature(after.projections)),
          Converged)
        else Maintained(after, m.lastSource, m.lastProjection, Behind)
  }

  class AutomaticDerivedStateMaintainer {
    const db: DerivedDatabase
    var sourceSignature: Option<SourceSignature>
    var projectionSignature: Option<ProjectionSignature>
    var convergence: Convergence

    constructor (db: DerivedDatabase)
      ensures this.db == db && View() == Maintained(db.View(), None, None, Pending)
    {
      this.db := db;
      sourceSignature, projectionSignature, convergence := None, None, Pending;
    }

    function View(): Maintained
      reads this, db
    {
      Maintained(db.View(), sourceSignature, projectionSignature, convergence)
    }

    /** `_run_once`, with the sources that arrive while it runs. */
    method Turn(p: Pass, rebuilt: Option<seq<seq<string>>>, arriving: seq<SourceText>)
      requires DistinctUnits(Expected(db.sources)) && DistinctUnits(Expected(arriving))
      modifies this`sourceSignature, this`projectionSignature, this`convergence, db
      ensures View() == RunOnce(old(View()), p, rebuilt, arriving)
    {
      var inspection := InspectDerivedState(db, p.backend, sourceSignature, projectionSignature);
      if !inspection.requiresCycle {
        convergence := Converged;
        return;
      }
      var outcome := RunCycle(db, p, rebuilt);
      if outcome.RolledBack? {
        convergence := Behind;
        return;
      }
      db.sources := arriving;
      var after := InspectDerivedState(db, p.backend, None, None);
      if outcome.tally.failed == 0 {
        sourceSignature, projectionSignature := Some(after.sourceSignature), Some(after.projectionSignature);
        convergence := Converged;
      } else {
        convergence := Behind;
      }
    }
  }

  // ---------------------------------------------------------------- every run

  datatype Event =
    | Arrive(sources: seq<SourceText>)
    | Poll(pass: Pass, rebuilt: Option<seq<seq<string>>>, arriving: seq<SourceText>)

  /** Every revision keeps one content, is read once, and model versions embed as `embed`. */
  ghost predicate Allowed(e: Event, ledger: SourceKey -> string, embed: Embedder) {
    match e
    case Arrive(sources) => Readable(sources, ledger)
    case Poll(pass, _, arriving) => pass.embed == embed && Readable(arriving, ledger)
  }

  ghost predicate Readable(sources: seq<SourceText>, ledger: SourceKey -> string) {
    DistinctSources(sources) && Coherent(sources, ledger) && DistinctUnits(Expected(sources))
  }

  ghost predicate Healthy(m: Maintained, ledger: SourceKey -> string, embed: Embedder) {
    Readable(m.derived.sources, ledger) && TablesSound(m.derived, embed) && SpansFollow(m.derived.units, ledger)
  }

  function After(m: Maintained, e: Event): Maintained {
    match e
    case Arrive(sources) => m.(derived := m.derived.(sources := sources))
    case Poll(pass, rebuilt, arriving) =>
      if DistinctUnits(Expected(m.derived.sources)) then RunOnce(m, pass, rebuilt, arriving) else m
  }

  const STARTED := Maintained(Derived([], map[], map[], []), None, None, Pending)

  function AfterAll(events: seq<Event>): Maintained {
    if events == [] then STARTED else After(AfterAll(events[..|events| - 1]), events[|events| - 1])
  }

  ghost predicate AllAllowed(events: seq<Event>, ledger: SourceKey -> string, embed: Embedder) {
    forall i :: 0 <= i < |events| ==> Allowed(events[i], ledger, embed)
  }

  lemma EventKeepsHealth(m: Maintained, e: Event, ledger: SourceKey -> string, embed: Embedder)
    requires Healthy(m, ledger, embed) && Allowed(e, ledger, embed)
    ensures Healthy(After(m, e), ledger, embed)
  {
    if e.Poll? {
      CycleIsSound(m.derived, e.pass, e.rebuilt);
      StableContentsRebuild(m.derived.units, m.derived.sources, ledger);
    }
  }

  lemma {:induction false} RunsAreHealthy(events: seq<Event>, ledger: SourceKey -> string, embed: Embedder)
    requires AllAllowed(events, ledger, embed)
    ensures Healthy(AfterAll(events), ledger, embed)
  {
    if events != [] {
      var n := |events| - 1;
      RunsAreHealthy(events[..n], ledger, embed);
      EventKeepsHealth(AfterAll(events[..n]), events[n], ledger, embed);
    }
  }

  /** Each revision is read once, and model versions embed as `embed`; its content may change. */
  ghost predicate Permitted(e: Event, embed: Embedder) {
    match e
    case Arrive(sources) => DistinctSources(sources)
    case Poll(pass, _, arriving) => pass.embed == embed && DistinctSources(arriving)
  }

  lemma TurnOutcomes(m: Maintained, p: Pass, rebuilt: Option<seq<seq<string>>>, arriving: seq<SourceText>)
    requires DistinctUnits(Expected(m.derived.sources))
    ensures var next, t := RunOnce(m, p, rebuilt, arriving).derived, Cycle(m.derived, p, rebuilt).0;
      next == m.derived || next == t.(sources := arriving)
  {
    var next := RunOnce(m, p, rebuilt, arriving);
    var (t, o) := Cycle(m.derived, p, rebuilt);
    if !Inspect(m.derived, p.backend, m.lastSource, m.lastProjection).requiresCycle {
      assert next == m.(convergence := Converged);
    } else if o.RolledBack? {
      assert next == m.(convergence := Behind);
    } else {
      assert next.derived == t.(sources := arriving);
    }
  }

  lemma TurnIsSound(m: Maintained, p: Pass, rebuilt: Option<seq<seq<string>>>, arriving: seq<SourceText>)
    requires DistinctSources(m.derived.sources) && TablesSound(m.derived, p.embed) && DistinctSources(arriving)
    requires DistinctUnits(Expected(m.derived.sources))
    ensures var next := RunOnce(m, p, rebuilt, arriving).derived;
      DistinctSources(next.sources) && TablesSound(next, p.embed)
  {
    TurnOutcomes(m, p, rebuilt, arriving);
    CycleIsSound(m.derived, p, rebuilt);
    var t := Cycle(m.derived, p, rebuilt).0;
    assert TablesSound(t, p.embed) ==> TablesSound(t.(sources := arriving), p.embed);
  }

  lemma {:induction false} RunsAreSound(events: seq<Event>, embed: Embedder)
    requires forall i :: 0 <= i < |events| ==> Permitted(events[i], embed)
    ensures DistinctSources(AfterAll(events).derived.sources) && TablesSound(AfterAll(events).derived, embed)
  {
    if events != [] {
      var n := |events| - 1;
      var m, e := AfterAll(events[..n]), events[n];
      RunsAreSound(events[..n], embed);
      ExpectedAreDistinct(m.derived.sources);
      assert Permitted(e, embed) && AfterAll(events) == After(m, e);
      if e.Poll? { TurnIsSound(m, e.pass, e.rebuilt, e.arriving); }
    }
  }

  /** In every run whatsoever, whenever the detector is quiet the stored units are those built
      afresh up to offsets, with one record each that holds the encoding of its unit. */
  lemma QuietRunsAreExactUpToSpans(events: seq<Event>, embed: Embedder, b: Backend)
    requires forall i :: 0 <= i < |events| ==> Permitted(events[i], embed)
    ensures DistinctUnits(Expected(AfterAll(events).derived.sources))
    ensures var m := AfterAll(events); var want := Fresh(Expected(m.derived.sources));
      !Inspect(m.derived, b, m.lastSource, m.lastProjection).requiresCycle ==>
        && m.derived.units.Keys == want.Keys == m.derived.records.Keys
        && forall id :: id in m.derived.units ==> ExactAt(m.derived, b, embed, want, id)
  {
    var m := AfterAll(events);
    RunsAreSound(events, embed);
    ExpectedAreDistinct(m.derived.sources);
    if !Inspect(m.derived, b, m.lastSource, m.lastProjection).requiresCycle {
      QuietIsExact(m.derived, b, embed, m.lastSource, m.lastProjection);
    }
  }

  /** In every run in which a revision keeps its content, whenever the detector is quiet the
      stored units are exactly the units built afresh and every vector is the encoding of
      embedding its unit. */
  lemma QuietRunsAreExact(events: seq<Event>, ledger: SourceKey -> string, embed: Embedder, b: Backend)
    requires AllAllowed(events, ledger, embed)
    ensures DistinctUnits(Expected(AfterAll(events).derived.sources))
    ensures var m := AfterAll(events);
      !Inspect(m.derived, b, m.lastSource, m.lastProjection).requiresCycle ==> Exact(m.derived, b, embed)
  {
    var m := AfterAll(events);
    RunsAreHealthy(events, ledger, embed);
    if !Inspect(m.derived, b, m.lastSource, m.lastProjection).requiresCycle {
      QuietIsExact(m.derived, b, embed, m.lastSource, m.lastProjection);
      ExactUnderALedger(m.derived, b, embed, ledger);
    }
  }

  /** Units as built afresh, one record each, each vector the encoding of its unit. */
  ghost predicate Exact(s: Derived, b: Backend, embed: Embedder)
    requires DistinctUnits(Expected(s.sources))
  {
    && s.units == Fresh(Expected(s.sources))
    && s.records.Keys == s.units.Keys
    && forall id :: id in s.units ==>
       s.records[id].vector == Some(Packed(embed(b.version, b.model, s.units[id].content)))
  }

  lemma ExactUnderALedger(s: Derived, b: Backend, embed: Embedder, ledger: SourceKey -> string)
    requires RowsWellNamed(s.units) && SpansFollow(s.units, ledger) && Readable(s.sources, ledger)
    requires s.units.Keys == Fresh(Expected(s.sources)).Keys == s.records.Keys
    requires forall id :: id in s.units ==> ExactAt(s, b, embed, Fresh(Expected(s.sources)), id)
    ensures Exact(s, b, embed)
  {
    FreshIsWanted(s.sources);
    ExpectedFollow(s.sources, ledger);
    FreshSpans(Expected(s.sources), ledger);
    RowsAreWanted(s, Fresh(Expected(s.sources)), b, embed, ledger);
  }

  lemma RowsAreWanted(s: Derived, want: UnitTable, b: Backend, embed: Embedder, ledger: SourceKey -> string)
    requires Wanted(want) && SpansFollow(s.units, ledger) && SpansFollow(want, ledger)
      && s.units.Keys == want.Keys == s.records.Keys
    requires forall id :: id in s.units ==> ExactAt(s, b, embed, want, id)
    ensures s.units == want
    ensures forall id :: id in s.units ==>
      s.records[id].vector == Some(Packed(embed(b.version, b.model, s.units[id].content)))
  {
    forall id | id in want ensures s.units[id] == want[id] {
      assert ExactAt(s, b, embed, want, id) && WellNamed(want[id]) && SpanFollows(s.units[id], ledger)
        && SpanFollows(want[id], ledger);
      SpanCompletesTheRow(s.units[id], want[id], ledger);
    }
    forall id | id in s.units ensures s.records[id].vector
      == Some(Packed(embed(b.version, b.model, s.units[id].content))) {
      assert ExactAt(s, b, embed, want, id);
    }
  }

  lemma SpanCompletesTheRow(row: SemanticUnit, u: SemanticUnit, ledger: SourceKey -> string)
    requires u.chunker == CHUNKER_VERSION && SpanFollows(row, ledger) && SpanFollows(u, ledger) && SameUpToSpan(row, u)
    ensures row == u
  {}
}
