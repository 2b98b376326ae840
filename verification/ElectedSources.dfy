/** The writers of `library/document_registry.py` over the shared connection. */
module ElectedSources {
  import opened Enumeration
  import opened Schema
  import opened LexicalIndexer
  import opened DocumentRegistry
  import opened DocumentSync

  // ---------------------------------------------------------------- pruning

  lemma NewestAreFirst(revisions: set<nat>, i: nat)
    requires i < |Descending(revisions)|
    ensures Descending(revisions)[i] in NewestOf(revisions) <==> i < MAX_HISTORICAL_REVISIONS
  {
    var rows := Descending(revisions);
    DescendingLists(revisions);
    assert rows[i] in revisions;
    AboveArePrefix(rows, i, Newer(revisions, rows[i]));
  }

  function Surplus(revisions: set<nat>): seq<nat> {
    var rows := Descending(revisions);
    if |rows| > MAX_HISTORICAL_REVISIONS then rows[MAX_HISTORICAL_REVISIONS..] else []
  }

  lemma SurplusIsOld(revisions: set<nat>, r: nat)
    requires r in revisions
    ensures r in Surplus(revisions) <==> r !in NewestOf(revisions)
  {
    var rows, old' := Descending(revisions), Surplus(revisions);
    DescendingLists(revisions);
    var i :| 0 <= i < |rows| && rows[i] == r;
    NewestAreFirst(revisions, i);
    if i >= MAX_HISTORICAL_REVISIONS {
      assert old'[i - MAX_HISTORICAL_REVISIONS] == r;
    } else {
      assert forall j :: 0 <= j < |old'| ==> old'[j] == rows[j + MAX_HISTORICAL_REVISIONS];
    }
  }

  /** `_prune_document_revision_history`. */
  method PruneHistory(db: Database, id: DocumentId) returns (pruned: seq<nat>)
    modifies db`history
    ensures db.history == old(db.history)[id := Newest(HistoryOf(old(db.View()), id))]
  {
    var kept := if id in db.history then db.history[id] else map[];
    ghost var all := kept;
    pruned := Surplus(kept.Keys);
    for i := 0 to |pruned|
      invariant kept == map r | r in all && r !in pruned[..i] :: all[r]
    {
      kept := kept - {pruned[i]};
    }
    forall r | r in all ensures r in kept <==> r in NewestOf(all.Keys) {
      SurplusIsOld(all.Keys, r);
    }
    assert kept == Newest(all);
    db.history := db.history[id := kept];
  }

  // ---------------------------------------------------------------- cleanup

  function Cleaned(s: Library, done: set<DocumentId>): Library {
    DropDocuments(s, Orphans(s, done))
  }

  function RemovedCount(s: Library, done: set<DocumentId>): nat {
    |Orphans(s, done) * s.documents.Keys|
  }

  predicate Orphaned(s: Library, id: DocumentId) {
    forall m :: m in s.memberships ==> m.1 != id
  }

  lemma CleanNothing(s: Library)
    ensures Cleaned(s, {}) == s
  {
    assert Orphans(s, {}) == {};
    var t := DropDocuments(s, {});
    assert t.documents == s.documents && t.history == s.history && t.lexical == s.lexical
      && t.memberships == s.memberships;
  }

  lemma CountNothing(s: Library)
    ensures RemovedCount(s, {}) == 0
  {
    assert Orphans(s, {}) == {};
  }

  lemma CleaningKeepsMemberships(s: Library, done: set<DocumentId>)
    ensures Cleaned(s, done).memberships == s.memberships
  {
    forall m | m in s.memberships ensures m.1 !in Orphans(s, done) {}
  }

  lemma DropOneMore(s: Library, gone: set<DocumentId>, id: DocumentId)
    requires forall m :: m in s.memberships ==> m.1 != id && m.1 !in gone
    ensures var t := DropDocuments(s, gone);
      DropDocuments(s, gone + {id}) ==
      t.(documents := t.documents - {id}, history := t.history - {id}, lexical := RemoveDocumentIndex(t.lexical, id))
  {
    var t, u := DropDocuments(s, gone), DropDocuments(s, gone + {id});
    assert u.documents == t.documents - {id};
    assert u.history == t.history - {id};
    assert u.memberships == t.memberships;
    assert u.lexical == RemoveDocumentIndex(t.lexical, id) by {
      assert (set d | d in gone + {id} :: ElectedDocument(d)) == (set d | d in gone ::
        ElectedDocument(d)) + {ElectedDocument(id)};
    }
  }

  lemma OneMoreOrphan(s: Library, done: set<DocumentId>, id: DocumentId)
    requires Orphaned(s, id)
    ensures Orphans(s, done + {id}) == Orphans(s, done) + {id}
  {}

  lemma CountOneMore(s: Library, done: set<DocumentId>, id: DocumentId)
    requires Orphaned(s, id) && id !in done
    ensures RemovedCount(s, done + {id}) == RemovedCount(s, done) + if id in s.documents then 1 else 0
  {
    OneMoreOrphan(s, done, id);
    OneMoreInBoth(Orphans(s, done), s.documents.Keys, id);
  }

  lemma OneMoreInBoth<T>(a: set<T>, b: set<T>, x: T)
    requires x !in a
    ensures |(a + {x}) * b| == |a * b| + if x in b then 1 else 0
  {
    if x in b {
      assert (a + {x}) * b == a * b + {x};
    } else {
      assert (a + {x}) * b == a * b;
    }
  }

  lemma KeepOneMore(s: Library, done: set<DocumentId>, id: DocumentId)
    requires !Orphaned(s, id)
    ensures Cleaned(s, done + {id}) == Cleaned(s, done) && RemovedCount(s, done + {id}) == RemovedCount(s, done)
  {
    assert Orphans(s, done + {id}) == Orphans(s, done);
  }

  function WithoutDocument(s: Library, id: DocumentId): Library {
    s.(documents := s.documents - {id}, history := s.history - {id}, lexical := RemoveDocumentIndex(s.lexical, id))
  }

  lemma CleanStep(s: Library, done: set<DocumentId>, id: DocumentId)
    requires id !in done
    ensures var t := Cleaned(s, done);
      && Cleaned(s, done + {id}) == (if Orphaned(t, id) then WithoutDocument(t, id) else t)
      && RemovedCount(s, done + {id}) ==
         RemovedCount(s, done) + (if Orphaned(t, id) && id in t.documents then 1 else 0)
  {
    CleaningKeepsMemberships(s, done);
    if Orphaned(s, id) {
      OneMoreOrphan(s, done, id);
      DropOneMore(s, Orphans(s, done), id);
      CountOneMore(s, done, id);
    } else {
      KeepOneMore(s, done, id);
    }
  }

  /** One turn of the cleanup loop. */
  method DropIfOrphan(db: Database, id: DocumentId) returns (dropped: nat)
    modifies db
    ensures var s := old(db.View());
      && db.View() == (if Orphaned(s, id) then WithoutDocument(s, id) else s)
      && dropped == (if Orphaned(s, id) && id in s.documents then 1 else 0)
  {
    dropped := 0;
    if Orphaned(db.View(), id) {
      db.lexical := RemoveDocumentIndex(db.lexical, id);
      if id in db.documents { dropped := 1; }
      db.documents, db.history := db.documents - {id}, db.history - {id};
    }
  }

  /** `_cleanup_orphan_documents`: index row and document go together. */
  method CleanupOrphanDocuments(db: Database, candidates: set<DocumentId>) returns (removed: nat)
    modifies db
    ensures db.View() == DropDocuments(old(db.View()), Orphans(old(db.View()), candidates))
    ensures removed == |Orphans(old(db.View()), candidates) * old(db.documents).Keys|
  {
    ghost var start := db.View();
    CleanNothing(start);
    CountNothing(start);
    var rest := candidates;
    ghost var done: set<DocumentId> := {};
    removed := 0;
    while rest != {}
      invariant forall d :: d in done <==> d in candidates && d !in rest
      invariant forall d :: d in rest ==> d in candidates
      invariant db.View() == Cleaned(start, done)
      invariant removed == RemovedCount(start, done)
      decreases rest
    {
      var id :| id in rest;
      CleanStep(start, done, id);
      var dropped := DropIfOrphan(db, id);
      removed := removed + dropped;
      done, rest := done + {id}, rest - {id};
    }
    assert done == candidates;
  }

  // ---------------------------------------------------------------- synchronisation

  datatype Row = Row(id: DocumentId, document: Document)

  /** `documents_by_key` is the path index of the project's current rows. */
  predicate KeyIndex(index: map<string, Row>, s: Library, project: ProjectId) {
    && (forall k :: k in index ==> AtKey(s, project, k, index[k].id) && index[k].document == s.documents[index[k].id])
    && (forall d :: d in s.documents && s.documents[d].project == project ==>
          s.documents[d].key in index && index[s.documents[d].key].id == d)
  }

  /** The rows read before the loop are still current for documents not yet placed. */
  predicate StillCurrent(rows: map<DocumentId, Document>, c: Scan, p: Progress) {
    rows.Keys == c.members && forall d :: d in rows && d !in p.placed ==>
      d in p.lib.documents && p.lib.documents[d] == rows[d]
  }

  method InsertDocument(db: Database, c: Scan, snap: Snapshot, ghost p: Progress) returns (ok: bool)
    requires db.View() == p.lib
    modifies db
    ensures ok <==> Add(p, c, snap).Some?
    ensures db.View() == if ok then Add(p, c, snap).value.lib.(memberships := p.lib.memberships) else p.lib
  {
    var id := DocumentUuid(c.project, snap.key);
    ok := !(id in db.documents || PathTaken(db.View(), id, c.project, snap));
    if ok {
      db.documents := db.documents[id := NewDocument(c.project, snap, c.now)];
      db.history := db.history[id := map[]];
      db.lexical := IndexDocument(db.lexical, id, c.project, snap.content, c.now);
    }
  }

  /** The `UPDATE documents` statement with its trigger and unique indexes. */
  method RewriteRow(db: Database, existing: Row, snap: Snapshot, now: Instant) returns (ok: bool)
    requires existing.id in db.documents && existing.document == db.documents[existing.id]
    modifies db`documents, db`history
    ensures var s, id, d := old(db.View()), existing.id, existing.document;
      && ok == !(PathTaken(s, id, d.project, snap)
         || (d.digest.Some? && ContentChanged(d, snap) && d.revision in HistoryOf(s, id)))
      && db.documents == (if ok then s.documents[id := Rewritten(d, snap, now)] else s.documents)
      && db.history == (if ok then s.history[id := AfterTrigger(HistoryOf(s, id), d, snap, now)] else s.history)
  {
    var id, d := existing.id, existing.document;
    var archive := d.digest.Some? && ContentChanged(d, snap);
    ok := !PathTaken(db.View(), id, d.project, snap) && !(archive && d.revision in HistoryOf(db.View(), id));
    if ok {
      db.history := db.history[id := AfterTrigger(HistoryOf(db.View(), id), d, snap, now)];
      db.documents := db.documents[id := Rewritten(d, snap, now)];
    }
  }

  /** Rewrites the row if anything changed, and prunes its archive either way. */
  method RewriteAndPrune(db: Database, existing: Row, snap: Snapshot, now: Instant) returns (ok: bool, rewritten: bool)
    requires existing.id in db.documents && existing.document == db.documents[existing.id]
    modifies db`documents, db`history
    ensures rewritten == (ContentChanged(existing.document, snap) || MetadataChanged(existing.document, snap))
    ensures var s, id, d := old(db.View()), existing.id, existing.document;
      && ok == !(rewritten && (PathTaken(s, id, d.project, snap)
                               || (d.digest.Some? && ContentChanged(d, snap) && d.revision in HistoryOf(s, id))))
      && (ok ==> db.documents == if rewritten then s.documents[id := Rewritten(d, snap, now)] else s.documents)
      && (ok ==>
         db.history == s.history[id := Newest(if rewritten then AfterTrigger(HistoryOf(s, id), d, snap, now)
           else HistoryOf(s, id))])
  {
    ghost var s := db.View();
    ok, rewritten := true, ContentChanged(existing.document, snap) || MetadataChanged(existing.document, snap);
    if rewritten {
      ok := RewriteRow(db, existing, snap, now);
      if !ok { return; }
      assert db.history == s.history[existing.id := AfterTrigger(HistoryOf(s, existing.id), existing.document, snap,
        now)];
    }
    var _ := PruneHistory(db, existing.id);
  }

  method RefreshDocument(db: Database, c: Scan, existing: Row, snap: Snapshot, ghost p: Progress, ghost moved: bool)
    returns (ok: bool, rewritten: bool)
    requires db.View() == p.lib && existing.id in db.documents && existing.document == db.documents[existing.id]
    modifies db
    ensures rewritten == (ContentChanged(existing.document, snap) || MetadataChanged(existing.document, snap))
    ensures ok <==> Refresh(p, c, existing.id, snap, moved).Some?
    ensures ok ==> db.View() == Refresh(p, c, existing.id, snap, moved).value.lib.(memberships := p.lib.memberships)
  {
    var lexicalExists := ElectedDocument(existing.id) in db.lexical;
    ok, rewritten := RewriteAndPrune(db, existing, snap, c.now);
    if ok && (ContentChanged(existing.document, snap) || !lexicalExists) {
      db.lexical := IndexDocument(db.lexical, existing.id, c.project, snap.content, c.now);
    }
  }

  /** The row a snapshot belongs to: the one at its path, or else the single vanished
      document of the source with its identity. */
  method FindExisting(
    c: Scan, snap: Snapshot, index: map<string, Row>, rows: map<DocumentId, Document>, seen: set<DocumentId>,
    ghost p: Progress)
    returns (existing: Option<Row>, wasMoved: bool)
    requires seen == Seen(p)
    requires UniquePaths(p.lib) && KeyIndex(index, p.lib, c.project) && StillCurrent(rows, c, p)
    ensures existing.Some? ==>
      existing.value.id in p.lib.documents && existing.value.document == p.lib.documents[existing.value.id]
    ensures FateOf(p.lib, c, seen, snap) ==
            (if existing.None? then AddNew else if wasMoved then Move(existing.value.id) else Keep(existing.value.id))
  {
    existing := if snap.key in index then Some(index[snap.key]) else None;
    wasMoved := false;
    if existing.None? {
      if snap.identity.Some? {
        var candidates := set d | d in rows && rows[d].identity == snap.identity && rows[d].key !in c.keys
          && d !in seen;
        assert candidates == MoveCandidates(p.lib, c, seen, snap);
        if |candidates| == 1 {
          SingleCandidate(candidates);
          var d :| d in candidates;
          existing, wasMoved := Some(Row(d, rows[d])), true;
        }
      }
    } else {
      OnlyAtKey(p.lib, c.project, snap.key, existing.value.id);
    }
  }

  /** How the dictionary follows the row that was just written. */
  function NextIndex(index: map<string, Row>, s: Library, t: Library, id: DocumentId, snap: Snapshot): map<string, Row>
    requires id in t.documents
  {
    if id !in s.documents then index[snap.key := Row(id, t.documents[id])]
    else if ContentChanged(s.documents[id], snap) || MetadataChanged(s.documents[id], snap)
    then (index - {s.documents[id].key})[snap.key := Row(id, t.documents[id])]
    else index
  }

  lemma IndexFollows(p: Progress, q: Progress, c: Scan, id: DocumentId, snap: Snapshot, index: map<string, Row>)
    requires UniquePaths(p.lib) && UniquePaths(q.lib) && KeyIndex(index, p.lib, c.project)
    requires Local(p, q, c, id, snap)
    requires id in p.lib.documents ==> p.lib.documents[id].project == c.project
    requires id in p.lib.documents && !ContentChanged(p.lib.documents[id], snap)
             && !MetadataChanged(p.lib.documents[id], snap) ==>
               q.lib.documents[id] == p.lib.documents[id]
    ensures KeyIndex(NextIndex(index, p.lib, q.lib, id, snap), q.lib, c.project)
  {
    var next := NextIndex(index, p.lib, q.lib, id, snap);
    forall d | d in q.lib.documents && q.lib.documents[d].project == c.project
      ensures q.lib.documents[d].key in next && next[q.lib.documents[d].key].id == d
    {
      if d != id {
        assert SameDocument(p.lib, q.lib, d);
        assert !SamePath(q.lib.documents[d], c.project, q.lib.documents[id].key, q.lib.documents[id].reference);
        assert id in p.lib.documents ==>
          !SamePath(p.lib.documents[d], c.project, p.lib.documents[id].key, p.lib.documents[id].reference);
      }
    }
    IndexedRowsFollow(p, q, c, id, snap, index);
  }

  lemma IndexedRowsFollow(p: Progress, q: Progress, c: Scan, id: DocumentId, snap: Snapshot, index: map<string, Row>)
    requires KeyIndex(index, p.lib, c.project) && Local(p, q, c, id, snap)
    requires id in p.lib.documents ==> p.lib.documents[id].project == c.project
    requires id in p.lib.documents && !ContentChanged(p.lib.documents[id], snap)
             && !MetadataChanged(p.lib.documents[id], snap) ==>
               q.lib.documents[id] == p.lib.documents[id]
    ensures var next := NextIndex(index, p.lib, q.lib, id, snap);
      forall k :: k in next ==>
        AtKey(q.lib, c.project, k, next[k].id) && next[k].document == q.lib.documents[next[k].id]
  {
    var next := NextIndex(index, p.lib, q.lib, id, snap);
    forall k | k in next ensures AtKey(q.lib, c.project, k, next[k].id)
      && next[k].document == q.lib.documents[next[k].id] {
      if next[k].id != id { assert SameDocument(p.lib, q.lib, next[k].id); }
    }
  }

  method JoinSource(db: Database, c: Scan, id: DocumentId)
    modifies db`memberships
    ensures db.memberships == old(db.memberships) + {(c.source, id)}
  {
    db.memberships := db.memberships + {(c.source, id)};
  }

  method AddSnapshot(db: Database, c: Scan, snap: Snapshot, index: map<string, Row>, counts: Counts, ghost p: Progress)
    returns (ok: bool, index': map<string, Row>, counts': Counts)
    requires db.View() == p.lib && counts == p.counts
    modifies db
    ensures ok <==> Add(p, c, snap).Some?
    ensures ok ==> Add(p, c, snap) == Some(Progress(db.View(), p.placed + [DocumentUuid(c.project, snap.key)], counts'))
    ensures ok ==> index' == NextIndex(index, p.lib, db.View(), DocumentUuid(c.project, snap.key), snap)
  {
    var id := DocumentUuid(c.project, snap.key);
    index', counts' := index, counts;
    ok := InsertDocument(db, c, snap, p);
    if ok {
      index' := index[snap.key := Row(id, db.documents[id])];
      counts' := counts.(added := counts.added + 1);
      JoinSource(db, c, id);
    }
  }

  /** The counters after a refresh. */
  function Recounted(counts: Counts, rewritten: bool, moved: bool): Counts {
    Counts(counts.added,
           if rewritten then counts.updated + 1 else counts.updated,
           if rewritten then counts.same else counts.same + 1,
           if moved then counts.moved + 1 else counts.moved)
  }

  lemma RefreshedProgress(p: Progress, c: Scan, existing: Row, snap: Snapshot, moved: bool, s: Library, counts: Counts)
    requires existing.id in p.lib.documents && existing.document == p.lib.documents[existing.id]
    requires Refresh(p, c, existing.id, snap, moved).Some?
    requires s == Refresh(p, c, existing.id, snap, moved).value.lib.(memberships := p.lib.memberships)
    requires counts == Recounted(p.counts, ContentChanged(existing.document, snap)
      || MetadataChanged(existing.document, snap), moved)
    ensures Refresh(p, c, existing.id, snap, moved)
            == Some(Progress(s.(memberships := p.lib.memberships + {(c.source, existing.id)}),
              p.placed + [existing.id], counts))
  {}

  lemma RefreshedIndex(index: map<string, Row>, s: Library, t: Library, existing: Row, snap: Snapshot)
    requires existing.id in s.documents && existing.document == s.documents[existing.id] && existing.id in t.documents
    ensures NextIndex(index, s, t, existing.id, snap)
            == if ContentChanged(existing.document, snap) || MetadataChanged(existing.document, snap)
               then (index - {existing.document.key})[snap.key := Row(existing.id, t.documents[existing.id])] else index
  {}

  method RefreshSnapshot(
    db: Database, c: Scan, existing: Row, wasMoved: bool, snap: Snapshot, index: map<string, Row>, counts: Counts,
    ghost p: Progress)
    returns (ok: bool, index': map<string, Row>, counts': Counts)
    requires db.View() == p.lib && counts == p.counts
    requires existing.id in db.documents && existing.document == db.documents[existing.id]
    modifies db
    ensures ok <==> Refresh(p, c, existing.id, snap, wasMoved).Some?
    ensures ok ==>
      Refresh(p, c, existing.id, snap, wasMoved) == Some(Progress(db.View(), p.placed + [existing.id], counts'))
    ensures ok ==> index' == NextIndex(index, p.lib, db.View(), existing.id, snap)
  {
    var rewritten;
    index', counts' := index, counts;
    ok, rewritten := RefreshDocument(db, c, existing, snap, p, wasMoved);
    if ok {
      if rewritten {
        index' := (index - {existing.document.key})[snap.key := Row(existing.id, db.documents[existing.id])];
        counts' := counts.(updated := counts.updated + 1);
      } else {
        counts' := counts.(same := counts.same + 1);
      }
      if wasMoved { counts' := counts'.(moved := counts'.moved + 1); }
      RefreshedProgress(p, c, existing, snap, wasMoved, db.View(), counts');
      JoinSource(db, c, existing.id);
      RefreshedIndex(index, p.lib, db.View(), existing, snap);
    }
  }

  /** One turn of the loop of `sync_elected_source`. */
  method SyncSnapshot(
    db: Database, c: Scan, snap: Snapshot, index: map<string, Row>, rows: map<DocumentId, Document>,
    seen: set<DocumentId>, counts: Counts, ghost p: Progress)
    returns (ok: bool, index': map<string, Row>, id: DocumentId, counts': Counts)
    requires db.View() == p.lib && seen == Seen(p) && counts == p.counts
    requires UniquePaths(p.lib) && KeyIndex(index, p.lib, c.project) && StillCurrent(rows, c, p)
    modifies db
    ensures ok <==> SyncOne(p, c, snap).Some?
    ensures ok ==> SyncOne(p, c, snap) == Some(Progress(db.View(), p.placed + [id], counts'))
    ensures ok ==> id in db.documents && index' == NextIndex(index, p.lib, db.View(), id, snap)
  {
    var existing, wasMoved := FindExisting(c, snap, index, rows, seen, p);
    if existing.None? {
      id := DocumentUuid(c.project, snap.key);
      ok, index', counts' := AddSnapshot(db, c, snap, index, counts, p);
    } else {
      id := existing.value.id;
      ok, index', counts' := RefreshSnapshot(db, c, existing.value, wasMoved, snap, index, counts, p);
    }
  }

  lemma SingleCandidate<T>(a: set<T>)
    requires |a| == 1
    ensures forall x, y :: x in a && y in a ==> x == y
  {
    forall x, y | x in a && y in a ensures x == y {
      SingleElement(a, x);
    }
  }

  lemma SyncRunStops(p: Progress, c: Scan, snaps: seq<Snapshot>, i: nat)
    requires i <= |snaps| && SyncRun(p, c, snaps[..i]).None?
    ensures SyncRun(p, c, snaps).None?
    decreases |snaps| - i
  {
    if i < |snaps| {
      assert snaps[..i + 1][..i] == snaps[..i];
      SyncRunStops(p, c, snaps, i + 1);
    } else {
      assert snaps[..i] == snaps;
    }
  }

  /** What the loop knows after its first `i` snapshots. */
  ghost predicate Loop(
    s: Library, c: Scan, snaps: seq<Snapshot>, i: nat, p: Progress, index: map<string, Row>,
    rows: map<DocumentId, Document>)
    requires i <= |snaps|
  {
    && SyncRun(Start(s), c, snaps[..i]) == Some(p)
    && Consistent(p.lib) && Invariant(s, c, snaps[..i], p)
    && KeyIndex(index, p.lib, c.project) && StillCurrent(rows, c, p)
  }

  ghost predicate Scanning(s: Library, c: Scan, snaps: seq<Snapshot>) {
    && MembershipsNameRows(s) && c.source in s.sources && c.project == s.sources[c.source].project
    && c.members == Members(s, c.source) && c.keys == Keys(snaps) && DistinctKeys(snaps)
  }

  lemma RowsStayCurrent(
    p: Progress, q: Progress, c: Scan, id: DocumentId, snap: Snapshot, rows: map<DocumentId, Document>)
    requires StillCurrent(rows, c, p) && Local(p, q, c, id, snap)
    ensures StillCurrent(rows, c, q)
  {
    forall d | d in rows && d !in q.placed ensures d in q.lib.documents && q.lib.documents[d] == rows[d] {
      assert d !in p.placed && SameDocument(p.lib, q.lib, d);
    }
  }

  lemma SamePlace(p: Progress, q: Progress, c: Scan, placed: DocumentId, id: DocumentId, snap: Snapshot)
    requires Local(p, q, c, placed, snap) && q.placed == p.placed + [id]
    ensures placed == id
  {
    assert q.placed[|p.placed|] == placed;
  }

  lemma TakeOneMore<T>(rows: seq<T>, i: nat)
    requires i < |rows|
    ensures rows[..i + 1] == rows[..i] + [rows[i]] && rows[..i + 1][..i] == rows[..i]
  {}

  lemma LoopAdvances(
    s: Library, c: Scan, snaps: seq<Snapshot>, i: nat, p: Progress, q: Progress, id: DocumentId,
    index: map<string, Row>, rows: map<DocumentId, Document>)
    requires i < |snaps| && Loop(s, c, snaps, i, p, index, rows) && Scanning(s, c, snaps)
    requires SyncOne(p, c, snaps[i]) == Some(q) && q.placed == p.placed + [id] && id in q.lib.documents
    ensures Loop(s, c, snaps, i + 1, q, NextIndex(index, p.lib, q.lib, id, snaps[i]), rows)
  {
    TakeOneMore(snaps, i);
    assert snaps[i].key in c.keys;
    MembersStay(s, c, snaps[..i], p);
    var placed := PlacingStep(s, c, snaps[..i], p, snaps[i]);
    SamePlace(p, q, c, placed, id, snaps[i]);
    IndexFollows(p, q, c, id, snaps[i], index);
    RowsStayCurrent(p, q, c, id, snaps[i], rows);
  }

  method ReadDocuments(db: Database, project: ProjectId) returns (index: map<string, Row>)
    requires UniquePaths(db.View())
    ensures KeyIndex(index, db.View(), project)
  {
    var rows := set d | d in db.documents && db.documents[d].project == project;
    index := map[];
    ghost var done: set<DocumentId> := {};
    while rows != {}
      invariant forall d :: d in db.documents && db.documents[d].project == project ==> d in rows || d in done
      invariant forall d :: d in rows || d in done ==> d in db.documents && db.documents[d].project == project
      invariant forall d :: d in done ==>
        db.documents[d].key in index && index[db.documents[d].key] == Row(d, db.documents[d])
      invariant forall k :: k in index ==>
        index[k].id in done && db.documents[index[k].id].key == k && index[k].document == db.documents[index[k].id]
      invariant rows !! done
      decreases rows
    {
      var d :| d in rows;
      assert forall e :: e in done ==>
        !SamePath(db.documents[e], db.documents[d].project, db.documents[d].key, db.documents[d].reference);
      index := index[db.documents[d].key := Row(d, db.documents[d])];
      rows, done := rows - {d}, done + {d};
    }
  }

  lemma LoopStarts(s: Library, c: Scan, snaps: seq<Snapshot>, index: map<string, Row>, rows: map<DocumentId, Document>)
    requires Consistent(s) && KeyIndex(index, s, c.project)
    requires rows.Keys == c.members && forall d :: d in rows ==> d in s.documents && s.documents[d] == rows[d]
    ensures Loop(s, c, snaps, 0, Start(s), index, rows)
  {
    var p := Start(s);
    assert p.lib.memberships + (set d | d in p.placed :: (c.source, d)) == s.memberships;
  }

  lemma SeenGrows(p: Progress, q: Progress, id: DocumentId)
    requires q.placed == p.placed + [id]
    ensures Seen(q) == Seen(p) + {id}
  {}

  lemma LoopFails(
    s: Library, c: Scan, snaps: seq<Snapshot>, i: nat, p: Progress, index: map<string, Row>,
    rows: map<DocumentId, Document>)
    requires i < |snaps| && Loop(s, c, snaps, i, p, index, rows) && SyncOne(p, c, snaps[i]).None?
    ensures SyncRun(Start(s), c, snaps).None?
  {
    assert snaps[..i + 1][..i] == snaps[..i];
    SyncRunStops(Start(s), c, snaps, i + 1);
  }

  method Turn(
    db: Database, c: Scan, snap: Snapshot, index: map<string, Row>, rows: map<DocumentId, Document>,
    seen: set<DocumentId>, counts: Counts, ghost s: Library, ghost snaps: seq<Snapshot>, ghost i: nat,
    ghost p: Progress)
    returns (ok: bool, index': map<string, Row>, seen': set<DocumentId>, counts': Counts, ghost q: Progress)
    requires i < |snaps| && snap == snaps[i] && Scanning(s, c, snaps) && Loop(s, c, snaps, i, p, index, rows)
    requires db.View() == p.lib && seen == Seen(p) && counts == p.counts
    modifies db
    ensures ok ==> Loop(s, c, snaps, i + 1, q, index', rows)
    ensures ok ==> db.View() == q.lib && seen' == Seen(q) && counts' == q.counts
    ensures !ok ==> SyncRun(Start(s), c, snaps).None?
  {
    var id;
    ok, index', id, counts' := SyncSnapshot(db, c, snap, index, rows, seen, counts, p);
    seen' := seen + {id};
    q := Progress(db.View(), p.placed + [id], counts');
    if ok {
      LoopAdvances(s, c, snaps, i, p, q, id, index, rows);
      SeenGrows(p, q, id);
    } else {
      LoopFails(s, c, snaps, i, p, index, rows);
    }
  }

  method SyncSnapshots(
    db: Database, c: Scan, snaps: seq<Snapshot>, index: map<string, Row>, rows: map<DocumentId, Document>)
    returns (ok: bool, seen: set<DocumentId>, counts: Counts, ghost p: Progress)
    requires Scanning(db.View(), c, snaps) && Loop(db.View(), c, snaps, 0, Start(db.View()), index, rows)
    modifies db
    ensures ok ==> SyncRun(Start(old(db.View())), c, snaps) == Some(p)
    ensures ok ==> db.View() == p.lib && seen == Seen(p) && counts == p.counts && p.lib.sources == old(db.sources)
    ensures !ok ==> SyncRun(Start(old(db.View())), c, snaps).None?
  {
    ghost var s := db.View();
    var at := index;
    seen, counts, p := {}, Counts(0, 0, 0, 0), Start(s);
    var i := 0;
    while i < |snaps|
      invariant 0 <= i <= |snaps|
      invariant Loop(s, c, snaps, i, p, at, rows)
      invariant db.View() == p.lib && seen == Seen(p) && counts == p.counts
    {
      ok, at, seen, counts, p := Turn(db, c, snaps[i], at, rows, seen, counts, s, snaps, i, p);
      if !ok { return; }
      i := i + 1;
    }
    ok := true;
    assert snaps[..i] == snaps;
  }

  /** `sync_elected_source`. */
  method SyncElectedSource(
    db: Database, source: SourceId, snaps: seq<Snapshot>, now: Instant)
    returns (outcome: SyncOutcome)
    requires Consistent(db.View())
    modifies db
    ensures (db.View(), outcome) == Sync(old(db.View()), source, snaps, now)
  {
    if source !in db.sources { return UnknownSource; }
    if |Keys(snaps)| != |snaps| { return DuplicatePaths; }
    var saved := db.View();
    var c := ScanOf(saved, source, snaps, now);
    DistinctFromCount(snaps);
    var index := ReadDocuments(db, c.project);
    forall d | d in c.members ensures d in db.documents { assert (source, d) in db.memberships; }
    var rows := map d | d in c.members :: db.documents[d];
    LoopStarts(saved, c, snaps, index, rows);
    var ok, seen, counts, p := SyncSnapshots(db, c, snaps, index, rows);
    if ok {
      var removed := FinishSync(db, c, seen, p);
      outcome := Synced(|snaps|, counts, removed);
    } else {
      db.Rollback(saved);
      outcome := IntegrityConflict;
    }
  }

  /** Stale memberships go, then the orphans they leave, then the source is stamped. */
  method FinishSync(db: Database, c: Scan, seen: set<DocumentId>, ghost p: Progress) returns (removed: nat)
    requires db.View() == p.lib && seen == Seen(p) && c.source in db.sources
    modifies db
    ensures db.View() == Finish(p, c) && removed == Removed(p, c)
  {
    var stale := c.members - seen;
    db.memberships := set m | m in db.memberships && !(m.0 == c.source && m.1 in stale);
    assert db.View() == Detached(p.lib, c.source, stale);
    removed := CleanupOrphanDocuments(db, stale);
    db.sources := db.sources[c.source := db.sources[c.source].(updatedAt := c.now, lastSyncedAt := Some(c.now))];
  }

  // ---------------------------------------------------------------- election

  /** `UNIQUE(project_id, local_source_key)`, the project reference, and derived ids. */
  ghost predicate SourcesSound(s: Library) {
    && (forall x :: x in s.sources ==> s.sources[x].project in s.projects && DerivedId(x, s.sources[x]))
    && (forall x, y :: x in s.sources && y in s.sources && x != y ==>
          s.sources[x].project != s.sources[y].project || s.sources[x].key != s.sources[y].key)
  }

  predicate DerivedId(x: SourceId, row: Source) {
    x.SourceUuid? ==> x == SourceUuid(row.project, row.kind, row.key)
  }

  lemma SourceAtIsUnique(s: Library, project: ProjectId, key: string, x: SourceId)
    requires SourcesSound(s) && x in s.sources && s.sources[x].project == project && s.sources[x].key == key
    ensures SourceAt(s, project, key) == Some(x)
  {}

  lemma ElectWritesOneRow(
    s: Library, project: ProjectId, kind: SourceKind, name: string, reference: string, key: string, now: Instant)
    requires SourcesSound(s)
    ensures var (t, e) := Elect(s, project, kind, name, reference, key, now);
      e.Elected? ==>
        && e.source in t.sources && t == s.(sources := s.sources[e.source := t.sources[e.source]])
        && t.sources[e.source].project == project && t.sources[e.source].key == key && t.sources[e.source].kind == kind
        && (e.source in s.sources ==> s.sources[e.source].project == project)
        && project in t.projects && DerivedId(e.source, t.sources[e.source])
        && (forall y :: y in s.sources && y != e.source ==> s.sources[y].project != project || s.sources[y].key != key)
  {
    forall y | y in s.sources && s.sources[y].project == project && s.sources[y].key == key
      ensures SourceAt(s, project, key) == Some(y) {
      SourceAtIsUnique(s, project, key, y);
    }
    forall x | x in s.sources ensures DerivedId(x, s.sources[x]) {}
  }

  /** Electing a path names one source per project and path and touches no other source. */
  lemma ElectTouchesOneSource(
    s: Library, project: ProjectId, kind: SourceKind, name: string, reference: string, key: string, now: Instant)
    requires SourcesSound(s)
    ensures var (t, e) := Elect(s, project, kind, name, reference, key, now);
      && SourcesSound(t) && t == s.(sources := t.sources)
      && (if e.Elected? then
            && t.sources.Keys == s.sources.Keys + {e.source}
            && t.sources[e.source].project == project && t.sources[e.source].key == key
               && t.sources[e.source].kind == kind
            && (e.source in s.sources ==> s.sources[e.source].project == project)
            && (forall x :: x in s.sources && x != e.source ==> t.sources[x] == s.sources[x])
          else t == s)
  {
    var (t, e) := Elect(s, project, kind, name, reference, key, now);
    ElectWritesOneRow(s, project, kind, name, reference, key, now);
    if e.Elected? {
      SourcesStaySound(s, t, e.source);
    }
  }

  lemma SourcesStaySound(s: Library, t: Library, x: SourceId)
    requires SourcesSound(s) && x in t.sources && t == s.(sources := s.sources[x := t.sources[x]])
    requires t.sources[x].project in t.projects && DerivedId(x, t.sources[x])
    requires forall y :: y in s.sources && y != x ==>
      s.sources[y].project != t.sources[x].project || s.sources[y].key != t.sources[x].key
    ensures SourcesSound(t)
  {}

  lemma ElectIsConsistent(
    s: Library, project: ProjectId, kind: SourceKind, name: string, reference: string, key: string, now: Instant)
    requires Consistent(s) && SourcesSound(s)
    ensures Consistent(Elect(s, project, kind, name, reference, key, now).0)
  {
    ElectTouchesOneSource(s, project, kind, name, reference, key, now);
    SourceRowsChange(s, Elect(s, project, kind, name, reference, key, now).0);
  }

  /** A file source is elected at a regular text or markdown file, a directory source at a
      directory. */
  predicate FitsTheKind(kind: SourceKind, found: Found) {
    match kind
    case FileSource => found == RegularFile(true)
    case DirectorySource => found == Directory
  }

  /** Election is refused exactly for a path that is not what the kind needs, for an unknown
      project, or for a path already elected as the other kind. */
  lemma ElectIsRefusedIff(
    s: Library, project: ProjectId, kind: SourceKind, found: Found, name: string, reference: string, key: string,
    now: Instant)
    requires SourcesSound(s)
    ensures var e := ElectFound(s, project, kind, found, name, reference, key, now).1;
      && (e.Unsuitable? <==> !FitsTheKind(kind, found))
      && (e.UnknownProject? <==> FitsTheKind(kind, found) && project !in s.projects)
      && (e.KindConflict? <==>
         FitsTheKind(kind, found) && project in s.projects && ElectedOtherwise(s, project, kind, key))
  {
    if ElectedOtherwise(s, project, kind, key) {
      var x :| x in s.sources && s.sources[x].project == project && s.sources[x].key == key
        && s.sources[x].kind != kind;
      SourceAtIsUnique(s, project, key, x);
    }
  }

  /** Electing again gives the source of the path its new name and reference and keeps when it
      was created and synced; a new source has the id of its path and was never synced. */
  lemma ElectedColumns(
    s: Library, project: ProjectId, kind: SourceKind, name: string, reference: string, key: string, now: Instant)
    requires SourcesSound(s) && Elect(s, project, kind, name, reference, key, now).1.Elected?
    ensures var (t, e) := Elect(s, project, kind, name, reference, key, now);
      && e.source in t.sources
      && (if x :| x in s.sources && s.sources[x].project == project && s.sources[x].key == key then
            e.source == x && t.sources[x] ==
              Source(project, kind, name, reference, key, s.sources[x].createdAt, now, s.sources[x].lastSyncedAt)
          else
            e.source == SourceUuid(project, kind, key)
            && t.sources[e.source] == Source(project, kind, name, reference, key, now, now, None))
  {
    if x :| x in s.sources && s.sources[x].project == project && s.sources[x].key == key {
      SourceAtIsUnique(s, project, key, x);
    }
  }

  ghost predicate ElectedOtherwise(s: Library, project: ProjectId, kind: SourceKind, key: string) {
    exists x ::
      x in s.sources && s.sources[x].project == project && s.sources[x].key == key && s.sources[x].kind != kind
  }

  /** `_elect_source`. */
  method ElectSource(
    db: Database, project: ProjectId, kind: SourceKind, found: Found, name: string, reference: string, key: string,
    now: Instant)
    returns (e: Election)
    requires SourcesSound(db.View())
    modifies db`sources
    ensures (db.View(), e) == ElectFound(old(db.View()), project, kind, found, name, reference, key, now)
  {
    if kind == FileSource && !found.RegularFile? { return Unsuitable; }
    if kind == DirectorySource && !found.Directory? { return Unsuitable; }
    if kind == FileSource && !found.supportedSuffix { return Unsuitable; }
    if project !in db.projects { return UnknownProject; }
    var at := set x | x in db.sources && db.sources[x].project == project && db.sources[x].key == key;
    if at != {} {
      var x :| x in at;
      SourceAtIsUnique(db.View(), project, key, x);
      if db.sources[x].kind != kind { return KindConflict; }
      db.sources := db.sources[x := db.sources[x].(displayName := name, reference := reference, updatedAt := now)];
      e := Elected(x);
    } else {
      assert SourceAt(db.View(), project, key).None? by {
        assert forall x :: x in db.sources && db.sources[x].project == project && db.sources[x].key == key ==> x in at;
      }
      var x := SourceUuid(project, kind, key);
      db.sources := db.sources[x := Source(project, kind, name, reference, key, now, now, None)];
      e := Elected(x);
    }
  }

  // ---------------------------------------------------------------- revocation

  lemma UnelectAsCleanup(s: Library, source: SourceId)
    requires source in s.sources
    ensures var detached := Detached(s, source, Members(s, source));
      Unelect(s, source).0 ==
      DropDocuments(detached, Orphans(detached, Members(s, source))).(sources := s.sources - {source})
  {
    var stale := Members(s, source);
    forall m | m in s.memberships ensures m.0 == source ==> m.1 in stale {}
    var detached := Detached(s, source, stale);
    assert detached.memberships == set m | m in s.memberships && m.0 != source;
  }

  lemma DroppingASource(s: Library, source: SourceId, t: Library)
    requires Consistent(s) && (forall m :: m in s.memberships ==> m.0 != source)
    requires t == s.(sources := s.sources - {source})
    ensures Consistent(t)
  {
    forall d | d in t.documents ensures HasMembership(t, d) && HistoryPrecedes(t, d) {
      assert HasMembership(s, d) && HistoryPrecedes(s, d);
      var x :| (x, d) in s.memberships;
      assert (x, d) in t.memberships;
    }
    assert UniquePaths(t);
  }

  lemma DroppingKeepsEachRow(s: Library, gone: set<DocumentId>, t: Library)
    requires t.documents == DropDocuments(s, gone).documents && t.history == DropDocuments(s, gone).history
    ensures forall d :: d in t.documents ==>
      d in s.documents && t.documents[d] == s.documents[d] && HistoryOf(t, d) == HistoryOf(s, d)
  {}

  lemma DroppingKeepsRows(s: Library, gone: set<DocumentId>, t: Library)
    requires t.documents == DropDocuments(s, gone).documents && t.history == DropDocuments(s, gone).history
    requires t.lexical == DropDocuments(s, gone).lexical
    requires t.projects == s.projects && t.chats == s.chats && t.messages == s.messages
    ensures OthersSame(s, t)
    ensures RowsAgree(s) ==> RowsAgree(t)
    ensures DocumentsIndexed(s) ==> DocumentsIndexed(t)
    ensures Windowed(s) ==> Windowed(t)
  {
    if RowsAgree(s) {
      forall d | ElectedDocument(d) in t.lexical ensures d in t.documents && Indexed(t, d) { assert Indexed(s, d); }
    }
    if DocumentsIndexed(s) {
      forall d | d in t.documents ensures ElectedDocument(d) in t.lexical && Indexed(t, d) { assert Indexed(s, d); }
    }
    if Windowed(s) {
      forall d | d in t.documents ensures WellArchived(t, d) {
        assert WellArchived(s, d) && HistoryOf(t, d) == HistoryOf(s, d);
      }
    }
  }

  /** Revoking a source removes exactly the documents no other source has, with their index
      rows and archives, and keeps everything else. */
  lemma UnelectIsExact(s: Library, source: SourceId)
    requires Consistent(s) && source in s.sources
    ensures var t := Unelect(s, source).0;
      && Consistent(t) && OthersSame(s, t) && t.sources == s.sources - {source}
      && (forall d :: d in t.documents <==> exists x :: x != source && (x, d) in s.memberships)
      && (forall d :: d in t.documents ==>
         d in s.documents && t.documents[d] == s.documents[d] && HistoryOf(t, d) == HistoryOf(s, d))
      && (RowsAgree(s) ==> RowsAgree(t)) && (DocumentsIndexed(s) ==> DocumentsIndexed(t)) && (Windowed(s) ==>
         Windowed(t))
  {
    var stale := Members(s, source);
    var detached := Detached(s, source, stale);
    var gone := Orphans(detached, stale);
    var cleaned := DropDocuments(detached, gone);
    var t := Unelect(s, source).0;
    UnelectAsCleanup(s, source);
    CleanupIsConsistent(s, source, stale);
    forall m | m in cleaned.memberships ensures m.0 != source {
      assert m.0 == source ==> m.1 in stale;
    }
    DroppingASource(cleaned, source, t);
    DroppingKeepsRows(s, gone, t);
    DroppingKeepsEachRow(s, gone, t);
    forall d ensures d in t.documents <==> exists x :: x != source && (x, d) in s.memberships {
      SurvivorsHaveAnotherSource(s, source, t, d);
    }
  }

  lemma SurvivorsHaveAnotherSource(s: Library, source: SourceId, t: Library, d: DocumentId)
    requires Consistent(s) && source in s.sources && t == Unelect(s, source).0 && Consistent(t)
    requires t.memberships == Detached(s, source, Members(s, source)).memberships
    ensures d in t.documents <==> exists x :: x != source && (x, d) in s.memberships
  {
    if d in t.documents {
      assert HasMembership(t, d);
      var x :| (x, d) in t.memberships;
      assert (x, d) in s.memberships;
      assert x == source ==> d in Members(s, source);
    }
    if x :| x != source && (x, d) in s.memberships {
      assert (x, d) in t.memberships;
    }
  }

  /** `unelect_source`. */
  method UnelectSource(db: Database, source: SourceId) returns (deleted: bool)
    modifies db
    ensures (db.View(), deleted) == Unelect(old(db.View()), source)
  {
    var candidates := Members(db.View(), source);
    if source !in db.sources { return false; }
    db.sources := db.sources - {source};
    db.memberships := set m | m in db.memberships && m.0 != source;
    var _ := CleanupOrphanDocuments(db, candidates);
    deleted := true;
  }
}
