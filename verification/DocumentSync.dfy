/** What a synchronisation of an elected source guarantees. */
module DocumentSync {
  import opened Schema
  import opened LexicalIndexer
  import opened DocumentRegistry

  /** The document row carries everything the snapshot says. */
  predicate Matches(d: Document, project: ProjectId, snap: Snapshot) {
    && d.project == project
    && d.displayName == snap.displayName && d.documentType == snap.documentType
    && d.reference == snap.reference && d.key == snap.key
    && d.fileSize == Some(snap.fileSize) && d.modifiedTimeNs == Some(snap.modifiedTimeNs)
    && d.identity == snap.identity
    && d.digest == Some(Sha256(snap.content)) && d.content == snap.content
  }

  predicate DistinctKeys(snaps: seq<Snapshot>) {
    forall i, j :: 0 <= i < j < |snaps| ==> snaps[i].key != snaps[j].key
  }

  /** The parts of the library a sync has no business with. */
  ghost predicate OthersSame(s: Library, t: Library) {
    && t.projects == s.projects && t.chats == s.chats && t.messages == s.messages
    && (forall m {:trigger ChatHistory(m)} :: (ChatHistory(m) in t.lexical <==> ChatHistory(m) in s.lexical)
          && (ChatHistory(m) in s.lexical ==> t.lexical[ChatHistory(m)] == s.lexical[ChatHistory(m)]))
  }

  ghost predicate SameDocument(s: Library, t: Library, d: DocumentId)
    requires d in s.documents
  {
    && d in t.documents && t.documents[d] == s.documents[d]
    && HistoryOf(t, d) == HistoryOf(s, d)
    && (ElectedDocument(d) in t.lexical <==> ElectedDocument(d) in s.lexical)
    && (ElectedDocument(d) in s.lexical ==> t.lexical[ElectedDocument(d)] == s.lexical[ElectedDocument(d)])
  }

  /** The loop invariant: the first `|snaps|` snapshots are placed on distinct documents,
      every other document is as it was. */
  ghost predicate Invariant(s: Library, c: Scan, snaps: seq<Snapshot>, p: Progress) {
    && |p.placed| == |snaps|
    && (forall i :: 0 <= i < |snaps| ==>
          p.placed[i] in p.lib.documents && Matches(p.lib.documents[p.placed[i]], c.project, snaps[i]))
    && (forall d :: d in s.documents ==> d in p.lib.documents)
    && (forall d :: d in p.lib.documents && d !in p.placed ==> d in s.documents && SameDocument(s, p.lib, d))
    && p.lib.memberships == s.memberships + (set d | d in p.placed :: (c.source, d))
    && p.lib.sources == s.sources
    && p.counts.added + p.counts.updated + p.counts.same == |snaps|
    && p.counts.moved <= p.counts.updated
  }

  // ---------------------------------------------------------------- one step

  /** A step touches one document, which ends up matching the snapshot. */
  ghost predicate Local(p: Progress, q: Progress, c: Scan, id: DocumentId, snap: Snapshot) {
    && q.placed == p.placed + [id]
    && q.lib.documents.Keys == p.lib.documents.Keys + {id}
    && Matches(q.lib.documents[id], c.project, snap)
    && (forall d :: d in p.lib.documents && d != id ==> SameDocument(p.lib, q.lib, d))
    && q.lib.memberships == p.lib.memberships + {(c.source, id)}
    && q.lib.sources == p.lib.sources
    && q.counts.added + q.counts.updated + q.counts.same == p.counts.added + p.counts.updated + p.counts.same + 1
  }

  lemma LocalKeepsUniquePaths(p: Progress, q: Progress, c: Scan, id: DocumentId, snap: Snapshot)
    requires UniquePaths(p.lib) && Local(p, q, c, id, snap)
    requires id in p.lib.documents ==> p.lib.documents[id].project == c.project
    requires (id in p.lib.documents && !MetadataChanged(p.lib.documents[id], snap))
      || !PathTaken(p.lib, id, c.project, snap)
    ensures UniquePaths(q.lib)
  {
    forall d, e | d in q.lib.documents && e in q.lib.documents && d != e
      ensures !SamePath(q.lib.documents[d], q.lib.documents[e].project, q.lib.documents[e].key,
        q.lib.documents[e].reference)
    {
      assert d != id ==> SameDocument(p.lib, q.lib, d);
      assert e != id ==> SameDocument(p.lib, q.lib, e);
      if d == id && id in p.lib.documents {
        assert !SamePath(p.lib.documents[e], p.lib.documents[d].project, p.lib.documents[d].key,
          p.lib.documents[d].reference);
      }
    }
  }

  lemma LocalKeepsMemberships(p: Progress, q: Progress, c: Scan, id: DocumentId, snap: Snapshot)
    requires MembershipsNameRows(p.lib) && Local(p, q, c, id, snap)
    requires forall d :: d in p.lib.documents ==> HasMembership(p.lib, d)
    requires c.source in p.lib.sources && c.project == p.lib.sources[c.source].project
    requires id in p.lib.documents ==> p.lib.documents[id].project == c.project
    ensures MembershipsNameRows(q.lib)
    ensures forall d :: d in q.lib.documents ==> HasMembership(q.lib, d)
  {
    forall m | m in q.lib.memberships
      ensures m.0 in q.lib.sources && m.1 in q.lib.documents
        && q.lib.documents[m.1].project == q.lib.sources[m.0].project
    {
      if m.1 != id { assert SameDocument(p.lib, q.lib, m.1); }
    }
    forall d | d in q.lib.documents ensures HasMembership(q.lib, d) {
      if d == id {
        assert (c.source, d) in q.lib.memberships;
      } else {
        var x :| (x, d) in p.lib.memberships;
        assert (x, d) in q.lib.memberships;
      }
    }
  }

  lemma LocalKeepsRows(p: Progress, q: Progress, c: Scan, id: DocumentId, snap: Snapshot)
    requires RowsSound(p.lib) && Local(p, q, c, id, snap)
    requires q.lib.history.Keys == p.lib.history.Keys + {id} && HistoryPrecedes(q.lib, id)
    ensures RowsSound(q.lib)
  {
    forall d | d in q.lib.documents ensures DigestMatches(q.lib.documents[d]) && HistoryPrecedes(q.lib, d) {
      if d != id { assert SameDocument(p.lib, q.lib, d) && HistoryPrecedes(p.lib, d); }
    }
  }

  lemma RefreshIsLocal(p: Progress, c: Scan, id: DocumentId, snap: Snapshot, moved: bool)
    requires RowsSound(p.lib) && id in p.lib.documents && p.lib.documents[id].project == c.project
    requires Refresh(p, c, id, snap, moved).Some?
    ensures Local(p, Refresh(p, c, id, snap, moved).value, c, id, snap)
  {
    var q := Refresh(p, c, id, snap, moved).value;
    assert DigestMatches(p.lib.documents[id]);
    assert Matches(q.lib.documents[id], c.project, snap);
    forall d | d in p.lib.documents && d != id ensures SameDocument(p.lib, q.lib, d) {}
  }

  lemma RefreshIsConsistent(p: Progress, c: Scan, id: DocumentId, snap: Snapshot, moved: bool)
    requires Consistent(p.lib) && id in p.lib.documents && p.lib.documents[id].project == c.project
    requires Refresh(p, c, id, snap, moved).Some?
    requires c.source in p.lib.sources && c.project == p.lib.sources[c.source].project
    ensures Consistent(Refresh(p, c, id, snap, moved).value.lib)
  {
    var q := Refresh(p, c, id, snap, moved).value;
    RefreshIsLocal(p, c, id, snap, moved);
    assert HistoryPrecedes(p.lib, id);
    LocalKeepsRows(p, q, c, id, snap);
    LocalKeepsMemberships(p, q, c, id, snap);
    LocalKeepsUniquePaths(p, q, c, id, snap);
  }

  lemma AddPlacesTheRow(p: Progress, c: Scan, snap: Snapshot)
    requires RowsSound(p.lib) && Add(p, c, snap).Some?
    ensures Local(p, Add(p, c, snap).value, c, DocumentUuid(c.project, snap.key), snap)
    ensures Add(p, c, snap).value.lib.history.Keys == p.lib.history.Keys + {DocumentUuid(c.project, snap.key)}
    ensures HistoryPrecedes(Add(p, c, snap).value.lib, DocumentUuid(c.project, snap.key))
  {}

  lemma AddIsLocal(p: Progress, c: Scan, snap: Snapshot)
    requires Consistent(p.lib) && Add(p, c, snap).Some?
    requires c.source in p.lib.sources && c.project == p.lib.sources[c.source].project
    ensures Local(p, Add(p, c, snap).value, c, DocumentUuid(c.project, snap.key), snap)
    ensures Consistent(Add(p, c, snap).value.lib)
  {
    var q, id := Add(p, c, snap).value, DocumentUuid(c.project, snap.key);
    AddPlacesTheRow(p, c, snap);
    LocalKeepsRows(p, q, c, id, snap);
    LocalKeepsMemberships(p, q, c, id, snap);
    LocalKeepsUniquePaths(p, q, c, id, snap);
  }

  lemma StepIsLocal(p: Progress, c: Scan, snap: Snapshot) returns (id: DocumentId)
    requires Consistent(p.lib) && SyncOne(p, c, snap).Some?
    requires c.members <= Members(p.lib, c.source)
    requires c.source in p.lib.sources && c.project == p.lib.sources[c.source].project
    ensures var f := FateOf(p.lib, c, Seen(p), snap);
      id == if f.AddNew? then DocumentUuid(c.project, snap.key) else f.id
    ensures Local(p, SyncOne(p, c, snap).value, c, id, snap)
    ensures Consistent(SyncOne(p, c, snap).value.lib)
    ensures id in p.lib.documents ==> p.lib.documents[id].project == c.project
    ensures id in p.lib.documents && !ContentChanged(p.lib.documents[id], snap)
            && !MetadataChanged(p.lib.documents[id], snap) ==>
              SyncOne(p, c, snap).value.lib.documents[id] == p.lib.documents[id]
  {
    match FateOf(p.lib, c, Seen(p), snap) {
      case AddNew =>
        id := DocumentUuid(c.project, snap.key);
        AddIsLocal(p, c, snap);
      case Keep(d) =>
        id := d;
        RefreshIsLocal(p, c, id, snap, false);
        RefreshIsConsistent(p, c, id, snap, false);
      case Move(d) =>
        id := d;
        assert (c.source, id) in p.lib.memberships;
        RefreshIsLocal(p, c, id, snap, true);
        RefreshIsConsistent(p, c, id, snap, true);
    }
  }

  lemma PairsOfMore(source: SourceId, placed: seq<DocumentId>, id: DocumentId)
    ensures (set d | d in placed + [id] :: (source, d)) == (set d | d in placed :: (source, d)) + {(source, id)}
  {}

  lemma LocalKeepsInvariant(
    s: Library, c: Scan, snaps: seq<Snapshot>, p: Progress, q: Progress, id: DocumentId, snap: Snapshot)
    requires Invariant(s, c, snaps, p) && Local(p, q, c, id, snap)
    requires id !in p.placed
    requires q.counts.moved <= q.counts.updated
    ensures Invariant(s, c, snaps + [snap], q)
  {
    PairsOfMore(c.source, p.placed, id);
    forall i | 0 <= i < |snaps + [snap]|
      ensures q.placed[i] in q.lib.documents && Matches(q.lib.documents[q.placed[i]], c.project, (snaps + [snap])[i])
    {
      if i < |snaps| {
        assert q.placed[i] == p.placed[i];
        assert SameDocument(p.lib, q.lib, p.placed[i]);
      }
    }
    forall d | d in q.lib.documents && d !in q.placed ensures d in s.documents && SameDocument(s, q.lib, d) {
      assert d !in p.placed && d != id;
      assert SameDocument(s, p.lib, d) && SameDocument(p.lib, q.lib, d);
    }
  }

  lemma FreshTarget(s: Library, c: Scan, snaps: seq<Snapshot>, p: Progress, snap: Snapshot)
    requires Invariant(s, c, snaps, p)
    requires forall i :: 0 <= i < |snaps| ==> snaps[i].key != snap.key
    requires SyncOne(p, c, snap).Some?
    ensures match FateOf(p.lib, c, Seen(p), snap)
            case AddNew => DocumentUuid(c.project, snap.key) !in p.placed
            case Keep(id) => id !in p.placed
            case Move(id) => id !in p.placed
  {
    forall d | d in p.placed ensures d in p.lib.documents && p.lib.documents[d].key != snap.key {
      var i :| 0 <= i < |snaps| && p.placed[i] == d;
      assert Matches(p.lib.documents[d], c.project, snaps[i]);
    }
  }

  /** A moved document is rewritten, because its path changed. */
  lemma MoveRewrites(p: Progress, c: Scan, snap: Snapshot)
    requires p.counts.moved <= p.counts.updated && snap.key in c.keys
    requires SyncOne(p, c, snap).Some?
    ensures SyncOne(p, c, snap).value.counts.moved <= SyncOne(p, c, snap).value.counts.updated
  {}

  lemma PlacingStep(s: Library, c: Scan, snaps: seq<Snapshot>, p: Progress, snap: Snapshot) returns (id: DocumentId)
    requires Consistent(p.lib) && Invariant(s, c, snaps, p)
    requires c.source in s.sources && c.project == s.sources[c.source].project
    requires c.members <= Members(s, c.source) && snap.key in c.keys
    requires forall i :: 0 <= i < |snaps| ==> snaps[i].key != snap.key
    requires SyncOne(p, c, snap).Some?
    ensures Consistent(SyncOne(p, c, snap).value.lib)
    ensures Invariant(s, c, snaps + [snap], SyncOne(p, c, snap).value)
    ensures Local(p, SyncOne(p, c, snap).value, c, id, snap)
    ensures id in p.lib.documents ==> p.lib.documents[id].project == c.project
    ensures id in p.lib.documents && !ContentChanged(p.lib.documents[id], snap)
            && !MetadataChanged(p.lib.documents[id], snap) ==>
              SyncOne(p, c, snap).value.lib.documents[id] == p.lib.documents[id]
  {
    FreshTarget(s, c, snaps, p, snap);
    MoveRewrites(p, c, snap);
    forall d | d in c.members ensures d in Members(p.lib, c.source) {
      assert (c.source, d) in p.lib.memberships;
    }
    id := StepIsLocal(p, c, snap);
    LocalKeepsInvariant(s, c, snaps, p, SyncOne(p, c, snap).value, id, snap);
  }

  lemma OneStep(s: Library, c: Scan, snaps: seq<Snapshot>, p: Progress, snap: Snapshot)
    requires Consistent(p.lib) && Invariant(s, c, snaps, p)
    requires c.source in s.sources && c.project == s.sources[c.source].project
    requires c.members <= Members(s, c.source) && snap.key in c.keys
    requires forall i :: 0 <= i < |snaps| ==> snaps[i].key != snap.key
    requires SyncOne(p, c, snap).Some?
    ensures Consistent(SyncOne(p, c, snap).value.lib)
    ensures Invariant(s, c, snaps + [snap], SyncOne(p, c, snap).value)
  {
    var _ := PlacingStep(s, c, snaps, p, snap);
  }

  lemma {:induction false} WholeRun(s: Library, c: Scan, snaps: seq<Snapshot>)
    requires Consistent(s) && c.source in s.sources && c.project == s.sources[c.source].project
    requires c.members <= Members(s, c.source) && Keys(snaps) <= c.keys && DistinctKeys(snaps)
    requires SyncRun(Start(s), c, snaps).Some?
    ensures Consistent(SyncRun(Start(s), c, snaps).value.lib)
    ensures Invariant(s, c, snaps, SyncRun(Start(s), c, snaps).value)
  {
    if snaps == [] {
    } else {
      var front, last := snaps[..|snaps| - 1], snaps[|snaps| - 1];
      assert snaps == front + [last];
      WholeRun(s, c, front);
      var p := SyncRun(Start(s), c, front).value;
      assert SyncRun(Start(s), c, snaps) == SyncOne(p, c, last);
      OneStep(s, c, front, p, last);
    }
  }

  // ---------------------------------------------------------------- the end of a sync

  lemma CleanupIsConsistent(s: Library, source: SourceId, stale: set<DocumentId>)
    requires Consistent(s)
    ensures var detached := Detached(s, source, stale);
            Consistent(DropDocuments(detached, Orphans(detached, stale)))
    ensures var detached := Detached(s, source, stale);
            DropDocuments(detached, Orphans(detached, stale)).memberships == detached.memberships
  {
    var detached := Detached(s, source, stale);
    var gone := Orphans(detached, stale);
    var t := DropDocuments(detached, gone);
    forall m | m in detached.memberships ensures m.1 !in gone {}
    assert t.memberships == detached.memberships;
    forall d | d in t.documents ensures HasMembership(t, d) && HistoryPrecedes(t, d) {
      assert HistoryPrecedes(s, d);
      if d in stale {
        assert d in (set m | m in detached.memberships :: m.1);
        var m :| m in detached.memberships && m.1 == d;
        assert (m.0, d) in t.memberships;
      } else {
        var x :| (x, d) in s.memberships;
        assert (x, d) in t.memberships;
      }
    }
  }

  /** Rewriting or adding source rows without moving one to another project. */
  lemma SourceRowsChange(s: Library, t: Library)
    requires Consistent(s) && t == s.(sources := t.sources)
    requires forall x :: x in s.sources ==> x in t.sources && t.sources[x].project == s.sources[x].project
    ensures Consistent(t)
  {
    forall d | d in t.documents ensures HasMembership(t, d) && HistoryPrecedes(t, d) {
      assert HasMembership(s, d) && HistoryPrecedes(s, d);
      var x :| (x, d) in s.memberships;
      assert (x, d) in t.memberships;
    }
    assert UniquePaths(t);
  }

  predicate Carries(t: Library, source: SourceId, project: ProjectId, d: DocumentId, snap: Snapshot) {
    (source, d) in t.memberships && d in t.documents && Matches(t.documents[d], project, snap)
  }

  ghost predicate Carried(t: Library, source: SourceId, project: ProjectId, snap: Snapshot) {
    exists d :: Carries(t, source, project, d, snap)
  }

  ghost predicate Explained(t: Library, project: ProjectId, d: DocumentId, snaps: seq<Snapshot>) {
    d in t.documents && exists i :: 0 <= i < |snaps| && Matches(t.documents[d], project, snaps[i])
  }

  /** The documents of the source are the snapshots: each document carries one of them, each
      snapshot is carried by one. */
  ghost predicate Mirrors(t: Library, source: SourceId, project: ProjectId, snaps: seq<Snapshot>) {
    && (forall d :: (source, d) in t.memberships ==> Explained(t, project, d, snaps))
    && (forall i :: 0 <= i < |snaps| ==> Carried(t, source, project, snaps[i]))
  }

  lemma DistinctFromCount(snaps: seq<Snapshot>)
    requires |Keys(snaps)| == |snaps|
    ensures DistinctKeys(snaps)
  {
    if snaps != [] {
      var front := snaps[..|snaps| - 1];
      var last := snaps[|snaps| - 1];
      assert Keys(snaps) == Keys(front) + {last.key};
      KeysAtMost(front);
      DistinctFromCount(front);
      forall i, j | 0 <= i < j < |snaps| ensures snaps[i].key != snaps[j].key {
        assert i < |front| && front[i] == snaps[i];
        assert front[i].key in Keys(front);
      }
    }
  }

  lemma KeysAtMost(snaps: seq<Snapshot>)
    ensures |Keys(snaps)| <= |snaps|
  {
    if snaps != [] {
      var front := snaps[..|snaps| - 1];
      KeysAtMost(front);
      assert Keys(snaps) == Keys(front) + {snaps[|snaps| - 1].key};
    }
  }

  lemma Committed(s: Library, source: SourceId, snaps: seq<Snapshot>, now: Instant) returns (c: Scan, p: Progress)
    requires Consistent(s) && Sync(s, source, snaps, now).1.Synced?
    ensures source in s.sources && c == ScanOf(s, source, snaps, now) && DistinctKeys(snaps)
    ensures SyncRun(Start(s), c, snaps) == Some(p) && Sync(s, source, snaps, now).0 == Finish(p, c)
    ensures Consistent(p.lib) && Invariant(s, c, snaps, p)
  {
    c := ScanOf(s, source, snaps, now);
    p := SyncRun(Start(s), c, snaps).value;
    DistinctFromCount(snaps);
    WholeRun(s, c, snaps);
  }

  lemma FinishFacts(p: Progress, c: Scan)
    requires Consistent(p.lib) && c.source in p.lib.sources
    ensures var t := Finish(p, c);
      && Consistent(t) && c.source in t.sources
      && t.memberships == Detached(p.lib, c.source, c.members - Seen(p)).memberships
      && (forall d :: d in t.documents ==> d in p.lib.documents && t.documents[d] == p.lib.documents[d])
  {
    var t := Finish(p, c);
    var stale := c.members - Seen(p);
    CleanupIsConsistent(p.lib, c.source, stale);
    var detached := Detached(p.lib, c.source, stale);
    var cleaned := DropDocuments(detached, Orphans(detached, stale));
    SourceRowsChange(cleaned, t);
  }

  lemma FinishMemberships(s: Library, c: Scan, snaps: seq<Snapshot>, p: Progress)
    requires Consistent(p.lib) && c.source in s.sources && Invariant(s, c, snaps, p)
    requires c.members == Members(s, c.source)
    ensures Members(Finish(p, c), c.source) == Seen(p)
    ensures forall x :: x != c.source ==> Members(Finish(p, c), x) == Members(s, x)
  {
    FinishFacts(p, c);
    var t := Finish(p, c);
    forall x, d ensures (x, d) in t.memberships <==>
      (if x == c.source then d in p.placed else (x, d) in s.memberships) {
      assert (x, d) in s.memberships && x == c.source ==> d in Members(s, c.source);
    }
    forall x, d ensures d in Members(t, x) <==> (if x == c.source then d in p.placed else d in Members(s, x)) {
      assert d in Members(t, x) <==> (x, d) in t.memberships;
      assert d in Members(s, x) <==> (x, d) in s.memberships;
    }
  }

  lemma MirrorsFrom(
    t: Library, source: SourceId, project: ProjectId, snaps: seq<Snapshot>, lib: Library, placed: seq<DocumentId>)
    requires |placed| == |snaps| && Members(t, source) == (set d | d in placed)
    requires forall i :: 0 <= i < |snaps| ==>
      placed[i] in lib.documents && Matches(lib.documents[placed[i]], project, snaps[i])
    requires MembershipsNameRows(t)
    requires forall d :: d in t.documents ==> d in lib.documents && t.documents[d] == lib.documents[d]
    ensures Mirrors(t, source, project, snaps)
  {
    forall d | (source, d) in t.memberships
      ensures Explained(t, project, d, snaps)
    {
      assert d in Members(t, source);
      var i :| 0 <= i < |snaps| && placed[i] == d;
    }
    forall i | 0 <= i < |snaps|
      ensures Carried(t, source, project, snaps[i])
    {
      assert placed[i] in Members(t, source);
      assert Carries(t, source, project, placed[i], snaps[i]);
    }
  }

  /** After a committed sync the source's documents are exactly the snapshots, every count
      is accounted for, no two documents of a project share a path, no document is without a
      source, and the other sources keep their documents. */
  lemma SyncMirrorsTheSource(s: Library, source: SourceId, snaps: seq<Snapshot>, now: Instant)
    requires Consistent(s) && Sync(s, source, snaps, now).1.Synced?
    ensures var (t, o) := Sync(s, source, snaps, now);
      && Consistent(t) && source in t.sources
      && Mirrors(t, source, s.sources[source].project, snaps)
      && o.scanned == |snaps| == o.counts.added + o.counts.updated + o.counts.same
      && o.counts.moved <= o.counts.updated
      && (forall x :: x != source ==> Members(t, x) == Members(s, x))
  {
    var c, p := Committed(s, source, snaps, now);
    FinishFacts(p, c);
    FinishMemberships(s, c, snaps, p);
    MirrorsFrom(Finish(p, c), source, c.project, snaps, p.lib, p.placed);
  }

  // ---------------------------------------------------------------- the lexical projection

  /** Index rows that exist agree with their document, and no row is without one. */
  ghost predicate RowsAgree(s: Library) {
    forall d :: ElectedDocument(d) in s.lexical ==> d in s.documents && Indexed(s, d)
  }

  /** How one step may change the index: it writes at most the row of the document it
      places, and leaves that row agreeing. */
  ghost predicate IndexStep(s: Library, t: Library, id: DocumentId) {
    && t.lexical.Keys == s.lexical.Keys + {ElectedDocument(id)}
    && (forall k :: k in s.lexical && k != ElectedDocument(id) ==> t.lexical[k] == s.lexical[k])
    && id in t.documents && Indexed(t, id)
    && t.projects == s.projects && t.chats == s.chats && t.messages == s.messages
    && t.documents.Keys == s.documents.Keys + {id}
  }

  lemma AddIndexes(p: Progress, c: Scan, snap: Snapshot)
    requires Add(p, c, snap).Some?
    requires ElectedDocument(DocumentUuid(c.project, snap.key)) !in p.lib.lexical
    ensures IndexStep(p.lib, Add(p, c, snap).value.lib, DocumentUuid(c.project, snap.key))
  {}

  lemma RefreshIndexes(p: Progress, c: Scan, id: DocumentId, snap: Snapshot, moved: bool)
    requires id in p.lib.documents && p.lib.documents[id].project == c.project && DigestMatches(p.lib.documents[id])
    requires ElectedDocument(id) in p.lib.lexical ==> Indexed(p.lib, id)
    requires Refresh(p, c, id, snap, moved).Some?
    ensures IndexStep(p.lib, Refresh(p, c, id, snap, moved).value.lib, id)
  {}

  lemma IndexStepAgrees(s: Library, t: Library, id: DocumentId)
    requires RowsAgree(s) && IndexStep(s, t, id)
    requires forall d :: d in s.documents && d != id ==> d in t.documents && t.documents[d] == s.documents[d]
    ensures RowsAgree(t) && OthersSame(s, t)
  {
    forall d | ElectedDocument(d) in t.lexical ensures d in t.documents && Indexed(t, d) {
      if d != id { assert Indexed(s, d); }
    }
  }

  lemma StepIndexes(p: Progress, c: Scan, snap: Snapshot, id: DocumentId)
    requires RowsSound(p.lib) && RowsAgree(p.lib) && SyncOne(p, c, snap).Some?
    requires var f := FateOf(p.lib, c, Seen(p), snap);
      id == if f.AddNew? then DocumentUuid(c.project, snap.key) else f.id
    requires id in p.lib.documents ==> p.lib.documents[id].project == c.project
    ensures IndexStep(p.lib, SyncOne(p, c, snap).value.lib, id)
  {
    match FateOf(p.lib, c, Seen(p), snap) {
      case AddNew => AddIndexes(p, c, snap);
      case Keep(_) => RefreshIndexes(p, c, id, snap, false);
      case Move(_) => RefreshIndexes(p, c, id, snap, true);
    }
  }

  /** Every placed document has its row, and no document lost one. */
  ghost predicate IndexGrew(s: Library, p: Progress) {
    && (forall d :: d in p.placed ==> ElectedDocument(d) in p.lib.lexical)
    && (forall d :: ElectedDocument(d) in s.lexical ==> ElectedDocument(d) in p.lib.lexical)
    && (forall d :: d in p.lib.documents && d !in s.documents ==> ElectedDocument(d) in p.lib.lexical)
  }

  lemma {:induction false} RunAgrees(s: Library, c: Scan, snaps: seq<Snapshot>)
    requires Consistent(s) && c.source in s.sources && c.project == s.sources[c.source].project
    requires c.members <= Members(s, c.source) && Keys(snaps) <= c.keys && DistinctKeys(snaps)
    requires SyncRun(Start(s), c, snaps).Some? && RowsAgree(s)
    ensures var p := SyncRun(Start(s), c, snaps).value; RowsAgree(p.lib) && OthersSame(s, p.lib) && IndexGrew(s, p)
  {
    if snaps != [] {
      var front, last := snaps[..|snaps| - 1], snaps[|snaps| - 1];
      WholeRun(s, c, front);
      RunAgrees(s, c, front);
      var p := SyncRun(Start(s), c, front).value;
      forall d | d in c.members ensures d in Members(p.lib, c.source) {
        assert (c.source, d) in p.lib.memberships;
      }
      var q := SyncOne(p, c, last).value;
      var id := StepIsLocal(p, c, last);
      if id in p.lib.documents && FateOf(p.lib, c, Seen(p), last).Move? {
        assert (c.source, id) in p.lib.memberships;
      }
      StepIndexes(p, c, last, id);
      forall d | d in p.lib.documents && d != id ensures d in q.lib.documents
        && q.lib.documents[d] == p.lib.documents[d] {
        assert SameDocument(p.lib, q.lib, d);
      }
      IndexStepAgrees(p.lib, q.lib, id);
      OthersSameTransitive(s, p.lib, q.lib);
    }
  }

  lemma OthersSameTransitive(s: Library, t: Library, u: Library)
    requires OthersSame(s, t) && OthersSame(t, u)
    ensures OthersSame(s, u)
  {}

  lemma FinishAgrees(p: Progress, c: Scan)
    requires RowsAgree(p.lib)
    ensures RowsAgree(Finish(p, c)) && OthersSame(p.lib, Finish(p, c))
    ensures forall d :: d in Finish(p, c).documents && ElectedDocument(d) in p.lib.lexical ==>
      ElectedDocument(d) in Finish(p, c).lexical
  {
    var t := Finish(p, c);
    forall d | ElectedDocument(d) in t.lexical ensures d in t.documents && Indexed(t, d) {
      assert Indexed(p.lib, d);
    }
  }

  /** A sync never makes an index row disagree, indexes again every scanned document whose
      row had gone missing, and leaves chat rows alone. */
  lemma SyncRepairsTheIndex(s: Library, source: SourceId, snaps: seq<Snapshot>, now: Instant)
    requires Consistent(s) && RowsAgree(s)
    ensures var (t, o) := Sync(s, source, snaps, now);
      && RowsAgree(t) && OthersSame(s, t)
      && (DocumentsIndexed(s) ==> DocumentsIndexed(t))
      && (o.Synced? ==> forall d :: d in Members(t, source) ==> d in t.documents && Indexed(t, d))
  {
    var (t, o) := Sync(s, source, snaps, now);
    if o.Synced? {
      var c, p := Committed(s, source, snaps, now);
      RunAgrees(s, c, snaps);
      FinishAgrees(p, c);
      FinishFacts(p, c);
      FinishMemberships(s, c, snaps, p);
      forall d | d in Members(t, source) ensures d in t.documents && Indexed(t, d) {
        assert (source, d) in t.memberships;
      }
    }
  }

  // ---------------------------------------------------------------- repeating a sync

  lemma NewestIsIdempotent(h: RevisionTable)
    ensures Newest(Newest(h)) == Newest(h)
  {
    var kept := NewestOf(h.Keys);
    assert Newest(h).Keys == kept;
    forall r | r in kept ensures r in NewestOf(kept) {
      SubsetSize(Newer(kept, r), Newer(h.Keys, r));
    }
    assert NewestOf(kept) == kept;
  }

  lemma SubsetSize<T>(a: set<T>, b: set<T>)
    requires a <= b
    ensures |a| <= |b|
  {
    assert b == a + (b - a);
  }

  /** The snapshot is already stored: a document of the source at its path, unchanged,
      indexed, with a pruned history. */
  ghost predicate Stored(s: Library, c: Scan, snap: Snapshot, d: DocumentId) {
    && (c.source, d) in s.memberships && d in s.documents && Matches(s.documents[d], c.project, snap)
    && ElectedDocument(d) in s.lexical
    && d in s.history && Newest(s.history[d]) == s.history[d]
  }

  lemma {:induction false} QuietRun(s: Library, c: Scan, snaps: seq<Snapshot>, at: seq<DocumentId>)
    requires UniquePaths(s) && |at| == |snaps|
    requires forall i :: 0 <= i < |snaps| ==> Stored(s, c, snaps[i], at[i])
    ensures SyncRun(Start(s), c, snaps) == Some(Progress(s, at, Counts(0, 0, |snaps|, 0)))
  {
    if snaps != [] {
      var n := |snaps| - 1;
      var before := Progress(s, at[..n], Counts(0, 0, n, 0));
      QuietRun(s, c, snaps[..n], at[..n]);
      QuietOne(before, c, snaps[n], at[n]);
      assert SyncRun(Start(s), c, snaps) == SyncOne(before, c, snaps[n]);
      assert at[..n] + [at[n]] == at;
    }
  }

  lemma QuietOne(p: Progress, c: Scan, snap: Snapshot, id: DocumentId)
    requires UniquePaths(p.lib) && Stored(p.lib, c, snap, id)
    ensures SyncOne(p, c, snap) == Some(p.(placed := p.placed + [id], counts := p.counts.(same := p.counts.same + 1)))
  {
    var s := p.lib;
    assert AtKey(s, c.project, snap.key, id);
    assert FateOf(s, c, Seen(p), snap) == Keep(id);
    assert s.memberships + {(c.source, id)} == s.memberships;
    assert s.history[id := s.history[id]] == s.history;
  }

  lemma {:induction false} RunPrunes(s: Library, c: Scan, snaps: seq<Snapshot>)
    requires Consistent(s) && c.source in s.sources && c.project == s.sources[c.source].project
    requires c.members <= Members(s, c.source) && Keys(snaps) <= c.keys && DistinctKeys(snaps)
    requires SyncRun(Start(s), c, snaps).Some?
    ensures var p := SyncRun(Start(s), c, snaps).value;
            forall d :: d in p.placed ==> Newest(HistoryOf(p.lib, d)) == HistoryOf(p.lib, d)
  {
    if snaps != [] {
      var front, last := snaps[..|snaps| - 1], snaps[|snaps| - 1];
      WholeRun(s, c, front);
      RunPrunes(s, c, front);
      PlacedStayPruned(SyncRun(Start(s), c, front).value, c, last);
    }
  }

  lemma PlacedStayPruned(p: Progress, c: Scan, snap: Snapshot)
    requires SyncOne(p, c, snap).Some? && forall d :: d in p.placed ==>
      Newest(HistoryOf(p.lib, d)) == HistoryOf(p.lib, d)
    ensures var q := SyncOne(p, c, snap).value;
            forall d :: d in q.placed ==> Newest(HistoryOf(q.lib, d)) == HistoryOf(q.lib, d)
  {
    var q := SyncOne(p, c, snap).value;
    StepPrunes(p, c, snap);
    forall d | d in q.placed ensures Newest(HistoryOf(q.lib, d)) == HistoryOf(q.lib, d) {
      assert d in p.placed || d == q.placed[|p.placed|];
    }
  }

  lemma StepPrunes(p: Progress, c: Scan, snap: Snapshot)
    requires SyncOne(p, c, snap).Some?
    ensures var q := SyncOne(p, c, snap).value;
      && |q.placed| == |p.placed| + 1 && q.placed[..|p.placed|] == p.placed
      && var id := q.placed[|p.placed|];
         && Newest(HistoryOf(q.lib, id)) == HistoryOf(q.lib, id)
         && forall d :: d != id ==> HistoryOf(q.lib, d) == HistoryOf(p.lib, d)
  {
    var q := SyncOne(p, c, snap).value;
    var f := FateOf(p.lib, c, Seen(p), snap);
    if !f.AddNew? {
      var d := p.lib.documents[f.id];
      NewestIsIdempotent(AfterTrigger(HistoryOf(p.lib, f.id), d, snap, c.now));
      NewestIsIdempotent(HistoryOf(p.lib, f.id));
    }
  }

  function Touched(s: Library, source: SourceId, now: Instant): Library
    requires source in s.sources
  {
    s.(sources := s.sources[source := s.sources[source].(updatedAt := now, lastSyncedAt := Some(now))])
  }

  lemma QuietFinish(s: Library, c: Scan, at: seq<DocumentId>, counts: Counts)
    requires c.source in s.sources && c.members == (set d | d in at)
    ensures Finish(Progress(s, at, counts), c) == Touched(s, c.source, c.now)
    ensures Removed(Progress(s, at, counts), c) == 0
  {
    var p := Progress(s, at, counts);
    var none: set<DocumentId> := {};
    assert c.members - Seen(p) == none;
    var detached := Detached(s, c.source, none);
    assert detached.memberships == s.memberships;
    assert Orphans(detached, none) == none;
    assert (set d | d in none :: ElectedDocument(d)) == {};
    assert s.documents - none == s.documents && s.history - none == s.history && s.lexical - {} == s.lexical;
    var dropped := DropDocuments(detached, none);
    assert dropped.memberships == s.memberships;
  }

  /** Syncing the same files again reports every one unchanged and alters nothing but the
      source's timestamps. */
  lemma SyncAgainIsQuiet(s: Library, source: SourceId, snaps: seq<Snapshot>, now: Instant, later: Instant)
    requires Consistent(s) && RowsAgree(s) && Sync(s, source, snaps, now).1.Synced?
    ensures var t := Sync(s, source, snaps, now).0;
      && source in t.sources
      && Sync(t, source, snaps, later) == (Touched(t, source, later), Synced(|snaps|, Counts(0, 0, |snaps|, 0), 0))
  {
    var c, p := Committed(s, source, snaps, now);
    var t := Finish(p, c);
    FinishFacts(p, c);
    FinishMemberships(s, c, snaps, p);
    SyncRepairsTheIndex(s, source, snaps, now);
    RunPrunes(s, c, snaps);
    var again := ScanOf(t, source, snaps, later);
    assert again.project == c.project;
    forall i | 0 <= i < |snaps| ensures Stored(t, again, snaps[i], p.placed[i]) {
      PlacedIsStored(s, c, snaps, p, again, i);
    }
    QuietRun(t, again, snaps, p.placed);
    QuietFinish(t, again, p.placed, Counts(0, 0, |snaps|, 0));
  }

  lemma PlacedIsStored(s: Library, c: Scan, snaps: seq<Snapshot>, p: Progress, again: Scan, i: nat)
    requires Invariant(s, c, snaps, p) && i < |snaps|
    requires MembershipsNameRows(Finish(p, c)) && RowsSound(Finish(p, c))
    requires again.source == c.source && again.project == c.project
    requires p.placed[i] in Members(Finish(p, c), c.source)
    requires ElectedDocument(p.placed[i]) in Finish(p, c).lexical
    requires Newest(HistoryOf(p.lib, p.placed[i])) == HistoryOf(p.lib, p.placed[i])
    ensures Stored(Finish(p, c), again, snaps[i], p.placed[i])
  {
    var t, d := Finish(p, c), p.placed[i];
    assert (c.source, d) in t.memberships;
    assert d in t.documents;
  }

  // ---------------------------------------------------------------- revision history

  predicate Between(low: nat, r: nat, high: nat) {
    low <= r < high
  }

  function Range(low: nat, high: nat): set<nat> {
    set r: nat | r < high && Between(low, r, high)
  }

  lemma {:induction false} RangeSize(low: nat, high: nat)
    requires low <= high
    ensures |Range(low, high)| == high - low
    decreases high
  {
    if low < high {
      RangeSize(low, high - 1);
      assert Range(low, high) == Range(low, high - 1) + {high - 1};
    }
  }

  function Oldest(revision: nat): nat {
    if revision > MAX_HISTORICAL_REVISIONS then revision - MAX_HISTORICAL_REVISIONS else 1
  }

  /** The archive of a document at revision r is exactly max(1, r-10) .. r-1. */
  predicate Window(h: RevisionTable, revision: nat) {
    h.Keys == Range(Oldest(revision), revision)
  }

  lemma NewestOfRange(low: nat, high: nat)
    requires low <= high
    ensures NewestOf(Range(low, high)) == Range(if low + MAX_HISTORICAL_REVISIONS > high then low
      else high - MAX_HISTORICAL_REVISIONS, high)
  {
    forall r | r in Range(low, high) ensures |Newer(Range(low, high), r)| == high - r - 1 {
      NewerInRange(low, high, r);
    }
  }

  lemma NewerInRange(low: nat, high: nat, r: nat)
    requires low <= r < high
    ensures |Newer(Range(low, high), r)| == high - r - 1
  {
    assert Newer(Range(low, high), r) == Range(r + 1, high);
    RangeSize(r + 1, high);
  }

  lemma KeysOfUpdate<K, V>(m: map<K, V>, k: K, v: V)
    ensures m[k := v].Keys == m.Keys + {k}
  {}

  lemma NewestKeys(h: RevisionTable)
    ensures Newest(h).Keys == NewestOf(h.Keys)
  {}

  lemma ArchivedBumpKeepsWindow(h: RevisionTable, r: nat, row: Archived)
    requires r > 0 && Window(h, r)
    ensures Window(Newest(h[r := row]), r + 1)
  {
    KeysOfUpdate(h, r, row);
    assert Range(Oldest(r), r) + {r} == Range(Oldest(r), r + 1);
    NewestOfRange(Oldest(r), r + 1);
    NewestKeys(h[r := row]);
  }

  lemma UnarchivedBumpBreaksWindow(h: RevisionTable, r: nat)
    requires r > 0 && Window(h, r)
    ensures !Window(Newest(h), r + 1)
  {
    assert Newest(h).Keys == NewestOf(h.Keys);
    assert r in Range(Oldest(r + 1), r + 1) && r !in h.Keys;
  }

  lemma RevisionBumpKeepsWindowIff(h: RevisionTable, d: Document, snap: Snapshot, now: Instant)
    requires d.revision > 0 && Window(h, d.revision) && ContentChanged(d, snap)
    ensures Window(Newest(AfterTrigger(h, d, snap, now)), d.revision + 1) <==> d.digest.Some?
  {
    if d.digest.Some? {
      ArchivedBumpKeepsWindow(h, d.revision, Archived(d.project, d.content, d.digest.value, d.updatedAt, now));
    } else {
      UnarchivedBumpBreaksWindow(h, d.revision);
    }
  }

  lemma PruningKeepsWindow(h: RevisionTable, revision: nat)
    requires revision > 0 && Window(h, revision)
    ensures Newest(h) == h
  {
    NewestOfRange(Oldest(revision), revision);
    assert NewestOf(h.Keys) == h.Keys;
  }

  /** Refreshing a document keeps the archive window exactly when its row carries a content
      hash; a row migrated without one moves to the next revision unarchived. */
  lemma RefreshKeepsWindowIff(p: Progress, c: Scan, id: DocumentId, snap: Snapshot, moved: bool)
    requires id in p.lib.documents && p.lib.documents[id].revision > 0
    requires Window(HistoryOf(p.lib, id), p.lib.documents[id].revision)
    requires Refresh(p, c, id, snap, moved).Some?
    ensures var t := Refresh(p, c, id, snap, moved).value.lib;
      Window(HistoryOf(t, id), t.documents[id].revision) <==> p.lib.documents[id].digest.Some?
  {
    var d, h := p.lib.documents[id], HistoryOf(p.lib, id);
    if ContentChanged(d, snap) {
      RevisionBumpKeepsWindowIff(h, d, snap, c.now);
    } else {
      PruningKeepsWindow(h, d.revision);
    }
  }

  /** Every document carries its hash and exactly its archive window. */
  ghost predicate Windowed(s: Library) {
    forall d :: d in s.documents ==> WellArchived(s, d)
  }

  predicate WellArchived(s: Library, d: DocumentId)
    requires d in s.documents
  {
    s.documents[d].digest.Some? && s.documents[d].revision > 0 && Window(HistoryOf(s, d), s.documents[d].revision)
  }

  lemma LocalKeepsWindows(p: Progress, q: Progress, c: Scan, id: DocumentId, snap: Snapshot)
    requires Windowed(p.lib) && Local(p, q, c, id, snap)
    requires WellArchived(q.lib, id)
    ensures Windowed(q.lib)
  {
    forall d | d in q.lib.documents && d != id ensures WellArchived(q.lib, d) {
      assert WellArchived(p.lib, d) && SameDocument(p.lib, q.lib, d);
    }
  }

  lemma StepKeepsWindows(p: Progress, c: Scan, snap: Snapshot)
    requires Consistent(p.lib) && Windowed(p.lib) && SyncOne(p, c, snap).Some?
    requires c.members <= Members(p.lib, c.source)
    requires c.source in p.lib.sources && c.project == p.lib.sources[c.source].project
    ensures Windowed(SyncOne(p, c, snap).value.lib)
  {
    var q := SyncOne(p, c, snap).value;
    var id := StepIsLocal(p, c, snap);
    match FateOf(p.lib, c, Seen(p), snap) {
      case AddNew => assert HistoryOf(q.lib, id).Keys == Range(1, 1);
      case Keep(_) => RefreshedIsArchived(p, c, id, snap, false);
      case Move(_) => RefreshedIsArchived(p, c, id, snap, true);
    }
    LocalKeepsWindows(p, q, c, id, snap);
  }

  lemma RefreshedIsArchived(p: Progress, c: Scan, id: DocumentId, snap: Snapshot, moved: bool)
    requires id in p.lib.documents && WellArchived(p.lib, id) && Refresh(p, c, id, snap, moved).Some?
    ensures id in Refresh(p, c, id, snap, moved).value.lib.documents
      && WellArchived(Refresh(p, c, id, snap, moved).value.lib, id)
  {
    RefreshKeepsWindowIff(p, c, id, snap, moved);
  }

  lemma {:induction false} RunKeepsWindows(s: Library, c: Scan, snaps: seq<Snapshot>)
    requires Consistent(s) && c.source in s.sources && c.project == s.sources[c.source].project
    requires c.members <= Members(s, c.source) && Keys(snaps) <= c.keys && DistinctKeys(snaps)
    requires SyncRun(Start(s), c, snaps).Some? && Windowed(s)
    ensures Windowed(SyncRun(Start(s), c, snaps).value.lib)
  {
    if snaps != [] {
      var front, last := snaps[..|snaps| - 1], snaps[|snaps| - 1];
      WholeRun(s, c, front);
      RunKeepsWindows(s, c, front);
      var p := SyncRun(Start(s), c, front).value;
      forall d | d in c.members ensures d in Members(p.lib, c.source) {
        assert (c.source, d) in p.lib.memberships;
      }
      StepKeepsWindows(p, c, last);
    }
  }

  lemma FinishKeepsRows(p: Progress, c: Scan)
    ensures forall d :: d in Finish(p, c).documents ==>
      d in p.lib.documents && Finish(p, c).documents[d] == p.lib.documents[d]
        && HistoryOf(Finish(p, c), d) == HistoryOf(p.lib, d)
  {}

  /** A sync keeps the archive of every document exactly at max(1, r-10) .. r-1. */
  lemma SyncKeepsWindows(s: Library, source: SourceId, snaps: seq<Snapshot>, now: Instant)
    requires Consistent(s) && Windowed(s)
    ensures Windowed(Sync(s, source, snaps, now).0)
  {
    var (t, o) := Sync(s, source, snaps, now);
    if o.Synced? {
      var c, p := Committed(s, source, snaps, now);
      RunKeepsWindows(s, c, snaps);
      FinishKeepsRows(p, c);
    }
  }

  // ---------------------------------------------------------------- when a sync fails

  /** The fate of a snapshot, read off the library before the sync: it adds a document unless
      one already stands at its path, or it is the first snapshot without a path match that
      carries the identity of the only vanished document with that identity. */
  ghost predicate WillAdd(s: Library, c: Scan, snaps: seq<Snapshot>, i: nat)
    requires i < |snaps|
  {
    && Unplaced(s, c, snaps[i])
    && (snaps[i].identity.None? || |MoveCandidates(s, c, {}, snaps[i])| != 1
        || exists j :: 0 <= j < i && Unplaced(s, c, snaps[j]) && snaps[j].identity == snaps[i].identity)
  }

  ghost predicate Unplaced(s: Library, c: Scan, snap: Snapshot) {
    forall d :: !AtKey(s, c.project, snap.key, d)
  }

  /** Where each placed document came from: its own path, the only vanished document of that
      identity, or a new row. */
  ghost predicate Origin(s: Library, c: Scan, snap: Snapshot, d: DocumentId) {
    if d in s.documents then
      || (s.documents[d].project == c.project && s.documents[d].key == snap.key)
      || (Unplaced(s, c, snap) && snap.identity.Some? && MoveCandidates(s, c, {}, snap) == {d})
    else d == DocumentUuid(c.project, snap.key)
  }

  ghost predicate Origins(s: Library, c: Scan, snaps: seq<Snapshot>, p: Progress)
    requires |p.placed| == |snaps|
  {
    && (forall i :: 0 <= i < |snaps| ==> Origin(s, c, snaps[i], p.placed[i]))
    && (forall i :: 0 <= i < |snaps| && ClaimsMove(s, c, snaps[i]) ==> MoveCandidates(s, c, {}, snaps[i]) <= Seen(p))
  }

  ghost predicate ClaimsMove(s: Library, c: Scan, snap: Snapshot) {
    Unplaced(s, c, snap) && snap.identity.Some? && |MoveCandidates(s, c, {}, snap)| == 1
  }

  /** The state of the path index is the same for later snapshots. */
  lemma PathMatchIsStatic(s: Library, c: Scan, snaps: seq<Snapshot>, p: Progress, snap: Snapshot, d: DocumentId)
    requires Invariant(s, c, snaps, p) && Origins(s, c, snaps, p)
    requires snap.key in c.keys && forall i :: 0 <= i < |snaps| ==> snaps[i].key != snap.key
    ensures AtKey(p.lib, c.project, snap.key, d) <==> AtKey(s, c.project, snap.key, d)
  {
    if d in p.placed {
      var i :| 0 <= i < |snaps| && p.placed[i] == d;
      assert Matches(p.lib.documents[d], c.project, snaps[i]) && Origin(s, c, snaps[i], d);
      assert d in MoveCandidates(s, c, {}, snaps[i]) ==> s.documents[d].key !in c.keys;
    } else if d in p.lib.documents {
      assert SameDocument(s, p.lib, d);
    }
  }

  lemma CandidatesAreStatic(s: Library, c: Scan, snaps: seq<Snapshot>, p: Progress, snap: Snapshot)
    requires Invariant(s, c, snaps, p) && c.members <= s.documents.Keys
    ensures MoveCandidates(p.lib, c, Seen(p), snap) == MoveCandidates(s, c, {}, snap) - Seen(p)
  {
    forall d | d in c.members && d !in p.placed
      ensures p.lib.documents[d] == s.documents[d]
    {
      assert SameDocument(s, p.lib, d);
    }
  }

  /** A candidate is taken only as the single candidate of an earlier snapshot with the same
      identity. */
  lemma TakenCandidate(
    s: Library, c: Scan, snaps: seq<Snapshot>, p: Progress, snap: Snapshot, d: DocumentId)
    returns (i: nat)
    requires Invariant(s, c, snaps, p) && Origins(s, c, snaps, p) && Keys(snaps) <= c.keys
    requires d in MoveCandidates(s, c, {}, snap) && d in Seen(p)
    ensures i < |snaps| && p.placed[i] == d && Unplaced(s, c, snaps[i]) && snaps[i].identity == snap.identity
    ensures MoveCandidates(s, c, {}, snap) == {d}
  {
    i :| 0 <= i < |snaps| && p.placed[i] == d;
    assert Origin(s, c, snaps[i], d);
    assert snaps[i].key in Keys(snaps);
    assert d in MoveCandidates(s, c, {}, snaps[i]);
    assert MoveCandidates(s, c, {}, snap) == MoveCandidates(s, c, {}, snaps[i]);
  }

  /** While the sync runs, a snapshot's fate is the one read off the library before it. */
  lemma FateIsStatic(s: Library, c: Scan, snaps: seq<Snapshot>, p: Progress, n: nat)
    requires n < |snaps| && c.members <= s.documents.Keys && c.keys == Keys(snaps) && DistinctKeys(snaps)
    requires Invariant(s, c, snaps[..n], p) && Origins(s, c, snaps[..n], p)
    ensures FateOf(p.lib, c, Seen(p), snaps[n]).AddNew? <==> WillAdd(s, c, snaps, n)
    ensures match FateOf(p.lib, c, Seen(p), snaps[n])
            case AddNew => ClaimsMove(s, c, snaps[n]) ==> MoveCandidates(s, c, {}, snaps[n]) <= Seen(p)
            case Keep(d) => AtKey(s, c.project, snaps[n].key, d)
            case Move(d) => Unplaced(s, c, snaps[n]) && MoveCandidates(s, c, {}, snaps[n]) == {d}
  {
    var snap, front := snaps[n], snaps[..n];
    var f := FateOf(p.lib, c, Seen(p), snap);
    assert snap.key in c.keys;
    assert Keys(front) <= c.keys;
    forall d ensures AtKey(p.lib, c.project, snap.key, d) <==> AtKey(s, c.project, snap.key, d) {
      PathMatchIsStatic(s, c, front, p, snap, d);
    }
    CandidatesAreStatic(s, c, front, p, snap);
    var all := MoveCandidates(s, c, {}, snap);
    if Unplaced(s, c, snap) && snap.identity.Some? {
      if d :| d in all && d in Seen(p) {
        var i := TakenCandidate(s, c, front, p, snap, d);
        assert snaps[i] == front[i];
        assert all - Seen(p) == {};
      } else {
        assert all - Seen(p) == all;
        if |all| == 1 {
          var d :| d in all;
          SingleElement(all, d);
          forall j | 0 <= j < n && Unplaced(s, c, snaps[j]) && snaps[j].identity == snap.identity ensures false {
            assert front[j] == snaps[j];
            assert MoveCandidates(s, c, {}, snaps[j]) == all;
            assert ClaimsMove(s, c, front[j]);
          }
        }
      }
    }
  }

  lemma SingleElement<T>(a: set<T>, x: T)
    requires |a| == 1 && x in a
    ensures a == {x}
  {
    assert |a - {x}| == 0;
  }

  /** The documents placed so far, read off the library before the sync. */
  lemma PlacedIff(s: Library, c: Scan, snaps: seq<Snapshot>, p: Progress, d: DocumentId)
    requires Invariant(s, c, snaps, p) && Origins(s, c, snaps, p) && UniquePaths(p.lib) && d in s.documents
    ensures d in p.placed <==> exists i :: 0 <= i < |snaps| && Origin(s, c, snaps[i], d)
  {
    forall i | 0 <= i < |snaps| ensures AtKey(p.lib, c.project, snaps[i].key, p.placed[i]) {
      assert Matches(p.lib.documents[p.placed[i]], c.project, snaps[i]);
    }
    if d in p.placed {
      var i :| 0 <= i < |p.placed| && p.placed[i] == d;
      assert Origin(s, c, snaps[i], d);
    } else {
      assert SameDocument(s, p.lib, d);
      forall i | 0 <= i < |snaps| ensures !Origin(s, c, snaps[i], d) {
        var moves, key := MoveCandidates(s, c, {}, snaps[i]), snaps[i].key;
        assert ClaimsMove(s, c, snaps[i]) ==> d !in moves;
        assert AtKey(s, c.project, key, d) ==> AtKey(p.lib, c.project, key, d);
      }
    }
  }

  /** A stored document keeps the reference of the snapshot under another key: neither this
      snapshot nor an earlier one places it. */
  ghost predicate Keeps(s: Library, c: Scan, snaps: seq<Snapshot>, n: nat, d: DocumentId)
    requires n < |snaps|
  {
    && d in s.documents && s.documents[d].project == c.project && s.documents[d].reference == snaps[n].reference
    && forall i :: 0 <= i <= n ==> !Origin(s, c, snaps[i], d)
  }

  /** The reference of the snapshot is taken, by such a document or by an earlier snapshot. */
  ghost predicate ReferenceHeld(s: Library, c: Scan, snaps: seq<Snapshot>, n: nat)
    requires n < |snaps|
  {
    || (exists i :: 0 <= i < n && snaps[i].reference == snaps[n].reference)
    || (exists d :: Keeps(s, c, snaps, n, d))
  }

  /** The document a snapshot is placed on. */
  ghost function Target(p: Progress, c: Scan, snap: Snapshot): DocumentId {
    var f := FateOf(p.lib, c, Seen(p), snap);
    if f.AddNew? then DocumentUuid(c.project, snap.key) else f.id
  }

  ghost predicate Standing(s: Library, c: Scan, snaps: seq<Snapshot>, p: Progress, n: nat)
    requires n <= |snaps|
  {
    && c.members <= s.documents.Keys && c.keys == Keys(snaps) && DistinctKeys(snaps)
    && Invariant(s, c, snaps[..n], p) && Origins(s, c, snaps[..n], p)
    && UniquePaths(p.lib)
  }

  lemma TargetIsItsOrigin(s: Library, c: Scan, snaps: seq<Snapshot>, p: Progress, n: nat, e: DocumentId)
    requires n < |snaps| && Standing(s, c, snaps, p, n) && e in s.documents && e !in p.placed
    ensures Origin(s, c, snaps[n], e) ==> e == Target(p, c, snaps[n])
  {
    if Origin(s, c, snaps[n], e) {
      FateIsStatic(s, c, snaps, p, n);
      PathMatchIsStatic(s, c, snaps[..n], p, snaps[n], e);
      if AtKey(s, c.project, snaps[n].key, e) { OnlyAtKey(p.lib, c.project, snaps[n].key, e); }
    }
  }

  lemma TakenReferenceIsHeld(s: Library, c: Scan, snaps: seq<Snapshot>, p: Progress, n: nat)
    requires n < |snaps| && Standing(s, c, snaps, p, n)
    requires PathTaken(p.lib, Target(p, c, snaps[n]), c.project, snaps[n])
    ensures ReferenceHeld(s, c, snaps, n)
  {
    var snap, self := snaps[n], Target(p, c, snaps[n]);
    var e :| e in p.lib.documents && e != self && SamePath(p.lib.documents[e], c.project, snap.key, snap.reference);
    if AtKey(p.lib, c.project, snap.key, e) {
      OnlyAtKey(p.lib, c.project, snap.key, e);
    } else if e in p.placed {
      var i :| 0 <= i < n && p.placed[i] == e;
      assert Matches(p.lib.documents[e], c.project, snaps[..n][i]);
    } else {
      assert SameDocument(s, p.lib, e);
      PlacedIff(s, c, snaps[..n], p, e);
      TargetIsItsOrigin(s, c, snaps, p, n, e);
      forall i | 0 <= i <= n ensures !Origin(s, c, snaps[i], e) {
        if i < n { assert snaps[..n][i] == snaps[i]; }
      }
      assert Keeps(s, c, snaps, n, e);
    }
  }

  lemma HeldReferenceIsTaken(s: Library, c: Scan, snaps: seq<Snapshot>, p: Progress, n: nat)
    requires n < |snaps| && Standing(s, c, snaps, p, n) && ReferenceHeld(s, c, snaps, n)
    requires Target(p, c, snaps[n]) !in p.placed
    requires FateOf(p.lib, c, Seen(p), snaps[n]).AddNew? ==> Target(p, c, snaps[n]) !in p.lib.documents
    ensures PathTaken(p.lib, Target(p, c, snaps[n]), c.project, snaps[n])
  {
    if i :| 0 <= i < n && snaps[i].reference == snaps[n].reference {
      assert Matches(p.lib.documents[p.placed[i]], c.project, snaps[..n][i]);
    } else {
      var d :| Keeps(s, c, snaps, n, d);
      forall i | 0 <= i < n ensures !Origin(s, c, snaps[..n][i], d) {}
      PlacedIff(s, c, snaps[..n], p, d);
      assert SameDocument(s, p.lib, d);
      FateIsStatic(s, c, snaps, p, n);
      assert d != Target(p, c, snaps[n]);
    }
  }

  lemma StepKeepsOrigins(s: Library, c: Scan, snaps: seq<Snapshot>, p: Progress, n: nat)
    requires n < |snaps| && c.members <= s.documents.Keys && c.keys == Keys(snaps) && DistinctKeys(snaps)
    requires Invariant(s, c, snaps[..n], p) && Origins(s, c, snaps[..n], p)
    requires SyncOne(p, c, snaps[n]).Some?
    ensures |SyncOne(p, c, snaps[n]).value.placed| == n + 1
    ensures Origins(s, c, snaps[..n + 1], SyncOne(p, c, snaps[n]).value)
  {
    FateIsStatic(s, c, snaps, p, n);
    var q := SyncOne(p, c, snaps[n]).value;
    var f := FateOf(p.lib, c, Seen(p), snaps[n]);
    var id := if f.AddNew? then DocumentUuid(c.project, snaps[n].key) else f.id;
    assert q.placed == p.placed + [id];
    assert Origin(s, c, snaps[n], id);
    forall i | 0 <= i < n + 1
      ensures Origin(s, c, snaps[..n + 1][i], q.placed[i])
      ensures ClaimsMove(s, c, snaps[..n + 1][i]) ==> MoveCandidates(s, c, {}, snaps[..n + 1][i]) <= Seen(q)
    {
      assert snaps[..n + 1][i] == snaps[i];
      if i < n {
        assert snaps[..n][i] == snaps[i] && Seen(p) <= Seen(q);
        assert Origin(s, c, snaps[..n][i], p.placed[i]);
      }
    }
  }

  /** A step is rejected exactly for a new document whose derived id is still held, or for a
      held reference. */
  lemma StepFailsIff(s: Library, c: Scan, snaps: seq<Snapshot>, p: Progress, n: nat)
    requires n < |snaps| && Standing(s, c, snaps, p, n) && Consistent(p.lib)
    requires c.members <= Members(p.lib, c.source)
    requires c.source in p.lib.sources && c.project == p.lib.sources[c.source].project
    ensures SyncOne(p, c, snaps[n]).None? <==> Rejected(s, c, snaps, n)
  {
    FateIsStatic(s, c, snaps, p, n);
    var f, id := FateOf(p.lib, c, Seen(p), snaps[n]), Target(p, c, snaps[n]);
    if PathTaken(p.lib, id, c.project, snaps[n]) { TakenReferenceIsHeld(s, c, snaps, p, n); }
    if f.AddNew? {
      AddedIdIsStatic(s, c, snaps, p, n);
      if ReferenceHeld(s, c, snaps, n) && id !in p.lib.documents { HeldReferenceIsTaken(s, c, snaps, p, n); }
    } else {
      assert HistoryPrecedes(p.lib, id);
      if f.Move? { assert (c.source, id) in p.lib.memberships; }
      KnownTargetIsFresh(s, c, snaps, p, n);
      if ReferenceHeld(s, c, snaps, n) { HeldReferenceIsTaken(s, c, snaps, p, n); }
      KeptRowTakesNoPath(p, c, id, snaps[n]);
    }
  }

  lemma KnownTargetIsFresh(s: Library, c: Scan, snaps: seq<Snapshot>, p: Progress, n: nat)
    requires n < |snaps| && Standing(s, c, snaps, p, n) && !FateOf(p.lib, c, Seen(p), snaps[n]).AddNew?
    ensures Target(p, c, snaps[n]) !in p.placed
  {
    forall i | 0 <= i < n ensures p.lib.documents[p.placed[i]].key != snaps[n].key {
      assert Matches(p.lib.documents[p.placed[i]], c.project, snaps[..n][i]);
    }
  }

  /** A row that already has the path shares it with no other. */
  lemma KeptRowTakesNoPath(p: Progress, c: Scan, id: DocumentId, snap: Snapshot)
    requires UniquePaths(p.lib) && id in p.lib.documents && p.lib.documents[id].project == c.project
    ensures !MetadataChanged(p.lib.documents[id], snap) ==> !PathTaken(p.lib, id, c.project, snap)
  {}

  lemma OnlyAtKey(s: Library, project: ProjectId, key: string, d: DocumentId)
    requires UniquePaths(s) && AtKey(s, project, key, d)
    ensures forall e :: AtKey(s, project, key, e) ==> e == d
  {}

  lemma AddedIdIsStatic(s: Library, c: Scan, snaps: seq<Snapshot>, p: Progress, n: nat)
    requires n < |snaps| && DistinctKeys(snaps)
    requires Invariant(s, c, snaps[..n], p) && Origins(s, c, snaps[..n], p)
    ensures DocumentUuid(c.project, snaps[n].key) in p.lib.documents <==>
      DocumentUuid(c.project, snaps[n].key) in s.documents
  {
    var id := DocumentUuid(c.project, snaps[n].key);
    if id in p.placed {
      var i :| 0 <= i < n && p.placed[i] == id;
      assert Origin(s, c, snaps[..n][i], id) && snaps[..n][i] == snaps[i];
    }
  }

  /** A new file cannot be added because the id of its path is held by a document that moved
      away from that path. */
  ghost predicate Blocked(s: Library, c: Scan, snaps: seq<Snapshot>, i: nat)
    requires i < |snaps|
  {
    WillAdd(s, c, snaps, i) && DocumentUuid(c.project, snaps[i].key) in s.documents
  }

  /** A unique index or the primary key rejects the row of the snapshot. */
  ghost predicate Rejected(s: Library, c: Scan, snaps: seq<Snapshot>, i: nat)
    requires i < |snaps|
  {
    Blocked(s, c, snaps, i) || ReferenceHeld(s, c, snaps, i)
  }

  ghost predicate SomeRejected(s: Library, c: Scan, snaps: seq<Snapshot>, n: nat)
    requires n <= |snaps|
  {
    exists i :: 0 <= i < n && Rejected(s, c, snaps, i)
  }

  lemma SomeRejectedMore(s: Library, c: Scan, snaps: seq<Snapshot>, n: nat)
    requires n < |snaps|
    ensures SomeRejected(s, c, snaps, n + 1) <==> SomeRejected(s, c, snaps, n) || Rejected(s, c, snaps, n)
  {}

  ghost predicate Prefixed(s: Library, c: Scan, snaps: seq<Snapshot>, n: nat)
    requires n <= |snaps|
  {
    var run := SyncRun(Start(s), c, snaps[..n]);
    && (run.None? <==> SomeRejected(s, c, snaps, n))
    && (run.Some? ==> |run.value.placed| == n && Origins(s, c, snaps[..n], run.value))
  }

  lemma PrefixOfRun(p: Progress, c: Scan, snaps: seq<Snapshot>, n: nat)
    requires n < |snaps|
    ensures SyncRun(p, c, snaps[..n + 1]) ==
            (if SyncRun(p, c, snaps[..n]).None? then None else SyncOne(SyncRun(p, c, snaps[..n]).value, c, snaps[n]))
  {
    assert snaps[..n + 1][..n] == snaps[..n];
  }

  lemma PrefixStep(s: Library, c: Scan, snaps: seq<Snapshot>, n: nat, p: Progress)
    requires n < |snaps| && Consistent(s) && c.source in s.sources && c.project == s.sources[c.source].project
    requires c.members == Members(s, c.source) && c.keys == Keys(snaps) && DistinctKeys(snaps)
    requires SyncRun(Start(s), c, snaps[..n]) == Some(p) && |p.placed| == n && Origins(s, c, snaps[..n], p)
    ensures SyncOne(p, c, snaps[n]).None? <==> Rejected(s, c, snaps, n)
    ensures SyncOne(p, c, snaps[n]).Some? ==>
              |SyncOne(p, c, snaps[n]).value.placed| == n + 1
                && Origins(s, c, snaps[..n + 1], SyncOne(p, c, snaps[n]).value)
  {
    assert Keys(snaps[..n]) <= c.keys;
    WholeRun(s, c, snaps[..n]);
    MembersStay(s, c, snaps[..n], p);
    StepFailsIff(s, c, snaps, p, n);
    if SyncOne(p, c, snaps[n]).Some? { StepKeepsOrigins(s, c, snaps, p, n); }
  }

  lemma {:induction false} PrefixFailsIff(s: Library, c: Scan, snaps: seq<Snapshot>, n: nat)
    requires n <= |snaps| && Consistent(s) && c.source in s.sources && c.project == s.sources[c.source].project
    requires c.members == Members(s, c.source) && c.keys == Keys(snaps) && DistinctKeys(snaps)
    ensures Prefixed(s, c, snaps, n)
  {
    if n > 0 {
      var m := n - 1;
      PrefixFailsIff(s, c, snaps, m);
      PrefixOfRun(Start(s), c, snaps, m);
      SomeRejectedMore(s, c, snaps, m);
      var run := SyncRun(Start(s), c, snaps[..m]);
      if run.Some? { PrefixStep(s, c, snaps, m, run.value); }
    }
  }

  lemma MembersStay(s: Library, c: Scan, snaps: seq<Snapshot>, p: Progress)
    requires MembershipsNameRows(s) && Invariant(s, c, snaps, p) && c.members == Members(s, c.source)
    ensures c.members <= Members(p.lib, c.source) && c.members <= s.documents.Keys
  {
    forall d | d in c.members ensures d in Members(p.lib, c.source) && d in s.documents {
      assert (c.source, d) in s.memberships && (c.source, d) in p.lib.memberships;
    }
  }

  /** A sync commits if and only if the source exists, its paths are distinct, no file it has
      to add sits at a path whose derived id is still held, which is the case of a document
      that moved away from that path, and no reference is held by a row under another key. */
  lemma SyncCommitsIff(s: Library, source: SourceId, snaps: seq<Snapshot>, now: Instant)
    requires Consistent(s)
    ensures Sync(s, source, snaps, now).1.Synced? <==>
            && source in s.sources && DistinctKeys(snaps)
            && forall i :: 0 <= i < |snaps| ==> !Rejected(s, ScanOf(s, source, snaps, now), snaps, i)
  {
    if source in s.sources && DistinctKeys(snaps) {
      CountFromDistinct(snaps);
      PrefixFailsIff(s, ScanOf(s, source, snaps, now), snaps, |snaps|);
      assert snaps[..|snaps|] == snaps;
    } else if source in s.sources && |Keys(snaps)| == |snaps| {
      DistinctFromCount(snaps);
    }
  }

  lemma {:induction false} CountFromDistinct(snaps: seq<Snapshot>)
    requires DistinctKeys(snaps)
    ensures |Keys(snaps)| == |snaps|
  {
    if snaps != [] {
      var front, last := snaps[..|snaps| - 1], snaps[|snaps| - 1];
      CountFromDistinct(front);
      assert Keys(snaps) == Keys(front) + {last.key};
      assert last.key !in Keys(front);
    }
  }
}
