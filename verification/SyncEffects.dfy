/** What one synchronisation does to every row, in terms of the tables before and after it. */
module SyncEffects {
  import opened Schema
  import opened LexicalIndexer
  import opened DocumentRegistry
  import opened DocumentSync

  // ---------------------------------------------------------------- the rows found again

  function Above(h: RevisionTable, r: nat): set<nat> {
    set q | q in h && q > r
  }

  /** The archive kept from the whole: the entries with fewer than ten newer ones, as they were. */
  ghost predicate KeepsNewestTen(whole: RevisionTable, kept: RevisionTable) {
    && (forall q :: q in kept <==> q in whole && |Above(whole, q)| < 10)
    && (forall q :: q in kept ==> kept[q] == whole[q])
  }

  predicate SameText(d: Document, snap: Snapshot) {
    d.digest == Some(Sha256(snap.content))
  }

  /** What becomes of a stored document that a snapshot is placed on.  Its text is unchanged,
      and then so are its revision and its archive; or the snapshot supersedes it now, and then
      the text, digest, project and time it had are in the archive under its old revision. */
  ghost predicate Revised(
    d: Document, h: RevisionTable, e: Document, k: RevisionTable, snap: Snapshot, now: Instant)
  {
    && Matches(e, d.project, snap)
    && (Matches(d, d.project, snap) ==> e == d)
    && (!Matches(d, d.project, snap) ==> e.updatedAt == now)
    && (SameText(d, snap) ==>
          && e.revision == d.revision
          && e.previousDigest == d.previousDigest && e.supersededAt == d.supersededAt
          && KeepsNewestTen(h, k))
    && (!SameText(d, snap) ==>
          && e.revision == d.revision + 1
          && e.previousDigest == d.digest && e.supersededAt == Some(now)
          && (d.digest.None? ==> KeepsNewestTen(h, k))
          && (d.digest.Some? ==>
                && var archived := Archived(d.project, d.content, d.digest.value, d.updatedAt, now);
                && KeepsNewestTen(h[d.revision := archived], k)
                && d.revision in k && k[d.revision] == archived))
  }

  lemma NewestIsKept(h: RevisionTable)
    ensures KeepsNewestTen(h, Newest(h))
  {
    forall q | q in h ensures Newer(h.Keys, q) == Above(h, q) {}
  }

  lemma LatestIsKept(h: RevisionTable, r: nat, row: Archived)
    requires forall q :: q in h ==> q < r
    ensures r in Newest(h[r := row])
  {
    assert Newer(h[r := row].Keys, r) == {};
  }

  lemma RefreshRevises(p: Progress, c: Scan, id: DocumentId, snap: Snapshot, moved: bool)
    requires RowsSound(p.lib) && id in p.lib.documents && Refresh(p, c, id, snap, moved).Some?
    ensures var q := Refresh(p, c, id, snap, moved).value;
      && id in q.lib.documents
      && Revised(p.lib.documents[id], HistoryOf(p.lib, id), q.lib.documents[id], HistoryOf(q.lib, id), snap, c.now)
  {
    var d, h := p.lib.documents[id], HistoryOf(p.lib, id);
    assert DigestMatches(d) && HistoryPrecedes(p.lib, id);
    NewestIsKept(h);
    if d.digest.Some? {
      var row := Archived(d.project, d.content, d.digest.value, d.updatedAt, c.now);
      NewestIsKept(h[d.revision := row]);
      LatestIsKept(h, d.revision, row);
    }
  }

  // ---------------------------------------------------------------- the whole run

  /** What becomes of the document that a snapshot is placed on, stored before or not. */
  ghost predicate Became(s: Library, t: Library, d: DocumentId, project: ProjectId, snap: Snapshot, now: Instant) {
    && d in t.documents && d in t.history
    && (if d in s.documents then
          && d in s.history && s.documents[d].project == project
          && Revised(s.documents[d], s.history[d], t.documents[d], t.history[d], snap, now)
        else
          && d == DocumentUuid(project, snap.key)
          && t.documents[d] == Document(project, snap.displayName, snap.documentType, snap.reference, snap.content,
               now, snap.key, Some(Sha256(snap.content)), Some(snap.fileSize), Some(snap.modifiedTimeNs),
               snap.identity, None, None, 1)
          && t.history[d] == map[])
  }

  ghost predicate AllBecame(s: Library, c: Scan, snaps: seq<Snapshot>, p: Progress) {
    && |p.placed| == |snaps|
    && (forall i :: 0 <= i < |snaps| ==> Became(s, p.lib, p.placed[i], c.project, snaps[i], c.now))
    && (forall i, j :: 0 <= i < j < |snaps| ==> p.placed[i] != p.placed[j])
  }

  /** A committed run so far, and its next step. */
  ghost predicate Running(s: Library, c: Scan, front: seq<Snapshot>, p: Progress, snap: Snapshot) {
    && Consistent(s) && Consistent(p.lib) && Invariant(s, c, front, p)
    && c.source in s.sources && c.project == s.sources[c.source].project
    && c.members <= Members(s, c.source) && Keys(front) <= c.keys && snap.key in c.keys
    && (forall i :: 0 <= i < |front| ==> front[i].key != snap.key)
    && SyncOne(p, c, snap).Some?
  }

  lemma {:induction false} RunningFrom(s: Library, c: Scan, snaps: seq<Snapshot>)
    requires Consistent(s) && c.source in s.sources && c.project == s.sources[c.source].project
    requires c.members <= Members(s, c.source) && Keys(snaps) <= c.keys && DistinctKeys(snaps)
    requires SyncRun(Start(s), c, snaps).Some? && snaps != []
    ensures var front := snaps[..|snaps| - 1];
      && SyncRun(Start(s), c, front).Some?
      && Running(s, c, front, SyncRun(Start(s), c, front).value, snaps[|snaps| - 1])
  {
    var front, last := snaps[..|snaps| - 1], snaps[|snaps| - 1];
    assert snaps == front + [last];
    WholeRun(s, c, front);
  }

  lemma RunningTarget(s: Library, c: Scan, front: seq<Snapshot>, p: Progress, snap: Snapshot) returns (id: DocumentId)
    requires Running(s, c, front, p, snap)
    ensures id == Target(p, c, snap) && id !in p.placed
    ensures Local(p, SyncOne(p, c, snap).value, c, id, snap) && Consistent(SyncOne(p, c, snap).value.lib)
    ensures id in p.lib.documents ==> id in s.documents && SameDocument(s, p.lib, id)
    ensures id in p.lib.documents ==> p.lib.documents[id].project == c.project
    ensures id in p.lib.documents <==> !FateOf(p.lib, c, Seen(p), snap).AddNew?
  {
    FreshTarget(s, c, front, p, snap);
    forall d | d in c.members ensures d in Members(p.lib, c.source) {
      assert (c.source, d) in p.lib.memberships;
    }
    id := StepIsLocal(p, c, snap);
  }

  lemma StepBecomes(s: Library, c: Scan, front: seq<Snapshot>, p: Progress, snap: Snapshot, id: DocumentId)
    requires Running(s, c, front, p, snap) && id == Target(p, c, snap)
    requires id in p.lib.documents ==> id in s.documents && SameDocument(s, p.lib, id)
    requires id in p.lib.documents ==> p.lib.documents[id].project == c.project
    requires id in p.lib.documents <==> !FateOf(p.lib, c, Seen(p), snap).AddNew?
    requires RowsSound(s) && RowsSound(p.lib)
    ensures Became(s, SyncOne(p, c, snap).value.lib, id, c.project, snap, c.now)
  {
    match FateOf(p.lib, c, Seen(p), snap) {
      case AddNew => AddBecomes(s, p, c, snap);
      case Keep(_) => RefreshBecomes(s, p, c, id, snap, false);
      case Move(_) => RefreshBecomes(s, p, c, id, snap, true);
    }
  }

  lemma AddBecomes(s: Library, p: Progress, c: Scan, snap: Snapshot)
    requires Add(p, c, snap).Some? && DocumentUuid(c.project, snap.key) !in s.documents
    ensures Became(s, Add(p, c, snap).value.lib, DocumentUuid(c.project, snap.key), c.project, snap, c.now)
  {}

  lemma RefreshBecomes(s: Library, p: Progress, c: Scan, id: DocumentId, snap: Snapshot, moved: bool)
    requires id in s.documents && SameDocument(s, p.lib, id) && s.documents[id].project == c.project
    requires RowsSound(s) && RowsSound(p.lib) && Refresh(p, c, id, snap, moved).Some?
    ensures Became(s, Refresh(p, c, id, snap, moved).value.lib, id, c.project, snap, c.now)
  {
    RefreshRevises(p, c, id, snap, moved);
  }

  lemma {:induction false} RunBecomes(s: Library, c: Scan, snaps: seq<Snapshot>)
    requires Consistent(s) && c.source in s.sources && c.project == s.sources[c.source].project
    requires c.members <= Members(s, c.source) && Keys(snaps) <= c.keys && DistinctKeys(snaps)
    requires SyncRun(Start(s), c, snaps).Some?
    ensures AllBecame(s, c, snaps, SyncRun(Start(s), c, snaps).value)
  {
    if snaps != [] {
      var front, last := snaps[..|snaps| - 1], snaps[|snaps| - 1];
      RunningFrom(s, c, snaps);
      RunBecomes(s, c, front);
      StepKeepsBecame(s, c, front, SyncRun(Start(s), c, front).value, last);
      assert front + [last] == snaps;
    }
  }

  lemma StepKeepsBecame(s: Library, c: Scan, front: seq<Snapshot>, p: Progress, snap: Snapshot)
    requires Running(s, c, front, p, snap) && AllBecame(s, c, front, p)
    ensures AllBecame(s, c, front + [snap], SyncOne(p, c, snap).value)
  {
    var id := RunningTarget(s, c, front, p, snap);
    StepBecomes(s, c, front, p, snap, id);
    OthersStay(s, c, front, p, SyncOne(p, c, snap).value, snap, id);
  }

  lemma OthersStay(
    s: Library, c: Scan, front: seq<Snapshot>, p: Progress, q: Progress, snap: Snapshot, id: DocumentId)
    requires AllBecame(s, c, front, p) && Local(p, q, c, id, snap) && id !in p.placed
    requires RowsSound(q.lib) && RowsSound(p.lib)
    requires Became(s, q.lib, id, c.project, snap, c.now)
    ensures AllBecame(s, c, front + [snap], q)
  {
    forall i | 0 <= i < |front| + 1
      ensures Became(s, q.lib, q.placed[i], c.project, (front + [snap])[i], c.now)
    {
      if i < |front| {
        assert q.placed[i] == p.placed[i] && SameDocument(p.lib, q.lib, p.placed[i]);
      }
    }
  }

  // ---------------------------------------------------------------- the whole sync

  /** A document of the source carries a snapshot and became what that snapshot makes of it;
      any other document keeps its row, its archive and its index row. */
  ghost predicate Effect(
    s: Library, t: Library, source: SourceId, project: ProjectId, snaps: seq<Snapshot>, now: Instant, d: DocumentId)
  {
    if (source, d) in t.memberships then exists i :: 0 <= i < |snaps| && Became(s, t, d, project, snaps[i], now)
    else d in s.documents && SameDocument(s, t, d)
  }

  lemma FinishKeepsEffects(s: Library, c: Scan, snaps: seq<Snapshot>, p: Progress, d: DocumentId)
    requires Consistent(s) && Consistent(p.lib) && Invariant(s, c, snaps, p) && AllBecame(s, c, snaps, p)
    requires c.source in s.sources && c.members == Members(s, c.source)
    requires d in Finish(p, c).documents
    ensures Effect(s, Finish(p, c), c.source, c.project, snaps, c.now, d)
  {
    var t := Finish(p, c);
    FinishFacts(p, c);
    FinishMemberships(s, c, snaps, p);
    assert (c.source, d) in t.memberships <==> d in Members(t, c.source);
    FinishKeepsDocument(p, c, d);
    if d in p.placed {
      var i :| 0 <= i < |snaps| && p.placed[i] == d;
      BecameStays(s, p.lib, t, d, c.project, snaps[i], c.now);
    } else {
      assert SameDocument(s, p.lib, d);
    }
  }

  lemma BecameStays(
    s: Library, t: Library, u: Library, d: DocumentId, project: ProjectId, snap: Snapshot, now: Instant)
    requires Became(s, t, d, project, snap, now) && SameDocument(t, u, d) && d in u.history
    ensures Became(s, u, d, project, snap, now)
  {}

  lemma FinishKeepsDocument(p: Progress, c: Scan, d: DocumentId)
    requires d in Finish(p, c).documents
    ensures d in p.lib.documents && SameDocument(p.lib, Finish(p, c), d)
    ensures d in p.lib.history <==> d in Finish(p, c).history
  {}

  /** Every document that is there after a committed sync is accounted for. */
  lemma DocumentsAreAccountedFor(s: Library, source: SourceId, snaps: seq<Snapshot>, now: Instant)
    requires Consistent(s) && Sync(s, source, snaps, now).1.Synced?
    ensures source in s.sources
    ensures var t := Sync(s, source, snaps, now).0;
      forall d :: d in t.documents ==> Effect(s, t, source, s.sources[source].project, snaps, now, d)
  {
    var c, p := Committed(s, source, snaps, now);
    RunBecomes(s, c, snaps);
    forall d | d in Finish(p, c).documents ensures Effect(s, Finish(p, c), source, c.project, snaps, now, d) {
      FinishKeepsEffects(s, c, snaps, p, d);
    }
  }

  /** A row `d` with archive `h` and what it is later, `e` with archive `k`.  Superseding a
      hashed row archives what it held; no archived row is ever altered; a row whose text
      stays keeps its revision. */
  ghost predicate ArchivesWhatItReplaces(d: Document, h: RevisionTable, e: Document, k: RevisionTable, now: Instant) {
    && (e.digest == d.digest ==> e.revision == d.revision && k.Keys <= h.Keys)
    && (e.digest != d.digest ==>
          && e.revision == d.revision + 1 && e.updatedAt == now
          && e.previousDigest == d.digest && e.supersededAt == Some(now))
    && (e.digest != d.digest && d.digest.Some? ==>
          && d.digest.value == Sha256(d.content)
          && d.revision in k
          && k[d.revision] == Archived(d.project, d.content, d.digest.value, d.updatedAt, now))
    && (forall q :: q in k && q != d.revision ==> q in h && k[q] == h[q])
  }

  lemma RevisedArchives(
    d: Document, h: RevisionTable, e: Document, k: RevisionTable, snap: Snapshot, now: Instant)
    requires Revised(d, h, e, k, snap, now) && DigestMatches(d)
    ensures ArchivesWhatItReplaces(d, h, e, k, now)
  {}

  lemma SupersededIsArchived(s: Library, source: SourceId, snaps: seq<Snapshot>, now: Instant, d: DocumentId)
    requires Consistent(s) && Sync(s, source, snaps, now).1.Synced?
    requires d in s.documents && d in Sync(s, source, snaps, now).0.documents
    ensures var t := Sync(s, source, snaps, now).0;
      && d in s.history && d in t.history
      && ArchivesWhatItReplaces(s.documents[d], s.history[d], t.documents[d], t.history[d], now)
  {
    var t := Sync(s, source, snaps, now).0;
    DocumentsAreAccountedFor(s, source, snaps, now);
    SyncMirrorsTheSource(s, source, snaps, now);
    EffectArchives(s, t, source, s.sources[source].project, snaps, now, d);
  }

  lemma EffectArchives(
    s: Library, t: Library, source: SourceId, project: ProjectId, snaps: seq<Snapshot>, now: Instant, d: DocumentId)
    requires RowsSound(s) && d in s.documents && d in t.history && Effect(s, t, source, project, snaps, now, d)
    ensures d in t.documents && d in t.history
    ensures ArchivesWhatItReplaces(s.documents[d], s.history[d], t.documents[d], t.history[d], now)
  {
    assert DigestMatches(s.documents[d]);
    if (source, d) in t.memberships {
      var i :| 0 <= i < |snaps| && Became(s, t, d, project, snaps[i], now);
      RevisedArchives(s.documents[d], s.history[d], t.documents[d], t.history[d], snaps[i], now);
    }
  }

  // ---------------------------------------------------------------- the counters

  type Rows = map<DocumentId, Document>

  function NewOnes(s: Rows, placed: set<DocumentId>): set<DocumentId> {
    set d | d in placed && d !in s
  }

  function Altered(s: Rows, t: Rows, placed: set<DocumentId>): set<DocumentId> {
    set d | d in placed && d in s && d in t && t[d] != s[d]
  }

  function Unaltered(s: Rows, t: Rows, placed: set<DocumentId>): set<DocumentId> {
    set d | d in placed && d in s && d in t && t[d] == s[d]
  }

  function Relocated(s: Rows, t: Rows, placed: set<DocumentId>): set<DocumentId> {
    set d | d in placed && d in s && d in t && t[d].key != s[d].key
  }

  /** Each counter counts the rows it is named after. */
  ghost predicate Counted(s: Rows, t: Rows, placed: set<DocumentId>, counts: Counts) {
    && counts.added == |NewOnes(s, placed)|
    && counts.updated == |Altered(s, t, placed)|
    && counts.same == |Unaltered(s, t, placed)|
    && counts.moved == |Relocated(s, t, placed)|
  }

  /** What a step that places `id` adds to each counter. */
  ghost predicate CountsOne(s: Rows, t: Rows, id: DocumentId, before: Counts, after: Counts)
    requires id in t
  {
    && after.added == before.added + (if id in s then 0 else 1)
    && after.updated == before.updated + (if id in s && t[id] != s[id] then 1 else 0)
    && after.same == before.same + (if id in s && t[id] == s[id] then 1 else 0)
    && after.moved == before.moved + (if id in s && t[id].key != s[id].key then 1 else 0)
  }

  lemma StepCountsOne(p: Progress, c: Scan, snap: Snapshot)
    requires SyncOne(p, c, snap).Some? && snap.key in c.keys
    ensures var q, id := SyncOne(p, c, snap).value, Target(p, c, snap);
      id in q.lib.documents && CountsOne(p.lib.documents, q.lib.documents, id, p.counts, q.counts)
  {}

  lemma Grows(a: set<DocumentId>, b: set<DocumentId>, id: DocumentId, more: bool)
    requires id !in a && b == (if more then a + {id} else a)
    ensures |b| == |a| + (if more then 1 else 0)
  {}

  /** The rows `t` become `u` by placing `id`. */
  ghost predicate Placing(t: Rows, u: Rows, placed: set<DocumentId>, id: DocumentId) {
    id !in placed && id in u && forall d :: d in placed ==> d in t && d in u && u[d] == t[d]
  }

  lemma AlteredGrows(s: Rows, t: Rows, u: Rows, placed: set<DocumentId>, id: DocumentId)
    requires Placing(t, u, placed, id)
    ensures |Altered(s, u, placed + {id})| == |Altered(s, t, placed)| + (if id in s && u[id] != s[id] then 1 else 0)
  {
    Grows(Altered(s, t, placed), Altered(s, u, placed + {id}), id, id in s && u[id] != s[id]);
  }

  lemma UnalteredGrows(s: Rows, t: Rows, u: Rows, placed: set<DocumentId>, id: DocumentId)
    requires Placing(t, u, placed, id)
    ensures |Unaltered(s, u, placed + {id})| == |Unaltered(s, t, placed)| + (if id in s && u[id] == s[id] then 1 else 0)
  {
    Grows(Unaltered(s, t, placed), Unaltered(s, u, placed + {id}), id, id in s && u[id] == s[id]);
  }

  lemma RelocatedGrows(s: Rows, t: Rows, u: Rows, placed: set<DocumentId>, id: DocumentId)
    requires Placing(t, u, placed, id)
    ensures |Relocated(s, u, placed + {id})| ==
            |Relocated(s, t, placed)| + (if id in s && u[id].key != s[id].key then 1 else 0)
  {
    Grows(Relocated(s, t, placed), Relocated(s, u, placed + {id}), id, id in s && u[id].key != s[id].key);
  }

  lemma PlacingCounts(s: Rows, t: Rows, u: Rows, placed: set<DocumentId>, id: DocumentId, before: Counts, after: Counts)
    requires Placing(t, u, placed, id)
    requires CountsOne(s, u, id, before, after) && Counted(s, t, placed, before)
    ensures Counted(s, u, placed + {id}, after)
  {
    Grows(NewOnes(s, placed), NewOnes(s, placed + {id}), id, id !in s);
    AlteredGrows(s, t, u, placed, id);
    UnalteredGrows(s, t, u, placed, id);
    RelocatedGrows(s, t, u, placed, id);
  }

  lemma StepCounts(s: Library, c: Scan, front: seq<Snapshot>, p: Progress, snap: Snapshot)
    requires Running(s, c, front, p, snap) && Counted(s.documents, p.lib.documents, Seen(p), p.counts)
    ensures var q := SyncOne(p, c, snap).value; Counted(s.documents, q.lib.documents, Seen(q), q.counts)
  {
    var q := SyncOne(p, c, snap).value;
    var id := RunningTarget(s, c, front, p, snap);
    StepCountsOne(p, c, snap);
    LocalKeepsRowsOf(p, q, c, id, snap);
    forall d | d in Seen(p) ensures d in p.lib.documents {}
    PlacingCounts(s.documents, p.lib.documents, q.lib.documents, Seen(p), id, p.counts, q.counts);
  }

  lemma LocalKeepsRowsOf(p: Progress, q: Progress, c: Scan, id: DocumentId, snap: Snapshot)
    requires Local(p, q, c, id, snap)
    ensures Seen(q) == Seen(p) + {id}
    ensures forall d :: d in p.lib.documents && d != id ==>
      d in q.lib.documents && q.lib.documents[d] == p.lib.documents[d]
  {
    forall d | d in p.lib.documents && d != id
      ensures d in q.lib.documents && q.lib.documents[d] == p.lib.documents[d]
    {
      assert SameDocument(p.lib, q.lib, d);
    }
  }

  lemma {:induction false} RunCounts(s: Library, c: Scan, snaps: seq<Snapshot>)
    requires Consistent(s) && c.source in s.sources && c.project == s.sources[c.source].project
    requires c.members <= Members(s, c.source) && Keys(snaps) <= c.keys && DistinctKeys(snaps)
    requires SyncRun(Start(s), c, snaps).Some?
    ensures var p := SyncRun(Start(s), c, snaps).value; Counted(s.documents, p.lib.documents, Seen(p), p.counts)
  {
    if snaps == [] {
      assert Seen(Start(s)) == {};
    } else {
      var front, last := snaps[..|snaps| - 1], snaps[|snaps| - 1];
      RunningFrom(s, c, snaps);
      RunCounts(s, c, front);
      StepCounts(s, c, front, SyncRun(Start(s), c, front).value, last);
    }
  }

  lemma CountedAgain(s: Rows, t: Rows, u: Rows, placed: set<DocumentId>, counts: Counts)
    requires forall d :: d in placed ==> d in t && d in u && u[d] == t[d]
    requires Counted(s, t, placed, counts)
    ensures Counted(s, u, placed, counts)
  {
    assert Altered(s, u, placed) == Altered(s, t, placed);
    assert Unaltered(s, u, placed) == Unaltered(s, t, placed);
    assert Relocated(s, u, placed) == Relocated(s, t, placed);
  }

  lemma FinishRows(s: Library, c: Scan, snaps: seq<Snapshot>, p: Progress)
    requires Consistent(s) && Consistent(p.lib) && Invariant(s, c, snaps, p)
    requires c.source in s.sources && c.members == Members(s, c.source)
    ensures var t := Finish(p, c);
      && Members(t, c.source) == Seen(p)
      && (forall d :: d in Seen(p) ==> d in p.lib.documents && d in t.documents && t.documents[d] == p.lib.documents[d])
      && NewOnes(s.documents, Seen(p)) == t.documents.Keys - s.documents.Keys
  {
    var t := Finish(p, c);
    FinishFacts(p, c);
    FinishMemberships(s, c, snaps, p);
    forall d | d in Seen(p) ensures d in t.documents {
      assert (c.source, d) in t.memberships;
    }
  }

  lemma RemovedRows(s: Library, c: Scan, snaps: seq<Snapshot>, p: Progress)
    requires Consistent(s) && Invariant(s, c, snaps, p)
    requires c.source in s.sources && c.members == Members(s, c.source)
    ensures Removed(p, c) == |s.documents.Keys - Finish(p, c).documents.Keys|
  {
    var stale := c.members - Seen(p);
    var gone := Orphans(Detached(p.lib, c.source, stale), stale);
    forall d | d in c.members ensures d in s.documents { assert (c.source, d) in s.memberships; }
    assert Finish(p, c).documents.Keys == p.lib.documents.Keys - gone;
    assert gone * p.lib.documents.Keys == s.documents.Keys - Finish(p, c).documents.Keys;
  }

  /** The counters of a committed sync count rows: the documents that were not there before,
      the known ones whose row differs from what it was, those whose row does not, those that
      changed their path, and the ones that are gone. */
  lemma CountersCountRows(s: Library, source: SourceId, snaps: seq<Snapshot>, now: Instant)
    requires Consistent(s) && Sync(s, source, snaps, now).1.Synced?
    ensures var (t, o) := Sync(s, source, snaps, now);
      var placed := Members(t, source);
      && o.scanned == |snaps|
      && o.counts.added == |t.documents.Keys - s.documents.Keys|
      && o.counts.updated == |Altered(s.documents, t.documents, placed)|
      && o.counts.same == |Unaltered(s.documents, t.documents, placed)|
      && o.counts.moved == |Relocated(s.documents, t.documents, placed)|
      && o.removed == |s.documents.Keys - t.documents.Keys|
  {
    var c, p := Committed(s, source, snaps, now);
    RunCounts(s, c, snaps);
    FinishRows(s, c, snaps, p);
    RemovedRows(s, c, snaps, p);
    CountedAgain(s.documents, p.lib.documents, Finish(p, c).documents, Seen(p), p.counts);
  }

  // ---------------------------------------------------------------- which document a file becomes

  /** No document of the project is stored at the path of the snapshot. */
  ghost predicate PathIsNew(s: Library, project: ProjectId, snap: Snapshot) {
    forall e :: e in s.documents && s.documents[e].project == project ==> s.documents[e].key != snap.key
  }

  /** The documents of the source with that file identity whose path is in the scan no more. */
  function Vanished(s: Library, source: SourceId, snaps: seq<Snapshot>, identity: string): set<DocumentId> {
    set m | m in s.memberships && m.0 == source && m.1 in s.documents
            && s.documents[m.1].identity == Some(identity)
            && s.documents[m.1].key !in (set snap | snap in snaps :: snap.key) :: m.1
  }

  /** The file was moved here: it is the first file at a new path with this identity, and one
      document vanished that had it. */
  ghost predicate MovedHere(
    s: Library, source: SourceId, project: ProjectId, snaps: seq<Snapshot>, i: nat, d: DocumentId)
    requires i < |snaps|
  {
    && PathIsNew(s, project, snaps[i]) && snaps[i].identity.Some?
    && Vanished(s, source, snaps, snaps[i].identity.value) == {d}
    && forall j :: 0 <= j < i && PathIsNew(s, project, snaps[j]) ==> snaps[j].identity != snaps[i].identity
  }

  /** The document of a file: the one stored at its path, else the vanished one that moved
      here, else a new one with the id of the path. */
  ghost predicate Becomes(
    s: Library, source: SourceId, project: ProjectId, snaps: seq<Snapshot>, i: nat, d: DocumentId)
    requires i < |snaps|
  {
    if !PathIsNew(s, project, snaps[i]) then
      d in s.documents && s.documents[d].project == project && s.documents[d].key == snaps[i].key
    else if d in s.documents then MovedHere(s, source, project, snaps, i, d)
    else d == DocumentUuid(project, snaps[i].key) && forall e :: !MovedHere(s, source, project, snaps, i, e)
  }

  ghost predicate PlacedByFate(s: Library, c: Scan, snaps: seq<Snapshot>, n: nat, p: Progress)
    requires n <= |snaps|
  {
    |p.placed| == n && forall i :: 0 <= i < n ==> (p.placed[i] in s.documents <==> !WillAdd(s, c, snaps, i))
  }

  lemma {:induction false} RunPlaces(s: Library, c: Scan, snaps: seq<Snapshot>, n: nat)
    requires n <= |snaps| && Consistent(s) && c.source in s.sources && c.project == s.sources[c.source].project
    requires c.members == Members(s, c.source) && c.keys == Keys(snaps) && DistinctKeys(snaps)
    requires SyncRun(Start(s), c, snaps[..n]).Some?
    ensures PlacedByFate(s, c, snaps, n, SyncRun(Start(s), c, snaps[..n]).value)
  {
    if n > 0 {
      var m := n - 1;
      PrefixOfRun(Start(s), c, snaps, m);
      RunPlaces(s, c, snaps, m);
      StepPlaces(s, c, snaps, m, SyncRun(Start(s), c, snaps[..m]).value);
    }
  }

  lemma StandingAt(s: Library, c: Scan, snaps: seq<Snapshot>, m: nat, p: Progress)
    requires m <= |snaps| && Consistent(s) && c.source in s.sources && c.project == s.sources[c.source].project
    requires c.members == Members(s, c.source) && c.keys == Keys(snaps) && DistinctKeys(snaps)
    requires SyncRun(Start(s), c, snaps[..m]) == Some(p)
    ensures |p.placed| == m && Standing(s, c, snaps, p, m)
  {
    PrefixFailsIff(s, c, snaps, m);
    assert Keys(snaps[..m]) <= c.keys;
    WholeRun(s, c, snaps[..m]);
    MembersStay(s, c, snaps[..m], p);
  }

  lemma StepPlaces(s: Library, c: Scan, snaps: seq<Snapshot>, m: nat, p: Progress)
    requires m < |snaps| && Consistent(s) && c.source in s.sources && c.project == s.sources[c.source].project
    requires c.members == Members(s, c.source) && c.keys == Keys(snaps) && DistinctKeys(snaps)
    requires SyncRun(Start(s), c, snaps[..m]) == Some(p) && PlacedByFate(s, c, snaps, m, p)
    requires SyncOne(p, c, snaps[m]).Some?
    ensures PlacedByFate(s, c, snaps, m + 1, SyncOne(p, c, snaps[m]).value)
  {
    StandingAt(s, c, snaps, m, p);
    TargetIsNewIff(s, c, snaps, m, p);
    PlacesTarget(p, c, snaps[m]);
  }

  lemma PlacesTarget(p: Progress, c: Scan, snap: Snapshot)
    requires SyncOne(p, c, snap).Some?
    ensures SyncOne(p, c, snap).value.placed == p.placed + [Target(p, c, snap)]
  {}

  lemma TargetIsNewIff(s: Library, c: Scan, snaps: seq<Snapshot>, m: nat, p: Progress)
    requires m < |snaps| && Standing(s, c, snaps, p, m) && SyncOne(p, c, snaps[m]).Some?
    ensures Target(p, c, snaps[m]) in s.documents <==> !WillAdd(s, c, snaps, m)
  {
    FateIsStatic(s, c, snaps, p, m);
    if !FateOf(p.lib, c, Seen(p), snaps[m]).AddNew? { KnownTargetIsFresh(s, c, snaps, p, m); }
  }

  lemma CandidatesVanished(s: Library, source: SourceId, snaps: seq<Snapshot>, now: Instant, snap: Snapshot)
    requires source in s.sources && snap.identity.Some?
    ensures MoveCandidates(s, ScanOf(s, source, snaps, now), {}, snap) ==
            Vanished(s, source, snaps, snap.identity.value)
  {
    forall d ensures d in Members(s, source) <==> (source, d) in s.memberships {}
    assert Keys(snaps) == set x | x in snaps :: x.key;
  }

  lemma PlacedBecomes(
    s: Library, source: SourceId, snaps: seq<Snapshot>, now: Instant, c: Scan, p: Progress, i: nat)
    requires source in s.sources && c == ScanOf(s, source, snaps, now) && i < |snaps|
    requires PlacedByFate(s, c, snaps, |snaps|, p) && Origins(s, c, snaps, p)
    ensures Becomes(s, source, c.project, snaps, i, p.placed[i])
  {
    var d := p.placed[i];
    assert Origin(s, c, snaps[i], d);
    forall j | 0 <= j <= i ensures Unplaced(s, c, snaps[j]) <==> PathIsNew(s, c.project, snaps[j]) {
      assert forall e :: AtKey(s, c.project, snaps[j].key, e) <==>
        e in s.documents && s.documents[e].project == c.project && s.documents[e].key == snaps[j].key;
    }
    if snaps[i].identity.Some? { CandidatesVanished(s, source, snaps, now, snaps[i]); }
  }

  /** After a committed sync each file is carried by exactly the document it should be. */
  lemma EachFileKeepsItsDocument(
    s: Library, source: SourceId, snaps: seq<Snapshot>, now: Instant, i: nat, d: DocumentId)
    requires Consistent(s) && Sync(s, source, snaps, now).1.Synced? && i < |snaps|
    requires var t := Sync(s, source, snaps, now).0;
      (source, d) in t.memberships && d in t.documents && t.documents[d].key == snaps[i].key
    ensures source in s.sources && Becomes(s, source, s.sources[source].project, snaps, i, d)
  {
    var c, p := Committed(s, source, snaps, now);
    AllPlaced(s, source, snaps, now, c, p);
    FinishRows(s, c, snaps, p);
    assert d in Members(Finish(p, c), source);
    assert p.placed[i] == d by { OnlyCarrier(s, c, snaps, p, i, d); }
    PlacedBecomes(s, source, snaps, now, c, p, i);
  }

  lemma AllPlaced(s: Library, source: SourceId, snaps: seq<Snapshot>, now: Instant, c: Scan, p: Progress)
    requires Consistent(s) && source in s.sources && c == ScanOf(s, source, snaps, now) && DistinctKeys(snaps)
    requires SyncRun(Start(s), c, snaps) == Some(p)
    ensures PlacedByFate(s, c, snaps, |snaps|, p) && Origins(s, c, snaps, p)
  {
    assert snaps[..|snaps|] == snaps;
    RunPlaces(s, c, snaps, |snaps|);
    StandingAt(s, c, snaps, |snaps|, p);
  }

  lemma OnlyCarrier(s: Library, c: Scan, snaps: seq<Snapshot>, p: Progress, i: nat, d: DocumentId)
    requires Invariant(s, c, snaps, p) && DistinctKeys(snaps) && i < |snaps|
    requires d in Seen(p) && d in p.lib.documents && p.lib.documents[d].key == snaps[i].key
    ensures p.placed[i] == d
  {
    var j :| 0 <= j < |p.placed| && p.placed[j] == d;
    assert Matches(p.lib.documents[d], c.project, snaps[j]);
  }

  // ---------------------------------------------------------------- the time of the index rows

  /** An index row written by a sync is the text of its document at the time of the sync; it
      is written unless the text stayed and a row was there. */
  ghost predicate IndexFollowed(s: Library, t: Library, d: DocumentId, now: Instant)
    requires d in t.documents
  {
    var k := ElectedDocument(d);
    && k in t.lexical
    && t.lexical[k] ==
       if d in s.documents && k in s.lexical && t.documents[d].digest == s.documents[d].digest then s.lexical[k]
       else LexicalEntry(t.documents[d].project, None, None, t.documents[d].content, now)
  }

  lemma AddFollows(s: Library, p: Progress, c: Scan, snap: Snapshot)
    requires Add(p, c, snap).Some? && DocumentUuid(c.project, snap.key) !in s.documents && RowsAgree(p.lib)
    ensures IndexFollowed(s, Add(p, c, snap).value.lib, DocumentUuid(c.project, snap.key), c.now)
  {}

  lemma RefreshFollows(s: Library, p: Progress, c: Scan, id: DocumentId, snap: Snapshot, moved: bool)
    requires id in s.documents && SameDocument(s, p.lib, id) && s.documents[id].project == c.project
    requires DigestMatches(s.documents[id]) && RowsAgree(p.lib) && Refresh(p, c, id, snap, moved).Some?
    ensures IndexFollowed(s, Refresh(p, c, id, snap, moved).value.lib, id, c.now)
  {
    if ElectedDocument(id) in p.lib.lexical { assert Indexed(p.lib, id); }
  }

  lemma TargetFollows(s: Library, p: Progress, c: Scan, snap: Snapshot, id: DocumentId)
    requires SyncOne(p, c, snap).Some? && id == Target(p, c, snap) && RowsSound(s) && RowsAgree(p.lib)
    requires id in p.lib.documents ==> id in s.documents && SameDocument(s, p.lib, id)
    requires id in p.lib.documents ==> p.lib.documents[id].project == c.project
    requires id in s.documents ==> id in p.lib.documents
    requires id in p.lib.documents <==> !FateOf(p.lib, c, Seen(p), snap).AddNew?
    ensures id in SyncOne(p, c, snap).value.lib.documents && IndexFollowed(s, SyncOne(p, c, snap).value.lib, id, c.now)
  {
    match FateOf(p.lib, c, Seen(p), snap) {
      case AddNew => AddFollows(s, p, c, snap);
      case Keep(_) => RefreshFollows(s, p, c, id, snap, false);
      case Move(_) => RefreshFollows(s, p, c, id, snap, true);
    }
  }

  lemma StepFollows(s: Library, c: Scan, front: seq<Snapshot>, p: Progress, snap: Snapshot)
    requires Running(s, c, front, p, snap) && RowsAgree(p.lib)
    requires forall d :: d in p.placed ==> d in p.lib.documents && IndexFollowed(s, p.lib, d, c.now)
    ensures var q := SyncOne(p, c, snap).value;
      forall d :: d in q.placed ==> d in q.lib.documents && IndexFollowed(s, q.lib, d, c.now)
  {
    var q := SyncOne(p, c, snap).value;
    var id := RunningTarget(s, c, front, p, snap);
    TargetFollows(s, p, c, snap, id);
    forall d | d in p.placed ensures d in q.lib.documents && IndexFollowed(s, q.lib, d, c.now) {
      assert SameDocument(p.lib, q.lib, d);
    }
  }

  lemma {:induction false} RunFollows(s: Library, c: Scan, snaps: seq<Snapshot>)
    requires Consistent(s) && c.source in s.sources && c.project == s.sources[c.source].project
    requires c.members <= Members(s, c.source) && Keys(snaps) <= c.keys && DistinctKeys(snaps)
    requires SyncRun(Start(s), c, snaps).Some? && RowsAgree(s)
    ensures var p := SyncRun(Start(s), c, snaps).value;
      forall d :: d in p.placed ==> d in p.lib.documents && IndexFollowed(s, p.lib, d, c.now)
  {
    if snaps != [] {
      var front, last := snaps[..|snaps| - 1], snaps[|snaps| - 1];
      RunningFrom(s, c, snaps);
      RunAgrees(s, c, front);
      RunFollows(s, c, front);
      StepFollows(s, c, front, SyncRun(Start(s), c, front).value, last);
    }
  }

  /** A sync stamps its source and nothing else of it, and every index row it writes. */
  lemma SyncStampsWhatItWrites(s: Library, source: SourceId, snaps: seq<Snapshot>, now: Instant)
    requires Consistent(s) && RowsAgree(s) && Sync(s, source, snaps, now).1.Synced?
    ensures source in s.sources
    ensures var t := Sync(s, source, snaps, now).0;
      && t.sources == s.sources[source := s.sources[source].(updatedAt := now, lastSyncedAt := Some(now))]
      && (forall d :: (source, d) in t.memberships ==> d in t.documents && IndexFollowed(s, t, d, now))
  {
    var c, p := Committed(s, source, snaps, now);
    RunFollows(s, c, snaps);
    FinishRows(s, c, snaps, p);
    FinishFacts(p, c);
    FinishKeepsIndex(p, c);
    var t := Finish(p, c);
    forall d | (source, d) in t.memberships ensures d in t.documents && IndexFollowed(s, t, d, now) {
      assert d in Members(t, source);
    }
  }

  lemma FinishKeepsIndex(p: Progress, c: Scan)
    ensures forall d :: d in Finish(p, c).documents && ElectedDocument(d) in p.lib.lexical ==>
      && ElectedDocument(d) in Finish(p, c).lexical
      && Finish(p, c).lexical[ElectedDocument(d)] == p.lib.lexical[ElectedDocument(d)]
  {}
}
