/** Election and synchronisation of local document sources (`library/document_registry.py`). */
module DocumentRegistry {
  import opened Schema
  import opened LexicalIndexer

  const MAX_HISTORICAL_REVISIONS := 10

  datatype Snapshot = Snapshot(
    displayName: string, reference: string, key: string, documentType: DocumentType,
    content: string, fileSize: nat, modifiedTimeNs: int, identity: Option<string>)

  datatype Counts = Counts(added: nat, updated: nat, same: nat, moved: nat)

  datatype SyncOutcome =
    | Synced(scanned: nat, counts: Counts, removed: nat)
    | UnknownSource
    | DuplicatePaths
    | IntegrityConflict

  // ---------------------------------------------------------------- consistency

  /** What the schema and the writers keep true of the document tables. */
  ghost predicate Consistent(s: Library) {
    && MembershipsNameRows(s)
    && (forall d :: d in s.documents ==> HasMembership(s, d))
    && UniquePaths(s)
    && RowsSound(s)
  }

  ghost predicate MembershipsNameRows(s: Library) {
    forall m :: m in s.memberships ==>
      m.0 in s.sources && m.1 in s.documents && s.documents[m.1].project == s.sources[m.0].project
  }

  ghost predicate RowsSound(s: Library) {
    && s.history.Keys == s.documents.Keys
    && (forall d :: d in s.documents ==> DigestMatches(s.documents[d]) && HistoryPrecedes(s, d))
  }

  ghost predicate HasMembership(s: Library, d: DocumentId) {
    exists x :: (x, d) in s.memberships
  }

  /** `UNIQUE(project_id, local_source_key)` and `UNIQUE(project_id, local_source_reference)`. */
  ghost predicate UniquePaths(s: Library) {
    forall d, e | d in s.documents && e in s.documents && d != e ::
      !SamePath(s.documents[d], s.documents[e].project, s.documents[e].key, s.documents[e].reference)
  }

  predicate SamePath(d: Document, project: ProjectId, key: string, reference: string) {
    d.project == project && (d.key == key || d.reference == reference)
  }

  predicate DigestMatches(d: Document) {
    d.digest.Some? ==> d.digest.value == Sha256(d.content)
  }

  ghost predicate HistoryPrecedes(s: Library, d: DocumentId)
    requires d in s.documents && d in s.history
  {
    && 0 < s.documents[d].revision
    && forall r :: r in s.history[d] ==> 0 < r < s.documents[d].revision
  }

  /** The lexical rows of documents are exactly the documents, project and content included. */
  ghost predicate DocumentsIndexed(s: Library) {
    && (forall d :: d in s.documents <==> ElectedDocument(d) in s.lexical)
    && (forall d :: d in s.documents ==> Indexed(s, d))
  }

  predicate Indexed(s: Library, d: DocumentId)
    requires d in s.documents
  {
    && ElectedDocument(d) in s.lexical
    && s.lexical[ElectedDocument(d)].project == s.documents[d].project
    && s.lexical[ElectedDocument(d)].chat == None
    && s.lexical[ElectedDocument(d)].role == None
    && s.lexical[ElectedDocument(d)].content == s.documents[d].content
  }

  // ---------------------------------------------------------------- one snapshot

  /** What a sync fixes before its loop: the source, its project, the documents that were
      members, the path keys of this scan, and the time. */
  datatype Scan = Scan(source: SourceId, project: ProjectId, members: set<DocumentId>, keys: set<string>, now: Instant)

  function Members(s: Library, source: SourceId): set<DocumentId> {
    set m | m in s.memberships && m.0 == source :: m.1
  }

  function Keys(snaps: seq<Snapshot>): set<string> {
    set snap | snap in snaps :: snap.key
  }

  function ScanOf(s: Library, source: SourceId, snaps: seq<Snapshot>, now: Instant): Scan
    requires source in s.sources
  {
    Scan(source, s.sources[source].project, Members(s, source), Keys(snaps), now)
  }

  predicate AtKey(s: Library, project: ProjectId, key: string, d: DocumentId) {
    d in s.documents && s.documents[d].project == project && s.documents[d].key == key
  }

  /** Documents of this source, not yet seen, whose path vanished from the scan and whose
      file identity is the snapshot's. */
  function MoveCandidates(s: Library, c: Scan, seen: set<DocumentId>, snap: Snapshot): set<DocumentId> {
    set d | d in c.members && d in s.documents && s.documents[d].identity == snap.identity
      && s.documents[d].key !in c.keys && d !in seen
  }

  datatype Fate = AddNew | Keep(id: DocumentId) | Move(id: DocumentId)

  ghost function FateOf(s: Library, c: Scan, seen: set<DocumentId>, snap: Snapshot): (f: Fate)
    ensures f.Keep? ==> AtKey(s, c.project, snap.key, f.id)
    ensures f.Move? ==> f.id in MoveCandidates(s, c, seen, snap)
    ensures !f.Keep? ==> forall d :: !AtKey(s, c.project, snap.key, d)
  {
    if d :| AtKey(s, c.project, snap.key, d) then Keep(d)
    else
      var candidates := MoveCandidates(s, c, seen, snap);
      if snap.identity.Some? && |candidates| == 1 then (var d :| d in candidates; Move(d)) else AddNew
  }

  /** A unique index rejects the row because another document already holds the path. */
  predicate PathTaken(s: Library, self: DocumentId, project: ProjectId, snap: Snapshot) {
    exists e :: e in s.documents && e != self && SamePath(s.documents[e], project, snap.key, snap.reference)
  }

  predicate ContentChanged(d: Document, snap: Snapshot) {
    d.digest != Some(Sha256(snap.content))
  }

  predicate MetadataChanged(d: Document, snap: Snapshot) {
    || d.displayName != snap.displayName || d.documentType != snap.documentType
    || d.reference != snap.reference || d.key != snap.key
    || d.fileSize != Some(snap.fileSize) || d.modifiedTimeNs != Some(snap.modifiedTimeNs)
    || d.identity != snap.identity
  }

  function NewDocument(project: ProjectId, snap: Snapshot, now: Instant): Document {
    Document(project, snap.displayName, snap.documentType, snap.reference, snap.content, now, snap.key,
             Some(Sha256(snap.content)), Some(snap.fileSize), Some(snap.modifiedTimeNs), snap.identity,
             None, None, 1)
  }

  function Rewritten(d: Document, snap: Snapshot, now: Instant): Document {
    var changed := ContentChanged(d, snap);
    NewDocument(d.project, snap, now).(
      previousDigest := if changed then d.digest else d.previousDigest,
      supersededAt := if changed then Some(now) else d.supersededAt,
      revision := if changed then d.revision + 1 else d.revision)
  }

  function HistoryOf(s: Library, d: DocumentId): RevisionTable {
    if d in s.history then s.history[d] else map[]
  }

  /** The trigger archives the old revision when both hashes are present and differ; a row
      without a hash compares as NULL and is not archived. */
  function AfterTrigger(h: RevisionTable, d: Document, snap: Snapshot, now: Instant): RevisionTable {
    if d.digest.Some? && ContentChanged(d, snap)
    then h[d.revision := Archived(d.project, d.content, d.digest.value, d.updatedAt, now)]
    else h
  }

  /** The newest bounded revisions: those with fewer than ten newer ones. */
  function Newest(h: RevisionTable): RevisionTable {
    map r | r in NewestOf(h.Keys) :: h[r]
  }

  function NewestOf(revisions: set<nat>): (kept: set<nat>)
    ensures kept <= revisions
  {
    set r | r in revisions && |Newer(revisions, r)| < MAX_HISTORICAL_REVISIONS
  }

  function Newer(revisions: set<nat>, r: nat): set<nat> {
    set q | q in revisions && q > r
  }

  datatype Progress = Progress(lib: Library, placed: seq<DocumentId>, counts: Counts)

  function Seen(p: Progress): set<DocumentId> {
    set d | d in p.placed
  }

  function Add(p: Progress, c: Scan, snap: Snapshot): Option<Progress> {
    var id := DocumentUuid(c.project, snap.key);
    if id in p.lib.documents || PathTaken(p.lib, id, c.project, snap) then None
    else
      Some(Progress(
        p.lib.(documents := p.lib.documents[id := NewDocument(c.project, snap, c.now)],
               history := p.lib.history[id := map[]],
               lexical := IndexDocument(p.lib.lexical, id, c.project, snap.content, c.now),
               memberships := p.lib.memberships + {(c.source, id)}),
        p.placed + [id], p.counts.(added := p.counts.added + 1)))
  }

  function Refresh(p: Progress, c: Scan, id: DocumentId, snap: Snapshot, moved: bool): Option<Progress>
    requires id in p.lib.documents
  {
    var d := p.lib.documents[id];
    var content := ContentChanged(d, snap);
    var rewrite := content || MetadataChanged(d, snap);
    var archived := AfterTrigger(HistoryOf(p.lib, id), d, snap, c.now);
    if rewrite && (PathTaken(p.lib, id, d.project, snap)
      || (d.digest.Some? && content && d.revision in HistoryOf(p.lib, id)))
    then None
    else
      Some(Progress(
        p.lib.(documents := if rewrite then p.lib.documents[id := Rewritten(d, snap, c.now)] else p.lib.documents,
               history := p.lib.history[id := Newest(if rewrite then archived else HistoryOf(p.lib, id))],
               lexical := if content || ElectedDocument(id) !in p.lib.lexical
                          then IndexDocument(p.lib.lexical, id, c.project, snap.content, c.now) else p.lib.lexical,
               memberships := p.lib.memberships + {(c.source, id)}),
        p.placed + [id],
        Counts(p.counts.added,
               if rewrite then p.counts.updated + 1 else p.counts.updated,
               if rewrite then p.counts.same else p.counts.same + 1,
               if moved then p.counts.moved + 1 else p.counts.moved)))
  }

  ghost function SyncOne(p: Progress, c: Scan, snap: Snapshot): Option<Progress> {
    match FateOf(p.lib, c, Seen(p), snap)
    case AddNew => Add(p, c, snap)
    case Keep(id) => Refresh(p, c, id, snap, false)
    case Move(id) => Refresh(p, c, id, snap, true)
  }

  /** The loop over the snapshots; `None` once a constraint has rejected a row. */
  ghost function SyncRun(p: Progress, c: Scan, snaps: seq<Snapshot>): Option<Progress> {
    if snaps == [] then Some(p)
    else
      var before := SyncRun(p, c, snaps[..|snaps| - 1]);
      if before.None? then None else SyncOne(before.value, c, snaps[|snaps| - 1])
  }

  // ---------------------------------------------------------------- whole operations

  function Orphans(s: Library, candidates: set<DocumentId>): set<DocumentId> {
    set d | d in candidates && d !in (set m | m in s.memberships :: m.1)
  }

  /** Index rows and documents go together; history and memberships cascade. */
  function DropDocuments(s: Library, gone: set<DocumentId>): Library {
    s.(documents := s.documents - gone,
       history := s.history - gone,
       memberships := (set m | m in s.memberships && m.1 !in gone),
       lexical := s.lexical - (set d | d in gone :: ElectedDocument(d)))
  }

  function Detached(s: Library, source: SourceId, stale: set<DocumentId>): Library {
    s.(memberships := set m | m in s.memberships && !(m.0 == source && m.1 in stale))
  }

  function Finish(p: Progress, c: Scan): Library {
    var stale := c.members - Seen(p);
    var detached := Detached(p.lib, c.source, stale);
    var cleaned := DropDocuments(detached, Orphans(detached, stale));
    if c.source in cleaned.sources
    then cleaned.(sources := cleaned.sources[c.source :=
                    cleaned.sources[c.source].(updatedAt := c.now, lastSyncedAt := Some(c.now))])
    else cleaned
  }

  function Removed(p: Progress, c: Scan): nat {
    var stale := c.members - Seen(p);
    |Orphans(Detached(p.lib, c.source, stale), stale) * p.lib.documents.Keys|
  }

  function Start(s: Library): Progress {
    Progress(s, [], Counts(0, 0, 0, 0))
  }

  /** `sync_elected_source`: commits as a whole or leaves every table as it was. */
  ghost function Sync(s: Library, source: SourceId, snaps: seq<Snapshot>, now: Instant): (Library, SyncOutcome) {
    if source !in s.sources then (s, UnknownSource)
    else if |Keys(snaps)| != |snaps| then (s, DuplicatePaths)
    else
      var c := ScanOf(s, source, snaps, now);
      var run := SyncRun(Start(s), c, snaps);
      if run.None? then (s, IntegrityConflict)
      else (Finish(run.value, c), Synced(|snaps|, run.value.counts, Removed(run.value, c)))
  }

  datatype Election = Elected(source: SourceId) | Unsuitable | UnknownProject | KindConflict

  /** What is found at the path of an election, links resolved. */
  datatype Found = Nothing | RegularFile(supportedSuffix: bool) | Directory | SomethingElse

  /** A file source is a regular text or markdown file, a directory source a directory. */
  predicate Suitable(kind: SourceKind, found: Found) {
    if kind == FileSource then found.RegularFile? && found.supportedSuffix else found.Directory?
  }

  ghost function SourceAt(s: Library, project: ProjectId, key: string): Option<SourceId> {
    if x :| x in s.sources && s.sources[x].project == project && s.sources[x].key == key then Some(x) else None
  }

  /** Its transaction: one row per project and path; electing again refreshes it. */
  ghost function Elect(
    s: Library, project: ProjectId, kind: SourceKind, name: string, reference: string, key: string, now: Instant)
    : (Library, Election)
  {
    if project !in s.projects then (s, UnknownProject)
    else
      var existing := SourceAt(s, project, key);
      if existing.Some? && s.sources[existing.value].kind != kind then (s, KindConflict)
      else if existing.Some? then
        var x := existing.value;
        (s.(sources := s.sources[x := s.sources[x].(displayName := name, reference := reference, updatedAt := now)]),
         Elected(x))
      else
        var x := SourceUuid(project, kind, key);
        (s.(sources := s.sources[x := Source(project, kind, name, reference, key, now, now, None)]), Elected(x))
  }

  /** `_elect_source` with what it finds at the path. */
  ghost function ElectFound(
    s: Library, project: ProjectId, kind: SourceKind, found: Found, name: string, reference: string, key: string,
    now: Instant)
    : (Library, Election)
  {
    if !Suitable(kind, found) then (s, Unsuitable) else Elect(s, project, kind, name, reference, key, now)
  }

  /** `unelect_source`: the memberships go with the source, then the documents nobody else has. */
  function Unelect(s: Library, source: SourceId): (Library, bool) {
    if source !in s.sources then (s, false)
    else
      var detached := s.(sources := s.sources - {source},
                         memberships := set m | m in s.memberships && m.0 != source);
      (DropDocuments(detached, Orphans(detached, Members(s, source))), true)
  }
}
