/** Concrete runs in which the library does less than it might be expected to. */
module LibraryIncidents {
  import opened Schema
  import opened LexicalIndexer
  import opened DocumentRegistry
  import opened DocumentSync
  import opened ElectedSources
  import opened ChatHistory
  import opened ChatIngestion
  import opened LibraryRuns

  // ---------------------------------------------------------------- chats

  const NEW_REFERENCE := NEW_CHAT + "1"
  const STABLE_REFERENCE := "c1"

  /** A turn submitted on a new-chat page. */
  const SUBMITTED := ChatEvent(
    "m1", ChatGptWeb, None, NEW_REFERENCE, Some("t"), User, "hi", 0, None, None, None)

  /** The rebind of that chat, without a title. */
  const REBOUND := SUBMITTED.(id := "m2", chatReference := STABLE_REFERENCE, rebindFrom := Some(NEW_REFERENCE))

  /** The same turn observed under the stable reference. */
  const OBSERVED := SUBMITTED.(id := "m3", chatReference := STABLE_REFERENCE)

  /** The rebind replayed in another project. */
  const REPLAYED_ELSEWHERE := REBOUND.(projectReference := Some("p"))

  lemma EventsAreWellFormed()
    ensures WellFormed(SUBMITTED) && WellFormed(REBOUND) && WellFormed(OBSERVED) && WellFormed(REPLAYED_ELSEWHERE)
    ensures NEW_REFERENCE != STABLE_REFERENCE
  {
    assert NEW_REFERENCE[..|NEW_CHAT|] == NEW_CHAT;
    assert |STABLE_REFERENCE| == 2 && |PROVISIONAL| == 12 && |"route:"| == 6;
  }

  /** The library after one observation outside any project: one chat with one message. */
  ghost predicate OneObservation(s: Library, ev: ChatEvent) {
    var c := ChatUuid(ev.host, ev.chatReference);
    && Sound(s) && MessagesIndexed(s)
    && s.chats.Keys == {c} && Holds(s, ev.host, ev.chatReference, c) && s.chats[c].project == UNASSIGNED
    && s.messages == [Message(ev.id, c, ev.turn, 1, ev.role, ev.content, ev.capturedAt, KeyOf(ev, ev.chatReference))]
  }

  lemma AfterOneObservation(ev: ChatEvent)
    requires WellFormed(ev) && ev.rebindFrom.None? && ev.projectReference.None?
    ensures OneObservation(Ingest(EMPTY_LIBRARY, ev, true).0, ev)
  {
    assert MessagesIndexed(EMPTY_LIBRARY) && Sound(EMPTY_LIBRARY);
    IngestIsSound(EMPTY_LIBRARY, ev, true);
    IngestAgreesIff(EMPTY_LIBRARY, ev, true);
    NewObservationIsStored(EMPTY_LIBRARY, ev, true);
  }

  /** The same with a chat that now answers to the stable reference. */
  ghost predicate Moved(s: Library) {
    var c := ChatUuid(ChatGptWeb, NEW_REFERENCE);
    && Sound(s) && MessagesIndexed(s) && s.chats.Keys == {c}
    && Holds(s, ChatGptWeb, STABLE_REFERENCE, c) && s.chats[c].project == UNASSIGNED
    && s.messages == [Message("m1", c, Some("t"), 1, User, "hi", 0, KeyOf(SUBMITTED, NEW_REFERENCE))]
  }

  lemma ReboundStaysUnassigned(s: Library)
    requires ChatsSound(s) && s.chats.Keys == {ChatUuid(ChatGptWeb, NEW_REFERENCE)}
      && Ingest(s, REBOUND, true).1.Receipt?
    requires Holds(s, ChatGptWeb, NEW_REFERENCE, ChatUuid(ChatGptWeb, NEW_REFERENCE))
    ensures var t, c := Ingest(s, REBOUND, true).0, ChatUuid(ChatGptWeb, NEW_REFERENCE);
      c in t.chats ==> t.chats[c].project == UNASSIGNED
  {
    var c := ChatUuid(ChatGptWeb, NEW_REFERENCE);
    EventsAreWellFormed();
    HeldBy(s, ChatGptWeb, NEW_REFERENCE, c);
    assert ChatAt(s, ChatGptWeb, STABLE_REFERENCE).None?;
    ChatLookupsSurviveResolve(s, REBOUND);
  }

  lemma AfterRebind(s: Library)
    requires OneObservation(s, SUBMITTED)
    ensures Ingest(s, REBOUND, true).1.Receipt? && Ingest(s, REBOUND, true).1.chat
      == ChatUuid(ChatGptWeb, NEW_REFERENCE)
    ensures Moved(Ingest(s, REBOUND, true).0)
  {
    var c := ChatUuid(ChatGptWeb, NEW_REFERENCE);
    EventsAreWellFormed();
    HeldBy(s, ChatGptWeb, NEW_REFERENCE, c);
    assert ChatAt(s, ChatGptWeb, STABLE_REFERENCE).None?;
    assert s.messages[0] in s.messages && ExactSubmission(s, c, REBOUND);
    RebindKeepsTheChat(s, REBOUND, true, c);
    ReboundStaysUnassigned(s);
    IngestIsSound(s, REBOUND, true);
    IngestAgreesIff(s, REBOUND, true);
  }

  lemma AfterObservation(s: Library)
    requires Moved(s)
    ensures var u := Ingest(s, OBSERVED, true).0;
      && Sound(u) && Holds(u, ChatGptWeb, STABLE_REFERENCE, ChatUuid(ChatGptWeb, NEW_REFERENCE))
      && Grows(s, u) && BothObserved(u, REBOUND)
  {
    EventsAreWellFormed();
    HeldBy(s, ChatGptWeb, STABLE_REFERENCE, ChatUuid(ChatGptWeb, NEW_REFERENCE));
    IngestIsSound(s, OBSERVED, true);
    NewObservationIsStored(s, OBSERVED, true);
    var u := Ingest(s, OBSERVED, true).0;
    assert u.messages[0].dedupe == KeyOf(REBOUND, NEW_REFERENCE)
      && u.messages[1].dedupe == KeyOf(REBOUND, STABLE_REFERENCE);
  }

  /** A turn is submitted, its chat rebound, and the turn observed again under the stable
      reference: the rebind replayed is not answered as the first time by both of its rows. */
  lemma ReplayCanAnswerOtherwise()
    ensures
      var rebound := Ingest(Ingest(EMPTY_LIBRARY, SUBMITTED, true).0, REBOUND, true);
      var observed := Ingest(rebound.0, OBSERVED, true).0;
      && rebound.1.Receipt? && Holds(observed, ChatGptWeb, STABLE_REFERENCE, rebound.1.chat)
         && BothObserved(observed, REBOUND)
      && exists again :: !SameAnswer(rebound.1, Ingest(observed, REBOUND, again).1)
  {
    EventsAreWellFormed();
    AfterOneObservation(SUBMITTED);
    var s := Ingest(EMPTY_LIBRARY, SUBMITTED, true).0;
    AfterRebind(s);
    AfterObservation(Ingest(s, REBOUND, true).0);
    RepeatingIsAnsweredIff(s, REBOUND, true, Ingest(Ingest(s, REBOUND, true).0, OBSERVED, true).0);
  }

  /** A rebind replayed without a title in another project moves the index rows of the chat and
      leaves the chat, so that they disagree. */
  lemma ReplayCanPartTheIndex()
    ensures
      var moved := Ingest(Ingest(EMPTY_LIBRARY, SUBMITTED, true).0, REBOUND, true).0;
      var (t, r) := Ingest(moved, REPLAYED_ELSEWHERE, true);
      MessagesIndexed(moved) && r.Receipt? && !MessagesIndexed(t)
  {
    var c := ChatUuid(ChatGptWeb, NEW_REFERENCE);
    EventsAreWellFormed();
    AfterOneObservation(SUBMITTED);
    AfterRebind(Ingest(EMPTY_LIBRARY, SUBMITTED, true).0);
    var moved := Ingest(Ingest(EMPTY_LIBRARY, SUBMITTED, true).0, REBOUND, true).0;
    ReplayIsAnswered(moved);
    IngestAgreesIff(moved, REPLAYED_ELSEWHERE, true);
  }

  lemma ReplayIsAnswered(s: Library)
    requires Moved(s)
    ensures Ingest(s, REPLAYED_ELSEWHERE, true).1.Receipt? && TitlelessReplayElsewhere(s, REPLAYED_ELSEWHERE)
  {
    var c, ev := ChatUuid(ChatGptWeb, NEW_REFERENCE), REPLAYED_ELSEWHERE;
    EventsAreWellFormed();
    HeldBy(s, ChatGptWeb, STABLE_REFERENCE, c);
    assert ChatAt(s, ChatGptWeb, NEW_REFERENCE).None?;
    ChatLookupsSurviveResolve(s, ev);
    var (s1, project) := ResolveProject(s, ev);
    assert s.messages[0] in s1.messages && ExactSubmission(s1, c, ev);
    assert GetOrCreateChat(s1, project, ev) == Done((s1, c));
    FoundIsUnique(s, KeyOf(ev, NEW_REFERENCE), 0);
    IngestKnown(s, ev, true, s1, project, s1, c, 0);
  }

  /** A turn is observed under the stable reference, its rebind arrives, and only then the
      submission: the provisional reference is in use again, and the rebind replayed is refused. */
  lemma LateSubmissionBlocksReplay()
    ensures
      var rebound := Ingest(Ingest(EMPTY_LIBRARY, OBSERVED, true).0, REBOUND, true);
      var late := Ingest(rebound.0, SUBMITTED, true);
      && rebound.1.Receipt? && late.1.Receipt? && ProvisionalAgain(late.0, REBOUND)
         && Ingest(late.0, REBOUND, true).1.Refused?
  {
    EventsAreWellFormed();
    AfterOneObservation(OBSERVED);
    var s := Ingest(EMPTY_LIBRARY, OBSERVED, true).0;
    ReboundInPlace(s);
    IngestIsSound(s, REBOUND, true);
    LateSubmission(Ingest(s, REBOUND, true).0);
  }

  lemma ReboundInPlace(s: Library)
    requires OneObservation(s, OBSERVED)
    ensures var (t, r) := Ingest(s, REBOUND, true);
      r.Receipt? && t.chats == s.chats && t.messages == s.messages
  {
    var c := ChatUuid(ChatGptWeb, STABLE_REFERENCE);
    EventsAreWellFormed();
    assert Holds(s, ChatGptWeb, STABLE_REFERENCE, c);
    HeldBy(s, ChatGptWeb, STABLE_REFERENCE, c);
    assert ChatAt(s, ChatGptWeb, NEW_REFERENCE).None?;
    var (s1, project) := ResolveProject(s, REBOUND);
    assert s.messages[0] in s.messages && ExactSubmission(s, c, REBOUND);
    assert s1 == s && GetOrCreateChat(s1, project, REBOUND) == Done((s1, c));
    FoundIsUnique(s, KeyOf(REBOUND, STABLE_REFERENCE), 0);
    IngestKnown(s, REBOUND, true, s1, project, s1, c, 0);
  }

  lemma LateSubmission(s: Library)
    requires Sound(s) && s.chats.Keys == {ChatUuid(ChatGptWeb, STABLE_REFERENCE)}
    requires Holds(s, ChatGptWeb, STABLE_REFERENCE, ChatUuid(ChatGptWeb, STABLE_REFERENCE))
    requires |s.messages| == 1 && s.messages[0].id == "m3" && s.messages[0].dedupe == KeyOf(OBSERVED, STABLE_REFERENCE)
    ensures var (u, r) := Ingest(s, SUBMITTED, true);
      r.Receipt? && ProvisionalAgain(u, REBOUND) && Ingest(u, REBOUND, true).1.Refused?
  {
    var stable, new_ := ChatUuid(ChatGptWeb, STABLE_REFERENCE), ChatUuid(ChatGptWeb, NEW_REFERENCE);
    EventsAreWellFormed();
    IngestIsSound(s, SUBMITTED, true);
    NewObservationIsStored(s, SUBMITTED, true);
    var u := Ingest(s, SUBMITTED, true).0;
    HeldBy(u, ChatGptWeb, NEW_REFERENCE, new_);
    assert Holds(u, ChatGptWeb, STABLE_REFERENCE, stable);
    TwoHoldersRefuseRebind(u, REBOUND, true, new_, stable);
  }

  // ---------------------------------------------------------------- a moved document

  function File(name: string, identity: string): Snapshot {
    Snapshot(name, name, name, Text, "text", 4, 0, Some(identity))
  }

  lemma RunOfOne(p: Progress, c: Scan, snap: Snapshot)
    ensures SyncRun(p, c, [snap]) == SyncOne(p, c, snap)
  {
    assert [snap][..0] == [];
  }

  /** The source has one document, which the library holds under this id. */
  ghost predicate OneDocument(s: Library, source: SourceId, id: DocumentId, key: string, identity: string) {
    && Consistent(s) && source in s.sources && s.documents.Keys == {id} && s.memberships == {(source, id)}
    && s.documents[id].project == s.sources[source].project && s.documents[id].key == key == s.documents[id].reference
    && s.documents[id].identity == Some(identity)
  }

  lemma SyncOfOne(s: Library, source: SourceId, snap: Snapshot, now: Instant, q: Progress)
    requires source in s.sources && SyncOne(Start(s), ScanOf(s, source, [snap], now), snap) == Some(q)
    ensures Sync(s, source, [snap], now).1.Synced?
      && Sync(s, source, [snap], now).0 == Finish(q, ScanOf(s, source, [snap], now))
  {
    CountFromDistinct([snap]);
    RunOfOne(Start(s), ScanOf(s, source, [snap], now), snap);
  }

  /** What one step on the only document leaves. */
  ghost predicate PlacedOne(s: Library, q: Progress, source: SourceId, id: DocumentId, key: string, identity: string) {
    && q.placed == [id] && q.lib.sources == s.sources && q.lib.memberships == {(source, id)}
    && q.lib.documents.Keys == {id} && source in s.sources && q.lib.documents[id].project == s.sources[source].project
    && q.lib.documents[id].key == key == q.lib.documents[id].reference && q.lib.documents[id].identity == Some(identity)
  }

  lemma AfterPlacing(
    s: Library, source: SourceId, snap: Snapshot, now: Instant, q: Progress, id: DocumentId, identity: string)
    requires Consistent(s) && source in s.sources && SyncOne(Start(s), ScanOf(s, source, [snap], now), snap) == Some(q)
    requires PlacedOne(s, q, source, id, snap.key, identity) && Members(s, source) <= {id}
    ensures var (t, o) := Sync(s, source, [snap], now);
      o.Synced? && OneDocument(t, source, id, snap.key, identity)
        && t.sources[source].project == s.sources[source].project
  {
    var c := ScanOf(s, source, [snap], now);
    SyncOfOne(s, source, snap, now, q);
    SyncMirrorsTheSource(s, source, [snap], now);
    assert q.placed[0] == id && Seen(q) == {id};
    FinishKeepsTheOne(q, c, id);
  }

  lemma FirstStep(s: Library, c: Scan, name: string, identity: string)
    requires c.source in s.sources && c.project == s.sources[c.source].project && s.documents == map[]
      && s.memberships == {}
    ensures var q := SyncOne(Start(s), c, File(name, identity));
      q.Some? && PlacedOne(s, q.value, c.source, DocumentUuid(c.project, name), name, identity)
  {
    assert Unplaced(s, c, File(name, identity)) && MoveCandidates(s, c, {}, File(name, identity)) == {};
    assert SyncOne(Start(s), c, File(name, identity)) == Add(Start(s), c, File(name, identity));
  }

  lemma AfterFirstSync(s: Library, source: SourceId, name: string, identity: string, now: Instant)
    requires Consistent(s) && source in s.sources && s.documents == map[] && s.memberships == {}
    ensures var (t, o) := Sync(s, source, [File(name, identity)], now);
      o.Synced? && OneDocument(t, source, DocumentUuid(s.sources[source].project, name), name, identity)
      && t.sources[source].project == s.sources[source].project
  {
    var snap, id := File(name, identity), DocumentUuid(s.sources[source].project, name);
    var c := ScanOf(s, source, [snap], now);
    FirstStep(s, c, name, identity);
    AfterPlacing(s, source, snap, now, SyncOne(Start(s), c, snap).value, id, identity);
  }

  /** The only document was placed, so nothing is stale. */
  lemma FinishKeepsTheOne(q: Progress, c: Scan, id: DocumentId)
    requires Seen(q) == {id} && c.members <= {id} && q.lib.memberships == {(c.source, id)} && c.source in q.lib.sources
    ensures var t := Finish(q, c);
      && t.documents == q.lib.documents && t.memberships == q.lib.memberships
      && c.source in t.sources && t.sources[c.source].project == q.lib.sources[c.source].project
  {
    assert c.members - Seen(q) == {};
    assert Detached(q.lib, c.source, {}).memberships == q.lib.memberships;
    assert Orphans(Detached(q.lib, c.source, {}), {}) == {};
  }

  lemma MoveFate(s: Library, c: Scan, id: DocumentId, old_: string, name: string, identity: string)
    requires OneDocument(s, c.source, id, old_, identity) && old_ != name && c.members == {id} && c.keys == {name}
    ensures FateOf(s, c, {}, File(name, identity)) == Move(id)
  {
    assert Unplaced(s, c, File(name, identity)) && MoveCandidates(s, c, {}, File(name, identity)) == {id};
    assert |{id}| == 1;
  }

  lemma MoveStep(s: Library, c: Scan, id: DocumentId, old_: string, name: string, identity: string)
    requires OneDocument(s, c.source, id, old_, identity) && old_ != name && c.members == {id} && c.keys == {name}
    requires c.project == s.sources[c.source].project
    ensures var q := SyncOne(Start(s), c, File(name, identity));
      q.Some? && PlacedOne(s, q.value, c.source, id, name, identity)
  {
    assert Seen(Start(s)) == {};
    MoveFate(s, c, id, old_, name, identity);
    assert HistoryPrecedes(s, id) && (c.source, id) in s.memberships;
    assert SyncOne(Start(s), c, File(name, identity)) == Refresh(Start(s), c, id, File(name, identity), true);
  }

  lemma AfterMove(
    s: Library, source: SourceId, id: DocumentId, old_: string, name: string, identity: string, now: Instant)
    requires OneDocument(s, source, id, old_, identity) && old_ != name
    ensures var (t, o) := Sync(s, source, [File(name, identity)], now);
      o.Synced? && OneDocument(t, source, id, name, identity) && t.sources[source].project == s.sources[source].project
  {
    var snap := File(name, identity);
    var c := ScanOf(s, source, [snap], now);
    assert [snap][0] == snap && c.keys == {name} && c.members == {id};
    MoveStep(s, c, id, old_, name, identity);
    AfterPlacing(s, source, snap, now, SyncOne(Start(s), c, snap).value, id, identity);
  }

  /** The document moved from `name`, whose derived id it keeps: no sync with another file
      there commits. */
  lemma OldPathIsBlocked(
    s: Library, source: SourceId, name: string, moved: string, identity: string, other: string, now: Instant)
    requires source in s.sources && name != moved && identity != other
    requires OneDocument(s, source, DocumentUuid(s.sources[source].project, name), moved, identity)
    ensures Sync(s, source, [File(name, other), File(moved, identity)], now) == (s, IntegrityConflict)
  {
    var snaps := [File(name, other), File(moved, identity)];
    var c := ScanOf(s, source, snaps, now);
    CountFromDistinct(snaps);
    assert Unplaced(s, c, snaps[0]) && MoveCandidates(s, c, {}, snaps[0]) == {};
    assert Blocked(s, c, snaps, 0) && Rejected(s, c, snaps, 0);
    SyncCommitsIff(s, source, snaps, now);
  }

  /** From the empty library: an observation creates a project, a directory of it is elected
      and synced, its file moves and is synced, and then a new file appears at the old path. */
  lemma NewFileAtAnOldPath()
    ensures
      var observed := Ingest(EMPTY_LIBRARY, SUBMITTED, true).0;
      var source := SourceUuid(UNASSIGNED, DirectorySource, "/d");
      var elected := Elect(observed, UNASSIGNED, DirectorySource, "d", "/d", "/d", 0).0;
      var synced := Sync(elected, source, [File("/d/a", "1")], 1);
      var moved := Sync(synced.0, source, [File("/d/b", "1")], 2);
      && synced.1.Synced? && moved.1.Synced?
      && Sync(moved.0, source, [File("/d/a", "2"), File("/d/b", "1")], 3) == (moved.0, IntegrityConflict)
  {
    EventsAreWellFormed();
    AfterOneObservation(SUBMITTED);
    IngestIsSound(EMPTY_LIBRARY, SUBMITTED, true);
    var observed := Ingest(EMPTY_LIBRARY, SUBMITTED, true).0;
    var source := SourceUuid(UNASSIGNED, DirectorySource, "/d");
    AfterElection(observed);
    var elected := Elect(observed, UNASSIGNED, DirectorySource, "d", "/d", "/d", 0).0;
    PathsDiffer();
    AfterFirstSync(elected, source, "/d/a", "1", 1);
    var synced := Sync(elected, source, [File("/d/a", "1")], 1).0;
    AfterMove(synced, source, DocumentUuid(UNASSIGNED, "/d/a"), "/d/a", "/d/b", "1", 2);
    OldPathIsBlocked(Sync(synced, source, [File("/d/b", "1")], 2).0, source, "/d/a", "/d/b", "1", "2", 3);
  }

  lemma PathsDiffer()
    ensures "/d/a" != "/d/b" && "1" != "2"
  {
    assert "/d/a"[3] != "/d/b"[3] && "1"[0] != "2"[0];
  }

  lemma AfterElection(s: Library)
    requires s.documents == map[] && s.history == map[] && s.sources == map[] && s.memberships == {}
      && UNASSIGNED in s.projects
    ensures var t, source := Elect(s, UNASSIGNED, DirectorySource, "d", "/d", "/d", 0).0,
      SourceUuid(UNASSIGNED, DirectorySource, "/d");
      Consistent(t) && source in t.sources && t.sources[source].project == UNASSIGNED && t.documents == map[]
        && t.memberships == {}
  {
    assert SourcesSound(s) && Consistent(s);
    ElectIsConsistent(s, UNASSIGNED, DirectorySource, "d", "/d", "/d", 0);
  }

  // ---------------------------------------------------------------- migrated documents

  /** The library as migration left it: one document without a hash, and its own source.  The
      key is the reference in lower case, as far as ASCII goes. */
  function Migrated(project: ProjectId, reference: string, key: string): Library {
    var d := LegacyDocument("1");
    var x := LegacySource(d);
    Library(
      map[project := "p"], map[], [],
      map[d := Document(project, reference, Text, reference, "old", 0, key, None, None, None, None, None, None, 1)],
      map[d := map[]],
      map[x := Source(project, FileSource, reference, reference, key, 0, 0, None)],
      {(x, d)},
      map[ElectedDocument(d) := LexicalEntry(project, None, None, "old", 0)])
  }

  lemma MigratedIsConsistent(project: ProjectId, reference: string, key: string)
    ensures var s := Migrated(project, reference, key); Consistent(s) && SourcesSound(s) && DocumentsIndexed(s)
  {
    var s := Migrated(project, reference, key);
    assert (LegacySource(LegacyDocument("1")), LegacyDocument("1")) in s.memberships;
  }

  function MigratedFile(reference: string, key: string): Snapshot {
    Snapshot(reference, reference, key, Text, "text", 4, 0, Some("1"))
  }

  /** When a scan folds the path to another key than migration did, the source of the migrated
      document cannot be synced at all: no added file meets a held id, but the reference is
      taken.  A letter outside ASCII is enough. */
  lemma MigratedKeyBlocksSync(project: ProjectId, reference: string, key: string, folded: string, now: Instant)
    requires key != folded
    ensures
      var s, source, snaps := Migrated(project, reference, key), LegacySource(LegacyDocument("1")),
        [MigratedFile(reference, folded)];
      && source in s.sources && Sync(s, source, snaps, now) == (s, IntegrityConflict)
      && !Blocked(s, ScanOf(s, source, snaps, now), snaps, 0)
         && ReferenceHeld(s, ScanOf(s, source, snaps, now), snaps, 0)
  {
    var s, d, source := Migrated(project, reference, key), LegacyDocument("1"), LegacySource(LegacyDocument("1"));
    var snaps := [MigratedFile(reference, folded)];
    var c := ScanOf(s, source, snaps, now);
    MigratedIsConsistent(project, reference, key);
    CountFromDistinct(snaps);
    assert MoveCandidates(s, c, {}, snaps[0]) == {};
    assert Keeps(s, c, snaps, 0, d) && Rejected(s, c, snaps, 0);
    SyncCommitsIff(s, source, snaps, now);
  }

  lemma MigratedStep(project: ProjectId, reference: string, key: string, c: Scan)
    requires c.project == project && c.source == LegacySource(LegacyDocument("1"))
    ensures var s, d, snap := Migrated(project, reference, key), LegacyDocument("1"), MigratedFile(reference, key);
      && SyncOne(Start(s), c, snap) == Refresh(Start(s), c, d, snap, false)
         && Refresh(Start(s), c, d, snap, false).Some?
  {
    var s, d, snap := Migrated(project, reference, key), LegacyDocument("1"), MigratedFile(reference, key);
    assert AtKey(s, project, key, d);
    assert FateOf(s, c, Seen(Start(s)), snap) == Keep(d);
  }

  lemma MigratedRefresh(project: ProjectId, reference: string, key: string, c: Scan) returns (q: Progress)
    requires c.project == project && c.source == LegacySource(LegacyDocument("1"))
    ensures var s, d := Migrated(project, reference, key), LegacyDocument("1");
      && SyncOne(Start(s), c, MigratedFile(reference, key)) == Some(q)
      && q.placed == [d] && q.lib.documents.Keys == {d} && q.lib.documents[d].revision == 2
         && HistoryOf(q.lib, d) == map[]
      && q.lib.memberships == s.memberships && q.lib.sources == s.sources
  {
    var s, d, snap := Migrated(project, reference, key), LegacyDocument("1"), MigratedFile(reference, key);
    MigratedStep(project, reference, key, c);
    assert Newest(map[]) == map[];
    q := Refresh(Start(s), c, d, snap, false).value;
    assert s.memberships + {(c.source, d)} == s.memberships;
  }

  /** A migrated document refreshed in place moves to revision 2 without its first revision
      being archived. */
  lemma MigratedRowIsNotArchived(project: ProjectId, reference: string, key: string, now: Instant)
    ensures
      var s, d := Migrated(project, reference, key), LegacyDocument("1");
      var (t, o) := Sync(s, LegacySource(d), [MigratedFile(reference, key)], now);
      && Window(HistoryOf(s, d), s.documents[d].revision)
      && o.Synced? && d in t.documents && t.documents[d].revision == 2 && HistoryOf(t, d) == map[]
      && !Window(HistoryOf(t, d), t.documents[d].revision)
  {
    var s, d, snap := Migrated(project, reference, key), LegacyDocument("1"), MigratedFile(reference, key);
    var c := ScanOf(s, LegacySource(d), [snap], now);
    var q := MigratedRefresh(project, reference, key, c);
    SyncOfOne(s, LegacySource(d), snap, now, q);
    assert q.placed[0] == d && Seen(q) == {d};
    FinishKeepsTheOne(q, c, d);
    FinishKeepsRows(q, c);
    assert Range(1, 1) == {};
    UnarchivedBumpBreaksWindow(map[], 1);
    assert Newest(map[]) == map[];
  }
}
