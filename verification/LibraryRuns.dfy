/** Whole runs of the library store, and the audit the authors wrote for it
    (`lexical/audit.py`). */
module LibraryRuns {
  import opened Schema
  import opened DocumentRegistry
  import opened DocumentSync
  import opened ElectedSources
  import opened ChatHistory
  import opened ChatIngestion

  // ---------------------------------------------------------------- runs

  datatype Action =
    | Observe(event: ChatEvent, own: bool)
    | ElectPath(project: ProjectId, kind: SourceKind, name: string, reference: string, key: string, at: Instant)
    | SyncSource(source: SourceId, snapshots: seq<Snapshot>, at: Instant)
    | Revoke(source: SourceId)

  ghost function Step(s: Library, a: Action): Library {
    match a
    case Observe(ev, own) => Ingest(s, ev, own).0
    case ElectPath(project, kind, name, reference, key, at) => Elect(s, project, kind, name, reference, key, at).0
    case SyncSource(source, snaps, at) => Sync(s, source, snaps, at).0
    case Revoke(source) => Unelect(s, source).0
  }

  ghost function Run(s: Library, actions: seq<Action>): Library {
    if actions == [] then s else Step(Run(s, actions[..|actions| - 1]), actions[|actions| - 1])
  }

  /** Events are well formed, and no titleless rebind replay names another project than the
      stored one. */
  ghost predicate Admissible(s: Library, a: Action) {
    a.Observe? ==> WellFormed(a.event) && !TitlelessReplayElsewhere(s, a.event)
  }

  ghost predicate AdmissibleRun(s: Library, actions: seq<Action>) {
    forall i :: 0 <= i < |actions| ==> Admissible(Run(s, actions[..i]), actions[i])
  }

  /** Everything the writers keep true together. */
  ghost predicate Intact(s: Library) {
    && Sound(s) && Consistent(s) && SourcesSound(s) && MessagesIndexed(s) && DocumentsIndexed(s) && Windowed(s)
  }

  lemma ObserveKeeps(s: Library, ev: ChatEvent, own: bool)
    requires Intact(s) && WellFormed(ev) && !TitlelessReplayElsewhere(s, ev)
    ensures Intact(Ingest(s, ev, own).0)
  {
    var t := Ingest(s, ev, own).0;
    IngestIsSound(s, ev, own);
    IngestAgreesIff(s, ev, own);
    forall d | ElectedDocument(d) in s.lexical ensures s.lexical[ElectedDocument(d)].chat == None {
      assert Indexed(s, d);
    }
    IngestLeavesDocumentRows(s, ev, own);
    DocumentTablesSame(s, t);
  }

  lemma DocumentTablesSame(s: Library, t: Library)
    requires Consistent(s) && SourcesSound(s) && DocumentsIndexed(s) && Windowed(s)
    requires DocumentsSame(s, t) && s.projects.Keys <= t.projects.Keys
    requires forall d {:trigger ElectedDocument(d)} ::
      && (ElectedDocument(d) in t.lexical <==> ElectedDocument(d) in s.lexical)
      && (ElectedDocument(d) in s.lexical ==> t.lexical[ElectedDocument(d)] == s.lexical[ElectedDocument(d)])
    ensures Consistent(t) && SourcesSound(t) && DocumentsIndexed(t) && Windowed(t)
  {
    forall d | d in t.documents ensures HasMembership(t, d) && HistoryPrecedes(t, d) && Indexed(t, d)
      && WellArchived(t, d) {
      assert HasMembership(s, d) && HistoryPrecedes(s, d) && Indexed(s, d) && WellArchived(s, d);
      var x :| (x, d) in s.memberships;
      assert (x, d) in t.memberships;
    }
    assert UniquePaths(t);
  }

  lemma ChatTablesSame(s: Library, t: Library)
    requires Sound(s) && MessagesIndexed(s) && OthersSame(s, t)
    ensures Sound(t) && MessagesIndexed(t)
  {
    SameRowsSound(s, t);
    forall i | 0 <= i < |t.messages| ensures MessageIndexed(t, t.messages[i]) {
      assert MessageIndexed(s, s.messages[i]);
    }
  }

  lemma SyncKeeps(s: Library, source: SourceId, snaps: seq<Snapshot>, at: Instant)
    requires Intact(s)
    ensures Intact(Sync(s, source, snaps, at).0)
  {
    var t := Sync(s, source, snaps, at).0;
    assert RowsAgree(s) by { forall d | ElectedDocument(d) in s.lexical ensures Indexed(s, d) {} }
    SyncRepairsTheIndex(s, source, snaps, at);
    SyncKeepsWindows(s, source, snaps, at);
    ChatTablesSame(s, t);
    if Sync(s, source, snaps, at).1.Synced? {
      SyncMirrorsTheSource(s, source, snaps, at);
      SyncKeepsSources(s, source, snaps, at);
    }
  }

  lemma SyncKeepsSources(s: Library, source: SourceId, snaps: seq<Snapshot>, at: Instant)
    requires Consistent(s) && SourcesSound(s) && Sync(s, source, snaps, at).1.Synced?
    ensures SourcesSound(Sync(s, source, snaps, at).0)
  {
    var c, p := Committed(s, source, snaps, at);
    var t := Finish(p, c);
    SyncRunKeepsProjects(s, c, snaps);
    assert t.sources == s.sources[source := s.sources[source].(updatedAt := at, lastSyncedAt := Some(at))];
  }

  lemma {:induction false} SyncRunKeepsProjects(s: Library, c: Scan, snaps: seq<Snapshot>)
    requires SyncRun(Start(s), c, snaps).Some?
    ensures SyncRun(Start(s), c, snaps).value.lib.projects == s.projects
  {
    if snaps != [] {
      SyncRunKeepsProjects(s, c, snaps[..|snaps| - 1]);
    }
  }

  lemma ElectKeeps(
    s: Library, project: ProjectId, kind: SourceKind, name: string, reference: string, key: string, at: Instant)
    requires Intact(s)
    ensures Intact(Elect(s, project, kind, name, reference, key, at).0)
  {
    var t := Elect(s, project, kind, name, reference, key, at).0;
    ElectTouchesOneSource(s, project, kind, name, reference, key, at);
    ElectIsConsistent(s, project, kind, name, reference, key, at);
    assert OthersSame(s, t);
    ChatTablesSame(s, t);
    DocumentsStayIntact(s, t);
  }

  lemma DocumentsStayIntact(s: Library, t: Library)
    requires DocumentsIndexed(s) && Windowed(s) && t.documents == s.documents && t.history == s.history
      && t.lexical == s.lexical
    ensures DocumentsIndexed(t) && Windowed(t)
  {
    forall d | d in t.documents ensures Indexed(t, d) && WellArchived(t, d) {
      assert Indexed(s, d) && WellArchived(s, d);
    }
  }

  lemma RevokeKeeps(s: Library, source: SourceId)
    requires Intact(s)
    ensures Intact(Unelect(s, source).0)
  {
    if source in s.sources {
      var t := Unelect(s, source).0;
      UnelectIsExact(s, source);
      ChatTablesSame(s, t);
      forall x | x in t.sources ensures t.sources[x].project in t.projects && DerivedId(x, t.sources[x]) {}
    }
  }

  lemma StepKeeps(s: Library, a: Action)
    requires Intact(s) && Admissible(s, a)
    ensures Intact(Step(s, a))
  {
    match a {
      case Observe(ev, own) => ObserveKeeps(s, ev, own);
      case ElectPath(project, kind, name, reference, key, at) => ElectKeeps(s, project, kind, name, reference, key, at);
      case SyncSource(source, snaps, at) => SyncKeeps(s, source, snaps, at);
      case Revoke(source) => RevokeKeeps(s, source);
    }
  }

  /** In every state a run of events, elections, syncs and revocations reaches from the empty
      library, all tables are intact together. */
  lemma {:induction false} EveryRunIsIntact(actions: seq<Action>)
    requires AdmissibleRun(EMPTY_LIBRARY, actions)
    ensures Intact(Run(EMPTY_LIBRARY, actions))
  {
    if actions != [] {
      var n := |actions| - 1;
      var front := actions[..n];
      forall i | 0 <= i < n ensures Admissible(Run(EMPTY_LIBRARY, front[..i]), front[i]) {
        assert front[..i] == actions[..i] && front[i] == actions[i];
        assert Admissible(Run(EMPTY_LIBRARY, actions[..i]), actions[i]);
      }
      EveryRunIsIntact(front);
      assert Admissible(Run(EMPTY_LIBRARY, actions[..n]), actions[n]);
      StepKeeps(Run(EMPTY_LIBRARY, front), actions[n]);
    }
  }

  // ---------------------------------------------------------------- the audit

  datatype Checks = Checks(
    lexicalWithoutProject: nat, chatLexicalWithoutMessage: nat, messageWithoutChatLexical: nat,
    chatProjectionMismatch: nat, documentLexicalWithoutDocument: nat, documentWithoutDocumentLexical: nat,
    documentProjectionMismatch: nat)

  predicate HasMessage(s: Library, id: string) {
    exists m :: m in s.messages && m.id == id
  }

  /** `a <> b` over a nullable column: NULL is not a mismatch. */
  predicate Differs<T(==)>(stored: Option<T>, expected: T) {
    stored.Some? && stored.value != expected
  }

  predicate ChatMismatch(s: Library, m: Message) {
    && m.chat in s.chats && ChatHistory(m.id) in s.lexical
    && var row := s.lexical[ChatHistory(m.id)];
       Differs(row.chat, m.chat) || row.project != s.chats[m.chat].project || Differs(row.role, m.role)
         || row.content != m.content
  }

  predicate DocumentMismatch(s: Library, d: DocumentId) {
    && d in s.documents && ElectedDocument(d) in s.lexical
    && var row := s.lexical[ElectedDocument(d)];
       row.project != s.documents[d].project || row.chat.Some? || row.role.Some?
         || row.content != s.documents[d].content
  }

  /** The relational checks of the audit. */
  function Audit(s: Library): Checks {
    Checks(
      |set k | k in s.lexical && s.lexical[k].project !in s.projects|,
      |set k | k in s.lexical && k.ChatHistory? && !HasMessage(s, k.message)|,
      |set m | m in s.messages && ChatHistory(m.id) !in s.lexical|,
      |set m | m in s.messages && ChatMismatch(s, m)|,
      |set k | k in s.lexical && k.ElectedDocument? && k.document !in s.documents|,
      |set d | d in s.documents && ElectedDocument(d) !in s.lexical|,
      |set d | d in s.documents && DocumentMismatch(s, d)|)
  }

  predicate Passed(c: Checks) {
    c == Checks(0, 0, 0, 0, 0, 0, 0)
  }

  /** Chat rows name a chat and a role. */
  ghost predicate ChatRowsFilled(s: Library) {
    forall id :: ChatHistory(id) in s.lexical ==>
      s.lexical[ChatHistory(id)].chat.Some? && s.lexical[ChatHistory(id)].role.Some?
  }

  ghost predicate RowsHaveProjects(s: Library) {
    forall k :: k in s.lexical ==> s.lexical[k].project in s.projects
  }

  ghost predicate ChatAuditClean(s: Library) {
    && (forall id :: ChatHistory(id) in s.lexical ==> HasMessage(s, id))
    && (forall m :: m in s.messages ==> ChatHistory(m.id) in s.lexical && !ChatMismatch(s, m))
  }

  ghost predicate DocumentAuditClean(s: Library) {
    && (forall d :: ElectedDocument(d) in s.lexical ==> d in s.documents)
    && (forall d :: d in s.documents ==> ElectedDocument(d) in s.lexical && !DocumentMismatch(s, d))
  }

  lemma CountsAreZeroIff(s: Library)
    ensures Passed(Audit(s)) <==> RowsHaveProjects(s) && ChatAuditClean(s) && DocumentAuditClean(s)
  {
    var strayProjects := set k | k in s.lexical && s.lexical[k].project !in s.projects;
    var strayChats := set k | k in s.lexical && k.ChatHistory? && !HasMessage(s, k.message);
    var unindexed := set m | m in s.messages && ChatHistory(m.id) !in s.lexical;
    var mismatched := set m | m in s.messages && ChatMismatch(s, m);
    var strayDocuments := set k | k in s.lexical && k.ElectedDocument? && k.document !in s.documents;
    var missing := set d | d in s.documents && ElectedDocument(d) !in s.lexical;
    var wrong := set d | d in s.documents && DocumentMismatch(s, d);
    assert |strayProjects| == 0 <==> RowsHaveProjects(s) by {
      if RowsHaveProjects(s) { assert strayProjects == {}; }
      else { var k :| k in s.lexical && s.lexical[k].project !in s.projects; assert k in strayProjects; }
    }
    assert |strayChats| == |unindexed| == |mismatched| == 0 <==> ChatAuditClean(s) by {
      ChatCounts(s, strayChats, unindexed, mismatched);
    }
    assert |strayDocuments| == |missing| == |wrong| == 0 <==> DocumentAuditClean(s) by {
      DocumentCounts(s, strayDocuments, missing, wrong);
    }
  }

  lemma ChatCounts(s: Library, stray: set<LexicalKey>, unindexed: set<Message>, mismatched: set<Message>)
    requires forall k :: k in stray <==> k in s.lexical && k.ChatHistory? && !HasMessage(s, k.message)
    requires forall m :: m in unindexed <==> m in s.messages && ChatHistory(m.id) !in s.lexical
    requires forall m :: m in mismatched <==> m in s.messages && ChatMismatch(s, m)
    ensures |stray| == |unindexed| == |mismatched| == 0 <==> ChatAuditClean(s)
  {
    if ChatAuditClean(s) {
      assert stray == {} && unindexed == {} && mismatched == {};
    }
    if |stray| == |unindexed| == |mismatched| == 0 {
      forall id | ChatHistory(id) in s.lexical ensures HasMessage(s, id) { assert ChatHistory(id) !in stray; }
      forall m | m in s.messages ensures ChatHistory(m.id) in s.lexical && !ChatMismatch(s, m) {
        assert m !in unindexed && m !in mismatched;
      }
    }
  }

  lemma DocumentCounts(s: Library, stray: set<LexicalKey>, missing: set<DocumentId>, wrong: set<DocumentId>)
    requires forall k :: k in stray <==> k in s.lexical && k.ElectedDocument? && k.document !in s.documents
    requires forall d :: d in missing <==> d in s.documents && ElectedDocument(d) !in s.lexical
    requires forall d :: d in wrong <==> d in s.documents && DocumentMismatch(s, d)
    ensures |stray| == |missing| == |wrong| == 0 <==> DocumentAuditClean(s)
  {
    if DocumentAuditClean(s) {
      assert stray == {} && missing == {} && wrong == {};
    }
    if |stray| == |missing| == |wrong| == 0 {
      forall d | ElectedDocument(d) in s.lexical ensures d in s.documents { assert ElectedDocument(d) !in stray; }
      forall d | d in s.documents ensures ElectedDocument(d) in s.lexical && !DocumentMismatch(s, d) {
        assert d !in missing && d !in wrong;
      }
    }
  }

  lemma CleanDocumentsIff(s: Library)
    ensures DocumentAuditClean(s) <==> DocumentsIndexed(s)
  {
    if DocumentAuditClean(s) {
      forall d | d in s.documents ensures Indexed(s, d) { assert !DocumentMismatch(s, d); }
    }
    if DocumentsIndexed(s) {
      forall d | d in s.documents ensures !DocumentMismatch(s, d) { assert Indexed(s, d); }
    }
  }

  lemma CleanChatsIff(s: Library)
    requires forall i :: 0 <= i < |s.messages| ==> s.messages[i].chat in s.chats
    ensures ChatAuditClean(s) && ChatRowsFilled(s) <==> MessagesIndexed(s)
  {
    if ChatAuditClean(s) && ChatRowsFilled(s) {
      forall i | 0 <= i < |s.messages| ensures MessageIndexed(s, s.messages[i]) {
        assert s.messages[i] in s.messages && !ChatMismatch(s, s.messages[i]);
      }
      forall id | ChatHistory(id) in s.lexical ensures exists i :: 0 <= i < |s.messages| && s.messages[i].id == id {
        assert HasMessage(s, id);
      }
    }
    if MessagesIndexed(s) {
      forall m | m in s.messages ensures ChatHistory(m.id) in s.lexical && !ChatMismatch(s, m) {
        var i :| 0 <= i < |s.messages| && s.messages[i] == m;
        assert MessageIndexed(s, s.messages[i]);
      }
      forall id | ChatHistory(id) in s.lexical
        ensures HasMessage(s, id) && s.lexical[ChatHistory(id)].chat.Some? && s.lexical[ChatHistory(id)].role.Some?
      {
        var i :| 0 <= i < |s.messages| && s.messages[i].id == id;
        assert MessageIndexed(s, s.messages[i]) && s.messages[i] in s.messages;
      }
    }
  }

  /** The index is exactly the messages and documents if and only if the audit passes and
      every chat row names a chat and a role: the audit's comparisons ignore a missing one. */
  lemma AuditIsExact(s: Library)
    requires forall i :: 0 <= i < |s.messages| ==> s.messages[i].chat in s.chats
    ensures Passed(Audit(s)) && ChatRowsFilled(s) <==> RowsHaveProjects(s) && MessagesIndexed(s) && DocumentsIndexed(s)
  {
    CountsAreZeroIff(s);
    CleanDocumentsIff(s);
    CleanChatsIff(s);
  }

  /** A chat row that lost its chat still passes the audit. */
  lemma AuditMissesAMissingChat()
    ensures exists s: Library :: Passed(Audit(s)) && !MessagesIndexed(s)
  {
    var p, c := UNASSIGNED, ChatUuid(Codex, "a");
    var m := Message("m", c, None, 1, User, "text", 0, DedupeKey(Codex, "a", "m", User, "text"));
    var s := EMPTY_LIBRARY.(
      projects := map[p := "Unassigned"], chats := map[c := Chat(p, Codex, "a", "t")], messages := [m],
      lexical := map[ChatHistory("m") := LexicalEntry(p, None, Some(User), "text", 0)]);
    assert s.messages[0] == m && m in s.messages;
    assert HasMessage(s, "m");
    assert ChatAuditClean(s) && DocumentAuditClean(s) && RowsHaveProjects(s);
    CountsAreZeroIff(s);
    assert !MessageIndexed(s, s.messages[0]);
  }

  lemma IntactRowsHaveProjects(s: Library)
    requires Intact(s)
    ensures RowsHaveProjects(s)
  {
    forall k | k in s.lexical ensures s.lexical[k].project in s.projects {
      match k {
        case ChatHistory(id) =>
          var i :| 0 <= i < |s.messages| && s.messages[i].id == id;
          assert MessageIndexed(s, s.messages[i]) && ChatSound(s, s.messages[i].chat);
        case ElectedDocument(d) =>
          assert Indexed(s, d) && HasMembership(s, d);
          var x :| (x, d) in s.memberships;
      }
    }
  }

  /** The audit passes in every state the writers reach. */
  lemma EveryRunPassesTheAudit(actions: seq<Action>)
    requires AdmissibleRun(EMPTY_LIBRARY, actions)
    ensures Passed(Audit(Run(EMPTY_LIBRARY, actions)))
  {
    var s := Run(EMPTY_LIBRARY, actions);
    EveryRunIsIntact(actions);
    IntactRowsHaveProjects(s);
    forall i | 0 <= i < |s.messages| ensures s.messages[i].chat in s.chats { assert MessageSound(s, s.messages[i]); }
    AuditIsExact(s);
  }
}
