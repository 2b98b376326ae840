/** What ingesting chat events guarantees, over single events and whole runs. */
module ChatIngestion {
  import opened Schema
  import opened LexicalIndexer
  import opened ChatHistory

  ghost predicate Sound(s: Library) {
    ChatsSound(s) && MessagesSound(s)
  }

  lemma NewChatIsProvisional(reference: string)
    requires StartsWith(reference, NEW_CHAT)
    ensures StartsWith(reference, PROVISIONAL)
  {
    assert NEW_CHAT[..|PROVISIONAL|] == PROVISIONAL;
    assert reference[..|PROVISIONAL|] == reference[..|NEW_CHAT|][..|PROVISIONAL|];
  }

  // ---------------------------------------------------------------- the project

  lemma EnsuredProject(s: Library, id: ProjectId, name: Option<string>)
    ensures var t := EnsureProject(s, id, name);
      t == s.(projects := t.projects) && t.projects.Keys == s.projects.Keys + {id}
  {}

  lemma ResolvedProject(s: Library, ev: ChatEvent)
    requires forall c :: c in s.chats ==> s.chats[c].project in s.projects
    ensures var (t, project) := ResolveProject(s, ev);
      && t == s.(projects := t.projects) && s.projects.Keys <= t.projects.Keys && project in t.projects
  {
    if Present(ev.projectReference) {
      EnsuredProject(s, ProjectUuid(ev.host, ev.projectReference.value), ev.projectName);
    } else if ChatAt(s, ev.host, ev.chatReference).None? {
      EnsuredProject(s, UNASSIGNED, Some("Unassigned"));
    }
  }

  lemma SameRowsSound(s: Library, t: Library)
    requires Sound(s) && t.chats == s.chats && t.messages == s.messages && s.projects.Keys <= t.projects.Keys
    ensures Sound(t)
  {
    forall c | c in t.chats ensures ChatSound(t, c) { assert ChatSound(s, c); }
    forall i | 0 <= i < |t.messages| ensures MessageSound(t, t.messages[i]) { assert MessageSound(s, s.messages[i]); }
  }

  lemma OneChatAt(s: Library, host: Host, reference: string, t: Library)
    requires ChatsSound(s) && t.chats == s.chats
    ensures ChatAt(t, host, reference) == ChatAt(s, host, reference)
  {
    forall c ensures Holds(t, host, reference, c) <==> Holds(s, host, reference, c) {}
  }

  lemma HeldBy(s: Library, host: Host, reference: string, c: ChatId)
    requires ChatsSound(s) && Holds(s, host, reference, c)
    ensures ChatAt(s, host, reference) == Some(c)
  {}

  // ---------------------------------------------------------------- the chat

  /** A chat write changes at most one row, which afterwards answers to the event's
      reference; every chat keeps its id. */
  ghost predicate ChatWrite(s: Library, t: Library, c: ChatId, ev: ChatEvent) {
    && t == s.(chats := t.chats) && c in t.chats
    && t.chats.Keys == s.chats.Keys + {c}
    && (forall d :: d in s.chats && d != c ==> t.chats[d] == s.chats[d])
    && t.chats[c].host == ev.host == c.host && t.chats[c].reference == ev.chatReference
    && (c !in s.chats ==> c == ChatUuid(ev.host, ev.chatReference) && ev.rebindFrom.None?)
    && (c in s.chats ==> s.chats[c].reference == ev.chatReference
                         || (ev.rebindFrom.Some? && s.chats[c].reference == ev.rebindFrom.value))
  }

  lemma RowIsWritten(s: Library, t: Library, c: ChatId, ev: ChatEvent)
    requires c in s.chats && c in t.chats && t == s.(chats := s.chats[c := t.chats[c]])
    requires t.chats[c].host == ev.host == c.host && t.chats[c].reference == ev.chatReference
    requires s.chats[c].reference == ev.chatReference
      || (ev.rebindFrom.Some? && s.chats[c].reference == ev.rebindFrom.value)
    ensures ChatWrite(s, t, c, ev)
  {}

  lemma RebindIsWritten(s: Library, project: ProjectId, ev: ChatEvent)
    requires ev.rebindFrom.Some? && RebindProvisionalChat(s, project, ev).Done?
    requires RebindProvisionalChat(s, project, ev).value.1 in s.chats ==>
      ChatSound(s, RebindProvisionalChat(s, project, ev).value.1)
    ensures var (t, c) := RebindProvisionalChat(s, project, ev).value; ChatWrite(s, t, c, ev)
  {
    var (t, c) := RebindProvisionalChat(s, project, ev).value;
    var source := ChatAt(s, ev.host, ev.rebindFrom.value);
    if source.None? && !Present(ev.chatTitle) { assert t == s && s.chats[c := s.chats[c]] == s.chats; }
    RowIsWritten(s, t, c, ev);
  }

  lemma ChatIsWritten(s: Library, project: ProjectId, ev: ChatEvent)
    requires ChatsSound(s) && GetOrCreateChat(s, project, ev).Done?
    ensures var (t, c) := GetOrCreateChat(s, project, ev).value; ChatWrite(s, t, c, ev)
  {
    var (t, c) := GetOrCreateChat(s, project, ev).value;
    if ev.rebindFrom.Some? {
      RebindIsWritten(s, project, ev);
    } else if c in s.chats {
      assert ChatSound(s, c);
    }
  }

  lemma RebindSourceIsOriginal(s: Library, c: ChatId, reference: string)
    requires ChatsSound(s) && c in s.chats && s.chats[c].reference == reference && StartsWith(reference, NEW_CHAT)
    ensures c.reference == reference
  {
    NewChatIsProvisional(reference);
    assert ChatSound(s, c);
  }

  lemma ChatWriteIsSound(s: Library, project: ProjectId, ev: ChatEvent)
    requires ChatsSound(s) && project in s.projects && WellFormed(ev) && GetOrCreateChat(s, project, ev).Done?
    ensures ChatsSound(GetOrCreateChat(s, project, ev).value.0)
  {
    var (t, c) := GetOrCreateChat(s, project, ev).value;
    ChatIsWritten(s, project, ev);
    if c in s.chats {
      assert ChatSound(s, c);
      if s.chats[c].reference != ev.chatReference {
        RebindSourceIsOriginal(s, c, s.chats[c].reference);
        NewChatIsProvisional(c.reference);
      }
    }
    forall d | d in t.chats ensures ChatSound(t, d) {
      if d != c { assert ChatSound(s, d); }
    }
    forall d, e | d in t.chats && e in t.chats && d != e
      ensures t.chats[d].host != t.chats[e].host || t.chats[d].reference != t.chats[e].reference
    {
      if d == c { NoOtherHolder(s, project, ev, e); }
      if e == c { NoOtherHolder(s, project, ev, d); }
    }
  }

  /** The reference a chat write installs is held by no other chat. */
  lemma NoOtherHolder(s: Library, project: ProjectId, ev: ChatEvent, d: ChatId)
    requires ChatsSound(s) && GetOrCreateChat(s, project, ev).Done?
    requires d in s.chats && d != GetOrCreateChat(s, project, ev).value.1
    ensures !Holds(s, ev.host, ev.chatReference, d)
  {
    if Holds(s, ev.host, ev.chatReference, d) { HeldBy(s, ev.host, ev.chatReference, d); }
  }

  lemma MessagesFollowTheChat(s: Library, t: Library, c: ChatId, ev: ChatEvent)
    requires Sound(s) && WellFormed(ev) && ChatWrite(s, t, c, ev)
    ensures MessagesSound(t)
  {
    forall i | 0 <= i < |t.messages| ensures MessageSound(t, t.messages[i]) {
      var m := s.messages[i];
      assert MessageSound(s, m);
      if m.chat == c && s.chats[c].reference != ev.chatReference {
        RebindSourceIsOriginal(s, c, s.chats[c].reference);
      }
    }
  }

  // ---------------------------------------------------------------- the message

  lemma {:induction false} LastIsCount(messages: seq<Message>, c: ChatId)
    requires Numbered(messages)
    ensures LastSequence(messages, c) == CountIn(messages, c)
  {
    if messages != [] {
      var front := messages[..|messages| - 1];
      forall i | 0 <= i < |front| ensures front[i].sequence == CountIn(front[..i], front[i].chat) + 1 {
        assert front[..i] == messages[..i];
      }
      LastIsCount(front, c);
    }
  }

  function NewMessage(s: Library, c: ChatId, ev: ChatEvent): Message {
    Message(ev.id, c, ev.turn, LastSequence(s.messages, c) + 1, ev.role, ev.content, ev.capturedAt,
      KeyOf(ev, ev.chatReference))
  }

  lemma WriteShape(s: Library, c: ChatId, ev: ChatEvent, own: bool)
    requires WriteMessage(s, c, ev, own).Done?
    ensures var (t, w) := WriteMessage(s, c, ev, own).value;
      && t == s.(messages := if w.inserted then s.messages + [NewMessage(s, c, ev)] else s.messages)
      && (w.inserted ==> w == Written(ev.id, true, LastSequence(s.messages, c) + 1))
      && (w.inserted ==> forall m :: m in s.messages ==> m.id != ev.id && m.dedupe != KeyOf(ev, ev.chatReference))
  {
    var (t, w) := WriteMessage(s, c, ev, own).value;
    if w.inserted { assert Find(s.messages, KeyOf(ev, ev.chatReference)).None?; }
  }

  lemma NumberedGrows(messages: seq<Message>, m: Message)
    requires Numbered(messages) && m.sequence == LastSequence(messages, m.chat) + 1
    ensures Numbered(messages + [m])
  {
    LastIsCount(messages, m.chat);
    var all := messages + [m];
    forall i | 0 <= i < |all| ensures all[i].sequence == CountIn(all[..i], all[i].chat) + 1 {
      if i < |messages| { assert all[..i] == messages[..i]; } else { assert all[..i] == messages; }
    }
  }

  lemma WriteIsSound(s: Library, c: ChatId, ev: ChatEvent, own: bool)
    requires MessagesSound(s) && WellFormed(ev) && WriteMessage(s, c, ev, own).Done?
    requires c in s.chats && c.host == ev.host && s.chats[c].reference == ev.chatReference
    ensures MessagesSound(WriteMessage(s, c, ev, own).value.0)
  {
    var (t, w) := WriteMessage(s, c, ev, own).value;
    WriteShape(s, c, ev, own);
    if w.inserted {
      var m := NewMessage(s, c, ev);
      NumberedGrows(s.messages, m);
      assert MessageSound(t, m);
      forall i | 0 <= i < |t.messages| ensures MessageSound(t, t.messages[i]) {
        if i < |s.messages| { assert MessageSound(s, s.messages[i]); }
      }
    }
  }

  // ---------------------------------------------------------------- one event

  datatype Stages = Stages(resolved: Library, project: ProjectId, written: Library, chat: ChatId, indexed: Library,
    stored: Library, w: Written)

  lemma StagesOf(s: Library, ev: ChatEvent, own: bool) returns (g: Stages)
    requires Sound(s) && WellFormed(ev) && Ingest(s, ev, own).1.Receipt?
    ensures ResolveProject(s, ev) == (g.resolved, g.project)
    ensures GetOrCreateChat(g.resolved, g.project, ev) == Done((g.written, g.chat))
    ensures g.indexed == g.written.(lexical := RebindChatIndex(g.written.lexical, g.chat, g.project))
    ensures WriteMessage(g.indexed, g.chat, ev, own) == Done((g.stored, g.w))
    ensures Ingest(s, ev, own).0 ==
      (if g.w.inserted
       then g.stored.(lexical := IndexMessage(g.stored.lexical, g.w.message, g.project, g.chat, ev.role, ev.content,
         ev.capturedAt))
       else g.stored)
    ensures Ingest(s, ev, own).1 == Receipt(g.project, g.chat, g.w.message, g.w.inserted, g.w.sequence)
    ensures Sound(g.resolved) && ChatsSound(g.written) && MessagesSound(g.written)
    ensures ChatWrite(g.resolved, g.written, g.chat, ev)
    ensures g.resolved == s.(projects := g.resolved.projects) && s.projects.Keys <= g.resolved.projects.Keys
  {
    var (s1, project) := ResolveProject(s, ev);
    forall c | c in s.chats ensures s.chats[c].project in s.projects { assert ChatSound(s, c); }
    ResolvedProject(s, ev);
    SameRowsSound(s, s1);
    var (s2, c) := GetOrCreateChat(s1, project, ev).value;
    ChatIsWritten(s1, project, ev);
    ChatWriteIsSound(s1, project, ev);
    MessagesFollowTheChat(s1, s2, c, ev);
    var s3 := s2.(lexical := RebindChatIndex(s2.lexical, c, project));
    var (s4, w) := WriteMessage(s3, c, ev, own).value;
    g := Stages(s1, project, s2, c, s3, s4, w);
  }

  lemma StagesAreSound(s: Library, ev: ChatEvent, own: bool, g: Stages)
    requires WellFormed(ev) && ChatsSound(g.written) && MessagesSound(g.written)
      && ChatWrite(g.resolved, g.written, g.chat, ev)
    requires g.indexed == g.written.(lexical := RebindChatIndex(g.written.lexical, g.chat, g.project))
    requires WriteMessage(g.indexed, g.chat, ev, own) == Done((g.stored, g.w))
    ensures Sound(g.stored) && g.stored == g.indexed.(messages := g.stored.messages)
    ensures g.stored.messages == if g.w.inserted then g.indexed.messages + [NewMessage(g.indexed, g.chat, ev)]
      else g.indexed.messages
  {
    SameRowsSound(g.written, g.indexed);
    WriteShape(g.indexed, g.chat, ev, own);
    WriteIsSound(g.indexed, g.chat, ev, own);
    forall c | c in g.stored.chats ensures ChatSound(g.stored, c) { assert ChatSound(g.indexed, c); }
  }

  /** Every event keeps the tables sound: a host reference names at most one chat and the
      messages of each chat are numbered 1..n in insertion order.  Chats and messages are
      only ever added; a refused event changes nothing. */
  lemma IngestIsSound(s: Library, ev: ChatEvent, own: bool)
    requires Sound(s) && WellFormed(ev)
    ensures var (t, r) := Ingest(s, ev, own);
      && Sound(t) && Grows(s, t) && DocumentsSame(s, t)
      && (r.Refused? ==> t == s)
      && (r.Receipt? ==> Holds(t, ev.host, ev.chatReference, r.chat))
      && (r.Receipt? ==> |t.messages| == |s.messages| + if r.inserted then 1 else 0)
  {
    var (t, r) := Ingest(s, ev, own);
    if r.Receipt? {
      var g := StagesOf(s, ev, own);
      StagesAreSound(s, ev, own, g);
      SameRowsSound(g.stored, t);
    }
  }

  ghost predicate DocumentsSame(s: Library, t: Library) {
    t.documents == s.documents && t.history == s.history && t.sources == s.sources && t.memberships == s.memberships
  }

  /** Rows are never lost: chats keep their ids and messages stay in place. */
  ghost predicate Grows(s: Library, t: Library) {
    && s.projects.Keys <= t.projects.Keys && s.chats.Keys <= t.chats.Keys && s.messages <= t.messages
  }

  // ---------------------------------------------------------------- rebinding

  predicate BothObserved(s: Library, ev: ChatEvent) {
    && Find(s.messages, KeyOf(ev, ev.chatReference)).Some?
    && Present(ev.rebindFrom) && Find(s.messages, KeyOf(ev, ev.rebindFrom.value)).Some?
  }

  lemma FoundIsUnique(s: Library, key: DedupeKey, i: nat)
    requires MessagesSound(s) && i < |s.messages| && s.messages[i].dedupe == key
    ensures Find(s.messages, key) == Some(i)
  {}

  /** A message observed under a stable reference belongs to the chat that holds it. */
  lemma StableKeyNamesHolder(s: Library, m: Message)
    requires ChatsSound(s) && MessageSound(s, m) && !StartsWith(m.dedupe.chatReference, PROVISIONAL)
    ensures Holds(s, m.dedupe.host, m.dedupe.chatReference, m.chat)
  {
    assert ChatSound(s, m.chat);
  }

  /** What `Ingest` does once the chat and the stored observation are known. */
  lemma IngestKnown(
    s: Library, ev: ChatEvent, own: bool, s1: Library, project: ProjectId, s2: Library, c: ChatId, i: nat)
    requires ResolveProject(s, ev) == (s1, project) && GetOrCreateChat(s1, project, ev) == Done((s2, c))
    requires s2.messages == s.messages && i < |s.messages|
    requires Observed(s.messages, ev, own) == Some(i) && s.messages[i].chat == c
    ensures Ingest(s, ev, own) ==
      (s2.(lexical := RebindChatIndex(s2.lexical, c, project)),
        Receipt(project, c, s.messages[i].id, false, s.messages[i].sequence))
  {}

  lemma ChatLookupsSurviveResolve(s: Library, ev: ChatEvent)
    requires ChatsSound(s)
    ensures var (t, project) := ResolveProject(s, ev);
      && t == s.(projects := t.projects)
      && ChatAt(t, ev.host, ev.chatReference) == ChatAt(s, ev.host, ev.chatReference)
      && (ev.rebindFrom.Some? ==> ChatAt(t, ev.host, ev.rebindFrom.value) == ChatAt(s, ev.host, ev.rebindFrom.value))
  {
    var (t, project) := ResolveProject(s, ev);
    forall c | c in s.chats ensures s.chats[c].project in s.projects { assert ChatSound(s, c); }
    ResolvedProject(s, ev);
    OneChatAt(s, ev.host, ev.chatReference, t);
    if ev.rebindFrom.Some? { OneChatAt(s, ev.host, ev.rebindFrom.value, t); }
  }

  /** A rebind is refused for a taken reference or a chat without the submitted turn, before
      any message is looked at. */
  lemma RebindRefused(s: Library, ev: ChatEvent, own: bool, s1: Library, project: ProjectId, c: ChatId)
    requires ev.rebindFrom.Some? && ResolveProject(s, ev) == (s1, project) && s1.messages == s.messages
    requires ChatAt(s1, ev.host, ev.rebindFrom.value) == Some(c)
    requires ChatAt(s1, ev.host, ev.chatReference).Some? || !ExactSubmission(s, c, ev)
    ensures Ingest(s, ev, own).1.Refused?
  {}

  lemma TwoHoldersRefuseRebind(s: Library, ev: ChatEvent, own: bool, source: ChatId, target: ChatId)
    requires ChatsSound(s) && ev.rebindFrom.Some?
    requires Holds(s, ev.host, ev.rebindFrom.value, source) && Holds(s, ev.host, ev.chatReference, target)
    ensures Ingest(s, ev, own).1.Refused?
  {
    var (s1, project) := ResolveProject(s, ev);
    ChatLookupsSurviveResolve(s, ev);
    HeldBy(s, ev.host, ev.rebindFrom.value, source);
    HeldBy(s, ev.host, ev.chatReference, target);
    RebindRefused(s, ev, own, s1, project, source);
  }

  /** The chat a plain event goes to. */
  ghost function ChatFor(s: Library, ev: ChatEvent): ChatId {
    var held := ChatAt(s, ev.host, ev.chatReference);
    if held.Some? then held.value else ChatUuid(ev.host, ev.chatReference)
  }

  lemma PlainChat(s: Library, project: ProjectId, ev: ChatEvent)
    requires ChatsSound(s) && ev.rebindFrom.None?
    requires ChatAt(s, ev.host, ev.chatReference).None? ==> ChatUuid(ev.host, ev.chatReference) !in s.chats
    ensures var a, c := GetOrCreateChat(s, project, ev), ChatFor(s, ev);
      && a.Done? && a.value.1 == c && a.value.0 == s.(chats := a.value.0.chats)
      && a.value.0.chats.Keys == s.chats.Keys + {c} && (forall d :: d in s.chats && d != c ==>
         a.value.0.chats[d] == s.chats[d])
      && Holds(a.value.0, ev.host, ev.chatReference, c) && a.value.0.chats[c].project == project
  {}

  /** What `Ingest` does once the chat is known and there is no stored observation. */
  lemma IngestNew(s: Library, ev: ChatEvent, own: bool, s1: Library, project: ProjectId, s2: Library, c: ChatId)
    requires ResolveProject(s, ev) == (s1, project) && GetOrCreateChat(s1, project, ev) == Done((s2, c))
    requires s2.messages == s.messages && Observed(s.messages, ev, own).None? && forall m :: m in s.messages ==>
      m.id != ev.id
    ensures var (t, r) := Ingest(s, ev, own);
      && r.Receipt? && r.inserted && r.chat == c && t.chats == s2.chats
         && t.messages == s.messages + [NewMessage(s, c, ev)]
  {}

  /** A plain event observed for the first time is stored at the end of its chat. */
  lemma NewObservationIsStored(s: Library, ev: ChatEvent, own: bool)
    requires Sound(s) && ev.rebindFrom.None? && Find(s.messages, KeyOf(ev, ev.chatReference)).None?
    requires forall m :: m in s.messages ==> m.id != ev.id
    requires ChatAt(s, ev.host, ev.chatReference).None? ==> ChatUuid(ev.host, ev.chatReference) !in s.chats
    ensures var (t, r) := Ingest(s, ev, own); var c := ChatFor(s, ev);
      && r.Receipt? && r.inserted && r.chat == c && t.messages == s.messages + [NewMessage(s, c, ev)]
      && t.chats.Keys == s.chats.Keys + {c} && (forall d :: d in s.chats && d != c ==> t.chats[d] == s.chats[d])
      && Holds(t, ev.host, ev.chatReference, c) && t.chats[c].project == ResolveProject(s, ev).1
  {
    var (s1, project) := ResolveProject(s, ev);
    ChatLookupsSurviveResolve(s, ev);
    assert ChatsSound(s1) by { StillDistinct(s, ev); }
    PlainChat(s1, project, ev);
    assert ChatFor(s1, ev) == ChatFor(s, ev);
    IngestNew(s, ev, own, s1, project, GetOrCreateChat(s1, project, ev).value.0, ChatFor(s, ev));
  }

  function Rebound(s: Library, project: ProjectId, ev: ChatEvent, c: ChatId): Library
    requires c in s.chats
  {
    s.(chats := s.chats[c := Retitled(s.chats[c], ev).(project := project, reference := ev.chatReference)])
  }

  /** Rebinding a provisional chat succeeds exactly when its stable reference is free and the
      chat contains the submitted turn.  The chat keeps its id and its messages, the
      submission already stored is returned, and no other chat is touched. */
  lemma RebindKeepsTheChat(s: Library, ev: ChatEvent, own: bool, c: ChatId)
    requires Sound(s) && WellFormed(ev) && ev.rebindFrom.Some? && Holds(s, ev.host, ev.rebindFrom.value, c)
    ensures Ingest(s, ev, own).1.Receipt? <==> ChatAt(s, ev.host, ev.chatReference).None? && ExactSubmission(s, c, ev)
    ensures Ingest(s, ev, own).1.Receipt? ==>
      var (t, r) := Ingest(s, ev, own);
      && r.chat == c && !r.inserted && t.messages == s.messages && t.chats.Keys == s.chats.Keys
      && Holds(t, ev.host, ev.chatReference, c)
      && (forall d :: d in s.chats && d != c ==> t.chats[d] == s.chats[d])
      && exists i :: 0 <= i < |s.messages| && s.messages[i].id == r.message && s.messages[i].chat == c
                     && s.messages[i].dedupe == KeyOf(ev, ev.rebindFrom.value)
  {
    var (s1, project) := ResolveProject(s, ev);
    ChatLookupsSurviveResolve(s, ev);
    HeldBy(s, ev.host, ev.rebindFrom.value, c);
    if ChatAt(s, ev.host, ev.chatReference).None? && ExactSubmission(s, c, ev) {
      var i := SubmissionIsStored(s, ev, c);
      assert ExactSubmission(s1, c, ev);
      assert GetOrCreateChat(s1, project, ev) == Done((Rebound(s1, project, ev, c), c));
      IngestKnown(s, ev, own, s1, project, Rebound(s1, project, ev, c), c, i);
    } else {
      RebindRefused(s, ev, own, s1, project, c);
    }
  }

  lemma SubmissionHasKey(s: Library, ev: ChatEvent, c: ChatId, m: Message)
    requires WellFormed(ev) && ev.rebindFrom.Some? && c in s.chats && ChatSound(s, c) && MessageSound(s, m)
    requires s.chats[c].host == ev.host && s.chats[c].reference == ev.rebindFrom.value == c.reference
    requires m.chat == c && m.turn == ev.turn && m.role == ev.role && m.content == ev.content
    ensures m.dedupe == KeyOf(ev, ev.rebindFrom.value)
  {}

  lemma UnheldReferenceHasNoKey(s: Library, ev: ChatEvent)
    requires Sound(s) && WellFormed(ev) && ev.rebindFrom.Some? && ChatAt(s, ev.host, ev.chatReference).None?
    ensures Find(s.messages, KeyOf(ev, ev.chatReference)).None?
  {
    var i := Find(s.messages, KeyOf(ev, ev.chatReference));
    if i.Some? {
      var m := s.messages[i.value];
      assert MessageSound(s, m);
      StableKeyNamesHolder(s, m);
    }
  }

  lemma SubmissionIsStored(s: Library, ev: ChatEvent, c: ChatId) returns (i: nat)
    requires Sound(s) && WellFormed(ev) && ev.rebindFrom.Some? && Holds(s, ev.host, ev.rebindFrom.value, c)
    requires ChatAt(s, ev.host, ev.chatReference).None? && ExactSubmission(s, c, ev)
    ensures i < |s.messages| && s.messages[i].chat == c && s.messages[i].dedupe == KeyOf(ev, ev.rebindFrom.value)
    ensures Find(s.messages, KeyOf(ev, ev.rebindFrom.value)) == Some(i)
    ensures Find(s.messages, KeyOf(ev, ev.chatReference)).None?
  {
    UnheldReferenceHasNoKey(s, ev);
    RebindSourceIsOriginal(s, c, ev.rebindFrom.value);
    var m :| m in s.messages && m.chat == c && m.turn == ev.turn && m.role == ev.role && m.content == ev.content;
    i :| 0 <= i < |s.messages| && s.messages[i] == m;
    assert MessageSound(s, s.messages[i]) && ChatSound(s, c);
    SubmissionHasKey(s, ev, c, m);
    FoundIsUnique(s, KeyOf(ev, ev.rebindFrom.value), i);
  }

  // ---------------------------------------------------------------- repeating an event

  /** The row a receipt names: stored in its chat under one of the event's keys. */
  ghost predicate Names(s: Library, ev: ChatEvent, r: Receipt, i: nat) {
    && r.Receipt? && i < |s.messages|
    && s.messages[i].id == r.message && s.messages[i].chat == r.chat && s.messages[i].sequence == r.sequence
    && s.messages[i].dedupe in LookupKeys(ev)
  }

  lemma WrittenIsNamed(s: Library, c: ChatId, ev: ChatEvent, own: bool) returns (i: nat)
    requires WriteMessage(s, c, ev, own).Done?
    ensures var (t, w) := WriteMessage(s, c, ev, own).value;
      && i < |t.messages| && t.messages[i].id == w.message && t.messages[i].chat == c
         && t.messages[i].sequence == w.sequence
      && t.messages[i].dedupe in LookupKeys(ev)
  {
    WriteShape(s, c, ev, own);
    var (t, w) := WriteMessage(s, c, ev, own).value;
    if w.inserted {
      i := |s.messages|;
      assert t.messages[i] == NewMessage(s, c, ev);
    } else {
      i := Observed(s.messages, ev, own).value;
    }
  }

  lemma ReceiptNamesARow(s: Library, ev: ChatEvent, own: bool) returns (i: nat)
    requires Sound(s) && WellFormed(ev) && Ingest(s, ev, own).1.Receipt?
    ensures Names(Ingest(s, ev, own).0, ev, Ingest(s, ev, own).1, i)
  {
    var g := StagesOf(s, ev, own);
    i := WrittenIsNamed(g.indexed, g.chat, ev, own);
    assert Ingest(s, ev, own).0.messages == g.stored.messages;
  }

  /** The chat step of a repeated event finds its chat. */
  lemma RepeatFindsTheChat(u: Library, ev: ChatEvent, u1: Library, project: ProjectId, c: ChatId)
    requires ChatAt(u1, ev.host, ev.chatReference) == Some(c)
    requires ev.rebindFrom.Some? ==> ChatAt(u1, ev.host, ev.rebindFrom.value).None? && ExactSubmission(u1, c, ev)
    ensures var a := GetOrCreateChat(u1, project, ev); a.Done? && a.value.1 == c && a.value.0.messages == u1.messages
  {}

  lemma ObservedRow(u: Library, ev: ChatEvent, again: bool, i: nat)
    requires MessagesSound(u) && i < |u.messages| && u.messages[i].dedupe in LookupKeys(ev)
    ensures Observed(u.messages, ev, again).Some?
    ensures !BothObserved(u, ev) ==> Observed(u.messages, ev, again) == Some(i)
  {
    FoundIsUnique(u, u.messages[i].dedupe, i);
  }

  lemma IngestObserved(s: Library, ev: ChatEvent, own: bool, s1: Library, project: ProjectId, s2: Library, c: ChatId)
    requires ResolveProject(s, ev) == (s1, project) && GetOrCreateChat(s1, project, ev) == Done((s2, c))
    requires s2.messages == s.messages && Observed(s.messages, ev, own).Some?
    ensures var (t, r) := Ingest(s, ev, own); t.messages == s.messages && (r.Receipt? ==> !r.inserted && r.chat == c)
  {}

  /** A chat has meanwhile been created under the provisional reference the event leaves. */
  ghost predicate ProvisionalAgain(u: Library, ev: ChatEvent) {
    ev.rebindFrom.Some? && ChatAt(u, ev.host, ev.rebindFrom.value).Some?
  }

  /** Repeating an event at any later moment, while its chat still has that reference, stores
      nothing.  It returns the same message unless the provisional reference is in use again,
      when it is refused, or rows exist under both the provisional and the stable key. */
  lemma RepeatingStoresNothing(s: Library, ev: ChatEvent, own: bool, u: Library, again: bool)
    requires Sound(s) && WellFormed(ev) && Ingest(s, ev, own).1.Receipt?
    requires Sound(u) && Grows(Ingest(s, ev, own).0, u)
    requires Holds(u, ev.host, ev.chatReference, Ingest(s, ev, own).1.chat)
    ensures var r, (v, r2) := Ingest(s, ev, own).1, Ingest(u, ev, again);
      && v.messages == u.messages
      && (r2.Receipt? ==> !r2.inserted && r2.chat == r.chat)
      && (ProvisionalAgain(u, ev) ==> r2.Refused?)
      && (!ProvisionalAgain(u, ev) && !BothObserved(u, ev) ==>
         r2.Receipt? && r2.message == r.message && r2.sequence == r.sequence)
  {
    ChatLookupsSurviveResolve(u, ev);
    HeldBy(u, ev.host, ev.chatReference, Ingest(s, ev, own).1.chat);
    if ProvisionalAgain(u, ev) {
      var (u1, project) := ResolveProject(u, ev);
      RebindRefused(u, ev, again, u1, project, ChatAt(u, ev.host, ev.rebindFrom.value).value);
    } else {
      RepeatFindsTheMessage(s, ev, own, u, again);
    }
  }

  lemma RepeatFindsTheMessage(s: Library, ev: ChatEvent, own: bool, u: Library, again: bool)
    requires Sound(s) && WellFormed(ev) && Ingest(s, ev, own).1.Receipt?
    requires Sound(u) && Grows(Ingest(s, ev, own).0, u)
    requires Holds(u, ev.host, ev.chatReference, Ingest(s, ev, own).1.chat) && !ProvisionalAgain(u, ev)
    ensures var r, (v, r2) := Ingest(s, ev, own).1, Ingest(u, ev, again);
      && v.messages == u.messages
      && (r2.Receipt? ==> !r2.inserted && r2.chat == r.chat)
      && (!BothObserved(u, ev) ==> r2.Receipt? && r2.message == r.message && r2.sequence == r.sequence)
  {
    var t, r := Ingest(s, ev, own).0, Ingest(s, ev, own).1;
    var i := ReceiptNamesARow(s, ev, own);
    assert u.messages[i] == t.messages[i];
    var (u1, project) := ResolveProject(u, ev);
    ChatLookupsSurviveResolve(u, ev);
    HeldBy(u, ev.host, ev.chatReference, r.chat);
    if ev.rebindFrom.Some? { SubmissionStays(s, ev, own, u); }
    RepeatFindsTheChat(u, ev, u1, project, r.chat);
    ObservedRow(u, ev, again, i);
    var u2 := GetOrCreateChat(u1, project, ev).value.0;
    IngestObserved(u, ev, again, u1, project, u2, r.chat);
    if !BothObserved(u, ev) { IngestKnown(u, ev, again, u1, project, u2, r.chat, i); }
  }

  /** The answer of the first time, with nothing inserted. */
  predicate SameAnswer(first: Receipt, again: Receipt) {
    && first.Receipt? && again.Receipt? && !again.inserted
    && again.chat == first.chat && again.message == first.message && again.sequence == first.sequence
  }

  /** A repeated event is answered as the first time, whichever of two stored rows the query
      yields, if and only if the provisional reference is not in use again and not both keys
      have rows. */
  lemma RepeatingIsAnsweredIff(s: Library, ev: ChatEvent, own: bool, u: Library)
    requires Sound(s) && WellFormed(ev) && Ingest(s, ev, own).1.Receipt?
    requires Sound(u) && Grows(Ingest(s, ev, own).0, u)
    requires Holds(u, ev.host, ev.chatReference, Ingest(s, ev, own).1.chat)
    ensures (forall again :: SameAnswer(Ingest(s, ev, own).1, Ingest(u, ev, again).1)) <==>
            !ProvisionalAgain(u, ev) && !BothObserved(u, ev)
  {
    var first := Ingest(s, ev, own).1;
    forall again ensures !ProvisionalAgain(u, ev) && !BothObserved(u, ev) ==>
      SameAnswer(first, Ingest(u, ev, again).1) {
      RepeatingStoresNothing(s, ev, own, u, again);
    }
    if ProvisionalAgain(u, ev) {
      RepeatingStoresNothing(s, ev, own, u, true);
    } else if BothObserved(u, ev) {
      var again := TwoRowsAnswerOtherwise(u, ev, first);
      assert !SameAnswer(first, Ingest(u, ev, again).1);
    }
  }

  lemma ReceiptNamesTheObserved(s: Library, ev: ChatEvent, own: bool, i: nat)
    requires Sound(s) && WellFormed(ev) && Ingest(s, ev, own).1.Receipt?
    requires i < |s.messages| && Observed(s.messages, ev, own) == Some(i)
    ensures Ingest(s, ev, own).1.message == s.messages[i].id
  {
    var g := StagesOf(s, ev, own);
    assert g.indexed.messages == s.messages;
  }

  /** Of two rows under the keys of the event, one is not the row of the first answer. */
  lemma TwoRowsAnswerOtherwise(u: Library, ev: ChatEvent, first: Receipt) returns (again: bool)
    requires Sound(u) && WellFormed(ev) && BothObserved(u, ev)
    ensures !SameAnswer(first, Ingest(u, ev, again).1)
  {
    var current := Find(u.messages, KeyOf(ev, ev.chatReference)).value;
    var prior := Find(u.messages, KeyOf(ev, ev.rebindFrom.value)).value;
    assert u.messages[current].dedupe != u.messages[prior].dedupe;
    assert u.messages[current].id != u.messages[prior].id;
    again := !(first.Receipt? && first.message == u.messages[current].id);
    assert Observed(u.messages, ev, again) == Some(if again then current else prior);
    if Ingest(u, ev, again).1.Receipt? { ReceiptNamesTheObserved(u, ev, again, if again then current else prior); }
  }

  lemma RebindHasSubmission(s: Library, project: ProjectId, ev: ChatEvent)
    requires ev.rebindFrom.Some? && GetOrCreateChat(s, project, ev).Done?
    ensures ExactSubmission(s, GetOrCreateChat(s, project, ev).value.1, ev)
  {}

  lemma SubmissionStays(s: Library, ev: ChatEvent, own: bool, u: Library)
    requires Sound(s) && WellFormed(ev) && ev.rebindFrom.Some? && Ingest(s, ev, own).1.Receipt?
    requires Grows(Ingest(s, ev, own).0, u)
    ensures ExactSubmission(u, Ingest(s, ev, own).1.chat, ev)
  {
    var g := StagesOf(s, ev, own);
    RebindHasSubmission(g.resolved, g.project, ev);
    IngestIsSound(s, ev, own);
    SubmissionPersists(s, u, g.chat, ev);
  }

  lemma SubmissionPersists(s: Library, u: Library, c: ChatId, ev: ChatEvent)
    requires s.messages <= u.messages && ExactSubmission(s, c, ev)
    ensures ExactSubmission(u, c, ev)
  {
    var m :| m in s.messages && m.chat == c && m.turn == ev.turn && m.role == ev.role && m.content == ev.content;
    var i :| 0 <= i < |s.messages| && s.messages[i] == m;
    assert u.messages[i] == m;
  }

  // ---------------------------------------------------------------- the lexical projection

  /** The index rows of messages are exactly the messages, and agree in project, chat, role
      and content. */
  ghost predicate MessagesIndexed(s: Library) {
    && (forall i :: 0 <= i < |s.messages| ==> MessageIndexed(s, s.messages[i]))
    && (forall id :: ChatHistory(id) in s.lexical ==> exists i :: 0 <= i < |s.messages| && s.messages[i].id == id)
  }

  predicate MessageIndexed(s: Library, m: Message) {
    && m.chat in s.chats && ChatHistory(m.id) in s.lexical
    && var row := s.lexical[ChatHistory(m.id)];
       row.project == s.chats[m.chat].project && row.chat == Some(m.chat) && row.role == Some(m.role)
         && row.content == m.content
  }

  /** Document rows carry no chat. */
  ghost predicate DocumentRowsChatless(s: Library) {
    forall d :: ElectedDocument(d) in s.lexical ==> s.lexical[ElectedDocument(d)].chat == None
  }

  /** The index agrees for every message outside the chat; inside it the rows carry the given
      project. */
  ghost predicate IndexedWith(s: Library, c: ChatId, project: ProjectId) {
    && (forall i :: 0 <= i < |s.messages| ==> MessageRow(s, s.messages[i], c, project))
    && (forall id :: ChatHistory(id) in s.lexical ==> exists i :: 0 <= i < |s.messages| && s.messages[i].id == id)
  }

  predicate MessageRow(s: Library, m: Message, c: ChatId, project: ProjectId) {
    && m.chat in s.chats && ChatHistory(m.id) in s.lexical
    && var row := s.lexical[ChatHistory(m.id)];
       && row.project == (if m.chat == c then project else s.chats[m.chat].project)
       && row.chat == Some(m.chat) && row.role == Some(m.role) && row.content == m.content
  }

  lemma RebindIndexStage(s: Library, t: Library, c: ChatId, ev: ChatEvent, project: ProjectId)
    requires MessagesIndexed(s) && t == s.(chats := t.chats) && c in t.chats
    requires forall d :: d in s.chats ==> d in t.chats && (d != c ==> t.chats[d] == s.chats[d])
    ensures IndexedWith(t.(lexical := RebindChatIndex(t.lexical, c, project)), c, project)
  {
    var u := t.(lexical := RebindChatIndex(t.lexical, c, project));
    forall i | 0 <= i < |u.messages| ensures MessageRow(u, u.messages[i], c, project) {
      assert MessageIndexed(s, s.messages[i]);
    }
  }

  lemma WriteIndexStage(s: Library, c: ChatId, ev: ChatEvent, own: bool, project: ProjectId)
    requires IndexedWith(s, c, project) && c in s.chats && WriteMessage(s, c, ev, own).Done?
    ensures var (t, w) := WriteMessage(s, c, ev, own).value;
      IndexedWith(if w.inserted
                  then t.(lexical := IndexMessage(t.lexical, w.message, project, c, ev.role, ev.content, ev.capturedAt))
                  else t, c, project)
  {
    var (t, w) := WriteMessage(s, c, ev, own).value;
    if w.inserted {
      WriteShape(s, c, ev, own);
      var u := t.(lexical := IndexMessage(t.lexical, w.message, project, c, ev.role, ev.content, ev.capturedAt));
      forall i | 0 <= i < |u.messages| ensures MessageRow(u, u.messages[i], c, project) {
        if i < |s.messages| { assert MessageRow(s, s.messages[i], c, project) && s.messages[i] in s.messages; }
      }
      forall id | ChatHistory(id) in u.lexical ensures exists i :: 0 <= i < |u.messages| && u.messages[i].id == id {
        if id == ev.id {
          assert u.messages[|s.messages|].id == id;
        } else {
          var i :| 0 <= i < |s.messages| && s.messages[i].id == id;
          assert u.messages[i].id == id;
        }
      }
    }
  }

  lemma AgreesIffProject(s: Library, c: ChatId, project: ProjectId, i: nat)
    requires IndexedWith(s, c, project) && c in s.chats
    requires i < |s.messages| && s.messages[i].chat == c
    ensures MessagesIndexed(s) <==> s.chats[c].project == project
  {
    assert MessageRow(s, s.messages[i], c, project);
    if s.chats[c].project == project {
      forall j | 0 <= j < |s.messages| ensures MessageIndexed(s, s.messages[j]) {
        assert MessageRow(s, s.messages[j], c, project);
      }
    } else {
      assert !MessageIndexed(s, s.messages[i]);
    }
  }

  /** A rebind replayed without a title, for a chat already rebound, naming another project
      than the stored one: the index rows move and the chat row does not. */
  ghost predicate TitlelessReplayElsewhere(s: Library, ev: ChatEvent) {
    && ev.rebindFrom.Some? && !Present(ev.chatTitle) && Present(ev.projectReference)
    && ChatAt(s, ev.host, ev.rebindFrom.value).None?
    && var target := ChatAt(s, ev.host, ev.chatReference);
       target.Some? && s.chats[target.value].project != ProjectUuid(ev.host, ev.projectReference.value)
  }

  lemma StoredProject(s: Library, ev: ChatEvent)
    requires ChatsSound(s)
    ensures var (s1, project) := ResolveProject(s, ev); var a := GetOrCreateChat(s1, project, ev);
      a.Done? ==> (a.value.0.chats[a.value.1].project == project <==> !TitlelessReplayElsewhere(s, ev))
  {
    var (s1, project) := ResolveProject(s, ev);
    ChatLookupsSurviveResolve(s, ev);
  }

  /** An event that commits leaves the lexical index agreeing with the messages if and only if
      it is not a titleless replay naming another project. */
  lemma IngestAgreesIff(s: Library, ev: ChatEvent, own: bool)
    requires Sound(s) && WellFormed(ev) && MessagesIndexed(s)
    ensures var (t, r) := Ingest(s, ev, own);
      && (r.Receipt? ==> (MessagesIndexed(t) <==> !TitlelessReplayElsewhere(s, ev)))
      && (r.Refused? ==> MessagesIndexed(t))
  {
    var (t, r) := Ingest(s, ev, own);
    if r.Receipt? {
      var g := StagesOf(s, ev, own);
      var i := ReceiptNamesARow(s, ev, own);
      StoredProject(s, ev);
      IndexUnaffected(s, g.resolved);
      RebindIndexStage(g.resolved, g.written, g.chat, ev, g.project);
      WriteIndexStage(g.indexed, g.chat, ev, own, g.project);
      StagesAreSound(s, ev, own, g);
      AgreesIffProject(t, g.chat, g.project, i);
    }
  }

  lemma IndexUnaffected(s: Library, t: Library)
    requires MessagesIndexed(s) && t == s.(projects := t.projects)
    ensures MessagesIndexed(t)
  {
    forall i | 0 <= i < |t.messages| ensures MessageIndexed(t, t.messages[i]) {
      assert MessageIndexed(s, s.messages[i]);
    }
  }

  /** Chat events leave the rows of documents as they are. */
  lemma IngestLeavesDocumentRows(s: Library, ev: ChatEvent, own: bool)
    requires Sound(s) && WellFormed(ev) && DocumentRowsChatless(s)
    ensures var t := Ingest(s, ev, own).0;
      forall d {:trigger ElectedDocument(d)} ::
        && (ElectedDocument(d) in t.lexical <==> ElectedDocument(d) in s.lexical)
        && (ElectedDocument(d) in s.lexical ==> t.lexical[ElectedDocument(d)] == s.lexical[ElectedDocument(d)])
  {
    if Ingest(s, ev, own).1.Receipt? {
      var g := StagesOf(s, ev, own);
      StagesAreSound(s, ev, own, g);
    }
  }

  // ---------------------------------------------------------------- the writers

  method LookupChat(db: Database, host: Host, reference: string) returns (chat: Option<ChatId>)
    requires ChatsSound(db.View())
    ensures chat == ChatAt(db.View(), host, reference)
  {
    var at := set c | c in db.chats && db.chats[c].host == host && db.chats[c].reference == reference;
    if at == {} {
      chat := None;
      assert forall c :: Holds(db.View(), host, reference, c) ==> c in at;
    } else {
      var c :| c in at;
      HeldBy(db.View(), host, reference, c);
      chat := Some(c);
    }
  }

  method GetOrCreateProject(db: Database, id: ProjectId, name: Option<string>)
    modifies db`projects
    ensures db.View() == EnsureProject(old(db.View()), id, name)
  {
    if id in db.projects {
      if Present(name) { db.projects := db.projects[id := name.value]; }
    } else {
      db.projects := db.projects[id := if Present(name) then name.value else id.reference];
    }
  }

  method ResolveEventProject(db: Database, ev: ChatEvent) returns (project: ProjectId)
    requires ChatsSound(db.View())
    modifies db`projects
    ensures (db.View(), project) == ResolveProject(old(db.View()), ev)
  {
    if Present(ev.projectReference) {
      project := ProjectUuid(ev.host, ev.projectReference.value);
      GetOrCreateProject(db, project, ev.projectName);
    } else {
      var bound := LookupChat(db, ev.host, ev.chatReference);
      if bound.Some? {
        project := db.chats[bound.value].project;
      } else {
        project := UNASSIGNED;
        GetOrCreateProject(db, project, Some("Unassigned"));
      }
    }
  }

  method RebindChat(db: Database, project: ProjectId, ev: ChatEvent) returns (a: Attempt<ChatId>)
    requires ev.rebindFrom.Some? && ChatsSound(db.View())
    modifies db`chats
    ensures var spec := RebindProvisionalChat(old(db.View()), project, ev);
            if a.Stop? then spec == Stop(a.reason) else spec == Done((db.View(), a.value))
  {
    var source := LookupChat(db, ev.host, ev.rebindFrom.value);
    var target := LookupChat(db, ev.host, ev.chatReference);
    if source.Some? && target.Some? { return Stop(StableTargetTaken); }
    if source.None? && target.None? { return Stop(NoProvisionalChat); }
    var c := if source.Some? then source.value else target.value;
    if !ExactSubmission(db.View(), c, ev) { return Stop(NoExactSubmission); }
    if source.Some? {
      db.chats := db.chats[c := Retitled(db.chats[c], ev).(project := project, reference := ev.chatReference)];
    } else if Present(ev.chatTitle) {
      db.chats := db.chats[c := Retitled(db.chats[c], ev).(project := project)];
    }
    a := Done(c);
  }

  method WriteChat(db: Database, project: ProjectId, ev: ChatEvent) returns (a: Attempt<ChatId>)
    requires ChatsSound(db.View())
    modifies db`chats
    ensures var spec := GetOrCreateChat(old(db.View()), project, ev);
            if a.Stop? then spec == Stop(a.reason) else spec == Done((db.View(), a.value))
  {
    if ev.rebindFrom.Some? {
      a := RebindChat(db, project, ev);
      return;
    }
    var existing := LookupChat(db, ev.host, ev.chatReference);
    var c := if existing.Some? then existing.value else ChatUuid(ev.host, ev.chatReference);
    if existing.Some? {
      db.chats := db.chats[c := Retitled(db.chats[c], ev).(project := project)];
    } else if c in db.chats {
      return Stop(ConstraintFailed);
    } else {
      var title := if Present(ev.chatTitle) then ev.chatTitle.value else HostName(ev.host) + " chat";
      db.chats := db.chats[c := Chat(project, ev.host, ev.chatReference, title)];
    }
    a := Done(c);
  }

  method StoreMessage(db: Database, c: ChatId, ev: ChatEvent, own: bool) returns (a: Attempt<Written>)
    modifies db`messages
    ensures var spec := WriteMessage(old(db.View()), c, ev, own);
            if a.Stop? then spec == Stop(a.reason) else spec == Done((db.View(), a.value))
  {
    var existing := Observed(db.messages, ev, own);
    if existing.Some? {
      var m := db.messages[existing.value];
      return if m.chat != c then Stop(ObservedInAnotherChat) else Done(Written(m.id, false, m.sequence));
    }
    if exists m :: m in db.messages && m.id == ev.id { return Stop(ConstraintFailed); }
    var next := LastSequence(db.messages, c) + 1;
    db.messages := db.messages + [Message(ev.id, c, ev.turn, next, ev.role, ev.content, ev.capturedAt,
      KeyOf(ev, ev.chatReference))];
    a := Done(Written(ev.id, true, next));
  }

  /** `ingest_chat_event`. */
  method IngestChatEvent(db: Database, ev: ChatEvent, own: bool) returns (r: Receipt)
    requires ChatsSound(db.View())
    modifies db
    ensures (db.View(), r) == Ingest(old(db.View()), ev, own)
  {
    var saved := db.View();
    var project := ResolveEventProject(db, ev);
    ghost var resolved := db.View();
    StillDistinct(saved, ev);
    var chat := WriteChat(db, project, ev);
    if chat.Stop? {
      db.Rollback(saved);
      return Refused(chat.reason);
    }
    db.lexical := RebindChatIndex(db.lexical, chat.value, project);
    var written := StoreMessage(db, chat.value, ev, own);
    if written.Stop? {
      db.Rollback(saved);
      return Refused(written.reason);
    }
    var w := written.value;
    if w.inserted {
      db.lexical := IndexMessage(db.lexical, w.message, project, chat.value, ev.role, ev.content, ev.capturedAt);
    }
    r := Receipt(project, chat.value, w.message, w.inserted, w.sequence);
  }

  lemma StillDistinct(s: Library, ev: ChatEvent)
    requires ChatsSound(s)
    ensures ChatsSound(ResolveProject(s, ev).0)
  {
    var t := ResolveProject(s, ev).0;
    forall c | c in s.chats ensures s.chats[c].project in s.projects { assert ChatSound(s, c); }
    ResolvedProject(s, ev);
    forall c | c in t.chats ensures ChatSound(t, c) { assert ChatSound(s, c); }
  }
}
