/** What one accepted chat event does to every row, in terms of the tables before and after it. */
module ChatEffects {
  import opened Schema
  import opened LexicalIndexer
  import opened ChatHistory
  import opened ChatIngestion

  predicate Given(text: Option<string>) {
    text.Some? && text.value != ""
  }

  predicate HasReference(chat: Chat, host: Host, reference: string) {
    chat.host == host && chat.reference == reference
  }

  /** No chat of the host has the reference. */
  ghost predicate Free(s: Library, host: Host, reference: string) {
    forall c :: c in s.chats ==> !HasReference(s.chats[c], host, reference)
  }

  lemma FreeIff(s: Library, host: Host, reference: string)
    ensures Free(s, host, reference) <==> ChatAt(s, host, reference).None?
  {
    if c :| c in s.chats && HasReference(s.chats[c], host, reference) { assert Holds(s, host, reference, c); }
  }

  // ---------------------------------------------------------------- the project

  /** The project of an event is the one its host names, else the one its chat is in already,
      else the unassigned one. */
  ghost predicate InProject(s: Library, ev: ChatEvent, project: ProjectId) {
    if Given(ev.projectReference) then project == ProjectUuid(ev.host, ev.projectReference.value)
    else
      && (forall c :: c in s.chats && HasReference(s.chats[c], ev.host, ev.chatReference) ==>
            project == s.chats[c].project)
      && (Free(s, ev.host, ev.chatReference) ==> project == ProjectUuid(LocalHost, "unassigned"))
  }

  /** A project named by the host takes the given name, else keeps its name, else is called by
      its reference; a chat already bound alters no project. */
  ghost predicate ProjectsAfter(s: Library, t: Library, ev: ChatEvent) {
    if Given(ev.projectReference) then
      var id := ProjectUuid(ev.host, ev.projectReference.value);
      t.projects == s.projects[id :=
        if Given(ev.projectName) then ev.projectName.value
        else if id in s.projects then s.projects[id] else ev.projectReference.value]
    else if Free(s, ev.host, ev.chatReference) then
      t.projects == s.projects[ProjectUuid(LocalHost, "unassigned") := "Unassigned"]
    else t.projects == s.projects
  }

  lemma ResolvedInProject(s: Library, ev: ChatEvent)
    requires ChatsSound(s)
    ensures InProject(s, ev, ResolveProject(s, ev).1) && ProjectsAfter(s, ResolveProject(s, ev).0, ev)
  {
    if !Given(ev.projectReference) {
      FreeIff(s, ev.host, ev.chatReference);
      BoundToHolder(s, ev);
      assert Present(ev.projectReference) == Given(ev.projectReference);
    }
  }

  lemma BoundToHolder(s: Library, ev: ChatEvent)
    requires ChatsSound(s)
    ensures forall c :: c in s.chats && HasReference(s.chats[c], ev.host, ev.chatReference) ==>
      ChatAt(s, ev.host, ev.chatReference) == Some(c)
  {
    forall c | c in s.chats && HasReference(s.chats[c], ev.host, ev.chatReference)
      ensures ChatAt(s, ev.host, ev.chatReference) == Some(c)
    {
      HeldBy(s, ev.host, ev.chatReference, c);
    }
  }

  // ---------------------------------------------------------------- the chat

  /** The turn a rebind repeats is stored in the chat. */
  ghost predicate Submitted(s: Library, c: ChatId, ev: ChatEvent) {
    exists i :: 0 <= i < |s.messages| && s.messages[i].chat == c && s.messages[i].turn == ev.turn
      && s.messages[i].role == ev.role && s.messages[i].content == ev.content
  }

  /** A plain event goes to the chat that has its reference, or founds it.  A rebind goes to
      the chat it finds under either reference, if the other one is free and the submitted
      turn is stored there. */
  ghost predicate GoesTo(s: Library, ev: ChatEvent, c: ChatId) {
    if ev.rebindFrom.None? then
      if Free(s, ev.host, ev.chatReference) then c == ChatUuid(ev.host, ev.chatReference) && c !in s.chats
      else c in s.chats && HasReference(s.chats[c], ev.host, ev.chatReference)
    else
      && c in s.chats && Submitted(s, c, ev)
      && (|| (HasReference(s.chats[c], ev.host, ev.rebindFrom.value) && Free(s, ev.host, ev.chatReference))
          || (HasReference(s.chats[c], ev.host, ev.chatReference) && Free(s, ev.host, ev.rebindFrom.value)))
  }

  /** The title of a chat nobody named. */
  function DefaultTitle(host: Host): string {
    match host
    case Codex => "codex chat"
    case ChatGptWeb => "chatgpt_web chat"
    case ClaudeCode => "claude_code chat"
    case ClaudeWeb => "claude_web chat"
    case LocalHost => "local chat"
  }

  /** A rebind that finds the chat under its stable reference already writes only with a title. */
  ghost predicate LeavesTheChat(s: Library, ev: ChatEvent) {
    ev.rebindFrom.Some? && Free(s, ev.host, ev.rebindFrom.value) && !Given(ev.chatTitle)
  }

  /** The chat afterwards: in the project, under the reference, with the given title, else
      with the title it had. */
  ghost predicate ChatsAfter(s: Library, t: Library, ev: ChatEvent, project: ProjectId, c: ChatId) {
    t.chats ==
      if LeavesTheChat(s, ev) then s.chats
      else s.chats[c := Chat(project, ev.host, ev.chatReference,
        if Given(ev.chatTitle) then ev.chatTitle.value
        else if c in s.chats then s.chats[c].title else DefaultTitle(ev.host))]
  }

  lemma SubmittedIff(s: Library, c: ChatId, ev: ChatEvent)
    ensures Submitted(s, c, ev) <==> ExactSubmission(s, c, ev)
  {
    if Submitted(s, c, ev) {
      var i :| 0 <= i < |s.messages| && s.messages[i].chat == c && s.messages[i].turn == ev.turn
        && s.messages[i].role == ev.role && s.messages[i].content == ev.content;
      assert s.messages[i] in s.messages;
    }
  }

  lemma WrittenChat(s: Library, project: ProjectId, ev: ChatEvent)
    requires ChatsSound(s) && GetOrCreateChat(s, project, ev).Done?
    ensures var (t, c) := GetOrCreateChat(s, project, ev).value; GoesTo(s, ev, c) && ChatsAfter(s, t, ev, project, c)
  {
    FreeIff(s, ev.host, ev.chatReference);
    if ev.rebindFrom.Some? {
      ReboundChat(s, project, ev);
    } else {
      TitledByDefault(ev.host);
    }
  }

  lemma ReboundChat(s: Library, project: ProjectId, ev: ChatEvent)
    requires ev.rebindFrom.Some? && RebindProvisionalChat(s, project, ev).Done?
    ensures var (t, c) := RebindProvisionalChat(s, project, ev).value;
      GoesTo(s, ev, c) && ChatsAfter(s, t, ev, project, c)
  {
    FreeIff(s, ev.host, ev.chatReference);
    FreeIff(s, ev.host, ev.rebindFrom.value);
    SubmittedIff(s, RebindProvisionalChat(s, project, ev).value.1, ev);
  }

  lemma TitledByDefault(host: Host)
    ensures HostName(host) + " chat" == DefaultTitle(host)
  {}

  lemma ChatIsFound(s: Library, project: ProjectId, ev: ChatEvent, c: ChatId)
    requires ChatsSound(s) && GoesTo(s, ev, c)
    ensures GetOrCreateChat(s, project, ev).Done? && GetOrCreateChat(s, project, ev).value.1 == c
  {
    FreeIff(s, ev.host, ev.chatReference);
    if c in s.chats { HeldBy(s, ev.host, s.chats[c].reference, c); }
    if ev.rebindFrom.Some? {
      FreeIff(s, ev.host, ev.rebindFrom.value);
      SubmittedIff(s, c, ev);
    }
  }

  // ---------------------------------------------------------------- the message

  /** The key of the event as observed in a chat under the reference: its turn identifies it,
      else its own id. */
  function KeyUnder(ev: ChatEvent, reference: string): DedupeKey {
    DedupeKey(ev.host, reference, if ev.turn.Some? then ev.turn.value else ev.id, ev.role, ev.content)
  }

  predicate Stored(s: Library, i: nat, key: DedupeKey) {
    i < |s.messages| && s.messages[i].dedupe == key
  }

  ghost predicate Unseen(s: Library, key: DedupeKey) {
    forall i: nat :: !Stored(s, i, key)
  }

  /** The stored row that answers an event; with rows under both keys of a rebind, `own` tells
      which one the query yields. */
  ghost predicate Answers(s: Library, ev: ChatEvent, own: bool, i: nat) {
    || (Stored(s, i, KeyUnder(ev, ev.chatReference))
        && (ev.rebindFrom.None? || own || Unseen(s, KeyUnder(ev, ev.rebindFrom.value))))
    || (ev.rebindFrom.Some? && Stored(s, i, KeyUnder(ev, ev.rebindFrom.value))
        && (!own || Unseen(s, KeyUnder(ev, ev.chatReference))))
  }

  /** An event seen before must be in the chat it goes to; a new one needs a new id. */
  ghost predicate Fits(s: Library, ev: ChatEvent, own: bool, c: ChatId) {
    && (forall i: nat :: Answers(s, ev, own, i) ==> s.messages[i].chat == c)
    && ((forall i: nat :: !Answers(s, ev, own, i)) ==> forall i :: 0 <= i < |s.messages| ==> s.messages[i].id != ev.id)
  }

  lemma FindIff(s: Library, key: DedupeKey, i: nat)
    requires MessagesSound(s)
    ensures Find(s.messages, key) == Some(i) <==> Stored(s, i, key)
  {
    if Stored(s, i, key) { FoundIsUnique(s, key, i); }
  }

  lemma ObservedIff(s: Library, ev: ChatEvent, own: bool, i: nat)
    requires MessagesSound(s) && WellFormed(ev)
    ensures Observed(s.messages, ev, own) == Some(i) <==> Answers(s, ev, own, i)
  {
    FindIff(s, KeyUnder(ev, ev.chatReference), i);
    UnseenIff(s, KeyUnder(ev, ev.chatReference));
    if ev.rebindFrom.Some? {
      assert ev.rebindFrom.value != "" by { assert |NEW_CHAT| > 0; }
      FindIff(s, KeyUnder(ev, ev.rebindFrom.value), i);
      UnseenIff(s, KeyUnder(ev, ev.rebindFrom.value));
    }
  }

  lemma UnseenIff(s: Library, key: DedupeKey)
    requires MessagesSound(s)
    ensures Unseen(s, key) <==> Find(s.messages, key).None?
  {
    var found := Find(s.messages, key);
    if found.Some? { assert Stored(s, found.value, key); }
  }

  /** The row of a new message: numbered after the messages of its chat. */
  ghost predicate MessagesAfter(s: Library, t: Library, ev: ChatEvent, own: bool, c: ChatId, r: Receipt)
    requires r.Receipt?
  {
    && (r.inserted <==> forall i: nat :: !Answers(s, ev, own, i))
    && (r.inserted ==>
          && r.message == ev.id && r.sequence == CountIn(s.messages, c) + 1
          && t.messages == s.messages + [Message(ev.id, c, ev.turn, r.sequence, ev.role, ev.content, ev.capturedAt,
               KeyUnder(ev, ev.chatReference))])
    && (!r.inserted ==>
          && t.messages == s.messages
          && exists i: nat :: Answers(s, ev, own, i) && s.messages[i].chat == c
               && r.message == s.messages[i].id && r.sequence == s.messages[i].sequence)
  }

  lemma WrittenMessage(s: Library, c: ChatId, ev: ChatEvent, own: bool)
    requires MessagesSound(s) && WellFormed(ev)
    ensures WriteMessage(s, c, ev, own).Done? <==> Fits(s, ev, own, c)
    ensures WriteMessage(s, c, ev, own).Done? ==>
      var (t, w) := WriteMessage(s, c, ev, own).value;
      MessagesAfter(s, t, ev, own, c, Receipt(UNASSIGNED, c, w.message, w.inserted, w.sequence))
  {
    var at := Observed(s.messages, ev, own);
    forall i: nat ensures at == Some(i) <==> Answers(s, ev, own, i) {
      ObservedIff(s, ev, own, i);
    }
    if at.Some? {
      assert Answers(s, ev, own, at.value);
    } else {
      LastIsCount(s.messages, c);
    }
  }

  // ---------------------------------------------------------------- the whole event

  /** The index rows of the chat follow it to the project, a new message gets its own row, and
      no other row is touched. */
  ghost predicate IndexAfter(s: Library, t: Library, ev: ChatEvent, project: ProjectId, c: ChatId, inserted: bool) {
    && (forall k :: k in t.lexical <==> k in s.lexical || (inserted && k == ChatHistory(ev.id)))
    && (inserted ==>
          t.lexical[ChatHistory(ev.id)] == LexicalEntry(project, Some(c), Some(ev.role), ev.content, ev.capturedAt))
    && (forall k :: k in s.lexical && !(inserted && k == ChatHistory(ev.id)) ==>
          t.lexical[k] == if s.lexical[k].chat == Some(c) then s.lexical[k].(project := project) else s.lexical[k])
  }

  /** What an accepted event did. */
  ghost predicate Accepted(s: Library, t: Library, ev: ChatEvent, own: bool, r: Receipt) {
    && r.Receipt?
    && InProject(s, ev, r.project) && ProjectsAfter(s, t, ev)
    && GoesTo(s, ev, r.chat) && ChatsAfter(s, t, ev, r.project, r.chat)
    && MessagesAfter(s, t, ev, own, r.chat, r)
    && IndexAfter(s, t, ev, r.project, r.chat, r.inserted)
  }

  lemma SameChatRows(s: Library, u: Library, t: Library, ev: ChatEvent, project: ProjectId, c: ChatId)
    requires u.chats == s.chats && u.messages == s.messages
    requires GoesTo(u, ev, c) && ChatsAfter(u, t, ev, project, c)
    ensures GoesTo(s, ev, c) && ChatsAfter(s, t, ev, project, c)
  {
    SameGoal(s, u, ev, c);
  }

  lemma SameGoal(s: Library, u: Library, ev: ChatEvent, c: ChatId)
    requires u.chats == s.chats && u.messages == s.messages
    ensures GoesTo(u, ev, c) <==> GoesTo(s, ev, c)
    ensures LeavesTheChat(u, ev) <==> LeavesTheChat(s, ev)
  {
    assert Free(u, ev.host, ev.chatReference) <==> Free(s, ev.host, ev.chatReference);
    if ev.rebindFrom.Some? {
      assert Free(u, ev.host, ev.rebindFrom.value) <==> Free(s, ev.host, ev.rebindFrom.value);
      assert Submitted(u, c, ev) <==> Submitted(s, c, ev);
    }
  }

  lemma SameAnswers(s: Library, u: Library, ev: ChatEvent, own: bool)
    requires u.messages == s.messages
    ensures forall i: nat :: Answers(u, ev, own, i) <==> Answers(s, ev, own, i)
  {
    forall key ensures Unseen(u, key) <==> Unseen(s, key) {
      assert forall i: nat :: Stored(u, i, key) <==> Stored(s, i, key);
    }
  }

  lemma SameMessageRows(s: Library, u: Library, t: Library, ev: ChatEvent, own: bool, c: ChatId, r: Receipt)
    requires u.messages == s.messages && r.Receipt? && MessagesAfter(u, t, ev, own, c, r)
    ensures MessagesAfter(s, t, ev, own, c, r)
  {
    SameAnswers(s, u, ev, own);
  }

  /** Project, chat, message and index after an accepted event, column by column. */
  lemma EventEffects(s: Library, ev: ChatEvent, own: bool)
    requires Sound(s) && WellFormed(ev) && Ingest(s, ev, own).1.Receipt?
    ensures Accepted(s, Ingest(s, ev, own).0, ev, own, Ingest(s, ev, own).1)
  {
    var t, r := Ingest(s, ev, own).0, Ingest(s, ev, own).1;
    var g := StagesOf(s, ev, own);
    ResolvedInProject(s, ev);
    WrittenChat(g.resolved, g.project, ev);
    SameChatRows(s, g.resolved, g.written, ev, g.project, g.chat);
    SameRowsSound(g.written, g.indexed);
    StoredMessage(s, g.indexed, g.chat, ev, own, g.stored, g.w, g.project, r);
    IndexWritten(s, g.written, ev, g.project, g.chat, t, r.inserted);
  }

  lemma StoredMessage(
    s: Library, u: Library, c: ChatId, ev: ChatEvent, own: bool, t: Library, w: Written,
    project: ProjectId, r: Receipt)
    requires u.messages == s.messages && MessagesSound(u) && WellFormed(ev)
    requires WriteMessage(u, c, ev, own) == Done((t, w)) && r == Receipt(project, c, w.message, w.inserted, w.sequence)
    ensures MessagesAfter(s, t, ev, own, c, r) && t == u.(messages := t.messages)
    ensures w.inserted ==> w.message == ev.id
  {
    WrittenMessage(u, c, ev, own);
    WriteShape(u, c, ev, own);
    SameMessageRows(s, u, t, ev, own, c, r);
  }

  lemma IndexWritten(
    s: Library, u: Library, ev: ChatEvent, project: ProjectId, c: ChatId, t: Library, inserted: bool)
    requires u.lexical == s.lexical
    requires var moved := RebindChatIndex(u.lexical, c, project);
      t.lexical ==
      if inserted then IndexMessage(moved, ev.id, project, c, ev.role, ev.content, ev.capturedAt) else moved
    ensures IndexAfter(s, t, ev, project, c, inserted)
  {}

  /** An event is accepted if and only if there is a chat it goes to, in which it fits. */
  lemma EventIsAcceptedIff(s: Library, ev: ChatEvent, own: bool)
    requires Sound(s) && WellFormed(ev)
    ensures Ingest(s, ev, own).1.Receipt? <==> exists c :: GoesTo(s, ev, c) && Fits(s, ev, own, c)
  {
    if Ingest(s, ev, own).1.Receipt? {
      var g := StagesOf(s, ev, own);
      WrittenChat(g.resolved, g.project, ev);
      SameGoal(s, g.resolved, ev, g.chat);
      SameRowsSound(g.written, g.indexed);
      WrittenMessage(g.indexed, g.chat, ev, own);
      SameFit(s, g.indexed, ev, own, g.chat);
    } else if c :| GoesTo(s, ev, c) && Fits(s, ev, own, c) {
      FittingIsAccepted(s, ev, own, c);
    }
  }

  lemma SameFit(s: Library, u: Library, ev: ChatEvent, own: bool, c: ChatId)
    requires u.messages == s.messages
    ensures Fits(u, ev, own, c) <==> Fits(s, ev, own, c)
  {
    SameAnswers(s, u, ev, own);
  }

  lemma FittingIsAccepted(s: Library, ev: ChatEvent, own: bool, c: ChatId)
    requires Sound(s) && WellFormed(ev) && GoesTo(s, ev, c) && Fits(s, ev, own, c)
    ensures Ingest(s, ev, own).1.Receipt?
  {
    var (s1, project) := ResolveProject(s, ev);
    ChatLookupsSurviveResolve(s, ev);
    StillDistinct(s, ev);
    SameGoal(s, s1, ev, c);
    ChatIsFound(s1, project, ev, c);
    var s2 := GetOrCreateChat(s1, project, ev).value.0;
    var s3 := s2.(lexical := RebindChatIndex(s2.lexical, c, project));
    ChatIsWritten(s1, project, ev);
    SameFit(s, s3, ev, own, c);
    MessagesCanBeLookedUp(s, s3, ev, own, c);
  }

  lemma MessagesCanBeLookedUp(s: Library, u: Library, ev: ChatEvent, own: bool, c: ChatId)
    requires MessagesSound(s) && WellFormed(ev) && u.messages == s.messages && Fits(s, ev, own, c)
    ensures WriteMessage(u, c, ev, own).Done?
  {
    WrittenMessage(s, c, ev, own);
  }

  /** An accepted plain event that names no project leaves a known chat in its project, and
      the projects as they were; naming one moves the chat there, and without a chat it is
      founded among the unassigned.  The index rows of the chat are in its project. */
  lemma ChatStaysUnlessMoved(s: Library, ev: ChatEvent, own: bool)
    requires Sound(s) && WellFormed(ev) && ev.rebindFrom.None? && Ingest(s, ev, own).1.Receipt?
    ensures var (t, r) := Ingest(s, ev, own);
      && r.chat in t.chats
      && (!Given(ev.projectReference) && r.chat in s.chats ==>
            t.projects == s.projects && t.chats[r.chat].project == s.chats[r.chat].project)
      && (!Given(ev.projectReference) && r.chat !in s.chats ==>
            t.chats[r.chat].project == ProjectUuid(LocalHost, "unassigned"))
      && (Given(ev.projectReference) ==>
            t.chats[r.chat].project == ProjectUuid(ev.host, ev.projectReference.value))
      && (forall k :: k in t.lexical && t.lexical[k].chat == Some(r.chat) ==>
            t.lexical[k].project == t.chats[r.chat].project)
  {
    EventEffects(s, ev, own);
    AcceptedPlainly(s, Ingest(s, ev, own).0, ev, own, Ingest(s, ev, own).1);
  }

  lemma AcceptedPlainly(s: Library, t: Library, ev: ChatEvent, own: bool, r: Receipt)
    requires ev.rebindFrom.None? && Accepted(s, t, ev, own, r)
    ensures r.chat in t.chats && t.chats[r.chat].project == r.project
    ensures !Given(ev.projectReference) && r.chat in s.chats ==>
      t.projects == s.projects && r.project == s.chats[r.chat].project
    ensures !Given(ev.projectReference) && r.chat !in s.chats ==> r.project == ProjectUuid(LocalHost, "unassigned")
    ensures Given(ev.projectReference) ==> r.project == ProjectUuid(ev.host, ev.projectReference.value)
    ensures forall k :: k in t.lexical && t.lexical[k].chat == Some(r.chat) ==> t.lexical[k].project == r.project
  {
    if r.chat in s.chats { assert !Free(s, ev.host, ev.chatReference); }
  }

  // ---------------------------------------------------------------- refusals

  /** Why a rebind stops before its message is looked at: both references are held, neither
      is, or the one chat found does not hold the submitted turn. */
  ghost predicate RebindStops(s: Library, ev: ChatEvent, reason: Refusal)
    requires ev.rebindFrom.Some?
  {
    var from, to := Free(s, ev.host, ev.rebindFrom.value), Free(s, ev.host, ev.chatReference);
    match reason
    case StableTargetTaken => !from && !to
    case NoProvisionalChat => from && to
    case NoExactSubmission =>
      && from != to
      && var found := if to then ev.rebindFrom.value else ev.chatReference;
         forall c :: c in s.chats && HasReference(s.chats[c], ev.host, found) ==> !Submitted(s, c, ev)
    case _ => false
  }

  lemma RebindStopsFor(s: Library, project: ProjectId, ev: ChatEvent)
    requires ChatsSound(s) && ev.rebindFrom.Some? && RebindProvisionalChat(s, project, ev).Stop?
    ensures RebindStops(s, ev, RebindProvisionalChat(s, project, ev).reason)
  {
    FreeIff(s, ev.host, ev.chatReference);
    FreeIff(s, ev.host, ev.rebindFrom.value);
    forall c | c in s.chats ensures HasReference(s.chats[c], ev.host, s.chats[c].reference) ==>
      ChatAt(s, ev.host, s.chats[c].reference) == Some(c)
    {
      if HasReference(s.chats[c], ev.host, s.chats[c].reference) { HeldBy(s, ev.host, s.chats[c].reference, c); }
    }
    forall c ensures Submitted(s, c, ev) <==> ExactSubmission(s, c, ev) { SubmittedIff(s, c, ev); }
  }

  /** A rebind stopped at its chats, the observation is stored in another chat, or a
      constraint rejects the new row. */
  ghost predicate Explains(s: Library, ev: ChatEvent, own: bool, reason: Refusal) {
    if forall c :: !GoesTo(s, ev, c) then
      if ev.rebindFrom.Some? then RebindStops(s, ev, reason) else reason == ConstraintFailed
    else if exists i: nat :: Answers(s, ev, own, i) then reason == ObservedInAnotherChat
    else reason == ConstraintFailed
  }

  /** Every refusal says why. */
  lemma RefusalsAreExplained(s: Library, ev: ChatEvent, own: bool)
    requires Sound(s) && WellFormed(ev) && Ingest(s, ev, own).1.Refused?
    ensures Explains(s, ev, own, Ingest(s, ev, own).1.reason)
  {
    var (s1, project) := ResolveProject(s, ev);
    ChatLookupsSurviveResolve(s, ev);
    StillDistinct(s, ev);
    forall c ensures GoesTo(s1, ev, c) <==> GoesTo(s, ev, c) { SameGoal(s, s1, ev, c); }
    var a := GetOrCreateChat(s1, project, ev);
    if a.Stop? {
      NoChatToGoTo(s1, project, ev);
      if ev.rebindFrom.Some? { RebindStopsFor(s1, project, ev); RebindStopsSame(s, s1, ev, a.reason); }
    } else {
      WrittenChat(s1, project, ev);
      ChatIsWritten(s1, project, ev);
      assert GoesTo(s, ev, a.value.1);
      ObservedIffAnswered(s, ev, own);
      MessageStops(s, ev, own, s1, project, a.value.0, a.value.1);
    }
  }

  lemma MessageStops(
    s: Library, ev: ChatEvent, own: bool, s1: Library, project: ProjectId, s2: Library, c: ChatId)
    requires ResolveProject(s, ev) == (s1, project) && GetOrCreateChat(s1, project, ev) == Done((s2, c))
    requires s2.messages == s.messages && Ingest(s, ev, own).1.Refused?
    ensures Ingest(s, ev, own).1.reason ==
      if Observed(s.messages, ev, own).Some? then ObservedInAnotherChat else ConstraintFailed
  {}

  lemma NoChatToGoTo(s: Library, project: ProjectId, ev: ChatEvent)
    requires ChatsSound(s) && GetOrCreateChat(s, project, ev).Stop?
    ensures forall c :: !GoesTo(s, ev, c)
  {
    forall c ensures !GoesTo(s, ev, c) {
      if GoesTo(s, ev, c) { ChatIsFound(s, project, ev, c); }
    }
  }

  lemma ObservedIffAnswered(s: Library, ev: ChatEvent, own: bool)
    requires MessagesSound(s) && WellFormed(ev)
    ensures Observed(s.messages, ev, own).Some? <==> exists i: nat :: Answers(s, ev, own, i)
  {
    forall i: nat ensures Observed(s.messages, ev, own) == Some(i) <==> Answers(s, ev, own, i) {
      ObservedIff(s, ev, own, i);
    }
    if Observed(s.messages, ev, own).Some? { assert Answers(s, ev, own, Observed(s.messages, ev, own).value); }
  }

  lemma RebindStopsSame(s: Library, u: Library, ev: ChatEvent, reason: Refusal)
    requires u.chats == s.chats && u.messages == s.messages && ev.rebindFrom.Some? && RebindStops(u, ev, reason)
    ensures RebindStops(s, ev, reason)
  {
    assert Free(u, ev.host, ev.chatReference) <==> Free(s, ev.host, ev.chatReference);
    assert Free(u, ev.host, ev.rebindFrom.value) <==> Free(s, ev.host, ev.rebindFrom.value);
    forall c ensures Submitted(u, c, ev) <==> Submitted(s, c, ev) {}
  }
}
