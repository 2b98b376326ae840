/** Projects, chats and ordered idempotent messages (`projects/resolver.py`,
    `chats/repository.py`, `history/message_writer.py`, `chat/ingestion.py`). */
module ChatHistory {
  import opened Schema
  import opened LexicalIndexer

  datatype ChatEvent = ChatEvent(
    id: string, host: Host, projectReference: Option<string>, chatReference: string, turn: Option<string>,
    role: Role, content: string, capturedAt: Instant,
    projectName: Option<string>, chatTitle: Option<string>, rebindFrom: Option<string>)

  datatype Refusal =
    | StableTargetTaken
    | NoProvisionalChat
    | NoExactSubmission
    | ObservedInAnotherChat
    | ConstraintFailed

  datatype Receipt =
    | Receipt(project: ProjectId, chat: ChatId, message: string, inserted: bool, sequence: nat)
    | Refused(reason: Refusal)

  // ---------------------------------------------------------------- events

  predicate StartsWith(s: string, prefix: string) {
    |prefix| <= |s| && s[..|prefix|] == prefix
  }

  const PROVISIONAL := "provisional:"
  const NEW_CHAT := "provisional:new-chat:"

  /** Checked when an event is built (`chat/contracts.py`). */
  predicate WellFormed(ev: ChatEvent) {
    && ev.id != "" && ev.chatReference != "" && ev.content != "" && ev.turn != Some("") && ev.host != LocalHost
    && (ev.rebindFrom.Some? ==>
          && (ev.host == ChatGptWeb || ev.host == ClaudeWeb)
          && ev.role == User && ev.turn.Some?
          && StartsWith(ev.rebindFrom.value, NEW_CHAT)
          && !StartsWith(ev.chatReference, "route:") && !StartsWith(ev.chatReference, PROVISIONAL)
          && ev.rebindFrom.value != ev.chatReference)
  }

  /** Python truth of an optional text. */
  predicate Present(text: Option<string>) {
    text.Some? && text.value != ""
  }

  function HostName(host: Host): string {
    match host
    case Codex => "codex"
    case ChatGptWeb => "chatgpt_web"
    case ClaudeCode => "claude_code"
    case ClaudeWeb => "claude_web"
    case LocalHost => "local"
  }

  // ---------------------------------------------------------------- projects

  function EnsureProject(s: Library, id: ProjectId, name: Option<string>): Library {
    if id in s.projects then
      if Present(name) then s.(projects := s.projects[id := name.value]) else s
    else s.(projects := s.projects[id := if Present(name) then name.value else id.reference])
  }

  ghost function ChatAt(s: Library, host: Host, reference: string): (chat: Option<ChatId>)
    ensures chat.Some? ==> Holds(s, host, reference, chat.value)
    ensures chat.None? ==> forall c :: !Holds(s, host, reference, c)
  {
    if c :| Holds(s, host, reference, c) then Some(c) else None
  }

  predicate Holds(s: Library, host: Host, reference: string, c: ChatId) {
    c in s.chats && s.chats[c].host == host && s.chats[c].reference == reference
  }

  const UNASSIGNED := ProjectUuid(LocalHost, "unassigned")

  ghost function ResolveProject(s: Library, ev: ChatEvent): (Library, ProjectId) {
    if Present(ev.projectReference) then
      var id := ProjectUuid(ev.host, ev.projectReference.value);
      (EnsureProject(s, id, ev.projectName), id)
    else
      var bound := ChatAt(s, ev.host, ev.chatReference);
      if bound.Some? then (s, s.chats[bound.value].project)
      else (EnsureProject(s, UNASSIGNED, Some("Unassigned")), UNASSIGNED)
  }

  // ---------------------------------------------------------------- chats

  datatype Attempt<T> = Done(value: T) | Stop(reason: Refusal)

  function Retitled(chat: Chat, ev: ChatEvent): Chat {
    if Present(ev.chatTitle) then chat.(title := ev.chatTitle.value) else chat
  }

  ghost function GetOrCreateChat(s: Library, project: ProjectId, ev: ChatEvent): Attempt<(Library, ChatId)> {
    if ev.rebindFrom.Some? then RebindProvisionalChat(s, project, ev)
    else
      var existing := ChatAt(s, ev.host, ev.chatReference);
      if existing.Some? then
        var c := existing.value;
        Done((s.(chats := s.chats[c := Retitled(s.chats[c], ev).(project := project)]), c))
      else
        var c := ChatUuid(ev.host, ev.chatReference);
        if c in s.chats then Stop(ConstraintFailed)
        else
          var title := if Present(ev.chatTitle) then ev.chatTitle.value else HostName(ev.host) + " chat";
          Done((s.(chats := s.chats[c := Chat(project, ev.host, ev.chatReference, title)]), c))
  }

  predicate ExactSubmission(s: Library, c: ChatId, ev: ChatEvent) {
    exists m :: m in s.messages && m.chat == c && m.turn == ev.turn && m.role == ev.role && m.content == ev.content
  }

  ghost function RebindProvisionalChat(s: Library, project: ProjectId, ev: ChatEvent): Attempt<(Library, ChatId)>
    requires ev.rebindFrom.Some?
  {
    var source := ChatAt(s, ev.host, ev.rebindFrom.value);
    var target := ChatAt(s, ev.host, ev.chatReference);
    if source.Some? && target.Some? then Stop(StableTargetTaken)
    else if source.None? && target.None? then Stop(NoProvisionalChat)
    else
      var c := if source.Some? then source.value else target.value;
      if !ExactSubmission(s, c, ev) then Stop(NoExactSubmission)
      else if source.Some? then
        Done((s.(chats := s.chats[c := Retitled(s.chats[c], ev).(project := project, reference := ev.chatReference)]),
          c))
      else if Present(ev.chatTitle) then
        Done((s.(chats := s.chats[c := Retitled(s.chats[c], ev).(project := project)]), c))
      else Done((s, c))
  }

  // ---------------------------------------------------------------- messages

  function Observation(ev: ChatEvent): string {
    if Present(ev.turn) then ev.turn.value else ev.id
  }

  function KeyOf(ev: ChatEvent, reference: string): DedupeKey {
    DedupeKey(ev.host, reference, Observation(ev), ev.role, ev.content)
  }

  /** The dedupe keys an event is looked up under: its own and, for a rebind, the one it had
      before. */
  function LookupKeys(ev: ChatEvent): set<DedupeKey> {
    {KeyOf(ev, ev.chatReference)} +
    if Present(ev.rebindFrom) then {KeyOf(ev, ev.rebindFrom.value)} else {}
  }

  /** The row under the key, as its position in the table. */
  function Find(messages: seq<Message>, key: DedupeKey): (at: Option<nat>)
    ensures at.Some? ==> at.value < |messages| && messages[at.value].dedupe == key
    ensures at.None? ==> forall i :: 0 <= i < |messages| ==> messages[i].dedupe != key
  {
    if messages == [] then None
    else if messages[|messages| - 1].dedupe == key then Some(|messages| - 1)
    else Find(messages[..|messages| - 1], key)
  }

  /** The stored observation.  When both keys of a rebind have a row, which of the two the
      query yields is not determined: `own` says whether it is the one under the own key. */
  function Observed(messages: seq<Message>, ev: ChatEvent, own: bool): Option<nat> {
    var current := Find(messages, KeyOf(ev, ev.chatReference));
    var prior := if Present(ev.rebindFrom) then Find(messages, KeyOf(ev, ev.rebindFrom.value)) else None;
    if current.None? || (prior.Some? && !own) then prior else current
  }

  /** `MAX(sequence_number)` over the chat, 0 when it has no message. */
  function LastSequence(messages: seq<Message>, c: ChatId): nat {
    if messages == [] then 0
    else
      var before := LastSequence(messages[..|messages| - 1], c);
      var m := messages[|messages| - 1];
      if m.chat == c && m.sequence > before then m.sequence else before
  }

  datatype Written = Written(message: string, inserted: bool, sequence: nat)

  function WriteMessage(s: Library, c: ChatId, ev: ChatEvent, own: bool): Attempt<(Library, Written)> {
    var existing := Observed(s.messages, ev, own);
    if existing.Some? then
      var m := s.messages[existing.value];
      if m.chat != c then Stop(ObservedInAnotherChat) else Done((s, Written(m.id, false, m.sequence)))
    else if exists m :: m in s.messages && m.id == ev.id then Stop(ConstraintFailed)
    else
      var next := LastSequence(s.messages, c) + 1;
      var m := Message(ev.id, c, ev.turn, next, ev.role, ev.content, ev.capturedAt, KeyOf(ev, ev.chatReference));
      Done((s.(messages := s.messages + [m]), Written(ev.id, true, next)))
  }

  /** `ingest_chat_event`: one transaction over projects, chats, messages and their index. */
  ghost function Ingest(s: Library, ev: ChatEvent, own: bool): (Library, Receipt) {
    var (s1, project) := ResolveProject(s, ev);
    var chat := GetOrCreateChat(s1, project, ev);
    if chat.Stop? then (s, Refused(chat.reason))
    else
      var (s2, c) := chat.value;
      var s3 := s2.(lexical := RebindChatIndex(s2.lexical, c, project));
      var written := WriteMessage(s3, c, ev, own);
      if written.Stop? then (s, Refused(written.reason))
      else
        var (s4, w) := written.value;
        var s5 := if w.inserted
                  then s4.(lexical := IndexMessage(s4.lexical, w.message, project, c, ev.role, ev.content,
                    ev.capturedAt))
                  else s4;
        (s5, Receipt(project, c, w.message, w.inserted, w.sequence))
  }

  // ---------------------------------------------------------------- invariants

  /** How many messages of the chat there are. */
  function CountIn(messages: seq<Message>, c: ChatId): nat {
    if messages == [] then 0
    else CountIn(messages[..|messages| - 1], c) + if messages[|messages| - 1].chat == c then 1 else 0
  }

  /** The sequence numbers of every chat are 1, 2, ... in insertion order. */
  ghost predicate Numbered(messages: seq<Message>) {
    forall i :: 0 <= i < |messages| ==> messages[i].sequence == CountIn(messages[..i], messages[i].chat) + 1
  }

  /** `UNIQUE(host, host_chat_reference)`, and a chat's reference is the one it was created
      under unless that was provisional. */
  ghost predicate ChatsSound(s: Library) {
    && (forall c, d :: c in s.chats && d in s.chats && c != d ==>
          s.chats[c].host != s.chats[d].host || s.chats[c].reference != s.chats[d].reference)
    && (forall c :: c in s.chats ==> ChatSound(s, c))
  }

  predicate ChatSound(s: Library, c: ChatId)
    requires c in s.chats
  {
    && s.chats[c].project in s.projects
    && s.chats[c].host == c.host
    && (s.chats[c].reference == c.reference
        || (StartsWith(c.reference, PROVISIONAL) && !StartsWith(s.chats[c].reference, PROVISIONAL)))
  }

  /** Ids and dedupe keys are unique, and a message's key names its chat under its first or
      current reference. */
  ghost predicate MessagesSound(s: Library) {
    && (forall i, j :: 0 <= i < j < |s.messages| ==>
          s.messages[i].id != s.messages[j].id && s.messages[i].dedupe != s.messages[j].dedupe)
    && (forall i :: 0 <= i < |s.messages| ==> MessageSound(s, s.messages[i]))
    && Numbered(s.messages)
  }

  predicate MessageSound(s: Library, m: Message) {
    && m.chat in s.chats && m.turn != Some("")
    && m.dedupe == DedupeKey(m.chat.host, m.dedupe.chatReference, if m.turn.Some? then m.turn.value
       else m.id, m.role, m.content)
    && (m.dedupe.chatReference == m.chat.reference || m.dedupe.chatReference == s.chats[m.chat].reference)
  }
}
