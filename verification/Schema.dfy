/** The tables of the local library and the identities stored in them.

    SHA-256 digests and version-5 UUIDs are modelled as constructors applied to the
    material they are computed from, so two identities are equal exactly when their
    material is. */
module Schema {

  datatype Option<+T> = None | Some(value: T)

  type Instant = int

  /** Instants count microseconds. */
  const SECOND: int := 1000000

  datatype Digest = Sha256(material: string)

  datatype Host = Codex | ChatGptWeb | ClaudeCode | ClaudeWeb | LocalHost

  datatype Role = User | Assistant

  datatype ProjectId = ProjectUuid(host: Host, reference: string)

  datatype ChatId = ChatUuid(host: Host, reference: string)

  datatype SourceKind = FileSource | DirectorySource

  /** A document keeps the id derived from the path it was first seen at.  Rows that
      predate the derivation carry an arbitrary id. */
  datatype DocumentId =
    | DocumentUuid(project: ProjectId, key: string)
    | LegacyDocument(name: string)

  datatype SourceId =
    | SourceUuid(project: ProjectId, kind: SourceKind, key: string)
    | LegacySource(document: DocumentId)

  /** The turn (or, failing that, the event id) that identifies an observation. */
  datatype DedupeKey = DedupeKey(host: Host, chatReference: string, observation: string, role: Role, content: string)

  datatype Chat = Chat(project: ProjectId, host: Host, reference: string, title: string)

  datatype Message = Message(
    id: string, chat: ChatId, turn: Option<string>, sequence: nat,
    role: Role, content: string, capturedAt: Instant, dedupe: DedupeKey)

  datatype DocumentType = Text | Markdown

  datatype Document = Document(
    project: ProjectId, displayName: string, documentType: DocumentType,
    reference: string, content: string, updatedAt: Instant, key: string,
    digest: Option<Digest>, fileSize: Option<nat>, modifiedTimeNs: Option<int>,
    identity: Option<string>, previousDigest: Option<Digest>,
    supersededAt: Option<Instant>, revision: nat)

  datatype Archived = Archived(
    project: ProjectId, content: string, digest: Digest, observedAt: Instant, supersededAt: Instant)

  datatype Source = Source(
    project: ProjectId, kind: SourceKind, displayName: string, reference: string, key: string,
    createdAt: Instant, updatedAt: Instant, lastSyncedAt: Option<Instant>)

  /** `UNIQUE(corpus_type, source_id)` of the lexical projection. */
  datatype LexicalKey =
    | ChatHistory(message: string)
    | ElectedDocument(document: DocumentId)

  datatype LexicalEntry = LexicalEntry(
    project: ProjectId, chat: Option<ChatId>, role: Option<Role>, content: string, updatedAt: Instant)

  type LexicalTable = map<LexicalKey, LexicalEntry>

  type RevisionTable = map<nat, Archived>

  /** The value of every table at one moment.  `messages` is in insertion order;
      `history` groups the archived revisions by document. */
  datatype Library = Library(
    projects: map<ProjectId, string>,
    chats: map<ChatId, Chat>,
    messages: seq<Message>,
    documents: map<DocumentId, Document>,
    history: map<DocumentId, RevisionTable>,
    sources: map<SourceId, Source>,
    memberships: set<(SourceId, DocumentId)>,
    lexical: LexicalTable)

  const EMPTY_LIBRARY: Library := Library(map[], map[], [], map[], map[], map[], {}, map[])

  /** The SQLite connection the writers share. */
  class Database {
    var projects: map<ProjectId, string>
    var chats: map<ChatId, Chat>
    var messages: seq<Message>
    var documents: map<DocumentId, Document>
    var history: map<DocumentId, RevisionTable>
    var sources: map<SourceId, Source>
    var memberships: set<(SourceId, DocumentId)>
    var lexical: LexicalTable

    constructor ()
      ensures View() == EMPTY_LIBRARY
    {
      projects, chats, messages, documents := map[], map[], [], map[];
      history, sources, memberships, lexical := map[], map[], {}, map[];
    }

    function View(): Library
      reads this
    {
      Library(projects, chats, messages, documents, history, sources, memberships, lexical)
    }

    /** `ROLLBACK`: every table returns to its value at `BEGIN`. */
    method Rollback(saved: Library)
      modifies this
      ensures View() == saved
    {
      projects, chats, messages, documents := saved.projects, saved.chats, saved.messages, saved.documents;
      history, sources, memberships, lexical := saved.history, saved.sources, saved.memberships, saved.lexical;
    }
  }
}
