/** Writers of the lexical projection (`lexical/indexer.py`). */
module LexicalIndexer {
  import opened Schema

  function IndexMessage(
    table: LexicalTable, id: string, project: ProjectId, chat: ChatId,
    role: Role, content: string, capturedAt: Instant): LexicalTable
  {
    table[ChatHistory(id) := LexicalEntry(project, Some(chat), Some(role), content, capturedAt)]
  }

  /** On conflict the chat and role columns keep their stored values. */
  function IndexDocument(
    table: LexicalTable, id: DocumentId, project: ProjectId, content: string, updatedAt: Instant): LexicalTable
  {
    var key := ElectedDocument(id);
    if key in table
    then table[key := table[key].(project := project, content := content, updatedAt := updatedAt)]
    else table[key := LexicalEntry(project, None, None, content, updatedAt)]
  }

  function RemoveDocumentIndex(table: LexicalTable, id: DocumentId): LexicalTable {
    table - {ElectedDocument(id)}
  }

  /** Every entry of the chat moves to the project; nothing else changes. */
  function RebindChatIndex(table: LexicalTable, chat: ChatId, project: ProjectId): LexicalTable {
    map k | k in table :: if table[k].chat == Some(chat) then table[k].(project := project) else table[k]
  }

}
