# Context Atomizer: verified model

The Context Atomizer keeps a local library of chats and documents, derives search units,
vectors, claims and their standing from it, lets a trusted manager supply context to one
turn of one host session, installs its hooks in the settings of other programs, and captures
chats in a browser extension. This project models those parts in Dafny and proves what they
promise. `dafny verify dfyconfig.toml` checks all of it.

Code that changes state is modelled by classes and loops, each method proved against a
specification function over the value of its tables or fields; the promises are lemmas about
those functions, over single operations and over all runs. A transaction is one method that
commits or restores its tables.

The modules whose names end in `Effects` say what each operation comes to in terms of rows,
fields and inputs alone, without the functions that compute it.

| files | part of the system |
|---|---|
| `Schema`, `LexicalIndexer`, `Enumeration`, `Texts` | tables and identities, index writers, ordered queries, stripping |
| `DocumentRegistry`, `DocumentSync`, `SyncEffects`, `ElectedSources` | elected sources: specification, properties, effects on rows, writers |
| `ChatHistory`, `ChatIngestion`, `ChatEffects`, `LibraryRuns`, `LibraryIncidents` | chat events, whole runs of the library, the lexical audit, runs that go wrong |
| `SemanticChunks`, `SemanticUnits`, `VectorIndex`, `DerivedState`, `DerivedMaintenance`, `DerivedEffects` | chunks, units, vectors, dirty detection, cycle and maintainer |
| `Claims`, `ClaimEffects`, `Governance`, `GovernanceEffects` | claims and evidence; temporal state, contradictions, verification |
| `ManagedAuthority`, `ManagedContext`, `ManagedExchange`, `ManagedEffects`, `AccessPolicy` | lease registry, context broker, all interleavings of both, access mode |
| `LeaseVerification`, `NonceReplay` | signed leases and their ledger, nonces |
| `HookPlanning`, `HookTransaction` | hook settings and the multi-file transaction |
| `Fusion` | reciprocal rank fusion |
| `Dedupe`, `Capture`, `CaptureAgent`, `CaptureEffects` | browser capture: windows, state machine, object |

Hashes, version-5 UUIDs and signatures are constructors of the material they cover, so they
are injective. Clocks, tokens, file snapshots, embeddings, claim extraction and
canonicalisation, entity signatures, similarity scores, hook ownership, JSON text and the
outcome of I/O are parameters.

## Where the code does less than it might be expected to

Each of these is proved with the exact condition under which the expected property holds, or
with a concrete run that breaks it.

- A document that moved keeps the id of its old path, so a later file at that path blocks the
  whole sync (`SyncCommitsIff`, `NewFileAtAnOldPath`). So does a migrated row whose key a scan
  spells otherwise (`MigratedKeyBlocksSync`): migration lowers ASCII letters, a scan folds
  case.
- A document row without a content hash moves to its next revision unarchived: the trigger
  compares with NULL (`RefreshKeepsWindowIff`, `MigratedRowIsNotArchived`).
- A rebind replayed without a title and naming another project moves the index rows but not
  the chat (`IngestAgreesIff`, `ReplayCanPartTheIndex`).
- A replayed rebind is refused when its provisional reference is in use again, and may be
  answered with another message or refused when both of its keys have rows
  (`RepeatingIsAnsweredIff`, `LateSubmissionBlocksReplay`, `ReplayCanAnswerOtherwise`). Which
  of the two rows the query returns is not determined; the parameter `own` chooses.
- The lexical audit compares with `<>` and so passes over a chat row whose chat or role is
  missing (`AuditIsExact`, `AuditMissesAMissingChat`).
- The upsert of semantic units does not refresh offsets (`ReconciledIsFreshIff`,
  `ReusedRevisionKeepsOldOffsets`); the property expected of a quiet detector therefore holds
  up to offsets in general (`QuietRunsAreExactUpToSpans`) and in full while a revision keeps
  its content (`QuietRunsAreExact`).
- A cycle records the signature of the sources its later inspection reads, not of those its
  transaction read, so an arrival that builds the same units goes unseen
  (`ArrivalIsUnseenIff`, `ArrivalBeforeInspectionIsUnseen`). Units and vectors stay exact;
  only the later projections can be old.
- The count of invalidated embeddings of a cycle is always 0, since deleting a unit deletes
  its record first (`CycleIsSound`).
- Two equal sentences can join different claims (`EqualSentencesAgreeIff`,
  `EqualSentencesCanPart`), and the stored text of a claim remembers earlier rebuilds
  (`HistoryOnlyKeepsTexts`).
- An activation checks the mode and writes the registry in two sections, so a mode selected
  in between is overtaken (`RunIsExclusiveIff`, `SelectionCanBeOvertaken`).
- A request is handed out to a lease of its session and turn whatever scope the lease covers
  (`HandOutIgnoresScopes`).
- A wall clock set back can accept one lease twice (`ClockSetBackAcceptsTwice`).
- Disabling hooks also drops empty event lists that were not installed by the program
  (`DisablingIsQuietIff`), although its description promises to remove only its own entries
  (`src/atomizer_local_client/runtime/claude_integration.py:131`).
- The same text submitted again within a second keeps its turn. Around a rebind this rebinds
  one provisional reference to two chats (`SubmissionIsSingleIff`,
  `DoubleSubmissionReboundTwice`); on a page of another project it rebinds into a project the
  emitted submission is not in (`SubmissionIsProjectedIff`, `ResubmissionChangesProject`).
- The rank bound of fusion ends at k + 1: one rank later an id in both lists only ties with
  the first of one (`BothBeatOne`, `OneRankMoreTies`).

## Model

| member | source | states |
|---|---|---|
| ElectedSources.PruneHistory | src/atomizer_local_client/library/document_registry.py:255-273 | Leaves exactly the ten newest archived revisions of the document, those with fewer than ten newer ones, and no other document loses a revision |
| ElectedSources.SurplusIsOld | src/atomizer_local_client/library/document_registry.py:259-266 | The rows the descending query cuts off are exactly the revisions that are not among the newest ten |
| ElectedSources.CleanupOrphanDocuments | src/atomizer_local_client/library/document_registry.py:237-252 | Removes exactly the candidate documents that no membership names, each with its index row and its archive, and counts those that existed |
| ElectedSources.DropIfOrphan | src/atomizer_local_client/library/document_registry.py:243-251 | One turn of the cleanup: a document goes, with its index row and archive, only when no membership names it |
| ElectedSources.FindExisting | src/atomizer_local_client/library/document_registry.py:322-335 | Finds, through the dictionary and the rows read before the loop, the row the current tables give the snapshot: the one at its path, or the single unseen vanished document of the source with its file identity |
| ElectedSources.InsertDocument | src/atomizer_local_client/library/document_registry.py:337-374 | Inserts the row and its index row, or is rejected exactly when the id derived from the path or the path itself is taken |
| ElectedSources.RewriteRow | src/atomizer_local_client/library/document_registry.py:392-425 | The UPDATE with its trigger: rejected exactly by a taken path or an already archived revision; otherwise the row it replaces is archived when both hashes are present and differ, as RefreshRevises says |
| ElectedSources.RewriteAndPrune | src/atomizer_local_client/library/document_registry.py:377-433 | A changed row is rewritten, an unchanged one kept, and the archive is pruned to its newest ten either way |
| ElectedSources.RefreshDocument | src/atomizer_local_client/library/document_registry.py:375-443 | Row, archive and index of one known document after a snapshot, and whether the row was rewritten |
| ElectedSources.AddSnapshot | src/atomizer_local_client/library/document_registry.py:337-374 | An addition writes document, index row, membership, dictionary entry and counter together |
| ElectedSources.RefreshSnapshot | src/atomizer_local_client/library/document_registry.py:375-450 | A refresh writes row, archive, index, membership, dictionary and the counters of updated, unchanged and moved together |
| ElectedSources.SyncSnapshot | src/atomizer_local_client/library/document_registry.py:322-450 | One turn of the sync loop does what the order-free specification says, or is rejected exactly when it is |
| ElectedSources.IndexFollows | src/atomizer_local_client/library/document_registry.py:371-373 | Whatever a turn writes, the path dictionary stays the exact path index of the rows of the project |
| ElectedSources.FinishSync | src/atomizer_local_client/library/document_registry.py:452-462 | Stale memberships go, then exactly the documents left without any source, then the source is stamped |
| ElectedSources.SyncElectedSource | src/atomizer_local_client/library/document_registry.py:276-472 | The whole sync against its specification: commits with the resulting tables and counts, or leaves every table as it was with the reason |
| ElectedSources.ElectSource | src/atomizer_local_client/library/document_registry.py:148-197 | Refuses a path that is not what the kind needs, an unknown project and a change of kind; otherwise creates or refreshes the one source of a project and path |
| ElectedSources.ElectTouchesOneSource | src/atomizer_local_client/library/document_registry.py:148-197 | An election keeps one source per project and path, keeps the project of the row it refreshes, and changes no other source and no other table |
| ElectedSources.ElectIsRefusedIff | src/atomizer_local_client/library/document_registry.py:154-175 | Refused exactly for a path that is not a supported regular file or a directory as the kind needs, for an unknown project, or for a path already elected as the other kind |
| ElectedSources.ElectedColumns | src/atomizer_local_client/library/document_registry.py:176-197 | An election gives the source every column that was asked for; one elected before keeps its id, its creation and its last sync |
| ElectedSources.ElectIsConsistent | src/atomizer_local_client/library/document_registry.py:148-197 | An election keeps the document tables consistent |
| ElectedSources.UnelectSource | src/atomizer_local_client/library/document_registry.py:491-505 | Removes the source, its memberships and the documents nobody else has, or reports that there is no such source |
| ElectedSources.UnelectIsExact | src/atomizer_local_client/library/document_registry.py:491-505 | The documents that remain are exactly those some other source has, each with its row, archive and index row as before; chats and projects are untouched |
| DocumentSync.SyncMirrorsTheSource | src/atomizer_local_client/library/document_registry.py:276-472 | After a committed sync the documents of the source are the snapshots (each carries one, each is carried); scanned = added + updated + unchanged; moved <= updated; no two documents of a project share a path; no document lacks a source; other sources keep their documents |
| SyncEffects.SupersededIsArchived | src/atomizer_local_client/history/migrations/007_temporal_governance.sql:12-23 | In a committed sync, a document whose digest changes moves to the next revision, and if it had a digest the project, text, digest and time it had are in the archive under its old revision, superseded now; every other kept revision is as it was, and a document whose digest stays keeps its revision |
| SyncEffects.RefreshRevises | src/atomizer_local_client/library/document_registry.py:375-433 | A snapshot placed on a stored row leaves it as it is when every column agrees, rewrites it now otherwise, and archives what it held exactly when a text with a digest is replaced, leaving the newest ten of the archive |
| SyncEffects.DocumentsAreAccountedFor | src/atomizer_local_client/library/document_registry.py:322-462 | Every document there after a committed sync carries a snapshot, as a new row at revision 1 or as a stored row revised by it, or is none of the source and keeps its row, its archive and its index row |
| SyncEffects.EachFileKeepsItsDocument | src/atomizer_local_client/library/document_registry.py:322-335 | Each file is carried by the document stored at its path, else by the one document of the source that vanished with its file identity, claimed by the first file at a new path that has it, else by a new one with the id of the path |
| SyncEffects.CountersCountRows | src/atomizer_local_client/library/document_registry.py:464-472 | The counters of a committed sync are numbers of rows: documents that are new, altered, unaltered, at another path, and gone |
| SyncEffects.SyncStampsWhatItWrites | src/atomizer_local_client/library/document_registry.py:387-441 | A sync writes the index row of a scanned document from its text, now, unless the text stayed and a row was there, and stamps its own source alone |
| DocumentSync.MoveRewrites | src/atomizer_local_client/library/document_registry.py:325-335 | A moved document is always counted as updated too |
| DocumentSync.SyncRepairsTheIndex | src/atomizer_local_client/library/document_registry.py:387-441 | A sync never makes an index row disagree with its document, indexes again every scanned document whose row had gone missing, and leaves chat rows alone |
| DocumentSync.SyncAgainIsQuiet | src/atomizer_local_client/library/document_registry.py:276-472 | Syncing the same files again reports all unchanged, removes nothing and alters only the timestamps of the source |
| DocumentSync.SyncCommitsIff | src/atomizer_local_client/library/document_registry.py:276-374 | A sync commits if and only if the source exists, its paths are distinct, no file it must add sits at a path whose derived id is still held, and no reference is held by an earlier snapshot or by a row of the project that no snapshot up to this one places |
| LibraryIncidents.NewFileAtAnOldPath | src/atomizer_local_client/library/document_registry.py:337-363 | A run from the empty library: a synced file moves, a new file appears at the old path, and the sync is rejected |
| LibraryIncidents.OldPathIsBlocked | src/atomizer_local_client/library/document_registry.py:337-363 | The same for any library with one document that moved: no sync with another file at its old path commits |
| LibraryIncidents.MigratedKeyBlocksSync | src/atomizer_local_client/history/migrations/002_document_sources.sql:7-13 | When a scan folds a path to another key than migration did, the source of the migrated document cannot be synced, although no added file meets a held id |
| DocumentSync.FateIsStatic | src/atomizer_local_client/library/document_registry.py:322-335 | What happens to a snapshot can be read off the library before the sync, whatever earlier turns wrote |
| DocumentSync.RefreshKeepsWindowIff | src/atomizer_local_client/library/document_registry.py:392-433 | A refresh keeps the archive at exactly max(1, r-10)..r-1 if and only if the row carries a content hash; a row without one moves on unarchived |
| LibraryIncidents.MigratedRowIsNotArchived | src/atomizer_local_client/history/migrations/007_temporal_governance.sql:12-23 | A migrated document refreshed in place is at revision 2 with an empty archive |
| DocumentSync.SyncKeepsWindows | src/atomizer_local_client/library/document_registry.py:255-273 | A sync keeps the archive of every hashed document at exactly max(1, r-10)..r-1 |
| Schema.Database.Rollback | src/atomizer_local_client/library/document_registry.py:296-298 | A failed transaction returns every table to its value at its start |
| ChatIngestion.LookupChat | src/atomizer_local_client/chats/repository.py:14-20 | The chat that holds a host reference, if any |
| ChatIngestion.GetOrCreateProject | src/atomizer_local_client/projects/repository.py:17-46 | An existing project is renamed only by a present name; a new one takes the name or the reference |
| ChatIngestion.ResolveEventProject | src/atomizer_local_client/projects/resolver.py:11-30 | The named project, else the project of the chat that holds the reference, else the unassigned project |
| ChatIngestion.RebindChat | src/atomizer_local_client/chats/repository.py:55-110 | The four cases of source and target, the exact-submission check, and the replay that writes only with a title, with their errors |
| ChatIngestion.WriteChat | src/atomizer_local_client/chats/repository.py:13-52 | Rebinds, updates or creates the chat of an event; a creation is rejected when the derived id is still held |
| ChatIngestion.StoreMessage | src/atomizer_local_client/history/message_writer.py:25-68 | Returns the observation stored under one of the keys, refuses one that belongs to another chat, or inserts with the next sequence number |
| ChatIngestion.IngestChatEvent | src/atomizer_local_client/chat/ingestion.py:15-30 | The whole transaction against its specification, with rollback on every refusal |
| ChatIngestion.IngestIsSound | src/atomizer_local_client/chat/ingestion.py:15-30 | A host reference names at most one chat, ids and keys stay unique, the sequence numbers of each chat are 1..n in insertion order, rows are never lost, a refused event changes nothing |
| ChatIngestion.LastIsCount | src/atomizer_local_client/history/message_writer.py:45-49 | The greatest sequence number of a chat is its number of messages |
| ChatIngestion.RebindKeepsTheChat | src/atomizer_local_client/chats/repository.py:55-104 | A provisional chat is rebound if and only if the stable reference is free and the chat holds the submitted turn; it keeps its id and messages, returns the stored submission, and no other chat changes |
| ChatIngestion.RepeatingStoresNothing | src/atomizer_local_client/history/message_writer.py:25-43 | Repeating an event later, while its chat has that reference, stores nothing; it is refused when the provisional reference is in use again |
| ChatIngestion.RepeatingIsAnsweredIff | src/atomizer_local_client/history/message_writer.py:25-44 | Whichever stored row the query yields, a repeated event is answered with the same message if and only if the provisional reference is not in use again and not both of its keys have rows |
| LibraryIncidents.ReplayCanAnswerOtherwise | src/atomizer_local_client/history/message_writer.py:34-44 | A run from the empty library in which both keys have rows and a replayed rebind is not always answered as the first time |
| LibraryIncidents.LateSubmissionBlocksReplay | src/atomizer_local_client/chats/repository.py:55-75 | A run from the empty library in which the provisional reference is in use again and a replayed rebind is refused |
| ChatIngestion.NewObservationIsStored | src/atomizer_local_client/chat/ingestion.py:15-30 | A plain event observed for the first time is stored at the end of the chat of its reference, in the project that EventEffects names; no other chat changes |
| ChatEffects.EventEffects | src/atomizer_local_client/chat/ingestion.py:15-30 | Project, chat, message and index rows after an accepted event, column by column: the project the host names, else the one its chat is in, else the unassigned one; the chat that has the reference, or a new one, or the one rebound; the title given, else kept; a new message after those of its chat; every index row of the chat in its project, and no other touched |
| ChatEffects.EventIsAcceptedIff | src/atomizer_local_client/chats/repository.py:13-110 | An event is accepted if and only if there is a chat it can go to, in which an observation stored under its keys already is, or else its id is new |
| ChatEffects.ChatStaysUnlessMoved | src/atomizer_local_client/projects/resolver.py:11-30 | An accepted plain event that names no project leaves a known chat in its project and the projects as they were, and founds an unknown one among the unassigned; one that names a project puts the chat there; the index rows of the chat end in its project |
| ChatEffects.RefusalsAreExplained | src/atomizer_local_client/chats/repository.py:55-110 | Every refusal says why: how a rebind found its chats, an observation stored in another chat, or a rejected row |
| ChatIngestion.ReceiptNamesARow | src/atomizer_local_client/chat/ingestion.py:22-30 | A receipt names a stored row of its chat, with its sequence number, under one of the keys of the event |
| ChatIngestion.IngestAgreesIff | src/atomizer_local_client/chat/ingestion.py:16-30 | A committed event leaves the index agreeing with the messages if and only if it is not a titleless rebind replay naming another project than the stored one |
| LibraryIncidents.ReplayCanPartTheIndex | src/atomizer_local_client/chats/repository.py:105-110 | A run from the empty library: a rebind replayed without a title in another project is accepted and leaves the index disagreeing |
| ChatIngestion.IngestLeavesDocumentRows | src/atomizer_local_client/lexical/indexer.py:79-83 | Chat events, the rebinding of index rows included, leave the index rows of documents as they are |
| LibraryRuns.StepKeeps | src/atomizer_local_client/lexical/audit.py:43-89 | Each event, election, sync and revocation keeps chats, messages, documents, sources, archives and both halves of the index intact together |
| LibraryRuns.EveryRunIsIntact | src/atomizer_local_client/lexical/audit.py:43-89 | In every state a run reaches from the empty library, the index rows are exactly the messages and documents and agree in project, chat, role and content |
| LibraryRuns.AuditIsExact | src/atomizer_local_client/lexical/audit.py:43-89 | The relational checks pass and every chat row names a chat and a role if and only if the index is exactly the messages and documents |
| LibraryRuns.AuditMissesAMissingChat | src/atomizer_local_client/lexical/audit.py:56-68 | A chat row that lost its chat passes the checks: they compare with <>, which ignores NULL |
| LibraryRuns.EveryRunPassesTheAudit | src/atomizer_local_client/lexical/audit.py:43-89 | The relational checks pass in every reachable state |
| SemanticChunks.RFindIsLast | src/atomizer_local_client/semantic/units.py:43-45 | The search returns the last place in the window where the pattern occurs, or -1 when there is none |
| SemanticChunks.ParagraphEndsAtNewline | src/atomizer_local_client/semantic/units.py:43-49 | A paragraph break found in the window ends at a newline of the window |
| SemanticChunks.EndIsTheCut | src/atomizer_local_client/semantic/units.py:41-51 | The three searches end a chunk just after the last newline or space of the window, or at full width when there is none: the paragraph search never changes the cut |
| SemanticChunks.CutIsUnique | src/atomizer_local_client/semantic/units.py:41-51 | The cut rule determines the end |
| SemanticChunks.TilingIsUnique | src/atomizer_local_client/semantic/units.py:35-55 | The cut rule determines all the chunks |
| SemanticChunks.TilesFacts | src/atomizer_local_client/semantic/units.py:35-55 | Chunks are non-empty, at most MAX_UNIT_CHARACTERS + 1 long, contiguous from 0 to the length, and join to the text |
| SemanticChunks.FindEnd | src/atomizer_local_client/semantic/units.py:41-51 | The end of one chunk |
| SemanticChunks.SplitDocument | src/atomizer_local_client/semantic/units.py:35-55 | The cursor loop returns the chunks of the rule |
| SemanticUnits.BuildUnits | src/atomizer_local_client/semantic/units.py:58-83 | One unit per chunk, with its index, span, digest and id; a message is one unit |
| DerivedEffects.UnitsAreThePieces | src/atomizer_local_client/semantic/units.py:58-83 | The units built from sources are exactly the pieces of the sources: the whole text of a message, or a tile of a document, with the columns of the source and named by what it holds |
| DerivedEffects.MessageIsOneUnit | src/atomizer_local_client/semantic/units.py:58-63 | A chat message becomes one unit, which is its whole text |
| DerivedEffects.DocumentUnitsJoin | src/atomizer_local_client/semantic/units.py:58-83 | The units of a document are numbered and follow each other from its beginning to its end |
| SemanticUnits.ExpectedAreDistinct | src/atomizer_local_client/semantic/units.py:28-32 | Units built from distinct revisions never share an id |
| SemanticUnits.ReconciledHasOneRowPerSlot | src/atomizer_local_client/history/migrations/004_semantic_vector.sql:15 | The upserts never meet a slot held by another row |
| SemanticUnits.ReconciledIsFreshIff | src/atomizer_local_client/semantic/units.py:110-137 | Reconciling in place is rebuilding if and only if every surviving row already had the span of its unit: the upsert does not refresh offsets |
| SemanticUnits.StableContentsRebuild | src/atomizer_local_client/semantic/units.py:110-137 | As long as a revision keeps its content, reconciling in place is rebuilding |
| SemanticUnits.ReusedRevisionKeepsOldOffsets | src/atomizer_local_client/semantic/units.py:120-136 | A document removed and elected again between two cycles can leave a row with the offsets of its former text |
| VectorIndex.ReindexedIsFaithful | src/atomizer_local_client/semantic/vector_index.py:36-91 | Every indexed record holds the encoding of embedding the text its fingerprint names, and a pass over such records never stops on a stored vector |
| VectorIndex.NoFailureIff | src/atomizer_local_client/semantic/vector_index.py:52-90 | No failure is counted if and only if every unit was kept or embedded; every unit is counted once |
| VectorIndex.GoodAfterPassIff | src/atomizer_local_client/derived_state/detector.py:113-123 | After a pass the record of a unit satisfies the detector if and only if it was kept or its embedding succeeded |
| DerivedState.CycleIsSound | src/atomizer_local_client/derived_state/cycle.py:32-44 | A cycle keeps both tables sound and commits exactly when the later projections do; the vector index never finds a record to invalidate |
| DerivedState.QuietIsExact | src/atomizer_local_client/derived_state/detector.py:73-138 | Whenever inspection asks for no cycle, the units are those built afresh up to offsets, with one record each whose vector is the encoding of embedding the content, whatever arrived between commit and inspection |
| DerivedEffects.QuietIff | src/atomizer_local_client/derived_state/detector.py:73-138 | With signatures of earlier sources and projections at hand, an inspection asks for no cycle if and only if the sources and the backend are those, the projections are those if recorded, and there is exactly one row and one current record for each unit the sources build |
| DerivedEffects.UninspectedIsDirty | src/atomizer_local_client/derived_state/detector.py:129-130 | Without a recorded source signature an inspection always asks for a cycle |
| DerivedEffects.InspectionCounts | src/atomizer_local_client/derived_state/detector.py:90-128 | The counts of an inspection are numbers of sources, units, rows to drop, add or rewrite, records to drop or compute, failed records, and rows of each projection |
| DerivedEffects.LostProjectionIsNoticed | src/atomizer_local_client/derived_state/detector.py:134-137 | In every run of arrivals and turns, after one that converged any change of a projection table makes the next inspection ask for a cycle |
| DerivedEffects.ConvergedTurnIsQuietIff | src/atomizer_local_client/derived_state/maintenance.py:94-128 | After a converged turn of any run the next inspection is quiet if and only if it finds the sources, the projections and the backend of that turn and both tables current |
| DerivedEffects.TurnConvergesIff | src/atomizer_local_client/derived_state/maintenance.py:94-128 | A turn converges if and only if nothing had to be done, or its cycle committed and no embedding failed; otherwise the signatures stay, and a quiet or failed turn leaves the tables |
| DerivedEffects.CycleWrites | src/atomizer_local_client/derived_state/cycle.py:25-46 | A committed cycle leaves one row and one record for each unit of the sources it read, kept, embedded or failed, and the rebuilt projections; one that raises leaves everything |
| DerivedEffects.CycleCounts | src/atomizer_local_client/semantic/vector_index.py:52-91 | A committed cycle counts the units whose record was current as unchanged, those whose embedding failed, and the rest as indexed |
| DerivedState.OneCycleIsEnoughIff | src/atomizer_local_client/derived_state/cycle.py:33-46 | After a committed cycle over unchanged sources the next inspection with the recorded signatures is quiet if and only if no embedding failed |
| DerivedState.SignatureIsInjective | src/atomizer_local_client/derived_state/detector.py:26-49 | Equal source signatures mean equal sources, column by column |
| DerivedState.QuietMeansUnchangedSources | src/atomizer_local_client/derived_state/detector.py:127-131 | Quiet against the signature of the sources a cycle read means that none has changed since |
| DerivedState.ArrivalIsUnseenIff | src/atomizer_local_client/derived_state/cycle.py:33-46 | Whatever arrives between commit and inspection, the inspection with the recorded signatures is quiet if and only if no embedding failed and the arrived sources build the units of the sources read, offsets aside: such an arrival goes unseen |
| DerivedState.ArrivalBeforeInspectionIsUnseen | src/atomizer_local_client/derived_state/cycle.py:44-46 | It happens: a document emptied in between leaves the detector quiet over projections computed before the change |
| DerivedMaintenance.DeleteStale | src/atomizer_local_client/semantic/units.py:112-118 | Deletes exactly the units that are not expected, and with each its record |
| DerivedMaintenance.ReconcileSemanticUnits | src/atomizer_local_client/semantic/units.py:110-137 | The deletes and upserts against their specification, units and cascaded records |
| DerivedMaintenance.IndexUnit | src/atomizer_local_client/semantic/vector_index.py:52-90 | One unit: kept and counted unchanged, embedded, or recorded as failed; stops exactly when a kept vector cannot be decoded |
| DerivedMaintenance.IndexVectors | src/atomizer_local_client/semantic/vector_index.py:36-91 | The whole pass: records of inactive units dropped and counted, each unit indexed, the four counts |
| DerivedMaintenance.RunCycle | src/atomizer_local_client/derived_state/cycle.py:25-46 | The transaction against its specification: commits both tables and the counts, or rolls back |
| DerivedMaintenance.InspectDerivedState | src/atomizer_local_client/derived_state/detector.py:73-149 | Signatures, pending and failed counts, source, unit and projection counts, and the decision of the detector, as QuietIff and InspectionCounts say |
| DerivedMaintenance.AutomaticDerivedStateMaintainer.Turn | src/atomizer_local_client/derived_state/maintenance.py:94-128 | One turn: signatures move only after a converged cycle, a failed or raising cycle leaves them and is behind |
| DerivedMaintenance.RunsAreHealthy | src/atomizer_local_client/derived_state/maintenance.py:94-128 | Arrivals and turns in any order keep both tables sound and every row on the span of its chunk |
| DerivedMaintenance.QuietRunsAreExactUpToSpans | src/atomizer_local_client/derived_state/detector.py:73-138 | In every run of arrivals and turns a quiet detector means the stored units are those built afresh up to offsets, with one record each that holds the encoding of its unit |
| DerivedMaintenance.QuietRunsAreExact | src/atomizer_local_client/derived_state/detector.py:73-138 | In every run in which a revision keeps its content, a quiet detector means the stored units are exactly the units built afresh and every vector is the encoding of its unit |
| Claims.DecideClaim | src/atomizer_local_client/claims/deduplicator.py:25-46 | The scan returns exact for a known identity, else the first best comparable claim at or over the threshold, else separate |
| Claims.BestIsTheFirstMaximum | src/atomizer_local_client/claims/deduplicator.py:36-43 | The running best is the first comparable claim of the highest score |
| Claims.DecidesAKnownOrItself | src/atomizer_local_client/claims/deduplicator.py:25-46 | What each verdict means: exact iff known; high confidence iff some comparable known claim reaches the threshold, naming a first best one; separate names the candidate itself |
| Claims.GetOrCreateClaim | src/atomizer_local_client/claims/repository.py:78-114 | Stores a new claim or returns the stored row, failing exactly when a row has the identity without the id or the id without the identity |
| Claims.UpsertEvidence | src/atomizer_local_client/claims/repository.py:116-164 | Writes the evidence row, failing exactly when its slot is held under another id |
| Claims.RebuildClaims | src/atomizer_local_client/claims/repository.py:166-225 | The loops and deletions against their specification; never fails on well-named tables; returns the number of spans of all units together |
| Claims.Prune | src/atomizer_local_client/claims/repository.py:211-224 | Unexpected evidence goes, then claims without evidence, then the decisions of both |
| Claims.ItemsAreDistinct | src/atomizer_local_client/claims/repository.py:180-183 | Spans of one text that do not overlap have distinct evidence ids across all units |
| Claims.RebuiltReflects | src/atomizer_local_client/claims/repository.py:166-225 | Whatever the tables held, a rebuild leaves one evidence row and one decision for each span, as decided, and exactly the claims known |
| ClaimEffects.SpanIsEvidence | src/atomizer_local_client/claims/repository.py:172-212 | After a rebuild every span of every unit has an evidence row and a decision under the id of that unit and span, with the columns of the unit and the start, end and text of the span |
| ClaimEffects.EvidenceComesFromSpans | src/atomizer_local_client/claims/repository.py:172-220 | After a rebuild there is no evidence but that of the spans and no decision without evidence, and the rows are as many as the spans of all units together |
| ClaimEffects.SpansInOrder | src/atomizer_local_client/claims/repository.py:172-175 | The spans are read unit by unit and in the order of the text |
| ClaimEffects.EveryDecisionIsExplained | src/atomizer_local_client/claims/deduplicator.py:25-46 | After a rebuild every stored decision is the one its sentence gets from those stored for the sentences before it: exact when its identity was stored, merged into the first best comparable claim at or over the threshold, else a claim of its own |
| ClaimEffects.TextIsOfTheFirst | src/atomizer_local_client/claims/repository.py:78-114 | A claim stored before keeps its row; a new one has the text of the first sentence with its identity |
| Claims.OneRowPerSpan | src/atomizer_local_client/claims/repository.py:166-225 | There are as many evidence rows and as many decisions as spans |
| Claims.EvidenceFitsItsClaim | src/atomizer_local_client/claims/repository.py:180-210 | Each evidence row and its decision name one stored claim, which has the entity signature and polarity of the sentence; a semantic match reaches the threshold |
| Claims.NoClaimWithoutEvidence | src/atomizer_local_client/claims/repository.py:211-224 | Every stored claim has evidence whose own sentence canonicalises to it |
| Claims.RebuiltIsWellNamed | src/atomizer_local_client/history/migrations/006_claims.sql:1-37 | Rows sit under the ids of their identities and every reference resolves |
| Claims.RebuildsAgree | src/atomizer_local_client/claims/repository.py:166-225 | Rebuilding in place gives the evidence, decisions and claims of a rebuild from nothing |
| Claims.HistoryOnlyKeepsTexts | src/atomizer_local_client/claims/repository.py:78-114 | Only the stored text of a claim can remember the past; a claim not stored before is as a rebuild from nothing makes it |
| Claims.SecondRebuildIsQuiet | src/atomizer_local_client/claims/repository.py:166-225 | A second rebuild of the same units changes nothing |
| Claims.KnownAreApart | src/atomizer_local_client/claims/deduplicator.py:36-46 | No identity is stored twice, and a later stored claim never reaches the threshold of an earlier one |
| Claims.MergedIsNeverStored | src/atomizer_local_client/claims/repository.py:180-205 | Once an identity has been merged it is never stored as a claim of its own |
| Claims.EqualSentencesAgreeIff | src/atomizer_local_client/claims/repository.py:180-205 | Two sentences of one identity name the same claim if and only if not: the first was merged and a better match was stored before the second |
| Claims.EqualSentencesCanPart | src/atomizer_local_client/claims/repository.py:180-205 | That happens: a concrete run, scored by the dot product of normalised vectors, in which two equal sentences join different claims |
| Governance.EvaluateTemporal | src/atomizer_local_client/temporal/evaluator.py:15-61 | Every evidence row gets the state, validity and superseder its document revision gives it |
| Governance.RebuildTemporal | src/atomizer_local_client/temporal/repository.py:17-45 | The table holds exactly the evaluated states, rows without evidence deleted |
| Governance.SupersederIsCurrent | src/atomizer_local_client/temporal/evaluator.py:21-24 | What supersedes a row is current evidence of a later revision of the same document, the first by id |
| Governance.MarkDisputed | src/atomizer_local_client/temporal/repository.py:47-57 | Turns the current evidence of the given claims |
| Governance.DetectContradictions | src/atomizer_local_client/contradictions/detector.py:24-49 | The nested loops report each later row against each earlier one |
| Governance.RuleIsSymmetric | src/atomizer_local_client/contradictions/detector.py:38-48 | The rules read a pair the same way from either side |
| Governance.RebuildContradictions | src/atomizer_local_client/contradictions/repository.py:36-51 | Refills the table with exactly the related pairs, returns their number and the claims in them, and never meets the primary key or the order check |
| Governance.NoPairTwice | src/atomizer_local_client/contradictions/detector.py:35-48 | The detector never reports a pair twice |
| Governance.EachPairOnce | src/atomizer_local_client/contradictions/repository.py:36-51 | An unordered pair is recorded once, in id order, if and only if both claims have current evidence and contradict each other |
| GovernanceEffects.PairIsRecordedIff | src/atomizer_local_client/contradictions/detector.py:26-48 | After governing, a pair of claims is recorded if and only if both have current evidence and they are opposed, of one form and signature and different polarity, or else give different values to one subject; as opposing polarity exactly when they are opposed |
| GovernanceEffects.AgreeingClaimsAreNoPair | src/atomizer_local_client/contradictions/detector.py:38-48 | Claims of one polarity whose texts give the same subject and value are never recorded as a pair |
| GovernanceEffects.DisputedIffInConflict | src/atomizer_local_client/contradictions/repository.py:36-51 | The claims in dispute are exactly those in conflict with some claim |
| GovernanceEffects.EvidenceIsEvaluated | src/atomizer_local_client/temporal/evaluator.py:33-60 | After governing, evidence of a message or of the current revision is current, or disputed if its claim is in conflict; evidence of an older revision is superseded, valid to when that revision was, by current evidence of the document if there is any; evidence of no document is unknown |
| GovernanceEffects.ClaimsAreVerified | src/atomizer_local_client/verification/evaluator.py:26-50 | After governing each claim has the number of documents and chats with current or disputed evidence for it, and is disputed while in conflict, else corroborated by two, single with one, unverified with none |
| Governance.RebuildVerification | src/atomizer_local_client/verification/repository.py:16-24 | Every claim gets the state that its disputes and its counted sources give |
| Governance.DisputedIffItsEvidenceIs | src/atomizer_local_client/verification/evaluator.py:42-43 | After a cycle a claim is verified as disputed if and only if it has disputed evidence |
| Governance.NoCurrentEvidenceInDispute | src/atomizer_local_client/temporal/repository.py:47-57 | No disputed claim keeps current evidence |
| Governance.MarkingOnlyTurnsCurrent | src/atomizer_local_client/temporal/repository.py:47-57 | Exactly the current evidence of disputed claims changes state; superseded and unknown evidence and every other column stay |
| Governance.MarkingKeepsOrigins | src/atomizer_local_client/verification/evaluator.py:26-41 | Marking leaves the sources of every claim as they were |
| Governance.CorroboratedIff | src/atomizer_local_client/verification/evaluator.py:42-49 | An undisputed claim is corroborated if and only if two of its current evidence rows come from different documents or chats |
| Governance.SupersededClaimIsUnverified | src/atomizer_local_client/verification/evaluator.py:36-49 | A claim whose evidence is all in older revisions is unverified, with no source |
| Governance.Govern | src/atomizer_local_client/derived_state/cycle.py:38-44 | Evaluation, contradictions, marking and verification in the order of the cycle |
| Governance.GoverningAgain | src/atomizer_local_client/derived_state/cycle.py:38-44 | Governing again over the same tables changes only the times of update |
| ManagedAuthority.BoundScopeIsInjective | src/atomizer_local_client/managed_access/authority.py:20-23 | A bound scope names one host and one scope |
| ManagedAuthority.ManagedAuthorityRegistry.Clear | src/atomizer_local_client/managed_access/authority.py:105-109 | Forgets session, capability and last contact |
| ManagedAuthority.ManagedAuthorityRegistry.Activate | src/atomizer_local_client/managed_access/authority.py:90-103 | Refuses another build, another instance and a stale lease; otherwise replaces session, capability and last contact |
| ManagedAuthority.ManagedAuthorityRegistry.Authority | src/atomizer_local_client/managed_access/authority.py:111-128 | Reports a live session, and clears one that is not |
| ManagedAuthority.ManagedAuthorityRegistry.Require | src/atomizer_local_client/managed_access/authority.py:130-176 | Grants the holder of the capability its session within scope, session and turn, renewing the contact; each refusal in the order of the code, an expired session cleared |
| ManagedAuthority.ManagedAuthorityRegistry.SessionForScope | src/atomizer_local_client/managed_access/authority.py:178-212 | Resolves a live session for a scope, session and turn without its capability, clearing one that is not live |
| ManagedAuthority.InactiveUntilActivated | src/atomizer_local_client/managed_access/authority.py:82-212 | On clocks that go forward, a lease expired, disconnected or revoked stays inactive until the next activation, whatever is called |
| ManagedAuthority.ReportedInactiveIsFinal | src/atomizer_local_client/managed_access/authority.py:111-212 | Once an operation has answered unavailable or expired, the registry is empty until the next activation, even if the wall clock is set back |
| ManagedAuthority.HeldSessionWasActivated | src/atomizer_local_client/managed_access/authority.py:90-103 | A held session is the lease of one earlier activation for this runtime, unexpired then and not revoked since, under the token that activation returned |
| ManagedEffects.HolderIsGrantedIff | src/atomizer_local_client/managed_access/authority.py:130-176 | A call is granted the session if and only if it presents the capability of a session in contact and unexpired, within the scope, host session and turn it names; only a granted call renews the contact, only an expired session is cleared, and each refusal names the first thing wrong |
| ManagedEffects.HookIsGivenTheSessionIff | src/atomizer_local_client/managed_access/authority.py:178-212 | A hook is given the session if and only if it is live and covers the scope for that host session and turn; the contact is not renewed |
| ManagedEffects.LeaseIsActivatedIff | src/atomizer_local_client/managed_access/authority.py:90-103 | A lease is activated if and only if it is for this build and instance and unexpired; otherwise nothing changes |
| ManagedEffects.AuthorityIsReportedIff | src/atomizer_local_client/managed_access/authority.py:111-128 | Asking for the authority reports a live session and clears any other |
| ManagedEffects.ContactKeepsTheSession | src/atomizer_local_client/managed_access/authority.py:82-88 | A holder whose calls are never more than the disconnect time apart keeps its session until it expires |
| ManagedContext.ManagedContextBroker.Prune | src/atomizer_local_client/managed_access/broker.py:183-189 | Drops exactly the expired requests |
| ManagedContext.ManagedContextBroker.Draft | src/atomizer_local_client/managed_access/broker.py:76-99 | Validates a request and drafts it only under a live lease that covers its scope, session and turn |
| ManagedEffects.AdmittedIsDrafted | src/atomizer_local_client/managed_access/broker.py:72-99 | A legible request that the live session covers is drafted with what it says, stripped, for the manager session observed and for eight seconds |
| ManagedEffects.DraftedWasAdmitted | src/atomizer_local_client/managed_access/broker.py:72-99 | Nothing else is drafted |
| ManagedEffects.EveryRequestWasAdmitted | src/atomizer_local_client/managed_access/broker.py:72-103 | In every run each request that enters the queue was drafted under a session that admitted it, and names the manager session that the same caller was shown before |
| ManagedContext.ManagedContextBroker.Enqueue | src/atomizer_local_client/managed_access/broker.py:100-103 | Appends the draft after pruning |
| ManagedContext.ManagedContextBroker.Poll | src/atomizer_local_client/managed_access/broker.py:122-134 | Assigns and returns the first unassigned request of the session and turn |
| ManagedContext.ManagedContextBroker.Complete | src/atomizer_local_client/managed_access/broker.py:140-173 | Stores a context only on an assigned, fresh, unanswered request with every binding equal, by the holder of the capability |
| ManagedContext.ManagedContextBroker.Finish | src/atomizer_local_client/managed_access/broker.py:106-116 | Removes the request and returns its context, if any |
| ManagedContext.ManagedContextBroker.Revoke | src/atomizer_local_client/managed_access/broker.py:175-181 | Drops every pending request |
| ManagedContext.FirstForIsFirst | src/atomizer_local_client/managed_access/broker.py:125-134 | The scan finds the first match or shows there is none |
| ManagedEffects.PollHandsOutIff | src/atomizer_local_client/managed_access/broker.py:122-138 | A poll hands a request out if and only if one is unexpired, not handed out and of the session and turn of the lease |
| ManagedEffects.FirstOpenIsHandedOut | src/atomizer_local_client/managed_access/broker.py:125-134 | It is the first such request in the queue, marked as handed out |
| ManagedEffects.QueueIsInOrder | src/atomizer_local_client/managed_access/broker.py:100-103 | In every run the queue stands in the order in which its requests were enqueued |
| ManagedEffects.FirstEnqueuedIsHandedOut | src/atomizer_local_client/managed_access/broker.py:118-134 | In every run the request handed out is the one enqueued first of all that are open to the lease |
| ManagedEffects.TakenIsSupplied | src/atomizer_local_client/managed_access/broker.py:140-173 | A request that was handed out, is fresh and unanswered, and is answered by the holder with every binding equal and a legible context gets that context, and no other request changes |
| ManagedEffects.SuppliedWasTaken | src/atomizer_local_client/managed_access/broker.py:140-173 | Nothing else is supplied |
| ManagedExchange.RunsAreDistinct | src/atomizer_local_client/managed_access/broker.py:72-189 | Request ids stay distinct among pending requests and drafts in every interleaving |
| ManagedExchange.SuppliedByALiveHolder | src/atomizer_local_client/managed_access/broker.py:140-173 | A context is supplied only through a live lease held under the given token that covers the scope, before the request expires |
| ManagedExchange.EveryRunHasItsStories | src/atomizer_local_client/managed_access/broker.py:72-189 | In every interleaving each request has one story: enqueued, handed out, supplied, returned, each at most once and in that order |
| ManagedExchange.EveryContextIsAccountedFor | src/atomizer_local_client/managed_access/broker.py:72-173 | Every returned context was supplied by the one completion of that request after its one hand-out, each by a lease of the same manager session, host session and turn, with no revoke in between |
| ManagedExchange.EveryContextWasAuthorized | src/atomizer_local_client/managed_access/broker.py:140-173 | That completion was made by the holder of the then live capability, within its scope and before the request expired |
| ManagedExchange.NothingReturnsAcrossARevoke | src/atomizer_local_client/managed_access/broker.py:175-181 | No request pending when the broker is revoked ever returns a context |
| ManagedExchange.EveryHandOutWasGranted | src/atomizer_local_client/managed_access/broker.py:118-134 | Every request is handed out to a caller that presented the then live capability before, under a lease of its manager session, host session and turn |
| ManagedExchange.HandOutIgnoresScopes | src/atomizer_local_client/managed_access/broker.py:125-134 | Handing out does not look at scopes; only answering a request needs its scope |
| ManagedExchange.OldestIsHandedOut | src/atomizer_local_client/managed_access/broker.py:118-134 | The oldest unexpired request of the session and turn is handed out |
| AccessPolicy.LibraryAccessPolicyStore.Mode | src/atomizer_local_client/managed_access/policy.py:27-42 | The mode a policy file selects, or an error for anything outside the closed schema |
| AccessPolicy.ModeIsReadIff | src/atomizer_local_client/managed_access/policy.py:27-42 | A mode is read if and only if the file is absent and it is the direct one, or the file holds exactly the two keys, the version of the schema and the name of the mode |
| AccessPolicy.LibraryAccessPolicyStore.SetMode | src/atomizer_local_client/managed_access/policy.py:44-59 | Replaces the file by one from which the mode is read back |
| AccessPolicy.SelectedModeIsRead | src/atomizer_local_client/managed_access/policy.py:27-59 | A selected mode is read back, whatever the file held |
| AccessPolicy.GateIsExact | src/atomizer_local_client/memory_access/access_gate.py:45-74 | Direct access is granted exactly in direct mode; a manager is let in exactly with a live lease while access is not disabled |
| AccessPolicy.DecisionLeavesTheRegistry | src/atomizer_local_client/memory_access/access_gate.py:45-74 | A decision leaves the registry, except that letting a manager ask for a session that is not live clears it |
| AccessPolicy.NeverBothIff | src/atomizer_local_client/memory_access/access_gate.py:45-74 | Direct and managed access are both granted exactly for a live lease in direct mode, hence never while a held session implies the exclusive mode |
| AccessPolicy.ManagedRuntime.SetAccessMode | src/atomizer_local_client/runtime/application.py:275-278 | Revokes registry and broker, then selects the mode |
| AccessPolicy.ManagedRuntime.RevokeManagedPairing | src/atomizer_local_client/runtime/application.py:280-283 | Revokes registry and broker once the pairing is gone |
| AccessPolicy.RevocationLeavesNothing | src/atomizer_local_client/runtime/application.py:275-283 | Selecting a mode or losing the pairing leaves no session, capability or pending request, and the mode selected is the one read from then on |
| AccessPolicy.ManagedRuntime.Activate | src/atomizer_local_client/managed_access/ingress.py:63-80 | Activates only in the exclusive mode; on success the registry holds exactly that lease |
| AccessPolicy.ManagedRuntime.RevokeAuthority | src/atomizer_local_client/managed_access/ingress.py:81-85 | Only the holder of the live capability revokes; then registry and broker are empty |
| AccessPolicy.ManagedRuntime.Authorize | src/atomizer_local_client/managed_access/policy.py:74-79 | The gate with an unreadable policy read as disabled |
| AccessPolicy.StepKeepsExclusive | src/atomizer_local_client/runtime/application.py:275-283 | Every step but the late write of a checked activation keeps: a held session implies the exclusive mode |
| AccessPolicy.WriteKeepsExclusiveIff | src/atomizer_local_client/managed_access/ingress.py:63-72 | Such a write keeps it if and only if the mode is still exclusive then, or the registry refuses the lease |
| AccessPolicy.RunIsExclusiveIff | src/atomizer_local_client/managed_access/ingress.py:61-89 | A run keeps a held session implying the exclusive mode throughout if and only if it contains no accepted write of a checked lease in another mode |
| AccessPolicy.UndisturbedRunsAreExclusive | src/atomizer_local_client/managed_access/ingress.py:61-89 | Every run in which no other mode is selected between the check and the write of an activation keeps it, however the other steps interleave |
| AccessPolicy.SettledRunsAreExclusive | src/atomizer_local_client/runtime/application.py:275-283 | So does every run in which another mode is selected only while no activation is checked and not yet written |
| AccessPolicy.SelectionCanBeOvertaken | src/atomizer_local_client/managed_access/ingress.py:63-72 | A mode selected between check and write leaves a session held in direct mode |
| LeaseVerification.AuthenticatedManagedAssertionVerifier.Consume | src/atomizer_local_client/managed_access/capability.py:94-103 | Drops expired entries, then refuses a listed capability or a full ledger, or lists the capability |
| LeaseVerification.AuthenticatedManagedAssertionVerifier.Verify | src/atomizer_local_client/managed_access/capability.py:124-191 | Every check in the order of the code, then the ledger |
| LeaseVerification.AcceptedIff | src/atomizer_local_client/managed_access/capability.py:124-191 | Accepted if and only if signed with the secret of the paired manager, within its times, made for this use and runtime, legible, new to the ledger, and the ledger has room |
| LeaseVerification.AcceptedLeaseCarries | src/atomizer_local_client/managed_access/capability.py:169-191 | An accepted lease carries the signed manager session, scope, host session, turn, capability and expiry, for this build and instance |
| LeaseVerification.LedgerFollows | src/atomizer_local_client/managed_access/capability.py:94-103 | The ledger is looked at only when nothing else is wrong; it then loses exactly what has expired and gains exactly an accepted capability until its lease expires |
| LeaseVerification.RejectionIsExplained | src/atomizer_local_client/managed_access/capability.py:127-190 | A rejection names the first thing wrong: authentication, times, use and runtime, texts, replay, full ledger |
| LeaseVerification.LedgerIsBounded | src/atomizer_local_client/managed_access/capability.py:94-103 | The ledger never exceeds its maximum |
| LeaseVerification.AcceptedAgainOnlyAfterExpiry | src/atomizer_local_client/managed_access/capability.py:94-103 | On a clock that never goes back, a capability id is accepted again only after the lease that used it expired |
| LeaseVerification.LeaseIsAcceptedOnce | src/atomizer_local_client/managed_access/capability.py:124-191 | On such a clock one signed lease is accepted at most once |
| LeaseVerification.ClockSetBackAcceptsTwice | src/atomizer_local_client/managed_access/capability.py:94-103 | The clock hypothesis is needed: set back after another lease was presented, the first is accepted again |
| NonceReplay.ReplayWindow.Prune | src/atomizer_local_client/local_auth/replay.py:29-35 | Removes stale entries from the front up to the first that is not |
| NonceReplay.ReplayWindow.Accept | src/atomizer_local_client/local_auth/replay.py:37-50 | Range check, prune, duplicate check, insertion and eviction |
| NonceReplay.ReplayWindow.Size | src/atomizer_local_client/local_auth/replay.py:52-56 | The number of entries after pruning |
| NonceReplay.PruningIsFilteringIff | src/atomizer_local_client/local_auth/replay.py:29-35 | Pruning the front is filtering all of it if and only if no stale entry follows a recent one |
| NonceReplay.ForwardPruningFilters | src/atomizer_local_client/local_auth/replay.py:29-35 | On a forward clock pruning the front of the window is filtering it |
| NonceReplay.SeenIsBounded | src/atomizer_local_client/local_auth/replay.py:47-48 | The window never holds more than its maximum |
| NonceReplay.AcceptedIff | src/atomizer_local_client/local_auth/replay.py:37-50 | On a forward clock a nonce is accepted if and only if its timestamp is in range and none of the last max_entries acceptances used it within the freshness |
| NonceReplay.NonceIsReusedOnlyLater | src/atomizer_local_client/local_auth/replay.py:37-50 | A nonce is accepted twice only more than the freshness apart, or with at least max_entries acceptances after the first |
| HookPlanning.FindAmbiguousEvents | src/atomizer_local_client/runtime/codex_integration.py:85-100 | The ambiguous supported events, or an error exactly when a supported event is malformed |
| HookPlanning.RetainEntries | src/atomizer_local_client/runtime/codex_integration.py:116-132 | The loop over the entries of an event, own hooks filtered out |
| HookPlanning.PlanHooks | src/atomizer_local_client/runtime/codex_integration.py:103-149 | The planned table, event by event and independently of their order, or the refusal |
| HookPlanning.PlanIsRefusedIff | src/atomizer_local_client/runtime/codex_integration.py:85-112 | Settings are refused as malformed if and only if a supported event is; else as a conflict over exactly the supported events that hold an ambiguous hook, if there are any |
| HookPlanning.EntryIsKeptAs | src/atomizer_local_client/runtime/codex_integration.py:116-134 | An entry without own hooks is kept as it is, a group of nothing but own hooks goes, any other group keeps its keys and its other hooks |
| HookPlanning.OwnHookComesLast | src/atomizer_local_client/runtime/codex_integration.py:135-142 | A supported event stays if and only if it is enabled or holds something that is not ours; enabled, it ends with one group that holds nothing but our hook |
| HookPlanning.UnsupportedEventsAreUntouched | src/atomizer_local_client/runtime/codex_integration.py:113-142 | Unsupported events and the rest of the file stay as they were |
| HookPlanning.LastPlanWins | src/atomizer_local_client/runtime/claude_integration.py:89-120 | Planning again after any plan gives what planning the original would have: enabling is idempotent, and disabling after enabling is disabling |
| HookPlanning.PlannedStaysPlannable | src/atomizer_local_client/runtime/claude_integration.py:89-120 | The same for whole plans: a planned result is never refused |
| HookPlanning.RetainedKeepsResidue | src/atomizer_local_client/runtime/codex_integration.py:116-132 | Filtering keeps everything that is not ours, with its content and order |
| HookPlanning.OthersSurvive | src/atomizer_local_client/runtime/claude_integration.py:89-120 | Planning keeps everything that is not ours in a supported event, with the keys of its group and its order |
| HookPlanning.OwnHooksAfterPlanning | src/atomizer_local_client/runtime/claude_integration.py:89-120 | Enabling leaves exactly one own hook in every supported event, disabling none |
| HookPlanning.DisablingIsQuietIff | src/atomizer_local_client/runtime/codex_integration.py:133-142 | Disabling changes nothing if and only if no supported event holds an own hook or an empty list |
| HookTransaction.FileSystem.Restore | src/atomizer_local_client/runtime/codex_integration.py:68-75 | A restore puts back the original bytes or absence, or fails and changes nothing else |
| HookTransaction.PlanAll | src/atomizer_local_client/runtime/codex_integration.py:163-166 | All targets are planned from the files as they are before any write, or none |
| HookTransaction.TargetIsPlannedIff | src/atomizer_local_client/runtime/codex_integration.py:103-149 | A target can be planned if and only if it holds settings whose plan is not refused; its content is those settings as planned, written anew only if they differ |
| HookTransaction.WriteAll | src/atomizer_local_client/runtime/codex_integration.py:168-173 | Writes the changed targets in order up to the first failing save |
| HookTransaction.RollBack | src/atomizer_local_client/runtime/codex_integration.py:174-183 | Restores the written targets in reverse, going on past failures; clean exactly when none failed |
| HookTransaction.ReconcileTargets | src/atomizer_local_client/runtime/codex_integration.py:152-185 | No write if any target cannot be planned; otherwise every target at its planned content exactly when no needed save fails, else every file as before unless a restore failed, and then only targets whose restore failed differ |
| HookTransaction.ReconcileSettings | src/atomizer_local_client/runtime/claude_integration.py:123-140 | The single settings file: planned content written, or nothing |
| HookTransaction.ReconcilingAgainIsQuiet | src/atomizer_local_client/runtime/codex_integration.py:152-185 | Reconciling the same way again writes nothing |
| HookTransaction.RemovingAfterInstalling | src/atomizer_local_client/runtime/codex_integration.py:152-185 | Removing after installing gives the settings that removing at once would have given |
| Fusion.ReadFamily | src/atomizer_local_client/retrieval/rrf.py:23-35 | One list adds its reciprocal ranks to the scores and joins its records to those held |
| Fusion.SortedIds | src/atomizer_local_client/retrieval/rrf.py:36-39 | Ids by descending score, then by id |
| Fusion.Fuse | src/atomizer_local_client/retrieval/rrf.py:19-39 | Each id of the union once, with its exact score and joined record, strictly in order |
| Fusion.FusionIsDetermined | src/atomizer_local_client/retrieval/rrf.py:19-39 | That contract determines the result |
| Fusion.FoundByBoth | src/atomizer_local_client/retrieval/rrf.py:23-35 | An id at place i of one list and j of the other has the sum of both reciprocal ranks and the columns of both |
| Fusion.FoundByOne | src/atomizer_local_client/retrieval/rrf.py:23-35 | An id of one list alone has its reciprocal rank and its own record |
| Fusion.SwappingKeepsTheRanking | src/atomizer_local_client/retrieval/rrf.py:23-39 | Swapping any two lists keeps the ids, their order and their exact scores |
| Fusion.SwappingIsNeutral | src/atomizer_local_client/retrieval/rrf.py:23-35 | Swapping the lists of two retrievers also keeps every record |
| Fusion.BothBeatOne | src/atomizer_local_client/retrieval/rrf.py:25 | An id ranked at most k + 1 in both lists precedes every id in only one |
| Fusion.OneRankMoreTies | src/atomizer_local_client/retrieval/rrf.py:25 | The bound is tight: at rank k + 2 in both lists an id only ties with the first of one list |
| Dedupe.DedupeWindow.First | browser_extension/core/dedupe.js:15-21 | Reports whether the key is not in the window and inserts it, evicting the oldest over the limit |
| Dedupe.WindowIsLastFirsts | browser_extension/core/dedupe.js:8-22 | The window is the last keys that were first, whatever was offered |
| Dedupe.StableAssistantTracker.Observe | browser_extension/core/dedupe.js:31-41 | Ready exactly when visible, not streaming, unchanged for the stable time and not yet reported |
| Dedupe.ReadyMeansStable | browser_extension/core/dedupe.js:24-46 | A ready answer has been seen with that content for at least the stable time, with no other content and no reset in between |
| CaptureAgent.ChatGPTCapture.EmitEvent | browser_extension/core/capture.js:319-349 | A repeated id is dropped; otherwise the event is sent now or after the deliveries before it |
| CaptureEffects.DeliverySendsTheNext | browser_extension/core/capture.js:319-349 | In every run a settled delivery is followed by the next event emitted but not sent, and with all sent the page is idle |
| CaptureAgent.ChatGPTCapture.Deliver | browser_extension/core/capture.js:321-346 | A settled delivery starts the next |
| CaptureAgent.ChatGPTCapture.ObserveTrustedProjectHome | browser_extension/core/capture.js:255-273 | Which project home is trusted after a route |
| CaptureEffects.SeeingARoute | browser_extension/core/capture.js:255-297 | What a route leaves of the trusted home and of the recent stable route |
| CaptureEffects.IntentTrustsOnlyTheHomePage | browser_extension/core/capture.js:50-62 | The moment of submission trusts only the home page it is made on |
| CaptureAgent.ChatGPTCapture.ClearRecentProjectRouteOutside | browser_extension/core/capture.js:284-297 | When the recent stable route is forgotten |
| CaptureAgent.ChatGPTCapture.ArmSubmission | browser_extension/core/capture.js:68-113 | The turn of a submission, its event, and the pending chat it arms on a new-chat route |
| CaptureAgent.ChatGPTCapture.CaptureUserSubmit | browser_extension/core/capture.js:64-126 | A whole submission: armed, emitted, polled for |
| CaptureEffects.SubmissionArms | browser_extension/core/capture.js:68-117 | The event of a submission is made if its texts are legible, and on a new-chat route it is pending with its provisional reference, its project and the answers already on a home page |
| CaptureEffects.SubmissionIsRemembered | browser_extension/core/capture.js:83-91 | A new turn is remembered with its page and its text; the same submission within a second changes nothing |
| CaptureEffects.SubmissionEmits | browser_extension/core/capture.js:119-122 | A submission emits its event unless it repeats one or cannot be made; only then is a new chat polled for, and the name of the home page used up |
| CaptureAgent.ChatGPTCapture.ReconcilePendingNewChat | browser_extension/core/capture.js:186-216 | Rebinds the pending submission on a stable route of its project, or raises, or leaves everything |
| CaptureEffects.PendingIsReboundIff | browser_extension/core/capture.js:186-216 | A pending chat is rebound if and only if the page shows a stable route of its project and the event can be made and repeats none; the route is kept for its answers exactly in a project whose answer has not been captured |
| CaptureAgent.ChatGPTCapture.PollPendingRoute | browser_extension/core/capture.js:299-317 | The poll callback: one poll used, reconciled or scheduled again |
| CaptureEffects.PollGoesOnIff | browser_extension/core/capture.js:299-317 | A poll that finds no route to rebind to uses itself up and goes on while any are left; one that rebinds is the last |
| CaptureAgent.ChatGPTCapture.AssistantAssociation | browser_extension/core/capture.js:218-253 | Where the answers on the page belong |
| CaptureEffects.AnswersBelongIff | browser_extension/core/capture.js:218-253 | Answers belong to the route of the page, or on a home page to the pending chat of its project, else to its recent stable route while that lasts |
| CaptureAgent.ChatGPTCapture.CaptureAnswers | browser_extension/core/capture.js:145-171 | The loop over the answers, stopping at the first that cannot be made an event |
| CaptureEffects.AnswerIsEmittedIff | browser_extension/core/capture.js:146-156 | An answer is emitted if and only if it is due, can be made an event and repeats none; one that cannot be made an event ends the scan |
| CaptureEffects.AnswerIsNoted | browser_extension/core/capture.js:157-169 | What an emitted answer settles: the pending chat has its answer, and the recent stable route it belongs to is forgotten |
| CaptureEffects.AnswerIsRemembered | browser_extension/core/dedupe.js:31-41 | The text of an answer is remembered from its first sight, and a finished answer as captured |
| CaptureAgent.ChatGPTCapture.ScanVisibleAssistantMessages | browser_extension/core/capture.js:137-175 | A whole scan |
| CaptureEffects.ScanRebindsFirst | browser_extension/core/capture.js:137-143 | A scan rebinds a pending chat as soon as the page shows a stable route of its project, before any answer |
| CaptureEffects.ScanTellsTheAnswers | browser_extension/core/capture.js:143-171 | A scan with nothing to rebind goes through the answers as they belong, in the order of the page |
| CaptureAgent.ChatGPTCapture.RouteChanged | browser_extension/core/capture.js:177-184 | A route change resets the tracker and reconciles |
| CaptureEffects.RerouteRebinds | browser_extension/core/capture.js:177-184 | So does a change of route |
| CaptureEffects.PollRebinds | browser_extension/core/capture.js:305-316 | And a poll |
| CaptureEffects.WhatDoesNotFitIsForgotten | browser_extension/core/capture.js:255-297 | After every scan and every route change the page remembers only what fits its route, and a route change forgets the answers seen |
| CaptureAgent.StoppedScan | browser_extension/core/capture.js:145-173 | Once an answer stops a scan the rest is not looked at |
| Capture.StepMoves | browser_extension/core/capture.js:64-349 | Every step of a page is made of five kinds of moves: what those keep, every step keeps |
| Capture.RunsAreOrderly | browser_extension/core/capture.js:319-349 | In every run events are sent in the order emitted, none lost or sent twice, and an id is emitted again only after more than the window of others |
| Capture.EveryRebindFollowsItsSubmission | browser_extension/core/capture.js:186-216 | In every run each rebind follows an emitted submission under that provisional reference with its turn and content; answers under one follow a submission there |
| Capture.SubmissionIsProjectedIff | browser_extension/core/capture.js:84-113 | A submission keeps the pending chat and every rebind in the project of the submissions they follow if and only if it does not take up, within a second, a turn emitted in another project |
| Capture.EveryRebindKeepsItsProject | browser_extension/core/capture.js:186-216 | In every run without such a submission a rebind is in the project of every submission it follows |
| Capture.ResubmissionChangesProject | browser_extension/core/capture.js:84-113 | With one, a concrete run rebinds into a project that the emitted submission is not in: the repeated event has the same id and is dropped |
| Capture.SubmissionIsSingleIff | browser_extension/core/capture.js:84-113 | A submission keeps every provisional reference rebound at most once if and only if it does not take up, within a second, a turn that was rebound already |
| Capture.EachSubmissionIsReboundOnce | browser_extension/core/capture.js:186-216 | In every run without such a submission each provisional reference is rebound at most once |
| Capture.RebindingDisarms | browser_extension/core/capture.js:186-216 | A rebind leaves nothing pending; anything else leaves the page as it was |
| Capture.DoubleSubmissionReboundTwice | browser_extension/core/capture.js:84-113 | The same text submitted twice within a second around a rebind rebinds one provisional chat to two chats |
| Capture.PollingIsBounded | browser_extension/core/capture.js:299-317 | One submission is polled for at most the limit |

## Left out

- SQLite itself: SQL text, locking, WAL, host-parameter limits, FTS5 with its two audit checks, BM25 scoring, and running the migrations.
- HTTP, stdio and MCP servers, HTML, DOM selectors, browser APIs, process lifecycle, installers and packaging: plumbing without state of their own.
- HMAC, SHA-256, version-5 UUIDs and random tokens: taken as injective or fresh, so collisions are not modelled, nor are texts that contain the separator between joined fields. The browser's 64-bit `stableHash` is taken as injective too.
- Walking directories and `stat` races: a sync takes the snapshots a walk returned. Documents without a path key, which no writer or migration leaves, are not modelled.
- Rebuilding of entities, and the content of the other projections inside a cycle: the cycle takes their result as a parameter; claims and governance are modelled in their own modules on the units.
- Regular expressions, Unicode normalisation, case folding and Unicode white space: extraction, canonicalisation, entity signatures and `_subject_value` are parameters; `Texts.Stripped` strips the ASCII white space.
- Float rounding in embeddings and scores: reals are exact; `embed` and the similarity of two forms are deterministic functions.
- The order in which `authoritative_sources` lists the revisions of one document, which its query leaves open: the model takes the list as read.
- Condition variables, waits and deadlines of `request` and `next`: a wait is an arbitrary pause between two steps, giving up is a step.
- The `library/read` operation with its reader, and the inactive answer of `context/request` outside the exclusive mode.
- Parsing of hook commands: ownership is a three-way classifier that recognises the installed hook. Symbolic links, the order of JSON keys and temporary files left by failed writes are not modelled.
- Other retrieval stages (query planning, reranking, context budgets): they would add easy members.
- ElectedSources.ElectSource: the resolution of the path is a parameter, and a missing path counts as unsuitable.
- DocumentSync.SyncKeepsWindows: is about documents that carry a content hash; for others RefreshKeepsWindowIff says what happens.
- ElectedSources.SyncElectedSource: assumes consistent document tables, which the schema and every writer keep.
- DerivedMaintenance.QuietRunsAreExact: assumes that a revision keeps its content, since otherwise stale offsets go unnoticed.
- DerivedState.ArrivalIsUnseenIff: is about the recorded signatures; it does not run the later projections.
- ManagedExchange.EveryRunHasItsStories: a manager that never completes leaves its request without a context; no liveness is claimed.
- AccessPolicy.ManagedRuntime.SetAccessMode: a failing write of the policy file is not modelled.
- HookTransaction.ReconcileTargets: two spellings of one normalised path are one target.
- Capture.EveryRebindKeepsItsProject: excludes submissions that take up a turn emitted in another project, since with one it is false.
- Capture.EachSubmissionIsReboundOnce: excludes submissions that take up a turn rebound already, since with one it is false.
- Fusion.SwappingIsNeutral: for the joined records it assumes that each retriever fills its own columns, once per id, and that both agree on the evidence; order and scores need no assumption.
- Fusion.BothBeatOne: assumes that a list names an id once, as each retriever does.
- ClaimEffects.SpanIsEvidence: assumes that the spans of one text do not overlap, as the sentences of the extractor do not, and that unit ids are distinct.
- DerivedEffects.QuietIff: offsets are not compared, as the detector does not read them; that a row holds the text of its digest is assumed, which every writer keeps (`RunsAreHealthy`).
- ManagedEffects.ContactKeepsTheSession: is about calls that name no scope, session or turn.
