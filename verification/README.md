# NexDrop, modelled and proved

NexDrop moves messages and files between a user's devices, directly over the LAN or through a node that
keeps encrypted chunks until every receiver has them. This project models the parts of it where state,
concurrency or arithmetic decide whether that works, and proves what they promise.

- **Transfers** (`domain`, `requests`, `tables`, `accounting`, `transactions`, `store`, `runs`). The store is a
  class with one field per table and one method per transaction. Every method is proved equal to a function
  on database values, rollbacks included; a run is any sequence of those transactions. What such a function
  does to each field of each row, and when, is said again without it: what a request creates (`routes`), what
  each transaction does to a target, a task, an attempt and a file (`effects`), what the row of a target amounts
  to after any run (`ledger`), what callers are told (`answers`), the quotas in numbers (`limits`) and when a
  file may go (`duefiles`). On runs stand the invariant of the tables (`consistency`), the task status as a
  summary (`aggregate`), what a target went through (`history`), replayed requests (`idempotency`), quotas
  (`quotas`), early expiry (`cleanup`, `maintenance`) and one run that breaks a summary (`witnesses`).
- **Chunks** (`chunkmath`, `chunkstore`, `completion`, `orphans`, `sequential`, `fileservice`, `splitting`). Every
  store call and file operation of uploading, completing and cleaning is a step, and any number of calls
  interleave; with nothing in between they amount to one upload or one completion. The sequential service, the
  manifest builder and the browser's encryption are methods with the loops they have in the code.
- **Presence and realtime** (`presence`, `realtime`). Two event-driven protocols: connections of a device that
  replace one another, and the browser's socket with its timers.
- **Paging** (`lex`, `sorting`, `paging`). A stateless cursor walking a list that grows between calls.
- **Folders** (`text`, `folderpaths`, `foldermanifest`, `folderselect`). Path normalisation, manifest validation
  and selection, on strings.
- **Controllers** (`numbers`, `adaptive`, `recovery`, `ratelimit`, `metrics`, `metrictables`). The adaptive profile,
  the recovery pass and its backoff, the fixed-window limiter and the bounded metrics registry.

`dafny verify dfyconfig.toml` checks everything. A transaction is one atomic step; SHA-256, the AEAD cipher,
case folding and the like are function parameters, with no more known of them than a lemma says in its
`requires`. Times are integers; identifiers the database draws and clock readings are parameters.

## Where a natural claim fails

Each of these is stated with the exact condition under which the claim holds; where a failing input is not
plain from the condition, a run from the empty or start state reaches one.

- A completion sets every node-routed target of the transfer to available, delivered or not
  (`RunKeepsSummaryIff`, `EarlyExpiryIsSafeIff`; reached by `CompletionOvertakesDelivery`).
- Of overlapping completions the last to record removes the published file (`BodySurvivesIff`,
  `RecordKeepsTheBodyIff`; reached by `OverlappingCompletionsLoseTheBody`).
- A chunk recorded between the cleaner's scan and mark stays on disk (`MarkLeaksIff`, and
  `ChunksAreTracked` for every file not picked; reached by `LateChunkLeaks`).
- A live connection can have a disconnected presence row until its next heartbeat (`CurrentRowStaysIff`; reached
  by `LiveConnectionLosesItsRow`), and a failed disconnect write leaves a connected row behind
  (`FinishedDeviceIff`; reached by `LostDisconnectLeavesTheRow`).
- A handler that unsubscribes from inside two of its calls leaves a timer (`StoppedIsQuietIff`; reached by
  `HandlersLeaveTimers`).
- A normalised path can be refused as a drive path (`NormalizeAgainIff`, `ValidateAgainIff`; reached by
  `HiddenDrive`).
- The Retry-After header drops fractions of a second (`HeaderSufficesIff`; reached by `HeaderMisleads`).
- A minimum chunk above 32 MiB with a lower maximum yields chunks above the maximum (`ChunkWithinMaximumIff`).
- A large base backoff overflows and shortens the wait (`BackoffIsWellBehavedIff`).
- A page that ends in a message without a time hands out a cursor that starts over (`NextPageFollowsIff`).

## Model

| member | source | states |
|---|---|---|
| `Requests.CheckDuplicates` | internal/transfer/service.go:507-516 | the walk with a set finds a duplicate exactly when a value is empty or occurs twice |
| `Requests.PrepareRows` | internal/transfer/service.go:216-242 | the nested loops fill exactly the rows, routes and expiry of the prepared transfer |
| `Requests.PrepareDevice` | internal/transfer/service.go:228-239 | one device against every file: its rows and the one route they leave it with |
| `Requests.FileTargetsAreFullProduct` | internal/transfer/service.go:228-240 | the file rows are exactly the product of files and devices, each with the route and initial status of its file and device |
| `Store.TransferStore.CreateRequest` | internal/postgres/store.go:795-992 | the create transaction leaves the tables and answers as its specification says: the new transfer, the first one of a replayed key, a conflict for another request under that key, or the refusal, which leave the tables as they were; which rows those are is module Routes, and when there are any is Limits.CreatedIff |
| `Store.TransferStore.InsertTransfer` | internal/postgres/store.go:819-992 | all rows of a transfer are inserted, or none when a key is taken or a quota exceeded; answers with the transfer inserted or replayed, or the error |
| `Store.TransferStore.InsertTargets` | internal/postgres/store.go:930-953 | a target and a first execution per prepared row, refused for a repeated device |
| `Store.TransferStore.InsertFiles` | internal/postgres/store.go:914-929 | a file row per request file under fresh identifiers |
| `Store.TransferStore.InsertFileTargets` | internal/postgres/store.go:967-987 | a file-target row per prepared row, refused for a repeated pair |
| `Store.TransferStore.MeasureUsage` | internal/postgres/store.go:1322-1396 | one pass over the live files computes user or group usage, node usage and today's usage |
| `Store.TransferStore.MeasureRequest` | internal/postgres/store.go:1283-1321 | the requested bytes are the sizes of the distinct node-routed files |
| `Store.TransferStore.EnforceTransferQuotas` | internal/postgres/store.go:1283-1399 | admits as the admission condition says, which Limits.AdmittedIffItFits gives in numbers, and otherwise names the first limit exceeded, as Limits.RefusedForIff gives it |
| `Store.TransferStore.ReportTransferProgress` | internal/postgres/store.go:994-1190 | the report transaction leaves the tables and answers as its specification says, idempotency record included; what that does to each field is Effects.TargetStep, Effects.TaskStep and module Ledger, and what it answers Answers.ReportIsAnswered |
| `Store.TransferStore.ApplyProgress` | internal/postgres/store.go:1045-1173 | the part of a report after the idempotency lookup: target, latest execution and task row |
| `Store.TransferStore.CompleteIdempotencyRecord` | internal/postgres/store.go:1192-1210 | only the open record with this request hash is completed, with this response |
| `Store.TransferStore.RetryTransferTarget` | internal/postgres/store.go:1212-1281 | a retry opens the next attempt, or leaves the tables; and what it answers in each case: invalid, forbidden, the transfer again for a used key, a conflict for a status that cannot be retried, else the transfer with its new attempt |
| `Store.TransferStore.CancelTransfer` | internal/postgres/store.go:1805-1855 | cancels what is not settled, and answers with the transfer, exactly for the sender of a task that is neither delivered nor read nor ended; forbidden otherwise |
| `Store.TransferStore.MarkRead` | internal/postgres/store.go:1885-1944 | a delivered target becomes read, a repeated read only answers, and any other status is forbidden |
| `Store.TransferStore.HideTransfer` | internal/postgres/store.go:1857-1883 | hiding adds the user to the hidden set and nothing else, for the sender and the users of receiving devices; refused exactly when the transfer is not hidden for the user afterwards |
| `Store.TransferStore.CompleteUpload` | internal/postgres/store.go:2104-2147 | the file and every node-routed target of its transfer become available on the node, exactly when the sending user on the sending device completes a file still uploading |
| `Store.TransferStore.ScanExpired` | internal/postgres/store.go:2498-2572 | the scan returns distinct files, oldest date first and none younger than one left out; each is past its date, or available with every receiver through the node DELIVERED or READ and the latest completion 24 hours back; and when it finds fewer than the limit, every such file is among them |
| `Store.TransferStore.ExpireFile` | internal/postgres/store.go:2574-2619 | expires the file, its rows, the targets with no live file left and the task with no other target |
| `Effects.TargetStep` | internal/postgres/store.go:1045-1147 | every transaction does one thing to a target, decided by the rows it meets: a report (route if named, status, the larger bytes, times and error code), a read, a retry, a cancel, the arrival of a file, the end of the last one; said field by field, with the exact condition of each, and otherwise the target stays as it is |
| `Effects.TaskStep` | internal/postgres/store.go:1162-1173 | the status of a task after each transaction: READ, DELIVERED or FAILED by its targets after a report, else what was reported, CHECKING_ROUTE after a retry, CANCELLED after a cancel, EXPIRED with its last target; the rest of the row never changes, and who hides it only grows by the hiding user |
| `Effects.AttemptStep` | internal/postgres/store.go:1144-1149 | a report and a read mark the attempt with the highest number and no other, a retry appends the next number in CHECKING_ROUTE under its key, and nothing else touches the attempts |
| `Effects.FileStep` | internal/postgres/store.go:2104-2123 | a file changes by its own completion, to available under the given path, or by its own expiry, to expired with no path, and by nothing else |
| `Effects.FileTargetStep` | internal/postgres/store.go:1828-1832 | the row of a file and device becomes available with its file when it is node-routed, expires with its file, is cancelled with its task when not settled, and is otherwise left alone |
| `Ledger.RowFollowsItsTouches` | internal/postgres/store.go:1121-1147 | in every run of all transactions, status, route, completion time, read time and error code of a target are what the last event concerning each of them left, or as created |
| `Ledger.BytesAreTheLargestReported` | internal/postgres/store.go:1121-1129 | in every run, from before the target was created: its bytes are the largest number any effective report of it named, or zero |
| `Ledger.ReportedTaskIff` | internal/postgres/store.go:1166-1173 | a report that takes effect leaves its task FAILED exactly when every target is FAILED, CANCELLED or EXPIRED, READ exactly when all are READ, and DELIVERED exactly when all are DELIVERED or READ but not all READ, as long as the task was a summary before |
| `Routes.SelectedRoute` | internal/domain/route.go:35-72 | which route each mode gives, exactly: LAN when the device is reachable and the mode is not NODE_ONLY; the node for NODE_ONLY, or AUTOMATIC without LAN, unless the content is over 100 MiB and not allowed; waiting, a draft or none otherwise |
| `Routes.CreatedTargetAsRequested` | internal/transfer/service.go:216-242 | the rows creation adds for each device, from the fields of the request: the route of every file and of a message, MIXED exactly when two files of the device go different ways, the status each route starts in, nothing sent, one first attempt |
| `Routes.CreatedTaskAsRequested` | internal/transfer/service.go:220-244 | the task and file rows creation adds, from the fields of the request: WAITING_FOR_LAN exactly when every target waits for the LAN, kept for 90 days if it is a message and 7 if it carries files |
| `Routes.RefusedIff` | internal/transfer/service.go:430-467 | a request is refused before it reaches the tables exactly for one of the listed reasons: no device, a wrong or repeated address, wrong content, a malformed file, no recipient or more than 100, a missing key |
| `Answers.ShownIff` | internal/postgres/store.go:1681-1704 | a transfer is shown, with the route, status and bytes of each target, to its sender and its receiving devices unless the user has hidden it; everyone else is told there is none |
| `Answers.HiddenStaysHidden` | internal/postgres/store.go:1857-1883 | in every run, what a user has hidden stays hidden from that user |
| `Answers.ReportIsAnswered` | internal/postgres/store.go:1066-1088 | how a report from either end under a new key is answered: with the unchanged transfer when it repeats an end, with the rows it leaves where it leads on, with a conflict otherwise |
| `Answers.StrangersAreForbidden` | internal/postgres/store.go:1048-1063 | a report by neither end, or on a missing target, is forbidden and changes nothing |
| `Answers.TransitionsIff` | internal/domain/transfer.go:34-61 | the transition table read backwards: from where each status can be reached |
| `Answers.ProgressEnds` | internal/domain/transfer.go:34-61 | once the content is on its way every transition brings the target strictly closer to its end |
| `Consistency.CreatedRows` | internal/transfer/service.go:184-254 | what creation adds: the task, one target and execution per device, one row per file, the full product of file rows, each with its route and initial status |
| `Consistency.RunKeepsConsistent` | internal/postgres/store.go:795-992 | in every run of all transactions, rows stay linked and the file rows of a transfer stay the full product of its files and devices |
| `Aggregate.RunKeepsSummaryIff` | internal/postgres/store.go:1162-1173 | in every run of all transactions: at every moment a task shown DELIVERED has only DELIVERED or READ targets, one shown READ only READ ones and one shown FAILED only FAILED, CANCELLED or EXPIRED ones, exactly when no completion meets a task shown so with a node-routed target |
| `Aggregate.ExpiryIsAllOrNothing` | internal/postgres/store.go:2594-2613 | expiring a file expires every target of its transfer if it was the last live file, and none otherwise |
| `Aggregate.CompletionKeepsSummaryIff` | internal/postgres/store.go:2132-2136 | a completion keeps that summary exactly when the task is none of DELIVERED, READ and FAILED, or has no node-routed target |
| `Witnesses.CompletionOvertakesDelivery` | internal/postgres/store.go:2132-2136 | such a completion is reachable from the empty database: the other file of a delivered transfer completes, the task is no summary any more, and a file the scan has picked is back to AVAILABLE_ON_NODE for its receiver |
| `TargetHistory.StepMovesLegally` | internal/domain/transfer.go:34-61 | every transaction leaves the status of a target, or moves it its own way: a report along the transition table, a read from DELIVERED, a retry from a retryable status to CHECKING_ROUTE, a cancel of an unsettled one, a completion of a node-routed one to AVAILABLE_ON_NODE, an expiry to EXPIRED; bytes never shrink, and a new target starts as its route says |
| `TargetHistory.CameFrom` | internal/domain/transfer.go:43-46 | READ comes only from DELIVERED, DELIVERED only from VERIFYING, VERIFYING only from a transfer over LAN or from the node |
| `TargetHistory.ReadTargetWasVerified` | internal/domain/transfer.go:43-46 | in every run a READ target was DELIVERED before, VERIFYING before that, and transferring before that |
| `TargetHistory.BytesNeverShrink` | internal/postgres/store.go:1111-1113 | in every run of all transactions the bytes of a target never decrease |
| `TargetHistory.TerminalTargetsAreFrozen` | internal/postgres/store.go:1081-1083 | in every run of create, report, retry, cancel, read and hide, READ, CANCELLED and EXPIRED targets never change |
| `TargetHistory.FailedLeavesOnlyByRetry` | internal/postgres/store.go:1234-1247 | in such a run a FAILED target changes only by a retry with an unused key |
| `TargetHistory.AttemptsMatchAcceptedRetries` | internal/postgres/store.go:1248-1256 | in every run the attempts of a target are 1..n, and the retries after the first carry exactly the accepted keys, all different |
| `Idempotency.RefusedReportChangesNothing` | internal/postgres/store.go:994-1003 | a refused report commits nothing, not even the record it opened |
| `Idempotency.NoRecordLeftProcessing` | internal/postgres/store.go:1036-1043 | in every run no committed idempotency record is left PROCESSING |
| `Idempotency.RepeatedReportReplays` | internal/postgres/store.go:1023-1035 | a report repeated with the same device, resource and key gets the first response, or a conflict for another body, and changes nothing, whatever ran in between |
| `Idempotency.RepeatedCreateReplays` | internal/postgres/store.go:801-823 | a create repeated by the same device under the same key gets the first transfer as it then is, or a conflict for another request, and changes nothing, whatever ran in between |
| `Idempotency.KeysStayUnique` | internal/postgres/store.go:801-823 | in every run from the empty database a device has used each of its keys for one transfer only |
| `Accounting.ExceedsIsPlainComparison` | internal/postgres/store.go:1397-1399 | on non-negative 64-bit usage the comparison is current + requested > limit, with no overflow |
| `Accounting.StopLimitWithoutOverflow` | internal/postgres/store.go:1375-1396 | the percentage of the node limit is exact when its product fits 64 bits |
| `Quotas.AdmissionAddsDistinctFiles` | internal/postgres/store.go:1283-1321 | an admission raises each usage by exactly the sizes of the distinct node-routed files, however many devices share a file |
| `Quotas.RunStaysWithinQuotas` | internal/postgres/store.go:1283-1399 | in every run with fixed settings and non-decreasing request times, live node bytes stay within the user and group quotas, their daily limits and the node's stop limit |
| `Limits.UsageIsBytes` | internal/postgres/store.go:1331-1345 | the usage sums are the bytes of exactly the files that are not expired, have their date ahead, belong to the owner and reach somebody through the node, for the daily sum those sent on or after the current UTC day |
| `Limits.EveryoneStaysWithin` | internal/postgres/store.go:1283-1399 | in every run from the empty database, with fixed settings and non-decreasing request times: the bytes of an owner's stored files stay within the owner's own limit if it has one and the default if not, today's within its daily limit, all of them within the given percentage of the node's cache |
| `Limits.AdmittedIffItFits` | internal/postgres/store.go:1283-1399 | a request is admitted exactly when nobody gets a file of it through the node, or its distinct node files fit the single-file limit and, added to what is stored, the sender's, the group's and the node's limits |
| `Limits.RefusedForIff` | internal/postgres/store.go:1306-1380 | which error a refusal carries, in terms of the same numbers |
| `Limits.CreatedIff` | internal/postgres/store.go:795-992 | a transfer is created exactly for a well-formed deliverable request under an unused key, whose files fit, under fresh identifiers |
| `Cleanup.EarlyExpiryIsSafeIff` | internal/maintenance/cleaner.go:60-92 | a file picked before its date stays, until it is marked, with every device that receives it through the node, of which there is at least one, exactly when no second cleaner marks it and no completion in its transfer meets a receiver whose own route is the node; every other transaction may run in between |
| `Cleanup.SiblingCompletionIff` | internal/postgres/store.go:2132-2136 | a completion in the same transfer leaves the file with its receivers exactly when no receiver's own route is the node |
| `Maintenance.Cleaner.RunOnce` | internal/maintenance/cleaner.go:48-95 | one pass marks a prefix of the scan; every path of a marked file, its own and its chunks', is gone; nothing else is deleted but paths of scanned files inside the root; nothing due is left when neither a failure nor the limit ended it: every file past its date is EXPIRED and none is left that all receivers have had for a day |
| `Maintenance.Cleaner.CleanFile` | internal/maintenance/cleaner.go:62-92 | one scanned file: marked exactly when all its paths are gone, otherwise the tables are as they were and only its own paths inside the root may be missing |
| `Maintenance.Cleaner.DeletePaths` | internal/maintenance/cleaner.go:65-79 | deletes exactly the listed paths in order up to the first one outside the root or that cannot be deleted, and what is left on disk then |
| `Maintenance.PassMakesNothingDue` | internal/postgres/store.go:2574-2613 | marking files expired makes no other file due for cleanup |
| `DueFiles.ExpirableIff` | internal/postgres/store.go:2498-2530 | the scan's condition comes to two: past its date, or available, with a receiver through the node, every such receiver DELIVERED or READ, and every completion time among them, of which there is one, 24 hours back |
| `ChunkMath.ExpectedSizesAddUp` | internal/filetransfer/service.go:271-279 | for the count the request validator accepts, the expected chunk sizes add up to the file size |
| `ChunkMath.AcceptedCountIffChunksFit` | internal/transfer/service.go:459-465 | the validator's count is the only one for which every expected chunk is non-empty and fits the chunk size, zero for the empty file only |
| `ChunkStore.StepKeepsFiles` | internal/postgres/store.go:2023-2051 | no step of any upload, completion or cleaner changes a file but for its status, and uploading never starts again |
| `ChunkStore.RecordedChunksAreStored` | internal/filetransfer/service.go:87-152 | in every interleaving, the path of every recorded chunk of a file cleanup has not picked exists with the recorded size and digest |
| `ChunkStore.UploadOutcomes` | internal/filetransfer/service.go:144-152 | an upload that answered success has its digest on record, and a failed upload's removal hits no recorded path |
| `Orphans.ChunksAreTracked` | internal/filetransfer/service.go:136-152 | in every interleaving, a chunk on disk of a file cleanup has not picked is on record or held by an upload that will still record or remove it |
| `Orphans.NoTemporaryIsLeft` | internal/filetransfer/service.go:106-144 | in every interleaving a temporary file belongs to an upload that has written it and neither renamed nor dropped it: no call leaves one behind, however it ends |
| `Orphans.MarkLeaksIff` | internal/maintenance/cleaner.go:60-92 | marking a file leaves behind untracked exactly those of its chunks that are still on disk then and in the hands of no upload |
| `Orphans.LateChunkLeaks` | internal/maintenance/cleaner.go:60-92 | an upload that records its chunk between the cleaner's scan and mark leaves it on disk, tracked by nobody |
| `Completions.BodiesAreExact` | internal/filetransfer/service.go:206-262 | in every interleaving whatsoever, the body on disk of a file cleanup has not picked is a concatenation of pieces that match its recorded chunks in order, with the declared digest and length |
| `Completions.BodySurvivesIff` | internal/filetransfer/service.go:248-262 | with no completion of an available file under way, its body is on disk, whole, exactly when one single call ever published it |
| `Completions.PublishedFileIsExact` | internal/filetransfer/service.go:206-262 | in every interleaving with one completion of this file at a time, whatever other files do, an available file has its body on disk, with the declared digest and length |
| `Completions.PublishedFileIsItsChunks` | internal/filetransfer/service.go:206-262 | if no two bodies written in the run share a digest, the body on disk is the concatenation of the stored chunk bodies |
| `Completions.RecordKeepsTheBodyIff` | internal/filetransfer/service.go:254-262 | recording a published call on a whole file leaves it whole exactly when the file is still uploading |
| `Completions.BothPublishedLoseTheBody` | internal/filetransfer/service.go:254-262 | any two calls that have both published a file leave it available without a body, whatever its content |
| `Completions.OverlappingCompletionsLoseTheBody` | internal/filetransfer/service.go:254-262 | such calls are reachable: two overlapping completions from the empty state end so |
| `FileService.ChunkService.UploadChunk` | internal/filetransfer/service.go:75-157 | on a free position the chunk is stored and recorded exactly when user, device, file, node route, position, length and digest are in order; on a recorded one the same digest is answered with the record and another one with a conflict, and nothing changes |
| `FileService.ChunkService.UploadAgain` | internal/filetransfer/service.go:91-95 | a chunk uploaded successfully and then offered again, with whatever bytes under the same digest, is answered with the same record, and disk and rows stay as they were |
| `FileService.ChunkService.ListRows` | internal/postgres/store.go:2085-2101 | the recorded rows of a file, all of them, in index order |
| `FileService.ChunkService.Assemble` | internal/filetransfer/service.go:224-241 | the rows' bytes in order, refused at the first row out of place or damaged |
| `FileService.ChunkService.Complete` | internal/filetransfer/service.go:186-269 | succeeds exactly when the sending device asks and the file is available or every chunk is recorded and the concatenation has the declared digest; publishes exactly that, of the declared length; otherwise the error says which of these is missing |
| `FileService.RowsFillPositions` | internal/filetransfer/service.go:206-230 | there are as many rows as the file has chunks exactly when every position is recorded, and then row i is chunk i |
| `Sequential.UploadAlone` | internal/filetransfer/service.go:96-157 | the steps of one upload with nothing in between: with the declared digest the bytes end under the chunk's path and on record and nothing else changes; with another nothing is left of the call |
| `Sequential.CompletionAlone` | internal/filetransfer/service.go:186-269 | the steps of one completion with nothing in between: the concatenation is published and the file available if the digest is the declared one, else nothing is left of the call |
| `Splitting.BuildManifest` | internal/filetransfer/manifest.go:27-59 | the reading loop yields the manifest of the whole input, or the error for a bad chunk size or a failing reader |
| `Splitting.ManifestMeetsTheServer` | internal/filetransfer/manifest.go:27-59 | a manifest has the count and the chunk sizes the server demands, for every file and chunk size |
| `Splitting.ManifestAcceptsItsPieces` | internal/filetransfer/manifest.go:61-81 | a manifest accepts its own file and pieces, and a piece only at its position with its length and digest |
| `Splitting.VerifiedPiecesHaveTheLength` | internal/filetransfer/manifest.go:61-67 | pieces that all verify add up to the declared length |
| `Splitting.CopyInto` | web/src/crypto.ts:84 | a typed-array set writes the source at the position and leaves the rest |
| `Splitting.Join` | web/src/crypto.ts:81-84 | the buffer filled at a moving position is the concatenation of the parts |
| `Splitting.EncryptFile` | web/src/crypto.ts:68-96 | the offset loop yields one sealed piece per plaintext chunk and the record describing them |
| `Splitting.EncryptFiles` | web/src/crypto.ts:63-104 | every file is cut, sealed and described on its own |
| `Splitting.DecryptFileChunks` | web/src/crypto.ts:114-124 | succeeds exactly when every piece is long enough and opens, with the plaintexts in order |
| `Splitting.EncryptedFileIsAccepted` | web/src/crypto.ts:85-96 | the server's request validation accepts every record the browser declares, and every uploaded piece has the expected size |
| `Splitting.DecryptUndoesEncrypt` | web/src/crypto.ts:114-124 | decrypting the uploaded pieces restores the file, whatever nonces were drawn |
| `Splitting.ManifestOfPublishedFileHasThePieces` | internal/filetransfer/manifest.go:27-59 | a manifest of the published ciphertext has exactly the uploaded pieces, size and digest |
| `Presence.Hub.Register` | internal/presence/hub.go:246-258 | the new connection replaces the entry and the previous one is returned for cancelling |
| `Presence.Hub.Unregister` | internal/presence/hub.go:260-269 | removes the entry exactly when it is still this connection's |
| `Presence.ReplacedConnectionTouchesNothing` | internal/presence/hub.go:113-121 | in every interleaving, no step of a replaced connection changes the hub or a presence row |
| `Presence.HeartbeatEndsIff` | internal/presence/hub.go:138-155 | in every run a heartbeat ends a reading connection exactly when its row was lost or another connection of the device took its place |
| `Presence.ReplacedConnectionFinishes` | internal/presence/hub.go:246-269 | a replaced connection is finished after its next heartbeat and its unregistration, whatever comes in between |
| `Presence.EntryLeavesByItsOwner` | internal/presence/hub.go:246-269 | an entry changes only by a later registration of the same device or its own connection's unregistration |
| `Presence.FinishedDeviceIff` | internal/presence/hub.go:107-121 | once every connection of a device has finished, the hub does not list it, and its row is disconnected exactly when it never was connected or some disconnect write since its last connect succeeded |
| `Presence.NobodyLeftMeansDisconnected` | internal/presence/hub.go:107-121 | if a device's own disconnect writes succeed, then once all its connections have finished the hub does not list it and its row is disconnected |
| `Presence.LostDisconnectLeavesTheRow` | internal/presence/hub.go:116-120 | the failing case is reachable: a failed disconnect write, which the code ignores, leaves the row connected with nobody connected |
| `Presence.CurrentRowStaysIff` | internal/postgres/store.go:2149-2200 | the listed connection's row stays connected exactly when it is connected now and no earlier connection still has its disconnect to write |
| `Presence.LiveConnectionLosesItsRow` | internal/postgres/store.go:2149-2200 | the failing case is reachable: a connection registers before its predecessor's disconnect is written and is left live with a disconnected row |
| `Presence.LostRowLeavesTheHub` | internal/postgres/store.go:2173-2188 | in every interleaving, a listed connection whose row is disconnected is out of the hub for good once it has sent its next heartbeat and unregistered |
| `Realtime.Subscription.Connect` | web/src/realtime.ts:43-51 | connects, or schedules a reconnect without a URL, or does nothing when stopped |
| `Realtime.Subscription.OnMessage` | web/src/realtime.ts:53-75 | what each message sends, reports and schedules |
| `Realtime.EveryMessageIsAnswered` | web/src/realtime.ts:53-75 | in every run each notification that arrives is acknowledged and shown, once and in order, and each known message refreshes the view once |
| `Realtime.GreetingStartsTheHeartbeat` | web/src/realtime.ts:56-63 | a greeting on an open socket starts a heartbeat that replaces any earlier one |
| `Realtime.Subscription.OnClose` | web/src/realtime.ts:76-80 | reports offline, clears the heartbeat and reconnects unless stopped |
| `Realtime.Subscription.Stop` | web/src/realtime.ts:84-92 | clears both timers, detaches and closes the socket |
| `Realtime.TimersAreUnique` | web/src/realtime.ts:37-93 | in every event run, handlers that unsubscribe from inside a call included, at most one interval and one timeout are live; until stopped there is a live socket or a pending reconnect, never both; the last report is online exactly from the open event of the socket to its close event |
| `Realtime.StoppedIsQuietIff` | web/src/realtime.ts:43-93 | a stopped client never has a live timer exactly when no handler unsubscribes from inside the report of a missing URL or the refresh of a connected message |
| `Realtime.HandlersLeaveTimers` | web/src/realtime.ts:43-70 | both do leave one: the reconnect timeout, and the heartbeat interval |
| `Realtime.StoppedStaysSilent` | web/src/realtime.ts:43-93 | from a stopped client without timers on, however it was stopped, no timer is set, no socket is opened and no handler is called |
| `Realtime.NothingAfterUnsubscribe` | web/src/realtime.ts:84-92 | after unsubscribing from outside the handlers no timer is live, no socket is opened and no handler is called, whatever events follow |
| `Paging.Page` | internal/messagelifecycle/lifecycle.go:84-110 | the loop returns the first messages of the sorted rest after the cursor, and a cursor only for a full page |
| `Paging.ListTransferPage` | internal/postgres/store.go:1445-1507 | the look-ahead page over the visible tasks, refused outside 1..100 |
| `Paging.SortedIsDescending` | internal/messagelifecycle/lifecycle.go:88-94 | sorting by time and identifier is strictly descending and keeps the messages, for distinct keys |
| `Paging.RestRunsFromTheLatest` | internal/messagelifecycle/lifecycle.go:89-94 | what is listed runs from the latest time to the earliest, with later identifiers first at one time, character by character |
| `Paging.RestIff` | internal/messagelifecycle/lifecycle.go:96-99 | what is listed after a cursor is exactly what comes before it in time, or at its time under a smaller identifier; everything without a cursor |
| `Paging.LimitApplies` | internal/messagelifecycle/lifecycle.go:85-87 | limits from 1 to 1000 are kept and any other is 100 |
| `Paging.FilteredIff` | internal/postgres/store.go:1445-1507 | the visible tasks are listed as often as they are there, and no others |
| `Paging.ReadingMovesForwards` | internal/messagelifecycle/lifecycle.go:117-122 | the read cursor moves to a later time, or at one time to a larger identifier, and never back |
| `Lex.LessIff` | internal/messagelifecycle/lifecycle.go:93 | identifiers compare by their first difference: the smaller character or the shorter string |
| `Paging.WalkListsEverythingOnce` | internal/messagelifecycle/lifecycle.go:84-110 | n calls list exactly the first n pages of the list as it was, each message once in order, however the list grew ahead of the cursor, and end exactly when all are listed |
| `Paging.WalkFromTheStart` | internal/messagelifecycle/lifecycle.go:84-110 | from the empty cursor: the initial messages, sorted, all of them when the walk ends |
| `Paging.BothFormsWalkTheSameList` | internal/postgres/store.go:1460-1506 | the look-ahead form lists the same messages and ends one call earlier when the pages are full |
| `Paging.NextPageFollowsIff` | internal/messagelifecycle/lifecycle.go:98-109 | the next page follows the last exactly when the last message has a time; otherwise the cursor starts over |
| `Paging.ReadCursorIsTheLatest` | internal/messagelifecycle/lifecycle.go:117-122 | after any reports the read cursor is the latest position seen |
| `Paging.ReadReportsCommute` | internal/messagelifecycle/lifecycle.go:117-122 | neither the order nor the repetition of read reports matters |
| `FolderPaths.NormalizePath` | internal/folder/manifest.go:121-140 | the checking loop decides every path as the specification does |
| `FolderPaths.TraversalIff` | internal/folder/manifest.go:125-132 | traversal is reported exactly for an absolute or drive path, or one whose walk climbs above the root or ends on it |
| `FolderPaths.NormalizedIsClean` | internal/folder/manifest.go:121-140 | a normalised path is relative, has only good segments, and its depth is its segment count and where the walk along the input ends |
| `FolderPaths.AcceptedPathIff` | internal/folder/manifest.go:121-140 | a path is accepted exactly when it is relative, not drive-qualified, never leaves the root, does not end at it, and cleaning leaves good names only; those are the result |
| `FolderPaths.BackslashIsSlash` | internal/folder/manifest.go:125 | replacing a backslash by a slash never changes the result |
| `FolderPaths.GoodSegmentIff` | internal/folder/manifest.go:135 | a good name is neither empty nor a dot or two, ends in neither a space nor a dot, and its part before the first dot is no Windows device in any case |
| `FolderPaths.DotsDoNotMatter` | internal/folder/manifest.go:129 | empty and single-dot elements can be left out anywhere without changing the cleaned path |
| `FolderPaths.NameAndDotsCancel` | internal/folder/manifest.go:129 | a name and the double dot after it can be left out anywhere without changing the cleaned path |
| `FolderPaths.NormalizeAgainIff` | internal/folder/manifest.go:126-139 | normalising a normalised path gives it back exactly when it is not drive-qualified, and refuses it otherwise |
| `FolderPaths.HiddenDrive` | internal/folder/manifest.go:126-139 | such a path exists: ./c:/x is accepted as c:/x, which is refused |
| `FolderManifest.Validate` | internal/folder/manifest.go:69-119 | the loop with its map and totals accepts and refuses with the same error as the entry-by-entry specification |
| `FolderManifest.CountEntry` | internal/folder/manifest.go:95-111 | the checks by entry type, the new total and the error |
| `FolderManifest.AcceptedIff` | internal/folder/manifest.go:69-119 | a manifest is accepted exactly when its header, every entry, the distinctness of its folded paths and both totals are in order, whatever the order of the entries |
| `FolderManifest.RefusedFor` | internal/folder/manifest.go:79-117 | which error an entry is refused with when all before it were fine, in the order of the checks and with the totals as sums over the entries |
| `FolderManifest.RefusedHeader` | internal/folder/manifest.go:71-74 | which manifests are refused for their header |
| `FolderManifest.GoodFieldsIff` | internal/folder/manifest.go:96-111 | a directory carries no size, digest or file; a file has a size, a file and a digest of 64 lower-case hex digits; there is no third kind |
| `FolderManifest.TrimIs` | internal/folder/manifest.go:71 | trimming cuts the spaces at both ends and nothing else |
| `FolderManifest.LimitsApply` | internal/folder/manifest.go:50-67 | the five limits where none is given |
| `FolderManifest.OutputIsSafe` | internal/folder/manifest.go:69-119 | the output's paths are clean, within the depth limit and pairwise distinct when folded, and its total is within the limit |
| `FolderManifest.TotalNeverOverflows` | internal/folder/manifest.go:103-106 | at every entry the loop reaches, of manifests accepted or refused, with 64-bit sizes and limits: the running total, the compared difference and any total let through fit 64 bits |
| `FolderManifest.ValidateAgainIff` | internal/folder/manifest.go:69-119 | validating the output again accepts it unchanged exactly when none of its paths is drive-qualified |
| `FolderSelect.Select` | internal/folder/manifest.go:142-165 | the loops collect the accepted paths and all directories above them, and keep the matching entries in path order |
| `FolderSelect.Above` | internal/folder/manifest.go:151-153 | walking up from a path visits exactly its proper ancestors |
| `FolderSelect.SelectionIsClosed` | internal/folder/manifest.go:155-163 | each entry is selected as often as it is listed or not at all; with a path go the listed directories above it |
| `FolderSelect.DirectoriesComeFirst` | internal/folder/manifest.go:164 | a directory is listed before everything below it |
| `RateLimit.FixedWindowLimiter.Allow` | internal/api/rate_limit.go:28-39 | one call moves only its key's window and answers from it |
| `RateLimit.OtherKeysDoNotMatter` | internal/api/rate_limit.go:28-39 | calls on other keys never change the answers for this one |
| `RateLimit.MinuteLetsThroughLessThanTwice` | internal/api/rate_limit.go:28-39 | in every run with a clock that never goes back, any half-open minute lets through at most 2*limit - 1 calls of a key |
| `RateLimit.BoundIsAttained` | internal/api/rate_limit.go:28-39 | for every positive limit some calls reach that number |
| `RateLimit.WindowLetsThroughItsSlots` | internal/api/rate_limit.go:32-38 | within one window at most the limit is allowed |
| `RateLimit.WaitingSuffices` | internal/api/rate_limit.go:38 | a caller that waits as long as the limiter says and comes back first is allowed |
| `RateLimit.HeaderSufficesIff` | internal/api/rate_limit.go:57-70 | waiting as long as the Retry-After header says suffices exactly when no fraction of a second was dropped or less than a second was left |
| `RateLimit.HeaderMisleads` | internal/api/rate_limit.go:57-70 | the failing case is reachable: a caller refused by the second of two calls comes back when the header says and is refused again |
| `Adaptive.Bounded` | internal/adaptive/profile.go:84-94 | the two shrinking loops end in the bounded profile of the specification |
| `Adaptive.Recommend` | internal/adaptive/profile.go:55-82 | the switch and the small-file rule end in the recommended profile of the specification |
| `Adaptive.FitParallelIsLargest` | internal/adaptive/profile.go:87-89 | the first loop stops at the largest parallel count that fits the budget, or one |
| `Adaptive.RecommendationIsInBounds` | internal/adaptive/profile.go:55-94 | for all limits, profiles and observations the recommendation respects the chunk, parallel and memory bounds, and a small file's own bound |
| `Adaptive.ChunkWithinMaximumIff` | internal/adaptive/profile.go:17-31 | the chunk is within the maximum for every input exactly when normalising leaves the minimum at or below it, which a minimum above 32 MiB with a lower maximum does not |
| `Adaptive.UnstableHalvesExactly` | internal/adaptive/profile.go:65-67 | k unstable observations on a file that is not small give exactly (max(Min, chunk/2^k), max(1, parallel-k)) |
| `Adaptive.UnstableReachesTheFloor` | internal/adaptive/profile.go:65-67 | so the minimum and one are reached after logarithmically or linearly many |
| `Adaptive.ReactsAs` | internal/adaptive/profile.go:62-94 | for every profile to go on, file and limits: trouble halves and takes one, pressure asks for one chunk of at most 4 MiB, a fast link doubles and adds one, a fair one raises to 8 MiB, anything else changes nothing; a small file goes one chunk at a time, no larger than itself or the minimum; cut down to the bounds, then to as many chunks as memory holds, then to a chunk halved as often as it takes |
| `Adaptive.FastDoublesExactly` | internal/adaptive/profile.go:69-71 | k fast observations give exactly (min(Max, chunk*2^k), min(Parallel, parallel+k)) when memory allows the largest profile |
| `Adaptive.StartsModestly` | internal/adaptive/profile.go:50-60 | without a usable profile it starts from two chunks of 4 MiB, cut down to the limits in the same way |
| `Adaptive.DefaultsApply` | internal/adaptive/profile.go:17-31 | the limits where those given make no sense |
| `Adaptive.HalvedAsNeeded` | internal/adaptive/profile.go:90-92 | a chunk too large for memory is halved exactly as often as it takes |
| `Adaptive.ProductsFit` | internal/adaptive/profile.go:55-94 | under explicit limits no product of the code leaves 64 bits, the memory product of the adjusted profile included |
| `Recovery.Coordinator.RunOnce` | internal/recovery/coordinator.go:96-163 | one pass makes exactly the specified store calls, in order, and returns their report, stopping at the first error |
| `Recovery.Coordinator.Attempt` | internal/recovery/coordinator.go:117-152 | one attempt: resume, classify, count and mark |
| `Recovery.ReportAgreesWithTheCalls` | internal/recovery/coordinator.go:96-163 | at every return each counter is the number of calls it stands for, and Leased = Completed + Waiting + Repaired + DeadLetters <= Scanned |
| `Recovery.LeasedItemsAreMarkedAndReleased` | internal/recovery/coordinator.go:109-160 | every leased item is resumed, marked once and then released once; only a failing store call cuts this short, and then the pass ends there |
| `Recovery.PassFailsIff` | internal/recovery/coordinator.go:110-160 | the pass returns an error exactly when the store refuses one of its calls, and that call is its last |
| `Recovery.UnclassifiedMeansCompleted` | internal/recovery/coordinator.go:165-168 | an attempt is unclassified exactly when it completed without error, so the unclassified error is unreachable |
| `Recovery.ClassifiedIff` | internal/recovery/coordinator.go:165-189 | each class by what was observed, the first that applies deciding: done, receiver away, out of step, stale lock, passing trouble, dead |
| `Recovery.MarkedAs` | internal/recovery/coordinator.go:120-153 | the mark each attempt ends in, with its time and code |
| `Recovery.TakenUpIff` | internal/recovery/coordinator.go:106-119 | an item is taken up, by asking for a lease, exactly when it names transfer and target and its time has come, and resumed exactly when the lease is granted |
| `Recovery.BackoffIsDoubling` | internal/recovery/coordinator.go:191-207 | the wait is the base doubled per retry, up to twenty times, plus less than a second, capped at the maximum, product and sum as 64-bit arithmetic leaves them, and exactly so where the largest doubling fits |
| `Recovery.DefaultsApply` | internal/recovery/coordinator.go:60-74 | the configuration where what is given makes no sense |
| `Recovery.DeadLettersIff` | internal/recovery/coordinator.go:165-189 | exactly which attempts end in the dead letters; waiting and reconciling items never do |
| `Recovery.BackoffIsWellBehavedIff` | internal/recovery/coordinator.go:191-207 | for every count and jitter the backoff is positive, at most the maximum and non-decreasing, exactly when the largest doubling and sum fit 64 bits |
| `Recovery.PostponedIntoTheFuture` | internal/recovery/coordinator.go:117-152 | a postponed item comes back later than now unless it is retried at once, and within the larger configured delay |
| `Metrics.NormalizeLabels` | internal/monitoring/metrics_contract.go:84-105 | whatever order the map is visited in: succeeds exactly when every label is bounded, with one entry per canonical name |
| `Metrics.ValueStandsFor` | internal/monitoring/metrics_contract.go:94-104 | a listed value stands for itself once trimmed; of the others an error code is OTHER, a status UNKNOWN, and any other label is refused |
| `Metrics.NormalFormIsUnique` | internal/monitoring/metrics_contract.go:84-105 | the visiting order does not matter when no two labels share a canonical name |
| `Metrics.MetricKey` | internal/monitoring/metrics_contract.go:192-207 | the key built from an unordered map is the one over the sorted labels |
| `Metrics.KeyIsInjective` | internal/monitoring/metrics_contract.go:192-207 | distinct series never share a key |
| `Metrics.Registry.Prepare` | internal/monitoring/metrics_contract.go:172-190 | succeeds exactly for a known metric with bounded values for exactly its labels |
| `Metrics.Registry.Record` | internal/monitoring/metrics_contract.go:152-170 | accepts exactly counters and summaries with acceptable labels, and keeps the samples the replay of the accepted calls |
| `Metrics.Registry.Set` | internal/monitoring/metrics_contract.go:138-150 | accepts exactly gauges with acceptable labels, and keeps the samples the replay of the accepted calls |
| `Metrics.SamplesAgreeWithTheLog` | internal/monitoring/metrics_contract.go:130-170 | after any accepted calls a series exists exactly when it was called, with their number and sum, or for a gauge the last value |
| `Metrics.SeriesStayBounded` | internal/monitoring/metrics_contract.go:172-207 | the series never outnumber the sum over the metrics of the products of their label value counts |
| `MetricTables.OperationalIsProper` | internal/monitoring/metrics_contract.go:26-73 | the server's own tables meet what these guarantees need |
| `MetricTables.OperationalSeriesBound` | internal/monitoring/metrics_contract.go:26-73 | the server's registry never holds more than 3060 series |

## Left out

- Groups, timeline, route history, delivery_status and notification rows: written beside the modelled rows and read by none of the modelled transactions; a transfer of a deleted group, which several transactions refuse, does not occur.
- Messages, content keys and the rendering of a transfer: the reply of a transaction carries the task's status and its targets, not files, content, keys or executions.
- ResolveTransferTargets: the resolved devices are a parameter, so device trust and group membership are not modelled.
- Transient database failures: a transaction succeeds, refuses or rolls back; the code's cleanup does not tell a lost connection from a conflict.
- Store.TransferStore.EnforceTransferQuotas: the files of a request are measured in no particular order, so a request both oversized and overflowing may report either error; the settings row is a parameter and is assumed present.
- Quotas.RunStaysWithinQuotas: needs fixed settings and requests at non-decreasing times; lowering a limit below the present usage breaks the claim at once.
- Aggregate.RunKeepsSummaryIff: the summary is one-directional, because reading a transfer does not update its task.
- Limits.EveryoneStaysWithin: an owner with nothing stored is within any limit, a negative one included.
- Ledger.ReportedTaskIff: needs the task to have been a summary before, which RunKeepsSummaryIff decides.
- TargetHistory.TerminalTargetsAreFrozen: completions and expiries are excluded, because both overwrite settled targets.
- Completions.PublishedFileIsItsChunks: needs the digest to tell the written bodies apart; without that the pieces match the recorded digests and sizes only (BodiesAreExact).
- ChunkStore.RecordedChunksAreStored: recording a chunk fails only by conflict, and files the cleaner has picked are exempt.
- FileService.ChunkService.UploadChunk: who sends a file and whether some receiver uses the node are parameters of the service, and the limited reader is the body itself.
- Removal of emptied directories and the resolution of symbolic links by the cleaner: best effort in the code; which paths lie under the root is a parameter.
- Splitting.EncryptedFileIsAccepted: what the server cannot see, secrecy and integrity of the cipher, is not a subject; the AEAD is a pair of functions of which only the length and open-after-seal are known.
- Splitting.BuildManifest: digests are taken of the bytes at once, not incrementally.
- Presence: the capability negotiation, message queue and notification polling of a connection only decide when it leaves.
- Realtime.Subscription.Connect: a handler unsubscribes from inside a call at most once per event, and not from inside the call unsubscribing itself makes, which would not end; a constructor that throws for a malformed URL is not modelled.
- Paging.ListTransferPage: which tasks are visible, by owner, date, status and hiding, is one predicate, the same for all calls of a walk; the items are the keys.
- Signed cursors, tombstones and retention: encoding and authentication code.
- FolderManifest.Validate: trimming the root name knows the ASCII spaces; lower-casing is a parameter.
- FolderPaths.NormalizePath: path cleaning follows the documented rules of the library function rather than its byte loop.
- Adaptive.Recommend: rates are real numbers, so rounding is not modelled, nor is not-a-number.
- Orphans.ChunksAreTracked: files the cleaner has picked are exempt, because LateChunkLeaks shows the claim false for them.
- Adaptive.ProductsFit: the bounds are explicit; beyond them the code's products can overflow.
- Recovery.Coordinator.RunOnce: the listing of recoverable items, its limit and its failure are not modelled, the items are a parameter; retry counts are non-negative, as a negative shift stops the program; the store and the runner answer per item from a table of any answers.
- Metrics.NormalizeLabels: with two labels of one canonical name the code keeps whichever it visits last, and the contract allows either.
- Metrics.Registry.Record: values are real numbers, so floating-point sums are not modelled.
- The text form in which metrics are served, HTTP handlers, JSON, logging, the desktop and mobile shells and the React views: input and output around the modelled parts.
- Route ranking beyond SelectRoute, relay, pairing, enrollment, backup and analytics: short selections or interfaces that would only add easy members.
- Liveness: PAUSED, WAITING_FOR_TARGET and WAITING_FOR_NODE have no outgoing edge in the transition table, so no progress is claimed.
