# Durable protocol cores

A Dafny model of the collaboration runtime's durable cores and proofs of what they keep. Each protocol is
written twice: as functions from one stored state to the next, on which properties over whole runs are
proved, and as classes whose methods change the stored fields step by step, as the runtime does, each
proved equal to those functions.

| area | files | what it models |
|---|---|---|
| attachments | `Attachments`, `AttachmentInvariants`, `AttachmentRuns`, `AttachmentStore`, `AttachmentUpload`, `AttachmentRoundTrip`, `AttachmentShared`, `AttachmentFinalize`, `AttachmentFinalizer`, `AttachmentFacade` | reservations, leases, the chunk frontier, receipts, pinning, quotas; the HTTP re-chunking loop; racing finalizers; the client's plan and completion calls |
| events | `EventLog`, `EventReplay`, `EventStore`, `EventFairness` | committed intents, the numbered stream, purges, cursor replay, the rotating publisher |
| native driver | `DriverJournal`, `DriverStore`, `JsonRpc`, `JsonRpcClient` | the journal of native operations under crashes; the JSONL transport under partial writes |
| messages | `Escalation`, `ObstacleNotices`, `ObstacleBoard`, `WaitIngress`, `Utf8`, `MessagePaging`, `ListingPages`, `Conversations`, `NoticePages` | manager links and obstacle notices, wait selection against native dispatch, byte-budget paging, snapshot-stable listings |
| private and shared rows | `NativeLinks`, `PersonalState`, `UnreadCounts` | compare-and-set writes with receipts and history |
| bounded checks | `JsonScanner`, `Evidence`, `Png`, `Webp`, `Gif`, `ClientContracts` | the JSON pre-scan, the PNG, WebP and GIF walks, the reference and size checks of client contracts |

A transaction is one step; a run is any sequence of steps, so every interleaving and every crash between
two transactions is covered. Clock readings, random tokens, digests, CRC-32, ciphers, and the verdicts of
authorization, content validation and enrolment look-ups are parameters. Where a property needs that two different
requests never share a digest, it says so (`CollisionFree`).

Two claims one might expect of the driver journal are false of the code and are refuted by concrete runs:
that a binding has at most one unresolved operation, and that a deferred row never wrote. Each has its exact
condition: `DriverJournal.OneUnresolvedUnlessOvertaken` and `DriverJournal.DeferredCleanUnlessRerunWrites`.

`dafny verify dfyconfig.toml` checks the whole project.

## Model

| member | source | states |
|---|---|---|
| AttachmentRuns.ReachableStates | runtime/communication_attachment_storage.py:177-194 | after any sequence of storage transactions from the empty store, every row satisfies the integrity conditions; staged chunks exist only in reserved or uploaded rows, belong to the current generation, and the k-th lies at k times the chunk size, so that they tile [0, received); uploaded and ready rows have full length and the declared hash; both quotas hold |
| AttachmentRuns.NeverCorrupt | runtime/communication_attachment_storage.py:197-207 | in a reachable state no load, and no read of an uploaded body, ever reports corruption |
| AttachmentRuns.TriggerNeverFires | runtime/communication_attachment_schema.sql:57-70 | every step changes a row at most once, by the one revision and within the columns the immutability trigger allows |
| AttachmentRuns.PinnedForever | runtime/communication_attachment_storage.py:534-568 | a pinned row stays ready, unexpired and pinned under every later sequence of transactions, expiry sweeps included |
| AttachmentRuns.StaleLease | runtime/communication_attachment_storage.py:246-250 | a holder of an older generation's lease changes nothing by append, complete or publish, whatever the clock says |
| AttachmentRuns.RestartSupersedes | runtime/communication_attachment_storage.py:333-358 | a granted restart empties the row, gives a lease that holds from that moment, and every lease that held the row before holds it at no time after |
| AttachmentRuns.RetryReplays | runtime/communication_attachment_storage.py:253-275 | an exact retry of any receipted transaction, after any other transactions and at any later time, returns the original outcome and writes nothing |
| AttachmentRuns.PublishedAtMostOnce | runtime/communication_attachment_storage.py:448-471 | over every run a row moves from uploaded to ready at most once |
| AttachmentRuns.SweepsNeverPublish | runtime/communication_attachment_storage.py:584-602 | no association or expiry sweep ever makes a row ready |
| AttachmentRuns.OthersNeverPublish | runtime/communication_attachment_storage.py:448-471 | no transaction other than publication makes a row ready |
| AttachmentRuns.ReadyOnlyFromVerifiedBytes | runtime/communication_attachment_storage.py:388-403 | a row becomes ready only when its staged chunks concatenate to a body of the declared length and hash |
| AttachmentInvariants.ReserveSound | runtime/communication_attachment_storage.py:302-330 | a reservation keeps the invariant and never passes the viewer's or the project's byte quota |
| AttachmentInvariants.BeginSound | runtime/communication_attachment_storage.py:333-358 | beginning or restarting an upload keeps the invariant; a restart empties the frontier with a new generation |
| AttachmentInvariants.AppendSound | runtime/communication_attachment_storage.py:361-385 | an append keeps the chunk frontier: the stored chunks still tile the received prefix |
| AttachmentInvariants.CompleteSound | runtime/communication_attachment_storage.py:406-425 | completion keeps the invariant: uploaded implies full length and the declared hash |
| AttachmentInvariants.FinishReadySound | runtime/communication_attachment_storage.py:448-471 | publication keeps the invariant and drops the staged bytes of a ready row |
| AttachmentInvariants.RejectSound | runtime/communication_attachment_storage.py:482-500 | rejection keeps the invariant and never touches a ready or pinned row |
| AttachmentInvariants.AssociateSound | runtime/communication_attachment_storage.py:534-568 | associating a message pins exactly its ready rows and keeps the invariant |
| AttachmentInvariants.ExpireSound | runtime/communication_attachment_storage.py:584-602 | an expiry sweep keeps the invariant and skips pinned rows |
| AttachmentStorage.AttachmentStore.ReserveAttachment | runtime/communication_attachment_storage.py:302-330 | the in-place transaction and its answer equal the specification on which the results above are proved, refusals leaving the tables as they were |
| AttachmentStorage.AttachmentStore.BeginUpload | runtime/communication_attachment_storage.py:333-358 | likewise for beginning an upload, with the lease it grants |
| AttachmentStorage.AttachmentStore.AppendChunk | runtime/communication_attachment_storage.py:361-385 | likewise for one chunk: replayed, stored at the frontier, or refused |
| AttachmentStorage.AttachmentStore.ReadBytes | runtime/communication_attachment_storage.py:388-403 | the loop over staged chunks returns exactly the verified body, or the refusal the specification names |
| AttachmentStorage.AttachmentStore.CompleteUpload | runtime/communication_attachment_storage.py:406-425 | likewise for completion, with the second fence after the read |
| AttachmentStorage.AttachmentStore.PublishReady | runtime/communication_attachment_storage.py:448-471 | likewise for publication |
| AttachmentStorage.AttachmentStore.RejectAttachment | runtime/communication_attachment_storage.py:482-500 | likewise for rejection |
| AttachmentStorage.AttachmentStore.AssociateAttachments | runtime/communication_attachment_storage.py:534-568 | likewise for association: all rows pinned, or none |
| AttachmentStorage.AttachmentStore.ExpireStaging | runtime/communication_attachment_storage.py:584-602 | likewise for the expiry sweep and its count |
| AttachmentUpload.CutTiles | runtime/communication_attachment_http.py:128-151 | the chunks cut from a received body follow one another from offset 0 without gap, and their concatenation is a prefix of the body; fewer bytes than a chunk are left over |
| AttachmentUpload.CutShape | runtime/communication_attachment_http.py:139-151 | the k-th chunk starts at k times the chunk size and has the smaller of the chunk size and what is left of the declaration |
| AttachmentUpload.CutWhole | runtime/communication_attachment_http.py:128-151 | a body of the declared length is cut without remainder |
| AttachmentUpload.FillPending | runtime/communication_attachment_http.py:138-143 | every turn of the inner loop moves at least one byte, never overfills the pending chunk, and a full chunk is the next chunk of the whole body |
| AttachmentUpload.FeedPiece | runtime/communication_attachment_http.py:136-151 | one incoming piece, however cut, leaves exactly the chunks of all bytes received so far sent, and the rest pending |
| AttachmentUpload.Upload | runtime/communication_attachment_http.py:128-158 | for every cutting of a body into pieces the loop sends exactly the chunks of the body at offsets 0, C, 2C, ..., counts its bytes, and stops at the first refusal, bad receipt or excess byte |
| AttachmentRoundTrip.EveryChunkAccepted | runtime/communication_attachment_storage.py:361-385 | every chunk the loop sends is accepted in turn under a live lease, including chunks an interrupted upload had already staged, which are answered with their first receipt |
| AttachmentRoundTrip.UploadRoundTrip | runtime/communication_attachment_storage.py:361-403 | appended back to back, a body of the declared length and hash reads back byte for byte and completes; a short or different one stores only whole chunks and is refused; no other row changes |
| AttachmentRoundTrip.CompleteDecides | runtime/communication_attachment_storage.py:406-425 | completion succeeds exactly when the staged bytes verify |
| AttachmentShared.RoundTripAmongOthers | runtime/communication_attachment_storage.py:361-403 | the same with any transactions between the chunks that leave the row alone: every chunk is accepted, and the staged bytes read back as the body exactly when it is the declared one |
| AttachmentShared.SameAsAlone | runtime/communication_attachment_storage.py:361-385 | what an upload is answered and what its row becomes do not depend on what else happens between its chunks |
| AttachmentShared.ElsewhereSpares | runtime/communication_attachment_storage.py:534-602 | any run of transactions that name other rows only leaves this row as it was |
| AttachmentShared.StaleSpares | runtime/communication_attachment_storage.py:246-250 | so does any run of appends, completions and publications under older leases of this very row |
| AttachmentFinalize.SuccessIsReady | runtime/communication_client_attachments.py:227-301 | in every interleaving of any finalizers with any other transactions, a finalizer that returns success reports a ready row; unless digests collide it is the row it asked for, declared and published with exactly the length and hash it asked for |
| AttachmentFinalize.SuccessesAgree | runtime/communication_client_attachments.py:240-301 | finalizers that asked for the same row and succeed report the same row and ready declaration, whatever their request keys, unless digests collide |
| AttachmentFinalize.PublishedOnce | runtime/communication_client_attachments.py:288-291 | however many finalizers with whatever request keys interleave, a row goes from uploaded to ready at most once |
| AttachmentFinalize.InterleaveKept | runtime/communication_client_attachments.py:240-301 | every interleaving of finalizer turns and storage transactions keeps the storage invariant and each finalizer's plan or answer on record |
| AttachmentFinalize.TurnAnswersItsRecord | runtime/communication_client_attachments.py:281-291 | a concluding turn answers with the outcome its transaction recorded, refusals included, or changes nothing |
| AttachmentFinalize.FinalizeRetryReplays | runtime/communication_client_attachments.py:251-257 | an exact retry after any further interleaving is answered from its record and changes nothing |
| AttachmentFinalizer.FinalizerProcess.Begin | runtime/communication_client_attachments.py:244-257 | the plan transaction and result lookup, undone as a whole when either fails, equal the specified turn |
| AttachmentFinalizer.FinalizerProcess.PublishResult | runtime/communication_client_attachments.py:288-291 | publication and its result receipt commit together or not at all |
| AttachmentFinalizer.FinalizerProcess.RefuseResult | runtime/communication_client_attachments.py:281-287 | rejection and its result receipt commit together or not at all |
| AttachmentFinalizer.FinalizerProcess.AdoptReady | runtime/communication_client_attachments.py:227-238 | adopting another finalizer's publication records it under this request's key and never publishes |
| AttachmentFinalizer.FinalizerProcess.Conclude | runtime/communication_client_attachments.py:281-292 | the concluding turn of the process equals the specified turn |
| AttachmentFinalizer.FinalizerProcess.Reconcile | runtime/communication_client_attachments.py:292-301 | the look-up before reading and after a conflict equals the specified turn |
| AttachmentFinalizer.FinalizerProcess.ReadBody | runtime/communication_attachment_storage.py:428-436 | reading the uploaded body under the lease before and after equals the specification |
| AttachmentFacade.FirstPlanIsFresh | runtime/communication_client_attachments.py:168-187 | the first plan of a request captures a lease, held from that moment, of a new generation on a reserved, emptied row, at that row's own revision |
| AttachmentFacade.CompletionConcludes | runtime/communication_client_attachments.py:197-212 | a first completion, accepted or rejected, leaves its outcome on record and answers with it |
| AttachmentFacade.UploadDecides | runtime/communication_client_attachments.py:197-219 | from the first byte, or the first one missing after an interruption, to the answer, with any transactions in between that leave the row alone: a body with the declared length and hash ends as an uploaded row that reads back byte for byte, any other as a rejected reservation with nothing staged; the completion changes no other row |
| AttachmentFacade.RepeatedCompletion | runtime/communication_client_attachments.py:213-219 | completing the same request again, at any later time, gives the same answer for the same bytes, a conflict for other bytes, and writes nothing |
| AttachmentFacade.PlanUpload | runtime/communication_client_attachments.py:168-187 | the plan transaction, rolled back as a whole, equals the specification |
| AttachmentFacade.ConcludeUpload | runtime/communication_client_attachments.py:197-219 | the concluding transaction, rolled back as a whole, and its answer equal the specification |
| EventLog.ReachableLogs | runtime/communication_event_storage.py:97-114 | under any interleaving of commits, publications of any unlocked pending rows and purges: the stream is exactly the published history above the retained boundary with dense sequences, every record equals its source intent, and a published intent is retained or was purged |
| EventLog.PublishedAtMostOnce | runtime/communication_event_storage.py:177-194 | each intent, and each source key, is published at most once over a whole run |
| EventLog.RunKeeps | runtime/communication_event_storage.py:177-194 | continuing a run extends the published history and never rewrites it: a sequence, once given, names the same fact for ever |
| EventLog.LaterAboveSnapshot | runtime/communication_event_storage.py:177-200 | an intent unpublished at a snapshot with high water H, whenever it was drawn or committed, is numbered above H |
| EventLog.PurgeRemovesOldPrefix | runtime/communication_event_storage.py:222-240 | a purge deletes a prefix of at most limit records, all published before the cutoff, stops early only at the limit or at a record young enough, and moves the boundary by exactly what it deleted |
| EventLog.CommitKeeps | runtime/communication_event_storage.py:142-169 | committing a repeated or conflicting source key changes nothing, a new one keeps keys unique |
| EventLog.BacklogDrains | runtime/communication_event_storage.py:177-194 | with nothing locked and nothing new, k passes leave exactly max(0, backlog - k * limit) pending intents |
| EventReplay.BatchExact | runtime/communication_client_events.py:183-208 | a batch from a cursor holds exactly the matching visible records of the next limit published ones; it fails exactly when the token or the history behind it expired, and says so; no more than the high water is skipped |
| EventReplay.ResumeFromEvent | runtime/communication_client_events.py:199-205 | the cursor sealed into an emitted event stands right after that event: replay from it continues without gap or repetition |
| EventReplay.ReaderExact | runtime/communication_client_events.py:183-208 | a reader following cursors while facts are committed, published and purged between its batches has received exactly the matching visible subsequence up to its cursor, and can only ever be stopped by an expiry notice |
| EventReplay.CursorBound | runtime/communication_client_events.py:105-122 | a cursor sealed for one stream, authorization and filter is refused under any other |
| EventStorage.EventStore.CommitFact | runtime/communication_event_storage.py:142-169 | the insert with its conflict rule equals the specification |
| EventStorage.EventStore.PublishIntents | runtime/communication_event_storage.py:177-194 | the selecting and numbering loops equal the specified publication |
| EventStorage.EventStore.ReadRecords | runtime/communication_event_storage.py:203-219 | the boundary checks and the bounded read equal the specification |
| EventStorage.EventStore.PurgeRecords | runtime/communication_event_storage.py:222-240 | the retention floor, bounded candidates and deletion equal the specification |
| EventStorage.EventStore.NextBatch | runtime/communication_client_events.py:183-208 | the filtering loop emits exactly the specified batch, re-sealing a cursor at each event and at the end |
| EventFairness.Rotor.Pass | runtime/communication_event_storage.py:254-258 | one pass returns the first projects of the rotated order and resumes after the last |
| EventFairness.WaitingMovesUp | runtime/communication_event_storage.py:254-258 | a project a pass leaves waiting has at least a full batch fewer projects ahead of it at the next pass |
| EventFairness.VisitedWithinCeiling | runtime/communication_event_storage.py:243-264 | while the pending projects do not grow, each is visited within ceil(n / limit) passes, whatever fails to publish |
| DriverJournal.AtMostOneExecution | runtime/codex_driver.py:765-825 | over every run with a crash between any two steps, all mutating frames and process launches of one operation come from a single execution |
| DriverJournal.RejectedNeverWrote | runtime/codex_driver.py:802-825 | an operation recorded as rejected never launched a process and never wrote thread/start, thread/resume, turn/start or turn/interrupt |
| DriverJournal.FinalForever | runtime/codex_driver.py:781-786 | an acknowledged row, its result included, and a rejected row never change again, over any continuation |
| DriverJournal.AcknowledgedReplays | runtime/codex_driver.py:781-782 | a retry of an acknowledged operation after any run is answered with its recorded result and performs nothing |
| DriverJournal.PerformsOnlyFresh | runtime/codex_driver.py:789-795 | an execution begins to perform only from an intent or deferred row with no mutating intent on record, and then nothing of the operation has reached the native side |
| DriverJournal.DeferredRecordedClean | runtime/codex_driver.py:819-824 | when a failure is recorded as deferred, the operation has announced and touched nothing |
| DriverJournal.CreationFence | runtime/codex_driver.py:546-573 | a new row is created exactly when the binding has no unresolved, non-exempt operation or the action terminates or cancels; otherwise nothing changes |
| DriverJournal.OneUnresolvedUnlessOvertaken | runtime/codex_driver.py:546-573 | a step gives a binding a second unresolved operation exactly when it admits a row past the fence or records the failed re-run of another row as uncertain |
| DriverJournal.TwoMayBeUnresolved | runtime/codex_driver.py:546-573 | a concrete run ends with two unresolved operations of one binding: the claim that there is at most one is false of the code |
| DriverJournal.DeferredMayHaveWritten | runtime/codex_driver.py:783-825 | a concrete run ends, after a crash and with nobody at work, in a deferred row whose operation wrote turn/start: the claim that deferred rows never wrote is false of the code |
| DriverJournal.DeferredCleanUnlessRerunWrites | runtime/codex_driver.py:783-825 | the exact condition: a step leaves a deferred row that has written exactly when it is the first writing frame or the launch of a re-run of that row |
| DriverJournal.DeferredCleanRun | runtime/codex_driver.py:783-825 | over every run, a deferred row has written nothing as long as no re-run of it took such a step |
| DriverJournal.UntouchedWithoutIntent | runtime/codex_driver.py:615-629 | what a caller can read off the journal: an operation, deferred or not, without a mutating intent or dispatch on record has touched nothing |
| DriverJournal.StepKeeps | runtime/codex_driver.py:677-825 | each step, reconciliation's two writes included, keeps: nothing reaches the native side without its dispatch entry, and executions, rows and bindings belong together |
| DriverJournal.ReconcileKeeps | runtime/codex_driver.py:1322-1360 | reconciliation acknowledges only an intent or uncertain invoke of its own binding, and a crash between its two writes leaves the invariant |
| DriverStorage.Journal.BeginOperation | runtime/codex_driver.py:518-590 | the in-place begin equals the specified admission |
| DriverStorage.Journal.FindPending | runtime/codex_driver.py:549-568 | the scan of unresolved rows finds one exactly when one is in the way |
| DriverStorage.Journal.MutatingIo | runtime/codex_driver.py:616-629 | the loop over events answers exactly the conservative test |
| DriverStorage.Journal.FailedState | runtime/codex_driver.py:802-822 | the state recorded after a failure is uncertain, rejected or deferred exactly as the evidence says |
| DriverStorage.Journal.Admit | runtime/codex_driver.py:778-794 | what run decides before performing: replay, refuse, demand inspection, or go ahead |
| JsonRpc.ReachableConnections | runtime/codex_jsonrpc.py:117-194 | with any partial writes, deadlines and failures, callers that leave before they have the writer included: the wire is whole frames and at most one torn last one, each request id is put on it at most once, pending and issued stay within their bounds, and every completed future is its own id's answer or the disconnection |
| JsonRpc.PeerRecoversFrames | runtime/codex_jsonrpc.py:117-160 | at any moment a peer that reads lines sees exactly the completed frames and, when all its bytes are out, the last one too, even if its flush or deadline then failed; a frame short of its last byte is never a line |
| JsonRpc.NothingAfterTornFrame | runtime/codex_jsonrpc.py:140-162 | after a torn frame the wire never changes again |
| JsonRpc.FuturesCompleteOnce | runtime/codex_jsonrpc.py:100-106 | a completed future keeps its outcome over every continuation, and an answer was read for exactly that id |
| JsonRpc.StepKeeps | runtime/codex_jsonrpc.py:164-194 | each critical section and each write keeps all of these |
| JsonRpc.AcquireOk | runtime/codex_jsonrpc.py:122-131 | a request reaches the writer only while registered, so its id was never sent before |
| JsonRpc.WriteFailsOk | runtime/codex_jsonrpc.py:156-160 | a failed write tears its frame and closes the transport in one critical section |
| JsonRpcTransport.RpcClient.Reserve | runtime/codex_jsonrpc.py:174-182 | an id is reserved exactly when the transport is open, the id is new and both bounds have room |
| JsonRpcTransport.RpcClient.Send | runtime/codex_jsonrpc.py:117-162 | a send is a run of the protocol's steps: success puts the whole frame on the wire; an oversized frame, a lock not acquired, a closed transport or a failing hook change neither wire nor transport; a later failure leaves a prefix and closes |
| JsonRpcTransport.RpcClient.Request | runtime/codex_jsonrpc.py:164-194 | one whole request is a run of the protocol's steps; on whatever way out, its reserved id is no longer pending and stays issued |
| JsonRpcTransport.RpcClient.GiveUp | runtime/codex_jsonrpc.py:192-194 | leaving forgets the id and completes no future |
| JsonRpcTransport.RpcClient.WriteAll | runtime/codex_jsonrpc.py:140-155 | the partial-write loop ends with the whole frame written, or a prefix and a closed transport |
| JsonRpcTransport.RpcClient.FailAll | runtime/codex_jsonrpc.py:100-106 | closing completes every waiting future exactly once |
| JsonRpcTransport.RpcClient.Deliver | runtime/codex_jsonrpc.py:252-263 | an answer completes the pending future of its own id, and a late one completes nothing |
| Escalation.BindDecides | runtime/communication_faults.py:16-41 | a manager is adopted exactly when the slot has none and the manager's chain ends within 128 addresses without the slot; otherwise nothing changes |
| Escalation.BindKeepsAcyclic | runtime/communication_faults.py:16-41 | every binding call keeps the manager relationship acyclic |
| Escalation.NeverOwnManager | runtime/communication_faults.py:16-41 | from no links, no sequence of configurations lets anyone reach themselves through managers |
| ObstacleNotices.ReachableBoards | runtime/communication_faults.py:64-73 | over every run each recipient has at most one notice of a message, every notice has its route, and native delivery is requested only for collaborators |
| ObstacleNotices.EscalationCarriesFirst | runtime/communication_faults.py:76-83 | moving up tells at most one more recipient, the one forwarding names, and repeats the state and code of the message's first notice |
| ObstacleNotices.EveryNoticeCarriesFirst | runtime/communication_faults.py:44-83 | while links and clients stay as they are, every notice of a message says what its first one said |
| ObstacleNotices.ScanProgress | runtime/communication_faults.py:134-193 | handling one waiting route strictly lowers a measure of recipients not yet told and routes still waiting |
| ObstacleNotices.StepMeasure | runtime/communication_faults.py:44-193 | no other step raises that measure, except that a link or client added may raise it by two |
| ObstacleNotices.EscalationTerminates | runtime/communication_faults.py:76-83 | escalation of one message ends for any manager map, cyclic ones included, inside any run: the scans of it that find work are at most that measure plus two for each link or client added meanwhile |
| ObstacleStorage.NoticeBoard.BindSupervisor | runtime/communication_faults.py:16-41 | the bounded walk with its set of seen addresses equals the specified decision |
| ObstacleStorage.NoticeBoard.MarkUnreachable | runtime/communication_faults.py:76-83 | clearing the route and inserting the next notice equal the specification |
| ObstacleStorage.NoticeBoard.RecordObstacle | runtime/communication_faults.py:86-92 | an obstacle of a message inserts the notice forwarding names, once |
| ObstacleStorage.NoticeBoard.QueueNotices | runtime/communication_faults.py:134-193 | the bounded scan queues or escalates the first waiting routes in notice order, at most limit of them and none that is locked |
| Utf8.RoundTrip | runtime/communication.py:144-145 | decoding undoes encoding for every string of scalar values (section 3 of RFC 3629) |
| Utf8.DecodedEncodes | runtime/communication_client_queries.py:110-111 | bytes that decode strictly are the encoding of what they decode to: no overlong form, surrogate or out-of-range value decodes |
| Utf8.PrefixKeepsWhole | runtime/communication.py:152 | decoding a cut-off encoding while ignoring errors keeps exactly the characters that fit whole |
| Utf8.PrefixBoundary | runtime/communication.py:148-151 | a prefix of an encoding decodes exactly when it ends between characters |
| MessagePaging.MessageData.PageContent | runtime/communication.py:144-165 | the in-place paging equals the specified page, and a refusal leaves the dictionary as it was |
| MessagePaging.PageExact | runtime/communication.py:152-165 | a page from a boundary is the longest run of whole characters within the budget, is refused only when the next character does not fit, and its continuation starts where it ends with room for the next character |
| MessagePaging.OffBoundary | runtime/communication.py:146-151 | an offset inside a character or beyond the end is refused with the matching error |
| MessagePaging.PageWithinBudget | runtime/communication.py:152-157 | a served page never exceeds its budget and begins and ends on boundaries |
| MessagePaging.FollowedPagesTile | runtime/communication.py:157-165 | following the advertised continuations never fails, ends, and yields exactly the rest of the message |
| MessagePaging.WholeMessage | runtime/communication.py:144-165 | a first page and its continuations together are the message from any boundary on, references included |
| MessagePaging.ServedPagesPass | runtime/communication_client_queries.py:96-117 | the client's slice check accepts every page the service serves |
| MessagePaging.OnlyTheBodyPasses | runtime/communication_client_queries.py:96-117 | and accepts nothing but that exact stretch of the complete body |
| JsonScanner.ScanMeasuresDocuments | runtime/communication_attachment_content.py:124-141 | for every JSON document in any whitespace and escapes the scan ends unquoted at depth 0 with exactly its structural characters counted, and rejects exactly documents nested deeper than 64 or with more than 200000 of them (sections 2 to 7 of RFC 8259) |
| JsonScanner.RejectsByPeak | runtime/communication_attachment_content.py:138-141 | a text is rejected exactly when its greatest depth or its count of marks passes a bound |
| JsonScanner.ScanText | runtime/communication_attachment_content.py:124-141 | the character loop equals the specified scan |
| Png.AcceptsExactly | runtime/communication_attachment_content.py:182-213 | accepted are exactly the signature followed by serialized chunks that meet the header, data, end, CRC and count rules (section 5.3 of the W3C PNG Specification) |
| Png.ChunksUnique | runtime/communication_attachment_content.py:185-213 | no two chunk lists are written as the same bytes |
| Png.FollowsMeaning | runtime/communication_attachment_content.py:197-212 | the walk's running rules mean: one header first, no other, data somewhere, an empty end chunk last and only last, at most 10000 chunks |
| Png.CheckPng | runtime/communication_attachment_content.py:182-213 | the offset loop equals the specified walk and never reads out of range |
| Webp.AcceptsExactly | runtime/communication_attachment_content.py:314-352 | accepted are exactly the RIFF files of written, well-formed chunk trees, animation frames included, that show an image and hold at most 10000 chunks (sections 2.3 and 2.4 of RFC 9649) |
| Webp.FileVerdict | runtime/communication_attachment_content.py:320-352 | every written file of well-formed chunks gets its verdict for the stated reason: too many chunks, no image, or accepted |
| Webp.TreesUnique | runtime/communication_attachment_content.py:319-349 | no two well-formed chunk trees are written as the same bytes |
| Webp.CheckChunks | runtime/communication_attachment_content.py:319-349 | the offset loop with its inner walk of a frame's parts ends, reads in range, and equals the specified walk |
| Gif.AcceptsExactly | runtime/communication_attachment_content.py:268-311 | accepted are exactly a header and colour table followed by written extensions and images with closed sub-blocks, an image among them, at most 10000 sub-blocks, and the trailer as the last byte |
| Gif.FileVerdict | runtime/communication_attachment_content.py:289-311 | every written file of well-formed blocks gets its verdict for the stated reason: too many sub-blocks, no image, or accepted |
| Gif.WritingsUnique | runtime/communication_attachment_content.py:276-309 | no two sequences of well-formed blocks are written as the same bytes |
| Gif.Blocks | runtime/communication_attachment_content.py:276-288 | the sub-block loop ends, never passes the end, and equals the specified skip |
| Gif.CheckGif | runtime/communication_attachment_content.py:290-311 | the tag loop equals the specified walk |
| ListingPages.PagesTile | runtime/communication_client_notices.py:188-211 | pages requested one after another on an unchanged listing tile its wanted rows: no gap, no duplicate, in order |
| ListingPages.ReadPage | runtime/communication_client_notices.py:188-207 | the batched notice loop returns exactly the next wanted rows and a cursor only if there are more |
| ListingPages.GatherPage | runtime/communication_client_views.py:83-99 | the batched conversation loop returns exactly the next wanted rows and a cursor only if there are more |
| ListingPages.EqualTotalsUnchanged | runtime/communication_client_views.py:41-47 | equal sums of never-decreasing revisions mean that no private row changed, appeared or vanished |
| NoticePages.ConcatenatedPages | runtime/communication_client_notices.py:166-213 | concatenating all served notice pages gives exactly the filtered list of the first page's moment, in order |
| NoticePages.SameVersionSameWorld | runtime/communication_client_notice_storage.py:196-202 | an equal page version means that no notice, version row or seen mark changed |
| Conversations.PairsGrouped | runtime/communication_client_views.py:84-88 | the grouped listing has exactly the viewer's peers up to the high water, each once at its newest message, newest first |
| Conversations.ServedAsCaptured | runtime/communication_client_views.py:68-82 | a later page that is served at all shows the listing of the first page's moment, whatever messages have arrived since |
| Conversations.ConcatenatedPages | runtime/communication_client_views.py:49-102 | concatenating all pages while messages arrive between them gives exactly the filtered listing below the captured high water |
| WaitIngress.NeverBoth | runtime/communication_wait_ingress.py:38-78 | over every run of send, wait, retain, gate, reclaim, claim, mark and crash steps, no message is both selected as a wait's result and natively dispatched, and none is dispatched while reserved |
| WaitIngress.SelectedForever | runtime/communication_wait_ingress.py:45-49 | a selected reply stays selected and undispatched over every continuation |
| WaitIngress.GateDecides | runtime/communication_wait_ingress.py:52-68 | the gate holds a message exactly while it is selected or somebody still waits for one of its requests |
| WaitIngress.GateReleases | runtime/communication_wait_ingress.py:69-78 | with no live wait left the next gate releases the reservation, keeps every receipt, and leaves a row with native evidence alone |
| WaitIngress.ClaimKeeps | runtime/delivery.py:875-983 | a message newly claimed by a worker is neither selected nor reserved; a selected one stays selected and unclaimed, and no other claim changes |
| WaitIngress.IngressLedger.PassGate | runtime/communication_wait_ingress.py:52-78 | the in-place gate equals the specification |
| WaitIngress.IngressLedger.RetainReplies | runtime/communication.py:820-857 | the retaining loop over a wait's observations equals the specification |
| WaitIngress.IngressLedger.ReclaimLapsed | runtime/communication_wait_ingress.py:81-100 | the reclaiming loop equals the gate applied to each candidate in turn |
| ClientContracts.References.CheckAll | runtime/client_contracts.py:126-138 | the depth-first check passes exactly when the reference graph is acyclic, and then has listed every model after all it refers to |
| ClientContracts.References.Visit | runtime/client_contracts.py:126-133 | one visit terminates, fails only on a genuine cycle, and otherwise extends the reverse topological order with the model |
| ClientContracts.Bounded | runtime/client_contracts.py:71-88 | the worklist ends and accepts exactly the values of JSON types with at most 100000 nodes and 64 levels |
| NativeLinks.ReachableLinks | runtime/communication_native_link_storage.py:604-620 | in every reachable state history revisions of a link are exactly 1 to its current one, the current row is the last, every entry still agrees with the proof it was written on, each receipt's result is the history entry of its revision, and all quotas hold |
| NativeLinks.StepKeeps | runtime/communication_native_link_storage.py:426-499 | a write never changes an existing history entry or receipt, nor a link's scope, address or creation time, and time never runs back along a history |
| NativeLinks.QuotasKept | runtime/communication_native_link_storage.py:396-407 | no write passes the count of links per scope or of requests per viewer |
| NativeLinks.NeverCorrupt | runtime/communication_native_link_storage.py:206-262 | the integrity checks of row and request reads, the comparison of every row with its own proof at its commit time included, never fire in a reachable state |
| NativeLinks.RetryReturnsOriginal | runtime/communication_native_link_storage.py:279-308 | an exact retry at any later time, with whatever proof, leases and clock, returns its original result, whatever the link has become, and changes nothing |
| NativeLinks.LinkStore.WriteLink | runtime/communication_native_link_storage.py:426-499 | the in-place write, with its checks of subject, revision, quotas and source, equals the specification |
| NativeLinks.LinkStore.CommitLink | runtime/communication_native_link_storage.py:453-499 | what the clock decides: the proof, capabilities and leases at both readings, the metadata bound, the trigger's order of times, and the three writes or none |
| NativeLinks.WrittenIntact | runtime/native_view_models.py:139-149 | a proof current when the clock is read, stored as it then stands, still says the same of that moment whenever it is read again |
| NativeLinks.LinkStore.ReadRow | runtime/communication_native_link_storage.py:183-205 | the current-row read with its two checks equals the specification |
| NativeLinks.LinkStore.FindPrior | runtime/communication_native_link_storage.py:279-292 | the receipt lookup equals the specification |
| PersonalState.RevisionCountsWrites | runtime/communication_client_storage.py:220-250 | a resource's revision is exactly the number of fresh writes it has accepted |
| PersonalState.RetryReplays | runtime/communication_client_storage.py:220-244 | an exact retry after any other writes returns the original result and changes nothing |
| PersonalState.DeletedDraftRefusesRevisionZero | runtime/communication_client_storage.py:329-370 | after a draft was deleted no new save expecting revision 0 is ever accepted |
| PersonalState.FrontierIsFurthest | runtime/communication_client_storage.py:266-292 | after any writes the read frontier is the furthest position named by an accepted mark among them, or where it stood before if that is further: it never moves back and nothing else moves it |
| PersonalState.PersonalStore.MarkReadThrough | runtime/communication_client_storage.py:266-292 | the in-place read-mark write equals the specification |
| PersonalState.PersonalStore.ChangeOptions | runtime/communication_client_storage.py:302-316 | the in-place preference write equals the specification |
| PersonalState.PersonalStore.PutDraft | runtime/communication_client_storage.py:329-354 | the in-place draft write equals the specification |
| UnreadCounts.UnreadExact | runtime/communication_client_views.py:161-166 | whatever arrives and is marked in whatever order, the unread count before the manual override is the number of incoming messages within the high water newer than the furthest one ever marked |
| UnreadCounts.StoredFrontierCounts | runtime/communication_client_state.py:76-102 | over every run of arrivals and private writes, counting with the frontier actually stored gives exactly the incoming messages within the high water newer than the furthest one whose mark was accepted |
| UnreadCounts.RankStable | runtime/communication_client_state.py:76-84 | messages that arrive later never change the rank a mark stored |
| UnreadCounts.RankOfMessage | runtime/communication_client_state.py:76-84 | the pair-local rank of a message is its position in the pair, so ranks order messages as global sequences do |
| UnreadCounts.RanksOrderMessages | runtime/communication_client_storage.py:280-283 | comparing stored ranks is comparing the global sequences of the marked messages |

## Left out

- Authorization, grants, profiles and scope checks: every caller is taken to be authorized.
- HTTP and SSE framing, header and cookie parsing, DTO and JSON-schema validation of requests.
- Schema adoption and catalogue checks, apart from the row conditions they state.
- SHA-256, CRC-32, Fernet and signatures: parameters; ciphers are modelled as sealed values with an age.
- Interpreter exceptions that arrive between two statements of one transaction, for instance a keyboard interrupt after a journal row was committed as acknowledged.
- 64-bit overflow of event sequences and of private revisions; attachment and native-link revisions do have their bound.
- Attachment identifiers are row numbers and upload tokens are given: freshness of random identifiers is not modelled.
- The order in which sorted attachment identifiers are examined, hence which of several refusals an association reports first.
- `prepare_message_attachments` and attachment downloads.
- Event visibility is one fixed predicate per reader; a change of authorization ends a replay in the runtime and is not a step of the model.
- Project names of the rotating publisher are numbers in collation order.
- The action performed by a driver execution is any sequence of announced, dispatched and written calls, launches and remarks; its own paging and polling loops are not modelled. A resume's exemption from the fence is a given set of operations.
- Server requests answered by the JSONL client are anonymous frames; the event queue and its overflow are not modelled beyond closing the transport.
- The text of a notice's delivery and the receiver's authorization when it is queued are a verdict: sent, refused, or no receiver.
- Wait ingress is modelled with recovery enabled; delivery steps other than claim, mark, report and crash are not.
- Notice and conversation items are their row identities; the other fields of a view are projections of the same frozen rows. Page versions are compared as tuples, not digests.
- NativeLinks.LinkStore.WriteLink: does not model the event it records, nor how the endpoint, slot and enrolment rows are compared with the proof: that look-up answers with the leases' ends or a refusal. Of a proof's snapshot only the capabilities are kept, not its observations.
- JSON text beyond the pre-scan: the parser's own verdict is not modelled.
- JPEG, PDF, ZIP and SVG evidence, team configuration, the making of native proofs, receiver observation and source lookup.
