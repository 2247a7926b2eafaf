# Verification of GMRAG's core protocols

A Dafny project that models the behaviour GMRAG depends on when chunks of bytes, crashes, retries and
concurrent requests meet, and proves what that behaviour guarantees. `dafny verify dfyconfig.toml`
checks all of it. The model follows the Rust code branch by branch; SQL tables and the OpenFGA store
are finite maps and sets, each statement or transaction is one atomic step, and clocks, random UUIDs,
providers and failures are parameters, so that every theorem holds for all of their behaviours.

## Parts

- **Chat stream** (`Utf8`, `Text`, `TokenParser`). The incremental UTF-8 decoder and the line parser
  equal their one-shot forms for every split of the bytes and every interleaving of reads. The decoder
  is specified from RFC 3629, section 4, and the Unicode Standard, section 3.9.
- **Ingestion queue** (`Backoff`, `JobQueue`, `QueueRuns`, `QueueEffects`, `IngestionWorker`). Tables
  with their statements, a class that performs them, and runs of any number of workers, uploads,
  re-ingestions and deletions: fencing, one owner, one result, bounded retries, waited-out backoff, and
  documents in step with their jobs. `QueueEffects` says of each operation when it is accepted and what
  each row holds then, and of every run that a document tells what became of its last job.
  `IngestionWorker` is the loop of one worker around one job: when each outcome is counted, and that it
  is true in every later run.
- **Graph persistence** (`GraphBatch`, `NodeEmbeddings`, `GraphStore`, `GraphSave`, `GraphContents`,
  `GraphWriter`). Folding extractions into a batch refines a declarative specification. The SAVING
  transaction is specified statement by statement, keeps provenance, writes exactly the batch, spares
  what other documents mention and is idempotent; `GraphWriter` carries it out row by row.
- **SQL and OpenFGA** (`RoleSync`, `OutboxDrain`, `DocumentAcl`). Role synchronisation as a state
  machine in which changes, failed calls and crashes fall anywhere; the drain loop; the replacement of
  a document's explicit viewers under arbitrary failures.
- **Limits** (`RateLimiter`, `Admission`). The pruned queues against the full admission log; admission
  with an add before its check, timeouts and cancellation.
- **Text and loops** (`PdfText`, `Citations`, `Backfill`, `Residue`, `Retention`, `RetentionReport`).

Where the code updates fields or rows in place the model is a class or a method with loops, proved
against functions and predicates; the lemmas are about those.

## Where the code does less than it says

- The comment above `compute_backoff_secs` promises `min(base * 2^(n-1), max)`. The exponent stops at
  30, so the promise holds for every count exactly when `base <= 0` or `max <= base * 2^30`
  (`Backoff.DelayIsIdealIff`), which every clamped configuration satisfies.
- The authorization drain does not attempt every eligible row: rows that fail and stay eligible come
  back in every later fetch and can fill a whole batch, and rows created together may be ordered
  differently by every fetch. `OutboxDrain.EveryDrainReachesAllIff` is the exact condition for every
  way the ties may fall, `OutboxDrain.AllAttemptedIff` the one when no two rows were created together;
  `OutboxDrain.StuckRowBlocks` and `OutboxDrain.TiesCanPassOver` are the smallest examples.
- `scroll_points_page` drops points whose payload does not parse, and both scans stop at a page
  without points, so one page of such points hides everything behind it
  (`Retention.ScanIsCompleteIff`, `Retention.ScannedUpToBlindPage`). Deleting the targets of such a
  scan leaves precisely the live points exactly if every other point was seen or lies in a dead
  workspace of which some point was seen (`Retention.DeletingLeavesLiveIff`);
  `Retention.DeletesMissHiddenPoint` is a collection for which it does not.
- A role change between the drain's read and its writes leaves the old role in OpenFGA although the
  row is marked processed. A row that is marked processed means agreement if and only if the SQL role
  is again the one that the pass read (`RoleSync.PassAgreesIff`);
  `RoleSync.ChangeDuringSyncLeavesOldRole` is a run in which it is not.
- A lease conflict that a worker counts need not mean lost work. It hides a success exactly if the
  claim's completion came before the loop ended (`IngestionWorker.ConflictHidesSuccessIff`): the next
  heartbeat is refused, or the task ends in another way than well and reporting that is refused or
  fails (`IngestionWorker.ConflictCanHideSuccess`).
- Replacing the permissions of a document that has explicit-viewer tuples without shares leaves those
  outside the target as they are, and fails once for a target user among them, because OpenFGA refuses
  to write a tuple that exists. Success in restricted mode therefore means that shares are the target
  and tuples the target and whoever was astray
  (`DocumentAcl.Document.ReplaceDocumentPermissions`).

## Model

| member | source | states |
|---|---|---|
| Utf8.FromUtf8InvertsEncoding | gmrag_api/src/chat/deepseek.rs:127-134 | the validator that `take_valid` relies on accepts exactly the encodings of text (RFC 3629, section 4) and returns that text |
| Utf8.FromUtf8ReportsFault | gmrag_api/src/chat/deepseek.rs:135-156 | `valid_up_to` ends the longest valid prefix, and `error_len` is the maximal subpart there, absent exactly when more input could still finish the sequence |
| Utf8.LossyFollowsStandard | gmrag_api/src/chat/deepseek.rs:144-147 | each step of the one-shot decoding takes a well-formed sequence, or one maximal subpart as U+FFFD (Unicode Standard, section 3.9) |
| Utf8.IncrementalUtf8.Push | gmrag_api/src/chat/deepseek.rs:118-121 | the output and the bytes held back are those of draining the held-back bytes with the new ones |
| Utf8.IncrementalUtf8.Flush | gmrag_api/src/chat/deepseek.rs:123-125 | the rest is decoded one-shot and nothing stays pending |
| Utf8.IncrementalUtf8.TakeValid | gmrag_api/src/chat/deepseek.rs:127-162 | the loop drains what is decided, or everything when flushing |
| Utf8.HeldBackIsUnfinished | gmrag_api/src/chat/deepseek.rs:144-156 | pending bytes are none, or at most three that begin a well-formed sequence without finishing it |
| Utf8.DrainSplits | gmrag_api/src/chat/deepseek.rs:118-121 | draining in two goes equals draining at once |
| Utf8.StreamingIsOneShot | gmrag_api/src/chat/deepseek.rs:118-162 | for every split into chunks, all push outputs and the flush spell the one-shot decoding of the whole |
| Utf8.SplitTextSurvives | gmrag_api/src/chat/deepseek.rs:111-125 | text cut anywhere, even inside a character, arrives unchanged |
| Utf8.DecodePieces | gmrag_api/src/chat/deepseek.rs:118-125 | a reader that pushes each piece and then flushes gets the one-shot decoding |
| TokenParser.DeepseekTokenParser.PushBytes | gmrag_api/src/chat/deepseek.rs:190-195 | the parser's state stays the one-shot parse of all decoded text, less the tokens already taken |
| TokenParser.DeepseekTokenParser.FlushUtf8 | gmrag_api/src/chat/deepseek.rs:197-202 | the held-back bytes are decoded into the text and the state stays its one-shot parse |
| TokenParser.DeepseekTokenParser.PushChunk | gmrag_api/src/chat/deepseek.rs:209-217 | every line that is now complete is parsed, in order, and the open line is kept |
| TokenParser.DeepseekTokenParser.PopToken | gmrag_api/src/chat/deepseek.rs:219-225 | the oldest pending token is taken, and nothing else changes |
| TokenParser.DeepseekTokenParser.ParseLine | gmrag_api/src/chat/deepseek.rs:231-266 | one line has the effect of the line specification on tokens, `done` and metadata |
| TokenParser.DeepseekTokenParser.AddChoices | gmrag_api/src/chat/deepseek.rs:252-265 | the loop over choices adds non-empty contents and keeps the last finish reason |
| TokenParser.ParseAllSays | gmrag_api/src/chat/deepseek.rs:231-266 | the tokens are the non-empty contents of all choices in order; `done`, model, fingerprint, finish reason and reasoning count are what the lines say |
| TokenParser.TokensSpeak | gmrag_api/src/chat/deepseek.rs:231-266 | no token is empty, and the tokens joined are the contents of all choices of the ended lines joined |
| TokenParser.OneLineAnswer | gmrag_api/src/chat/deepseek.rs:231-266 | a text of one `data:` line with one choice of non-empty content gives exactly that content as its one token |
| TokenParser.DataLineSays | gmrag_api/src/chat/deepseek.rs:231-266 | one more `data:` line: `[DONE]` sets `done` alone, text that does not decode changes nothing, and a chunk with one choice appends its content, if there is any, as one token, with its metadata |
| TokenParser.OtherLineIsIgnored | gmrag_api/src/chat/deepseek.rs:231-250 | one more line that does not begin with `data:`, once trimmed, changes nothing |
| TokenParser.Replay | gmrag_api/src/chat/deepseek.rs:190-225 | for every chunking and every interleaving of pushes and pops, what was popped and what is left make up the one-shot parse |
| TokenParser.LaterTextOnlyAdds | gmrag_api/src/chat/deepseek.rs:209-217 | the tokens at any moment are a prefix of the final ones, and `done` is never taken back |
| TokenParser.FlushEndsNoLine | gmrag_api/src/chat/deepseek.rs:293-296 | the final flush ends no line, so the reader that stops after it loses no token |
| TokenParser.NextStreamToken | gmrag_api/src/chat/deepseek.rs:269-299 | the next token, error or end of the stream, reading no event after the one that completed the `[DONE]` line |
| TokenParser.ReadAnswer | gmrag_api/src/chat/deepseek.rs:269-299 | a reader gets every token of the bytes it read, in order |
| Backoff.ComputeBackoffSecs | gmrag_api/src/outbox/mod.rs:51-67 | the delay lies between 0 and the ceiling |
| Backoff.DelayGrows | gmrag_api/src/outbox/mod.rs:51-67 | the delay never shrinks as the failure count grows |
| Backoff.DelayIsIdealIff | gmrag_api/src/outbox/mod.rs:48-67 | the delay is the documented `min(base*2^(n-1), max)` for every count if and only if `base <= 0` or `max <= base*2^30` |
| Backoff.DelayFallsShort | gmrag_api/src/outbox/mod.rs:62-64 | otherwise the 32nd failure already gets less than the documented delay |
| Backoff.ClampedConfigIsIdeal | gmrag_api/src/ingestion/jobs.rs:48-57 | every clamped worker configuration gives the documented delay |
| JobQueue.Select | gmrag_api/src/ingestion/jobs.rs:109-155 | there is always a choice of rows that obeys the ordering, the limit and the skipped locks |
| JobQueue.JobStore.ClaimJobs | gmrag_api/src/ingestion/jobs.rs:109-155 | exactly the selected rows are claimed, under fresh tokens, with counts raised and leases set |
| JobQueue.JobStore.ExtendLease | gmrag_api/src/ingestion/jobs.rs:157-179 | the lease is extended, even an expired one, if the claim owns the job; else nothing changes |
| JobQueue.JobStore.SetStageForOwner | gmrag_api/src/ingestion/jobs.rs:181-210 | the stage is set only for the owner under a live lease |
| JobQueue.JobStore.CompleteJobAndDocument | gmrag_api/src/ingestion/jobs.rs:212-251 | job and document complete together, or neither |
| JobQueue.JobStore.FinishJobFailure | gmrag_api/src/ingestion/jobs.rs:261-363 | a reported failure re-queues with backoff or kills the job and fails the document, for the owner only |
| JobQueue.JobStore.UpdateDocument | gmrag_api/src/ingestion/jobs.rs:236-247 | the document row of the job is written, if it still exists |
| JobQueue.JobStore.EnqueueJob | gmrag_api/src/ingestion/jobs.rs:69-87 | one queued job that is available at once |
| JobQueue.JobStore.RequeueDocument | gmrag_api/src/ingestion/jobs.rs:390-442 | an eligible document without an active job goes back in progress with a new job, else nothing changes |
| JobQueue.JobStore.RecoverLegacyProcessingDocuments | gmrag_api/src/ingestion/jobs.rs:444-461 | exactly the in-progress documents without an active job are failed, and counted |
| IngestionWorker.SettleTask | gmrag_api/src/bin/ingestion-worker.rs:279-332 | how a task ended decides what is written and which outcome is counted |
| IngestionWorker.ProcessOne | gmrag_api/src/bin/ingestion-worker.rs:245-333 | the loop of heartbeats beside the task ends with the tables and the outcome that its turns lead to, whatever others do in between |
| IngestionWorker.CourseIsTruthful | gmrag_api/src/bin/ingestion-worker.rs:259-332 | along all turns the invariants hold, and the outcome is true of the job when it is returned |
| IngestionWorker.EachOutcomeIff | gmrag_api/src/bin/ingestion-worker.rs:259-332 | for every course: success is counted if and only if the last turn ends with a finished task; death and retry if and only if it ends in an error or a panic, the report is answered, and that failure is reported as final or re-queued; a conflict if and only if a heartbeat or the task found the lease lost, the report erred, or the claim no longer held the job in time |
| IngestionWorker.EndWrites | gmrag_api/src/bin/ingestion-worker.rs:259-332 | the end of the loop writes the failure of a task that erred or panicked, as the task or the panic said it, unless the report did not get through; and nothing otherwise |
| IngestionWorker.BeatExtends | gmrag_api/src/bin/ingestion-worker.rs:259-278 | an applied heartbeat gives the owner the full lease from that moment and changes nothing else |
| IngestionWorker.OutcomeTellsTheTruth | gmrag_api/src/bin/ingestion-worker.rs:259-332 | a counted success or death stays the job's result in every later run (unless its document is deleted), and after an outcome other than a conflict, or a heartbeat that found the lease lost, the claim is refused for ever |
| IngestionWorker.RowTellsIff | gmrag_api/src/bin/ingestion-worker.rs:259-332 | whatever is counted, the job's row, if it is still there, says that this claim completed it if and only if the completion was among the steps before the loop ended |
| IngestionWorker.ConflictHidesSuccessIff | gmrag_api/src/bin/ingestion-worker.rs:262-330 | a counted conflict hides a success exactly in that case |
| IngestionWorker.ConflictCanHideSuccess | gmrag_api/src/bin/ingestion-worker.rs:262-330 | the ways it happens right after the completion: a refused heartbeat, a lost lease, a task error or a panic, with the report refused or failing |
| QueueRuns.InvKept | gmrag_api/src/ingestion/jobs.rs:69-461 | every step of every worker keeps the links, claims, leases and agreement of the tables |
| QueueRuns.DocumentsAgreeInEveryRun | gmrag_api/src/ingestion/jobs.rs:181-442 | in every reachable state a document is in progress if and only if it has exactly one active job; completed means stage done, failed means stage failed |
| QueueRuns.RecoveryIsNoOp | gmrag_api/src/ingestion/jobs.rs:444-461 | the legacy recovery changes nothing in such a state |
| QueueRuns.NotOwnedIsRefused | gmrag_api/src/ingestion/jobs.rs:157-363 | every guarded operation of a claim that does not own its job is refused and changes nothing |
| QueueRuns.ReclaimFences | gmrag_api/src/ingestion/jobs.rs:109-155 | re-claiming a job takes it from every earlier claim |
| QueueRuns.FencedForever | gmrag_api/src/ingestion/jobs.rs:157-363 | a claim that lost its job is refused for ever, in every run |
| QueueRuns.OneOwner | gmrag_api/src/ingestion/jobs.rs:109-155 | no two claims own one job |
| QueueRuns.LeaseProtects | gmrag_api/src/ingestion/jobs.rs:119-131 | until its lease runs out a job changes only by its owner, or by deletion of its document |
| QueueRuns.HeartbeatKeepsJob | gmrag_api/src/bin/ingestion-worker.rs:257-283 | a worker whose heartbeats keep the lease alive still owns the job after any run |
| QueueRuns.ResultIsFinal | gmrag_api/src/ingestion/jobs.rs:212-363 | a succeeded or dead job never changes again |
| QueueRuns.ResultByLatestClaim | gmrag_api/src/ingestion/jobs.rs:212-363 | a job gets its result exactly in a step that reports one, and only through its latest claim under a live lease |
| QueueRuns.ReportedOnce | gmrag_api/src/ingestion/jobs.rs:212-363 | in every run a result is reported at most once for a job |
| QueueRuns.RetryUsesOne | gmrag_api/src/ingestion/jobs.rs:268-294 | each re-queue uses up one of the attempts that are left, whatever crashes intervene |
| QueueRuns.RetriesBounded | gmrag_api/src/ingestion/jobs.rs:261-330 | for a fixed configuration every run re-queues a job no more often than its attempts allow |
| QueueRuns.RetriesOfUpload | gmrag_api/src/routes/documents.rs:1876-1882 | an uploaded document's job is re-queued at most `min(job max, config max) - 1` times |
| QueueRuns.RetrySetsDelay | gmrag_api/src/ingestion/jobs.rs:268-294 | a re-queued job becomes available after the backoff of its attempt count |
| QueueRuns.BackoffIsWaitedOut | gmrag_api/src/ingestion/jobs.rs:119-131 | in every run a queued job is left alone until it is available, unless its document is deleted |
| QueueEffects.DocumentTellsOfItsLastJob | gmrag_api/src/ingestion/jobs.rs:69-461 | over all runs from empty tables: a document is completed if and only if the job enqueued for it last succeeded, failed with that job's fault if and only if it is dead, and in progress if and only if it is active |
| QueueEffects.ClaimShows | gmrag_api/src/ingestion/jobs.rs:109-155 | a claim marks exactly the granted rows: in progress under the worker and a token, one attempt more, the full lease; documents stay |
| QueueEffects.ClaimTakesTheEarliest | gmrag_api/src/ingestion/jobs.rs:109-155 | an unlocked job of the wanted document that is due, or whose lease ran out, is left unclaimed only for a full batch of jobs none of which is later in `available_at` and then `created_at`; nothing else is claimed |
| QueueEffects.HeartbeatIff | gmrag_api/src/ingestion/jobs.rs:157-179 | a heartbeat sets the lease to the full length from now if and only if worker and token are those of the running job, be the lease live or not |
| QueueEffects.TimelyHeartbeatsKeepJob | gmrag_api/src/bin/ingestion-worker.rs:257-283 | over all runs: a worker whose heartbeats come before `lease_secs` have passed since the one before and which reported no result, still holds its job unless the document was deleted; its completion is accepted |
| QueueEffects.StageShows | gmrag_api/src/ingestion/jobs.rs:181-210 | the stage is set, and nothing else, if and only if the claim holds the job and its lease runs |
| QueueEffects.CompletionShows | gmrag_api/src/ingestion/jobs.rs:212-251 | an accepted completion leaves the job succeeded and the document completed, stage done, without a fault; every other row stays |
| QueueEffects.CompletionIff | gmrag_api/src/ingestion/jobs.rs:212-251 | a completion is accepted if and only if worker and token are those of the running job and its lease has not run out; else nothing changes |
| QueueEffects.FailureIff | gmrag_api/src/ingestion/jobs.rs:261-363 | a reported failure is retried if and only if it may pass, is reported by the holder in time and attempts are left below both limits; it is final if and only if reported so and one of these fails |
| QueueEffects.RetryShows | gmrag_api/src/ingestion/jobs.rs:268-294 | a re-queued job waits, free of its claim, with the sanitised fault, its counts kept; its document is queued again; every other row stays |
| QueueEffects.DeathShows | gmrag_api/src/ingestion/jobs.rs:296-355 | a dead job and its document carry the same fault, the retry limit's if the failure might have passed; the document is failed; every other row stays |
| QueueEffects.SanitizedSays | gmrag_api/src/ingestion/jobs.rs:463-469 | a recorded message has at most 240 characters and no control character; control characters vanish without a trace, and other text is kept up to that length |
| QueueEffects.UploadShows | gmrag_api/src/ingestion/jobs.rs:69-87 | an upload adds one document in progress and one job that is due at once, with no attempt used |
| QueueEffects.RequeueShows | gmrag_api/src/ingestion/jobs.rs:390-442 | if and only if the document failed, or completed where that is allowed, a job that is due at once is added and the document is put in progress; else nothing changes |
| QueueEffects.RecoveryRestores | gmrag_api/src/ingestion/jobs.rs:444-461 | after the legacy recovery every in-progress document has an active job; jobs and other documents stay |
| QueueEffects.DeletionShows | gmrag_api/migrations/20260711000000_durable_ingestion_jobs.sql:6-9 | deleting a document removes it with its jobs, and no other row |
| GraphBatch.MergeNode | gmrag_api/src/ingestion/graph.rs:550-574 | after one more mention every key still stands for its first name and first non-blank attributes |
| GraphBatch.AddElement | gmrag_api/src/ingestion/graph.rs:172-213 | one more element keeps the batch equal to its declarative specification |
| GraphBatch.AddElements | gmrag_api/src/ingestion/graph.rs:171-214 | so does the loop over the elements of one chunk |
| GraphBatch.FromExtractions | gmrag_api/src/ingestion/graph.rs:166-222 | the folded batch is the one specified: first non-blank attributes in element order, first kept edge for each key |
| GraphBatch.AttributesAreTheFirstSaid | gmrag_api/src/ingestion/graph.rs:550-574 | each attribute of a node is the trimmed text of the first node element under its key that says something there, and absent if none does |
| GraphBatch.NameIsTheFirstSpoken | gmrag_api/src/ingestion/graph.rs:172-205 | a node's name is the trimmed name of the first element or edge end that spells its key |
| GraphBatch.EdgesAreTheFirstSaid | gmrag_api/src/ingestion/graph.rs:190-213 | an edge is the first kept edge element of its key, trimmed |
| GraphBatch.ChunksAreInOrder | gmrag_api/src/ingestion/graph.rs:166-171 | elements count in the order of the chunks, and of the elements within a chunk |
| GraphBatch.NormalizedSays | gmrag_api/src/ingestion/graph.rs:576-584 | an optional text is kept, trimmed, if and only if it has a character that is not whitespace |
| GraphBatch.NodeKeysAreMentioned | gmrag_api/src/ingestion/graph.rs:172-205 | the node keys are exactly the non-empty normalised names of node elements and of the ends of kept edges |
| GraphBatch.EdgeForIsKept | gmrag_api/src/ingestion/graph.rs:190-213 | an edge key stands for a kept edge element, with trimmed ends that spell it; no kept edge lacks its key |
| GraphBatch.BatchIsWritable | gmrag_api/src/ingestion/graph.rs:166-222 | no two rows of one statement share a conflict key, and both ends of every edge are found when node ids are looked up |
| NodeEmbeddings.AttachNodeEmbeddings | gmrag_api/src/ingestion/graph.rs:232-257 | one vector for each node in list order, or an error and no change when the counts differ; with the vectors of the listed texts each node gets that of its own text, and the batch stays writable |
| NodeEmbeddings.NodeTextSays | gmrag_api/src/ingestion/graph.rs:263-275 | the embedded text is the trimmed name, followed on a new line by the trimmed description if that says something |
| GraphStore.ClearingKeepsProvenance | gmrag_api/src/ingestion/processor.rs:654-686 | clearing a document's output keeps the provenance invariant |
| GraphStore.CollectingRestoresProvenance | gmrag_api/src/ingestion/graph.rs:114-157 | collecting a workspace leaves only sourced rows in it, whatever was unsourced before |
| GraphStore.CollectingProvenNothing | gmrag_api/src/ingestion/graph.rs:114-157 | in a proven state the collection changes nothing |
| GraphStore.UpsertedNodesAreUnique | gmrag_api/src/ingestion/graph.rs:288-351 | the node upsert leaves one node for each workspace and lower-cased name |
| GraphStore.UpsertedEdgesAreUnique | gmrag_api/src/ingestion/graph.rs:353-407 | the edge upsert leaves one edge for each pair of ends and lower-cased relationship |
| GraphStore.NodePhaseKeepsReferences | gmrag_api/src/ingestion/graph.rs:105-106 | after the two node statements every reference holds and the batch's keys are the returned ids |
| GraphStore.EdgePhaseKeepsReferences | gmrag_api/src/ingestion/graph.rs:108-109 | after the two edge statements every reference holds; a document that mentions an edge mentions both ends |
| GraphSave.NoEdgeIsDropped | gmrag_api/src/ingestion/graph.rs:367-374 | no edge of the batch is skipped for want of a node id |
| GraphSave.SaveKeepsProvenance | gmrag_api/src/ingestion/processor.rs:319-326 | the transaction keeps: unique keys, existing ends, a source for every node and edge, and node sources of the same document for both ends of every edge source |
| GraphContents.SaveWritesTheBatch | gmrag_api/src/ingestion/processor.rs:319-326 | key by key: the document's sources are exactly the batch, what other documents mention stays in its row with merged attributes, nothing else is left |
| GraphContents.SaveWritesNodes | gmrag_api/src/ingestion/graph.rs:288-351 | attribute by attribute: a node that another document mentions keeps its name and what the batch does not say, takes what it says, and takes its embedding with a description or to fill a gap; a node of this document alone is what the batch says; one outside the batch stays or goes with its other mentions |
| GraphContents.SaveWritesEdges | gmrag_api/src/ingestion/graph.rs:353-407 | the same of edges: the relationship as first written, the description replaced only by one that the batch has |
| GraphContents.SaveWritesMentions | gmrag_api/src/ingestion/graph.rs:409-548 | the document's sources are those of the batch, word for word, and other documents' sources stay |
| GraphContents.SaveLeavesOtherWorkspaces | gmrag_api/src/ingestion/processor.rs:319-326 | rows of other workspaces stay as they are, under the same ids |
| GraphContents.SaveWritesTheChunks | gmrag_api/src/ingestion/processor.rs:612-705 | the document's chunk indexes are exactly those of the new rows, surviving indexes keep their ids, other chunks are untouched |
| GraphContents.SaveIsIdempotent | gmrag_api/src/ingestion/processor.rs:653-654 | saving the same output again changes nothing but the ids of rows that only this document mentions |
| GraphContents.MergingTwiceIsMergingOnce | gmrag_api/src/ingestion/graph.rs:326-336 | merging a batch node twice into a row equals merging it once, embedding rule included |
| GraphWriter.Database.DeleteUntrackedGraphItems | gmrag_api/src/ingestion/graph.rs:114-157 | the two deletions leave what the collection specifies |
| GraphWriter.Database.ClearDocumentOutput | gmrag_api/src/ingestion/processor.rs:654-686 | the four deletions leave what the clearing specifies |
| GraphWriter.Database.BulkUpsertGraphNodes | gmrag_api/src/ingestion/graph.rs:288-351 | written row by row, the upsert meets its statement-level specification |
| GraphWriter.Database.InsertGraphNodeSources | gmrag_api/src/ingestion/graph.rs:409-481 | written row by row, every found node gets the document's source |
| GraphWriter.Database.BulkUpsertGraphEdges | gmrag_api/src/ingestion/graph.rs:353-407 | written row by row, the upsert meets its statement-level specification |
| GraphWriter.Database.InsertGraphEdgeSources | gmrag_api/src/ingestion/graph.rs:483-548 | every edge that matches a row by conflict key gets the document's source |
| GraphWriter.Database.Save | gmrag_api/src/ingestion/processor.rs:319-326 | the transaction can always be carried out from a proven state, and leaves one |
| RoleSync.InvKept | gmrag_api/src/auth/outbox.rs:433-519 | every step keeps: a pair's tuples equal its SQL role, or it has an unprocessed row; and what the drain is about to do is right, or another row follows |
| RoleSync.EveryDifferenceIsQueued | gmrag_api/src/auth/outbox.rs:281-303 | in every reachable state, even when SQL changes between the read and the writes, a pair agrees or has an unprocessed row |
| RoleSync.DrainedMeansEqual | gmrag_api/src/auth/outbox.rs:281-303 | a drained outbox means that the role tuples are exactly those of the SQL roles |
| RoleSync.NoStepMakesBothRoles | gmrag_api/src/auth/outbox.rs:491-519 | no step puts a pair into both roles |
| RoleSync.NeverBothRoles | gmrag_api/src/auth/outbox.rs:491-519 | no run does |
| RoleSync.UndisturbedPassAgrees | gmrag_api/src/auth/outbox.rs:433-489 | an undisturbed pass whose calls succeed brings its pair into agreement, whatever tuples were there |
| RoleSync.QuietDrainConverges | gmrag_api/src/auth/outbox.rs:433-519 | however far the stores drifted apart, a drain that is left alone and whose calls succeed empties the outbox, SQL unchanged, and both stores agree on every pair |
| RoleSync.PassAgreesIff | gmrag_api/src/auth/outbox.rs:433-519 | a row that is marked processed leaves its pair in agreement if and only if the SQL role is then the one that the pass read, whatever changed meanwhile and whichever replies counted as success |
| RoleSync.ChangeDuringSyncLeavesOldRole | gmrag_api/src/auth/outbox.rs:453-489 | a change between the read and the writes leaves the old role in the tuples, with its own row still open |
| RoleSync.MarkShows | gmrag_api/src/auth/outbox.rs:552-595 | recording a pass marks the row processed, or failed with its count raised; it may be taken again if and only if it failed and the count is below the limit |
| RoleSync.ChangeShows | gmrag_api/src/auth/outbox.rs:281-303 | a change of membership takes effect in SQL at once and adds one pending row with no retry used |
| OutboxDrain.AuthzOutbox.ProcessAuthzOutbox | gmrag_api/src/auth/outbox.rs:305-367 | however the database orders ties in each fetch, the drain ends and attempts rows that qualified once each; fetched = processed + failed, each failed row's count is raised by one, and no other row changes |
| OutboxDrain.AuthzOutbox.ProcessBatch | gmrag_api/src/auth/outbox.rs:339-354 | the inner loop settles the fetched rows in order, up to a database error |
| OutboxDrain.AuthzOutbox.ProcessSingleRow | gmrag_api/src/auth/outbox.rs:552-595 | the row is marked processed, or failed with its count raised (saturating) |
| OutboxDrain.RowsAfterDrain | gmrag_api/src/auth/outbox.rs:552-595 | after a drain, attempted rows are processed with their counts or failed with one more, as they went, and every other row is as it was |
| OutboxDrain.EveryRowIsAccountedFor | gmrag_api/src/auth/outbox.rs:305-367 | when a drain is over, each row is processed, eligible for the next drain, or counted as skipped: failed with its count at the limit |
| OutboxDrain.NextRound | gmrag_api/src/auth/outbox.rs:313-335 | a fetched row had room beside all stuck rows before it, a round brings at least as many new rows as stuck ones leave room for, and a round without new rows leaves a row out only for a batch of stuck rows that may precede it |
| OutboxDrain.DrainReaches | gmrag_api/src/auth/outbox.rs:305-357 | however ties fall: a row that is attempted had fewer than a batch of stuck rows before it, and a row that is left out has a batch of attempted stuck rows that may precede it |
| OutboxDrain.AttemptedIff | gmrag_api/src/auth/outbox.rs:305-357 | without ties a row is attempted if and only if fewer than a batch of stuck rows come before it |
| OutboxDrain.AllAttemptedIff | gmrag_api/src/auth/outbox.rs:305-357 | without ties every qualifying row is attempted if and only if the rows before the last one hold fewer than a batch of stuck rows |
| OutboxDrain.EveryDrainReachesAllIff | gmrag_api/src/auth/outbox.rs:305-357 | with ties, every drain attempts every qualifying row if and only if no such row may be preceded by a batch of stuck rows |
| OutboxDrain.FewFailuresReachAll | gmrag_api/src/auth/outbox.rs:305-357 | a drain with fewer failures than the batch size attempted every qualifying row, however ties fell |
| OutboxDrain.StuckRowBlocks | gmrag_api/src/auth/outbox.rs:313-335 | with a batch of one, one failing row keeps the next from being attempted |
| OutboxDrain.TiesCanPassOver | gmrag_api/src/auth/outbox.rs:315-322 | among rows created together one may be passed over although no stuck row was created before it |
| DocumentAcl.UniqueUserIds | gmrag_api/src/auth/document_acl.rs:790-797 | each user once, in order of first occurrence |
| DocumentAcl.PlanReachesTarget | gmrag_api/src/auth/document_acl.rs:585-617 | revoking the shares outside the target and carrying out the plan gives the target, in both stores; tuples without a share stay |
| DocumentAcl.AstrayBlocks | gmrag_api/src/auth/document_acl.rs:592-617 | every tuple to be written is new if and only if no target user has a tuple without a share |
| DocumentAcl.Document.PlanGrants | gmrag_api/src/auth/document_acl.rs:592-617 | the plan lists target users without a share, and those whose tuple is missing |
| DocumentAcl.Document.ValidateGrantTargets | gmrag_api/src/auth/document_acl.rs:799-841 | only users who are members in both stores pass; a rejected user is not |
| DocumentAcl.Document.PlanAndSetMode | gmrag_api/src/auth/document_acl.rs:549-663 | the transaction reads, validates and changes the mode, or leaves it |
| DocumentAcl.Document.RevokeAll | gmrag_api/src/auth/document_acl.rs:665-707 | tuples go before shares, and containment holds after every call |
| DocumentAcl.Document.GrantOne | gmrag_api/src/auth/document_acl.rs:709-774 | the share goes before the tuple, and a refused tuple, one that exists included, is queued |
| DocumentAcl.Document.GrantAll | gmrag_api/src/auth/document_acl.rs:709-774 | all grants are carried out, or the first failing one is reported with containment kept |
| DocumentAcl.Document.CarryOut | gmrag_api/src/auth/document_acl.rs:626-787 | both loops; if something was changed, one audit event that gives the modes, how much was asked for, how much of it was done and at which stage it stopped, unless writing it failed |
| DocumentAcl.Document.ReplaceDocumentPermissions | gmrag_api/src/auth/document_acl.rs:538-788 | after every call and failure no tuple is without its share that was not before; success in restricted mode means shares = the deduplicated target, and tuples the same but for those astray before; when all calls succeed it fails only for a target user astray; the audit event counts the grants and revocations that the stores called for |
| DocumentAcl.Document.RequestUntilDone | gmrag_api/src/auth/document_acl.rs:538-788 | from any document, repeating the request reaches the requested state once the calls succeed |
| RateLimiter.NoIntervalOverflows | gmrag_api/src/rate_limit.rs:214-235 | over any run, every half-open interval of the window's length holds at most `max_requests` admissions of a key |
| RateLimiter.KeysAreIndependent | gmrag_api/src/rate_limit.rs:214-218 | what a key is granted depends on its own requests alone |
| RateLimiter.RecentIsQueue | gmrag_api/src/rate_limit.rs:220-228 | the pruned queue's length is the number of admissions in the window |
| RateLimiter.SlidingWindowRateLimiter.Pruned | gmrag_api/src/rate_limit.rs:220-226 | pruning leaves exactly the admissions in the window |
| RateLimiter.SlidingWindowRateLimiter.Allow | gmrag_api/src/rate_limit.rs:214-235 | a request is admitted if and only if fewer than `max_requests` admissions of its key lie in the window, as the full log has it |
| Admission.InvKept | gmrag_api/src/admission.rs:94-193 | every atomic step keeps permits conserved and the counter equal to the live guards, whose places are in order |
| Admission.SafeInEveryRun | gmrag_api/src/admission.rs:120-193 | in every interleaving: held + free permits = max(concurrency, 1), the counter equals the live guards, at most `queue_depth` requests wait |
| Admission.StepAnswers | gmrag_api/src/admission.rs:153-180 | how each step answers its own request, all others staying: admitted at once exactly when a permit is free, else a place that is the number of requests in the queue; parked exactly below the depth, else turned away; admitted only with a permit |
| Admission.TurnedAwayFromFullQueue | gmrag_api/src/admission.rs:165-170 | over all runs: a request is turned away by its place if and only if at least `queue_depth` requests had a guard when it took the place, whatever others do before the check |
| Admission.NothingLeaks | gmrag_api/src/admission.rs:87-98 | once every request is gone, all permits are free and the counter is zero |
| Admission.ChatAdmission.constructor | gmrag_api/src/admission.rs:121-128 | the limiter starts with max(concurrency, 1) permits and nobody waiting |
| Admission.ChatAdmission.TryAcquireOwned | gmrag_api/src/admission.rs:158-161 | a free permit is taken, or the request goes on to the queue |
| Admission.ChatAdmission.TakePlace | gmrag_api/src/admission.rs:165-166 | the add returns the previous count as the request's place |
| Admission.ChatAdmission.QueueIsFull | gmrag_api/src/admission.rs:167-170 | a place at or beyond the depth is rejected |
| Admission.ChatAdmission.GrantPermit | gmrag_api/src/admission.rs:172-180 | a waiting request gets a free permit |
| Admission.ChatAdmission.DropWaitingGuard | gmrag_api/src/admission.rs:94-98 | dropping a guard subtracts one and cannot underflow |
| Admission.ChatAdmission.ReturnPermit | gmrag_api/src/admission.rs:154-157 | a returned permit never exceeds the limit |
| PdfText.CleanExtractedText | gmrag_api/src/ingestion/pdf_parser.rs:96-119 | the loops compute the specified normalisation |
| PdfText.CleanedKeepsWords | gmrag_api/src/ingestion/pdf_parser.rs:100-101 | the words of the text, in order, are kept exactly |
| PdfText.CleanedIsTidy | gmrag_api/src/ingestion/pdf_parser.rs:103-118 | no blank line first or last, none after another, single spaces within a line |
| PdfText.CleanedKeepsParagraphs | gmrag_api/src/ingestion/pdf_parser.rs:103-111 | the runs of lines between blank lines are kept |
| PdfText.CleaningIsIdempotent | gmrag_api/src/ingestion/pdf_parser.rs:96-119 | cleaning twice is cleaning once |
| Citations.ParseInvertsFormat | gmrag_api/src/chat/mod.rs:57-58 | a formatted UUID parses back to itself |
| Citations.ExtractChunkCitations | gmrag_api/src/chat/mod.rs:71-88 | the UUIDs of all UUID markers, each once, in order |
| Citations.ReplaceMarkers | gmrag_api/src/chat/mod.rs:43-59 | the scan replaces every index marker in range and notes its chunk |
| Citations.ResolveChunkIndexCitations | gmrag_api/src/chat/mod.rs:39-68 | the resolved text, and the chunks of index markers followed by those of the resolved text, each once |
| Citations.ResolvingIsIdempotent | gmrag_api/src/chat/mod.rs:43-59 | a second pass changes nothing: no replacement creates or completes an index marker |
| Citations.OnlyNamedMarkersChange | gmrag_api/src/chat/mod.rs:43-59 | text outside index markers in range is untouched |
| Citations.ListIsWhatTheTextCites | gmrag_api/src/chat/mod.rs:61-67 | the list has no duplicates and equals, as a set, the citations extracted from the resolved text |
| Citations.NamedChunksAreGiven | gmrag_api/src/chat/mod.rs:50-57 | only chunks that were given are named by index |
| Citations.NumberNamesItsChunk | gmrag_api/src/chat/mod.rs:43-59 | in any surrounding text the marker of number n, in decimal, becomes that of the n-th chunk, counted from one, and that chunk is cited |
| Citations.NumberAlone | gmrag_api/src/chat/mod.rs:43-59 | `[chunk:n]` alone becomes the marker of the n-th chunk |
| Citations.OtherNumbersStay | gmrag_api/src/chat/mod.rs:50-56 | markers of zero and of numbers that no chunk has stay as they are and cite nothing |
| Citations.UniqueKeepsOrder | gmrag_api/src/chat/mod.rs:61-67 | ids that come later never change the order of those that came before |
| Citations.FormatIsCanonical | gmrag_api/src/chat/mod.rs:57-58 | a UUID is shown in lower-case hexadecimal with its four hyphens |
| Backfill.SettlingKeepsBalance | gmrag_api/src/ingestion/backfill_node_embeddings.rs:186-214 | settling one row keeps every found row settled, pending, or still to be fetched |
| Backfill.GraphNodes.UpdateNodeEmbedding | gmrag_api/src/ingestion/backfill_node_embeddings.rs:344-364 | only an empty row is written, and the answer says whether it was |
| Backfill.GraphNodes.RecordNodeError | gmrag_api/src/ingestion/backfill_node_embeddings.rs:274-288 | the row is counted and excluded |
| Backfill.GraphNodes.FetchBatch | gmrag_api/src/ingestion/backfill_node_embeddings.rs:317-341 | the first rows by workspace and id that are in scope, empty and not excluded, as many as the limit allows |
| Backfill.BatchIsOrdered | gmrag_api/src/ingestion/backfill_node_embeddings.rs:317-341 | a batch goes through the workspaces in order and through the rows of each in order, and leaves no row out between two of its own |
| Backfill.ScopesNarrow | gmrag_api/src/ingestion/backfill_node_embeddings.rs:317-341 | a scope narrows the empty rows to those of its workspace |
| Backfill.GraphNodes.SettleBatch | gmrag_api/src/ingestion/backfill_node_embeddings.rs:172-226 | every row of a batch is settled, whatever the embedder returned |
| Backfill.GraphNodes.RunBatches | gmrag_api/src/ingestion/backfill_node_embeddings.rs:160-227 | the loop ends, since found rows not yet settled shrink each round |
| Backfill.GraphNodes.BackfillGraphNodeEmbeddings | gmrag_api/src/ingestion/backfill_node_embeddings.rs:126-230 | no embedding is overwritten, no row out of scope touched, each vector is that of the row's own text; found = updated + skipped + errors (+ rows other writers filled), and without other writers what remains is exactly what failed; every error has a cause, so with an embedder that answers and statements that succeed every row in scope ends up with an embedding |
| Residue.PickedStatus | gmrag_api/src/retention_report.rs:408-416 | a status is owed unless no row covers; a pending one before a failed one before a dead one, and only without any of these the least of the others |
| Residue.LatestIsLatest | gmrag_api/src/retention_report.rs:463-491 | the event found covers the ids; none that covers them is later, and of those as late it is the last |
| Residue.VectorClassMeans | gmrag_api/src/retention_report.rs:397-491 | each class, said of the owing rows and delete events themselves |
| Residue.ObjectClassMeans | gmrag_api/src/retention_report.rs:397-491 | the same of object residue |
| Residue.PrefixCovers | gmrag_api/src/retention_report.rs:447-461 | an owed prefix covers exactly the keys that extend it |
| Residue.EventSpeaksOfOneId | gmrag_api/src/retention_report.rs:463-491 | an event explains residue only by the one id that its type speaks of |
| Retention.ScanVectors | gmrag_api/src/retention_report.rs:671-696 | the paging loop collects what its pages show |
| Retention.SeesAllIff | gmrag_api/src/retrieval/cleanup.rs:405-432 | from any page boundary on, the scan sees every readable point if and only if no later page boundary starts a blind page |
| Retention.ScanIsCompleteIff | gmrag_api/src/retrieval/mod.rs:565-594 | a scan is complete if and only if no page of unreadable points has a readable point behind it |
| Retention.ScannedUpToBlindPage | gmrag_api/src/retrieval/cleanup.rs:405-432 | an incomplete scan sees the readable points before the first blind page, and no other |
| Retention.UnreadablePageHidesPoints | gmrag_api/src/retrieval/cleanup.rs:410-413 | one page of unreadable points ends the scan early |
| Retention.CollectOrphans | gmrag_api/src/retrieval/cleanup.rs:415-423 | the two sets hold exactly the orphaned workspaces, and the orphaned documents of live workspaces, that were seen |
| Retention.CollectTargetsFromFullScan | gmrag_api/src/retrieval/cleanup.rs:380-442 | one target for each of them, and no other |
| Retention.TargetsCoverOrphans | gmrag_api/src/retrieval/cleanup.rs:224-258 | the targets cover a pair that was seen if and only if it is not live, and never a live pair |
| Retention.TargetedIff | gmrag_api/src/retrieval/cleanup.rs:224-258 | a pair is covered if and only if it is not live and was seen, or lies in a dead workspace of which some point was seen |
| Retention.DeletingLeavesLiveIff | gmrag_api/src/retrieval/cleanup.rs:238-258 | deleting the targets leaves precisely the live points if and only if that holds of every point that is not live |
| Retention.DeletingLeavesLivePoints | gmrag_api/src/retrieval/cleanup.rs:238-258 | in particular after every complete scan |
| Retention.DeletesMissHiddenPoint | gmrag_api/src/retrieval/cleanup.rs:410-413 | a page of unreadable points keeps a point of a dead workspace behind it from being deleted |
| RetentionReport.CollectVectorResidue | gmrag_api/src/retention_report.rs:324-362 | the residue of each dead pair once, in scan order |
| RetentionReport.CollectObjectResidue | gmrag_api/src/retention_report.rs:364-395 | the residue of each dead key once, in scan order |
| RetentionReport.CountClasses | gmrag_api/src/retention_report.rs:259-271 | the counters and the map hold the number of each class |
| RetentionReport.BuildRetentionReport | gmrag_api/src/retention_report.rs:244-298 | sorted lists, truncated to the limit with a flag, and counts of the whole lists |
| RetentionReport.CountsAddUp | gmrag_api/src/retention_report.rs:254-271 | the classes add up to the total residue, whatever the sample limit |
| RetentionReport.VectorRowsAre | gmrag_api/src/retention_report.rs:324-362 | the report lists exactly the seen pairs that are not live, once each |
| RetentionReport.ObjectRowsAre | gmrag_api/src/retention_report.rs:364-395 | the report lists exactly the listed keys that no live document has, once each |
| RetentionReport.VectorRowMeans | gmrag_api/src/retention_report.rs:324-362 | a row's class, owed status and event, said of the owing rows and delete events |
| RetentionReport.ObjectRowMeans | gmrag_api/src/retention_report.rs:364-395 | the same of objects |
| RetentionReport.OwedIsCovered | gmrag_api/src/retention_report.rs:418-445 | owed work covers a pair exactly if the deletion it stands for would |
| RetentionReport.TargetsCoverTheReport | gmrag_api/src/retrieval/cleanup.rs:380-442 | on one snapshot the targets cover, among the pairs seen, exactly those that the report lists before truncation |
| RetentionReport.ExitIsClearIff | gmrag_api/src/retention_report.rs:717-725 | the exit code is clear if and only if all residue is being recovered |
| RetentionReport.ExitIsClearMeans | gmrag_api/src/retention_report.rs:717-725 | the exit code is clear if and only if every dead pair that was seen, and every dead key that was listed, is covered by an outbox row that will still clean it up |
| RetentionReport.ReportIsOrdered | gmrag_api/src/retention_report.rs:248-251 | the lists are sorted by workspace and document, and by key, so a truncated one holds the first entries |

## Left out

- HTTP clients, routing, middleware, environment and command-line parsing, tracing, metrics and report printing: plumbing.
- JSON decoding of stream chunks, PDF, DOCX and ZIP parsing, tokenizer chunking, embedding and language models: given functions or arbitrary values.
- JWT, JWKS, Keycloak and OpenFGA evaluation: OpenFGA is a set of tuples whose calls may fail, applied or not. The model takes "exists" and "missing" replies as truthful, where the code looks for such words in the text of an error.
- Qdrant and storage outbox processors, storage, migrations and retrieval, apart from the page scan.
- `reasoning_delta_count` is unbounded here; the original is a `u32`.
- Lower-casing is one given function, shared by Rust and SQL; random UUIDs are fresh.
- The order of the ordered maps in the graph batch, and of shares to revoke: any order, which the results do not depend on. UUIDs are compared like numbers.
- Job and document timestamps other than `available_at`, `created_at` and `lease_expires_at`; ties between rows that sort alike are the database's choice.
- The polling loop, summary counters and shutdown of the ingestion worker, and where in its work a task writes a stage: tasks act on the tables at any moment.
- The SAVING transaction is not fenced by the lease; only job status, document status and stage are.
- The path for documents without chunks, which keeps old chunks.
- Direct OpenFGA writes by the member routes, and `tuple_write` and `tuple_delete` rows that name workspace roles: the role results are about changes that enqueue a row in their own transaction.
- An OpenFGA request that takes effect after its sender has crashed and another drain has started: a call is one step.
- The text of error messages and audit metadata beyond the fields modelled, and `error_samples`.
- Whether one outbox row succeeds is arbitrary in the drain loop; rows enqueued while the drain runs are not modelled there.
- Per-workspace counts of the backfill report, and the fallback from batch to single embedding: any embedder is allowed.
- Failed page requests of the scans, which end them with an error; audit-based and outbox-based cleanup targets.
- Splitting ids out of an object key: a given function.
- `filter_citations_for_allowed_ids`: its substring removal can recreate markers, and the code promises nothing about them.
- Non-ASCII digits in index markers: the original matches them, fails to parse and leaves them, as here.
- QueueRuns.RetriesBounded: bounds reported failures only, because a claim has no attempt limit and a crashing worker can be replaced without end.
- `failure_kind`, role and status texts, health checks, invites, tenant tools: one-branch facts.
