# Context memory and retrieval: a verified model

This project models, in Dafny, the parts of the repository that decide what a long-running conversation
remembers and what it is shown, and proves what they promise.

**Governed project memory** (`ProjectMemory`, `ProjectMemoryRuns`, `Approvals`, `Receipts`, `Ingestion`,
`IngestionOutcomes`, `IngestedMessages`, `ProjectJob`).
Messages become leased receipts, receipts become pending proposals, and reviewers turn proposals into
revisions in a chain of items with one head per project, key and scope. Every transaction is split into the
reads it starts with and the commit that ends it, and runs interleave any number of them, with crashes,
duplicate deliveries, stolen leases and late reports. Row locks are not assumed, so the runs include more
interleavings than a locking database allows. Jobs hold frozen references to revisions and turn the ones
that are still current back into rows.

**Incremental context** (`PrefixCache`, `Postings`, `Planner`, `ContextSelection`, `TaskState`,
`ActiveState`). Caches that are extended in place are proved equal to computing from scratch, for histories
that only grow at the end and do not reuse message ids (`PrefixCache.Coherent`); where that equality is
false, the exact condition is proved instead.

**Derived index** (`TextChunks`, `VectorStore`, `TextIndex`). A streaming chunker with exact offsets, build
leases that workers compete for, and the completion marker of a file's index.

**Bounded algorithms** (`Budget`, `Identity`, `HistorySnapshot`, `RateLimiter`).

Classes stand for the source's objects and tables, with methods that update their fields; each is proved
against a function or a predicate of the values, about which the lemmas speak. Time is a parameter or a clock
that does not go back. Tokenisers, marker lists, regular expressions, sequence matching, slot signatures and
hashes are function parameters. Tables are maps.

## Where the code and its description differ

- Resuming a task state rebuilds what was seen from the surviving rows, so a text that was evicted, or cut at
  1200 characters, can be taken twice. The promise of an equal state holds exactly as `TaskState.SplitLawExactly`
  and `TaskState.RememberedIffRoomy` say.
- The cached prefix is recognised by one message id. An edit below the boundary goes unnoticed
  (`Postings.EditedPrefixGoesUnnoticed`). Answers stay right exactly if it keeps the tokens
  (`Postings.AnswersAreRightIff`), task states exactly under the conditions of `TaskState.StaleStateIsRightIff` and
  `TaskState.EditIsHarmlessIff`.
- A message that says the same thing twice can never be ingested: the rows already staged are read once, before
  the inserts. A message can be ingested exactly if the fingerprints of one of its events differ
  (`IngestionOutcomes.MessageCanCompleteIff`).
- Proposals are told apart by project, message and fingerprint, without the scope. A sentence of a completed event is
  proposed in its own words exactly if the other events of the message do not give its fingerprint to a different
  sentence (`IngestedMessages.WordsKeptIff`).
- A report is not fenced by worker or attempt. Effects happen once, but a completed receipt can become failed
  (`IngestionOutcomes.LateReportUndoes`); it stays completed exactly as long as every report says so
  (`Receipts.CompletedStaysIff`).
- Messages are chosen and counted by their stripped contents, and sent unstripped. A message of the context can be
  blank (`ContextSelection.SentBlankIff`), and the characters sent can exceed the count and the budget: exactly when
  is said by `ContextSelection.CountIsExactForAllIff` and `ContextSelection.BudgetHoldsIff`.
- A recommended identity beats the heads that clear the candidate floor. It beats all heads exactly under the
  condition of `Identity.WinnersBeatAllIff`, which the default settings meet.
- The boundary digest separates fields and messages by characters that fields may contain. It proves the history
  exactly under the condition of `HistorySnapshot.AcceptedIsQueuedIff`.
- A vector that a worker holds in memory is not written again, so one that was pruned from the store leaves a marker
  that counts a row that is not there, and the next call does not answer from the build (`TextIndex.BuildThenServe`).
- The online chunk limit may be set above the full one. Answers given on the strength of the marker have the chunks of
  a full build exactly for the texts of which an online build indexes no more chunks (`TextIndex.Serve`,
  `TextIndex.WideOnlineLimitMisleads`), and for all texts exactly if the online limit is not above the full one
  (`TextIndex.OnlineIsPartForAllIff`).
- The announced retry time is rounded down, and a request exactly a minute old still counts
  (`RateLimiter.RetryAfterIsEnoughIff`). A limit of zero or less fails instead of refusing.
- The kernel may be longer than the limit for one message, exactly under the settings that
  `Budget.Broker.PerMessageSafeIff` excludes; the telemetry flag says so (`Budget.Broker.Pack`).

## Model

| member | source | states |
|---|---|---|
| `ProjectMemory.Tables.WriteRevision` | worldforge/context/memory_consolidator.py:547-641 | the insert and the guarded head update do what one atomic revision commit does, and report which of the two faults stopped it |
| `ProjectMemory.Tables.Approve` | worldforge/context/memory_consolidator.py:484-684 | an approval either commits item, head and proposal together or leaves every table as it was; after a unique violation it reports somebody else's approval if there is one |
| `Approvals.ReviewedIff` | worldforge/context/memory_consolidator.py:505-545 | a proposal's row passes the checks if and only if the words were not edited, the reviewer's key or else the suggested one is a usable key, and words and kind are valid; then these are what the item will say, under the scope of the proposal |
| `Approvals.OpeningIff` | worldforge/context/memory_consolidator.py:484-545 | an approval is opened if and only if the reviewer may approve, the pending proposal is of the workspace and the project, and its row passes; otherwise it is refused, or answered with the approval there is, for exactly these reasons |
| `Approvals.RejectingIff` | worldforge/context/memory_consolidator.py:699-724 | a rejection is opened if and only if the reviewer may reject and the proposal of the workspace and the project is pending |
| `Approvals.ApprovalLands` | worldforge/context/memory_consolidator.py:465-684 | in every run, whatever others do before and in between, an approval commits if and only if the head of the chain of the review's project, the reviewer's key or else the suggested one, and the proposal's scope has not moved and the proposal is still pending; then its item is the next revision of exactly that chain, and otherwise nothing changes |
| `Approvals.RejectionLands` | worldforge/context/memory_consolidator.py:687-737 | in every run, whatever others do before and in between, a rejection settles exactly its proposal, if that was open when it started and still is, and changes nothing else |
| `Approvals.DirectWriteLands` | worldforge/context/project_memory.py:476-548 | in every run, a direct write commits if and only if the head of its chain is the one it found and its id is new; then it is the next revision exactly as it was given |
| `ProjectMemory.Tables.Reject` | worldforge/context/memory_consolidator.py:711-737 | a rejection settles a proposal only if it is still pending when it commits |
| `ProjectMemory.Tables.StageProposals` | worldforge/context/memory_consolidator.py:331-371 | one try of the insert loop stages all new candidates or undoes itself entirely |
| `ProjectMemoryRuns.RevisionCommitsIffHeadUnmoved` | worldforge/context/memory_consolidator.py:547-641 | a revision commits if and only if the head it read is still the head (and its id is new); a lost race always shows as a unique violation |
| `ProjectMemoryRuns.StepKeepsInv` | worldforge/context/memory_consolidator.py:465-737 | every step of every transaction, committed or failed, keeps chains linked, ownership exact and sources unique, and only moves the tables forward |
| `ProjectMemoryRuns.RunKeepsInv` | worldforge/context/memory_consolidator.py:465-737 | the same over any interleaving of any number of approvals, rejections, direct writes and staging transactions |
| `ProjectMemoryRuns.RevisionsAreExactlyOneToN` | worldforge/context/memory_consolidator.py:547-641 | in every run, each project, key and scope has items with revisions exactly 1..n, one each, the head names revision n, and each item supersedes its predecessor |
| `ProjectMemoryRuns.NoUpdateIsLost` | worldforge/context/memory_consolidator.py:561-641 | whatever runs next, a chain keeps its history as a prefix and every item stays as it was written |
| `ProjectMemoryRuns.CommitAppendsOne` | worldforge/context/project_memory.py:476-548 | a commit appends exactly its own item to exactly its own chain; a failed commit changes nothing |
| `ProjectMemoryRuns.SettledOnce` | worldforge/context/memory_consolidator.py:643-660 | in every run a proposal is settled at most once and for good, and its words never change |
| `ProjectMemoryRuns.ApprovedOwnsExactlyOne` | worldforge/context/memory_consolidator.py:501-660 | in every run an approved proposal owns exactly one item, with the proposed words, kind, project and scope; any other proposal owns none |
| `ProjectMemoryRuns.RacingReviewsSettleOnce` | worldforge/context/memory_consolidator.py:643-684 | of two reviews opened while a proposal was pending, under whatever keys, at most one commits, and the other leaves no trace |
| `ProjectMemoryRuns.StageOnlyAddsPending` | worldforge/context/memory_consolidator.py:341-366 | staging adds pending proposals of its own message and touches no item, head or existing proposal |
| `Receipts.ReceiptTable.Claim` | worldforge/context/memory_ingestion.py:156-225 | a claim takes over a due or stale receipt or inserts the first one, answers with its attempt number, and touches no other event |
| `Receipts.ReceiptTable.Finish` | worldforge/context/memory_ingestion.py:227-262 | a report overwrites the receipt whoever holds it, with the back-off of the reporter's attempt |
| `Receipts.ClaimsAreALeaseApart` | worldforge/context/memory_ingestion.py:156-190 | two claims of one event with no report between them are at least a lease apart |
| `Receipts.BackoffIsRespected` | worldforge/context/memory_ingestion.py:241-244 | a receipt still failed from attempt n is claimed again no earlier than 2^min(n,8) seconds later; the 300 second ceiling never binds |
| `Receipts.DueAgainIff` | worldforge/context/memory_ingestion.py:159-190 | a receipt that failed is taken over if and only if 2, 4, 8, 16, 32, 64, 128 or, from the eighth attempt on, 256 seconds have passed since the report |
| `Receipts.LeaseEndsIff` | worldforge/context/memory_ingestion.py:156-190 | a claim that nobody reported is taken over if and only if its lease has run |
| `Receipts.AttemptsCountClaims` | worldforge/context/memory_ingestion.py:173-225 | the attempt counter is the number of claims won, in every sequence of statements |
| `Receipts.SettledUntilReported` | worldforge/context/memory_ingestion.py:159-190 | a completed or ignored receipt is claimed again only after a further report |
| `Receipts.CompletedStaysIff` | worldforge/context/memory_ingestion.py:156-262 | in every sequence of statements a completed receipt stays completed if and only if every report that follows says completed |
| `Ingestion.StageSucceedsIff` | worldforge/context/memory_consolidator.py:331-371 | a staging try succeeds if and only if the candidates it did not read as staged have fresh ids, sources not staged since the read, and pairwise different fingerprints |
| `Ingestion.RepeatedSentenceNeverStages` | worldforge/context/memory_consolidator.py:309-372 | a message with two equal new fingerprints aborts every try, in any state of the tables |
| `Ingestion.StageStagesAll` | worldforge/context/memory_consolidator.py:341-366 | a try that succeeds leaves every candidate staged; if all were staged before, it changes nothing |
| `Ingestion.StepKeepsInv` | worldforge/context/memory_ingestion.py:407-502 | every step of a worker, a reviewer, a writer, a deletion or a crash keeps the ingestion invariant |
| `Ingestion.CompletedMeansStagedExactlyOnce` | worldforge/context/memory_ingestion.py:407-502 | in every run with duplicate deliveries, steals, crashes and stale reports, a completed receipt implies that each candidate of its message has exactly one proposal |
| `IngestedMessages.JobIff` | worldforge/context/memory_ingestion.py:264-318 | an event leads to a job if and only if its locator has version 2, a job, a project and an actor who is the project's if that is named, and it names a user's message of the event's conversation; the job proposes for exactly that project, message and scope |
| `IngestedMessages.PointlessIsIgnored` | worldforge/context/memory_ingestion.py:426-449 | a delivery of an event that leads to no job, or whose message was deleted, ends with the receipt ignored, and changes nothing else |
| `IngestedMessages.DeletedStaysOut` | worldforge/context/memory_ingestion.py:437-449 | once a message is deleted, and no delivery is in the midst of staging it, no run in which deliveries do the staging gives it another proposal |
| `IngestedMessages.ExtractMeans` | worldforge/context/memory_consolidator.py:291-304 | the candidates of a message are, in order, exactly those of the first 40 sentences of its first 12000 characters that have a kind, each with the sentence's first 1200 characters and its own kind, key and fingerprint |
| `IngestedMessages.CompletedMeansEverySentence` | worldforge/context/memory_ingestion.py:407-502 | in every run, with reviewers, writers, duplicate deliveries, steals and crashes, a completed receipt implies that each of these sentences has exactly one proposal of its project and message with its fingerprint |
| `IngestedMessages.ProposalsAreSentences` | worldforge/context/memory_consolidator.py:331-366 | in every run in which deliveries do the staging, every proposal is one of these sentences of a message that an event points at, in its words, kind, key and fingerprint |
| `IngestedMessages.CompletedKeepsWords` | worldforge/context/memory_ingestion.py:407-502 | in such runs, unless a fingerprint is also given to another sentence of the message under another scope, every sentence of a completed event is proposed in its own words |
| `IngestedMessages.WordsKeptIff` | worldforge/context/memory_consolidator.py:331-366 | and for exactly these events, and those that can never be completed, that holds in all such runs |
| `IngestedMessages.CompletableIff` | worldforge/context/memory_ingestion.py:407-502 | an event can be completed in some run if and only if it is of the consumer's type, points at a message and no two of these sentences have one fingerprint |
| `Ingestion.WorkersOnlyAddPending` | worldforge/context/memory_ingestion.py:407-502 | workers alone, however long they run, never change items, heads or existing proposals, and what they add is pending |
| `Ingestion.RedeliveryChangesNothing` | worldforge/context/memory_ingestion.py:450-471 | once an event is staged, delivering it again changes no table |
| `Ingestion.ReceiptsFollowTheirHistory` | worldforge/context/memory_ingestion.py:156-262 | in every run, an event's receipt is the result of its own claims and reports alone |
| `IngestionOutcomes.UndisturbedDelivery` | worldforge/context/memory_ingestion.py:407-474 | in any state, a delivery that nothing disturbs completes its event if and only if the candidates not staged yet have pairwise different fingerprints, and it leaves the other deliveries alone |
| `IngestionOutcomes.RefusedDeliveryFails` | worldforge/context/memory_consolidator.py:309-372 | a delivery of a message that repeats itself ends, after four tries, with the receipt failed, due again after the wait of this attempt, and changes nothing else |
| `IngestionOutcomes.UnlistedDeliveryFails` | worldforge/context/memory_consolidator.py:374-381 | a delivery whose proposals are staged and cannot be read back ends with the receipt failed, and the proposals stay |
| `IngestionOutcomes.StepKeepsBarren` | worldforge/context/memory_consolidator.py:309-372 | no step of a worker, a reviewer, a writer, a deletion or a crash gives a message that repeats itself a proposal or a delivery that could complete |
| `IngestionOutcomes.RepeatedMessageStaysOut` | worldforge/context/memory_consolidator.py:309-372 | in every run, with reviewers and writers, in which deliveries do the staging, a message with two sentences of one fingerprint under the scope of each of its events never has any proposal, and none of these events is ever completed |
| `IngestionOutcomes.MessageCanCompleteIff` | worldforge/context/memory_ingestion.py:407-502 | some event of a message can be completed in some run if and only if one of them leads to a job whose fingerprints are pairwise different, for any fingerprint function |
| `IngestionOutcomes.CanCompleteIff` | worldforge/context/memory_ingestion.py:407-502 | if equal fingerprints do not depend on the scope, an event can be completed in some run if and only if it is of the consumer's type and leads to a job whose fingerprints are pairwise different |
| `IngestionOutcomes.SaidTwice` | worldforge/context/memory_consolidator.py:309-372 | a concrete event with a usable locator that no run completes, because its message says one sentence twice |
| `IngestionOutcomes.LateReportUndoes` | worldforge/context/memory_ingestion.py:227-262 | every event with something to stage has a run in which it is completed and then failed by the late report of a worker whose lease was taken over |
| `ProjectJob.SnapshotRefs` | worldforge/context/project_job.py:60-77 | the loop yields the first readable reference of each id among the first 24 |
| `ProjectJob.ReadRefIff` | worldforge/context/project_job.py:66-75 | a row is readable if and only if its id is not blank and its numbers are numbers; the id is cut to 64 characters, a revision below 1 counts as 1 and a missing score as 0 |
| `ProjectJob.LiveIff` | worldforge/context/project_job.py:122-163 | a frozen reference is live if and only if an active head of the workspace and the project names its item, which has the frozen revision, is in force at the time, and says something |
| `ProjectJob.DedupKeepsEachIdOnce` | worldforge/context/project_job.py:64-76 | the frozen references have different ids and represent every readable row |
| `ProjectJob.Materialize` | worldforge/context/project_job.py:122-199 | selected and invalidated references together are all frozen references, and the character count is the sum of what was selected |
| `ProjectJob.LivePlacesAreTheLiveRefs` | worldforge/context/project_job.py:149-163 | the places of the live references are exactly those still at the frozen revision of an active head, in force, with content, in frozen order |
| `ProjectJob.SelectedAreTheLiveRefs` | worldforge/context/project_job.py:149-188 | the materialized rows are exactly the live references, in frozen order, each with its own item |
| `ProjectJob.SupersededStaysOut` | worldforge/context/project_job.py:88-93 | once a frozen reference is superseded no later run of the memory protocol brings it back or puts another item in its place |
| `ProjectJob.CommitSupersedesHead` | worldforge/context/memory_consolidator.py:605-641 | committing a revision on top of an item supersedes that item at once |
| `TextChunks.Fill` | services/multimodal_retriever/text_chunks.py:49-54 | short reads or not, the buffer ends up full or at the end of the stream, holding exactly the next stretch of text |
| `TextChunks.Stream` | services/multimodal_retriever/text_chunks.py:42-88 | the streaming loop terminates and yields the chunks of the whole text |
| `TextChunks.StreamTextChunks` | services/multimodal_retriever/text_chunks.py:22-88 | for every text and every parameter the output does not depend on how reads are split |
| `TextChunks.ChunksAreEmittedWindows` | services/multimodal_retriever/text_chunks.py:48-88 | streaming is the same as cutting the whole text into windows and taking the non-blank ones up to the limit |
| `Basics.StripMeans` | services/multimodal_retriever/text_chunks.py:72-73 | what stripping leaves is the text without the white space at its two ends, and nothing else is cut off |
| `TextChunks.WindowsOverlapExactly` | services/multimodal_retriever/text_chunks.py:59-88 | windows cover the text from start to end, are no longer than a chunk, advance strictly, and overlap by exactly the clamped overlap |
| `TextChunks.StreamOverlaps` | services/multimodal_retriever/text_chunks.py:42-88 | for any parameters the overlap is the one asked for, but not negative and not more than half a chunk |
| `TextChunks.WindowsCover` | services/multimodal_retriever/text_chunks.py:59-88 | every offset lies in a window |
| `TextChunks.WindowsEndRightly` | services/multimodal_retriever/text_chunks.py:59-70 | a window that fills the buffer ends after the last line break within its last 1200 characters or second half, and is full if there is none; any other ends with the text |
| `TextChunks.EmitIsComplete` | services/multimodal_retriever/text_chunks.py:72-81 | unless the limit is reached every non-blank window is emitted |
| `TextChunks.ChunksAreExactRanges` | services/multimodal_retriever/text_chunks.py:72-81 | at most the allowed number of chunks, none longer than allowed, at strictly increasing starts, each the stripped text of exactly its range |
| `TextChunks.ChunksCoverTheText` | services/multimodal_retriever/text_chunks.py:24-33 | unless the limit is reached every character that is not white space is inside a chunk |
| `PrefixCache.Cache.Lookup` | worldforge/context/compiler.py:400-413 | a cached entry is used only if its boundary message still carries the recorded id, and then becomes the most recently used one; otherwise it is dropped |
| `PrefixCache.Cache.Store` | worldforge/context/compiler.py:473-482 | the entry of this conversation is stored for its whole history as the most recently used one, the least recently used ones beyond the bound go, and no other entry changes |
| `PrefixCache.Cache.Trim` | worldforge/context/compiler.py:515-517 | exactly the most recently used entries up to the bound stay, unchanged and in the same order |
| `PrefixCache.ContinuationPasses` | worldforge/context/compiler.py:502-513 | an entry made from a history passes for every continuation of it |
| `Postings.IndexIsUnique` | worldforge/context/fast_compiler.py:61-73 | a history has exactly one index: complete, ascending, in range, without empty lists |
| `Postings.FastIndex.Refresh` | worldforge/context/fast_compiler.py:44-70 | the cached or extended postings are the index of the whole history |
| `Postings.FastIndex.CandidateIndices` | worldforge/context/fast_compiler.py:28-76 | the cached answer, exactly the messages of the user or the assistant with a word of the query, is the full scan of the history it was extended from, which is this history whenever histories only grow |
| `Postings.AnswerAll` | worldforge/context/fast_compiler.py:28-76 | over any sequence of turns with growing, replaced or evicted histories, every answer is the full scan's |
| `Postings.ScanAnswers` | worldforge/context/compiler.py:303-309 | the full scan answers with exactly the messages of the user or the assistant that have a word of the query |
| `Postings.AnswersAreRightIff` | worldforge/context/compiler.py:312-327 | after a passed boundary test every answer is the full scan's if and only if the messages below the boundary have the tokens of those the entry was made from |
| `Postings.EditedPrefixGoesUnnoticed` | worldforge/context/compiler.py:502-513 | without append-only histories the boundary test passes over an edit and the answer is wrong |
| `Planner.PlannedCandidates` | worldforge/context/ranked_compiler.py:48-99 | the planner unites the whole posting lists of the planned tokens, in the planned order |
| `Planner.RankedCandidates` | worldforge/context/ranked_compiler.py:101-142 | the ranked candidates are a subset of the full scan, and empty only when it is |
| `Planner.PlannedIsUnique` | worldforge/context/ranked_compiler.py:101-142 | what the planner answers depends on the history and the query alone, not on what was cached |
| `Planner.RowsAreUnique` | worldforge/context/ranked_compiler.py:54-61 | a query has one sequence of rows |
| `Planner.UnionIsScan` | worldforge/context/ranked_compiler.py:93-99 | uniting all postings of the query is the full scan |
| `Planner.PlanIsRows` | worldforge/context/ranked_compiler.py:69-99 | the plan consists of whole rows: at most eight, all selective, if one is selective; otherwise all |
| `Planner.PlanIsSafe` | worldforge/context/ranked_compiler.py:69-99 | planning returns part of the full union, and nothing only if that is empty |
| `Planner.PlanIsBoundedOrFull` | worldforge/context/ranked_compiler.py:66-99 | with a selective token at most eight times the selective limit, without one the full union |
| `Planner.IdentifiersTakenAreRarest` | worldforge/context/ranked_compiler.py:69-83 | the identifiers that are united are the least frequent ones |
| `Planner.IdentifiersComeFirst` | worldforge/context/ranked_compiler.py:11-17 | if a selective token has a digit or one of the six separators in it, only such tokens are planned, eight of them or all |
| `Planner.RareRowsUntilEnough` | worldforge/context/ranked_compiler.py:82-92 | without an identifier selective tokens are united from the rarest on, at most eight, until there are 32 places, or eight for each message that may be retrieved, and no longer |
| `Planner.SelectiveLimitIs` | worldforge/context/ranked_compiler.py:43-67 | a token is selective up to 256 places in a history of at most 256 messages, up to 16 times the square root of its size until 65536, up to 4096 until 204800, and up to a fiftieth of it beyond |
| `ContextSelection.MakeLimits` | worldforge/context/compiler.py:147-162 | what is configured is used, or else the least: two recent messages, no retrieved one, 3000 characters in all and 600 for one message |
| `ContextSelection.FirstUser` | worldforge/context/compiler.py:185-192 | the first user message, and none before it |
| `ContextSelection.Priorities` | worldforge/context/compiler.py:232-248 | first user message, recent messages and retrieved messages get the priorities the source computes |
| `ContextSelection.PrioritiesMean` | worldforge/context/compiler.py:232-248 | those priorities put the first user message before all, recent messages before retrieved ones and newer before older, and better retrieved ones before worse |
| `ContextSelection.ListIsUnique` | worldforge/context/compiler.py:225-231 | sorting by score and place has one result, whatever order the candidates came in |
| `ContextSelection.Select` | worldforge/context/compiler.py:193-292 | the packet made of ranking, priorities and greedy choice |
| `ContextSelection.TakeWhatFits` | worldforge/context/compiler.py:250-266 | the choice loop takes each message that still fits, in priority order |
| `ContextSelection.Compile` | worldforge/context/compiler.py:171-292 | compiling over the cached index gives the packet of the full scan, which sends what `PacketConveys` and `PacketSendsRelevant` say of both roles |
| `ContextSelection.CompileRanked` | worldforge/context/ranked_compiler.py:34-40 | compiling with the planner gives the packet of what the planner answers |
| `ContextSelection.RankedPacketIsUnique` | worldforge/context/ranked_compiler.py:101-142 | planned or not, no cache can change a compiled packet |
| `ContextSelection.CompileAll` | worldforge/context/compiler.py:171-292 | the same over any sequence of compilations of any conversations |
| `ContextSelection.CompileRankedAll` | worldforge/context/ranked_compiler.py:34-142 | over any sequence of compilations with the planner, every packet is the one that history, query and scores determine |
| `ContextSelection.PacketIsUnique` | worldforge/context/compiler.py:193-292 | history, candidates and scores determine the packet |
| `ContextSelection.PacketIsBounded` | worldforge/context/compiler.py:250-292 | every packet is in conversation order, within the message limit and, as counted, the character limit, and made only of recent, first or well-scored retrieved messages, each of which says something in the conversation |
| `ContextSelection.PacketConveys` | worldforge/context/compiler.py:193-275 | whatever the scores, a packet holds only messages of the user or the assistant that are not blank, each recent, the user's first, or with a word of the query and a score above 0.18; with budget for one full message more than the recent ones it holds all of the recent ones, of either role |
| `ContextSelection.PacketSendsRelevant` | worldforge/context/compiler.py:218-275 | with budget for all at full length, a message with a word of the query and a score above 0.18 is sent unless as many as may be retrieved score better, or as well and are newer |
| `ContextSelection.LongRangeCounts` | worldforge/context/compiler.py:276-280 | the messages reported as retrieved from far back are those older than the recent ones and not the user's first |
| `ContextSelection.SentBlankIff` | worldforge/context/compiler.py:254-275 | a chosen message is sent blank if and only if it is white space up to the cut |
| `ContextSelection.BlankIsSent` | worldforge/context/compiler.py:254-275 | a concrete conversation of which only white space is sent, and more characters of it than reported |
| `ContextSelection.SentIff` | worldforge/context/compiler.py:193-275 | which messages can be sent for some candidates and scores: those with text that are mandatory and fit among the mandatory ones, or fit beside all of these |
| `ContextSelection.FirstUserIsSent` | worldforge/context/compiler.py:233-275 | a first user message with text is in every packet, cut to its limit, and its text survives if and only if some of it comes before the cut |
| `ContextSelection.RecentAreKept` | worldforge/context/compiler.py:235-266 | with budget for the recent messages and one more at full length, all of them are kept |
| `ContextSelection.TakenOrTooLong` | worldforge/context/compiler.py:256-266 | a message with text is left out only if it does not fit beside those before it |
| `ContextSelection.CountIsExactForAllIff` | worldforge/context/compiler.py:254-276 | the reported characters are those sent for all candidates and scores if and only if no message that can be sent loses white space in the counting; then the limit holds of what is sent |
| `ContextSelection.LosslessIff` | worldforge/context/compiler.py:254-275 | a message loses nothing in the counting if and only if it has no white space at its ends or enough text to fill its limit |
| `ContextSelection.SentIsBounded` | worldforge/context/compiler.py:250-275 | what is sent never exceeds the allowed number of messages at full length |
| `ContextSelection.BudgetHoldsIff` | worldforge/context/compiler.py:147-275 | the character budget holds of what is sent, for all conversations, candidates and scores, if and only if it has room for the allowed number of messages at full length |
| `TaskState.SplitLaw` | worldforge/context/compiler.py:396-462 | resuming from the rows of a prefix that forgot nothing equals one pass over the whole history |
| `TaskState.SplitLawExactly` | worldforge/context/compiler.py:419-462 | resuming equals one pass for every continuation if and only if the prefix forgot nothing |
| `TaskState.RememberedIffRoomy` | worldforge/context/compiler.py:519-535 | an eviction is always forgotten; where texts fit in 1200 characters a prefix forgot nothing if and only if it has no more different texts than rows |
| `TaskState.ForgottenIsTakenAgain` | worldforge/context/compiler.py:419-423 | a forgotten text that is said again in a message of its own makes the resumed rows differ from one pass |
| `TaskState.EvictedRowComesBack` | worldforge/context/compiler.py:519-535 | with room for two, of any three different constraints the first one comes back when it is said again, though one pass leaves it out |
| `TaskState.FillIsBounded` | worldforge/context/compiler.py:534-535 | no list ever outgrows its limit |
| `TaskState.FillCounts` | worldforge/context/compiler.py:519-535 | one pass keeps as many rows as there are different texts, up to the limit |
| `TaskState.FillSourced` | worldforge/context/compiler.py:426-462 | rows come only from user messages |
| `TaskState.GoalIsFirst` | worldforge/context/compiler.py:434-438 | the goal is the first user message that says anything |
| `TaskState.AsksIff` | worldforge/context/compiler.py:457-460 | a sentence asks if and only if its last character that is not white space is a question mark of either width |
| `TaskState.OfferedIff` | worldforge/context/compiler.py:441-471 | what a message offers: of a user message's sentences within 12000 characters, as a question those that ask or are marked so, as a constraint, decision or verified fact those marked so, and exactly the version references in them |
| `TaskState.FreshStateSays` | worldforge/context/compiler.py:427-473 | where there is room, the rows of each kind have exactly the normal forms of what the user messages offer, each once, in the words and with the id of a message that says it |
| `TaskState.FreshRowsSay` | worldforge/context/compiler.py:426-473 | with or without room, every row is the first 1200 characters of what a user message offers of that kind, with the message's id |
| `TaskState.FreshGoalSays` | worldforge/context/compiler.py:435-439 | the goal is the first 1200 characters of the first user message that is not blank |
| `TaskState.TaskStates.AppendUnique` | worldforge/context/compiler.py:519-535 | a text is added unless its normalised form was seen, and the oldest row goes when there are too many |
| `TaskState.TaskStates.AddMessage` | worldforge/context/compiler.py:426-462 | one message folds its sentences of all five kinds into the lists, and the goal if there is none yet |
| `TaskState.TaskStates.TaskState` | worldforge/context/compiler.py:389-483 | a miss is the state of one pass and a hit is the resumed cached state; either has the right goal, bounded lists and user-sourced rows of the history it was extended from, and a hit is one pass wherever the cached prefix had room |
| `TaskState.ResumedIsRightIff` | worldforge/context/compiler.py:419-462 | whatever rows come from the cache, resuming from them equals one pass for every continuation if and only if they are the rows of one pass over the messages below the boundary and that pass forgot nothing |
| `TaskState.StaleStateIsRightIff` | worldforge/context/compiler.py:389-483 | the same of whole states: resuming from a cached state gives the state of one pass, however the conversation goes on, if and only if its goal and all its rows are those of one pass and that pass forgot nothing |
| `TaskState.TaskStates.StaleEntryIsRightIff` | worldforge/context/compiler.py:389-483 | every continuation of a history that a cached entry passes for is resumed from that entry, and all these states are right exactly under that condition |
| `TaskState.EditIsHarmlessIff` | worldforge/context/compiler.py:502-513 | after an edit that goes unnoticed, states stay right if and only if one pass over the two prefixes ends in the same state and the one over the new prefix forgot nothing |
| `TaskState.StateAll` | worldforge/context/compiler.py:389-483 | the same over any sequence of turns with any caching |
| `ActiveState.LatestByExactSlot` | worldforge/context/active_compiler.py:134-142 | the dictionary loop keeps exactly the last row of each slot in last-occurrence order |
| `ActiveState.LastOnesAreTheLast` | worldforge/context/active_compiler.py:134-142 | the rows kept are exactly those without a later row of the same slot, in order |
| `ActiveState.LatestOfLatest` | worldforge/context/active_compiler.py:134-142 | reducing the older rows first does not change the result: latest(xs + ys) = latest(latest(xs) + ys) |
| `ActiveState.ActiveView` | worldforge/context/active_compiler.py:165-199 | the view is built field by field from the base state, which keeps its goal and version references |
| `ActiveState.ConfirmedIff` | worldforge/context/active_compiler.py:177-192 | a slot is confirmed in the view if and only if some confirmation without a condition has it |
| `ActiveState.ViewShowsIff` | worldforge/context/active_compiler.py:134-192 | of each thing that constraints, decisions or unconditional confirmations are about, by slot or else by normal form, exactly the last one said is shown |
| `ActiveState.QuestionClosedIff` | worldforge/context/active_compiler.py:184-198 | a latest question is closed if and only if an unconditional confirmation has its nonempty slot; no open question shares a nonempty slot with a surviving fact |
| `VectorStore.Store.TryClaimBuild` | services/multimodal_retriever/vector_store.py:276-317 | a claim fails exactly when another owner holds a lease that has not expired |
| `VectorStore.Store.RefreshBuildLease` | services/multimodal_retriever/vector_store.py:319-338 | a refresh succeeds exactly for the owner in the row, and touches no other lease |
| `VectorStore.Store.ReleaseBuild` | services/multimodal_retriever/vector_store.py:340-354 | only the owner's release removes a lease |
| `VectorStore.Store.PruneRows` | services/multimodal_retriever/vector_store.py:356-388 | the newest vectors are kept, exactly the excess goes, orphaned units go only then, and exactly the expired leases go |
| `VectorStore.ClaimsAreSeparated` | services/multimodal_retriever/vector_store.py:276-354 | in every run with a clock that does not go back, claims of one key by different owners are separated by a release or by the expiry of the last granted or refreshed lease |
| `VectorStore.ClaimsDoNotOverlap` | services/multimodal_retriever/vector_store.py:293-317 | another owner's claim never succeeds while the last granted lease runs |
| `VectorStore.LeaseRunsOutIff` | services/multimodal_retriever/vector_store.py:293-338 | while a lease is neither granted again nor given up, another owner's claim succeeds if and only if the lease, of at least a twentieth of a second, has run |
| `VectorStore.RefreshFailsAfterLoss` | services/multimodal_retriever/vector_store.py:319-338 | a worker whose lease was taken cannot refresh it until it claims again |
| `VectorStore.PruneKeepsLiveLeases` | services/multimodal_retriever/vector_store.py:384-387 | pruning never removes a lease that has not expired |
| `VectorStore.Store.Get` | services/multimodal_retriever/vector_store.py:109-126 | a vector is found only under the fingerprint it was stored with |
| `VectorStore.PutThenGet` | services/multimodal_retriever/vector_store.py:109-158 | what was stored is found again under the fingerprint it was stored with and under no other, and the vectors of other keys are found as before |
| `VectorStore.Store.ListSourceVectors` | services/multimodal_retriever/vector_store.py:207-253 | exactly the units of the source that have a vector, each once, by their place in the source |
| `TextIndex.Worker.IndexTextBatch` | services/multimodal_retriever/worker_wemm_hierarchical.py:319-359 | after a batch every chunk of it has its unit row and its vector is stored unless the worker had it in memory; only rows and vectors of the batch were written |
| `TextIndex.IndexedIff` | services/multimodal_retriever/worker_wemm_hierarchical.py:326-342 | the row of a chunk names the file, its version and the chunk's place and quotes its first characters |
| `TextIndex.Worker.IndexAll` | services/multimodal_retriever/worker_wemm_hierarchical.py:400-430 | unless the deadline has passed or the model failed, every chunk of the stream has its unit row, and its vector is stored unless the worker had it in memory at the start |
| `TextIndex.Worker.EnsureTextIndex` | services/multimodal_retriever/worker_wemm_hierarchical.py:361-451 | a completion marker is written only after every chunk of the stream has a unit row, and online only if the stream was not cut by the limit or the deadline; a full build that succeeds always writes it; the lease is given up however the build ends; the markers of other versions of the file, and their leases, stay |
| `TextIndex.Worker.VersionsAreApart` | services/multimodal_retriever/worker_wemm_hierarchical.py:368-390 | two versions of a file have different markers and different build leases |
| `TextIndex.MarkersTellAll` | services/multimodal_retriever/worker_wemm_hierarchical.py:368-373 | with fingerprints of two numbers a marker tells the file, its version and the chunking it was built with |
| `TextIndex.BuildThenServe` | services/multimodal_retriever/worker_wemm_hierarchical.py:361-451 | after a full build, under any limits, the next call answers from it with exactly the chunks of a full build, unless some vector was only in the worker's memory or rows beyond these chunks were listed; with room in memory for all chunks that is an if and only if |
| `TextIndex.NothingBeyond` | services/multimodal_retriever/worker_wemm_hierarchical.py:373-388 | unless an online build indexes more chunks than a full one, no row is listed beyond the chunks of a full build |
| `TextIndex.MarkerReadsBack` | services/multimodal_retriever/worker_wemm_hierarchical.py:373-439 | the count a marker is written with is the count that is read back, and no other marker changes |
| `TextIndex.OnlineIsPrefix` | services/multimodal_retriever/worker_wemm_hierarchical.py:400-413 | under an online limit not above the full one an online build indexes the first chunks of a full one, or all of them if the limit cuts none off |
| `TextIndex.OnlineIsPartForAllIff` | services/multimodal_retriever/worker_wemm_hierarchical.py:68-73 | an online build indexes no more chunks than a full one, for every text, if and only if the online limit does not exceed the full one |
| `TextIndex.WideOnlineLimitMisleads` | services/multimodal_retriever/worker_wemm_hierarchical.py:361-451 | for every other text there are three calls on an empty store after which an answer given on the strength of the marker does not have the chunks of a full build |
| `TextIndex.LeftoverMisleads` | services/multimodal_retriever/worker_wemm_hierarchical.py:361-386 | for every such text there is a content of the store, rows and marker, on which a call answers with other chunks than those of a full build |
| `TextIndex.AllListedIff` | services/multimodal_retriever/worker_wemm_hierarchical.py:373-388 | with every row written, as many rows are listed as there are chunks if and only if every chunk has a stored vector, and then exactly the chunks are listed |
| `TextIndex.CountIsKeys` | services/multimodal_retriever/worker_wemm_hierarchical.py:328-419 | the recorded count is the number of different chunk keys |
| `TextIndex.UnitKeyTellsStart` | services/multimodal_retriever/worker_wemm_hierarchical.py:328-328 | a chunk key determines where the chunk starts |
| `TextIndex.ChunksMore` | services/multimodal_retriever/worker_wemm_hierarchical.py:400-413 | a larger chunk limit extends the chunks, and changes nothing if the smaller one cut none off |
| `TextIndex.MarkerMeansComplete` | services/multimodal_retriever/worker_wemm_hierarchical.py:373-388 | if as many rows are found as the marker says, they are rows of the text's chunks, as many as a full build has or all of an uncut online build; and exactly those of a full build unless an online build indexes more |
| `TextIndex.Serve` | services/multimodal_retriever/worker_wemm_hierarchical.py:361-451 | over any sequence of online and full calls on the versions of a file, with edits in between, deadlines, failures and evictions, under any limits, that is what an answer given on the strength of a marker has: the chunks of the version it is asked for, which an earlier call has built |
| `Budget.ClipText` | worldforge/context/budget.py:90-98 | clipping yields at most the limit, and exactly the limit when it cuts |
| `Budget.ClippedSays` | worldforge/context/budget.py:90-98 | a text that was cut says so, and of what it is, wherever there is room for that |
| `Budget.Broker.KernelPack` | worldforge/context/budget.py:107-175 | the kernel never exceeds its budget and its last clip changes nothing, for any section budgets and contents; a section with content is missing only if 80 characters or fewer were left |
| `Budget.HeadingSurvives` | worldforge/context/budget.py:129-158 | every included section is present with its whole heading and its body |
| `Budget.RowsAre` | worldforge/context/budget.py:75-127 | under each heading stands exactly what the system's messages of that kind say, in order, and messages of unknown kinds go under the last heading |
| `Budget.LinesInTwo` | worldforge/context/budget.py:139-150 | the rows of a section stand on lines of their own |
| `Budget.ConversationIs` | worldforge/context/budget.py:180-187 | the conversation is exactly what users and assistants wrote themselves and that is not blank, in order |
| `Budget.Broker.KeptAreNewest` | worldforge/context/budget.py:191-197 | of the conversation the newest messages are kept, one less if the system wrote any |
| `Budget.Broker.PackConversation` | worldforge/context/budget.py:199-231 | the packed conversation is an order-preserving selection ending in the newest message, within the budget, and leaves out only what does not fit beside the newer ones |
| `Budget.Broker.Pack` | worldforge/context/budget.py:177-267 | at most the allowed messages; each conversation message within its limit; characters within the history budget or the kernel and 1200; kept and dropped add up; every message is within the per-message limit if all sections together or the kernel budget are, and in general if and only if the kernel is |
| `Budget.Broker.PerMessageSafeIff` | worldforge/context/budget.py:107-175 | every kernel fits into one message, whatever the messages, if and only if all sections at their full length, or else the kernel budget, fit into one message |
| `Budget.Broker.KernelMayBeTooLong` | worldforge/context/budget.py:107-175 | under all other settings there are messages whose kernel is too long for one message |
| `Budget.Broker.KernelIsUnique` | worldforge/context/budget.py:138-156 | the derived messages determine the kernel |
| `Identity.OverlapMeasures` | worldforge/context/memory_identity.py:187-193 | overlap is symmetric, between 0 and 1, 0 exactly for disjoint sets and 1 exactly for equal nonempty ones |
| `Identity.ScopeRelation` | worldforge/context/memory_identity.py:203-234 | the counters compute what the scope relation means field by field |
| `Identity.ScopeWeighs` | worldforge/context/memory_identity.py:203-234 | the weight of two scopes, by which of the four references are given, equal or contradictory |
| `Identity.OverlapOfPart` | worldforge/context/memory_identity.py:187-193 | a part of a set overlaps it by 0.68 and 0.32 times its share |
| `Identity.HeadScore` | worldforge/context/memory_identity.py:237-294 | a score lies between 0 and 1 and is 0 across kinds |
| `Identity.TakesPartIff` | worldforge/context/memory_identity.py:340-345 | a head takes part if and only if it was not withdrawn and its key is not blank |
| `Identity.BetterMatchScoresMore` | worldforge/context/memory_identity.py:237-294 | a head that matches at least as well in each respect never scores less |
| `Identity.ScoresDiffer` | worldforge/context/memory_identity.py:237-294 | scores that are not cut off differ by exactly what each respect is worth |
| `Identity.NoWordInCommon` | worldforge/context/memory_identity.py:259-267 | without a common word in the contents no head scores above 0.64, below the default threshold |
| `Identity.SameWordsScore` | worldforge/context/memory_identity.py:237-294 | a head of the proposal's kind that says the same scores at least 0.8, above the default threshold |
| `Identity.MakeConfig` | worldforge/context/memory_identity.py:306-315 | threshold, margin and floor are as configured where that is in range, and else in their ranges, the floor not above the threshold |
| `Identity.Resolve` | worldforge/context/memory_identity.py:317-390 | a key is recommended if and only if its best head clears the threshold and beats every eligible head of every other key by the margin; exactly one candidate is flagged unless the resolver abstains; each shown key has its first best head, the better keys first, and of equal ones those of later revisions |
| `Identity.FirstWinsIff` | worldforge/context/memory_identity.py:347-362 | the first ranked key satisfies the source's test if and only if it wins against all heads, and no other key can win |
| `Identity.OrderDoesNotMatter` | worldforge/context/memory_identity.py:326-362 | the recommended key and the abstention do not depend on the order of the heads |
| `Identity.WinnersBeatAllIff` | worldforge/context/memory_identity.py:340-362 | that a recommended key beats all heads, also those below the floor, holds for all heads if and only if floor and margin together do not exceed the threshold |
| `HistorySnapshot.MessageDigest` | worldforge/context/history_snapshot.py:7-16 | the digest is the hash of the concatenated encodings of the messages |
| `HistorySnapshot.BoundaryDeterminesIff` | worldforge/context/history_snapshot.py:7-16 | count, last id and encoding determine a history, whatever its fields contain, if and only if no separator inside a field can be taken for one between fields or between messages |
| `HistorySnapshot.ExtensionGivesHistory` | worldforge/context/history_snapshot.py:30-81 | over any extension of the queued history exactly that history is materialized |
| `HistorySnapshot.HistoryOrNothing` | worldforge/context/history_snapshot.py:30-81 | under that condition, over any conversation whatever, the result is the queued history or nothing, and it is the history exactly when the conversation still begins with it |
| `HistorySnapshot.AcceptedIsQueuedIff` | worldforge/context/history_snapshot.py:30-81 | an accepted boundary proves the queued history, whatever the store holds, if and only if that condition holds |
| `HistorySnapshot.OtherHistoryAccepted` | worldforge/context/history_snapshot.py:7-16 | where it does not hold another conversation is accepted in its place |
| `HistorySnapshot.MovedAcrossRecords` | worldforge/context/history_snapshot.py:7-16 | a concrete history without field separators, and another one accepted for it |
| `RateLimiter.SlidingWindowRateLimiter.Check` | worldforge/observability.py:19-25 | a request is accepted if and only if fewer than the limit were accepted in the closed minute before it; with a limit of zero or less the check fails |
| `RateLimiter.SlidingWindowRateLimiter.NoWindowHoldsMore` | worldforge/observability.py:17-25 | whatever was called, no closed minute holds more accepted requests of a key than the limit |
| `RateLimiter.WindowHoldsLimit` | worldforge/observability.py:20-25 | requests that are spread out never exceed the limit in any closed minute |
| `RateLimiter.QueueCountsMinute` | worldforge/observability.py:20-24 | the queue holds exactly the accepted requests of the last minute |
| `RateLimiter.RetryAfterIsEnoughIff` | worldforge/observability.py:24-24 | waiting for exactly the announced time is enough if and only if less than a second was missing |

## Left out

- TextIndex.Worker.EnsureTextIndex: no other process writes the store during one call, and the file does not change. Which entries leave a full memory is left open, so the order of its use is not modelled.
- TextIndex.WideOnlineLimitMisleads: the model may fail and the times of writes are left open, so the last of the three answers is wrong in the runs in which the calls succeed and the first chunk's vector is the oldest; `TextIndex.LeftoverMisleads` starts from the store that such a run leaves.
- PrefixCache.Cache.Lookup: values are copied, so aliasing between a cached value and a returned one is not modelled; neither are the locks around the caches.
- Postings.FastIndex.CandidateIndices: the in-place update of the cached lists is modelled as storing the extended map.
- Ingestion.StepKeepsInv: `process_event` is a machine of steps over values, so that other workers can act between them, not a method; only locators of version 2 are modelled, an event without a locator is not.
- ProjectMemory.Tables.Approve: membership and project checks are one boolean; importance, confidence, review notes, excerpts and timestamps of rows are not modelled.
- ContextSelection.Compile: the score of a message is a parameter; the exponential recency term and the marker tables behind it are not modelled.
- Identity.HeadScore: the reasons attached to a score, and rounding to six digits, are not modelled; scores are real numbers.
- IngestionOutcomes.CanCompleteIff: whether two sentences of a message have the same fingerprint is taken not to depend on the scope, as for a digest without collisions; proposals staged by other callers are not part of these runs.
- IngestedMessages.ProposalsAreSentences: proposals staged by other callers are not part of these runs, as above; in all runs, `IngestedMessages.CompletedMeansEverySentence` has the fingerprint of each sentence on a proposal, and not its words.
- TextIndex.MarkersTellAll: item ids may contain the separator of the marker key; fingerprints are two numerals with a separator between them.
- HistorySnapshot.HistoryOrNothing: the hash is injective; unpaired surrogates, which the encoder drops, are not characters here.
- Budget.Broker.Pack: of the telemetry the counts and the two safety flags are modelled.
- VectorStore.Store.PruneRows: which of several equally old vectors go is left open, as it is in the query.
- ProjectJob.Materialize: the early answers for a job without project context, and the identity mismatch, are not modelled; a packet carries the item, not its rendering.
- Deleting a project's memory, relations between memories, search and scope shadowing: separate operations of the memory store.
- `drain`, the list of pending events and paging: loops over what is modelled.
- The legacy timestamp locator: it depends on job rows and floating-point round trips.
- Markers that are not decimal numerals: none is ever written; `int` accepts more spellings than digits.
- Floating-point rounding, including the square root of the candidate budget, which is an integer root here.
- Video segments, mmap search, model encoding, HTTP routes, authorisation and the front end.
