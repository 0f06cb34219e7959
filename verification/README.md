# Travel planner: a verified model of its protocols

This project models the parts of the travel planner's backend that must stay right under failure,
repetition and arbitrary input, and proves what they promise. It verifies with Dafny 4.11 by
`dafny verify dfyconfig.toml`.

| files | what they model |
|---|---|
| `Text`, `Chunker`, `Boundaries` | the recursive separator-aware chunker of the retrieval index, and where exactly it cuts compact JSON |
| `Projection`, `ProjectionSafety`, `ProjectionAgreement`, `ProjectionRuns`, `ProjectionEffects` | the private-memory projection protocol as a state machine: memories, versioned tasks, expiring leases, row locks and lost sessions, and two stores whose calls may fail half done |
| `ProjectionWorker` | the repository methods and the worker's loop step by step; every step is one event of that machine, with any events of other parties between two steps |
| `ProfileGate` | the loader that lets only current profile documents through |
| `Delivery`, `DeliveryLadder`, `DeliveryHandled` | outbox, broker and idempotent consumer as a state machine: publishing, duplicate and concurrent deliveries, several routes per message, retries, dead letters, crashes |
| `DeliveryWorker` | `publish_pending_events`, `consume_once` and `_handle_message` step by step, as runs of that machine |
| `Json`, `Drafts`, `Schema`, `Review`, `Planning`, `Refusals` | the planning workflow: a JSON draft is normalised, shape-checked, merged with a base snapshot, parsed, verified, budget-checked and reviewed in a bounded revision loop; and valid drafts that the review refuses |
| `Jobs` | the life of a generation job: the row, the copies that sessions read with and without its lock, and their writes |
| `Fusion` | reciprocal rank fusion and the status decision |
| `Quota` | quota accounting |
| `Wrappers`, `Sequences` | shared datatypes and lists without repetition |

The state machines are closed under failure: a store call may do any part of its work and fail, a
worker or consumer may stop at any step, the broker may deliver anything again, the publisher's
confirm may be lost. `Inv` collects the invariants of each machine and `RunKeepsInv` carries them
over every run. Beside them stand results that speak of rows, routes, characters and numbers only, so
that they can be read without the machines' functions: `ProjectionEffects`, `DeliveryHandled`, and the
lemmas whose names end in `Exactly`, `Means`, `Carries` or `Are`. The classes `MemorySystem` and `EventSystem` hold the tables, stores and queues as
fields that their methods change in place. What the outside world does between two steps, and
whether a call fails, is chosen arbitrarily (`:= *`).

## What the code does that its documentation does not say

- A persistently failing message is dead-lettered at delivery `max_attempts / 2 + 1`, the second
  one for the default of three, because `x-death` counts the rejection and the expiry of each
  trip (`DeliveryLadder.FreshLadderRuns`, `DeliveryLadder.RetriesInRuns`). The repository's README
  speaks of three retries (`README.md:13`).
- The chunker's comment says that only a piece with no separator at all is cut hard. A piece whose
  only separators stand at its ends is cut as well (`Chunker.SentenceCutInHalf`);
  `Chunker.HardCutExactly` gives the exact condition.
- A worker that outlives its lease can delete a document behind a completed task, and then nothing
  restores it (`ProjectionRuns.LateWorkerEmptiesIndex`). A worker whose database session is lost
  loses its row lock without noticing, and can then add old chunks to a newer document even within
  its lease (`ProjectionRuns.LostSessionSpoilsIndex`). `StoreCallKeepsAgreeExactly` says exactly
  which store calls do harm. The worker's comment also speaks of source-version order, while tasks
  are claimed in the order of their availability; the model allows any order.
- A chunk of a long memory document can be a document itself, namely an object within the memory's
  value, so that the loaded profile has a key that no memory has
  (`ProfileGate.NestedDocumentMisleads`). `ProfileGate.OnlyCurrentExactly` gives the exact condition,
  and documents of one chunk always meet it.
- Citations carry no source version (`backend/app/modules/ai_rag/types.py:177-187`), so with the
  catalog as it is the profile loader always returns nothing (`ProfileGate.NoVersionsNoProfile`).
  The model gives retrieved items an optional version, as the loader's code does.
- The review refuses valid drafts in three situations, each shown by a draft in `Refusals`: when two
  place ids differ only in white space at their ends, because the review's models strip strings;
  when a place's evidence carries a district's code, because retrieval compares city codes for
  equality; and when there are more than twenty documents of the city, because retrieval keeps the
  first twenty in the order of their chunk ids, whether a stop needs them or not.
  `Review.ApprovedExactly` gives the exact condition in terms of documents and candidates.
- One pass of the graph may use up two revisions, so it may give up after two generations.
- One outbox row whose payload is no JSON object makes the whole batch fail, and its session commits nothing.
- With the stores' limit of twenty hits each, the clarification branch is unreachable at the default
  threshold 0.35, which is below 61/160.
- Retries and the failure handler read a job without a lock, and its row has no version. If a worker
  claims the job between such a read and its write, the write returns the claimed job to the queue
  or fails it, and a second worker can claim it (`Jobs.OvertakenRetryUnclaims`).
  `Jobs.WriteKeepsInvExactly` says exactly which of these writes do harm.
- No method of the generation service cancels a generation job.

## Model

| member | source | states |
|---|---|---|
| Chunker.SplitBy | backend/app/modules/ai_rag/ingestion.py:83-96 | the loop over a capturing `re.split` yields the unique cut of the text behind its separators, leftmost and first in the list, without its white-space-only segments |
| Chunker.MatchIsFirst | backend/app/modules/ai_rag/ingestion.py:23-25 | where separators start, the match is the first of them in the order of the list, and there is no match where none starts |
| Chunker.SegmentsAreCut | backend/app/modules/ai_rag/ingestion.py:83-96 | the text is cut right behind the leftmost separator, of those that start there the first in the list, and so on from there |
| Chunker.CutIsUnique | backend/app/modules/ai_rag/ingestion.py:83-96 | there is only one such cut |
| Chunker.BlankLinesStay | backend/app/modules/ai_rag/ingestion.py:23-25 | with the paragraph level a segment ends behind both line breaks of a blank line: behind a single one no other follows |
| Chunker.LevelsInOrder | backend/app/modules/ai_rag/ingestion.py:72-79 | a long text is split at line breaks, or else at the ends of sentences, or else at those of clauses, with the source's separators |
| Chunker.HardCutIsRegular | backend/app/modules/ai_rag/ingestion.py:80-81 | a hard cut yields the text's consecutive stretches of exactly the chunk size |
| Chunker.StopsEndSentences | backend/app/modules/ai_rag/ingestion.py:114-124 | an overlap tail may start behind exactly the separators of sentences and line breaks |
| Chunker.SegmentsCover | backend/app/modules/ai_rag/ingestion.py:83-96 | the segments are in-order substrings of the text with only white space between them |
| Chunker.SplitShrinks | backend/app/modules/ai_rag/ingestion.py:72-79 | when a level yields more than one piece, each is strictly shorter than the text, so the recursion terminates |
| Chunker.SplitPieces | backend/app/modules/ai_rag/ingestion.py:68-81 | the recursion over the levels computes the specified pieces |
| Chunker.PiecesCover | backend/app/modules/ai_rag/ingestion.py:68-81 | every piece is non-empty and at most the chunk size, and the pieces are in-order substrings that cover the text up to white space |
| Chunker.CoversKeepsInk | backend/app/modules/ai_rag/ingestion.py:83-96 | a covering loses, adds and reorders no character other than white space |
| Chunker.HardCutExactly | backend/app/modules/ai_rag/ingestion.py:72-81 | a long text is cut hard if and only if at every level no separator match has other characters than white space on both sides |
| Chunker.LongSentenceIsCut | backend/app/modules/ai_rag/ingestion.py:23-25 | with the source's levels, a text longer than the size whose only separator is at its end is cut hard |
| Chunker.SentenceCutInHalf | backend/app/modules/ai_rag/ingestion.py:13-15 | with the source's levels, a sentence of two letters and its separator is cut hard all the same |
| Chunker.AssembleChunks | backend/app/modules/ai_rag/ingestion.py:98-112 | the merge loop computes the specified chunks |
| Chunker.AssembleIsGreedy | backend/app/modules/ai_rag/ingestion.py:98-112 | each chunk is the overlap tail of the chunk before it and then a group of whole pieces, and the groups are the pieces in order |
| Chunker.GreedyIsUnique | backend/app/modules/ai_rag/ingestion.py:98-112 | there is only one such greedy grouping, so the merge is determined by its description |
| Chunker.NoEarlyBreak | backend/app/modules/ai_rag/ingestion.py:103-109 | two greedy groupings of the same pieces end their first chunk at the same piece: none breaks before the next piece would overflow |
| Chunker.OverlapTailAligned | backend/app/modules/ai_rag/ingestion.py:114-124 | the tail is a suffix within the overlap budget, and if the budget holds a sentence end the tail starts right after the first one |
| Chunker.Chunk | backend/app/modules/ai_rag/ingestion.py:57-62 | chunking strips, splits and merges |
| Chunker.ChunksConserve | backend/app/modules/ai_rag/ingestion.py:57-124 | chunks decompose as tail plus body, the bodies carry exactly the text's non-white characters in order, the first chunk fits the size and every chunk the size plus the overlap |
| Chunker.ShortTextIsOneChunk | backend/app/modules/ai_rag/ingestion.py:68-71 | a stripped text that fits is stored as one unchanged chunk |
| Boundaries.TwoParagraphs | backend/app/modules/ai_rag/ingestion.py:57-124 | two paragraphs that do not fit together are two chunks, the first with the whole blank line |
| Boundaries.SegmentsAreParts | backend/app/modules/ai_rag/ingestion.py:83-96 | a text of parts that each end with their only separator is cut into exactly these parts |
| Boundaries.SecondChunk | backend/app/modules/ai_rag/ingestion.py:57-124 | the second chunk of a plain text whose last clause is too long: the overlap tail of the clauses before it, then the last clause up to its hard cut |
| Boundaries.NestedDocumentIsAChunk | backend/app/modules/ai_rag/ingestion.py:28-39 | with chunk size 800, overlap 100 and the source's levels, the second chunk of a document with an object of that shape within its value is exactly that object |
| ProjectionSafety.MutationExtends | backend/app/modules/ai_memory/postgres.py:584-744 | every mutation bumps the version by one, keeps owner, kind and key, and enqueues the task of that version in the same step |
| ProjectionSafety.KeepsTables | backend/app/modules/ai_memory/postgres.py:584-744 | one task per memory and version, no task ahead of its memory, attempt counts equal claims: kept by every event |
| ProjectionSafety.KeepsLeases | backend/app/modules/ai_memory/projection_worker.py:131-203 | an attempt owns its task as long as its lease lasts: kept by every event |
| ProjectionSafety.KeepsLocks | backend/app/modules/ai_memory/projection_worker.py:89-99 | at most one transaction holds a memory's row: kept by every event |
| ProjectionAgreement.StepFactsAdvance | backend/app/modules/ai_memory/projection_worker.py:118-123 | after each store call of the locked worker the stores hold what the calls so far promise |
| ProjectionSafety.KeepsGenuine | backend/app/modules/ai_memory/projection.py:53-79 | a store entry of a memory and version always carries a chunk of the value the memory had at that version |
| ProjectionSafety.RunKeepsInv | backend/app/modules/ai_memory/projection_worker.py:76-203 | all of these hold after every run |
| ProjectionAgreement.InLeaseIsOwned | backend/app/modules/ai_memory/projection_worker.py:131-160 | a call made before the lease expires is made by the attempt that owns the task |
| ProjectionAgreement.RunKeepsAgree | backend/app/modules/ai_memory/projection_worker.py:76-203 | over every run without a store call after its lease's expiry or without its row lock, each memory has an uncompleted task at its current version or both stores hold exactly its current projection |
| ProjectionAgreement.QuiescentIndex | backend/app/modules/ai_memory/projection_worker.py:76-203 | once all tasks are completed both stores equal the projection of the memories table |
| ProjectionAgreement.StoreCallKeepsAgreeExactly | backend/app/modules/ai_memory/projection_worker.py:87-124 | without any hypothesis on lease or lock: a store call, completed or failed with any part of its work done, keeps the agreement if and only if the current version still has a task to complete or the call takes away no entry of the current row and adds none of another version |
| ProjectionAgreement.WholeIsHarmless | backend/app/modules/ai_memory/projection_worker.py:118-123 | a completed call does neither if and only if it deletes an empty document, or writes the current row or an empty document |
| ProjectionRuns.RespectfulRunsAgree | backend/app/modules/ai_memory/projection_worker.py:76-203 | the agreement and the settled index for all runs of the system from its start without a store call after its lease or without its lock |
| ProjectionRuns.LateWorkerEmptiesIndex | backend/app/modules/ai_memory/projection_worker.py:87-99 | a reachable state with all tasks completed and no worker active whose index misses a live memory |
| ProjectionRuns.LostSessionSpoilsIndex | backend/app/modules/ai_memory/projection_worker.py:87-124 | a reachable state that agrees, and a store call in it, within its lease and by its task's owner, that breaks the agreement because the row lock was lost |
| ProjectionRuns.OneTaskPerVersion | backend/app/modules/ai_memory/postgres.py:725-744 | in every reachable state a memory has exactly one task for each version from 1 to its current one and none beyond |
| ProjectionRuns.SourceAlwaysAvailable | backend/app/modules/ai_memory/projection_worker.py:100-103 | the error that the source is not available at the requested version is unreachable |
| ProjectionRuns.AttemptsCountClaims | backend/app/modules/ai_memory/projection_worker.py:148-157 | a task's attempt count is the number of claims made on it |
| ProjectionRuns.CompletedIsFinal | backend/app/modules/ai_memory/projection_worker.py:172-184 | no event changes a completed task |
| ProjectionRuns.CompletedIsFinalInRuns | backend/app/modules/ai_memory/projection_worker.py:172-184 | nor does any run |
| ProjectionRuns.StaleStaysStale | backend/app/modules/ai_memory/projection_worker.py:131-160 | a superseded lease token is never valid again |
| ProjectionRuns.StaleChangesNothing | backend/app/modules/ai_memory/projection_worker.py:172-203 | an attempt with a superseded token changes no row, whatever it does |
| ProjectionRuns.LeaseProtects | backend/app/modules/ai_memory/projection_worker.py:131-160 | no event takes a task away from an attempt before its lease expires |
| ProjectionRuns.BackOffDoubles | backend/app/modules/ai_memory/projection_worker.py:186-189 | the delay starts at one second and doubles with every attempt until it reaches its cap |
| ProjectionEffects.MutationWrites | backend/app/modules/ai_memory/postgres.py:584-744 | column by column what creation, upsert, update and deletion write: an update and an upsert the value, a deletion the mark of deletion alone, and each the next version and its task, and nothing else |
| ProjectionEffects.AnythingMayHappen | backend/app/modules/ai_memory/projection_worker.py:76-203 | what the runs leave open in every state: the clock, recovery, claims, crashes, failures at any step and with any part of a store call done, lost sessions, and mutations of memories that are not locked |
| ProjectionEffects.NothingElseHappens | backend/app/modules/ai_memory/projection_worker.py:76-203 | what they exclude: writing or locking a row that is held, claiming a task that is not due, and store calls and completions out of their order |
| ProjectionEffects.DeletedIsFinal | backend/app/modules/ai_memory/postgres.py:666-723 | over every run a deleted memory is neither changed nor revived |
| ProjectionEffects.MutationIsShown | backend/app/modules/ai_memory/projection_worker.py:76-203 | over every run without late or unlocked store calls, once the task of a mutation is completed and while its version is current, both stores show exactly the chunks of the row it wrote |
| ProjectionEffects.DeletionEmptiesStores | backend/app/modules/ai_memory/projection_worker.py:108-123 | in particular a deleted memory keeps its key, value and owner, and once its task is completed no entry of it is left in either store |
| ProjectionEffects.UpdateIsShown | backend/app/modules/ai_memory/projection_worker.py:108-123 | and a created or updated one is live with the given value, and both stores hold every chunk of it |
| ProjectionEffects.OneTravelProfileInRuns | backend/app/modules/ai_memory/postgres.py:617-664 | over every run a user has one live travel profile at most |
| ProjectionWorker.MemorySystem.CreateMemory | backend/app/modules/ai_memory/postgres.py:584-615 | invalid arguments and unique violations change nothing; otherwise exactly the creation event happens, which inserts a live row with the given owner, kind, key and value and its task |
| ProjectionWorker.MemorySystem.UpsertProfileMemory | backend/app/modules/ai_memory/postgres.py:617-664 | inserts the travel profile or bumps the active one, which then is live with the given value, with its task; every error leaves the state alone |
| ProjectionWorker.MemorySystem.UpdateMemory | backend/app/modules/ai_memory/postgres.py:687-723 | a missing, deleted or foreign memory is reported and nothing changes; otherwise exactly the update event, after which the row is live with the given value and its other columns as before |
| ProjectionWorker.MemorySystem.DeleteMemory | backend/app/modules/ai_memory/postgres.py:666-685 | the same for deletion, after which the row is marked deleted with its key, value and owner as before |
| ProjectionWorker.MemorySystem.ClaimTask | backend/app/modules/ai_memory/projection_worker.py:131-170 | expired leases, and only they, go back to the queue; a task that was queued and due before gets the lease and one attempt more, or there was none |
| ProjectionWorker.MemorySystem.LockSource | backend/app/modules/ai_memory/projection_worker.py:87-107 | missing or older source, newer source and equal version are told apart under the row lock |
| ProjectionWorker.MemorySystem.CallStore | backend/app/modules/ai_memory/projection_worker.py:53-55 | a call that succeeds leaves no entry of the memory, or all its chunks, in its own store; one that fails does any part of that; other memories' entries and the other store stay |
| ProjectionWorker.MemorySystem.CompleteTask | backend/app/modules/ai_memory/projection_worker.py:172-184 | completes the task only under its own lease |
| ProjectionWorker.MemorySystem.RetryTask | backend/app/modules/ai_memory/projection_worker.py:186-203 | requeues the task with capped exponential back-off only under its own lease |
| ProjectionWorker.MemorySystem.RunTask | backend/app/modules/ai_memory/projection_worker.py:86-128 | one pass is a run of the protocol, interleaved with any events of others, and leaves no attempt of its own open |
| ProjectionWorker.MemorySystem.Drain | backend/app/modules/ai_memory/projection_worker.py:76-129 | the loop is a run of the protocol, makes at most `limit` claims, closes each of them, returns their number or one less, and stops early only without a task or a connection or with a failed pass |
| ProfileGate.FilterActive | backend/app/modules/ai_memory/postgres.py:761-782 | the documents that are live profile memories of the user at exactly the requested version |
| ProfileGate.VersionsByDocument | backend/app/modules/ai_memory/private_retrieval.py:43-49 | collects exactly the versions seen for each document |
| ProfileGate.LoadProfileMemory | backend/app/modules/ai_memory/private_retrieval.py:28-77 | the profile holds exactly the keys given by admitted items, each with the last value; an item is admitted if and only if its document's only retrieved version is current for the user; every failure gives the empty profile |
| ProfileGate.AdmittedIsCurrent | backend/app/modules/ai_memory/private_retrieval.py:57-72 | an admitted item, read from either store at any earlier state of the run, is a chunk of the current document |
| ProfileGate.DeletedIsForgotten | backend/app/modules/ai_memory/private_retrieval.py:28-77 | after a deletion, at any later state of any run and whatever was retrieved, no item of the memory is admitted, and every key of a profile comes from another memory |
| ProfileGate.OnlyCurrentExactly | backend/app/modules/ai_memory/private_retrieval.py:28-77 | every profile loaded from chunks of current rows has only current keys and values of the user's live profile memories if and only if no chunk of these memories reads as anything else |
| ProfileGate.ProfileIsCurrent | backend/app/modules/ai_memory/private_retrieval.py:28-77 | under that condition, every key and value loaded from items of either store at any earlier state is the current one of a live profile memory of the user, with no assumption on leases |
| ProfileGate.FromStoresAreCurrent | backend/app/modules/ai_memory/private_retrieval.py:57-72 | items read from the stores at any state of a run carry chunks of current rows where the gate admits them |
| ProfileGate.ShortDocumentsAreCurrent | backend/app/modules/ai_memory/projection.py:53-64 | the condition a caller can check: the documents of the user's live profile memories are no longer than the chunk size |
| ProfileGate.NestedDocumentMisleads | backend/app/modules/ai_memory/private_retrieval.py:80-93 | a reachable state and items read from its stores that load a key no memory has, with the source's sizes and levels |
| ProfileGate.CurrentIsLoaded | backend/app/modules/ai_memory/private_retrieval.py:50-77 | a retrieved chunk of a current document is loaded unless another version of the document was retrieved too |
| ProfileGate.ShortDocumentReadsTrue | backend/app/modules/ai_memory/projection.py:59-64 | no chunk of a memory whose document fits one chunk reads as anything but the memory's own key and value |
| ProfileGate.NoVersionsNoProfile | backend/app/modules/ai_memory/private_retrieval.py:45-56 | citations without versions give the empty profile |
| Delivery.NothingIsLost | backend/app/events/consumer.py:161-200 | in every reachable state a committed event is unpublished, on the worker or retry queue or in flight, dead-lettered, or processed by each of the routes registered for its type, of which there is one at least |
| Delivery.NewlyConfirmed | backend/app/events/publisher.py:105-124 | a row becomes published only by the commit of a publisher to which the broker had confirmed it |
| Delivery.EffectsOnce | backend/app/events/consumer.py:59-125 | for every interleaving, in immediate and deferred mode, a consumer's effects for an event are committed at most once and exactly if its idempotency row exists |
| Delivery.AckIsSafe | backend/app/events/consumer.py:184-200 | a message is acknowledged only after each of the routes registered for its type is processed or it was dead-lettered |
| Delivery.RunKeepsInv | backend/app/events/consumer.py:59-200 | the delivery invariant holds after every run |
| DeliveryHandled.MessageIsHandled | backend/app/events/consumer.py:59-200 | a run in which nothing goes wrong: the message is acknowledged, exactly the registered routes are processed, in immediate or deferred mode, and the effects of those that were not before are applied once |
| DeliveryHandled.AnythingMayHappen | backend/app/events/consumer.py:59-200 | what the runs leave open in every state: foreign messages, deliveries, expiries, lost channels and consumers, failures in a route, confirms or none, commits and crashes of publishers |
| DeliveryHandled.NothingElseHappens | backend/app/events/consumer.py:59-200 | what they exclude: publishing a malformed row, and steps of a delivery out of their order |
| DeliveryHandled.LostRaceIsSkipped | backend/app/events/consumer.py:109-125 | after an integrity error the route is skipped exactly if its row is there by then; otherwise, and after any other error, the delivery has failed, and nothing is committed |
| DeliveryHandled.KnownIsSkipped | backend/app/events/consumer.py:75-89 | a route whose row is there is skipped without its handler, and without an event id or a consumer's name the delivery fails |
| DeliveryHandled.ModesOrder | backend/app/events/consumer.py:59-125 | in immediate mode a handler runs only behind its route's inserted row, in deferred mode the row is inserted only behind the handler |
| DeliveryLadder.LastFailureExactly | backend/app/events/consumer.py:128-134 | the counts of `x-death` decide whether a failure is the last, and without any the message's own header does |
| DeliveryLadder.TripCountsTwice | backend/app/events/consumer.py:128-134 | a trip through the retry queue raises the computed attempts by two |
| DeliveryLadder.FailedDeliveryMoves | backend/app/events/consumer.py:184-199 | a failed delivery is either dead-lettered or rejected into another trip, decided by its attempts |
| DeliveryLadder.LadderLength | backend/app/events/publisher.py:154-170 | the number of deliveries of a fresh message that always fails is `maxAttempts / 2 + 1` |
| DeliveryLadder.LadderBound | backend/app/events/consumer.py:184-199 | with any headers it is at most `maxAttempts`, and one for a malformed message |
| DeliveryLadder.LadderRuns | backend/app/events/consumer.py:161-200 | from every state with the message on the worker queue there is a run with exactly that many deliveries, all failing, that dead-letters its body and changes nothing else |
| DeliveryLadder.FreshLadderRuns | backend/app/events/consumer.py:161-200 | so a freshly published message that always fails is dead-lettered at delivery `maxAttempts / 2 + 1`, a malformed one at the first |
| DeliveryLadder.KeepsLadder | backend/app/events/consumer.py:184-199 | no event but a foreign message gives a queued or unacknowledged message headers beyond the ladder |
| DeliveryLadder.RetriesInRuns | backend/app/events/consumer.py:184-199 | over every run with the publisher's messages only, a message being handled has made at most `maxAttempts / 2` trips, and a failed one is dead-lettered exactly after that many, or at once if it is malformed, and rejected otherwise |
| DeliveryWorker.EventSystem.PendingEvents | backend/app/events/publisher.py:96-102 | the first unpublished rows by creation time and id, at most the batch size, in that order, and all of them if there are fewer |
| DeliveryWorker.EventSystem.PublishPendingEvents | backend/app/events/publisher.py:81-125 | returned events are published; the other selected ones have one retry more; a payload that is no object fails the call, and then its session commits nothing; a failing commit has committed all of it or nothing |
| DeliveryWorker.EventSystem.InsertProcessed | backend/app/events/consumer.py:90-108 | the insert succeeds exactly if no committed row has the key and the event exists |
| DeliveryWorker.EventSystem.ConsumeOnce | backend/app/events/consumer.py:59-125 | after a normal return the idempotency row exists, and the result is true only if it did not exist before; after an error the delivery has failed |
| DeliveryWorker.EventSystem.HandleMessage | backend/app/events/consumer.py:161-200 | acknowledges only with each registered route processed or dead-lettered with its attempts used up, and rejects only with attempts left |
| Json.CostNotations | backend/app/modules/ai_workflows/workflow.py:1024-1035 | an integer, an integral float and a digit string denote the same cost |
| Json.CostExactly | backend/app/modules/ai_workflows/workflow.py:1024-1035 | exactly these values, and a missing cost, are read as costs |
| Drafts.AllowedIsLast | backend/app/modules/ai_workflows/dashscope.py:161-163 | the pool's dictionary gives an id the name of its last candidate |
| Drafts.NormalizeVerifiedCandidateTitles | backend/app/modules/ai_workflows/dashscope.py:157-189 | the nested loops compute the normalised draft |
| Drafts.NormalizeIdempotent | backend/app/modules/ai_workflows/dashscope.py:157-189 | normalising twice is normalising once |
| Drafts.NormalizeKeeps | backend/app/modules/ai_workflows/dashscope.py:157-189 | ids, dates, counts and every other field stay |
| Drafts.TitleCheckIsPoolCheck | backend/app/modules/ai_workflows/dashscope.py:212-213 | after normalisation the title check holds exactly when the id is in the pool |
| Drafts.ValidateDraftShape | backend/app/modules/ai_workflows/dashscope.py:191-216 | accepts exactly the drafts with title, day count, two or three activities copied from the pool, and no repeated place |
| Drafts.ActivityShapeMeans | backend/app/modules/ai_workflows/dashscope.py:202-214 | an activity passes exactly if its id and title are non-blank strings and, with a pool, the last candidate with the id has this title as its name |
| Drafts.ShapeMeans | backend/app/modules/ai_workflows/dashscope.py:191-216 | the accepted drafts by their fields: title, number of days, date and activities of each, two or three with a pool, and no place twice |
| Drafts.Generate | backend/app/modules/ai_workflows/dashscope.py:118-139 | returns the first usable answer, normalised, and none only if all attempts were unusable |
| Schema.MergeTargetSnapshot | backend/app/modules/ai_workflows/workflow.py:806-853 | one day per requested date in order: the last generated day, else the first base day's usable events, else nothing |
| Schema.EventActivityCarries | backend/app/modules/ai_workflows/workflow.py:829-847 | a base event is kept exactly if it names its place and holds the place's name and location; the activity has its place, its notes or else the name, no cost and its id |
| Schema.UsableCarries | backend/app/modules/ai_workflows/workflow.py:828-847 | the kept events of a base day, all of them and in order |
| Schema.MergedDayMeans | backend/app/modules/ai_workflows/workflow.py:816-853 | the day shown for a date is the last generated day with the date as it is; or else carries the kept events of the first base day with the date and events; or else has no activity |
| Schema.MergeIdempotent | backend/app/modules/ai_workflows/workflow.py:806-853 | merging the result again changes nothing |
| Schema.ValidateSchema | backend/app/modules/ai_workflows/workflow.py:231-293 | success returns the typed draft and it is acceptable; failure reports a defect the draft has |
| Schema.AcceptedHasNoFault | backend/app/modules/ai_workflows/workflow.py:231-293 | an acceptable draft has none of the defects, so the check succeeds if and only if the draft is acceptable |
| Schema.SetCountsDistinct | backend/app/modules/ai_workflows/workflow.py:286-287 | comparing the sizes of set and list is the test for repetition |
| Schema.DistinctPlaces | backend/app/modules/ai_workflows/workflow.py:286-287 | no id is repeated in the list of all activities if and only if no two positions of the draft have the same place |
| Schema.ActivityMeans | backend/app/modules/ai_workflows/workflow.py:263-275 | what a typed activity has in common with the JSON it was read from, field by field |
| Schema.DraftMeans | backend/app/modules/ai_workflows/workflow.py:231-276 | what a typed draft has in common with the JSON it was read from: its title, and the dates and activities of its days in order |
| Schema.ShapeLeavesFewFaults | backend/app/modules/ai_workflows/dashscope.py:191-216 | a draft accepted by the shape check on a non-empty pool is never rejected for day or activity counts, titles or uniqueness |
| Review.CityMatchesExactly | backend/app/modules/ai_workflows/workflow.py:1012-1021 | a code matches if it is the requested one, or if that is a whole city's and the first four characters agree, or two for the four municipalities |
| Review.OtherCitiesNeverMatch | backend/app/modules/ai_workflows/workflow.py:1012-1021 | outside the municipalities a code of another city never matches, two whole cities match only if equal, a narrow code matches itself only, and a district matches its city |
| Review.DocumentsAre | backend/app/modules/ai_workflows/workflow.py:893-914 | the review draws on the citations, or else on each candidate's source under the candidate's city, with the name for a missing content |
| Review.BuiltExactly | backend/app/modules/ai_agents/contracts.py:9-110 | a review request is built if and only if every field is within its limits |
| Review.ReviewItinerary | backend/app/modules/ai_agents/services.py:124-148 | the issues are, in order, a wrong city, wrong dates, each stop without evidence, each repeated place in ascending order, and a route that is not the stops; approval means none |
| Review.ReviewIsUnique | backend/app/modules/ai_agents/services.py:124-148 | this description admits one list of issues |
| Review.MissingExactly | backend/app/modules/ai_agents/services.py:137-143 | the missing-evidence issues name exactly the stops without evidence |
| Review.ReviewReportsDefects | backend/app/modules/ai_agents/services.py:124-148 | each kind of issue is reported exactly if the itinerary has that defect |
| Review.FewAreAllRetrieved | backend/app/modules/ai_agents/services.py:30-37 | if the city has no more documents than the limit, all of them are retrieved, however many other cities have |
| Review.ForeignIsNotRetrieved | backend/app/modules/ai_agents/services.py:30-37 | a chunk that only documents of other cities carry is never retrieved |
| Review.ReviewReportsOnlyEvidence | backend/app/modules/ai_workflows/workflow.py:893-983 | the review of an accepted draft reports only missing evidence, except repeated places exactly if two ids differ only in white space at their ends |
| Review.ApprovedExactly | backend/app/modules/ai_workflows/workflow.py:893-983 | an accepted draft is approved if and only if its ids stay apart when stripped and, for every stop, some document of the city with its source's chunk has fewer than twenty documents of the city before it |
| Review.CitedSourcesSuffice | backend/app/modules/ai_workflows/workflow.py:893-928 | with at most twenty documents of the city, and all sources and the first document among them, no evidence is missing |
| Review.EarlyIsRetrieved | backend/app/modules/ai_agents/services.py:30-37 | a document whose chunk no other carries is retrieved exactly if fewer documents of its city than the limit come before it by their chunks |
| Review.ForeignSourceIsRefused | backend/app/modules/ai_workflows/workflow.py:335-349 | a place whose source carries another city code than the request is always refused |
| Planning.Workflow.ValidateRequest | backend/app/modules/ai_workflows/workflow.py:196-207 | exactly the requests of one to seven days with city, identification and no negative budget pass |
| Planning.Workflow.VerifyPois | backend/app/modules/ai_workflows/workflow.py:295-308 | success keeps the draft, attaches the verifier's answers, and all of them lie in the city, which `CityMatchesExactly` spells out; failure means that no such attachment exists |
| Planning.Workflow.CheckConstraints | backend/app/modules/ai_workflows/workflow.py:436-456 | the budget decides; a revision is used up and planning repeated while two are not used up |
| Planning.Workflow.ControlledReview | backend/app/modules/ai_workflows/workflow.py:679-711 | an approved draft goes on; any other uses up a revision and is planned again, or is given up when two are used up |
| Planning.Workflow.RunLocal | backend/app/modules/ai_workflows/workflow.py:178-193 | at most three generations; it succeeds if and only if the request is valid and one of the first three attempts can be saved and those before it are over budget; a saved preview is accepted, in the city and within the budget |
| Planning.Workflow.RunGraph | backend/app/modules/ai_workflows/workflow.py:679-720 | at most three generations; it succeeds if and only if the request is valid and some attempt is approved and can be saved, where those before it were over budget or refused and used up two revisions at most, one for each of the two; a preview is saved only if the constraint check passed and the review approved that same draft |
| Planning.Workflow.LocalExactly | backend/app/modules/ai_workflows/workflow.py:178-193 | the loop's recursion meets that description |
| Planning.Workflow.GraphExactly | backend/app/modules/ai_workflows/workflow.py:679-720 | the same for the graph's loop |
| Planning.Workflow.YieldsOne | backend/app/modules/ai_workflows/workflow.py:220-308 | an attempt yields at most one verified draft |
| Planning.CostOfOne | backend/app/modules/ai_workflows/workflow.py:436-456 | the total that the budget is compared with is the sum of all activities' costs |
| Planning.NewPreview | backend/app/modules/ai_workflows/workflow.py:231-308 | a saved preview of a new itinerary has exactly the requested dates in order, two or three activities a day from the pool with the pool's titles, no place at two positions, all must-visit places, only places whose code is the requested one or one within the requested city or municipality, and keeps the budget |
| Refusals.SpacedIdsAreRefused | backend/app/modules/ai_agents/contracts.py:9-10 | a draft that may be saved, whose review request is built, and of which every review reports a repeated place |
| Refusals.DistrictCodesAreRefused | backend/app/modules/ai_workflows/workflow.py:335-349 | the same with missing evidence, for places with a district's code |
| Refusals.CrowdIsRefused | backend/app/modules/ai_workflows/runtime.py:323-417 | the same with missing evidence, for 21 cited sources that are all of the city |
| Jobs.GenerationJob.RetryJob | backend/app/modules/ai_workflows/service.py:147-162 | in the session's copy, only failed and cancelled jobs return to the queue, reset |
| Jobs.SafeCodeKeeps | backend/app/modules/ai_workflows/service.py:289-291 | an error code is stripped and cut at 64 characters, a blank one replaced |
| Jobs.JobTable.Retry | backend/app/modules/ai_workflows/service.py:147-162 | a retry decides on the row it read and later writes the columns it changed over whatever row is there then |
| Jobs.JobTable.Finalize | backend/app/workers/domain_handlers.py:877-899 | the same for the failure handler |
| Jobs.GenerationJob.StartAttempt | backend/app/modules/ai_workflows/service.py:175-202 | only a queued job is claimed, and the attempt is counted |
| Jobs.GenerationJob.MarkProgress | backend/app/modules/ai_workflows/service.py:204-232 | moves only forward, under the claim's trace id, and tells whether it moved |
| Jobs.GenerationJob.MarkUnavailable | backend/app/modules/ai_workflows/service.py:234-243 | an active job fails; a finished one is left alone |
| Jobs.GenerationJob.MarkInvalidDraft | backend/app/modules/ai_workflows/service.py:245-254 | the same with the draft's error |
| Jobs.GenerationJob.MarkNoResult | backend/app/modules/ai_workflows/service.py:256-265 | an active job succeeds without a result |
| Jobs.GenerationJob.MarkPreviewReady | backend/app/modules/ai_workflows/service.py:267-277 | an active job awaits confirmation with its preview |
| Jobs.GenerationJob.PrepareRetry | backend/app/workers/domain_handlers.py:856-874 | releases the job without looking at its status |
| Jobs.GenerationJob.FinalizeFailure | backend/app/workers/domain_handlers.py:877-899 | in the session's copy, only a queued job fails, with the error its last attempt recorded |
| Jobs.WriteKeepsInvExactly | backend/app/modules/ai_workflows/service.py:147-162 | an unlocked write keeps the job's invariant if and only if no claim is held and no preview awaits confirmation when it is made |
| Jobs.OvertakenRetryUnclaims | backend/app/modules/ai_workflows/service.py:147-202 | a run after which a claimed job is in the queue, and one after which two workers hold a claim |
| Jobs.RunKeepsInv | backend/app/modules/ai_workflows/service.py:147-287 | over all runs without a claim between an unlocked read and its write, progress is 0 when queued, 10 to 99 in a stage and 100 exactly when finished, a preview is set exactly while it awaits confirmation, and one worker at most holds a claim |
| Jobs.AttemptIsMonotoneInRuns | backend/app/modules/ai_workflows/service.py:204-232 | in such runs, within an attempt stage and progress never decrease |
| Jobs.HeldIsExclusive | backend/app/modules/ai_workflows/service.py:204-232 | while a claim is held, an event that is not its own, with a wrong trace id or otherwise, changes the job if and only if it is the write of a session that the claim has overtaken |
| Jobs.ClaimsAreConserved | backend/app/modules/ai_workflows/service.py:147-202 | over every such run claims plus give-ups plus queued at the end equal queued at the start plus returns to the queue, and the attempt count is the number of claims |
| Jobs.StagesInOrder | backend/app/modules/ai_workflows/service.py:34-43 | the order of the stages |
| Jobs.ReportsRise | backend/app/workers/domain_handlers.py:766-773 | the worker's progress table rises with the order of the stages |
| Jobs.RunGeneration | backend/app/workers/domain_handlers.py:725-831 | a delivery works only on a queued job and ends the session's copy finished, or queued exactly if the handler raises |
| Fusion.Merge | backend/app/modules/ai_rag/retrieval.py:65-80 | one list added to the dictionary: the matching hits' shares are summed per chunk and the first hit is kept |
| Fusion.Rank | backend/app/modules/ai_rag/retrieval.py:84 | the keys in descending order of score, equal scores in the order of insertion, none lost or repeated |
| Fusion.Fuse | backend/app/modules/ai_rag/retrieval.py:62-92 | the at most eight best chunks by the sum of 1/(60+rank) over both lists, in descending order, with first hit's content and normalised score; nothing left out scores more |
| Fusion.ServesOnlyFiltered | backend/app/modules/ai_rag/retrieval.py:65-92 | every context comes from a hit whose visibility and status are the filter's, and whose city, domain and user are too where these are set; so nobody is served another user's memory |
| Fusion.ServesAllFiltered | backend/app/modules/ai_rag/retrieval.py:65-92 | every such hit's chunk is served, or eight others that score at least as much |
| Fusion.ScoreOfRanks | backend/app/modules/ai_rag/retrieval.py:77-89 | the score of a chunk that both lists have once is that of its two ranks |
| Fusion.ScoreOfOneRank | backend/app/modules/ai_rag/retrieval.py:77-89 | and of one that only one list has, that of its rank |
| Fusion.Retrieve | backend/app/modules/ai_rag/retrieval.py:36-60 | blank query, failing stores, empty, low and sufficient scores give their statuses; what is served meets the filter |
| Fusion.NormalisedBounds | backend/app/modules/ai_rag/retrieval.py:83-89 | with at most twenty hits a store every score is at least 61/160, and at most 1 if hashes are distinct |
| Fusion.NeverClarifies | backend/app/modules/ai_rag/retrieval.py:55-59 | clarification is unreachable for thresholds up to 61/160 |
| Fusion.ClarifiesAboveFloor | backend/app/modules/ai_rag/retrieval.py:55-59 | for every higher threshold a single match at the last rank reaches it |
| Quota.MonthsPartition | backend/app/modules/ai_entitlements/service.py:59-66 | an instant lies in its month, and exactly the instants of a month have its bounds |
| Quota.BeforeIsCalendar | backend/app/modules/ai_entitlements/service.py:59-66 | instants are ordered by year, month and seconds |
| Quota.PayingPeriod | backend/app/modules/ai_entitlements/service.py:74-82 | the period that pays is the user's and current; it is a membership exactly if the user has a current one, then one that ends last, and else the free period of the month |
| Quota.Entitlements.ActiveMembership | backend/app/modules/ai_entitlements/service.py:129-140 | the membership period around now that ends last, or none |
| Quota.Entitlements.FreePeriod | backend/app/modules/ai_entitlements/service.py:142-162 | returns the month's free period and creates it only if there was none, so there is one at most |
| Quota.Entitlements.Consume | backend/app/modules/ai_entitlements/service.py:74-90 | succeeds exactly if the active source's balance is positive, changes one counter by one, and keeps counters within 0 and the limit and equal to their start plus outstanding consumptions |
| Quota.Entitlements.Release | backend/app/modules/ai_entitlements/service.py:92-102 | gives one back but never goes below zero; releasing an outstanding consumption keeps the ledger conserved |
| Quota.Entitlements.Balances | backend/app/modules/ai_entitlements/service.py:104-127 | the free balance is the limit less what the month's free period has used, the membership's that of the active one, and the active source's balances are those that decide consumption |

## Left out

- ProjectionWorker.MemorySystem.ClaimTask: does not fix which eligible task is taken; the ORDER BY and SKIP LOCKED of the claim only choose among them.
- DeliveryWorker.EventSystem.ConsumeOnce: holds for handlers that do not commit their transaction themselves; handlers that do are not modelled, nor are the effects of terminal failure handlers.
- DeliveryWorker.EventSystem.PendingEvents: orders ids by code points, where the database may use another collation; a failing query is not modelled.
- ProfileGate.ShortDocumentsAreCurrent: parser and renderer are parameters, and parsing a rendered document gives back its key and value or fails.
- ProfileGate.OnlyCurrentExactly: its converse takes the misread chunk as retrieved; `NestedDocumentMisleads` shows one in a reachable state.
- Review.BuildReview: checks the lengths, ranges, counts and the city-code pattern of the review's models; costs and dates are well-typed by construction.
- Jobs.RunGeneration: runs on one session's copy of the job, so crashes and other parties' steps between its steps are left to the runs of `Jobs.System`.
- Jobs.JobTable: isolation below the level of single statements is not modelled; each read and each flush is atomic.
- Jobs.GenerationJob.MarkUnavailable: texts of messages are not modelled, only the error codes.
- Quota.Entitlements.ActiveMembership: between periods with equal ends it takes the lowest key where the database may take any.
- Fusion.Fuse: scores are real numbers, so ties and bounds that depend on floating-point rounding are not modelled.
- Effects of a store request that arrive after its worker has crashed.
- The confidence, the source text and the timestamps of memories, apart from the validation of arguments.
- Parsing and printing of JSON, dates and regular expressions: parsers, calendars and renderers are parameters with stated laws; `int` of more than 4300 digits is not modelled.
- The preparation of the candidate pool: the pool is an arbitrary list, which may repeat ids.
- `GenerationJobService.create`, which replays idempotent requests and checks targets: guards on tables outside the model.
- Liveness: a job whose worker stops between claim and finish stays in its stage, and a wait for a row lock may last forever.
- The envelope's fields apart from the event's id and type, and the conversion of payloads and timestamps.
- The narrowing of profile memory to typed records in the graph's workflow.
- The other event handlers, HTTP routers, front ends, orders, exports, and the clients of language models, maps and payment: plumbing around these protocols or foreign calls.
