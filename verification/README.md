# opencode-master, verified model

A Dafny model of the coordinator that places OpenCode sessions on workers, fences them with lease
epochs and delivers their events, with proofs about every run of it. `dafny verify dfyconfig.toml`
checks everything.

## How the model is laid out

| part | files |
|---|---|
| placement | `HashString`, `ConsistentHash`, `Load`, `Placement` |
| shared tables and services | `Records`, `WorkerRegistry`, `SessionService`, `Scheduler`, `TurnService`, `EventJournal`, `Ingest` |
| the failover protocol | `Protocol` (state machine), `Fencing`, `LeaseLoss`, `Revival`, `Quota`, `Liveness`, `Health`, `TurnSafety`, `TurnEnds`, `Admission`, `Scenarios` (concrete runs), `Master` (request handlers), `Idempotency` |
| event delivery | `EventStream`, `SseStitch`, `SseOrder`, `FrameDecoder`, `StreamHub`, `Reporting`, `WorkerPublish`, `SessionActor`, `ActorFailures` |
| workspaces | `Paths`, `Manifests`, `CommitRace`, `WorkspaceStore`, `WorkspaceSync` |
| host language | `Prelude`, `Sequences`, `Text` |

Classes of the original that update state are classes here; each method is specified by a function of
the old state, and the lemmas speak about those functions and about runs of them. `Protocol.Step` lists
the calls that can happen; `Protocol.Exec` runs any sequence of them, in any order.

What is assumed:

- One service call, one event ingest and one scheduler pass are atomic. The original reads and then
  writes without a transaction, over a synchronous SQLite handle (`src/db/client.ts:12-19`). A prompt is
  **not** atomic in the protocol: its service calls and the answer of the worker are separate steps, and
  anything may come between them. Over the synchronous handle only the call of the worker
  (`src/http/server.ts:192`) really lets other requests in; the steps between the service calls cover a
  database that answers later, and `Scenarios.InterruptedAdmissionStrands` needs one.
- The same holds for a stream: over the synchronous handle only microtasks lie between the read of the
  replay and its delivery (`src/http/server.ts:445-446`), so events come in between (`SseOrder`) only when
  the continuation of another request runs among them or the database answers later.
- `Manifests` takes a commit as one step; `CommitRace` takes its check and its two file writes as three
  steps, which is how they happen.
- Clocks and generated ids are parameters of every call, without any assumption; a generated id that is
  already in use makes the insert fail, as the primary keys do. One scheduler pass uses one time.
- A table scan without an order clause returns rows in the order of insertion.
- `Array.prototype.sort` is stable; `Sequences.StableSortIsUnique` shows that this fixes its result.
- Loads are real numbers, so `NaN` and rounding do not occur.
- A digest is any function; where collisions matter a theorem names the contents that must not collide.
- Strings that are hashed or compared by code unit are sequences of 16-bit units.

## What is proved of the code, and what is not true of it

- A worker that lost its lease on a session never writes to it again, every event of a session is stored
  under epochs that never decrease, and one epoch has one worker (`Fencing`).
- A current lease stays current over a run **if and only if** no step takes it, and `LeaseLoss.TakesLease`
  lists those steps. So a fresh turn holds the lease of its session **if and only if** the session was
  still owned by the routed worker when it was loaded and no step took it since
  (`Admission.FreshTurnLeadsIff`), and a dispatched turn is stranded by the answer of its worker **if and
  only if** it is unfinished and a step took its session during the call
  (`Admission.DispatchedTurnStrandsIff`). `Scenarios.FailoverDuringCallStrands` is such a run.
- A turn is dispatched at most once; it can still end **if and only if** its lease is current or its
  request is still open (`TurnSafety.TurnCanEnd`). A stranded turn stays as it is and blocks its session
  for good (`TurnSafety.StrandedForever`, `TurnSafety.StrandedBlocksSession`).
- A turn is completed over a run **if and only if** an accepted idle event of it came while it was unfinished,
  and failed **if and only if** an accepted error event or the refusal of its dispatch did, with that message
  (`TurnEnds.TurnEndsIff`).
- Prompts on one session whose keys trim to the same text add and dispatch one turn, whatever lies between them
  (`Idempotency.SameKeyAddsOneTurn`, `Idempotency.RetriedPromptRunsOnce`).
- A scheduler pass marks a worker **if and only if** it was not unhealthy and its last registration or heartbeat
  is older than the timeout (`Liveness.PassMarksIff`); with a clock that does not go back, if and only if none
  falls within the timeout before the pass (`Liveness.SilentAreMarked`).
- A session that is created leaves its user within the quota. A user stays within it throughout a run **if and
  only if** no step revives an ended session of that user at the limit, because a prompt does not look at the quota
  (`Quota.QuotaHoldsIff`); `Scenarios.RevivalExceedsQuota` is such a run.
- The chosen worker is one of the first candidates clockwise on the ring, and no other of them is less loaded in
  one counter that is not saturated and no more loaded in any (`Placement.PlaceIsACandidate`,
  `Placement.PlaceIsNotDominated`).
- An ended session has no owner, and it stays ended over a run **if and only if** no step is a prompt on it
  while some worker is healthy (`Revival.EndedStaysEndedIff`): such a prompt does not ask for the status and
  assigns the session under its next epoch, as in the run of `Scenarios.PromptRevivesEnded`.
- No session is owned by an unhealthy worker, as long as no one marks a worker unhealthy by hand: then it
  fails exactly when that worker owns a session, and no later pass repairs it (`Health`).
- The live and replayed events of a stream are each sent once under every interleaving (`SseStitch`). They
  go out in order **if and only if** every live event that was not sent already is beyond all rows sent
  before it and, when the replay is delivered, no row it adds is older than an event sent live
  (`SseOrder.SentInOrderIff`). With the replay read together with the subscription, as in the original, that
  is so **if and only if** the live events went out in order and every replayed row older than one of them
  was itself sent live (`SseOrder.ReadWithSubscriptionIff`): an event stored after the read and published
  before the delivery overtakes every replayed row that did not go out live before it.
  The stream writes the row id into the `id:` field
  (`src/http/server.ts:442`) but reads the cursor as a sequence number (`src/services/event-journal.ts:32`),
  so a client that resumes with `last-event-id` has the cursor `NotANumber` and is replayed nothing
  (`SseStitch.OldRowsNeedTheCursor`).
- A worker that restarts numbers its events from 1 again. An event under a source id already stored is
  acknowledged and dropped (`Reporting.AcceptedIsStored`); in the run of
  `Scenarios.RestartedWorkerLosesEvents` that is the final event of a later turn, which ends all the same.
- An event of a worker process that does not restart is stored exactly once when it is acknowledged and at
  most once otherwise, because its hub gives each number once (`WorkerPublish.PublishedExactlyOnce`).
- The work queue of a session runs one task at a time (`SessionActor`). Its comment says that "no heartbeat
  callback may publish around it" (`src/worker/session-actor.ts:1-4`), which says nothing of failures: a
  failure is published by an error handler behind the queue
  (`src/worker/index.ts:93`, `src/worker/index.ts:112`): it can meet the next task of the session **if and
  only if** one is queued behind the failing one (`ActorFailures.ReportsOverlapIff`).
- A bounded hub replays what an unbounded one would **if and only if** the cursor is not older than the
  retained window (`StreamHub.BoundedReplayIsFull`).
- Overlapping commits lose no finished commit from the chain **if and only if** every move of the head is to
  a manifest whose parent is still the head, or that is the head already (`CommitRace.NothingIsLostIff`).
  The original checks only before it writes, so two commits on one head both succeed and the first is lost
  unless both have the same content (`CommitRace.OverlappingCommitsFork`, and as a run of steps
  `CommitRace.TwoWritersLoseIff`).
- An accepted path may end at the root, as `a/../` does; its reference is then kept beside the directory of
  the workspace and not below it, and only then (`Paths.RefBelowIff`, `Paths.ClimbingBackIsAccepted`).
- A commit takes exactly the listed files of whose path no component begins with a dot
  (`WorkspaceSync.CommitTakesShownFiles`), and hydrating it at once gives exactly those back
  (`WorkspaceSync.CommitThenHydrateAtOnce`).
- Hydrating a version restores the committed tree **if and only if** every path was last left with the
  committed content, because objects are read by path (`WorkspaceSync.CommitThenHydrate`). A commit that is
  rejected has already overwritten the objects, so the head may no longer restore
  (`WorkspaceSync.RejectedCommitOverwrites`).

## Model

| member | source | states |
|---|---|---|
| `HashString.ComputeHash` | src/placement/consistent-hash.ts:14-26 | the loop over 16-bit units with 32-bit wrap-around computes the finalised FNV-1a hash as an unsigned number |
| `HashString.FinalizeIsPermutation` | src/placement/consistent-hash.ts:20-25 | the avalanche finalizer is a permutation of the 32-bit values, with its inverse written out |
| `HashString.CollisionIsPrefixCollision` | src/placement/consistent-hash.ts:14-26 | two strings with a common suffix collide exactly when the states before that suffix agree |
| `HashString.OneUnitNeverCollides` | src/placement/consistent-hash.ts:14-26 | strings of one length that differ in exactly one unit never collide |
| `HashString.KnownValues` | src/placement/consistent-hash.ts:14-26 | the values of the empty text and of "a" are the published ones of FNV-1a, and what the finalizer makes of them |
| `Sequences.FilterSort` | src/placement/consistent-hash.ts:38 | a stable sort commutes with filtering |
| `Sequences.StableSortIsUnique` | src/placement/consistent-hash.ts:38 | any two sorted lists that keep the order of equal keys are the same list |
| `ConsistentHash.BuildRing` | src/placement/consistent-hash.ts:30-40 | the loops and the sort build the ring ordered by point, holding for every entry and every `i` below its count the hash of the id, a colon and the decimal text of `i`, and nothing else |
| `ConsistentHash.VnodeCountMeaning` | src/placement/consistent-hash.ts:33 | the count is `vnodes` times the weight to the nearest whole number, halves up, and at least 1 |
| `ConsistentHash.VnodeKeyInjective` | src/placement/consistent-hash.ts:35 | virtual nodes of different workers, or different nodes of one worker, have different keys |
| `ConsistentHash.DecimalMeaning` | src/placement/consistent-hash.ts:35 | the text of a number has that value and no leading zero |
| `ConsistentHash.FindStart` | src/placement/consistent-hash.ts:53-65 | the binary search on a sorted ring returns the first index at or above the target, or 0 when there is none |
| `ConsistentHash.RotationIsClockwise` | src/placement/consistent-hash.ts:54-69 | the ring rotated to that index is its points at or above the target followed by those below |
| `ConsistentHash.FindCandidates` | src/placement/consistent-hash.ts:46-76 | search and walk together return the first `count` distinct live workers clockwise from the key |
| `ConsistentHash.Walk` | src/placement/consistent-hash.ts:66-75 | the walk with its seen set and wrap-around yields the distinct live owners in clockwise order, cut at `count` |
| `ConsistentHash.CandidatesMeaning` | src/placement/consistent-hash.ts:46-76 | candidates are distinct, alive, on the ring, a prefix of the full preference list, and as many as `count` allows |
| `ConsistentHash.FilteringEqualsRebuilding` | src/placement/consistent-hash.ts:30-76 | skipping dead workers during the walk gives the list of a ring built without them |
| `ConsistentHash.MinimalDisruption` | src/placement/consistent-hash.ts:42-76 | removing a worker keeps the other candidates in order, adds at most one, and changes nothing for keys that did not use it |
| `Load.PickLeastLoaded` | src/placement/load.ts:20-32 | returns the earliest item of minimal score, nothing only for an empty list |
| `Load.ScoreRange` | src/placement/load.ts:11-18 | with non-negative counters every score lies between 0 and 1 |
| `Load.SharesAddUp` | src/placement/load.ts:11-18 | the score is the sum of the scores of its five groups of counters alone |
| `Load.SharesAre` | src/placement/load.ts:11-18 | idle scores 0; full processor, full memory, eight drains, eight queued and sixteen tools score 0.4, 0.15, 0.3, 0.1 and 0.05, in proportion below |
| `Load.ScoreGrowsIff` | src/placement/load.ts:11-18 | the score grows with every counter, and strictly if and only if one that is not saturated grows |
| `Placement.ChoosePlace` | src/services/session-service.ts:47-54 | the placement loop returns the worker the placement function names |
| `Placement.PlaceIsEligible` | src/services/session-service.ts:47-54 | the chosen worker is healthy and not the excluded one; there is none exactly when nobody else is healthy |
| `Placement.PlaceIsLeastLoaded` | src/services/session-service.ts:52-53 | it is the earliest minimal score among the ring candidates, or among all healthy workers when there are none |
| `Placement.PlaceIsACandidate` | src/services/session-service.ts:48-53 | the chosen worker is one of the first candidates clockwise from the user on the ring of 96 nodes for each worker |
| `Placement.PlaceIsNotDominated` | src/services/session-service.ts:52-53 | no other candidate is less loaded in an unsaturated counter and no more loaded in any |
| `Placement.PlacementWalksTheFullRing` | src/services/session-service.ts:48-52 | the ring of healthy workers gives the candidates that the ring of all workers gives with the dead skipped |
| `WorkerRegistry.WorkerRegistry.Register` | src/services/worker-registry.ts:46-83 | inserts or updates the row, field by field: the address, status ok and the time are new, fields that are not given keep their value, no other row changes |
| `WorkerRegistry.WorkerRegistry.Heartbeat` | src/services/worker-registry.ts:101-122 | records the time and the load, heals an unhealthy worker, keeps a draining one and every other field and row; hands out each queued instruction once, rejects an unknown id; the view returned differs from the stored row exactly for a blank configuration version |
| `WorkerRegistry.WorkerRegistry.EnqueueInstruction` | src/services/worker-registry.ts:25-29 | appends to the queue of one worker and no other |
| `WorkerRegistry.WorkerRegistry.HealthyWorkers` | src/services/worker-registry.ts:96-99 | exactly the workers with status ok, each once, in table order |
| `WorkerRegistry.WorkerRegistry.Sweep` | src/services/worker-registry.ts:133-147 | marks exactly the workers without a heartbeat since the cutoff that were not yet unhealthy, changes nothing else and returns them in table order |
| `WorkerRegistry.SweptIdsAreTheNewlyStale` | src/services/worker-registry.ts:133-147 | the swept are exactly the workers without a heartbeat since the cutoff that were not yet unhealthy, each once |
| `SessionService.SessionService.Create` | src/services/session-service.ts:56-73 | refused for the quota exactly when the user has that many sessions that are not ended; otherwise the new row is the input, field by field, with epoch 1 and the chosen owner, and no other row changes; on an error nothing does |
| `SessionService.SessionService.WorkerForPrompt` | src/services/session-service.ts:91-100 | keeps a healthy owner and changes nothing, otherwise moves the session to another worker under the next epoch and touches no other field and row |
| `SessionService.SessionService.RehomeWorkerSessions` | src/services/session-service.ts:104-113 | the loop moves every non-ended session of the worker to its next epoch and lists them in table order |
| `SessionService.SessionService.End` | src/services/session-service.ts:120-123 | ends the session and releases its owner, keeping the epoch |
| `SessionService.OrphanIdsMeaning` | src/services/session-service.ts:105-110 | the listed sessions are exactly the non-ended ones owned by the worker, each once |
| `SessionService.RehomedRows` | src/services/session-service.ts:104-113 | a session that the worker owns and that is not ended moves to another healthy worker, or to none when there is none, under the next epoch; every other stays as it is |
| `SessionService.OpenCountMeaning` | src/services/session-service.ts:58 | the count compared with the quota is that of the sessions of the user that are not ended |
| `Scheduler.RehomeNext` | src/services/scheduler.ts:13 | rehoming worker after worker equals rehoming all of them at once, since no session moves onto a swept worker |
| `Scheduler.Scheduler.RunOnce` | src/services/scheduler.ts:10-15 | the nested loops perform the sweep followed by the simultaneous rehoming, and report both lists |
| `Scheduler.RehomedIdsMeaning` | src/services/scheduler.ts:12-14 | the report lists exactly the non-ended sessions of the swept workers, each once |
| `Scheduler.PassMeaning` | src/services/scheduler.ts:10-15 | a pass raises exactly the epochs of the rehomed sessions, each by 1, gives them no swept worker, and touches no other session |
| `TurnService.AdmissionKeepsInvariants` | src/services/turn-service.ts:42-58 | admission keeps client keys unique per session and at most one unfinished turn, and disturbs no turn |
| `TurnService.TurnService.CreateOrGet` | src/services/turn-service.ts:42-58 | the key is the trimmed one of the client, or the generated one when that is missing or blank; a turn of the session with that key is returned and nothing changes, an active turn refuses, otherwise one pending turn with the given fields is inserted; keeps both invariants |
| `TurnService.TurnService.Active` | src/services/turn-service.ts:32-35 | returns an unfinished turn exactly when there is one, and then the only one |
| `TurnService.TurnService.Lease` | src/services/turn-service.ts:60-65 | leases an unfinished turn of that worker and epoch, at that time, otherwise changes nothing and returns false |
| `TurnService.TurnService.Complete` | src/services/turn-service.ts:67-73 | completes it under the same guard, with the time of completion and no other field |
| `TurnService.TurnService.Fail` | src/services/turn-service.ts:79-84 | fails it under the same guard, with the message and no time of completion |
| `Text.TrimMeaning` | src/services/turn-service.ts:43 | trimming takes away the white space at both ends of a text and nothing else |
| `Text.TrimIsUnique` | src/services/turn-service.ts:43 | which determines the trimmed text |
| `EventJournal.AppendKeepsLog` | src/services/event-journal.ts:20-29 | append keeps the numbers of every session 1..n and sources unique; a new source adds one row at the end, a known one changes nothing; other sessions are unaffected |
| `EventJournal.KnownSourceIsUnique` | src/db/migrate.ts:22 | a session and source id determine the row |
| `EventJournal.ReplayMeaning` | src/services/event-journal.ts:31-34 | replay after k is the log of the session without its first k rows, everything without a cursor, nothing for a cursor that is no number |
| `EventJournal.FractionalCursor` | src/services/event-journal.ts:32 | a cursor that is no integer selects what its integer part selects |
| `Protocol.StepAdvancesSessions` | src/services/session-service.ts:91-123 | every step keeps each session and advances its lease: a later epoch, or the same with the owner kept or released |
| `Protocol.StepEvolvesTurns` | src/services/turn-service.ts:42-84 | every step keeps keys unique, one active turn, identities, and finished turns as they are |
| `Protocol.StepExtendsJournal` | src/http/server.ts:282-293 | every step adds at most one row, under a lease current at that moment |
| `Fencing.LeasesAdvance` | src/services/session-service.ts:91-123 | over every run epochs never decrease |
| `Fencing.OneOwnerPerEpoch` | src/services/session-service.ts:91-123 | over every run a session has at most one owner in each epoch |
| `Fencing.LostForGood` | src/services/turn-service.ts:86-89 | a worker and epoch that stopped being current never become current again, and no event is stored under them |
| `Fencing.StaleWorkerNeverWrites` | src/http/server.ts:286 | once a lease is lost every envelope under it is refused in every continuation |
| `Fencing.JournalStaysValid` | src/services/event-journal.ts:20-29 | over every run the journal only grows at its end and stays numbered without gaps |
| `Fencing.JournalRespectsFailover` | src/http/server.ts:282-293 | in every reachable state events carry the session, worker and epoch of their turn, epochs never decrease along a session, and one epoch belongs to one worker |
| `LeaseLoss.StepKeepsLeaseIff` | src/services/session-service.ts:91-123 | a step keeps a current lease current if and only if it is no sweep of the owner, no prompt that moves the session off an unhealthy owner, and no end of the session |
| `LeaseLoss.RunKeepsLeaseIff` | src/services/session-service.ts:91-123 | a lease stays current over a run if and only if none of its steps is one of those |
| `Revival.EndedNeverOwned` | src/services/session-service.ts:120-123 | in every reachable state an ended session has no owner |
| `Revival.StepKeepsEndedIff` | src/services/session-service.ts:91-100 | a step keeps an ended session ended if and only if it is no prompt on it that finds a healthy worker |
| `Revival.RevivedUnderNextEpoch` | src/services/session-service.ts:91-100 | such a prompt assigns it to a healthy worker under the next epoch |
| `Revival.EndedStaysEndedIff` | src/services/session-service.ts:91-123 | from every reachable state an ended session stays ended throughout a continuation if and only if no step of it is such a prompt |
| `TurnSafety.TurnStateMachine` | src/http/server.ts:177-196 | in every reachable state: one unfinished turn per session, one turn per client key, none dispatched twice, finished for good |
| `TurnSafety.TurnCanEnd` | src/http/server.ts:282-293 | from a reachable state some continuation ends an unfinished turn if and only if its lease is current or its request is in flight |
| `TurnSafety.StrandedForever` | src/services/turn-service.ts:67-84 | without either, the turn stays as it is and so does its situation, in every continuation |
| `TurnSafety.StrandedBlocksSession` | src/services/turn-service.ts:46-47 | and none admits another turn to its session |
| `TurnSafety.RestartStrandsIff` | src/http/server.ts:192-195 | a restart of the master strands exactly the unfinished turns without a current lease |
| `TurnEnds.AcceptedIff` | src/http/server.ts:284-289 | an event is accepted if and only if it is complete, names its turn's own lease, that lease is current, and it is known or comes with an unused row id |
| `TurnEnds.EventEnds` | src/http/server.ts:290-291 | an accepted idle event completes its unfinished turn at that time, an accepted error event fails it with its message or the default one; no other kind and no other turn |
| `TurnEnds.StepEndsIff` | src/http/server.ts:193 | a step completes or fails a turn if and only if it is such an event or the refusal of its dispatch |
| `TurnEnds.TurnEndsIff` | src/http/server.ts:177-293 | over every run a turn is completed at a time, or failed with a message, if and only if some step did that |
| `Health.NoUnhealthyOwner` | src/services/scheduler.ts:10-15 | without marking by hand, no reachable state has a session owned by an unhealthy worker, and ended sessions have no owner |
| `Health.ManualMarkBreaksOwners` | src/services/worker-registry.ts:124-127 | marking by hand breaks that exactly when the worker owns a session |
| `Health.PassSkipsMarkedWorkers` | src/services/worker-registry.ts:141-145 | and a scheduler pass leaves its sessions where they are |
| `Liveness.BeatIsOnRecord` | src/services/worker-registry.ts:46-122 | in every reachable state a worker is registered exactly when it has a last sign of life, and that time is on record |
| `Liveness.PassMarksIff` | src/services/worker-registry.ts:133-147 | after any run a pass marks a worker if and only if it was not unhealthy and its last sign of life is older than the timeout |
| `Liveness.SilentAreMarked` | src/services/worker-registry.ts:133-147 | with a clock that does not go back, if and only if no registration or heartbeat of it falls within the timeout before the pass |
| `Quota.StepKeepsQuotaIff` | src/services/session-service.ts:57-60 | a user within the quota is within it after a step if and only if the step does not revive an ended session of that user at the limit |
| `Quota.QuotaHoldsIff` | src/services/session-service.ts:57-60 | a user stays within the quota throughout a run if and only if no step of it does that |
| `Quota.CreationIsWithin` | src/services/session-service.ts:56-73 | in any state, a creation that succeeds adds one session and leaves its user within the quota |
| `Admission.AtomicAdmissionLeads` | src/http/server.ts:180-186 | an admission without interruption creates a turn under the current lease |
| `Admission.LeadingTurnStaysBehind` | src/http/server.ts:180-186 | from then on its epoch is at most the epoch of its session, and equal only while nobody else owns it |
| `Admission.FreshTurnLeadsIff` | src/http/server.ts:180-186 | with any steps of others between routing, loading and creating, the fresh turn holds the current lease if and only if the session was owned by the routed worker when loaded and no step took it since |
| `Admission.DispatchedTurnStrandsIff` | src/http/server.ts:186-195 | with any steps of others during the call of the worker, its answer strands the turn if and only if it is unfinished and a step took its session |
| `Scenarios.FailoverDuringCallStrands` | src/http/server.ts:186-195 | a run in which the prompt is admitted at once and a sweep during the call of the worker strands its turn |
| `Scenarios.InterruptedAdmissionStrands` | src/http/server.ts:180-186 | a run, with a database that answers later, in which a failover between the service calls dispatches a turn that never held a lease |
| `Scenarios.RestartedWorkerLosesEvents` | src/worker/index.ts:54-57 | a run in which a restarted worker reports its event 1 again under a current lease: it is acknowledged and ends its turn, and is not stored |
| `Scenarios.PromptRevivesEnded` | src/services/session-service.ts:91-100 | a run in which a session is created, ended and prompted, and is then owned under epoch 2 |
| `Scenarios.RevivalExceedsQuota` | src/services/session-service.ts:91-100 | with a quota of 1, a run that ends a session, creates another and prompts on the first: both are open |
| `Master.Master.AdmitPrompt` | src/http/server.ts:177-195 | refuses exactly an unknown session and a user who is not its owner, and blank content; otherwise the handler dispatches exactly when it created and leased a turn under the trimmed key, and then to the healthy owner under the current lease; a key the session has answers with its turn or fails for want of a worker, and changes no turn |
| `Master.Master.CreateAndLease` | src/http/server.ts:184-186 | a fresh turn under the trimmed key is leased to the worker it was created for, a repeated key answers with its turn, and it or an active turn leaves the turns as they are; the lease cannot be stale |
| `Master.PromptIsARun` | src/http/server.ts:177-195 | the handler is a run of the protocol |
| `Master.PromptMeaning` | src/http/server.ts:180-186 | what that run does to the tables, by the outcome of placement and admission |
| `Master.Master.TriggerSchedule` | src/http/server.ts:323-400 | refuses a blank task or prompt and changes nothing; otherwise creates the session and prompts on it as the prompt handler would, and dispatches exactly when it succeeds: a new turn of a session that did not exist, under its current lease |
| `Master.TriggerIsARun` | src/http/server.ts:323-400 | once the session is created the trigger is a run of the protocol, so every result about runs covers it |
| `Master.NewSessionHasNoTurn` | src/http/server.ts:355-367 | a session that did not exist has no turn and no taken key, so the trigger may lease without asking whether its turn was created |
| `Master.Master.WorkerAnswered` | src/http/server.ts:193 | a refusal fails the unfinished turn under its own lease with the message, and nothing else changes |
| `Master.Master.IngestWorkerEvent` | src/http/server.ts:282-293 | refuses an incomplete envelope and one that is not under its turn's current lease; otherwise stores the row field by field unless its source is known, publishes it to the streams of the session and ends the turn as its kind says; a refused envelope changes nothing |
| `Master.Master.SettleTurn` | src/http/server.ts:290-291 | an idle event completes the unfinished turn of that lease at that time, an execution error fails it with its message or the default one, any other kind and any other turn stays |
| `Master.Master.OpenStream` | src/http/server.ts:430-446 | refuses exactly an unknown session and a user who is not its owner; otherwise a new stream is subscribed to the session and the rows to replay are those beyond the cursor |
| `Master.Master.End` | src/http/server.ts:313 | refuses exactly an unknown session and a user who is not its owner, otherwise ends the session |
| `Master.Master.Control` | src/http/server.ts:294-299 | refuses exactly an unknown session and a user who is not its owner; yields the unfinished turn exactly when the healthy owner holds it under the current lease, and which error otherwise |
| `Idempotency.AdmittedByKey` | src/services/turn-service.ts:42-58 | a request adds a turn under its trimmed key, or the generated one, if and only if no turn of the session has that key, none is unfinished and the id is new; otherwise it only goes away |
| `Idempotency.SameKeyAddsOneTurn` | src/services/turn-service.ts:42-58 | from every reachable state, once a request added a turn under a key, no later one on the session whose key trims to the same text adds or dispatches another |
| `Idempotency.RetriedPromptRunsOnce` | src/http/server.ts:177-195 | a prompt that dispatched a turn is sent again with that key after any steps: nothing is added or dispatched, and the turn under the key is the first |
| `Reporting.MasterEventReporter.Report` | src/worker/event-reporter.ts:16-31 | the retry loop stops at the first accepted answer, after at most `retryCount` attempts |
| `Reporting.ReportedExactlyOnce` | src/worker/event-reporter.ts:16-31 | over any lossy channel and any steps of others, an acknowledged event is stored exactly once and as sent, a failed report at most once; a final event has ended its turn, and redelivery changes no finished turn |
| `Reporting.DeliverMeaning` | src/worker/event-reporter.ts:16-31 | an event whose answer is lost is handled all the same, a lost or refused request changes nothing, and only an accepted event is acknowledged |
| `Reporting.RowsUnderSource` | src/db/migrate.ts:22 | at most one row per session and source id |
| `Reporting.AcceptedIsStored` | src/services/event-journal.ts:21-22 | an accepted event is stored as sent exactly when its source id was new |
| `WorkerPublish.WorkerProcess.Publish` | src/worker/index.ts:54-57 | numbers the event in the hub and reports it under the worker and that number |
| `WorkerPublish.EnvelopeText` | src/worker/index.ts:56 | the source id is the id of the worker, a colon and the decimal number of the event |
| `WorkerPublish.NumberIsFresh` | src/worker/index.ts:54-57 | over every run whose events come from hubs, a number the process has not used is a source id the journal does not know |
| `WorkerPublish.PublishedExactlyOnce` | src/worker/index.ts:54-57 | so an event of a process that does not restart is stored exactly once and as sent when acknowledged, at most once otherwise |
| `EventStream.Journal.Append` | src/services/event-journal.ts:20-29 | stores a new source as a row with the given fields and a larger number than any of its session, hands it to every subscriber of its session once, returns the first row for a known source and changes nothing |
| `EventStream.Journal.Subscribe` | src/services/event-journal.ts:36-39 | adds the listener to its session and changes no other |
| `EventStream.Journal.Unsubscribe` | src/services/event-journal.ts:40-43 | removes it, and the entry of the session when it was the last |
| `EventStream.Journal.Read` | src/services/event-journal.ts:31-34 | returns exactly the stored rows of the session beyond the cursor, in the order of their numbers; of a numbered log what is left after its first k rows, everything without a cursor, nothing for a cursor that is no number |
| `EventStream.SseStream.Send` | src/http/server.ts:438-443 | writes a row unless its id was sent |
| `EventStream.SseStream.SendAll` | src/http/server.ts:446 | sends the replayed rows in order |
| `SseStitch.ExactlyOnce` | src/http/server.ts:430-451 | in every interleaving of subscribe, read, inserts, publications and delivery no row is sent twice, and at rest every row beyond the cursor has been sent |
| `SseStitch.OldRowsNeedTheCursor` | src/http/server.ts:432-446 | a row published before the request is sent if and only if it passes the cursor |
| `SseStitch.SentInOrder` | src/http/server.ts:445-446 | rows go out in increasing order when no event is published inside the window, events are otherwise published in order, and those pending at the subscription or inserted in the window are beyond the cursor |
| `SseOrder.SentInOrderIff` | src/http/server.ts:438-446 | over every run rows go out in increasing order if and only if each live row is beyond all rows sent before it or was sent already, and at the delivery no replayed row is older than a live one unless sent live itself |
| `SseOrder.DeliverOrderlyIff` | src/http/server.ts:446 | delivering the replay keeps the order if and only if no row it adds is older than a row sent live |
| `SseOrder.SendAllAppends` | src/http/server.ts:438-446 | sending a list appends exactly its rows that were not sent before, in order |
| `SseOrder.LiveRowsOvertakeIff` | src/http/server.ts:445-446 | when the live rows came after the read, the order is kept if and only if there is none or the replay is empty |
| `SseOrder.ReadWithSubscriptionIff` | src/http/server.ts:445-446 | with the read directly after the subscription, over any log with any rows pending, rows go out in order if and only if the live ones did and each replayed row older than a live one was sent live; with none pending, if and only if the live ones did and there is none or the replay is empty |
| `SseOrder.LiveRowOvertakes` | src/http/server.ts:445-446 | a run of five steps in which an event inserted after the read goes out before the replayed one |
| `FrameDecoder.ClientDecoder.Push` | src/client.ts:154-158 | the `indexOf` loop returns the complete frames and keeps the rest |
| `FrameDecoder.GatewayDecoder.Push` | src/services/opencode-gateway.ts:458-460 | split and pop return the same frames and the same rest |
| `FrameDecoder.PiecesAreFramesAndRest` | src/services/opencode-gateway.ts:459-460 | the pieces between blank lines are the frames followed by the rest |
| `FrameDecoder.ChunkingDoesNotMatter` | src/client.ts:151-171 | any chunking of a text yields the frames and the rest of the text decoded at once |
| `FrameDecoder.NothingLeftToSplit` | src/client.ts:156 | what a decoder keeps holds no complete frame |
| `FrameDecoder.SplitAppend` | src/client.ts:154-158 | decoding a text and then another, carrying the rest over, is decoding both joined |
| `FrameDecoder.DecodingUndoesFraming` | src/http/server.ts:438-446 | however the server's text is cut, both decoders return the payloads sent, in order, without the comment frame, nothing left over |
| `FrameDecoder.LinesMeaning` | src/client.ts:160 | splitting into lines and joining them gives the text back, and no line holds a line feed |
| `FrameDecoder.PayloadMeaning` | src/client.ts:159-164 | the payload is what follows the prefix in the first data line; the client trims it and skips a blank one |
| `StreamHub.WorkerStreamHub.Publish` | src/worker/stream-hub.ts:21-28 | ids count up from 1 per session, and the buffer keeps the newest events of the whole log |
| `StreamHub.WorkerStreamHub.Replay` | src/worker/stream-hub.ts:30-36 | filters the newest events of the whole log by the cursor |
| `StreamHub.BoundedReplayIsFull` | src/worker/stream-hub.ts:25-35 | equal to an unbounded log's replay if and only if the cursor is not older than the window, or nothing was dropped |
| `StreamHub.FractionalCursor` | src/worker/stream-hub.ts:33-35 | a cursor that is no integer selects what its integer part selects |
| `StreamHub.RetainedIds` | src/worker/stream-hub.ts:23-25 | the retained ids are consecutive, end with the newest, and number min(n, capacity) |
| `StreamHub.SourceIdInjective` | src/worker/index.ts:54-57 | different workers, or different ids of one worker, never share a source id |
| `SessionActor.SessionActor.Chain` | src/worker/session-actor.ts:25-35 | chains the task to the tail of its session and counts it |
| `SessionActor.SessionActor.EnqueueObservation` | src/worker/session-actor.ts:38-43 | enqueues with the captured generation |
| `SessionActor.SessionActor.BeginResumeOf` | src/worker/session-actor.ts:15-19 | raises the generation of the session by 1 |
| `SessionActor.SessionActor.SettleTask` | src/worker/session-actor.ts:39-42 | an observation settles with its value only when the generation is unchanged |
| `SessionActor.SessionActor.RunFinally` | src/worker/session-actor.ts:30-34 | gives the count back, and drops the entry at zero |
| `SessionActor.RunsAreSound` | src/worker/session-actor.ts:25-35 | in every reachable state tails are the last tasks, counters count the open tasks, and tasks started in order |
| `SessionActor.OneTaskPerSession` | src/worker/session-actor.ts:25-29 | at most one task of a session runs; the earlier have settled, the later wait |
| `SessionActor.StartsFollowEnqueueOrder` | src/worker/session-actor.ts:26-29 | tasks of a session start in the order they were enqueued, none skipped |
| `SessionActor.OldestUnsettledCanGoOn` | src/worker/session-actor.ts:28-29 | whatever failed before, the oldest unsettled task runs or can start |
| `SessionActor.NotBusyMeansSettled` | src/worker/session-actor.ts:21-23 | busy if and only if some task is not given back; not busy means all have settled |
| `SessionActor.ObservationsYieldUnlessResumed` | src/worker/session-actor.ts:38-43 | an observation yields its value if and only if no resume of its session began since its generation was captured |
| `ActorFailures.ReportsOverlapIff` | src/worker/index.ts:74-93 | while a task runs: its failure can be published while another task of its session runs if and only if one is queued behind it |
| `Paths.AcceptedIff` | src/workspace/local-store.ts:8-14 | a path is accepted if and only if it is relative, never climbs above the root on its way, and does not end at the root unless it ends in a slash |
| `Paths.NormalizeIsIdempotent` | src/workspace/local-store.ts:8-14 | normalising a normalised path changes nothing, and no segment of it leads upwards |
| `Paths.RefBelowIff` | src/workspace/local-store.ts:39-41 | the reference of an accepted path lies below its workspace's directory if and only if the path descends |
| `Paths.ClimbingBackIsAccepted` | src/workspace/local-store.ts:8-14 | the path `a/../` is accepted as `./`, and its reference is not below the directory of the workspace |
| `Paths.ResolveShape` | src/workspace/local-store.ts:11 | the resolved path has one `..` per level climbed above the root and one name per level descended |
| `Manifests.LocalWorkspaceManifestStore.Commit` | src/workspace/local-store.ts:91-103 | rejects a parent that is not the head, otherwise stores the manifest under its digest and moves the head |
| `Manifests.LocalWorkspaceManifestStore.Head` | src/workspace/local-store.ts:84-89 | reads the manifest the head names |
| `Manifests.LocalWorkspaceManifestStore.Read` | src/workspace/local-store.ts:80-82 | reads a stored manifest, nothing for an unknown version or an invalid id |
| `Manifests.ManifestsFormAChain` | src/workspace/local-store.ts:91-103 | after any successful and rejected commits the manifests of a workspace form one chain by parent, with distinct versions, each stored as written, the head last |
| `Manifests.HeadReachesEveryCommit` | src/workspace/local-store.ts:84-103 | following parents from the head ends and visits exactly the successful commits in order |
| `Manifests.OneSuccessorPerParent` | src/workspace/local-store.ts:92-93 | over a whole run at most one commit succeeds on each parent |
| `Manifests.VersionIgnoresListing` | src/workspace/local-store.ts:95-97 | the version does not depend on the order of the listing when no two paths collate equally |
| `CommitRace.UninterruptedIsCommit` | src/workspace/local-store.ts:91-103 | check, save and move without interruption are the commit |
| `CommitRace.NothingIsLostIff` | src/workspace/local-store.ts:91-103 | over every run of overlapping commits, at no moment is a finished commit lost from the chain if and only if every move of the head is to a manifest whose parent is still the head, or that is the head already |
| `CommitRace.OverlappingCommitsFork` | src/workspace/local-store.ts:92-101 | two commits that pass the check on the head of any chain both succeed, and the first stays in the chain if and only if both have the same content |
| `CommitRace.TwoWritersLoseIff` | src/workspace/local-store.ts:91-103 | two writers that both check an empty workspace before either moves the head: the run loses a finished commit if and only if the two versions differ |
| `WorkspaceStore.LocalWorkspaceStore.Put` | src/workspace/local-store.ts:43-54 | writes the blob once under its digest and the reference always, with path, digest and size; an invalid workspace id leaves only the blob |
| `WorkspaceStore.LocalWorkspaceStore.Get` | src/workspace/local-store.ts:56-59 | follows the reference to its blob, with the error of each missing piece |
| `WorkspaceStore.LocalWorkspaceStore.Delete` | src/workspace/local-store.ts:68-70 | removes the reference and no blob |
| `WorkspaceStore.GetReturnsLastPut` | src/workspace/local-store.ts:43-70 | after any puts and deletes a path reads the bytes it was last put with, nothing after a delete |
| `WorkspaceStore.BlobsStay` | src/workspace/local-store.ts:49 | no operation changes or removes a blob |
| `WorkspaceSync.WorkspaceSync.Hydrate` | src/workspace/sync.ts:21-30 | writes each object of the manifest, read by path, stopping at the first failure |
| `WorkspaceSync.WorkspaceSync.Commit` | src/workspace/sync.ts:32-39 | puts every listed file of whose path no component begins with a dot and then commits their references: after a success the manifest records exactly those, with digest and size |
| `WorkspaceSync.CommitTakesShownFiles` | src/workspace/sync.ts:6-16 | a committed manifest has an object for a listed file if and only if no component of its path begins with a dot, with the digest and size of its bytes, and no other |
| `WorkspaceSync.CommitThenHydrateAtOnce` | src/workspace/sync.ts:21-39 | hydrating a committed version at once gives exactly those files |
| `WorkspaceSync.HydratedMeaning` | src/workspace/sync.ts:24-28 | hydrating succeeds exactly when every path reads; each named path then has its present content, every other path is untouched |
| `WorkspaceSync.HydrateRestoresIff` | src/workspace/sync.ts:24-28 | an empty directory becomes the tree if and only if every reference still has the digest of the manifest |
| `WorkspaceSync.CommitThenHydrate` | src/workspace/sync.ts:21-39 | a committed version is on record, and after any later puts and deletes hydrating gives exactly the listed files without a dot name if and only if each path was last left with the committed content |
| `WorkspaceSync.RejectedCommitOverwrites` | src/workspace/sync.ts:32-39 | after a rejected commit the head restores if and only if the rejected tree agrees with it on every shared path |

## Left out

- Gateway mode (`runGatewayPrompt`, `runGatewayResume`): appends events without a lease check, so the fencing results are about worker mode only.
- Routing, authentication, tokens, configuration parsing, the web console: plumbing.
- Worker processes, OpenCode calls, polling, health probes, question handling: network clients of code that is not here.
- `EventJournal.ReplayMeaning`: an infinite cursor is not a case of its own; it selects what no cursor or no number selects.
- `EventJournal.history`, lists and status views: read-only projections.
- `setStatus`: nothing in the original calls it; it is a step of the protocol so that its effect is known.
- `SessionService.SessionService.Create`: does not model the workspace row made between placement and insert, because nothing modelled reads it.
- `TurnService.TurnService.Active`: does not model the order by `updated_at`, because at most one turn is unfinished.
- `EventStream.Journal.Append`: models subscribers as a set served in some order, because they do not affect one another.
- `EventStream.Journal.Unsubscribe`: models the first call of the returned closure only; the stream calls it once.
- `StreamHub.WorkerStreamHub.Publish`: does not model the subscribers of the hub and the wrapping of the payload.
- `SseStitch.ExactlyOnce`: covers one response that stays open; cancelling it and failing reads are not modelled.
- `FrameDecoder.ClientDecoder.Push`: works on text; decoding bytes and parsing JSON are outside, and so is skipping a payload that is no JSON.
- `Reporting.MasterEventReporter.Report`: returns a flag where the original throws, and does not model the delay between attempts.
- `SessionActor.SessionActor.Chain`: the promise jobs are steps that may run in any order their promises allow, which includes the order of the event loop.
- `Master.Master.TriggerSchedule`: starts where the user and the tenant are known, so a request without a user is not modelled; the webhook, which the original does not read either, and the call of the worker are outside.
- `Master.Master.End`: does not model the abort in gateway mode.
- `Master.Master.Control`: ends where the call of the worker begins.
- `Manifests.NewManifest`: the JSON of a descriptor is the descriptor itself; the collation of paths is a key, which any finite set of paths has.
- `WorkspaceStore.LocalWorkspaceStore.Put`: works on normalised paths as lists of components; the names of reference files, and so a file `a` beside a directory `a.json`, are not modelled, and neither is a backslash in a file name.
- `WorkspaceStore.LocalWorkspaceStore.Get`: works on normalised paths in the same way.
- `WorkspaceStore.LocalWorkspaceStore.Delete`: works on normalised paths in the same way.
- `WorkspaceSync.WorkspaceSync.Hydrate`: a target is a map from path to bytes, so a file in the place of a directory does not occur.
- `WorkspaceSync.WorkspaceSync.Commit`: takes the files in the order of the directory walk; the walk itself is not modelled.
- That every turn ends: not true of the code; `TurnSafety.TurnCanEnd` says which can.
