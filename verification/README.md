# A verified model of Spacesly's orchestration logic

Spacesly runs agents on a local machine. This project models the parts of it that have to be right without anybody
watching, and proves what they promise: the scheduler with its worker pool and its durable store, the diff and patch of
AI edits, the resolution of rules and skills, the choice of connectors, and the projections that must agree with the
journals they summarise.

`dafny verify dfyconfig.toml` checks everything.

| file | models |
|---|---|
| `SchedulerStore.dfy` | the tables of the scheduler's database and its transactions |
| `TransactionInvariants.dfy`, `StoreRuns.dfy` | what each transaction keeps, and what holds over whole runs of them |
| `ProjectionOutbox.dfy`, `SharedOutbox.dfy` | the outbox: staged completions, the projector, store failures and restarts; one coordinator, and several |
| `ExecutionPool.dfy` | the steps of the worker pool and its invariant |
| `PoolAndStore.dfy` | runs of pool and store together, and one that loses a worker |
| `Scheduler.dfy` | the coordinator object, its health record and its notifier, in place |
| `AiEdit.dfy`, `Text.dfy` | line diff, selective patch, text as lines |
| `Governance.dfy`, `GovernanceRules.dfy` | rules and skills, and the check of a stored resolution |
| `ConnectorPlanner.dfy` | the greedy connector planner |
| `Replay.dfy` | replay of a journal from pages, and the loop that hands events out |
| `Timeline.dfy`, `LifecycleLogs.dfy` | timeline activities, and what a log's text makes of them |
| `BoardMerge.dfy`, `BoardProperties.dfy` | the merge of a synced board, and where each card ends up |
| `EventProjection.dfy` | batched event projection |
| `AiRuns.dfy` | the registry of AI runs |
| `ToolState.dfy` | tool calls projected from the journal |
| `Coalesce.dfy` | coalescing of runtime events |
| `Performance.dfy` | ring buffer, percentiles, rate window |
| `Prelude.dfy`, `Sorting.dfy` | shared datatypes, sequences and sorting |

What comes from outside is a parameter: the time, what the store, a worker channel or the projector answers, digests,
JSON, and the matching of text. Times and counters are unbounded unless a bound is stated. The store's clock is the
wall clock, so a run's times may go back unless its theorem says that they do not.

Some things the code was expected to promise it does not. Each is shown on a concrete input, and the condition under
which it does hold is proved:

- A claim can overwrite an assignment that is still active, if the process slept past its lease. The bijection of
  workers and active sessions holds exactly until that happens, and each time a worker is lost for good
  (`ExecutionPool.BijectionIff`, `ExecutionPool.CapacityLost`, `PoolAndStore.JointBijectionIff`; the run is
  `PoolAndStore.WorkerLost`). It does not happen while every active assignment has its lease at each claim
  (`PoolAndStore.FreshLeasesKeepBijection`).
- Four of the five workers can be lost in this way, and never the last (`PoolAndStore.FourLost`,
  `ExecutionPool.ReachablePool`, `ExecutionPool.WorkerLeft`).
- A recorded outcome does not always stay until the store answers: it is gone if its session is claimed again, or if a
  different outcome is recorded for it, and in no other way (`ExecutionPool.NeverLostIff`; the run is
  `PoolAndStore.OutcomeLost`). While every active assignment has its lease at each claim, no claim takes one away
  (`PoolAndStore.OutcomeKeptIff`).
- The reported number of pending completions is one too high after an overwriting claim until it is next counted,
  exactly if the overwritten assignment had an outcome waiting (`Scheduler.Scheduler.Accept`; the run is `Scheduler.ForgetOne`).
- A fence that has expired is not dead for good: its authority is back when the clock is set back
  (`PoolAndStore.ClockSetBack`). One that was resolved, recovered, superseded or removed is
  (`StoreRuns.OverStaysOver`, `StoreRuns.DeadForGoodIff`), and one that has expired is while the clock does not go
  back (`StoreRuns.DeadStaysDead`).
- With several coordinators on one database, a session can be blocked although the projector accepted its result and
  the result was marked (`SharedOutbox.AcceptedYetBlocked`), exactly if another of them rejects it after that
  (`SharedOutbox.SharedOutcome`), and never while no two have a row at once (`SharedOutbox.NothingOverruled`).
- The dispatch loop does not always leave fewer idle workers. When the channel of the chosen worker is closed, it does
  exactly if no earlier worker that still runs holds the same session (`ExecutionPool.ClosedDispatchUsesIdleIff`; the
  run is `PoolAndStore.ClosedChannelFreesAnother`). The loop ends because workers that are not stopped come first in its
  measure.
- Batching events is not the same as applying them one by one once a session is terminal below 100 percent
  (`EventProjection.BatchingSoundIff`, with a batch for every such session in `EventProjection.WitnessDisagrees`).
- A timeline can show a running activity after the end of its session, exactly if some lifecycle message names a final
  state and its summary names another or none (and no error comes with it): the line `EVIDENCE:` followed by
  `Task Session entered succeeded` is one (`LifecycleLogs.NeverRunsOnIff`, `LifecycleLogs.RunningAfterTheEnd`). The
  messages the app itself writes name their state in the summary, and never do it
  (`LifecycleLogs.ProducedNeverRunsOn`).
- Merging a board twice is not the same as merging it once if a retained card's column is gone
  (`BoardProperties.MergeTwiceIff`; the board is `BoardProperties.StrandedCard`).
- Connectors that share an id can leave an offered domain unresolved (`ConnectorPlanner.SharedIdLosesDomain`); they do
  not if one of them offers all that the others offer (`ConnectorPlanner.UnresolvedIs`,
  `ConnectorPlanner.ResolvesOfferedIff`).
- A run that is finished while capabilities are being granted to it keeps the grant
  (`AiRuns.AiRunRegistry.InsertGrant`, `AiRuns.GrantAfterFinish`), and the next run of its id inherits it
  (`AiRuns.InheritGrant`). Tokens, statuses and pruning are not affected.

## Model

| member | source | states |
|---|---|---|
| ExecutionPool.RunKeeps | src-tauri/src/application/execution_engine.rs:1465-1659 | over any run of coordinator steps: workers are well-formed, idle workers hold nothing, released workers are distinct and idle, every active session is held, and both books balance (busy workers against active sessions, claims against completed, active and overwritten) |
| ExecutionPool.StepKeeps | src-tauri/src/application/execution_engine.rs:1465-1659 | each single step keeps that invariant: claim, closed channel, report, resolution, failed resolution, cancellation flag |
| ExecutionPool.BijectionIff | src-tauri/src/application/execution_engine.rs:1528-1539 | in a pool that satisfies the invariant, busy workers and active sessions are in bijection exactly if no claim has ever overwritten an active session |
| ExecutionPool.StepKeepsBijectionIff | src-tauri/src/application/execution_engine.rs:1528-1539 | a step keeps the bijection exactly if it is not a claim of a session that is still active |
| ExecutionPool.CapacityLost | src-tauri/src/application/execution_engine.rs:1465-1556 | each overwritten session costs a worker for good: active sessions and overwrites together never exceed five |
| ExecutionPool.WorkerLeft | src-tauri/src/application/execution_engine.rs:1467-1485 | while fewer than five have been overwritten, nothing is active and no channel is closed, a worker can be picked |
| PoolAndStore.FourLost | src-tauri/src/application/execution_engine.rs:1465-1556 | one session claimed five times over: four workers are lost, which is the most that can be |
| ExecutionPool.BijectionNeverReturns | src-tauri/src/application/execution_engine.rs:1465-1659 | once lost, the bijection is lost for every continuation |
| ExecutionPool.ReachablePool | src-tauri/src/application/execution_engine.rs:1465-1659 | every pool reachable from start-up balances its books: completed sessions plus active plus overwritten ones equal the claims made; and fewer than five were ever overwritten, since the claim that overwrites leaves its session active |
| ExecutionPool.RecordedStaysIff | src-tauri/src/application/execution_engine.rs:1465-1659 | a step takes a recorded outcome away exactly if it resolves its session, claims it again, or records a different outcome for it |
| ExecutionPool.NeverLostIff | src-tauri/src/application/execution_engine.rs:1577-1659 | a recorded outcome stays recorded, and its worker held, throughout a run exactly if no step of it is one of those |
| ExecutionPool.RetryDelayShape | src-tauri/src/application/execution_engine.rs:2045-2052 | retry delays start at 10 ms, never shrink, double up to the cap, and are one second exactly from the eighth attempt on |
| ExecutionPool.LeastUsedIs | src-tauri/src/application/execution_engine.rs:1475-1482 | the scan finds an idle worker iff there is one: the first of those that completed the fewest sessions |
| ExecutionPool.ClaimUsesIdle | src-tauri/src/application/execution_engine.rs:1509-1539 | a successful dispatch leaves strictly fewer idle workers and stops none |
| ExecutionPool.CloseUsesWorker | src-tauri/src/application/execution_engine.rs:1541-1554 | a closed channel stops a worker for good, and the release that follows starts none again: the loop's measure is (workers not stopped, idle workers) |
| ExecutionPool.ClosedDispatchUsesIdleIff | src-tauri/src/application/execution_engine.rs:1528-1554 | a hand-out that finds the channel closed leaves strictly fewer idle workers exactly if no earlier worker that still runs holds the same session |
| TransactionInvariants.ClaimKeeps | src-tauri/src/infrastructure/scheduler_store.rs:1819-1988 | a claim keeps the store's invariant and is refused only by a malformed payload or an exhausted attempt number, never by a uniqueness constraint of the schema |
| TransactionInvariants.ResolveKeeps | src-tauri/src/infrastructure/scheduler_store.rs:2158-2352 | resolving an assignment keeps the invariant, whatever the outcome and whoever calls it |
| TransactionInvariants.RecoverEachKeeps | src-tauri/src/infrastructure/scheduler_store.rs:3210-3336 | recovery keeps the invariant over all the rows it selects, taken in any order, and never finds ownership lost |
| TransactionInvariants.ResumeKeeps | src-tauri/src/infrastructure/scheduler_store.rs:924-1071 | resuming or continuing a session keeps the invariant |
| TransactionInvariants.RejectKeeps | src-tauri/src/infrastructure/scheduler_store.rs:2541-2618 | a rejection is applied exactly if the outbox row is still open under its attempt and token |
| TransactionInvariants.FinalizeKeeps | src-tauri/src/infrastructure/scheduler_store.rs:2650-2747 | a completion is finalized exactly if its row is open and marked projected, and the invariant is kept |
| TransactionInvariants.RowOfMatch | src-tauri/src/infrastructure/scheduler_store.rs:2541-2747 | an open outbox row and a session committing under the same attempt and token are found together or not at all |
| StoreRuns.RunKeepsInv | src-tauri/src/infrastructure/scheduler_store.rs:264-396 | over any run of transactions, the clock going forth or back: a session is active exactly while it holds one attempt with its own token, numbers and tokens are unique per session, and no two active sessions share ownership |
| StoreRuns.EmptyStoreOk | src-tauri/src/infrastructure/scheduler_store.rs:264-396 | the empty database satisfies the invariant |
| StoreRuns.ClaimGrants | src-tauri/src/infrastructure/scheduler_store.rs:1819-1988 | a claim returns a fresh attempt whose token is greater than any earlier one of the session, with authority iff the lease is not zero |
| StoreRuns.DeadStaysDead | src-tauri/src/infrastructure/scheduler_store.rs:3127-3162 | along a run in which the clock does not go back, a fence that has lost its authority never regains it |
| StoreRuns.OverStaysOver | src-tauri/src/infrastructure/scheduler_store.rs:3127-3162 | a fence that was resolved, recovered, superseded or removed has no authority at any time, through any run and whatever the clock does |
| StoreRuns.DeadForGoodIff | src-tauri/src/infrastructure/scheduler_store.rs:3127-3162 | a fence can never have authority again, whatever the clock does, exactly if it is over in that sense (or its lease was of no length at time zero); one that has only expired can |
| PoolAndStore.ClockSetBack | src-tauri/src/infrastructure/scheduler_store.rs:3682-3690 | an expired fence whose authority is back when the clock is set back by thirty seconds |
| StoreRuns.AppliedAtMostOnce | src-tauri/src/infrastructure/scheduler_store.rs:2158-2352 | at most one completion of a fence is ever applied, whatever happens in between and whatever the clock does; later ones are answered Stale |
| StoreRuns.ClaimFencesOff | src-tauri/src/infrastructure/scheduler_store.rs:1819-1988 | claiming a session ends every fence it ever had, for good |
| StoreRuns.OneAuthority | src-tauri/src/infrastructure/scheduler_store.rs:3127-3162 | at any time at most one fence of a session has authority |
| StoreRuns.CapacityHolds | src-tauri/src/infrastructure/scheduler_store.rs:1819-1848 | no more attempts than the global limit run, and so hold authority at any time, across all owners and whatever the clock does, over any run from tables with no more running attempts |
| StoreRuns.LiveCapacityHolds | src-tauri/src/infrastructure/scheduler_store.rs:1819-1848 | if the clock does not go back, only attempts with authority need be within the limit at the start |
| StoreRuns.ClaimEmptyIff | src-tauri/src/infrastructure/scheduler_store.rs:1850-1895 | below the limit a claim hands out nothing exactly if no queued session is free of ownership conflicts |
| StoreRuns.HonestStays | src-tauri/src/infrastructure/scheduler_store.rs:2355-2430 | the outbox row a finalizer read is, as long as it is still open, as it was read |
| PoolAndStore.OverwrittenIsDead | src-tauri/src/application/execution_engine.rs:1528-1537 | a claim that overwrites an active session has killed its fence: the completion of that fence is answered Stale in every continuation |
| PoolAndStore.JointRunKeeps | src-tauri/src/application/execution_engine.rs:1465-1659 | over any run of the pool and the store it claims from, with any other transactions in between, the pool holds only fences the store issued, keeps its invariant, and is in bijection iff nothing was overwritten |
| PoolAndStore.JointBijectionIff | src-tauri/src/application/execution_engine.rs:1528-1537 | such a run ends in a bijection exactly if it began in one and no claim of it handed out a session still active |
| PoolAndStore.IdlePoolStarts | src-tauri/src/application/execution_engine.rs:1465-1485 | the idle pool at start-up meets what these theorems ask for, over tables of any history |
| PoolAndStore.FreshLeasesKeepBijection | src-tauri/src/application/execution_engine.rs:1528-1537 | no worker is lost over a whole run at each claim of which every active session has an authorized fence, or is neither queued nor under an expired lease |
| PoolAndStore.OutcomeKeptIff | src-tauri/src/application/execution_engine.rs:1577-1659 | through such a run a recorded outcome stays recorded throughout exactly if the pool neither resolves its session nor records a different outcome for it: no claim takes it away |
| PoolAndStore.OutOfReachNotClaimed | src-tauri/src/infrastructure/scheduler_store.rs:1819-1988 | a session that is not queued and whose leases have not expired is not handed out |
| PoolAndStore.FirstClaim | src-tauri/src/infrastructure/scheduler_store.rs:1819-1988 | a queued session is claimed for the first time: the concrete tables before and after |
| PoolAndStore.SecondClaim | src-tauri/src/infrastructure/scheduler_store.rs:1819-1988 | forty seconds without a renewal, the same session is claimed again under a new fence: a concrete run of the tables |
| PoolAndStore.WorkerLost | src-tauri/src/application/execution_engine.rs:1465-1659 | that run, seen from the pool: one worker is left busy with a session nobody waits for |
| PoolAndStore.ClosedChannelFreesAnother | src-tauri/src/application/execution_engine.rs:1541-1554 | the same run, but the second worker is gone when it is handed the session: the first becomes idle, and there are no fewer idle workers than before |
| PoolAndStore.OutcomeLost | src-tauri/src/application/execution_engine.rs:1528-1537 | a run in which a recorded outcome is gone though the store never answered: reported, not answered, and the session claimed again |
| ProjectionOutbox.NextKeeps | src-tauri/src/application/execution_engine.rs:1661-1755 | any step keeps the outbox invariant, under any pattern of store calls that fail or lose their answer, restarts, clock changes and other transactions in between |
| ProjectionOutbox.PhasesAdvance | src-tauri/src/application/execution_engine.rs:1661-1755 | each staged completion only advances: pending, then projected and finalized, or rejected; a dropped one never comes back |
| ProjectionOutbox.NeverSentAgain | src-tauri/src/application/execution_engine.rs:1661-1710 | once marked projected, finalized, rejected or dropped, a completion is never sent to the projector again, over whole runs |
| ProjectionOutbox.OnlyPendingSent | src-tauri/src/application/execution_engine.rs:1661-1710 | only pending completions are sent, one at a time |
| ProjectionOutbox.OutcomeKept | src-tauri/src/application/execution_engine.rs:1712-1755 | in every reachable system a finalized session ended as it was staged and after the projector accepted it; a rejected one is blocked; until then it is committing |
| ProjectionOutbox.OutcomeNeverRevised | src-tauri/src/infrastructure/scheduler_store.rs:2158-2352 | over whole runs, a completion that was not rejected says what it said when it was first seen for as long as it is open or projected, and ends its session as that |
| ProjectionOutbox.ResultEffect | src-tauri/src/application/execution_engine.rs:1712-1755 | what each answer of the projector does to the completion in flight, for every fate of the two store calls; every other completion stays where it was, and an answer for another one changes nothing at all |
| ProjectionOutbox.SendsIff | src-tauri/src/application/execution_engine.rs:1661-1710 | something is sent exactly if nothing is in flight, nothing marked waits to be finalized, and a row is due |
| SharedOutbox.SharedRunKeeps | src-tauri/src/application/execution_engine.rs:1661-1755 | several coordinators on one database, every query and store call a step of its own: any run of them and of other transactions keeps the outbox invariant |
| SharedOutbox.NobodySendsAgain | src-tauri/src/application/execution_engine.rs:1661-1710 | once marked projected, finalized, rejected or dropped, a completion is never sent again, by any coordinator |
| SharedOutbox.SharedOutcome | src-tauri/src/application/execution_engine.rs:1712-1755 | a finalized session was accepted by the projector and ended as it was staged, or blocked exactly if some coordinator rejected it after it was marked |
| SharedOutbox.NothingOverruled | src-tauri/src/application/execution_engine.rs:1712-1755 | while no two coordinators have a row at once, that never happens |
| SharedOutbox.AcceptedYetBlocked | src-tauri/src/infrastructure/scheduler_store.rs:2541-2618 | two coordinators that have one row: the projector accepts it for the one, it is marked, the other rejects it, and the session is blocked |
| Scheduler.SchedulerHealth.RecordError | src-tauri/src/application/execution_engine.rs:1855-1876 | the error table, its consecutive count and the report name this error; Degraded unless shutting down |
| Scheduler.SchedulerHealth.RecordSuccess | src-tauri/src/application/execution_engine.rs:1878-1899 | the operation leaves the table; a degraded scheduler is Healthy iff nothing is left, and else reports an unresolved error with the latest time stamp |
| Scheduler.SchedulerHealth.LatestError | src-tauri/src/application/execution_engine.rs:1882-1887 | the scan finds an unresolved error that no other is later than, iff there is one |
| Scheduler.TaskSessionNotifier.Publish | src-tauri/src/application/execution_engine.rs:449-464 | subscribers see strictly increasing sequence numbers of each session; old news goes to nobody; closed subscribers are dropped |
| Scheduler.Scheduler.TryResolveCompletion | src-tauri/src/application/execution_engine.rs:1611-1659 | a recorded outcome the store answers frees the session and its worker; an unanswered one is kept for a later attempt; anything else changes nothing |
| Scheduler.Scheduler.Finish | src-tauri/src/application/execution_engine.rs:1577-1594 | a finish message counts exactly if its worker holds the session and the fence is the active one; then it is recorded and offered to the store |
| Scheduler.Scheduler.RetryPendingWorkerCompletions | src-tauri/src/application/execution_engine.rs:1596-1609 | every outcome that is due is offered once: answered ones are gone, unanswered ones keep outcome and worker and wait, and all others are untouched |
| Scheduler.Scheduler.NextWakeDelay | src-tauri/src/application/execution_engine.rs:1433-1450 | the delay never passes a recorded outcome's next attempt, the lease renewal or the projection poll, and is no shorter than needed |
| Scheduler.Scheduler.ChooseWorker | src-tauri/src/application/execution_engine.rs:1467-1485 | the longest released worker if nothing is active, else the first of the least used idle workers |
| Scheduler.Scheduler.DispatchAll | src-tauri/src/application/execution_engine.rs:1465-1556 | whatever the store and the channels answer, the dispatch loop ends, having made exactly the steps of the assignments it returns; it ends with no idle worker, or with one and a last claim answered by nothing or by an error that is on record |
| Scheduler.Scheduler.DispatchOne | src-tauri/src/application/execution_engine.rs:1509-1554 | one hand-out is a claim step, followed for a closed channel by a recorded failure offered to the store; it uses up an idle worker or a worker for good |
| Scheduler.Scheduler.Accept | src-tauri/src/application/execution_engine.rs:1509-1539 | a hand-out is a claim step; the reported number of pending completions stays exact iff the session it is for has no outcome waiting |
| Scheduler.ForgetOne | src-tauri/src/application/execution_engine.rs:1528-1537 | a run after which one completion is reported pending and no session waits: claimed, reported without an answer of the store, claimed again |
| Scheduler.Scheduler.Cancel | src-tauri/src/application/execution_engine.rs:1558-1575 | the flag of an active session is raised exactly if the store answers that it is cancelling |
| Scheduler.Scheduler.RenewLeases | src-tauri/src/application/execution_engine.rs:1773-1806 | flags are raised exactly for sessions whose renewal failed, was refused or found them cancelling; nothing else of an assignment changes; the next renewal is ten seconds away |
| Scheduler.Scheduler.DispatchProjection | src-tauri/src/application/execution_engine.rs:1661-1710 | does what the outbox theorems call the dispatch decision: at most one completion in flight, projected rows first; makes the store call of that decision; failed queries are on record |
| Scheduler.DispatchRefinesSystem | src-tauri/src/application/execution_engine.rs:1661-1710 | that call and what is in flight afterwards move the system of the outbox theorems as its dispatch step does, for every fate of the call |
| Scheduler.Scheduler.ProjectionFinished | src-tauri/src/application/execution_engine.rs:1712-1755 | makes exactly the store calls of the decided reaction, finalizing only after the mark was answered; a result for another id changes nothing |
| Scheduler.CallsRefineSystem | src-tauri/src/application/execution_engine.rs:1721-1753 | those calls move the tables as the system of the outbox theorems moves them, for every fate of each call |
| Scheduler.Scheduler.Shutdown | src-tauri/src/application/execution_engine.rs:1808-1831 | every active assignment is left with its flag raised, every worker is stopped and holds nothing, nothing is active, and health is stopped |
| AiEdit.NextAnchor | src/lib/aiEdit.ts:97-115 | the pair of equal lines in the 80-line window with the least total distance, ties to the earlier old line; none iff there is no such pair |
| AiEdit.DiffLines | src/lib/aiEdit.ts:34-65 | the walk ends and lays both texts out as common stretches and hunks, each hunk starting at a mismatch and ending at the best anchor or at both ends |
| AiEdit.DiffUnique | src/lib/aiEdit.ts:34-65 | the two texts determine the hunks |
| AiEdit.HunksOrdered | src/lib/aiEdit.ts:34-65 | hunks are strictly ordered with at least one common line between them, and have ids of their own |
| AiEdit.SelectedSorts | src/lib/aiEdit.ts:72-75 | sorting any selection by descending position reverses its order |
| AiEdit.SpliceRightToLeft | src/lib/aiEdit.ts:72-79 | splicing from the right never moves the lines a remaining hunk refers to |
| AiEdit.ApplyIsChosen | src/lib/aiEdit.ts:67-80 | for any subset of hunks, right-to-left splicing gives new lines for the chosen, old lines for the others, and the common lines between |
| AiEdit.ApplyAiEditHunks | src/lib/aiEdit.ts:67-80 | the in-place loop computes that splicing and joins the lines |
| AiEdit.ApplyRoundTrip | src/lib/aiEdit.ts:34-80 | all hunks of a proposal give the proposed text, none give the base text |
| AiEdit.NoHunksIffEqual | src/lib/aiEdit.ts:34-65 | a proposal has no hunk iff it proposes the text it started from |
| Text.JoinSplit | src/lib/aiEdit.ts:35-36 | joining the lines of a text gives the text back |
| Governance.ResolveGovernance | src-tauri/src/domain/governance.rs:138-225 | whatever the resolver returns, authoritative or legacy, passes the later check for that session; and exactly when it fails |
| Governance.ResolveSkills | src-tauri/src/domain/governance.rs:270-400 | the loops compute the reference resolution, and fail exactly when it does |
| Governance.AssemblePrompt | src-tauri/src/domain/governance.rs:354-376 | the byte counter is the exact length of the joined sections at every iteration, and assembly fails iff the whole would exceed 32 KiB |
| Governance.SelectionIs | src-tauri/src/domain/governance.rs:287-368 | the selected ids are those of exactly the skills the contract calls for, requested ones first, then by falling priority, then in catalog order; at most 16, and at most 32 KiB |
| Governance.ResortReproduces | src-tauri/src/domain/governance.rs:111-126 | sorting the per-catalog entries by selection order reproduces the ranking the resolver used, by uniqueness of ids |
| Governance.PassingIs | src-tauri/src/domain/governance.rs:96-128 | in a record that passes, each position names the one selected entry that claims it, and each selected entry claims a position |
| Governance.EntriesDetermineIds | src-tauri/src/domain/governance.rs:111-126 | no reordered or edited id list passes beside the same entries |
| Governance.ValidateCatalog | src-tauri/src/domain/governance.rs:459-496 | accepts exactly catalogs of at most 64 well-formed skills with ids of their own |
| GovernanceRules.NormalizeTwice | src-tauri/src/domain/governance.rs:445-457 | normalized rules are no longer than their source and normalize to themselves, so their digest is stable |
| GovernanceRules.KeptIs | src-tauri/src/domain/governance.rs:449-456 | what survives is each trimmed, non-empty line once |
| ConnectorPlanner.ScanForBest | src/lib/agentTaskSessions.ts:199-211 | the scan finds the first usable connector of greatest coverage, iff one covers anything |
| ConnectorPlanner.CollectRequired | src/lib/agentTaskSessions.ts:178-194 | a domain is required iff Jira asks for it or a mentioned connector has it |
| ConnectorPlanner.PlanConnectors | src/lib/agentTaskSessions.ts:196-215 | the loop ends with a run of best choices that cannot be continued |
| ConnectorPlanner.PlanAgentTaskConnectors | src/lib/agentTaskSessions.ts:178-221 | the two loops in turn: what the task requires, and a plan for it |
| ConnectorPlanner.UnresolvedIs | src/lib/agentTaskSessions.ts:196-221 | if of the descriptors under one id one offers all that the others offer, unresolved are exactly the required domains no connector offers |
| ConnectorPlanner.DistinctIsEnough | src/lib/agentTaskSessions.ts:196-221 | so it is when no two connectors share an id |
| ConnectorPlanner.ResolvesOfferedIff | src/lib/agentTaskSessions.ts:196-221 | where no domain is offered under two ids, plans resolve all that is offered, whatever is required, exactly under that condition |
| ConnectorPlanner.EachChoiceAdds | src/lib/agentTaskSessions.ts:196-215 | each chosen connector covers a required domain none chosen before it covers |
| ConnectorPlanner.PlanBound | src/lib/agentTaskSessions.ts:196-215 | under the same condition, at most H(n) times as many connectors as any cover of the n required domains that can be covered |
| ConnectorPlanner.SharedIdLosesDomain | src/lib/agentTaskSessions.ts:201-202 | two connectors under one id: a domain that is offered stays unresolved |
| Replay.ApplyTaskSessionEventPage | src/lib/taskSessionReplay.ts:25-43 | the loop computes the page function, with its three ways to end |
| Replay.ReplayIsFunctionOfCursor | src/lib/taskSessionReplay.ts:25-56 | for any pages of one journal, with overlaps, repeats, holes and any order, the state is the one that belongs to the cursor, and the cursor never goes back; any retention limit, zero and negative ones included |
| Replay.CreateIs | src/lib/taskSessionReplay.ts:21-23 | a fresh replay is the one that belongs to cursor 0 of any journal |
| Replay.PageAdvances | src/lib/taskSessionReplay.ts:25-43 | one page applies without a gap iff no event of it runs ahead of everything before it |
| Replay.PageBoundary | src/lib/taskSessionReplay.ts:25-43 | where a page is cut in two makes no difference |
| Replay.PageTwice | src/lib/taskSessionReplay.ts:25-43 | applying a page a second time changes nothing |
| Replay.HandPage | src/lib/agentTaskSessions.ts:500-516 | the observer is handed consecutive sequence numbers exactly once each; an error names a foreign event or the first gap |
| Replay.DrainJournal | src/lib/agentTaskSessions.ts:497-517 | from a journal that grows while it is read, page by page, every event after the start is handed over in order, once, up to where the journal stood when last asked; there is more to ask only if every page came full |
| Timeline.TimelineActivities | src/lib/agentTimeline.ts:35-91 | the loop computes the fold, cut to the limit and reversed |
| Timeline.FoldOk | src/lib/agentTimeline.ts:35-91 | after any logs: unique keys, activities in the order of their last accepted logs, repeat counts those of the accepted logs and adding up to their number, section indexes equal to the sets of lines, at most one running |
| Timeline.TakeShape | src/lib/agentTimeline.ts:52-88 | taking a log in leaves every other activity in its order and as it was, but for one left running, which ends as the log says; the log's own activity comes last |
| Timeline.TerminalIff | src/lib/agentTimeline.ts:52-63 | after an accepted terminal log no activity is running iff the last accepted log is not itself presented as running |
| Timeline.NeverRunsOnIff | src/lib/agentTimeline.ts:35-91 | for any set of logs: no timeline of logs from it, in any order and number, shows a running activity after the end, exactly if none of them ends the session and is presented as running |
| LifecycleLogs.ClassifyOk | src/lib/agentTimeline.ts:103-125 | whatever a message says, its log has the terminal statuses and distinct section titles the timeline theorems ask for |
| LifecycleLogs.EndsRunningIff | src/lib/agentTimeline.ts:106-119 | a message ends its session while presented as running exactly if it names a final state and its summary does not, unless the summary names none and the log is an error |
| LifecycleLogs.NeverRunsOnIff | src/lib/agentTimeline.ts:35-91 | for any set of messages: no timeline of them shows a running activity after the end exactly if no lifecycle message is of that kind |
| LifecycleLogs.ProducedNeverRunsOn | src/lib/agentEventProjection.ts:27-73 | the lifecycle messages the app itself writes name their state in the summary and nowhere else, so with any other messages mixed in nothing runs after the end |
| LifecycleLogs.RunningAfterTheEnd | src/lib/agentTimeline.ts:134-170 | a message of the other kind: a lifecycle log that names a success only under EVIDENCE |
| LifecycleLogs.DashesAreDropped | src/lib/agentTimeline.ts:402-404 | a line of dashes, which a second cleaning empties, is not taken for the summary: the line after it is |
| Timeline.AcceptedDistinct | src/lib/agentTimeline.ts:42-49 | accepted logs have ids of their own |
| Timeline.MergeSectionsOk | src/lib/agentTimeline.ts:410-433 | merging keeps the index exact: for each title the set of its lines |
| Timeline.MergeSectionsGrow | src/lib/agentTimeline.ts:410-433 | no line is lost or moved, and every line of the new sections is there under its title |
| Timeline.FinalizeRunningActivities | src/lib/agentTimeline.ts:93-101 | exactly the running activities but the spared one take the status |
| BoardMerge.MergeSyncedWorkspace | src/lib/boardWorkflow.ts:47-136 | the loops rewrite every board of every project with what the first board and the board as it stands decide |
| BoardProperties.BoardShows | src/lib/boardWorkflow.ts:110-134 | any board of the workspace shows every retained card whose old intent it has a column of, and those of its own cards that are not retained, and nothing else |
| BoardProperties.MergedShows | src/lib/boardWorkflow.ts:75-135 | a merge shows a card exactly if it retains it in a column of its old intent or refreshes it in its incoming one |
| BoardProperties.MergedUnique | src/lib/boardWorkflow.ts:47-136 | distinct cards in, distinct cards out |
| BoardProperties.Placement | src/lib/boardWorkflow.ts:47-136 | no deleted card; each local card and each unexpired card in work or done in its column; every other incoming card in its incoming column; nothing besides |
| BoardProperties.Contents | src/lib/boardWorkflow.ts:85-131 | every shown card is what its origin makes of it: a card that stays keeps its own fields, takes the newer snapshot and the time it went missing; an incoming one keeps the completion time the board had |
| BoardProperties.MergeTwiceIff | src/lib/boardWorkflow.ts:47-136 | merging the same projection again at the same time changes nothing, up to order in a column, exactly if no card that must stay has lost its column while the projection shows it elsewhere |
| BoardProperties.StrandedCard | src/lib/boardWorkflow.ts:47-136 | two boards of one column and one card for which the second merge brings the card back |
| EventProjection.BatchingSoundIff | src/lib/agentEventProjection.ts:77-147 | batching agrees with one by one on state and progress for every batch exactly for sessions with non-negative progress that are not terminal, or are at 100 already |
| EventProjection.WitnessDisagrees | src/lib/agentEventProjection.ts:77-147 | for every other session, a batch on which they differ |
| EventProjection.BatchesKeep | src/lib/agentEventProjection.ts:112-147 | through any batches progress never falls, a terminal state never changes, and log ids stay unique within the cap |
| EventProjection.MergeLogs | src/lib/agentEventProjection.ts:87-98 | the loop with its id set computes the merged logs, repeated ids included |
| EventProjection.MergedIsAdded | src/lib/agentEventProjection.ts:87-98 | from logs without repeated ids, the id set is always that of the logs: each new id is added once, and none twice |
| EventProjection.RepeatedIdComesAgain | src/lib/agentEventProjection.ts:92-93 | with an id listed twice it is not: replacing one deletes the id of the other, which then comes again |
| EventProjection.OthersStay | src/lib/agentEventProjection.ts:87-98 | only progress logs give way to later ones; all others stay, in order |
| AiRuns.AiRunRegistry.Begin | src-tauri/src/infrastructure/ai_run.rs:47-69 | a new queued run with an unset token, iff the id is not blank and not taken |
| AiRuns.AiRunRegistry.Start | src-tauri/src/infrastructure/ai_run.rs:76-78 | a queued run, and no other, becomes running |
| AiRuns.AiRunRegistry.Cancel | src-tauri/src/infrastructure/ai_run.rs:80-105 | exactly a live run becomes cancelling and its token is set |
| AiRuns.AiRunRegistry.GrantCapabilities | src-tauri/src/infrastructure/ai_run.rs:116-148 | with nothing in between its two steps, grants go exactly to queued Agent runs and hold supported capabilities only |
| AiRuns.AiRunRegistry.InsertGrant | src-tauri/src/infrastructure/ai_run.rs:142-147 | the second step alone leaves tokens and runs in order whatever came in between, and the grants exactly if the run is still a live Agent run |
| AiRuns.GrantAfterFinish | src-tauri/src/infrastructure/ai_run.rs:142-212 | any run finished between the two steps is left with its grant |
| AiRuns.InheritGrant | src-tauri/src/infrastructure/ai_run.rs:47-69 | once pruning has taken that run out, the next run of the same id, of any kind, begins with the grant |
| AiRuns.AiRunRegistry.Finish | src-tauri/src/infrastructure/ai_run.rs:176-215 | a live run ends, loses token and grants, and the registry is pruned; a terminal one is immutable; at most max(256, live runs) remain |
| AiRuns.PruneRuns | src-tauri/src/infrastructure/ai_run.rs:240-261 | only terminal runs go, none newer than a terminal one that stays, and no more than needed |
| AiRuns.PrunedOneWay | src-tauri/src/infrastructure/ai_run.rs:240-261 | there is one way to prune, so the order of the hash table does not matter |
| AiRuns.EndKeeps | src-tauri/src/infrastructure/ai_run.rs:203-214 | ending a run and pruning leave all other live runs and every retained terminal run as they were |
| ToolState.FromEvents | src-tauri/src/domain/task_session.rs:736-806 | the loop yields the calls of the journal, each once, ordered by first event and then by attempt, token and call id |
| ToolState.OneOrder | src-tauri/src/domain/task_session.rs:802-806 | that order leaves no choice: there is one such list |
| ToolState.CallsAreSummaries | src-tauri/src/domain/task_session.rs:736-806 | there is a call for an identity iff it has events, and it is begun by the first, described by the last, and ended by the last completion among them |
| ToolState.RunningIff | src-tauri/src/domain/task_session.rs:787-800 | a call is running iff none of its events is a completion, else it is what the last one says |
| ToolState.AppendedLeaveOthers | src-tauri/src/domain/task_session.rs:732-800 | appended events never alter a call they do not belong to |
| ToolState.OneCallEach | src-tauri/src/domain/task_session.rs:802-806 | over an ascending journal exactly one call per identity, strictly ordered by first event |
| Coalesce.CoalesceRuntimeEvents | src-tauri/src/application/prompt_task_executor.rs:340-368 | the loop computes the coalesced stream, never longer than its input; held usage implies held text |
| Coalesce.MeaningKept | src-tauri/src/application/prompt_task_executor.rs:340-368 | the other events in order, the text between them and the last usage report of each stretch are kept |
| Coalesce.CoalescedIff | src-tauri/src/application/prompt_task_executor.rs:340-368 | the outcome is tight, and a stream stays as it is exactly if it is tight already |
| Coalesce.CoalescedTwice | src-tauri/src/application/prompt_task_executor.rs:340-368 | coalescing is idempotent |
| Performance.PushHolds | src/lib/performance.ts:128-133 | the ring read from its cursor is always the last 1024 values recorded |
| Performance.SummaryIs | src/lib/performance.ts:330-350 | percentiles are those of the last 1024 values, wherever the ring starts, and p50 <= p95 <= p99 <= max |
| Performance.NearestRank | src/lib/performance.ts:345-350 | the percentile is the value at the first rank that reaches the wanted share |
| Performance.TrimIsRecentIff | src/lib/performance.ts:352-362 | trimming keeps exactly the samples not older than the cutoff, if and only if the old ones come first |
| Performance.TrimmedOk | src/lib/performance.ts:352-362 | with times in order the window holds exactly the increments of the last ten seconds whenever it is trimmed |
| Performance.Metric.Record | src/lib/performance.ts:112-133 | what is not finite or is negative is ignored; anything else enters count, total, maximum and ring |
| Performance.RateCounter.PerSecond | src/lib/performance.ts:284-294 | the reported rate is that of exactly the increments of the last ten seconds |
| Performance.SpanLog.Record | src/lib/performance.ts:134-143 | the last 256 spans since profiling was switched on are kept |

## Left out

- Scheduler.Scheduler.Valid: is stated for the time up to shutdown; after `Shutdown` only what that method states holds.
- Scheduler.Scheduler.DispatchAll: the claims, channel states and store answers of the loop are arbitrary; the link between a claim and the tables is in `PoolAndStore`.
- Timeline.FoldOk: takes what a log says as given; for lifecycle logs `LifecycleLogs` says it from the lines of the message, and for other labels (their titles, keys and statuses) it is not modelled.
- ConnectorPlanner.PlanConnectors: the three lists of the plan are also sorted for display; their order is not modelled.
- Replay.DrainJournal: the timer, the wake-ups between two readings and the checks of the final result are not modelled.
- Performance.SummaryIs: arithmetic is exact, so a percentile rank moved by floating-point rounding is not modelled; nor is the table of metrics by name.
- AiRuns: generated run ids and the two read-only capability queries.
- LifecycleLogs: a line is matched by itself; a match of "entered" and its state over a line end is not modelled.
- BoardProperties.MergeTwiceIff: this and the placement of cards are proved for the first board of the workspace; of the others `BoardProperties.BoardShows` says what they show.
- ProjectionOutbox.SendsIff: which of the due rows is sent first is stated for one coordinator; `SharedOutbox` lets each of several send any due row.
- Event journal rows, capability grants, execution manifests and task-tool authority in the scheduler store: bookkeeping beside the transitions modelled here.
- The 32-bit and 64-bit limits of ids, tokens and time stamps in the store, beyond the attempt number.
- Threads, channels, joining and the bounded shutdown time: the operating system's.
- Error texts, JSON, SHA-256, regular expressions and case folding: results of parameters, or not modelled.
- Runtime, provider, OpenCode, MCP, Jira, Kubernetes, Git, LSP, PTY and file-watching code, Tauri commands, editor and user interface.
- The wait loop of prompt task sessions: the same replay loop again.
