# Verified model of the ContextSwarm allocation runtime

This project models the allocation runtime of `contextswarm_mini` in Dafny and
proves properties of the model: the settlement of remote judge jobs, the elastic
slot scheduler, the projection of trace events into allocation features, the
allocation policies and their audits, score-time integrals and arm selection,
manifest inheritance, stream framing and bounded recovery.

`dafny verify dfyconfig.toml` checks everything.

| files | what they hold |
|---|---|
| `Receipts` | judge receipts as nested envelopes: classifiers, job identity, the identity worklist |
| `RequestFaults`, `Settlement`, `SettlementProofs`, `SettlementTheorems`, `SettlementReasons`, `SettlementHistory` | what becomes of an exception inside a request; evaluations and watchers as one state machine; its invariant; what holds in every run; why a job is handed over or counted; what a run has asked of the Judge |
| `SchedulerHistory`, `SchedulerBook`, `Scheduler`, `SchedulerTheorems`, `SchedulerTurns`, `Names` | event replay; the books and their invariant; the scheduler class; runs, exported counts, balance; who is served when; the id encodings |
| `TraceRecords`, `TraceOrder`, `TraceState`, `TraceStreaming`, `TraceScalars`, `TraceFinish`, `TraceVotes`, `TraceProjection`, `TraceBridge`, `TraceExamples` | trace rows and their orders; sorting and replay suppression; the accumulator; the fold as a maximum; what an entity says of its trace; the fractions; what their weights are made of; the whole projection; the paged read; concrete rows that break its promises |
| `Manifest`, `ManifestDigest` | the closure walk and the recursive merge; what the closure's digest is fed |
| `ScoreArea`, `Intervals`, `Guardrails`, `Ranking` | nAUC and time to target; bootstrap intervals; guardrails; the choice of an arm |
| `Policies`, `LlmScheduler`, `Audit`, `JsonDepth`, `Parameters`, `RoundRobin` | snapshots, scores and decisions; the model-driven policy; audit records; the depth scan; the bounded walk over allocation parameters; round-robin fairness |
| `Framing`, `Recovery` | line framers and the tail buffer; the restart loop |
| `Options`, `Sequences`, `Quotients`, `Cyclic`, `Lexicographic` | optional values; joined and repetition-free sequences; division and order; cyclic scans; the order of texts |

How the runtime is represented:

- Times, scores and weights are reals; the exponential decay is an arbitrary
  function with values in (0, 1].
- A region that holds a lock, or one answer observed from outside, is one atomic
  action. A thread interleaving is a sequence of actions; the deadlines, answers
  and failing callbacks are choices the actions carry.
- The clock, the cancellation event, the invoked agent, the page source and the
  model call are oracles answering by number of call, or parameters.
- An exception is an action that carries its kind and the place it is raised at; the
  handlers of a request are tried in the order they are written in. A definite
  rejection of a submission is believed, as the code does: no job was admitted.
- Objects whose methods update their fields are classes (`ElasticScheduler`,
  `TaskAccumulator`, `ClosureWalk`, the framers, `TailBuffer`, the round-robin
  policies), each tied to a specification function or to the history it replays.
- Kind, status and note texts are classified once (`TraceRecords.KindOf`, the
  rules of `Receipts`); the proofs hold for any such classification. Identifier
  cleaning is an idempotent partial function.

Four claims are false of the code as written. Each is kept as it is, shown by a
concrete case, and given the exact condition stated here:

- An admitted job can be lost: neither settled, nor pending, nor counted. A
  submission that raises a value error once it is sent (bytes that are not UTF-8, a
  malformed redirect) is caught by the handler for invalid request configurations
  (`contextswarm_mini/evaluator.py:974`) before the ones that would set the latch,
  so that the handler for undecodable answers never runs. An answer in valid UTF-8
  that the parser fails on other than by a syntax error, such as an integer with too
  many digits or exhausted recursion (`contextswarm_mini/evaluator.py:1011-1012`), or
  a lifecycle figure too large for a float (`contextswarm_mini/evaluator.py:2985-2986`),
  raises something that the evaluation does not catch
  (`contextswarm_mini/evaluator.py:1808`) and ends it with its job open. A run accounts
  for every job at every step if and only if no such step meets a job that nothing
  else accounts for
  (`AccountedExactlyWhenNothingLoses`, `UncountedSubmissionLosesJob`,
  `UncaughtPollLosesJob`). A watcher that dies in the same way leaves its job pending
  for good (`DeadWatcherStrandsItsJob`).
- The projection's row identity leaves out the exposure, while the check that
  refuses contradictory rows includes it: rows without a record id that differ in
  exposure pass the check and yet project differently in different reading orders
  (`TraceExamples.ExposureOrderMatters`). Which rows are kept is independent of order
  and repetition exactly when each identity has one leading row
  (`OrderIndependentExactly`), and what passes the check has one row per identity
  exactly when no two such rows differ in exposure (`ConsistentExactly`).
- A projection run can fail in the validation of its own results: outcome ids are
  taken over unchecked from the rows. It does exactly when an id that some task notes
  is blank or too long, or two are alike when stripped (`AcceptedExactly`,
  `LongOutcomeIdFails`).
- A snapshot may carry an empty configuration hash, which an audit record refuses
  (`UnhashedSnapshotIsNotAuditable`; `ChoicesAreAuditable` gives the exact condition).

Where a comment and the code differ the code is followed: the comment at
`contextswarm_mini/evaluator.py:1587-1590` says an explicit contradictory id is
never rewritten, but an id that cannot be sanitised is replaced by the job's own
like a missing one.

## Model

| member | source | states |
|---|---|---|
| Receipts.ProvedExactlyWhenScored | contextswarm_mini/evaluator.py:3028-3108 | a terminal receipt is named PROVED exactly when it scores; off terminality the two differ only for a pending lifecycle that already carries a proof verdict |
| Receipts.ScoresExactlyWithWitness | contextswarm_mini/evaluator.py:3155-3171 | a receipt is proved exactly when some envelope down its chain of responses states a proof and no envelope on the way reports a failed or pending lifecycle |
| Receipts.FailedLifecycleNeverScores | contextswarm_mini/evaluator.py:3056-3108 | a receipt whose lifecycle failed or is pending never scores, however deep a stale proof verdict sits |
| Receipts.DepthIsProof | contextswarm_mini/evaluator.py:3155-3171 | a proof stated any number of successful responses down proves the receipt |
| Receipts.LifecycleDecidesTerminality | contextswarm_mini/evaluator.py:3111-3152 | a pending lifecycle is never terminal, however final what it wraps may look; a failed or completed one always is; without a lifecycle a proof verdict is |
| Receipts.FailuresAreNamed | contextswarm_mini/evaluator.py:3028-3108 | a lifecycle that was cancelled, rejected for overload or timed out names the outcome, unscored, whatever verdict it wraps |
| Receipts.NotesAreNamed | contextswarm_mini/evaluator.py:3028-3108 | the notes of a failed receipt name its outcome in their order: timeout, exhausted resources, overload, cancellation |
| Receipts.StaleProofIsContradiction | contextswarm_mini/evaluator.py:3046-3108 | a failed lifecycle without such notes that still wraps a proof is a contradiction, never a proof |
| Receipts.SubmissionBindsItsReceipt | contextswarm_mini/evaluator.py:2908-2916 | the id taken from an accepted submission is clean and its receipt is bound to it |
| Receipts.WithJobKeepsOutcome | contextswarm_mini/evaluator.py:669-692 | writing the job id into a receipt changes neither its outcome nor its terminality |
| Receipts.WithJobBinds | contextswarm_mini/evaluator.py:669-692 | writing the job id into a receipt binds the receipt to that job |
| Receipts.WatcherReceiptIdentity | contextswarm_mini/evaluator.py:694-737 | the bounded worklist returns invalid exactly when there are more than 16 envelopes or some present id differs, otherwise matching exactly when some id is present |
| Receipts.BoundReceiptSpeaksForJob | contextswarm_mini/evaluator.py:669-692 | a receipt bound for a watcher carries no foreign id anywhere, and it is terminal exactly when the receipt it was made from is |
| SettlementProofs.ApplyKeeps | contextswarm_mini/evaluator.py:475-666 | every locked region and every observed answer keeps the whole settlement invariant, and only adds to what is accounted for |
| SettlementProofs.RaiseLatchKeeps | contextswarm_mini/evaluator.py:488-492 | counting a job and setting the latch is one step that keeps the counter equal to the recorded causes |
| SettlementProofs.StartWatcherKeeps | contextswarm_mini/evaluator.py:500-551 | handing a job to a new or an already registered watcher keeps the job accounted for and every callback in one place |
| SettlementProofs.ObserveKeeps | contextswarm_mini/evaluator.py:574-621 | a receipt read by a watcher settles it only as an authoritative receipt of its own job |
| SettlementProofs.MarkKeeps | contextswarm_mini/evaluator.py:622-634 | a watcher that timed out is counted while its record is still pending |
| SettlementProofs.PopKeeps | contextswarm_mini/evaluator.py:622-634 | removing the record of a counted watcher leaves its job accounted for |
| SettlementProofs.LookKeeps | contextswarm_mini/evaluator.py:636-651 | a look of the drain loop moves the queued callbacks into the batch without losing, duplicating or reordering any |
| SettlementProofs.CallbackKeeps | contextswarm_mini/evaluator.py:643-658 | calling one callback moves it from the batch to those run |
| SettlementProofs.AfterDrainKeeps | contextswarm_mini/evaluator.py:652-662 | a failed callback is counted before the record goes |
| SettlementProofs.ClearKeeps | contextswarm_mini/evaluator.py:663-666 | removing the record of a drained watcher keeps its job accounted for by the receipt |
| SettlementProofs.ReconcileKeeps | contextswarm_mini/evaluator.py:2014-2150 | every answer to a cancellation or a reconciling poll keeps the job in the evaluation's hands or settles it |
| SettlementProofs.TerminalErrorKeeps | contextswarm_mini/evaluator.py:952-967 | a rejection that is itself a terminal receipt naming its job settles that job |
| SettlementProofs.LatchSubmissionKeeps | contextswarm_mini/evaluator.py:744-762 | a submission of unknown outcome is counted |
| SettlementProofs.LeaveKeeps | contextswarm_mini/evaluator.py:1808-1860 | an exception that leaves an evaluation keeps the invariant: a job with a terminal receipt in hand is settled, a watched one pending, any other recorded as lost |
| SettlementProofs.DieKeeps | contextswarm_mini/evaluator.py:570-578 | a watcher whose request raises something it does not catch dies with its job still pending |
| RequestFaults.NotUtf8HandlerIsDead | contextswarm_mini/evaluator.py:974-991 | no exception reaches the handler for answers that are not UTF-8: the one before it takes every value error |
| RequestFaults.UncaughtLeavesEvaluation | contextswarm_mini/evaluator.py:974-1023 | whatever a request lets through, the evaluation does not catch either |
| SettlementTheorems.ReachableInv | contextswarm_mini/evaluator.py:475-666 | the invariant holds after every run of every interleaving |
| SettlementTheorems.EveryJobAccountedFor | contextswarm_mini/evaluator.py:1475-1715 | in every reachable state a job is secured, still in its evaluation's hands, or recorded as lost; once the evaluation returns it is secured or lost; a lost job without a name is never secured |
| SettlementTheorems.LosingStep | contextswarm_mini/evaluator.py:974-1023 | what is lost grows exactly by the job of a step whose guard fired: an admitted submission that raises something uncounted, or an uncaught exception in an evaluation that owes its job a settlement |
| SettlementTheorems.LosingStepLoses | contextswarm_mini/evaluator.py:974-1023 | right after such a step the job is settled, pending and counted nowhere, and its evaluation is gone |
| SettlementTheorems.LosingRun | contextswarm_mini/evaluator.py:974-1023 | a run records nothing as lost exactly when no such guard fired |
| SettlementTheorems.AccountedExactlyWhenNothingLoses | contextswarm_mini/evaluator.py:974-1023 | the accounting law holds at every step of a run if and only if no such guard fired in it |
| SettlementTheorems.UncountedSubmissionLosesJob | contextswarm_mini/evaluator.py:974-1023 | three steps after which an admitted job is neither settled, nor pending, nor counted, with the latch open: for every exception a submission does not count |
| SettlementTheorems.UncaughtPollLosesJob | contextswarm_mini/evaluator.py:1511-1600 | four steps that do the same to a job whose id is known, for every exception a poll or the lifecycle budget lets through |
| SettlementTheorems.AccountedForever | contextswarm_mini/evaluator.py:622-666 | a job once accounted for stays so through every later step |
| SettlementTheorems.CounterAndLatch | contextswarm_mini/evaluator.py:475-492 | the counter never falls, equals the number of recorded causes, and the latch is set exactly when it is positive |
| SettlementTheorems.SubmissionNeedsGate | contextswarm_mini/evaluator.py:1282-1296 | only the gate leads to a submission, and only while the counter is zero |
| SettlementTheorems.LatchStopsSubmissions | contextswarm_mini/evaluator.py:764-789 | once the latch is set no further submission begins |
| SettlementTheorems.WatcherSettlesOnlyItsJob | contextswarm_mini/evaluator.py:553-621 | what settles a watcher is terminal, carries no foreign job id, and came through a capability never caught contradicting the job |
| SettlementTheorems.CallbackProtocol | contextswarm_mini/evaluator.py:528-551 | callbacks run in registration order, each registration at most once, never on a timeout or a crash, and the record is pending while any is still to run |
| SettlementTheorems.QuietWatcherIsDone | contextswarm_mini/evaluator.py:643-666 | after its last, empty look, or once dead, a watcher calls nothing more, whatever else happens |
| SettlementTheorems.DeadWatcherStrandsItsJob | contextswarm_mini/evaluator.py:540-578 | a watcher that died or whose thread never started keeps its job pending for good and calls none of its callbacks |
| SettlementTheorems.CallbacksBeforeLastLook | contextswarm_mini/evaluator.py:636-666 | the callbacks called in all are exactly those registered before the last, empty look |
| SettlementReasons.KnowsWhatHappened | contextswarm_mini/evaluator.py:2050-2117 | what an evaluation knows while it reconciles is what the actions since it began amount to: whether its DELETE was sent, whether a receipt allowed a retry, and its last current receipt |
| SettlementReasons.GiveUpDecides | contextswarm_mini/evaluator.py:2118-2150 | giving up hands the job on exactly when its DELETE was sent and the cancellation is the runner's own or may be retried, and marks it for counting otherwise |
| SettlementReasons.EveryPhaseHasReason | contextswarm_mini/evaluator.py:2014-2150 | in every run whoever reconciles, hands over or gives up a job has the reason for it behind it |
| SettlementReasons.DeferredOnlyAfterCancel | contextswarm_mini/evaluator.py:2118-2148 | a job is with a watcher only if its evaluation had its DELETE sent since it began to reconcile, and the cancellation was the runner's own or a receipt allowed a retry |
| SettlementReasons.CountedOnlyWithReason | contextswarm_mini/evaluator.py:2118-2150 | a cancellation is counted as unconfirmed only without a DELETE, or when neither the runner's own nor to be retried, or when the hand-over lacked a receipt of the job or a path to poll |
| SettlementHistory.TicketsAreAdmissions | contextswarm_mini/evaluator.py:1399-1475 | the state remembers exactly the jobs the actions made the Judge hold: those named by an accepted or terminal answer, and those of admitted submissions without one |
| SettlementHistory.AdmittedJobsAreSecured | contextswarm_mini/evaluator.py:1475-1715 | once an evaluation has returned, every job the actions of the run made the Judge hold for it is secured unless it was lost |
| SettlementHistory.RetriesAreSpent | contextswarm_mini/evaluator.py:1956-1992 | retries are spent by resubmitting and by nothing else, one at a time, and only after a terminal overload receipt that says it may be retried |
| SettlementHistory.ResubmissionsAreGranted | contextswarm_mini/evaluator.py:1956-1992 | the resubmissions an evaluation makes in a run and those it has left add up to those it was granted |
| SettlementHistory.FailedCallbacksAreCounted | contextswarm_mini/evaluator.py:652-662 | a watcher has failed exactly when a callback it called did, and is past its drain only with the failure counted |
| SettlementHistory.CapabilitiesJoin | contextswarm_mini/evaluator.py:599-615 | advertised capabilities join a watcher's list once each, nothing else does, and all of them do while the list is below its bound |
| Names.AgentNameInjective | contextswarm_mini/elastic_scheduler.py:528-542 | an agent id determines its task and generation, whatever dashes and digits the task id contains |
| Names.ReservationNameInjective | contextswarm_mini/elastic_scheduler.py:403-404 | reservation ids are never shared |
| SchedulerHistory.PrefixesConvert | contextswarm_mini/elastic_scheduler.py:492-509 | only the prefix between an admission and its conversion row counts one slot too many |
| SchedulerHistory.ReleaseFrees | contextswarm_mini/elastic_scheduler.py:444-457 | releasing a reservation frees exactly what it still held and leaves the others |
| SchedulerHistory.TakeSlotTakesOne | contextswarm_mini/elastic_scheduler.py:492-496 | converting takes one slot from its reservation and none from the others, dropping it when empty |
| SchedulerHistory.CountsPartition | contextswarm_mini/elastic_scheduler.py:671-679 | the per-task lease counts add up to the number of leases |
| SchedulerBook.FreshAgent | contextswarm_mini/elastic_scheduler.py:528-542 | the next agent id differs from every id ever admitted |
| SchedulerBook.AdmitKeeps | contextswarm_mini/elastic_scheduler.py:528-542 | an admission into a free slot keeps the books' invariant |
| SchedulerBook.AcquireKeeps | contextswarm_mini/elastic_scheduler.py:396-421 | acquiring a reservation keeps the invariant |
| SchedulerBook.ReleaseKeeps | contextswarm_mini/elastic_scheduler.py:443-458 | releasing a reservation keeps the invariant |
| SchedulerBook.ConvertKeeps | contextswarm_mini/elastic_scheduler.py:479-510 | converting a reserved slot keeps the invariant, capacity included |
| SchedulerBook.CloseKeeps | contextswarm_mini/elastic_scheduler.py:574-589 | finishing a worker keeps both lease tables equal |
| SchedulerBook.SettleTaskKeeps | contextswarm_mini/elastic_scheduler.py:608-642 | solving or retiring a task keeps the invariant |
| SchedulerBook.CancelKeeps | contextswarm_mini/elastic_scheduler.py:644-667 | cancelling a task's leases keeps the invariant |
| SchedulerBook.AddTaskKeeps | contextswarm_mini/elastic_scheduler.py:258-270 | adding a task keeps the invariant |
| SchedulerBook.FreshTasks | contextswarm_mini/elastic_scheduler.py:130-144 | a scheduler created for some tasks starts with exactly those, open, unadmitted and without leases |
| Cyclic.ScanFrom | contextswarm_mini/elastic_scheduler.py:284-292 | the cyclic scan finds the first marked place at or after the cursor, or there is none |
| Scheduler.LeastActiveOf | contextswarm_mini/elastic_scheduler.py:313-324 | the open task with the fewest leases, then the lowest generation, then the nearest turn |
| Scheduler.ChooseTask | contextswarm_mini/elastic_scheduler.py:278-331 | quotas first, then tasks below quota, then the policy, with the cursors each branch leaves |
| SchedulerTurns.LeastActiveServes | contextswarm_mini/elastic_scheduler.py:308-326 | with every quota met the least-active rule serves the open task with the fewest leases, then the lowest generation, then the nearest from the spare cursor, which moves past it |
| SchedulerTurns.QuotasComeFirst | contextswarm_mini/elastic_scheduler.py:278-307 | while some open task has admitted fewer than its quota the first such from the initial cursor is served, then the first that runs fewer than its quota from the spare cursor, and only the cursor used moves |
| SchedulerTurns.RoundRobinTurn | contextswarm_mini/elastic_scheduler.py:308-331 | round robin serves the open task with as many open tasks before it as the cursor says, counted cyclically, and moves the cursor to the next |
| SchedulerTurns.RoundRobinInTurn | contextswarm_mini/elastic_scheduler.py:308-331 | the j-th of consecutive round-robin selections serves the open task j places after the cursor's |
| SchedulerTurns.RoundRobinServesEachOnce | contextswarm_mini/elastic_scheduler.py:308-331 | as many consecutive selections as there are open tasks serve each of them exactly once |
| Scheduler.ElasticScheduler.constructor | contextswarm_mini/elastic_scheduler.py:109-128 | a scheduler without tasks, leases, reservations or history |
| Scheduler.ElasticScheduler.Create | contextswarm_mini/elastic_scheduler.py:89-176 | refused exactly for a capacity below one, a negative horizon, default or quota, or a blank or repeated task id; otherwise the fresh scheduler for those tasks |
| Scheduler.ElasticScheduler.OccupiedSlots | contextswarm_mini/elastic_scheduler.py:374-377 | leases plus the slots reservations still hold |
| Scheduler.ElasticScheduler.AddTask | contextswarm_mini/elastic_scheduler.py:258-270 | adds an open task, or refuses a blank or known id or a negative quota, changing nothing |
| Scheduler.ElasticScheduler.SelectTask | contextswarm_mini/elastic_scheduler.py:278-331 | moves only the cursors, as the selection rule says |
| Scheduler.ElasticScheduler.NextAssignment | contextswarm_mini/elastic_scheduler.py:333-345 | refuses unchanged at capacity, past the horizon or without an open task; otherwise admits exactly the selected task's next lease |
| SchedulerTurns.GrantIsSelectedLease | contextswarm_mini/elastic_scheduler.py:333-347 | a granted claim is one new lease of the selected task, open until then, at the next of its generations, and everything running goes on |
| Scheduler.ElasticScheduler.NextAssignmentFor | contextswarm_mini/elastic_scheduler.py:347-372 | the same checks and errors, in their order, for a task the caller chose |
| Scheduler.ElasticScheduler.AdmitLocked | contextswarm_mini/elastic_scheduler.py:528-542 | records one lease in every table and in the history |
| Scheduler.ElasticScheduler.AcquireReservation | contextswarm_mini/elastic_scheduler.py:379-421 | all the slots or none, under the next reservation id |
| Scheduler.ElasticScheduler.ReleaseReservation | contextswarm_mini/elastic_scheduler.py:423-458 | gives back what is left once; unknown ids are ignored |
| Scheduler.ElasticScheduler.AdmitReserved | contextswarm_mini/elastic_scheduler.py:460-510 | turns one reserved slot into a lease; every refusal leaves the reservation held |
| Scheduler.ElasticScheduler.Finish | contextswarm_mini/elastic_scheduler.py:550-597 | releases a known worker and then solves or retires its task if asked and still open to it |
| Scheduler.ElasticScheduler.TaskSolved | contextswarm_mini/elastic_scheduler.py:602-620 | solves a task once, keeping its running leases |
| Scheduler.ElasticScheduler.RetireTask | contextswarm_mini/elastic_scheduler.py:622-642 | retires an open task once, keeping its running leases |
| Scheduler.ElasticScheduler.CancelTask | contextswarm_mini/elastic_scheduler.py:644-667 | drops and returns every lease of the task and no other |
| SchedulerTheorems.MoveKeeps | contextswarm_mini/elastic_scheduler.py:333-667 | every state-changing operation keeps the books' invariant |
| SchedulerTheorems.EveryRun | contextswarm_mini/elastic_scheduler.py:415-667 | after every run: capacity holds, the lease table is the union of the per-task ones, the history replays to leases, reservations, flags, generations and admission counts, reserved slots are conserved, prefixes over-count by at most the slot being converted, agent ids are unique, closed tasks get no lease |
| SchedulerTheorems.ExportedCounts | contextswarm_mini/allocation_core.py:831-839 | the exported counts satisfy both equations an allocation snapshot demands |
| SchedulerTheorems.ServedTask | contextswarm_mini/elastic_scheduler.py:284-326 | while equal quotas are being filled the tasks are served in order; afterwards a least loaded one is |
| SchedulerTheorems.LeastActiveBalanced | contextswarm_mini/elastic_scheduler.py:278-326 | with equal quotas, an admissions-only run under the least-active rule keeps every two tasks' lease counts within one, at every moment |
| TraceRecords.RowLessTotal | contextswarm_mini/allocation_projection.py:886 | sequence and identity order all rows that differ in either |
| TraceRecords.KeyLessTotal | contextswarm_mini/allocation_projection.py:999-1004 | state keys are totally ordered: sequence, time with absent last, lifecycle precedence, identity |
| TraceRecords.DeadStateWins | contextswarm_mini/allocation_projection.py:95-105 | of two simultaneous state rows the one that says the trace is dead wins: a tie never revives a trace |
| TraceState.TaskAccumulator.EntityFor | contextswarm_mini/allocation_projection.py:978-1036 | finds or creates the row's entity in place and applies its scalar state only when the row's key is the greatest so far |
| TraceState.TaskAccumulator.Mark | contextswarm_mini/allocation_projection.py:1054-1136 | sets in place the mark of the first vocabulary the row falls in, drag marks only on rows that set the state |
| TraceState.TaskAccumulator.AccumulateFull | contextswarm_mini/allocation_projection.py:1038-1144 | collects one row in place, ignoring checker rows and refusing unmapped feedback |
| TraceStreaming.FlagsAfter | contextswarm_mini/allocation_projection.py:1008-1028 | a superseding row replaces the flags with exactly its own; any other row leaves them |
| TraceStreaming.StreamingIsMaximum | contextswarm_mini/allocation_projection.py:999-1136 | for every processing order an entity exists exactly for the keys some row names, its latest key is the maximum over its state rows, and its four flags are those the maximal row sets |
| TraceStreaming.StreamingOrderIndependent | contextswarm_mini/allocation_projection.py:999-1136 | two orders of the same rows leave the same latest key and flags, wherever equal keys mean equal rows |
| TraceScalars.EntitiesAreTold | contextswarm_mini/allocation_projection.py:999-1070 | for every processing order: what an entity holds as active, lifecycle, actionable, time and lineage is what the last row that set its state and tells it has told, refutation, stale and frontier rows overriding; its last activity and evidence are those of all rows that name it |
| TraceScalars.InKeyOrderAllSet | contextswarm_mini/allocation_projection.py:999-1020 | in key order every state row sets the state, so the last that tells is the greatest |
| TraceScalars.DeadTraceCountsNothing | contextswarm_mini/allocation_projection.py:1017-1020 | a trace whose greatest state row tells an inactive lifecycle or that it is not active leaves the active traces, and so actionability and association, as if it were not there |
| TraceScalars.LiveTraceCounts | contextswarm_mini/allocation_projection.py:771-775 | a trace whose greatest state row tells that it is active in a live lifecycle is among the active ones |
| TraceVotes.CollectionsAreTold | contextswarm_mini/allocation_projection.py:1056-1108 | a task has collected exactly the exposures observed, the evidence associated with its lineages, and for each exposure the votes on it in order |
| TraceVotes.SameExposureExactly | contextswarm_mini/allocation_projection.py:1098-1104 | two rows speak of one exposure exactly when run, episode, exposure, worker and subject agree |
| TraceOrder.Sorts | contextswarm_mini/allocation_projection.py:886 | the sort keeps the rows as often as they occur and puts them in order |
| TraceOrder.FirstStaysFirst | contextswarm_mini/allocation_projection.py:886 | the sort is stable: the first row read precedes every row it ties with |
| TraceOrder.KeptIsCanonical | contextswarm_mini/allocation_projection.py:892-899 | with one leading row per identity, what replay suppression keeps is strictly ascending and exactly the leading rows of the given tasks |
| TraceOrder.KeptDependsOnSet | contextswarm_mini/allocation_projection.py:886-899 | then what is kept depends on the set of rows alone |
| TraceOrder.OrderIndependentExactly | contextswarm_mini/allocation_projection.py:886-899 | what is kept is independent of order and repetition if and only if no two different rows lead the same identity |
| TraceProjection.FoldSkips | contextswarm_mini/allocation_projection.py:894-906 | rows that are not kept leave no mark on any table |
| TraceProjection.ConvertsExactly | contextswarm_mini/allocation_projection.py:866-882 | conversion fails exactly for a row beyond the watermark or for too many rows; a row without a sequence is numbered by its place, from one |
| TraceProjection.ProjectionDependsOnSet | contextswarm_mini/allocation_projection.py:866-935 | within the record bound, inputs with the same set of rows and one leader per identity project alike, failures included |
| TraceProjection.PermutedAndReplayed | contextswarm_mini/allocation_projection.py:866-906 | if rows of one identity are equal and carry their sequences, permuting them or replaying exact copies changes no projection |
| TraceProjection.PagingIsIrrelevant | contextswarm_mini/allocation_trace_bridge.py:1046-1102 | splitting the rows into pages in any way changes no projection |
| TraceProjection.FoldOutcomes | contextswarm_mini/allocation_projection.py:1060-1107 | a task has noted exactly the outcome ids of its kept evidence links and terminal feedback |
| TraceProjection.AcceptedExactly | contextswarm_mini/allocation_projection.py:609-618 | once its rows are accumulated a run fails in the validation of its own results if and only if some task has noted an outcome id that is blank or longer than 512 characters, or two that are alike when stripped |
| TraceExamples.LongOutcomeIdFails | contextswarm_mini/allocation_projection.py:1606-1613 | a single row with an outcome id of 513 characters makes the run fail in its own validation |
| TraceProjection.ExposureIsNotIdentity | contextswarm_mini/allocation_projection.py:442-462 | rows differing in exposure alone share an identity, so the order they are read in decides which is kept |
| TraceProjection.VerdictNeedsItsExposure | contextswarm_mini/allocation_projection.py:1250-1272 | of two such exposures, a verdict on one counts exactly when that one was kept |
| TraceProjection.JudgedReading | contextswarm_mini/allocation_projection.py:886-906 | of two exposures that differ in nothing else, the fraction of helpful feedback is that of the verdict exactly when the exposure it judges is read first |
| TraceExamples.ExposureOrderMatters | contextswarm_mini/allocation_projection.py:442-462 | three rows that pass the check for contradictions project to a positive feedback fraction in one reading order and to none in the other |
| TraceProjection.ConvertAll | contextswarm_mini/allocation_projection.py:866-882 | conversion, its watermark check and the record bound, row by row |
| TraceProjection.TakeRow | contextswarm_mini/allocation_projection.py:894-906 | one sorted row into its task's accumulator, with the replay, bound and exclusion checks in their order |
| TraceProjection.ProjectFull | contextswarm_mini/allocation_projection.py:828-935 | the loops compute the specified projection of every task, or its failure |
| TraceFinish.WinnerIsArbitrated | contextswarm_mini/allocation_projection.py:1169-1194 | an exposure has no winner exactly when nothing is terminal or the source declared all of it ineffective; otherwise the winner is terminal, effective if any is, and unbeaten |
| TraceVotes.StrongerFeedback | contextswarm_mini/allocation_projection.py:1169-1194 | of two rows of feedback the one of higher authority counts, then the more trusted, then the later committed, then the greater id |
| TraceFinish.ActionabilityIsShare | contextswarm_mini/allocation_projection.py:1214-1222 | actionability is exactly the recency-weighted share of actionable active traces: clipping never bites |
| TraceFinish.ActionabilityExtremes | contextswarm_mini/allocation_projection.py:1214-1222 | it is one exactly when every weighty active trace is actionable and zero exactly when none is |
| TraceFinish.AssociationIsShare | contextswarm_mini/allocation_projection.py:1224-1245 | evidence association is exactly the weighted share of linked lineages |
| TraceVotes.LineagesVoteOnce | contextswarm_mini/allocation_projection.py:1224-1240 | each lineage of the active traces has exactly one vote, with the greatest weight among its traces, linked exactly when one of them has evidence that is no ordinary outcome |
| TraceVotes.VoteWeightSums | contextswarm_mini/allocation_projection.py:1241-1244 | the weight of all votes and that of the linked ones are plain sums |
| TraceFinish.FeedbackWithinExposures | contextswarm_mini/allocation_projection.py:1250-1274 | the votes counted are of distinct observed exposures |
| TraceFinish.FeedbackIsBounded | contextswarm_mini/allocation_projection.py:1247-1277 | each observed exposure counts at most once and both fractions lie between zero and one |
| TraceVotes.VoteCounts | contextswarm_mini/allocation_projection.py:1250-1274 | the winner of an observed exposure adds its value times its trust to its side and one to that side's count; without an observation or a value it adds nothing |
| TraceVotes.SharesAreClipped | contextswarm_mini/allocation_projection.py:1275-1277 | a fraction is clipped to the unit interval at both ends and exact in between |
| TraceFinish.UnitVotesAddUp | contextswarm_mini/allocation_projection.py:1247-1277 | with votes of weight at most one the two fractions add up to at most one and are never clipped |
| TraceFinish.ProportionIsShare | contextswarm_mini/allocation_projection.py:1279-1291 | each drag component is exactly a recency-weighted share, zero exactly when nothing weighty has it |
| TraceFinish.DragIsMean | contextswarm_mini/allocation_projection.py:1306-1322 | drag lies between any bounds its components do |
| TraceVotes.DragIsExact | contextswarm_mini/allocation_projection.py:1306-1322 | drag is exactly the weighted mean of its components, and zero without weights |
| TraceVotes.DragSums | contextswarm_mini/allocation_projection.py:1306-1319 | which weight goes with which component |
| TraceVotes.DragsOfTrace | contextswarm_mini/allocation_projection.py:1289-1304 | a trace is a duplicate when its greatest state row says so, refuted or stale while its lifecycle does, and stagnant when that row says so or it is active but was last so before the window |
| TraceFinish.DragIgnoresWeightless | contextswarm_mini/allocation_projection.py:1306-1322 | a component of weight zero has no influence on drag |
| TraceFinish.WeighsNothingExactly | contextswarm_mini/allocation_projection.py:1206-1212 | a trace counts for nothing exactly when it has a time older than the recency window |
| TraceVotes.RecencyOfTheUndated | contextswarm_mini/allocation_projection.py:1206-1212 | a trace without a time counts in full, and one of the present or future has not decayed |
| TraceVotes.RecencyScales | contextswarm_mini/allocation_projection.py:1206-1212 | the decay depends on the age in windows alone |
| TraceVotes.RecencyFades | contextswarm_mini/allocation_projection.py:1206-1212 | where the decay falls strictly, the older of two traces within the window weighs less |
| TraceFinish.CountsMatchFractions | contextswarm_mini/allocation_projection.py:1279-1370 | in a finished projection each reported count of zero goes with a fraction of zero |
| TraceVotes.FinishReports | contextswarm_mini/allocation_projection.py:1323-1370 | which figures a finished projection reports, and that it is called zero exactly when all five features are |
| TraceFinish.FinishIsAcceptable | contextswarm_mini/allocation_projection.py:552-618 | every figure of a finished projection passes its validation, which refuses exactly unfit outcome ids |
| TraceFinish.FinishFull | contextswarm_mini/allocation_projection.py:1196-1370 | the finishing loops compute the specified projection |
| TraceBridge.ValidateRecords | contextswarm_mini/allocation_trace_bridge.py:772-790 | accepts exactly when rows agreeing in the replay identity are equal |
| TraceBridge.ReadPages | contextswarm_mini/allocation_trace_bridge.py:1034-1130 | returns the first complete, consistent sequence of pages with what they pin; refuses only when no number of the source's answers makes one |
| TraceBridge.ReadSnapshot | contextswarm_mini/allocation_trace_bridge.py:1032-1132 | the projection of that sequence, or the empty view with the reason |
| TraceBridge.Doomed | contextswarm_mini/allocation_trace_bridge.py:1046-1130 | once an answer neither completes the snapshot nor may be followed, no later answer completes it |
| TraceBridge.ConsistentExactly | contextswarm_mini/allocation_trace_bridge.py:741-790 | what the replay check lets through has one row per projection identity if and only if no two rows without a record id differ in exposure |
| TraceBridge.ReadingsAgree | contextswarm_mini/allocation_trace_bridge.py:1046-1102 | two accepted readings of the same rows at the same cut agree on every task under that condition |
| Manifest.DeepMerge | contextswarm_mini/config.py:21-28 | the in-place loop computes the recursive merge |
| Manifest.LookupMerged | contextswarm_mini/config.py:21-28 | what a merged table answers at any key path: the update wins where it has a value, tables merge, the base shows through elsewhere |
| Manifest.OwnEntriesWin | contextswarm_mini/config.py:53 | at every key path a manifest's own plain value is the loaded one, its own table is merged over what it inherits, and where it has nothing the inherited answer shows, unless a table of its own displaced the plain value that blocked it |
| Manifest.LaterParentsWin | contextswarm_mini/config.py:48-52 | among parents the last one that answers with a plain value decides, however the earlier ones answer |
| Manifest.ChildOverridesParents | contextswarm_mini/config.py:53 | a child's plain value overrides whatever its parents say |
| Manifest.LoadIgnoresPath | contextswarm_mini/config.py:32-39 | what is loaded below some path is what is loaded on its own |
| Manifest.VisitMatchesLoad | contextswarm_mini/launch_contract.py:144-172 | the memoised visit succeeds exactly where the path-recursive merge does, with the same first fault, from every reachable state of the walk |
| Manifest.SameFaults | contextswarm_mini/launch_contract.py:137-175 | for every file tree the closure walk fails exactly when the merge does, with the same fault |
| Manifest.SourcesAreTheClosure | contextswarm_mini/launch_contract.py:137-175 | the closure lists each reachable file exactly once, every parent before its children, the root last |
| Manifest.ClosureDeterminesManifest | contextswarm_mini/launch_contract.py:137-175 | a tree agreeing with another on its closure has the same closure and merges to the same manifest |
| ManifestDigest.FeedDigest | contextswarm_mini/launch_contract.py:216-226 | the loop feeds the closure's files sorted by path, each path and content followed by NUL |
| ManifestDigest.FeedIsInjective | contextswarm_mini/launch_contract.py:216-226 | without NUL in paths and contents the bytes fed determine every path and content |
| ManifestDigest.NulConfusesFeed | contextswarm_mini/launch_contract.py:220-225 | with a NUL inside a file they do not: one file is fed like two |
| ManifestDigest.RootIsDetermined | contextswarm_mini/launch_contract.py:137-175 | two manifests with the same closure are the same manifest |
| ManifestDigest.FeedDeterminesManifest | contextswarm_mini/launch_contract.py:216-226 | closures fed alike start from the same manifest, list the same files in the same order and merge to the same result |
| ManifestDigest.FeedDependsOnFiles | contextswarm_mini/launch_contract.py:218-225 | closures with the same files and contents are fed alike, whatever order they were walked in |
| Manifest.ClosureWalk.VisitFile | contextswarm_mini/launch_contract.py:144-172 | the in-place recursive visit is the specified one and terminates on cyclic graphs |
| Manifest.ManifestSources | contextswarm_mini/launch_contract.py:137-175 | the walk from the root computes the closure |
| Manifest.LoadMapping | contextswarm_mini/config.py:31-53 | the recursive loader with its copied path computes the specified merge and terminates |
| ScoreArea.Produce | contextswarm_mini/allocation_audit.py:468-509 | scores exactly the monotone bounded histories over a positive horizon and maximum score, with the area and the first time each target is reached |
| ScoreArea.LayersAreStacks | contextswarm_mini/allocation_audit.py:494-508 | the times past each reached target sum to the area under the scores rounded down |
| ScoreArea.LayerCake | contextswarm_mini/allocation_audit.py:494-509 | horizon times maximum times nAUC exceeds the summed times past each reached target by less than one horizon, and equals it when every score is whole |
| ScoreArea.NAucIsFraction | contextswarm_mini/allocation_audit.py:509 | nAUC lies between zero and one |
| ScoreArea.ReachedByLast | contextswarm_mini/allocation_audit.py:497-500 | a target is reached exactly when the last score reaches it |
| ScoreArea.CheckHistory | contextswarm_mini/allocator_selection.py:817-830 | the consumer accepts exactly the monotone histories without repeated points |
| ScoreArea.History | contextswarm_mini/allocator_selection.py:807-861 | the consumer accepts exactly when the history does and the reported times are its own |
| ScoreArea.Recompute | contextswarm_mini/allocator_selection.py:864-873 | the consumer's second loop recomputes the same normalised area |
| ScoreArea.ProducedIsConsumed | contextswarm_mini/allocator_selection.py:807-873 | whatever the producer scores the consumer recomputes equally, and accepts exactly when no point repeats its predecessor |
| Intervals.QuantileIsMonotone | contextswarm_mini/allocator_selection.py:1248-1258 | linear quantiles stay between the sample's extremes and grow with their probability |
| Intervals.QuantileInterpolates | contextswarm_mini/allocator_selection.py:1248-1262 | the quantile at the k-th of n − 1 equal steps is the k-th order statistic, and in between it moves in proportion |
| Intervals.QuantileExtremes | contextswarm_mini/allocator_selection.py:1248-1262 | the extreme quantiles are the least and the greatest value |
| Intervals.Bootstrap | contextswarm_mini/allocator_selection.py:1261-1279 | the interval is the two symmetric quantiles of the resampled means |
| Intervals.MeanBounds | contextswarm_mini/allocator_selection.py:1267-1269 | a resampled mean stays in the range of the values |
| Intervals.MeanIsAverage | contextswarm_mini/allocator_selection.py:1264-1285 | a single pick has its own value as mean, and two samples together weigh as many picks as each has |
| Intervals.IntervalIsSound | contextswarm_mini/allocator_selection.py:1261-1285 | for any resampling, smallest value ≤ lower ≤ upper ≤ largest value |
| Guardrails.Mediant | contextswarm_mini/allocator_selection.py:1332-1339 | the mediant of fractions within a limit is within it |
| Guardrails.PassingAddsUp | contextswarm_mini/allocator_selection.py:1298-1339 | repeats that all pass have totals that pass every fractional gate |
| Guardrails.BudgetPositive | contextswarm_mini/allocator_selection.py:1301-1304 | the aggregate budget divided by is positive |
| Guardrails.EligibleExactly | contextswarm_mini/allocator_selection.py:1298-1352 | an arm is eligible exactly when every repeat passes and no repeat occupied more than the least capacity |
| Guardrails.EligibleIsAllPass | contextswarm_mini/allocator_selection.py:1093-1102 | with the capacity the loader makes repeats share, eligible is just that all repeats pass |
| Guardrails.RepeatPassesExactly | contextswarm_mini/allocator_selection.py:1298-1353 | a repeat passes exactly when each cost is at most its limit times what it is measured by, something was decided, its slots fit, and a model-driven arm was called, another cost nothing |
| Guardrails.DifferentCapacities | contextswarm_mini/allocator_selection.py:1340-1348 | without a shared capacity all repeats can pass while the arm fails |
| Guardrails.DifferentCapacitiesExist | contextswarm_mini/allocator_selection.py:1340-1348 | a concrete pair of such repeats |
| Guardrails.GuardrailCheck | contextswarm_mini/allocator_selection.py:1288-1353 | the loop and the aggregate checks decide exactly that |
| Ranking.Select | contextswarm_mini/allocator_selection.py:1422-1429 | the eligible arm that outranks all others; none exactly when no arm is eligible |
| Ranking.WinnerIsUnique | contextswarm_mini/allocator_selection.py:1424-1428 | the rank key singles out one arm |
| Ranking.LosingArmsAreIrrelevant | contextswarm_mini/allocator_selection.py:1422-1429 | disqualifying a losing arm does not change the choice |
| Ranking.IneligibleArmsAreIrrelevant | contextswarm_mini/allocator_selection.py:1422-1429 | an arm that failed its guardrails never affects the choice |
| Policies.HighestIsBest | contextswarm_mini/allocation_core.py:1567-1568 | the choice is the lexicographic argmax: highest score, then smallest id |
| Policies.OutcomeIsDetermined | contextswarm_mini/allocation_core.py:1464-1538 | two admitted decisions carry the same flags exactly when they carry the same outcome |
| Policies.AdmittedExactly | contextswarm_mini/allocation_core.py:1464-1538 | the machine admits one combination of flags for each outcome, and exactly a charged call carries the decision's id |
| Policies.DeterministicChoices | contextswarm_mini/allocation_core.py:1595-1683 | the three deterministic policies decide inside the outcome machine and select an eligible task, or none; with capacity and an eligible task, one |
| Policies.ServesExactlyWhenPossible | contextswarm_mini/allocation_core.py:1595-1683 | each of the three serves a task exactly when time and a free slot are left and some task is eligible |
| Policies.UniformServesLeastLoaded | contextswarm_mini/allocation_core.py:1610-1611 | the refill policy serves a task no other eligible task undercuts in load, or in id at equal load |
| Policies.TaskScoreMonotone | contextswarm_mini/allocation_core.py:1163-1171 | better checker state never lowers a task's score, and more failure never raises it |
| Policies.ScoreSharesLoad | contextswarm_mini/allocation_core.py:1163-1213 | a score times one more than the task's allocations is that of the idle task, for the ordinary score and the trace increment |
| Policies.TaskScoreContributions | contextswarm_mini/allocation_core.py:1163-1171 | raising one feature of an idle task moves its score by that feature's own weight times the amount; a task without features scores zero |
| Policies.EvidenceContributions | contextswarm_mini/allocation_core.py:1190-1213 | the same for the trace increment and its evidence |
| Policies.DragContributions | contextswarm_mini/allocation_core.py:1190-1213 | aggregate drag counts with its own weight in the aggregate form and not at all in component form |
| Policies.ComponentContributions | contextswarm_mini/allocation_core.py:1193-1201 | each drag component counts with its own weight, scaled by the density weight |
| Policies.LoadLowersScores | contextswarm_mini/allocation_core.py:1163-1222 | a task that would score positively idle scores strictly less with every further allocation, in ordinary score, increment and total |
| Policies.CrowdedTaskIsNotServed | contextswarm_mini/allocation_core.py:1629-1683 | of two eligible tasks that differ in load and id only and would score positively idle, neither policy serves the more loaded one |
| Policies.DecisionsPublishScores | contextswarm_mini/allocation_core.py:1595-1683 | the scores a decision publishes are the eligible tasks' load negated, ordinary score, or ordinary score and trace increment added up |
| Policies.TaskStateIgnoresTraces | contextswarm_mini/allocation_core.py:1629-1650 | snapshots that differ only in trace evidence get the same task-state decision |
| Policies.TraceIncrementMonotone | contextswarm_mini/allocation_core.py:1190-1213 | more helpful evidence never lowers the trace increment and more harmful evidence, as components or in aggregate, never raises it |
| LlmScheduler.ParseOutput | contextswarm_mini/allocation_core.py:1686-1782 | the parser's checks in their order, the depth scan before decoding |
| LlmScheduler.AcceptedAnswer | contextswarm_mini/allocation_core.py:1760-1782 | an accepted answer names this decision, an eligible task, and at most twenty distinct references of that task |
| LlmScheduler.AcceptsExactly | contextswarm_mini/allocation_core.py:1686-1782 | a text is accepted exactly when it is bounded in length and depth and decodes to one object with exactly the four fields, for this decision, an eligible task, a reason that may be shown and distinct references of that task |
| LlmScheduler.FailuresAreClassified | contextswarm_mini/allocation_core.py:1966-2030 | which call without an accepted answer is the provider's error, the policy's timeout or invalid output |
| LlmScheduler.FallbackIsTaskState | contextswarm_mini/allocation_core.py:1985-1995 | the fallback is what the task-state policy would serve, and no eligible task has a higher ordinary score |
| LlmScheduler.Choose | contextswarm_mini/allocation_core.py:1926-2060 | for every response or failure of the call the decision passes the closed outcome machine and selects an eligible task or none; which outcome and which task, case by case |
| Audit.PeakChoiceIsHighest | contextswarm_mini/allocation_audit.py:197-201 | the audit's peak-then-least choice is the policies' one-pass argmax |
| Audit.VectorAfterAddsOne | contextswarm_mini/allocation_audit.py:104-110 | the vector after a choice sums to one more |
| Audit.ChoicesAreAuditable | contextswarm_mini/allocation_audit.py:149-232 | on any snapshot with a free slot, time left and an eligible task, the two choices make an acceptable record if and only if the configuration hash is a SHA-256 text and the fallback reason is admissible |
| Audit.UnhashedSnapshotIsNotAuditable | contextswarm_mini/allocation_audit.py:149-232 | a concrete snapshot the core accepts, with a free slot, time left and an eligible task but no configuration hash, makes no acceptable record |
| Audit.RoundTrip | contextswarm_mini/allocation_audit.py:234-251 | decoding an encoded record gives it back exactly when it is acceptable |
| Audit.CreatedRoundTrips | contextswarm_mini/allocation_audit.py:149-251 | whatever creation accepts is acceptable and survives the round trip |
| Audit.CounterfactualMovesOne | contextswarm_mini/allocation_audit.py:185-211 | the two hypothetical vectors differ by moving one allocation between the two choices |
| JsonDepth.RunValue | contextswarm_mini/allocation_core.py:1706-1725 | over any well-formed value the scan returns to its depth having seen exactly the value's nesting |
| JsonDepth.RunBody | contextswarm_mini/allocation_core.py:1710-1717 | inside a string the scan passes every escape and stays inside |
| JsonDepth.TooDeep | contextswarm_mini/allocation_core.py:1703-1725 | refuses exactly when the running depth exceeds 64 somewhere |
| JsonDepth.GuardsExactly | contextswarm_mini/allocation_core.py:1703-1725 | for every well-formed JSON text, escapes and white space included, refuses exactly values nested more than 64 deep |
| Parameters.WalkedFits | contextswarm_mini/allocation_core.py:203-252 | a walk that succeeds counted exactly the nodes of an unfolded tree within the limits, whatever is being visited above it |
| Parameters.AcceptsExactly | contextswarm_mini/allocation_core.py:183-252 | over shared and cyclic objects, accepts exactly what unfolds into a tree of at most 4096 nodes, at most 16 levels below the root, within the container and scalar limits |
| Parameters.NoSelfBelow | contextswarm_mini/allocation_core.py:211-214 | a container of a bounded tree never occurs below itself, so the cycle check refuses nothing the other limits allow |
| Parameters.CyclesAreRefused | contextswarm_mini/allocation_core.py:183-252 | a container on a cycle of any length is refused |
| Parameters.Validator.Validate | contextswarm_mini/allocation_core.py:200-264 | the recursive walk over the shared budget and active set computes the specified walk and leaves the active set as it was |
| Parameters.ValidateParameters | contextswarm_mini/allocation_core.py:183-264 | a fresh validation accepts exactly the bounded trees |
| Framing.LinesRejoin | contextswarm_mini/pi_agent.py:608-620 | framing loses nothing: the lines with their newlines and the rest are the stream |
| Framing.LinesAppend | contextswarm_mini/pi_agent.py:608-616 | complete lines stay; the rest joins what follows |
| Framing.StdoutFramer.Consume | contextswarm_mini/pi_agent.py:608-616 | after any chunk the emitted lines and the buffer are those of all bytes consumed |
| Framing.StdoutFramer.Finish | contextswarm_mini/pi_agent.py:617-620 | an unterminated last line is emitted at the end |
| Framing.FrameStdout | contextswarm_mini/pi_agent.py:608-620 | for every split into chunks the frames are those of the whole stream |
| Framing.StderrFramer.Consume | contextswarm_mini/pi_agent.py:630-658 | the same for standard error, the buffer emptied and the overflow flag set exactly while the current line is over the limit |
| Framing.StderrFramer.Finish | contextswarm_mini/pi_agent.py:659-666 | the last line is reported, or replaced by the notice |
| Framing.FrameStderr | contextswarm_mini/pi_agent.py:630-666 | for every split into chunks the entries are the stream's lines, each over-long one replaced by a single notice |
| Framing.TailBuffer.Append | contextswarm_mini/pi_agent.py:900-916 | keeps the last characters of everything appended with its separators |
| Framing.TailBuffer.Value | contextswarm_mini/pi_agent.py:918-919 | is the last `limit` characters of it |
| Recovery.TotalDelayIs | contextswarm_mini/agent_recovery.py:328 | m completed backoffs total base·(2^m − 1) |
| Recovery.ClassifyFailure | contextswarm_mini/agent_recovery.py:146-169 | recoverable exactly for a failed, uncancelled result before the horizon with no cancellation signalled |
| Recovery.Admit | contextswarm_mini/agent_recovery.py:219-252 | an attempt is checked for cancellation and the deadline before it is announced |
| Recovery.Attempt | contextswarm_mini/agent_recovery.py:253-281 | one invocation, exceptions included, marked when it returned past the deadline |
| Recovery.Backoff | contextswarm_mini/agent_recovery.py:328-398 | schedules and completes a backoff that fits the horizon, or ends the run legally |
| Recovery.RunWithRecovery | contextswarm_mini/agent_recovery.py:172-399 | a negative limit or delay is refused before anything happens; otherwise, for every clock, cancellation and invoker: the log is (failure, scheduled, started)* and one legal ending, invocations are 0,1,… and at most one more than the restarts, each right after a passed check, and the completed backoffs end before the deadline |
| RoundRobin.UniformPolicy.Select | contextswarm_mini/allocation.py:256-268 | the first eligible task at or after the cursor, which moves past it; outside the order the least id |
| RoundRobin.UniformPolicy.Choose | contextswarm_mini/allocation.py:270-281 | records the selection it made |
| RoundRobin.SelectionIsUnique | contextswarm_mini/allocation.py:256-268 | order, cursor and eligible tasks leave no choice of task or cursor; outside the order it is the least eligible id, the cursor staying |
| RoundRobin.PassedOver | contextswarm_mini/allocation.py:262-267 | a selection that passes a task over brings the cursor nearer to it |
| RoundRobin.ChosenInTurn | contextswarm_mini/allocation.py:256-268 | a task that stays eligible is chosen within as many selections as places the cursor is away |
| RoundRobin.BoundedFairness | contextswarm_mini/allocation.py:256-268 | a task of the order eligible in n consecutive selections is chosen at least once, n being the order's length |
| RoundRobin.FormulaPolicy.Choose | contextswarm_mini/allocation.py:371-391 | the first highest score, ties by distance from the cursor |
| RoundRobin.EqualScoresAreRoundRobin | contextswarm_mini/allocation.py:366-380 | with equal scores the formula policy serves and moves exactly as the round robin |

## Left out

- The coding evaluator (`CodingEvaluator`): a failed poll returns there without reconciling the job, so the accounting law is not claimed for it.
- HTTP, sockets, retry headers, URL parsing and capability paths: the transport answers with a receipt, a definite rejection or an ambiguous outcome.
- Text redaction, Unicode categories and the identifier sanitiser: idempotent partial functions or simple predicates on characters. A text's surrounding white space is taken to be stripped already, except that of outcome ids.
- The SQLite selection store, its declaration index and the legacy single-batch read of the bridge.
- SHA-256, JSON encoding and TOML parsing: a state id is any SHA-256 text, decoded payloads and parsed files are inputs. Snapshot identities are therefore not computed, and a manifest digest is represented by the bytes it is fed; a manifest file that is not valid UTF-8 counts as invalid TOML.
- The incremental `project_records` path: it only adds set counts to what the full projection does.
- Task-id bounding in front of the projection: the tasks arrive as the list it produces.
- Symbolic links among manifests, and the repository root that their paths are taken relative to.
- Answers that deny an admitted job: a status other than success, 429 or 5xx, or a confirmed overload, is taken as proof that none was admitted.
- Permit callbacks that raise something other than an ordinary exception.
- Process launch, selectors, signals, session files and environments; UTF-8 replacement and redaction of a framed line, which happen line by line after framing.
- The failure category of a recovery event, which is a text search and decides nothing.
- Field-by-field validation of manifests and paired repeats: many branches, easy facts.
- Allocation parameters whose own length or iteration raises or misreports (hostile mappings), and the smallest admissible horizon of 1e-300, which is modelled as positivity.
- Floating-point rounding, tolerances and the random generator: exact reals and arbitrary index sequences. Reported times are compared exactly.
- Medians of time to target: the ranking takes them as inputs.
- The scheduler's `reservation` context manager: an acquisition followed by a release.
- Wall-clock fields and explanatory texts of decisions and results.
- SettlementTheorems.CallbacksBeforeLastLook: does not claim completeness for a callback registered between a watcher's last empty look and the removal of its record; the code drops such a callback.
- TraceBridge.ReadingsAgree: does not cover rows whose sequence is filled in from the reading position, because then the order of pages is part of the rows.
