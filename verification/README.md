# Verification of the agent platform's stateful cores

A Dafny model of the parts of the platform in which several processes, several stores or several attempts
have to agree: schedule slots and the scheduler, the Redis schedule pipeline, idempotent runs on replicated
API servers, approvals, rate limits, attachments and the audit trail of an agent run. Each part is modelled
branch by branch after the Python code. Code that updates state in place is a class or a step machine whose
methods are proved against a specification; the theorems are about every run, every interleaving or every
input. `dafny verify dfyconfig.toml` checks all of it.

| files | part |
|---|---|
| Calendar, IsoTime | proleptic Gregorian dates; instants in microseconds and their ISO text |
| Cron, CronCoverage, Schedule | cron fields and search, when its bound suffices, the slot of a time, queue payloads and slot keys |
| SchedulerMachine, Scheduler | the scheduler facade as a machine with re-entrant executors, and as an object with its loops |
| Marking, Leasing, Pipeline, Worker | producers and workers over one Redis; `_consume_job` and `enqueue_due` as programs run amid all the others |
| Runs, RunService | run idempotency on a shared table: all interleavings, and the service object of one replica |
| Approvals, ApprovalProtocol, ApprovalRuns, ApprovalRules, ApprovalService | store representations, concurrent decisions, sequential histories as their runs, who may decide and see what, the in-memory store and the service as objects |
| Limits, RedisLimits | the sliding log and the counter that expires |
| Scanner, Attachments | the scanner's framing; blob and metadata stores under faults |
| Policy, RunTrace, AgentRuntime, ScheduledRuns | authorization, the language of audit traces, the runtime object, scheduled runs |
| Models, Text | identities; `str.strip` |

## Reading the model

* Times are exact integers: microseconds since year 1 where the code uses `datetime`, milliseconds of the
  Redis server, nanoseconds of the monotonic clock. A schedule's time zone is a fixed offset.
* A machine's `Step` performs at most one command of a shared store, `Enabled` says which step a process may
  take next, and `Reachable` means after some sequence of enabled steps. Crashes and clock ticks are steps that
  may come anywhere; a command may also fail without effect, or take effect and lose its reply.
* Gateways, models, exporters, executors, notification sinks, scanners, image decoding, drawn ids, tokens and
  faults are parameters over which every theorem is quantified. Drawn ids and tokens are new; digests are
  injective.
* Histories such as `claims`, `acks`, `marks`, `grants`, `log` and `calls` record what happened, for the
  theorems' sake; of them a step reads only what its own process remembers.

## Where the code differs from what is written about it

* Acknowledging a job whose run key is held by another worker loses the job when that worker crashes
  (`JobCanBeLost`, and from every such read `InProgressReadLosesJob`). The worker acknowledges in the same way
  when the second GET of `claim_run` finds nothing. Only the worker's own completion, or having read the
  completion marker, tells that the slot is complete (`AckedCompletedIff`).
* The producer's comment promises that replicas cannot enqueue a slot repeatedly. Three things break it: a
  producer that appends after its own marker's lifetime (`StalledProducerDuplicates`), one that frees after it
  and removes a marker that another has renewed (`LateFreeDuplicates`), and an append that took effect although
  its reply was lost, after which the marker is freed (`LostReplyDuplicates`). Exactly without such an event two
  entries of a slot go in during marker lifetimes that do not overlap (`EntriesLifetimesApart`).
* Retention does not keep a slot's executor from being entered twice within it: one that outlives its lease is
  entered again by the next worker (`ExecutorOutlivesLease`), and only so (`CloseEntriesOutliveLease`).
* `InMemoryRateLimiter` calls itself a fixed-window limiter. It is a sliding log, with the stronger bound.
  The wait it names rounds up only from a millisecond on: when the remaining time exceeds whole seconds by less,
  the caller returns too early and is refused again (`RetrySufficesIff`, `RetryIsTooShort`).
* For the Redis limiter the bound of two full quotas per window is not attained in half-open windows: the call
  that opens a lifetime ties it down, and the largest number is one less (`FixedWindowBound`, `BoundAttained`).
  The wait it names can be too short, depending on how the server rounds (`WaitSuffices`,
  `NearestSecondIsTooShort`).
* `RunService.get` compares the role only when the run is not cached on the replica (`RoleComparedIff`,
  `OtherRoleReads`).
* An empty idempotency key counts as no key in the service, but as a key in the table's uniqueness
  constraint (`InsertRaises`). It does not reach the service: `create_run`, the only caller of `execute`, answers
  422 for it (services/api/app.py:716-719).
* A success record is overwritten by an early exit of `trigger` whose `now` is exactly that slot's instant
  (`RecordStays`, `SuccessIsOverwritten`).
* The 366-day bound of the cron search fails for expressions whose days lie further apart, such as 29 February
  or a Friday the 13th (`SearchSucceedsIff`, `Friday13Fails`).
* With `max_concurrency` above one, an executor that triggers its own schedule runs a slot inside two triggers
  (`ReentryRunsSlotTwice`).

## Model

| member | source | states |
|---|---|---|
| IsoTime.IsoOrder | packages/attachments/service.py:374-382 | the emitted ISO texts of two UTC instants of years 1 to 9999 are in byte order exactly as the instants are in time order, with zero or six fraction digits on either side |
| IsoTime.EpochText | packages/scheduler/schedule.py:85 | the text of the instant that interval slots are counted from is 1970-01-01T00:00:00+00:00 |
| IsoTime.IsoRoundTrip | packages/attachments/service.py:41-50 | parsing an emitted ISO text gives back its instant |
| IsoTime.RunKeyInjective | packages/scheduler/schedule.py:296 | slot keys of different schedules or different instants differ, colons in schedule ids notwithstanding |
| Cron.ParseField | packages/scheduler/schedule.py:136-158 | the set filled item by item is the union of the stepped ranges, and the field is refused exactly when an item is malformed, outside the limits, reversed or with a step that is not positive |
| Cron.GatheredIsUnion | packages/scheduler/schedule.py:139-155 | a value is in the parsed field iff it is a step of some item's range, and it lies inside the field's limits |
| Cron.FieldValues | packages/scheduler/schedule.py:136-158 | a value is in a parsed field iff it is the n-th step from the lower limit for a star, from the lower end for a range, or the single value itself, within the item's end |
| Cron.CronExpression | packages/scheduler/schedule.py:123-129 | the loop over the five fields yields the specified expression, or refuses at the first bad field |
| Cron.ParsesIff | packages/scheduler/schedule.py:123-158 | an expression is accepted iff it has five fields, none of them empty, and every item has a positive step and lies inside its field's limits |
| Cron.ParsedSets | packages/scheduler/schedule.py:123-129 | the five fields fill the minutes, hours, days, months and weekdays, each with its own limits |
| Cron.ParsedIsWellFormed | packages/scheduler/schedule.py:121-129 | every parsed expression has five non-empty sets, each inside its field's limits |
| Cron.FindMatch | packages/scheduler/schedule.py:93-100 | the minute-by-minute loop returns the result of the bounded search |
| Cron.NextMatchIsLeast | packages/scheduler/schedule.py:96-100 | the search returns the least matching minute at or after its start, and fails iff none of the next 527040 minutes matches |
| Cron.NextMatchConstant | packages/scheduler/schedule.py:93-99 | the result is the same from every start up to the result itself |
| Cron.NextMatchMonotone | packages/scheduler/schedule.py:93-99 | a later start never yields an earlier match |
| Cron.BoundSuffices | packages/scheduler/schedule.py:96-100 | with a full weekday field, the search succeeds from every start minute iff the expression admits a date that exists in every year |
| Cron.SearchFailsAfterLeapDay | packages/scheduler/schedule.py:96-100 | for an expression without such a date the search that starts on 1 March 2025 fails, whatever its weekdays |
| CronCoverage.SearchSucceedsIff | packages/scheduler/schedule.py:96-100 | for any expression the search succeeds from every start minute iff, over one 400-year cycle of the calendar, every 366 days in a row hold a day that its day, month and weekday fields admit |
| CronCoverage.Friday13Fails | packages/scheduler/schedule.py:96-100 | the search for a Friday the 13th fails on 14 August 1999, whatever the other fields |
| Schedule.CronSlotIsNext | packages/scheduler/schedule.py:90-99 | a cron slot is a whole local minute at or after now, less than 366 days away, that matches, with no matching minute in between |
| Schedule.CronSlotFields | packages/scheduler/schedule.py:90-99 | at a cron slot the local clock shows a whole minute whose minute, hour, day, month and weekday (Monday is 0) are each in the parsed set of their field, and every whole minute from now up to it misses at least one of them |
| Schedule.CronSlotConstant | packages/scheduler/schedule.py:90-99 | every time from now up to the cron slot has the same slot |
| Schedule.CronAlwaysDueIff | packages/scheduler/schedule.py:90-100 | a cron schedule is due at every time that leaves 366 days before year 10000, iff its expression meets that condition |
| Schedule.IntervalSlotIsLast | packages/scheduler/schedule.py:82-89 | from 1970 on an interval slot is the last multiple of the interval at or before now |
| Schedule.OneShotDueIff | packages/scheduler/schedule.py:75-81 | with its time given, a one-shot schedule is due at a local time in range iff that time has come, and then the slot is that time |
| Schedule.IntervalDueIff | packages/scheduler/schedule.py:82-89 | an interval schedule is due unless its slot leaves the years of a datetime, which a positive interval from 1970 on never does; the slot is a whole number of intervals from 1970 and less than one interval from now, for negative intervals and before 1970 too |
| Schedule.NotDueIff | packages/scheduler/schedule.py:73-101 | a schedule is not due, as opposed to due or in error, iff it is one-shot and its time lies ahead |
| Schedule.SlotMonotone | packages/scheduler/schedule.py:73-101 | of two due times the later one never has the earlier slot, for every schedule type |
| Schedule.PayloadRoundTrip | services/worker/executor.py:62-111 | a worker with the producer's definition accepts the payload built for a time and reads that time |
| Schedule.AcceptedPayload | services/worker/executor.py:82-111 | an accepted payload is the reviewed definition's, field by field, but for its time |
| Schedule.PayloadsAgreeIff | services/worker/executor.py:62-111 | two definitions accept a common payload iff they agree in id, version, agent, permissions, query, order id and consent, and then they accept the same payloads |
| Schedule.KeysAgree | services/worker/main.py:45-50 | the run key recomputed from the decoded payload is the key the producer marked |
| SchedulerMachine.ActiveCountsFrames | packages/scheduler/schedule.py:303-352 | in every run, re-entrant or not, the counter equals the number of open triggers of the schedule, and the final raise is never reached |
| SchedulerMachine.CancelStopsCalls | packages/scheduler/schedule.py:247-252 | in every run no executor call starts after its key was cancelled |
| SchedulerMachine.SlotRunsOnce | packages/scheduler/schedule.py:260-352 | without re-entry, or with one run at a time, a slot is executed inside one trigger, at most retry limit plus one times, and never again after a success |
| SchedulerMachine.RecordCountsCalls | packages/scheduler/schedule.py:305-345 | a terminal record says succeeded, with the message, iff the executor returned, failed iff it raised in the last allowed attempt, and cancelled otherwise; without re-entry, or with one run at a time, its attempts are all the executor calls its slot ever had |
| SchedulerMachine.NotifiedIff | packages/scheduler/schedule.py:378-409 | the sink gets the record of a run iff there is a sink and a channel and the schedule's condition is met by a failure or a finding; its answer is kept on the record |
| SchedulerMachine.TriggerOpensIff | packages/scheduler/schedule.py:260-303 | in every reachable state a trigger enters its retry loop iff the schedule is registered, not paused, not expired and due, only reads or was approved, its slot has no record and no cancellation, and fewer loops of it are open than it allows; the loop is that slot's, with the trigger's finding |
| SchedulerMachine.RefusalIsRecorded | packages/scheduler/schedule.py:271-298 | a trigger that is not permitted leaves one record without attempts under its own time, with the first reason that applies: paused, blocked, expired, not due; and nothing where the slot computation raises |
| SchedulerMachine.CallsArePermitted | packages/scheduler/schedule.py:260-310 | in every run, re-entrant or not, every executor call goes back to a trigger of that run for a schedule that was then registered, not paused, before its expiry and due in that slot, and which only reads or was approved |
| SchedulerMachine.CancelLasts | packages/scheduler/schedule.py:247-252 | after the cancellation of an admissible key no run ever calls the executor for it again |
| SchedulerMachine.PauseStops | packages/scheduler/schedule.py:239-245 | a pause makes every trigger of its schedule, and of no other, impermissible, and a resume undoes it |
| SchedulerMachine.RegisteredIff | packages/scheduler/schedule.py:220-237 | which definitions a registration takes: the same version, a positive concurrency, no negative retries, a known notification condition, a channel of 1 to 64 characters that is not blank, a cron expression that parses |
| SchedulerMachine.RecordStays | packages/scheduler/schedule.py:271-298 | without re-entry a record never changes except by an early exit whose now is the slot's instant, and then it becomes that exit's record |
| SchedulerMachine.ReentryRunsSlotTwice | packages/scheduler/schedule.py:299-303 | for every limit above one run at a time, a re-entrant executor has a slot executed inside two triggers |
| SchedulerMachine.SuccessIsOverwritten | packages/scheduler/schedule.py:271-276 | a reachable success record that a pause and a trigger at the slot's instant overwrite |
| SchedulerFacade.FinishedReachable | packages/scheduler/schedule.py:303-352 | running an open trigger's loop to its end is a run of the machine and closes the trigger |
| SchedulerFacade.Scheduler.RetryLoop | packages/scheduler/schedule.py:304-352 | the loop, with cancellations during executor calls, ends in the machine's state for that environment and returns the slot's record |
| SchedulerFacade.Scheduler.Trigger | packages/scheduler/schedule.py:260-352 | a trigger keeps the object a reachable state of the machine and returns the record of the key it decided on; one that is not permitted calls no executor and answers with no attempts |
| SchedulerFacade.Scheduler.Register | packages/scheduler/schedule.py:220-237 | a registration is accepted iff the definition is valid and does not change a registered version |
| SchedulerFacade.Scheduler.Cancel | packages/scheduler/schedule.py:247-252 | a cancellation marks exactly the keys that pass its check |
| SchedulerFacade.Scheduler.Notify | packages/scheduler/schedule.py:378-409 | the sink's success or error is recorded on the record just made, and nothing else changes |
| Pipeline.OneUnexpiredClaim | packages/scheduler/queue.py:182-214 | in every interleaving at most one unexpired, uncompleted claim exists per run key |
| Pipeline.LaterClaimWaits | packages/scheduler/queue.py:182-244 | the next claim of a key comes after the completion's retention, or after the lease of a claim that was not completed |
| Pipeline.EntriesOnePerWindow | services/worker/main.py:51-62 | if all claimers complete before their leases lapse, two claims under which a slot's executor was entered are a retention window apart |
| Pipeline.CloseEntriesOutliveLease | services/worker/main.py:51-62 | in every run, two claims of a key enter the executor less than a retention window apart only if the earlier one was never completed and its lease had run out when the later one was granted |
| Pipeline.ExecutorOutlivesLease | packages/scheduler/queue.py:182-214 | for every due slot that the trigger does not leave early, two workers are inside the executor for one slot and one job as soon as lease and redelivery timeout have passed |
| Pipeline.ClaimHistoryStands | services/worker/main.py:61-62 | under one claim the executor is entered once, and a completion is final |
| Pipeline.EntriesArePermitted | services/worker/main.py:42-61 | in every run an executor is entered only for an accepted job, whose slot is due at its queued time and has the claimed key, and only under a definition that reads and had not expired at that time |
| Pipeline.ClaimedIff | packages/scheduler/queue.py:182-214 | a job is claimed iff neither GET nor SET NX finds a value under its key, with a new token; a value found by GET is acknowledged |
| Pipeline.OwnerEntersIff | services/worker/main.py:61 | a claimed slot's executor is entered iff the definition reads and has not expired at the job's time and the process has no record of the slot, and a restarted process has none |
| Pipeline.LeaseCoversRuntime | services/worker/main.py:51-54 | a claim's lease is the allowed runtime and 30 seconds, but at least a minute and at most a day |
| Pipeline.RedeliveredAfterTimeout | packages/scheduler/queue.py:254-267 | a pending job is handed out again only after the redelivery timeout |
| Pipeline.OnlyOwnerReplaces | packages/scheduler/queue.py:216-244 | a live run key changes only when the worker that holds its unexpired lease completes it, and then into the completion marker |
| Pipeline.CompletionSucceedsIff | packages/scheduler/queue.py:232-244 | a completion succeeds iff the trigger recorded under the claimed key and the lease has not lapsed; otherwise the worker takes the error path and no value changes |
| Pipeline.AckJustified | services/worker/main.py:47-63 | every acknowledgement follows the worker's own completion, a look at the key while it held a claim that still barred others or after that claim's value had gone, or a slot that is not due |
| Leasing.KeyOfIff | services/worker/main.py:44-51 | a worker goes on with a key iff the payload is accepted, the slot due at its time and the key within 256 characters, and without one iff a one-shot schedule's time lies ahead |
| Pipeline.OccupiedIsCompletedIff | services/worker/main.py:55-58 | a key found occupied belongs to a completed slot iff it holds the completion marker; otherwise to exactly one open claim |
| Pipeline.AckedCompletedIff | services/worker/main.py:51-63 | at every acknowledgement of a due job the slot's completion was retained when the worker looked, iff the worker completed the claim itself or read the completion marker |
| Pipeline.DeliveredJobFate | services/worker/main.py:42-73 | in every run a delivered job is pending iff nobody has acknowledged it; an acknowledgement found the slot not due, or found it completed, exactly if its reason says so |
| Pipeline.InProgressReadLosesJob | packages/scheduler/queue.py:201-212 | in every reachable state, every read that counts as in progress has a continuation in which the job is gone, no completion is retained and nobody works on it |
| Pipeline.GoneStays | services/worker/main.py:55-58 | a job that is neither pending nor in a worker's hands is never handed out again |
| Pipeline.JobCanBeLost | services/worker/main.py:55-58 | for every schedule, due time and redelivery timeout there is a run in which a job is acknowledged and gone although its executor was never entered |
| Pipeline.OneEntryPerMarking | packages/scheduler/queue.py:140-149 | in every interleaving each marking adds at most one stream entry |
| Pipeline.EntryHasMarkedKey | services/scheduler/main.py:19-31 | a worker with the producer's definition claims a stream entry under the key its marker had |
| Pipeline.EntriesLifetimesApart | packages/scheduler/queue.py:125-153 | in every run, two entries of a slot come from different markings, and marking and entry of the later one follow the lifetime in which the earlier one's entry went in, exactly unless one of the entries went in after its own lifetime or a DEL removed the earlier marker and let the later in; the DEL is its own producer's or that of an earlier producer whose marking was over; with producers that act in time only the own DEL is left |
| Pipeline.PollSkippedIff | packages/scheduler/queue.py:140-149 | in every reachable state a poll of a due slot has no effect iff some marking of the slot is neither expired nor dropped by a DEL; otherwise it marks the slot anew |
| Pipeline.UnguardedSlotRepeats | packages/scheduler/queue.py:140-149 | in every reachable state without such a marking, any resting producer adds another entry of the slot at once |
| Pipeline.LostReplyDuplicates | packages/scheduler/queue.py:145-149 | an append that took effect but lost its reply has one timely producer queue the slot twice in the same millisecond |
| Pipeline.StalledProducerDuplicates | packages/scheduler/queue.py:140-149 | a producer that stalls for a marker lifetime appends in the same millisecond as another producer that has renewed the marker, with no DEL at all |
| Pipeline.LateFreeDuplicates | packages/scheduler/queue.py:145-149 | a producer that frees its marker a lifetime late has another producer, none of whose commands failed, queue the slot twice in the same millisecond |
| Worker.Cluster.ConsumeJob | services/worker/main.py:34-73 | amid arbitrary steps of all other processes, and with each command answering, failing, or losing its reply, consuming a job is a run of the machine that ends in its acknowledgement, or raises: because a command did, exactly when validation or key computation refuses the job, or exactly when the trigger left early or the lease had lapsed before the completion |
| Worker.Cluster.EnqueueDue | services/scheduler/main.py:19-31 | amid arbitrary steps of all other processes, a poll takes exactly the producer steps that its slot's key and the fates of SET NX, XADD and DEL call for; it reports a job iff the slot is due and unmarked and both SET NX and XADD answer, reports none iff the slot is not due or SET NX answers that it is marked, and raises otherwise; its payload is queued also when XADD's reply is lost |
| Worker.PollKeyIff | services/scheduler/main.py:19-27 | a poll has a key iff its slot is due and the key within 256 characters, and nothing to do iff a one-shot schedule's time lies ahead; everything else raises |
| Worker.EnterAgreesWithTrigger | services/worker/main.py:61 | the worker step enters the executor, and otherwise records, exactly as the scheduler object's trigger would |
| Worker.OthersKeep | services/worker/main.py:34-63 | what other processes do never moves a worker or producer, nor takes back an acknowledgement or entry |
| Runs.ReplicasAgree | services/api/app.py:116-166 | for one identity and non-empty key every answer on every replica is the same, however many runtimes raced, and is a stored run of that very identity and key |
| Runs.AnswersApart | services/api/app.py:116-166 | no run ever answers for two identities or two keys |
| Runs.CachesMatchRows | services/api/app.py:133-142 | every cached idempotency entry leads to a cached run equal to the table's row |
| Runs.FirstRowStays | packages/persistence/postgres.py:223-262 | the row of an identity and key never changes once it is there |
| Runs.ReadIsScoped | services/api/app.py:168-180 | a read returns only a stored run of that id in the caller's workspace, tenant and user, and finds every run of the caller's whole identity |
| Runs.RoleComparedIff | services/api/app.py:168-180 | a caller in a run's scope reads it iff the caller's role is the run's, or the replica has the run cached |
| Runs.OtherRoleReads | services/api/app.py:168-180 | for any two roles in one scope, the replica that ran a request serves its run to the other role, and every other replica refuses it |
| RunService.RunService.Execute | services/api/app.py:116-166 | with other replicas writing between its store calls, a keyed request is answered from the table's row of its key, which is then cached, an unkeyed one from a new row, and only an empty key that some row has raises, as surely as that row was there before the call |
| RunService.InsertRaises | packages/persistence/postgres.py:223-262 | with a new run id the insert raises iff the key is empty and the identity has a row with an empty key |
| RunService.RunTable.Insert | packages/persistence/postgres.py:223-262 | an insert adds the row, leaves the first one of its key, or raises, and keeps the table's rules |
| Approvals.ServeAlike | packages/agent_runtime/approvals.py:396-543 | one service call gets the same answer from the two-dictionary and the single-row store and keeps the two alike |
| Approvals.HistoriesAlike | packages/agent_runtime/approvals.py:127-383 | every sequential history of service calls is answered alike by both representations, listings as sets |
| Approvals.RacingRequestsDiffer | packages/persistence/postgres.py:345-379 | past the service's lookup a second request with the same key is kept in memory and refused by SQL |
| ApprovalProtocol.DecidedStays | packages/agent_runtime/approvals.py:180-206 | with service reads and store decisions interleaved, an approval that left pending never changes again, and its request never does |
| ApprovalProtocol.ApproversDecide | packages/agent_runtime/approvals.py:458-497 | in every interleaving an approved or rejected approval was decided by a call that an admin or manager of its workspace and tenant began, who is its approver |
| ApprovalProtocol.HashIffApproved | packages/agent_runtime/approvals.py:458-497 | an approval holds a token hash iff it is approved |
| ApprovalProtocol.OneTokenPerApproval | packages/agent_runtime/approvals.py:458-477 | at most one approve call has its token stored, whether or not it returns it, and its expiry check read a time before the expiry |
| ApprovalProtocol.OnlyGrantedTokensVerify | packages/agent_runtime/approvals.py:499-515 | verification accepts no token but the one that the approve call drew for that approval, with its tool and arguments |
| ApprovalProtocol.GrantedTokenVerifies | packages/agent_runtime/approvals.py:499-515 | the token of an approve call verifies for everyone in the approval's workspace and tenant, with its tool and arguments |
| ApprovalRuns.HistoryIsRun | packages/agent_runtime/approvals.py:390-555 | every sequential history of service calls is a run of the decision protocol, with the same store and the same tokens granted |
| ApprovalRuns.HistoryGrantsOnce | packages/agent_runtime/approvals.py:458-477 | in every history over the in-memory store at most one approve call of an approval answers with a token |
| ApprovalRuns.HistoryVerifiesGranted | packages/agent_runtime/approvals.py:499-515 | after every history over the in-memory store, verify answers true only for a token with which an approve call of that history answered |
| ApprovalRules.OnlyApproversDecide | packages/agent_runtime/approvals.py:458-497 | after every history each approved or rejected record was decided by a call of that history, made by an admin or manager of the record's workspace and tenant, who is its approver |
| ApprovalRules.OtherRolesAreRefused | packages/agent_runtime/approvals.py:458-483 | an approve or reject by any other role answers with an error and leaves the store as it was |
| ApprovalRules.DecisionGoesThroughIff | packages/agent_runtime/approvals.py:458-497 | an approve or reject goes through iff an approver with a complete identity sees a pending record of that id before its expiry, and it changes nothing else of the record |
| ApprovalRules.VerifiesIff | packages/agent_runtime/approvals.py:499-515 | a token verifies iff the caller sees an approved record for that tool and those arguments whose stored hash is the token's |
| ApprovalRules.OnlySoundRequestsAreKept | packages/agent_runtime/approvals.py:396-439 | after every history each record is a request of a complete identity for a tool that does more than read, with bounded fields and a life of a minute to a day, and no user's key is there twice |
| ApprovalRules.SoundRequestsAreKept | packages/agent_runtime/approvals.py:396-439 | every such request with a new id and key is stored as it was made |
| ApprovalRules.AnswersAreInScope | packages/agent_runtime/approvals.py:441-522 | no call answers with a record of another workspace or tenant; a listing is complete, and the count is that of the pending records before their expiry |
| ApprovalService.InMemoryApprovalStore.Decide | packages/agent_runtime/approvals.py:180-206 | the dictionary update is the specified compare-and-set, and leaves the order of the records |
| ApprovalService.InMemoryApprovalStore.List | packages/agent_runtime/approvals.py:149-159 | the records in scope with the status, in insertion order, which as a set is the listing of the SQL stores |
| ApprovalService.InMemoryApprovalStore.FindIdempotent | packages/agent_runtime/approvals.py:161-178 | the first record of the requester with the key, or none |
| ApprovalService.ApprovalService.Approve | packages/agent_runtime/approvals.py:458-477 | an approve call answers, expires and decides as specified, and extends the history that the store is that of |
| ApprovalService.ApprovalService.Verify | packages/agent_runtime/approvals.py:499-515 | a verify call answers, raises for oversized arguments, and expires a pending record, as specified, and extends the history |
| Limits.InMemoryRateLimiter.Check | packages/agent_runtime/limits.py:28-39 | after popping, the queue is exactly the granted calls still inside the window, and a call is granted iff they are fewer than the quota; other keys are untouched |
| Limits.GrantedIff | packages/agent_runtime/limits.py:28-39 | a call is let through iff fewer than the quota were let through in the half-open window that ends with it |
| Limits.WindowBound | packages/agent_runtime/limits.py:28-39 | for every sequence of calls, the grant a quota later comes at least a window later |
| Limits.IntervalBound | packages/agent_runtime/limits.py:28-39 | no half-open interval of a window's length holds more grants than the quota |
| Limits.RetrySufficesIff | packages/agent_runtime/limits.py:28-39 | after a refusal the wait lies within the window, and a caller that returns whole seconds later is let through iff it waited longer, or exactly that long while the remaining time does not exceed whole seconds by less than a millisecond |
| Limits.RetryIsLeast | packages/agent_runtime/limits.py:35-37 | with clock readings of whole milliseconds, a caller that returns whole seconds later is let through iff it waited at least the named time |
| Limits.RetryIsTooShort | packages/agent_runtime/limits.py:35-37 | for every quota and every window above one second, a caller that is refused one second and half a millisecond before the window ends is told to wait one second, and is refused again then |
| RedisLimits.RedisRateLimiter.Check | packages/agent_runtime/limits.py:67-82 | a call is let through iff the script ran, answered and counted within the quota; everything else is refused; a lost reply still counts |
| RedisLimits.FixedWindowBound | packages/agent_runtime/limits.py:50-55 | no half-open interval of a window's length holds more than twice the quota less one grants, with calls lost or unanswered at will |
| RedisLimits.LifetimeBound | packages/agent_runtime/limits.py:50-55 | no lifetime of a key ever sees more grants than the quota |
| RedisLimits.BoundAttained | packages/agent_runtime/limits.py:50-55 | for every quota and window a run attains twice the quota less one, and twice the quota in the closed interval |
| RedisLimits.WaitSuffices | packages/agent_runtime/limits.py:78-80 | the named wait lies within the window, and suffices iff the server's rounding did not cut the key's remaining life short |
| RedisLimits.NearestSecondIsTooShort | packages/agent_runtime/limits.py:52-54 | for every quota and every window above one second, a server that rounds to the nearest second has a refused caller come back too early |
| Scanner.Scan | packages/attachments/service.py:139-161 | what is sent decodes to exactly the data, and the upload passes iff the reply confirms it |
| Scanner.FramingRoundTrip | packages/attachments/service.py:146-150 | decoding the length-prefixed chunks up to the empty one gives back every byte sequence, whatever follows on the stream |
| Scanner.ChunkBounds | packages/attachments/service.py:146-149 | no chunk is empty or overflows its four bytes, and there are as few as fit |
| Attachments.ListingsAgree | packages/attachments/service.py:245-251 | the SQLite text comparison and the in-memory datetime comparison select the same records for every cutoff |
| Attachments.AcceptableIff | packages/attachments/service.py:437-500 | an upload is acceptable iff its identity and file name are well-formed, its content has an admitted size, and its image one of four formats, declared as such, with an admitted number of pixels |
| Attachments.AttachmentService.Upload | packages/attachments/service.py:463-533 | a failed upload leaves no metadata, and a blob only when the metadata store and the clean-up both failed; a successful one adds the whole record and its bytes; which error is raised when |
| Attachments.AttachmentService.Read | packages/attachments/service.py:559-569 | a read returns the recorded bytes unless the record is torn or the store fails; the integrity check never fails |
| Attachments.AttachmentService.Delete | packages/attachments/service.py:571-585 | a delete removes both, or neither, or tears the record when only deleting the metadata failed, with the error for each case |
| Attachments.AttachmentService.ListBefore | packages/attachments/service.py:245-251 | exactly the expired records, each once, for either store |
| Attachments.AttachmentService.PurgeExpired | packages/attachments/service.py:587-609 | a purge removes expired records only, all of them iff nothing fails, and otherwise stops at one that fails, tearing it when only its metadata could not be deleted |
| Attachments.PurgeIsExact | packages/attachments/service.py:594-609 | a fault-free purge leaves exactly the other records with their content and no content of an expired one, and keeps the stores consistent |
| Attachments.PurgeIsByAge | packages/attachments/service.py:594-609 | a record survives a fault-free purge iff it was made at the cutoff or later |
| RunTrace.TraceAccepted | packages/agent_runtime/runtime.py:74-366 | for every request and environment the trace follows the grammar to the end that carries the answer's status, or breaks off inside the call whose exception passes through |
| Policy.DecisionsOnlyWiden | packages/agent_runtime/policy.py:29-68 | registering more tools or listing more for roles never changes an allowance or a request for approval, and a token never helps a caller who is denied without one |
| RunTrace.RunIsSound | packages/agent_runtime/runtime.py:74-366 | one last end event with the answer's status; the tool called at most once, right after an allow decision; the model at most once, with consent, right after a verified result; success of either kind only on a proven reply |
| RunTrace.CalledIff | packages/agent_runtime/runtime.py:74-135 | the tool is called iff the request has a query and an order id and the caller names itself and has a role that lists the tool, which is registered and only reads; and with the trimmed order id |
| RunTrace.SuccessIff | packages/agent_runtime/runtime.py:136-340 | an allowed run succeeds, in whole or part, iff the reply's workspace, tenant, external reference, returned order id and any returned tenant are the request's and its source, time and bounded status are given; such a reply is never refused; the success is whole unless a consented model did not explain |
| RunTrace.OneReplyOneOrder | packages/agent_runtime/runtime.py:147-161 | one reply of the gateway never makes runs succeed for two order ids, workspaces or tenants |
| RunTrace.EndsOnce | packages/agent_runtime/runtime.py:341-366 | a finished word of the grammar has one end event, its last |
| RunTrace.CallsJustified | packages/agent_runtime/runtime.py:124-163 | in every word a tool call directly follows an allow decision, and a model call a verified result |
| RunTrace.SuccessVerified | packages/agent_runtime/runtime.py:232-366 | a word that ends in success holds a verified result, and it ends in partial success iff the model failed |
| RunTrace.EveryTraceOccurs | packages/agent_runtime/runtime.py:74-366 | every finished word of the grammar, with a trimmed order id, is the trace of some run |
| AgentRuntime.Agent.Run | packages/agent_runtime/runtime.py:74-366 | the log grows by exactly the audit events of the trace under one new run id; the answer is the verified sentence with what became of the model, or the refusal that applies and no tool data; and its status rests on the caller's rights and on a reply that is about the order asked for |
| AgentRuntime.MessageTellsStatus | packages/agent_runtime/runtime.py:232-235 | of one order, observed at one time, the sentences for two statuses differ |
| AgentRuntime.AnswersHide | packages/agent_runtime/runtime.py:74-366 | a blocked answer depends on nothing outside, a failed one only on whether the gateway reports success, and one without a consented, usable explanation on nothing the model said |
| AgentRuntime.Agent.Explain | packages/agent_runtime/runtime.py:237-340 | without a model or consent none is called; a model error or an invalid completion makes the success partial; the span is exported before a failure event and after a completion event |
| ScheduledRuns.AgentScheduleExecutor.Execute | services/worker/executor.py:121-134 | an attempt returns the run's message iff its schedule is complete and its run ends in full success, and logs under the slot's trace id |
| ScheduledRuns.AttemptIsReviewed | services/worker/executor.py:51-134 | an attempt calls the tool iff the schedule is complete and for this agent and the worker's identity is entitled, for the schedule's order; it asks a model only with the schedule's consent and succeeds only on a proven reply |
| ScheduledRuns.ScheduledAgent.RetryLoop | packages/scheduler/schedule.py:304-352 | the loop over real executor calls ends in the machine's state, and however it ends, the audit log has grown by exactly the traces of the attempts that the record counts, under the slot's trace id |
| ScheduledRuns.ScheduledAgent.Trigger | packages/scheduler/schedule.py:260-352 | a trigger that answers by itself leaves no audit event, one that enters its loop leaves those of its attempts, and only a permitted one enters |
| ScheduledRuns.AttemptsApart | services/worker/executor.py:121-134 | in that log the n-th attempt's trace, and nothing else, stands under the n-th run id |
| ScheduledRuns.RecordTellsAttempts | packages/scheduler/schedule.py:304-345 | a record's status and attempts tell which of the executor's attempts failed and whether the last one succeeded |
| ScheduledRuns.SucceededRunTraces | services/worker/executor.py:121-134 | of the attempts of a run recorded as succeeded each left a trace that follows the grammar or breaks off in a foreign call, and only the last ends in success |

## Left out

- RedisLimits.FixedWindowBound: states the largest number that is attained, one below two full quotas.
- Limits.InMemoryRateLimiter.Check: assumes clock readings in call order, although the code reads the clock before it takes the lock.
- Schedule.CronSlotIsNext: uses a fixed offset; with daylight-saving folds the wall-clock search is not monotone.
- Executors that never return, exceptions outside `Exception`, and the started and finished times of scheduler records.
- Rounding in float arithmetic, of `total_seconds` and in the in-memory limiter: clock readings are whole nanoseconds and sums are exact here.
- Cron field text: parsing starts from tokens, so `int` on a field's text is not modelled.
- JSON and `datetime.fromisoformat` beyond the emitted forms, and Unicode: strings are ASCII where lengths or order matter.
- SHA-256, UUIDs and random tokens: injective digests and new values.
- Redis, PostgreSQL and SQLite internals: atomic commands on maps, rows and streams, with expiry; stream trimming and consumer-group creation do nothing here.
- The in-memory job queue, which has no leases, and the `main` loops around one poll or one job.
- Concurrent attachment operations on one record, the local-path variant of reading content, and listings and metadata reads by the owner.
- S3 and filesystem adapters: one blob map. A failed operation of the blob or metadata store has no effect; one that takes effect and then raises is not modelled there.
- A notification sink that calls back into the scheduler: the early-exit record of such a call would be overwritten by the notified one (packages/scheduler/schedule.py:401-409).
- `RunService` without a store, which caches in memory alone.
- Command retries inside the Redis and database client libraries.
- Cron.BoundSuffices: ranges over all start minutes of an unbounded calendar; Schedule.CronAlwaysDueIff states the years that a `datetime` holds.
- A failing audit store: appending an event always succeeds.
- HTTP routes, the CLI, configuration, manifest validation, metrics and the plugin registry: input, output or long shallow checks without an invariant across operations.
