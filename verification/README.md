# fast-scheduler: a Dafny model of the race-style batch scheduler

`fastscheduler` runs batches of tasks on a bounded goroutine pool. A batch races
its tasks: the first task that reports success (HTTP code 200 and business code 0)
sets the batch's flag with a compare-and-swap and cancels the batch's context, so
its siblings can stop early.

This project models the deterministic core of `taskscheduler.go` in Dafny:

- `outcomes.dfy` (module `Outcomes`): `TaskResult` and how `executeTask`
  normalises `(result, err)`. With a non-nil error, the error is attached, an unset
  HTTP code becomes 500 and an unset business code becomes 1. The file also holds
  the single success predicate.
- `groups.dfy` (module `Groups`): the per-batch `taskGroup`. It has a write-once
  success flag set by CAS, a cancellation that only the CAS winner triggers, and
  the WaitGroup counter that `Batch.Wait` blocks on.
- `scheduler.dfy` (module `Scheduling`): the `Scheduler` as a sequential state
  machine. Each goroutine step is an `Event`:
  - a `SubmitBatch` call starting;
  - one send of its loop into the buffered `taskQueue`;
  - the dispatch loop receiving a task;
  - for an unbuffered queue, a direct hand-off from a blocked submitter;
  - the dispatch loop obtaining a `workerPool` slot and launching;
  - an execution finishing.

  `Run` plays any sequence of events and skips those that would block. This
  covers every interleaving the channels allow. `Valid` is the invariant of
  every reachable state.
- `scheduler_proofs.dfy` (module `SchedulerProofs`):
  - proofs that every event preserves `Valid`;
  - the properties the scheduler promises, for every state reachable from
    `NewScheduler`.
- `wrappers.dfy`: `Option` and `Result`.

The model's inputs:

- Task bodies are not values. The `(TaskResult, error)` that `Execute` returns is
  a parameter of the `Complete` event, so every body that returns is covered.
  Bodies that panic are not (see Left out).
- A Go `error` is reduced to its message. The `Data` payload is opaque.
- A task's `ResultChan` is reduced to "has a sink". Writes to it are recorded in
  the `delivered` log.
- The batch context is reduced to a `cancelled` flag plus a count of cancel calls.

Behaviour of the code that the model makes explicit:

- **Errors.** `executeTask` attaches a non-nil error even when the task set an
  explicit `Err` in its result. It only defaults the codes the task left at zero.
- **Channel sizes.** `make(chan, n)` panics with "makechan: size out of range" on
  a negative size, or when the buffer does not fit under the runtime's allocation
  ceiling. `NewScheduler` returns a failure in exactly those cases, and otherwise
  does not panic. Whether the buffer can then actually be mapped is a separate
  matter (see Left out). `taskQueue` holds 8-byte pointers, so on linux/amd64 the
  size check fails from about 2^45 cells up.
  `workerPool` holds zero-sized `struct{}` values, so only its sign matters.
- **Batch sizes.** `group.wg.Add(len(tasks))` works on a 32-bit counter. A batch
  whose size modulo 2^32 is 2^31 or more makes it panic. `NewGroup` returns `None`
  in that case, and a submission is enabled only for batches that fit.
- **`poolSize` 0.** The dispatch loop receives one task and then blocks forever on
  the worker pool. In the model, `Launch` is never enabled.
- **`queueSize` 0.** This is a rendezvous: the `HandOff` event.
- **Stop does not drain.** `Stop` does not drain queued tasks. The loop just
  returns (`taskscheduler.go:82-83`). The model claims no drain semantics.
- **`Scheduler.Wait`.** It waits on a WaitGroup that also counts the dispatch loop
  itself. See Findings.

## Model

| member | source | states |
|---|---|---|
| Outcomes.DefaultCode | taskscheduler.go:105-110 | a code the task left at zero gets the failure default; an explicitly set code is kept; the result is never zero |
| Outcomes.Normalize | taskscheduler.go:97-111 | nil error: the result passes through unchanged; non-nil error: that error is attached, zero codes become 500 / 1, non-zero codes and the payload are preserved |
| Outcomes.ErrorNeverSucceeds | taskscheduler.go:102-114 | a task whose body returns a non-nil error never satisfies the success predicate |
| Outcomes.NormalizeIdempotent | taskscheduler.go:102-111 | defaults are applied at most once: normalising twice equals normalising once |
| Outcomes.NormalizeChangesOnlyOnError | taskscheduler.go:100-111 | normalisation changes a result iff an error is reported and the result does not already carry it with two non-zero codes |
| Outcomes.PlainErrorOutcome | taskscheduler_test.go:143-183 | a zero result with a plain error becomes 500 / 1 carrying the original error |
| Outcomes.SuccessNeedsBothCodes | taskscheduler.go:114 | success iff HTTP code 200 and business code 0; (200, 1) and (500, 0) are failures, regardless of the error field and payload |
| Outcomes.IsSuccess | taskscheduler.go:114 | the single success predicate: HTTP code 200 and business code 0 |
| Groups.NewGroup | taskscheduler.go:129-141 | a fresh group is not succeeded and not cancelled; `wg.Add` panics iff the task count modulo 2^32 is 2^31 or more, and otherwise the counter is that count modulo 2^32, i.e. the number of tasks for any batch below 2^31 |
| Groups.SetFlag | taskscheduler.go:115 | compare-and-swap from false to true: the flag ends true and the caller wins iff it was false |
| Groups.Settle | taskscheduler.go:91-118 | one finished execution decrements the counter exactly once; the flag becomes set iff it was set or the result succeeds; once set, the flag and the cancellation never change again; cancel is called at most once more; the cancel/flag agreement is preserved |
| Groups.SettleAllEffect | taskscheduler.go:91-118 | settling a sequence of results lowers the counter by its length and sets the flag iff it was set or some result succeeded |
| Groups.BatchResolves | taskscheduler.go:113-141 | after all of a batch's tasks finish, the counter is zero, the flag holds iff some result succeeded, and cancel was called exactly once if so and never otherwise |
| Groups.CompletionOrderIrrelevant | taskscheduler.go:113-118 | the finished group depends only on the multiset of results, not on the order executions finished in |
| Scheduling.NewScheduler | taskscheduler.go:58-68 | fails (panics) iff a size is negative or the `taskQueue` buffer exceeds the allocation ceiling; a `taskQueue` of more than 2^45 - 12 cells fails, and for every pair of sizes from 0 to that bound the call does not panic; otherwise an empty valid scheduler with the given capacities |
| Scheduling.Enabled | taskscheduler.go:71-146 | which goroutine steps can happen without blocking: a send needs room in the queue (or, unbuffered, a waiting receiver), a launch needs a free worker slot, a submission needs a batch that fits the counter |
| Scheduling.Step | taskscheduler.go:71-146 | one goroutine step: capacities never change; only a submission adds a batch; no event changes a batch's tasks; a worker slot is taken only by a launch and released by every completion, and both WaitGroups move with the slots; a send grows the sent log by one, a receive the received log |
| Scheduling.Run | taskscheduler.go:71-146 | any interleaving keeps the capacities and never removes a batch |
| Scheduling.BatchWaitReturns | taskscheduler.go:165-167 | `Batch.Wait` returns when its group's counter is zero |
| Scheduling.BatchIsSuccess | taskscheduler.go:170-172 | `Batch.IsSuccess` reads the group's flag |
| SchedulerProofs.UnfinishedZero | taskscheduler.go:165-167 | the number of unfinished tasks in a status list is zero iff every task in it is done |
| SchedulerProofs.StepPreservesValid | taskscheduler.go:71-146 | every event — submit, enqueue, receive, hand-off, launch, completion — preserves the scheduler invariant |
| SchedulerProofs.RunPreservesValid | taskscheduler.go:71-146 | any interleaving of events preserves the invariant |
| SchedulerProofs.ReachableIsValid | taskscheduler.go:58-146 | every state reachable from a new scheduler is valid and keeps its capacities |
| SchedulerProofs.CapacityRespected | taskscheduler.go:60-61 | the queue never holds more than `queueSize` tasks and at most `poolSize` executions run at once |
| SchedulerProofs.QueueIsFifo | taskscheduler.go:75-81 | what was received followed by what is still queued is exactly what was sent, in order; a batch's tasks are sent in list order |
| SchedulerProofs.BatchResolution | taskscheduler.go:141-172 | a batch's counter never goes negative; `Batch.Wait` returns iff every task of the batch has finished; once it returns, `Batch.IsSuccess` holds iff some task's normalised result satisfied the predicate, and cancel was called exactly once iff so |
| SchedulerProofs.ResultDeliveredOnce | taskscheduler.go:121-124 | a finished task with a result channel received exactly one result, its own normalised result; an unfinished one received none |
| SchedulerProofs.StepNeverReverts | taskscheduler.go:115-118 | no event reverts a success flag or a cancellation, calls cancel a second time, raises a counter, or changes a batch's tasks |
| SchedulerProofs.FlagsNeverRevert | taskscheduler.go:115-118 | over any interleaving, a batch's flag and cancellation only go from false to true and its counter never rises |
| SchedulerProofs.FinishedBatchFullySent | taskscheduler.go:141-167 | when a batch's counter is zero, every one of its tasks has been sent and has finished |
| SchedulerProofs.StepKeepsFinishedBatch | taskscheduler.go:71-146 | once a batch's counter is zero, no event changes that batch: none of its tasks can be sent again, and receive, launch and completion act only on queued, held or running tasks |
| SchedulerProofs.StableAfterWait | taskscheduler.go:165-172 | once `Batch.Wait` would return, the batch stays exactly as it is over any later interleaving, so what `Batch.IsSuccess` reads then is final |
| SchedulerProofs.SubmitCreatesFreshGroup | taskscheduler.go:128-141 | submitting adds one batch with a fresh, unset, uncancelled group counting its tasks, and leaves earlier batches unchanged |
| SchedulerProofs.CompleteTouchesOnlyItsBatch | taskscheduler.go:90-125 | completing a task settles only its own group with its normalised result; every other batch, including its flag and cancellation, is unchanged |
| SchedulerProofs.ErrorCompletionNeverWins | taskscheduler.go:100-118 | an execution whose body returns an error neither sets its group's flag nor cancels it, but still decrements the counter |
| SchedulerProofs.CompletionNeverBlocked | taskscheduler.go:91-95 | in every valid state each running execution can finish without driving its group's counter negative |
| SchedulerProofs.WaitNeverReturnsAsWritten | taskscheduler.go:72-74 | as written, `Scheduler.Wait` never returns while the dispatch loop runs, even with no task submitted |
| SchedulerProofs.WaitReturnsWhenExecutionsFinish | taskscheduler.go:151-154 | with a counter of launched executions only, `Scheduler.Wait` returns iff no launched task is still executing; tasks still queued, held or unsent are not waited for |

## Left out

- Goroutines, blocking and `select` fairness are not modelled as concurrency. Each
  blocking channel operation is an event that is enabled only when it would not
  block. `Run` skips disabled events.
- The steps of one `executeTask` happen in one atomic `Complete` event: the CAS and
  cancel, the result delivery, the slot release and both `Done` calls. Intermediate
  states are not modelled, such as a flag already set while that task's `Done` is
  still pending. Neither are partial goroutine states inside `SubmitBatch`, such as
  the group created but `wg.Add` not yet called.
- `Stop`: it is channel closing, and a second call panics (double `close`). The
  model has no stop event, so its dispatch loop never exits. `Stop` does not drain
  queued tasks, and the model does not claim that it does.
- The blocking behaviour of `Batch.Wait` and `Scheduler.Wait` is not modelled.
  Only the counters they wait on are: `outstanding`, and `wg` / `taskWg`.
- What a task body does when it observes cancellation is user code. The body's
  answer is any `(result, err)` chosen by the `Complete` event.
- Whether a write to a `ResultChan` blocks is not modelled. That channel belongs to
  the caller. The model only records that exactly one result is written per task
  that has one.
- `Data` is carried as an opaque value. `Err` keeps only its presence and its
  message: two distinct Go errors with the same message are equal in the model.
  Nothing in the scheduler compares errors.
- Submitting the same `*Task` pointer twice is not modelled. In Go, `SubmitBatch`
  overwrites `task.group`, so a task still queued from an earlier batch would
  report to the later batch's group. The model names each submitted task by its
  batch and position, so it has no such aliasing.
- `example/main.go` and the timing assertions of the tests are not modelled.
- Task bodies that panic, and tasks whose `Execute` is nil, are not modelled. The
  deferred slot release and both `Done` calls run (`taskscheduler.go:90-95`), but
  the panic is not recovered, so it ends the whole process.
- A nil `*Task` in a batch is not modelled. `SubmitBatch` panics at
  `taskscheduler.go:143`, after `wg.Add` and after the earlier tasks were sent, so
  that group's counter can never reach zero.
- Groups.NewGroup: every count of 2^32 or more whose residue modulo 2^32 is below
  2^31 wraps silently to that residue, as the code does: 2^32 + 5 tasks give a
  counter of 5, and a multiple of 2^32 gives zero. No reachable state uses such a group, because a
  submission is enabled only for batches below 2^31 tasks.
- Scheduling.Step: a `SubmitBatch` of 2^31 tasks or more is not an event. In the
  code its `wg.Add` panics or wraps, and the model has no crashed state.
- Scheduling.NewScheduler: the allocation ceiling is linux/amd64's (2^48 bytes,
  96-byte channel header). Other platforms and Go releases move the bound. Memory
  exhaustion is not modelled: a buffer that passes the size check but cannot be
  mapped (`NewScheduler(1, 1 << 44)` asks for 2^47 bytes) makes the runtime abort
  with the fatal, unrecoverable "out of memory", while the model returns a
  scheduler.

## Findings

| source | as written | input that shows it | evidently intended | confidence | as-written member | corrected member |
|---|---|---|---|---|---|---|
| taskscheduler.go:72-74,151-154 | `start` registers the dispatch loop on `s.wg` with `Add(1)`. Only the loop's exit calls the matching `Done`, and the loop exits only after `Stop`. `Wait` blocks on that same `s.wg`, so it can never return while the scheduler runs. `example/main.go` calls `scheduler.Wait()` before its deferred `Stop`, so `Wait` never returns there: once every other goroutine is blocked, the runtime reports "all goroutines are asleep - deadlock!". | `NewScheduler(5, 10)` then `Wait()`, with no task and no `Stop`: `wg` is 1 forever | `Wait` returns once every launched execution has finished. This corrected `Wait` does not wait for tasks still queued, held by the dispatch loop, or not yet sent | high, not executed | SchedulerProofs.WaitNeverReturnsAsWritten | SchedulerProofs.WaitReturnsWhenExecutionsFinish |
