/**
  The scheduler (Go's `Scheduler`, `Task` and `Batch`) as a sequential state
  machine. Every goroutine step the Go code can take is an `Event`; running the
  events in any order the channels allow covers every interleaving of the
  submitters, the dispatch loop and the task executions.
 */
module Scheduling {
  import opened Wrappers
  import opened Outcomes
  import opened Groups

  /** What the caller supplies for one task: its diagnostic ID and whether it
      has a `ResultChan`. The `Execute` body is not a value here: what it
      returns is chosen by the `Complete` event that finishes the task. */
  datatype Task = Task(id: string, hasSink: bool)

  /** One submitted task, named by its batch (hence its group) and its
      position in that batch's task list. */
  datatype Job = Job(batch: nat, index: nat)

  /** Where a submitted task stands: not yet sent by its submitter, in the
      task queue, received by the dispatch loop which waits for a worker slot,
      executing, or finished with its normalised result. */
  datatype Status = Waiting | Queued | Held | Running | Done(result: TaskResult)

  /** A `Batch` handle with the group it owns. `sent` (how many of its tasks
      `SubmitBatch` has already put on the queue) and `status` are bookkeeping
      of the model, not fields of the Go struct. */
  datatype Batch = Batch(tasks: seq<Task>, group: Group, sent: nat, status: seq<Status>)

  /** One result written to a task's `ResultChan`. */
  datatype Delivery = Delivery(job: Job, result: TaskResult)

  /** The scheduler state. `queue` is the buffered `taskQueue`; `holding` the
      task the dispatch loop has received and is trying to find a worker slot
      for; `running` the executions holding a slot of `workerPool`; `wg` the
      scheduler's WaitGroup as written; `taskWg` a WaitGroup counting only
      executions (see `WaitReturns`). `sentLog`, `receivedLog` and `delivered`
      record history for the FIFO and delivery properties. */
  datatype Scheduler = Scheduler(
    poolSize: nat,
    queueSize: nat,
    queue: seq<Job>,
    holding: Option<Job>,
    running: seq<Job>,
    batches: seq<Batch>,
    wg: int,
    taskWg: int,
    sentLog: seq<Job>,
    receivedLog: seq<Job>,
    delivered: seq<Delivery>)

  /** `make(chan T, n)` panics with "makechan: size out of range". */
  datatype Panic = ChannelSizeOutOfRange

  /** Size in bytes of one `taskQueue` cell, a `*Task` pointer on a 64-bit platform. */
  const PointerSize: nat := 8
  /** The runtime's allocation ceiling `maxAlloc` on linux/amd64: 2^48 bytes. */
  const MaxAlloc: int := 0x1_0000_0000_0000
  /** The channel header `hchanSize`, which shares that ceiling with the buffer. */
  const ChannelHeader: int := 96

  /** `makechan` accepts a buffer of `cells` cells of `cellSize` bytes: the size
      is not negative and the buffer fits under the ceiling. A `chan struct{}`
      has zero-sized cells, so only the sign of its size matters. */
  predicate ChannelFits(cells: int, cellSize: nat) {
    0 <= cells && cells * cellSize <= MaxAlloc - ChannelHeader
  }

  /** One step of some goroutine. */
  datatype Event =
      /** `SubmitBatch` starts: a fresh group whose counter is `len(tasks)`. */
    | SubmitBatch(tasks: seq<Task>)
      /** The submitter of batch `batch` puts its next task into the queue buffer. */
    | Enqueue(batch: nat)
      /** The dispatch loop receives the head of the queue. */
    | Receive
      /** With an unbuffered queue, the dispatch loop receives the next task
          directly from the blocked submitter of batch `batch`. */
    | HandOff(batch: nat)
      /** The dispatch loop obtains a worker slot and launches the task it holds. */
    | Launch
      /** The execution in slot `slot` returns `(result, err)` from `Execute`
          and runs the rest of `executeTask`. */
    | Complete(slot: nat, result: TaskResult, err: Option<Error>)

  /** State of a freshly constructed scheduler whose dispatch loop has started. */
  function Init(poolSize: nat, queueSize: nat): (s: Scheduler) {
    Scheduler(poolSize, queueSize, [], None, [], [], 1, 0, [], [], [])
  }

  /** `NewScheduler`: `make` panics on a negative size, or on a `taskQueue`
      buffer over the allocation ceiling. Otherwise it does not panic and
      returns an empty scheduler with the given capacities whose dispatch loop
      is registered on `wg`; running out of memory is not modelled. */
  function NewScheduler(poolSize: int, queueSize: int): (r: Result<Scheduler, Panic>)
    ensures r.Success? <==> ChannelFits(queueSize, PointerSize) && poolSize >= 0
    ensures poolSize < 0 || queueSize < 0 ==> r.Failure?
    ensures 0 <= poolSize && 0 <= queueSize <= 0x2000_0000_0000 - 12 ==> r.Success?
    ensures queueSize > 0x2000_0000_0000 - 12 ==> r.Failure?
    ensures r.Success? ==> Valid(r.value)
    ensures r.Success? ==> r.value.poolSize == poolSize && r.value.queueSize == queueSize
    ensures r.Success? ==> r.value.queue == [] && r.value.running == [] && r.value.batches == []
  {
    if !ChannelFits(queueSize, PointerSize) || !ChannelFits(poolSize, 0) then Failure(ChannelSizeOutOfRange)
    else Success(Init(poolSize, queueSize))
  }

  // ---------------------------------------------------------------------------
  // Reading the state

  /** `j` names a task of a batch of `s`. */
  predicate JobIn(s: Scheduler, j: Job) {
    j.batch < |s.batches| && j.index < |s.batches[j.batch].status| && j.index < |s.batches[j.batch].tasks|
  }

  function StatusOf(s: Scheduler, j: Job): (st: Status)
    requires JobIn(s, j)
  {
    s.batches[j.batch].status[j.index]
  }

  /** The task finished and its normalised result satisfied the success predicate. */
  predicate Succeeded(st: Status) {
    st.Done? && IsSuccess(st.result)
  }

  /** Number of tasks that have not finished executing. */
  function Unfinished(st: seq<Status>): (n: nat) {
    if |st| == 0 then 0 else (if st[0].Done? then 0 else 1) + Unfinished(st[1..])
  }

  // ---------------------------------------------------------------------------
  // Transitions

  /** The event can happen now: its channel operation would not block and the
      task it names exists. Blocked events are simply not taken. */
  predicate Enabled(s: Scheduler, e: Event) {
    match e
    case SubmitBatch(tasks) => |tasks| <= MaxWaitGroupCount
    case Enqueue(b) =>
      b < |s.batches| && s.batches[b].sent < |s.batches[b].tasks|
      && s.batches[b].sent < |s.batches[b].status|
      && |s.queue| < s.queueSize
    case Receive => s.holding.None? && |s.queue| > 0 && JobIn(s, s.queue[0])
    case HandOff(b) =>
      s.queueSize == 0 && s.holding.None?
      && b < |s.batches| && s.batches[b].sent < |s.batches[b].tasks|
      && s.batches[b].sent < |s.batches[b].status|
    case Launch => s.holding.Some? && |s.running| < s.poolSize && JobIn(s, s.holding.value)
    case Complete(k, _, _) =>
      k < |s.running| && JobIn(s, s.running[k])
      && s.batches[s.running[k].batch].group.outstanding > 0
  }

  function SetStatus(s: Scheduler, j: Job, st: Status): (s': Scheduler)
    requires JobIn(s, j)
  {
    var bt := s.batches[j.batch];
    s.(batches := s.batches[j.batch := bt.(status := bt.status[j.index := st])])
  }

  /** The state after one enabled event. Capacities never change, only a
      submission adds a batch and no event changes a batch's tasks; a worker
      slot is taken only by a launch and given back by every completion, and
      `wg` moves with the slots. */
  function Step(s: Scheduler, e: Event): (s': Scheduler)
    requires Enabled(s, e)
    ensures s'.poolSize == s.poolSize && s'.queueSize == s.queueSize
    ensures |s'.batches| == |s.batches| + (if e.SubmitBatch? then 1 else 0)
    ensures forall b :: 0 <= b < |s.batches| ==> s'.batches[b].tasks == s.batches[b].tasks
    ensures |s'.running| == |s.running| + (if e.Launch? then 1 else 0) - (if e.Complete? then 1 else 0)
    ensures s'.wg - s.wg == |s'.running| - |s.running| == s'.taskWg - s.taskWg
    ensures |s'.sentLog| == |s.sentLog| + (if e.Enqueue? || e.HandOff? then 1 else 0)
    ensures |s'.receivedLog| == |s.receivedLog| + (if e.Receive? || e.HandOff? then 1 else 0)
  {
    match e
    case SubmitBatch(tasks) =>
      s.(batches := s.batches + [Batch(tasks, NewGroup(|tasks|).value, 0, seq(|tasks|, _ => Waiting))])
    case Enqueue(b) =>
      var bt := s.batches[b];
      var j := Job(b, bt.sent);
      s.(queue := s.queue + [j],
         sentLog := s.sentLog + [j],
         batches := s.batches[b := bt.(sent := bt.sent + 1, status := bt.status[bt.sent := Queued])])
    case Receive =>
      var j := s.queue[0];
      SetStatus(s, j, Held).(queue := s.queue[1..], holding := Some(j), receivedLog := s.receivedLog + [j])
    case HandOff(b) =>
      var bt := s.batches[b];
      var j := Job(b, bt.sent);
      s.(holding := Some(j),
         sentLog := s.sentLog + [j],
         receivedLog := s.receivedLog + [j],
         batches := s.batches[b := bt.(sent := bt.sent + 1, status := bt.status[bt.sent := Held])])
    case Launch =>
      var j := s.holding.value;
      SetStatus(s, j, Running).(holding := None, running := s.running + [j],
                                wg := s.wg + 1, taskWg := s.taskWg + 1)
    case Complete(k, result, err) =>
      var j := s.running[k];
      var out := Normalize(result, err);
      var bt := s.batches[j.batch];
      var bt' := bt.(group := Settle(bt.group, out), status := bt.status[j.index := Done(out)]);
      s.(running := s.running[..k] + s.running[k + 1..],
         batches := s.batches[j.batch := bt'],
         wg := s.wg - 1,
         taskWg := s.taskWg - 1,
         delivered := if bt.tasks[j.index].hasSink then s.delivered + [Delivery(j, out)] else s.delivered)
  }

  /** Play a sequence of events; an event that would block is skipped. The
      capacities stay those of the starting state and no batch disappears. */
  function Run(s: Scheduler, es: seq<Event>): (s': Scheduler)
    ensures s'.poolSize == s.poolSize && s'.queueSize == s.queueSize
    ensures |s'.batches| >= |s.batches|
    decreases |es|
  {
    if |es| == 0 then s
    else Run(if Enabled(s, es[0]) then Step(s, es[0]) else s, es[1..])
  }

  // ---------------------------------------------------------------------------
  // The invariant

  /** A batch's group agrees with its tasks' statuses: the counter is the
      number of unfinished tasks, the flag says whether one of them
      succeeded, and cancellation follows the flag. Exactly the first `sent`
      tasks have left their submitter. */
  predicate BatchOk(bt: Batch) {
    && |bt.status| == |bt.tasks|
    && bt.sent <= |bt.tasks|
    && (forall i :: 0 <= i < |bt.status| ==> (bt.status[i].Waiting? <==> bt.sent <= i))
    && bt.group.outstanding == Unfinished(bt.status)
    && (bt.group.success <==> exists i :: 0 <= i < |bt.status| && Succeeded(bt.status[i]))
    && CancelMatchesSuccess(bt.group)
  }

  /** Queue and worker pool stay within their capacities. */
  predicate WithinCapacity(s: Scheduler) {
    |s.queue| <= s.queueSize && |s.running| <= s.poolSize
  }

  /** No element occurs twice. */
  predicate Distinct<T(==)>(q: seq<T>) {
    forall k, l :: 0 <= k < l < |q| ==> q[k] != q[l]
  }

  /** Each task the queue, the dispatch loop or a worker holds has the matching
      status, appears once, and every running task occupies a slot. */
  predicate Placed(s: Scheduler) {
    && (forall k :: 0 <= k < |s.queue| ==> JobIn(s, s.queue[k]) && StatusOf(s, s.queue[k]) == Queued)
    && Distinct(s.queue)
    && (s.holding.Some? ==> JobIn(s, s.holding.value) && StatusOf(s, s.holding.value) == Held)
    && (forall k :: 0 <= k < |s.running| ==> JobIn(s, s.running[k]) && StatusOf(s, s.running[k]) == Running)
    && Distinct(s.running)
    && (forall b, i :: 0 <= b < |s.batches| && 0 <= i < |s.batches[b].status| && s.batches[b].status[i].Running?
          ==> Job(b, i) in s.running)
  }

  /** The queue is FIFO (what was sent is what was received followed by what
      is still queued), and each batch's tasks were sent in list order. */
  predicate Ordered(s: Scheduler) {
    && s.sentLog == s.receivedLog + s.queue
    && (forall k :: 0 <= k < |s.sentLog| ==>
          s.sentLog[k].batch < |s.batches| && s.sentLog[k].index < s.batches[s.sentLog[k].batch].sent)
    && (forall k, l :: 0 <= k < l < |s.sentLog| && s.sentLog[k].batch == s.sentLog[l].batch
          ==> s.sentLog[k].index < s.sentLog[l].index)
  }

  /** Every finished task with a `ResultChan` got its final result written to
      it exactly once, and nothing else was written. */
  predicate DeliveredOnce(s: Scheduler) {
    && (forall k :: 0 <= k < |s.delivered| ==>
          JobIn(s, s.delivered[k].job)
          && s.batches[s.delivered[k].job.batch].tasks[s.delivered[k].job.index].hasSink
          && StatusOf(s, s.delivered[k].job) == Done(s.delivered[k].result))
    && (forall k, l :: 0 <= k < l < |s.delivered| ==> s.delivered[k].job != s.delivered[l].job)
    && (forall b, i :: 0 <= b < |s.batches| && 0 <= i < |s.batches[b].status| && i < |s.batches[b].tasks|
          && s.batches[b].status[i].Done? && s.batches[b].tasks[i].hasSink
          ==> Delivery(Job(b, i), s.batches[b].status[i].result) in s.delivered)
  }

  /** Every batch's group agrees with its tasks. */
  predicate BatchesOk(s: Scheduler) {
    forall b :: 0 <= b < |s.batches| ==> BatchOk(s.batches[b])
  }

  /** The full invariant of every reachable state. */
  predicate Valid(s: Scheduler) {
    && BatchesOk(s)
    && WithinCapacity(s)
    && Placed(s)
    && Ordered(s)
    && DeliveredOnce(s)
    && s.wg == 1 + |s.running|
    && s.taskWg == |s.running|
  }

  // ---------------------------------------------------------------------------
  // Batch.Wait, Batch.IsSuccess and Scheduler.Wait

  /** `Batch.Wait` returns once its group's counter is zero. */
  predicate BatchWaitReturns(bt: Batch) {
    bt.group.outstanding == 0
  }

  /** `Batch.IsSuccess`: the current value of the group's flag. */
  predicate BatchIsSuccess(bt: Batch) {
    bt.group.success
  }

  /** `Scheduler.Wait` as written returns when `wg` is zero. But `start`
      registers the dispatch loop itself on `wg`, and only `Stop` ends the
      loop. */
  predicate WaitReturnsAsWritten(s: Scheduler) {
    s.wg == 0
  }

  /** `Scheduler.Wait` corrected: it waits on a counter of launched executions
      only. Tasks still queued, held by the dispatch loop or not yet sent by
      their submitter are not counted, so it does not wait for those. */
  predicate WaitReturns(s: Scheduler) {
    s.taskWg == 0
  }
}
