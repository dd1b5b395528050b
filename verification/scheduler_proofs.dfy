/**
  Proofs about the scheduler state machine: every event preserves `Valid`,
  hence every state reachable from `NewScheduler` satisfies it, and the
  properties the scheduler promises follow.
 */
module SchedulerProofs {
  import opened Wrappers
  import opened Outcomes
  import opened Groups
  import opened Scheduling

  // ---------------------------------------------------------------------------
  // Counting unfinished tasks

  lemma {:induction false} UnfinishedUpdate(st: seq<Status>, i: nat, x: Status)
    requires i < |st|
    ensures Unfinished(st[i := x]) + (if st[i].Done? then 0 else 1)
         == Unfinished(st) + (if x.Done? then 0 else 1)
    decreases |st|
  {
    if i == 0 {
      assert st[i := x][1..] == st[1..];
    } else {
      assert st[i := x][1..] == st[1..][i - 1 := x];
      UnfinishedUpdate(st[1..], i - 1, x);
    }
  }

  lemma {:induction false} UnfinishedAllWaiting(n: nat)
    ensures Unfinished(seq(n, _ => Waiting)) == n
  {
    if n > 0 {
      assert seq(n, _ => Waiting)[1..] == seq(n - 1, _ => Waiting);
      UnfinishedAllWaiting(n - 1);
    }
  }

  /** No task is unfinished exactly when every task is done. */
  lemma {:induction false} UnfinishedZero(st: seq<Status>)
    ensures Unfinished(st) == 0 <==> forall i :: 0 <= i < |st| ==> st[i].Done?
    decreases |st|
  {
    if |st| > 0 {
      UnfinishedZero(st[1..]);
      if Unfinished(st) == 0 {
        forall i | 0 <= i < |st| ensures st[i].Done? {
          if i > 0 { assert st[i] == st[1..][i - 1]; }
        }
      }
      if forall i :: 0 <= i < |st| ==> st[i].Done? {
        forall i | 0 <= i < |st[1..]| ensures st[1..][i].Done? {
          assert st[1..][i] == st[i + 1];
        }
      }
    }
  }

  // ---------------------------------------------------------------------------
  // One event at a time

  /** Moving one unfinished task to another unfinished, non-waiting status
      (queued, held or running), possibly advancing `sent` past it, keeps its
      batch consistent. */
  lemma MoveKeepsBatchOk(bt: Batch, i: nat, x: Status, sent: nat)
    requires BatchOk(bt)
    requires i < |bt.status|
    requires !bt.status[i].Done? && !x.Done? && !x.Waiting?
    requires bt.status[i].Waiting? ==> i == bt.sent && sent == bt.sent + 1
    requires !bt.status[i].Waiting? ==> sent == bt.sent
    ensures BatchOk(bt.(sent := sent, status := bt.status[i := x]))
  {
    var bt' := bt.(sent := sent, status := bt.status[i := x]);
    UnfinishedUpdate(bt.status, i, x);
    if bt'.group.success {
      var m :| 0 <= m < |bt.status| && Succeeded(bt.status[m]);
      assert Succeeded(bt'.status[m]);
    }
    if exists m :: 0 <= m < |bt'.status| && Succeeded(bt'.status[m]) {
      var m :| 0 <= m < |bt'.status| && Succeeded(bt'.status[m]);
      assert Succeeded(bt.status[m]);
    }
  }

  /** Finishing a running task with outcome `out` keeps its batch consistent. */
  lemma FinishKeepsBatchOk(bt: Batch, i: nat, out: TaskResult)
    requires BatchOk(bt)
    requires i < |bt.status| && bt.status[i] == Running
    ensures bt.group.outstanding > 0
    ensures BatchOk(bt.(group := Settle(bt.group, out), status := bt.status[i := Done(out)]))
  {
    UnfinishedUpdate(bt.status, i, Done(out));
    var bt' := bt.(group := Settle(bt.group, out), status := bt.status[i := Done(out)]);
    if bt'.group.success {
      if IsSuccess(out) {
        assert Succeeded(bt'.status[i]);
      } else {
        var m :| 0 <= m < |bt.status| && Succeeded(bt.status[m]);
        assert Succeeded(bt'.status[m]);
      }
    }
    if exists m :: 0 <= m < |bt'.status| && Succeeded(bt'.status[m]) {
      var m :| 0 <= m < |bt'.status| && Succeeded(bt'.status[m]);
      if m != i {
        assert Succeeded(bt.status[m]);
      }
    }
  }

  lemma SubmitKeepsBatches(s: Scheduler, tasks: seq<Task>)
    requires BatchesOk(s) && |tasks| <= MaxWaitGroupCount
    ensures BatchesOk(Step(s, SubmitBatch(tasks)))
  {
    var s' := Step(s, SubmitBatch(tasks));
    UnfinishedAllWaiting(|tasks|);
    assert BatchOk(s'.batches[|s.batches|]);
    assert forall b :: 0 <= b < |s.batches| ==> s'.batches[b] == s.batches[b];
  }

  lemma SubmitPreservesValid(s: Scheduler, tasks: seq<Task>)
    requires Valid(s) && |tasks| <= MaxWaitGroupCount
    ensures Valid(Step(s, SubmitBatch(tasks)))
  {
    SubmitKeepsBatches(s, tasks);
    SubmitKeepsPlaced(s, tasks);
    SubmitKeepsDelivered(s, tasks);
    SameLogsKeepOrdered(s, Step(s, SubmitBatch(tasks)));
  }

  lemma SubmitKeepsPlaced(s: Scheduler, tasks: seq<Task>)
    requires Placed(s) && |tasks| <= MaxWaitGroupCount
    ensures Placed(Step(s, SubmitBatch(tasks)))
  {
    var s' := Step(s, SubmitBatch(tasks));
    assert forall b :: 0 <= b < |s.batches| ==> s'.batches[b] == s.batches[b];
  }

  lemma SubmitKeepsDelivered(s: Scheduler, tasks: seq<Task>)
    requires DeliveredOnce(s) && |tasks| <= MaxWaitGroupCount
    ensures DeliveredOnce(Step(s, SubmitBatch(tasks)))
  {
    var s' := Step(s, SubmitBatch(tasks));
    assert forall b :: 0 <= b < |s.batches| ==> s'.batches[b] == s.batches[b];
  }

  /** Only the status of `j` differs between the two states' batches. */
  predicate OnlyStatusOf(s: Scheduler, s': Scheduler, j: Job, x: Status) {
    && JobIn(s, j)
    && |s'.batches| == |s.batches|
    && (forall b :: 0 <= b < |s.batches| ==>
          s'.batches[b].tasks == s.batches[b].tasks && |s'.batches[b].status| == |s.batches[b].status|)
    && s'.batches[j.batch].status == s.batches[j.batch].status[j.index := x]
    && (forall b :: 0 <= b < |s.batches| && b != j.batch ==> s'.batches[b].status == s.batches[b].status)
  }

  lemma OnlyStatusOfFrame(s: Scheduler, s': Scheduler, j: Job, x: Status, j': Job)
    requires OnlyStatusOf(s, s', j, x)
    requires JobIn(s, j')
    ensures JobIn(s', j')
    ensures StatusOf(s', j') == if j' == j then x else StatusOf(s, j')
  {
  }

  /** Moving a task between two unfinished statuses writes no result and
      leaves the delivery log consistent. */
  lemma MoveKeepsDelivered(s: Scheduler, s': Scheduler, j: Job, x: Status)
    requires DeliveredOnce(s) && OnlyStatusOf(s, s', j, x)
    requires !StatusOf(s, j).Done? && !x.Done?
    requires s'.delivered == s.delivered
    ensures DeliveredOnce(s')
  {
    forall j' | JobIn(s, j') ensures JobIn(s', j') && StatusOf(s', j') == if j' == j then x else StatusOf(s, j') {
      OnlyStatusOfFrame(s, s', j, x, j');
    }
  }

  /** An event that changes neither the logs, the queue nor how many tasks
      each batch has sent keeps the FIFO facts. */
  lemma SameLogsKeepOrdered(s: Scheduler, s': Scheduler)
    requires Ordered(s)
    requires s'.sentLog == s.sentLog && s'.receivedLog == s.receivedLog && s'.queue == s.queue
    requires |s'.batches| >= |s.batches|
    requires forall b :: 0 <= b < |s.batches| ==> s'.batches[b].sent == s.batches[b].sent
    ensures Ordered(s')
  {
  }

  lemma EnqueueKeepsBatches(s: Scheduler, b: nat)
    requires BatchesOk(s) && Enabled(s, Enqueue(b))
    ensures BatchesOk(Step(s, Enqueue(b)))
    ensures OnlyStatusOf(s, Step(s, Enqueue(b)), Job(b, s.batches[b].sent), Queued)
    ensures StatusOf(s, Job(b, s.batches[b].sent)) == Waiting
  {
    var bt := s.batches[b];
    MoveKeepsBatchOk(bt, bt.sent, Queued, bt.sent + 1);
  }

  lemma EnqueueKeepsPlaced(s: Scheduler, b: nat)
    requires BatchesOk(s) && Placed(s) && Enabled(s, Enqueue(b))
    ensures Placed(Step(s, Enqueue(b)))
  {
    var s' := Step(s, Enqueue(b));
    var j := Job(b, s.batches[b].sent);
    EnqueueKeepsBatches(s, b);
    forall j' | JobIn(s, j') ensures JobIn(s', j') && StatusOf(s', j') == if j' == j then Queued else StatusOf(s, j') {
      OnlyStatusOfFrame(s, s', j, Queued, j');
    }
    assert forall k :: 0 <= k < |s.queue| ==> s.queue[k] != j;
  }

  lemma EnqueueKeepsOrdered(s: Scheduler, b: nat)
    requires Ordered(s) && Enabled(s, Enqueue(b))
    ensures Ordered(Step(s, Enqueue(b)))
  {
    var s' := Step(s, Enqueue(b));
    assert s'.sentLog == s'.receivedLog + s'.queue;
  }

  lemma EnqueuePreservesValid(s: Scheduler, b: nat)
    requires Valid(s)
    requires Enabled(s, Enqueue(b))
    ensures Valid(Step(s, Enqueue(b)))
  {
    var s' := Step(s, Enqueue(b));
    EnqueueKeepsBatches(s, b);
    EnqueueKeepsPlaced(s, b);
    EnqueueKeepsOrdered(s, b);
    MoveKeepsDelivered(s, s', Job(b, s.batches[b].sent), Queued);
  }

  lemma ReceiveKeepsBatches(s: Scheduler)
    requires BatchesOk(s) && Placed(s) && Enabled(s, Receive)
    ensures BatchesOk(Step(s, Receive))
    ensures OnlyStatusOf(s, Step(s, Receive), s.queue[0], Held)
  {
    var j := s.queue[0];
    var bt := s.batches[j.batch];
    MoveKeepsBatchOk(bt, j.index, Held, bt.sent);
  }

  lemma ReceiveKeepsPlaced(s: Scheduler)
    requires BatchesOk(s) && Placed(s) && Enabled(s, Receive)
    ensures Placed(Step(s, Receive))
  {
    var s' := Step(s, Receive);
    var j := s.queue[0];
    ReceiveKeepsBatches(s);
    forall j' | JobIn(s, j') ensures JobIn(s', j') && StatusOf(s', j') == if j' == j then Held else StatusOf(s, j') {
      OnlyStatusOfFrame(s, s', j, Held, j');
    }
    assert forall k :: 0 < k < |s.queue| ==> s.queue[k] != j;
  }

  lemma ReceiveKeepsOrdered(s: Scheduler)
    requires Ordered(s) && Enabled(s, Receive)
    ensures Ordered(Step(s, Receive))
  {
    var s' := Step(s, Receive);
    assert s'.sentLog == s'.receivedLog + s'.queue by {
      assert s.queue == [s.queue[0]] + s.queue[1..];
    }
    assert forall b :: 0 <= b < |s.batches| ==> s'.batches[b].sent == s.batches[b].sent;
  }

  lemma ReceivePreservesValid(s: Scheduler)
    requires Valid(s)
    requires Enabled(s, Receive)
    ensures Valid(Step(s, Receive))
  {
    var s' := Step(s, Receive);
    ReceiveKeepsBatches(s);
    ReceiveKeepsPlaced(s);
    ReceiveKeepsOrdered(s);
    MoveKeepsDelivered(s, s', s.queue[0], Held);
  }

  lemma HandOffKeepsBatches(s: Scheduler, b: nat)
    requires BatchesOk(s) && Enabled(s, HandOff(b))
    ensures BatchesOk(Step(s, HandOff(b)))
    ensures OnlyStatusOf(s, Step(s, HandOff(b)), Job(b, s.batches[b].sent), Held)
    ensures StatusOf(s, Job(b, s.batches[b].sent)) == Waiting
  {
    var bt := s.batches[b];
    MoveKeepsBatchOk(bt, bt.sent, Held, bt.sent + 1);
  }

  lemma HandOffKeepsPlaced(s: Scheduler, b: nat)
    requires BatchesOk(s) && Placed(s) && WithinCapacity(s) && Enabled(s, HandOff(b))
    ensures Placed(Step(s, HandOff(b)))
  {
    var s' := Step(s, HandOff(b));
    var j := Job(b, s.batches[b].sent);
    HandOffKeepsBatches(s, b);
    forall j' | JobIn(s, j') ensures JobIn(s', j') && StatusOf(s', j') == if j' == j then Held else StatusOf(s, j') {
      OnlyStatusOfFrame(s, s', j, Held, j');
    }
  }

  lemma HandOffKeepsOrdered(s: Scheduler, b: nat)
    requires Ordered(s) && WithinCapacity(s) && Enabled(s, HandOff(b))
    ensures Ordered(Step(s, HandOff(b)))
  {
    var s' := Step(s, HandOff(b));
    assert s.queue == [];
    assert s'.sentLog == s'.receivedLog + s'.queue;
  }

  lemma HandOffPreservesValid(s: Scheduler, b: nat)
    requires Valid(s)
    requires Enabled(s, HandOff(b))
    ensures Valid(Step(s, HandOff(b)))
  {
    var s' := Step(s, HandOff(b));
    HandOffKeepsBatches(s, b);
    HandOffKeepsPlaced(s, b);
    HandOffKeepsOrdered(s, b);
    MoveKeepsDelivered(s, s', Job(b, s.batches[b].sent), Held);
  }

  lemma LaunchKeepsBatches(s: Scheduler)
    requires BatchesOk(s) && Placed(s) && Enabled(s, Launch)
    ensures BatchesOk(Step(s, Launch))
    ensures OnlyStatusOf(s, Step(s, Launch), s.holding.value, Running)
  {
    var j := s.holding.value;
    var bt := s.batches[j.batch];
    MoveKeepsBatchOk(bt, j.index, Running, bt.sent);
  }

  lemma LaunchKeepsPlaced(s: Scheduler)
    requires BatchesOk(s) && Placed(s) && Enabled(s, Launch)
    ensures Placed(Step(s, Launch))
  {
    var s' := Step(s, Launch);
    var j := s.holding.value;
    LaunchKeepsBatches(s);
    forall j' | JobIn(s, j') ensures JobIn(s', j') && StatusOf(s', j') == if j' == j then Running else StatusOf(s, j') {
      OnlyStatusOfFrame(s, s', j, Running, j');
    }
    assert forall k :: 0 <= k < |s.running| ==> s.running[k] != j;
    forall b, i | 0 <= b < |s'.batches| && 0 <= i < |s'.batches[b].status| && s'.batches[b].status[i].Running?
      ensures Job(b, i) in s'.running
    {
      OnlyStatusOfFrame(s, s', j, Running, Job(b, i));
      if Job(b, i) != j {
        assert Job(b, i) in s.running;
      }
    }
  }

  lemma LaunchPreservesValid(s: Scheduler)
    requires Valid(s)
    requires Enabled(s, Launch)
    ensures Valid(Step(s, Launch))
  {
    var s' := Step(s, Launch);
    LaunchKeepsBatches(s);
    LaunchKeepsPlaced(s);
    SameLogsKeepOrdered(s, s');
    MoveKeepsDelivered(s, s', s.holding.value, Running);
  }

  lemma CompleteKeepsBatches(s: Scheduler, k: nat, result: TaskResult, err: Option<Error>)
    requires BatchesOk(s) && Placed(s) && Enabled(s, Complete(k, result, err))
    ensures BatchesOk(Step(s, Complete(k, result, err)))
    ensures OnlyStatusOf(s, Step(s, Complete(k, result, err)), s.running[k], Done(Normalize(result, err)))
  {
    var j := s.running[k];
    FinishKeepsBatchOk(s.batches[j.batch], j.index, Normalize(result, err));
  }

  /** Removing the element at `k` from a sequence without duplicates removes
      exactly that element. */
  lemma RemoveAt<T>(q: seq<T>, k: nat)
    requires Distinct(q) && k < |q|
    ensures Distinct(q[..k] + q[k + 1..])
    ensures forall x :: x in q[..k] + q[k + 1..] <==> x in q && x != q[k]
  {
    var r := q[..k] + q[k + 1..];
    forall m | 0 <= m < |r| ensures r[m] == (if m < k then q[m] else q[m + 1]) {
    }
    forall x | x in q && x != q[k] ensures x in r {
      var m :| 0 <= m < |q| && q[m] == x;
      if m < k { assert r[m] == x; } else { assert r[m - 1] == x; }
    }
  }

  lemma CompleteKeepsPlaced(s: Scheduler, k: nat, result: TaskResult, err: Option<Error>)
    requires BatchesOk(s) && Placed(s) && Enabled(s, Complete(k, result, err))
    ensures Placed(Step(s, Complete(k, result, err)))
  {
    var s' := Step(s, Complete(k, result, err));
    var j := s.running[k];
    var x := Done(Normalize(result, err));
    CompleteKeepsBatches(s, k, result, err);
    forall j' | JobIn(s, j') ensures JobIn(s', j') && StatusOf(s', j') == if j' == j then x else StatusOf(s, j') {
      OnlyStatusOfFrame(s, s', j, x, j');
    }
    RemoveAt(s.running, k);
    forall m | 0 <= m < |s'.running|
      ensures JobIn(s', s'.running[m]) && StatusOf(s', s'.running[m]) == Running
    {
      assert s'.running[m] in s.running;
    }
    forall b, i | 0 <= b < |s'.batches| && 0 <= i < |s'.batches[b].status| && s'.batches[b].status[i].Running?
      ensures Job(b, i) in s'.running
    {
      OnlyStatusOfFrame(s, s', j, x, Job(b, i));
    }
  }

  /** Finishing an unfinished task with outcome `out` writes `out` to its
      result channel, if it has one, and nothing else. */
  lemma FinishKeepsDelivered(s: Scheduler, s': Scheduler, j: Job, out: TaskResult)
    requires DeliveredOnce(s) && OnlyStatusOf(s, s', j, Done(out))
    requires !StatusOf(s, j).Done?
    requires s'.delivered ==
      if s.batches[j.batch].tasks[j.index].hasSink then s.delivered + [Delivery(j, out)] else s.delivered
    ensures DeliveredOnce(s')
  {
    assert forall m :: 0 <= m < |s.delivered| ==> s.delivered[m].job != j;
    forall k | 0 <= k < |s'.delivered|
      ensures JobIn(s', s'.delivered[k].job)
      ensures s'.batches[s'.delivered[k].job.batch].tasks[s'.delivered[k].job.index].hasSink
      ensures StatusOf(s', s'.delivered[k].job) == Done(s'.delivered[k].result)
    {
      OnlyStatusOfFrame(s, s', j, Done(out), s'.delivered[k].job);
    }
    forall b, i | 0 <= b < |s'.batches| && 0 <= i < |s'.batches[b].status| && i < |s'.batches[b].tasks|
        && s'.batches[b].status[i].Done? && s'.batches[b].tasks[i].hasSink
      ensures Delivery(Job(b, i), s'.batches[b].status[i].result) in s'.delivered
    {
      OnlyStatusOfFrame(s, s', j, Done(out), Job(b, i));
    }
  }

  lemma CompletePreservesValid(s: Scheduler, k: nat, result: TaskResult, err: Option<Error>)
    requires Valid(s)
    requires Enabled(s, Complete(k, result, err))
    ensures Valid(Step(s, Complete(k, result, err)))
  {
    CompleteKeepsBatches(s, k, result, err);
    CompleteKeepsPlaced(s, k, result, err);
    FinishKeepsDelivered(s, Step(s, Complete(k, result, err)), s.running[k], Normalize(result, err));
    SameLogsKeepOrdered(s, Step(s, Complete(k, result, err)));
  }

  // ---------------------------------------------------------------------------
  // Every reachable state is valid

  /** Every enabled event preserves the invariant. */
  lemma StepPreservesValid(s: Scheduler, e: Event)
    requires Valid(s)
    requires Enabled(s, e)
    ensures Valid(Step(s, e))
  {
    match e
    case SubmitBatch(tasks) => SubmitPreservesValid(s, tasks);
    case Enqueue(b) => EnqueuePreservesValid(s, b);
    case Receive => ReceivePreservesValid(s);
    case HandOff(b) => HandOffPreservesValid(s, b);
    case Launch => LaunchPreservesValid(s);
    case Complete(k, result, err) => CompletePreservesValid(s, k, result, err);
  }

  /** Every enabled event keeps every batch consistent with its group. */
  lemma StepKeepsBatches(s: Scheduler, e: Event)
    requires BatchesOk(s) && Placed(s) && Enabled(s, e)
    ensures BatchesOk(Step(s, e))
  {
    match e
    case SubmitBatch(tasks) => SubmitKeepsBatches(s, tasks);
    case Enqueue(b) => EnqueueKeepsBatches(s, b);
    case Receive => ReceiveKeepsBatches(s);
    case HandOff(b) => HandOffKeepsBatches(s, b);
    case Launch => LaunchKeepsBatches(s);
    case Complete(k, result, err) => CompleteKeepsBatches(s, k, result, err);
  }

  /** Any interleaving of events preserves the invariant. */
  lemma {:induction false} RunPreservesValid(s: Scheduler, es: seq<Event>)
    requires Valid(s)
    ensures Valid(Run(s, es))
    decreases |es|
  {
    if |es| > 0 {
      var s1 := if Enabled(s, es[0]) then Step(s, es[0]) else s;
      if Enabled(s, es[0]) {
        StepPreservesValid(s, es[0]);
      }
      RunPreservesValid(s1, es[1..]);
    }
  }

  /** Every state reached from a new scheduler by any interleaving is valid. */
  lemma ReachableIsValid(poolSize: nat, queueSize: nat, es: seq<Event>)
    ensures Valid(Run(Init(poolSize, queueSize), es))
    ensures Run(Init(poolSize, queueSize), es).poolSize == poolSize
    ensures Run(Init(poolSize, queueSize), es).queueSize == queueSize
  {
    RunPreservesValid(Init(poolSize, queueSize), es);
  }

  // ---------------------------------------------------------------------------
  // Properties of reachable states

  /** The queue never holds more than `queueSize` tasks and no more than
      `poolSize` executions run at once. */
  lemma CapacityRespected(poolSize: nat, queueSize: nat, es: seq<Event>)
    ensures |Run(Init(poolSize, queueSize), es).queue| <= queueSize
    ensures |Run(Init(poolSize, queueSize), es).running| <= poolSize
  {
    ReachableIsValid(poolSize, queueSize, es);
    assert WithinCapacity(Run(Init(poolSize, queueSize), es));
  }

  /** Tasks leave the queue in the order they entered it, and each batch's
      tasks enter it in the order of the batch's task list. */
  lemma QueueIsFifo(poolSize: nat, queueSize: nat, es: seq<Event>)
    ensures var s := Run(Init(poolSize, queueSize), es);
      && s.sentLog == s.receivedLog + s.queue
      && (forall k, l :: 0 <= k < l < |s.sentLog| && s.sentLog[k].batch == s.sentLog[l].batch
            ==> s.sentLog[k].index < s.sentLog[l].index)
  {
    ReachableIsValid(poolSize, queueSize, es);
  }

  /** A task that is not finished keeps its group's counter above zero. */
  lemma UnfinishedPositive(st: seq<Status>, i: nat)
    requires i < |st| && !st[i].Done?
    ensures Unfinished(st) > 0
  {
    UnfinishedZero(st);
  }

  /** A batch's counter never goes negative. Once `Batch.Wait` would return,
      every task has finished, `Batch.IsSuccess` says whether some task's
      normalised result satisfied the success predicate, and the group was
      cancelled, by exactly one cancel call, if so and never otherwise. */
  lemma BatchResolution(poolSize: nat, queueSize: nat, es: seq<Event>, b: nat)
    requires b < |Run(Init(poolSize, queueSize), es).batches|
    ensures var bt := Run(Init(poolSize, queueSize), es).batches[b];
      |bt.status| == |bt.tasks| && bt.group.outstanding >= 0
    ensures var bt := Run(Init(poolSize, queueSize), es).batches[b];
      BatchWaitReturns(bt) ==>
        && (forall i :: 0 <= i < |bt.status| ==> bt.status[i].Done?)
        && (BatchIsSuccess(bt) <==> exists i :: 0 <= i < |bt.status| && IsSuccess(bt.status[i].result))
        && bt.group.cancelled == BatchIsSuccess(bt)
        && bt.group.cancelCalls == (if BatchIsSuccess(bt) then 1 else 0)
    ensures var bt := Run(Init(poolSize, queueSize), es).batches[b];
      (forall i :: 0 <= i < |bt.status| ==> bt.status[i].Done?) ==> BatchWaitReturns(bt)
  {
    ReachableIsValid(poolSize, queueSize, es);
    var bt := Run(Init(poolSize, queueSize), es).batches[b];
    assert BatchOk(bt);
    UnfinishedZero(bt.status);
  }

  /** Each finished task with a result channel had exactly one result written
      to it: its own normalised result. */
  lemma ResultDeliveredOnce(poolSize: nat, queueSize: nat, es: seq<Event>, b: nat, i: nat)
    requires var s := Run(Init(poolSize, queueSize), es);
      b < |s.batches| && i < |s.batches[b].tasks| && s.batches[b].tasks[i].hasSink
    ensures var s := Run(Init(poolSize, queueSize), es);
      i < |s.batches[b].status| &&
      (s.batches[b].status[i].Done? <==> exists k :: 0 <= k < |s.delivered| && s.delivered[k].job == Job(b, i))
    ensures var s := Run(Init(poolSize, queueSize), es);
      forall k, l :: 0 <= k < |s.delivered| && 0 <= l < |s.delivered|
        && s.delivered[k].job == Job(b, i) && s.delivered[l].job == Job(b, i)
        ==> k == l && s.batches[b].status[i] == Done(s.delivered[k].result)
  {
    var s := Run(Init(poolSize, queueSize), es);
    ReachableIsValid(poolSize, queueSize, es);
    if s.batches[b].status[i].Done? {
      var d := Delivery(Job(b, i), s.batches[b].status[i].result);
      assert d in s.delivered;
      var k :| 0 <= k < |s.delivered| && s.delivered[k] == d;
    }
  }

  // ---------------------------------------------------------------------------
  // Properties of single events

  /** Whatever event happens, no batch disappears or changes its tasks, no
      success flag or cancellation reverts, cancel is never called a second
      time, and no counter goes up. */
  lemma StepNeverReverts(s: Scheduler, e: Event, b: nat)
    requires BatchesOk(s) && Placed(s) && Enabled(s, e) && b < |s.batches|
    ensures b < |Step(s, e).batches|
    ensures Step(s, e).batches[b].tasks == s.batches[b].tasks
    ensures s.batches[b].group.success ==> Step(s, e).batches[b].group.success
    ensures s.batches[b].group.cancelled ==> Step(s, e).batches[b].group.cancelled
    ensures Step(s, e).batches[b].group.cancelCalls <= 1
    ensures s.batches[b].group.cancelCalls <= Step(s, e).batches[b].group.cancelCalls
    ensures Step(s, e).batches[b].group.outstanding <= s.batches[b].group.outstanding
  {
    StepKeepsBatches(s, e);
    assert BatchOk(Step(s, e).batches[b]);
  }

  /** Over any interleaving, a batch's success flag and cancellation never
      revert and its counter never goes up. */
  lemma {:induction false} FlagsNeverRevert(s: Scheduler, es: seq<Event>, b: nat)
    requires Valid(s) && b < |s.batches|
    ensures b < |Run(s, es).batches|
    ensures Run(s, es).batches[b].tasks == s.batches[b].tasks
    ensures s.batches[b].group.success ==> Run(s, es).batches[b].group.success
    ensures s.batches[b].group.cancelled ==> Run(s, es).batches[b].group.cancelled
    ensures Run(s, es).batches[b].group.outstanding <= s.batches[b].group.outstanding
    decreases |es|
  {
    if |es| > 0 {
      var s1 := if Enabled(s, es[0]) then Step(s, es[0]) else s;
      if Enabled(s, es[0]) {
        StepNeverReverts(s, es[0], b);
        StepPreservesValid(s, es[0]);
      }
      FlagsNeverRevert(s1, es[1..], b);
    }
  }

  /** A batch whose counter is zero has had every task sent and finished. */
  lemma FinishedBatchFullySent(bt: Batch)
    requires BatchOk(bt) && BatchWaitReturns(bt)
    ensures bt.sent == |bt.tasks|
    ensures forall i :: 0 <= i < |bt.status| ==> bt.status[i].Done?
  {
    UnfinishedZero(bt.status);
    if |bt.status| > 0 {
      assert !bt.status[|bt.status| - 1].Waiting?;
    }
  }

  /** Once a batch's counter is zero, no event touches it: every task is done,
      so none can be sent again, and receive, launch and completion only act on
      tasks that are queued, held or running. */
  lemma StepKeepsFinishedBatch(s: Scheduler, e: Event, b: nat)
    requires Valid(s) && Enabled(s, e)
    requires b < |s.batches| && BatchWaitReturns(s.batches[b])
    ensures b < |Step(s, e).batches| && Step(s, e).batches[b] == s.batches[b]
  {
    var bt := s.batches[b];
    FinishedBatchFullySent(bt);
    match e
    case SubmitBatch(_) =>
    case Enqueue(b') =>
    case Receive =>
      assert StatusOf(s, s.queue[0]) == Queued;
    case HandOff(b') =>
    case Launch =>
      assert StatusOf(s, s.holding.value) == Held;
    case Complete(k, _, _) =>
  }

  /** What `Batch.IsSuccess` reads once `Batch.Wait` has returned is final: over
      any later interleaving the batch, its flag, cancellation, counter and
      every task's result included, stays exactly as it was. */
  lemma {:induction false} StableAfterWait(s: Scheduler, es: seq<Event>, b: nat)
    requires Valid(s) && b < |s.batches| && BatchWaitReturns(s.batches[b])
    ensures b < |Run(s, es).batches| && Run(s, es).batches[b] == s.batches[b]
    ensures BatchIsSuccess(Run(s, es).batches[b]) == BatchIsSuccess(s.batches[b])
    decreases |es|
  {
    if |es| > 0 {
      var s1 := if Enabled(s, es[0]) then Step(s, es[0]) else s;
      if Enabled(s, es[0]) {
        StepKeepsFinishedBatch(s, es[0], b);
        StepPreservesValid(s, es[0]);
      }
      StableAfterWait(s1, es[1..], b);
    }
  }

  /** `SubmitBatch` adds one batch with a fresh group (not succeeded, not
      cancelled, counter equal to the number of tasks, every task still with
      its submitter) and leaves every earlier batch as it was. A batch too
      large for the 32-bit counter makes `wg.Add` panic instead. */
  lemma SubmitCreatesFreshGroup(s: Scheduler, tasks: seq<Task>)
    requires |tasks| <= MaxWaitGroupCount
    ensures var s' := Step(s, SubmitBatch(tasks));
      && |s'.batches| == |s.batches| + 1
      && s'.batches[..|s.batches|] == s.batches
      && s'.batches[|s.batches|].tasks == tasks
      && !s'.batches[|s.batches|].group.success
      && !s'.batches[|s.batches|].group.cancelled
      && s'.batches[|s.batches|].group.outstanding == |tasks|
      && (forall i :: 0 <= i < |tasks| ==> s'.batches[|s.batches|].status[i] == Waiting)
  {
  }

  /** Completing a task touches its own batch only: it settles that batch's
      group with the task's normalised result and records that result, and
      every other batch, its flag and its cancellation included, is unchanged. */
  lemma CompleteTouchesOnlyItsBatch(s: Scheduler, k: nat, result: TaskResult, err: Option<Error>)
    requires Enabled(s, Complete(k, result, err))
    ensures var s' := Step(s, Complete(k, result, err));
      var j := s.running[k];
      && |s'.batches| == |s.batches|
      && (forall b :: 0 <= b < |s.batches| && b != j.batch ==> s'.batches[b] == s.batches[b])
      && s'.batches[j.batch].group == Settle(s.batches[j.batch].group, Normalize(result, err))
      && s'.batches[j.batch].status[j.index] == Done(Normalize(result, err))
  {
  }

  /** A task whose body returned an error neither sets its group's flag nor
      cancels the group. */
  lemma ErrorCompletionNeverWins(s: Scheduler, k: nat, result: TaskResult, e: Error)
    requires Enabled(s, Complete(k, result, Some(e)))
    ensures var g := s.batches[s.running[k].batch].group;
      var g' := Step(s, Complete(k, result, Some(e))).batches[s.running[k].batch].group;
      g'.success == g.success && g'.cancelled == g.cancelled && g'.cancelCalls == g.cancelCalls
      && g'.outstanding == g.outstanding - 1
  {
    ErrorNeverSucceeds(result, e);
  }

  /** In a valid state every running execution can finish: its group's counter
      is positive, so the `Done` call never drives it negative. */
  lemma CompletionNeverBlocked(s: Scheduler, k: nat, result: TaskResult, err: Option<Error>)
    requires Valid(s) && k < |s.running|
    ensures Enabled(s, Complete(k, result, err))
  {
    var j := s.running[k];
    assert BatchOk(s.batches[j.batch]);
    UnfinishedPositive(s.batches[j.batch].status, j.index);
  }

  // ---------------------------------------------------------------------------
  // Scheduler.Wait

  /** As written, `Scheduler.Wait` can never return while the dispatch loop
      runs: the loop's own registration keeps `wg` at one or more in every
      reachable state, even with no task ever submitted. */
  lemma WaitNeverReturnsAsWritten(poolSize: nat, queueSize: nat, es: seq<Event>)
    ensures !WaitReturnsAsWritten(Run(Init(poolSize, queueSize), es))
  {
    ReachableIsValid(poolSize, queueSize, es);
  }

  /** With a counter of executions only, `Scheduler.Wait` returns exactly when
      no launched task is still executing. */
  lemma WaitReturnsWhenExecutionsFinish(s: Scheduler)
    requires Valid(s)
    ensures WaitReturns(s) <==>
      forall b, i :: 0 <= b < |s.batches| && 0 <= i < |s.batches[b].status| ==> !s.batches[b].status[i].Running?
  {
    if |s.running| > 0 {
      var j := s.running[0];
      assert JobIn(s, j) && StatusOf(s, j) == Running;
    }
  }
}
