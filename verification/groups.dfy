/**
  The per-batch shared state (Go's `taskGroup`): the write-once success flag
  set by compare-and-swap, the cancellation triggered by the flag's winner, and
  the WaitGroup counter of tasks not yet finished.
 */
module Groups {
  import opened Wrappers
  import opened Outcomes

  /** `taskGroup`. The context is reduced to `cancelled` plus the number of
      times its cancel function was called; `outstanding` is the WaitGroup
      counter that `Batch.Wait` blocks on. */
  datatype Group = Group(success: bool, cancelled: bool, cancelCalls: nat, outstanding: int)

  /** A WaitGroup keeps its counter in 32 bits: `Add` works modulo 2^32 and
      reads the sum as an `int32`. */
  const WaitGroupModulus: int := 0x1_0000_0000
  /** The largest value the 32-bit counter can hold. */
  const MaxWaitGroupCount: int := 0x7fff_ffff

  /** The group `SubmitBatch` creates for `taskCount` tasks: a fresh context, a
      false flag, and a counter raised by `wg.Add(len(tasks))`. That `Add`
      panics (None) when the 32-bit sum reads as negative. Any other count of
      2^32 or more wraps silently to its residue modulo 2^32. */
  function NewGroup(taskCount: nat): (r: Option<Group>)
    ensures r.Some? <==> taskCount % WaitGroupModulus <= MaxWaitGroupCount
    ensures r.Some? ==> CancelMatchesSuccess(r.value) && !r.value.success
    ensures r.Some? ==> r.value.outstanding == taskCount % WaitGroupModulus
    ensures taskCount <= MaxWaitGroupCount ==> r.Some? && r.value.outstanding == taskCount
  {
    var counter := taskCount % WaitGroupModulus;
    if counter <= MaxWaitGroupCount then Some(Group(false, false, 0, counter)) else None
  }

  /** The cancellation protocol's invariant: the context is cancelled exactly
      when the flag is set, and cancel was called once if so and never otherwise. */
  predicate CancelMatchesSuccess(g: Group) {
    && g.cancelled == g.success
    && g.cancelCalls == (if g.success then 1 else 0)
  }

  /** `atomic.Bool.CompareAndSwap(false, true)`: the new flag, and whether
      this caller performed the swap. */
  function SetFlag(flag: bool): (r: (bool, bool))
    ensures r.0
    ensures r.1 <==> !flag
  {
    if flag then (true, false) else (true, true)
  }

  /** What one finished execution does to its group: if its normalised result
      is a success it tries the CAS and, only when it wins, cancels the group;
      then, whatever the outcome, it calls `Done` once. A negative WaitGroup
      counter makes Go panic, hence the precondition. */
  function Settle(g: Group, r: TaskResult): (g': Group)
    requires g.outstanding > 0
    ensures g'.outstanding == g.outstanding - 1
    ensures g'.success <==> g.success || IsSuccess(r)
    ensures g.success ==> g'.cancelled == g.cancelled && g'.cancelCalls == g.cancelCalls
    ensures g.cancelled ==> g'.cancelled
    ensures g'.cancelCalls <= g.cancelCalls + 1
    ensures CancelMatchesSuccess(g) ==> CancelMatchesSuccess(g')
  {
    var g1 :=
      if IsSuccess(r) then
        var (flag, won) := SetFlag(g.success);
        if won then g.(success := flag, cancelled := true, cancelCalls := g.cancelCalls + 1)
        else g.(success := flag)
      else g;
    g1.(outstanding := g1.outstanding - 1)
  }

  /** The group after the executions with normalised results `rs` have
      finished, in that order. */
  function SettleAll(g: Group, rs: seq<TaskResult>): (g': Group)
    requires g.outstanding >= |rs|
    decreases |rs|
  {
    if |rs| == 0 then g else SettleAll(Settle(g, rs[0]), rs[1..])
  }

  /** Some result in `rs` satisfies the success predicate. */
  predicate SomeSuccess(rs: seq<TaskResult>) {
    exists i :: 0 <= i < |rs| && IsSuccess(rs[i])
  }

  /** Settling a sequence of results lowers the counter by its length, sets the
      flag exactly when it was set already or one of the results succeeds, and
      keeps cancellation tied to the flag. */
  lemma {:induction false} SettleAllEffect(g: Group, rs: seq<TaskResult>)
    requires g.outstanding >= |rs|
    requires CancelMatchesSuccess(g)
    ensures SettleAll(g, rs).outstanding == g.outstanding - |rs|
    ensures SettleAll(g, rs).success <==> g.success || SomeSuccess(rs)
    ensures CancelMatchesSuccess(SettleAll(g, rs))
    decreases |rs|
  {
    if |rs| > 0 {
      var g1 := Settle(g, rs[0]);
      SettleAllEffect(g1, rs[1..]);
      if SomeSuccess(rs[1..]) {
        var i :| 0 <= i < |rs[1..]| && IsSuccess(rs[1..][i]);
        assert IsSuccess(rs[i + 1]);
      }
      if SomeSuccess(rs) && !IsSuccess(rs[0]) {
        var i :| 0 <= i < |rs| && IsSuccess(rs[i]);
        assert rs[1..][i - 1] == rs[i];
      }
    }
  }

  /** Once every task of a batch has finished, whatever the results and their
      order: the counter is zero, the flag says whether some result
      succeeded, and cancel was called exactly once if so and never otherwise. */
  lemma BatchResolves(rs: seq<TaskResult>)
    requires |rs| <= MaxWaitGroupCount
    ensures NewGroup(|rs|).Some?
    ensures SettleAll(NewGroup(|rs|).value, rs).outstanding == 0
    ensures SettleAll(NewGroup(|rs|).value, rs).success <==> SomeSuccess(rs)
    ensures SettleAll(NewGroup(|rs|).value, rs).cancelCalls == (if SomeSuccess(rs) then 1 else 0)
    ensures SettleAll(NewGroup(|rs|).value, rs).cancelled <==> SomeSuccess(rs)
  {
    SettleAllEffect(NewGroup(|rs|).value, rs);
  }

  /** The finished group depends only on which results occurred, not on the
      order in which the executions finished. */
  lemma CompletionOrderIrrelevant(g: Group, rs: seq<TaskResult>, rs': seq<TaskResult>)
    requires g.outstanding >= |rs|
    requires CancelMatchesSuccess(g)
    requires multiset(rs) == multiset(rs')
    ensures |rs'| == |rs| && SettleAll(g, rs) == SettleAll(g, rs')
  {
    assert |rs| == |multiset(rs)| == |rs'|;
    SettleAllEffect(g, rs);
    SettleAllEffect(g, rs');
    if SomeSuccess(rs) {
      var i :| 0 <= i < |rs| && IsSuccess(rs[i]);
      assert rs[i] in multiset(rs');
      var j :| 0 <= j < |rs'| && rs'[j] == rs[i];
    }
    if SomeSuccess(rs') {
      var i :| 0 <= i < |rs'| && IsSuccess(rs'[i]);
      assert rs'[i] in multiset(rs);
      var j :| 0 <= j < |rs| && rs[j] == rs'[i];
    }
  }
}
