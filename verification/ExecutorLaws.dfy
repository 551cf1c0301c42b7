/**
 What every helper and event of the executor's loop does, field by field, as the source has it: stated of
 the loop before and after, and not by way of other helpers. The methods of `DefaultExecutor` are proved
 equal to the functions that these laws are about.
 */
module ExecutorLaws {
  import opened Options
  import opened Tasks
  import opened ExecutorLoop
  import opened ExecutorRuns
  import opened ExecutorTheorems
  import R = ReadyLists

  /** Nothing changes but queues, tasks, timer, counters and history: what no helper touches. */
  ghost predicate SameLimits(l: Loop, m: Loop) {
    && m.now == l.now && m.capacity == l.capacity && m.concurrency == l.concurrency
    && m.panicked == l.panicked && m.broken == l.broken
  }

  /** `configureSchedulerTimer`: the timer is set for the first deadline, unless that was its last one. */
  lemma ConfigureLaw(l: Loop)
    ensures var m := Configure(l);
      if l.delayed != [] && l.Get(l.delayed[0]).nextRun != l.target
      then m == l.(timer := Some(l.Get(l.delayed[0]).nextRun), target := l.Get(l.delayed[0]).nextRun)
      else m == l
  {}

  /** The new task stands behind every one that is due no later, and before all others. */
  ghost predicate Between(l: Loop, before: seq<nat>, t: nat, after: seq<nat>) {
    && (forall k :: 0 <= k < |before| ==> l.Get(before[k]).nextRun <= l.Get(t).nextRun)
    && (after != [] ==> l.Get(t).nextRun < l.Get(after[0]).nextRun)
  }

  lemma {:induction false} InsertLaw(l: Loop, d: seq<nat>, t: nat) returns (before: seq<nat>, after: seq<nat>)
    ensures d == before + after && Insert(l, d, t) == before + [t] + after && Between(l, before, t, after)
  {
    before, after := [], d;
    if d != [] && l.Get(d[0]).nextRun <= l.Get(t).nextRun {
      before, after := InsertLaw(l, d[1..], t);
      before := [d[0]] + before;
      assert d == [d[0]] + d[1..];
    }
  }

  /** A task in hand: one that is not New is dropped. */
  lemma DroppedLaw(l: Loop, t: nat)
    requires !l.Get(t).status.New?
    ensures TryExecuteTask(l, t) == l
  {}

  /** One that is not due goes on the heap, with its handle, and the timer is configured. */
  lemma DelayedLaw(l: Loop, t: nat) returns (before: seq<nat>, after: seq<nat>)
    requires l.Get(t).status.New? && l.Get(t).nextRun > l.now
    ensures var m := TryExecuteTask(l, t);
      && l.delayed == before + after && m.delayed == before + [t] + after && Between(l, before, t, after)
      && m.sElem == l.sElem + {t} && m.tasks == l.tasks && m.ready == l.ready && m.qElem == l.qElem
      && m.running == l.running && m.live == l.live && m.phase == l.phase && SameLimits(l, m)
      && m.target == l.Get(m.delayed[0]).nextRun
      && m.timer == (if m.target != l.target then Some(m.target) else l.timer)
  {
    before, after := InsertLaw(l.(sElem := l.sElem + {t}), l.delayed, t);
    hide Insert;
    assert l.(sElem := l.sElem + {t}).Get(t) == l.Get(t);
  }

  /** One that is due waits in the ready list, with its handle, if all slots are taken. */
  lemma WaitingLaw(l: Loop, t: nat)
    requires l.Get(t).status.New? && l.Get(t).nextRun <= l.now && 0 <= l.concurrency <= l.running
    ensures TryExecuteTask(l, t) == l.(ready := l.ready + [t], qElem := l.qElem + {t})
  {}

  /** And otherwise it runs. */
  lemma RunningLaw(l: Loop, t: nat)
    requires l.Get(t).status.New? && l.Get(t).nextRun <= l.now && !(0 <= l.concurrency <= l.running)
    ensures var m := TryExecuteTask(l, t);
      && t in l.tasks && m.tasks == l.tasks[t := l.tasks[t].(status := Running)]
      && m.running == l.running + 1 && m.live == l.live + multiset{t}
      && m.ready == l.ready && m.qElem == l.qElem && m.delayed == l.delayed && m.sElem == l.sElem
      && m.timer == l.timer && m.target == l.target && m.phase == l.phase && SameLimits(l, m)
  {
    hide PushDelayed;
  }

  /** `tryRunNextTask` with nothing queued: an executor that was cancelled ends, or waits for what runs. */
  lemma NothingQueuedLaw(l: Loop)
    requires l.ready == l.delayed == []
    ensures TryRunNext(l) ==
      if l.phase.Active? || l.phase.Terminated? then l
      else if l.running > 0 then l.(phase := WaitingTermination)
      else l.(phase := Terminated, closes := l.closes + 1, exited := true)
  {
    hide TryExecuteTask;
  }

  /** With something queued: nothing happens without a ready task and a free slot. */
  lemma NothingToRunLaw(l: Loop)
    requires l.ready != [] || l.delayed != []
    requires l.ready == [] || 0 <= l.concurrency <= l.running || l.phase.Terminated?
    ensures TryRunNext(l) == l
  {
    hide TryExecuteTask;
  }

  /** Otherwise the first ready task leaves the list and is tried: it runs if it is New and due. */
  lemma NextTaskLaw(l: Loop)
    requires l.ready != [] && !(0 <= l.concurrency <= l.running) && !l.phase.Terminated?
    ensures var t, m := l.ready[0], TryRunNext(l);
      && m.ready == l.ready[1..] && m.qElem == l.qElem - {t} && m.phase == l.phase && SameLimits(l, m)
      && (!l.Get(t).status.New? ==> m.tasks == l.tasks && m.running == l.running && m.live == l.live)
      && (l.Get(t).status.New? && l.Get(t).nextRun <= l.now ==>
            && t in l.tasks && m.tasks == l.tasks[t := l.tasks[t].(status := Running)]
            && m.running == l.running + 1 && m.live == l.live + multiset{t})
  {
    var t := l.ready[0];
    var l0 := l.(ready := l.ready[1..], qElem := l.qElem - {t});
    assert TryRunNext(l) == TryExecuteTask(l0, t) by { hide TryExecuteTask; }
    PushFrame(l0.(sElem := l0.sElem + {t}), t);
    hide TryRunNext, PushDelayed;
  }

  /** The timer event with no due task: the timer is spent, and set for the first deadline if there is one
      and it is not the last one it was set for. */
  lemma EarlyTimerLaw(l: Loop)
    requires l.delayed == [] || l.Get(l.delayed[0]).nextRun > l.now
    ensures var m := OnTimer(l);
      if l.delayed != [] && l.Get(l.delayed[0]).nextRun != l.target
      then m == l.(timer := Some(l.Get(l.delayed[0]).nextRun), target := l.Get(l.delayed[0]).nextRun)
      else m == l.(timer := None)
  {
    hide TryExecuteTask;
  }

  /** With a due task: the first one, and only that one, leaves the heap and runs, waits or is dropped. */
  lemma DueTimerLaw(l: Loop)
    requires l.delayed != [] && l.Get(l.delayed[0]).nextRun <= l.now
    ensures var t, m := l.delayed[0], OnTimer(l);
      && m.delayed == l.delayed[1..] && m.sElem == l.sElem - {t} && m.phase == l.phase && SameLimits(l, m)
      && (if l.Get(t).status.New? && !(0 <= l.concurrency <= l.running)
          then && t in l.tasks && m.tasks == l.tasks[t := l.tasks[t].(status := Running)]
               && m.running == l.running + 1 && m.live == l.live + multiset{t}
          else m.tasks == l.tasks && m.running == l.running && m.live == l.live)
      && (if l.Get(t).status.New? && 0 <= l.concurrency <= l.running
          then m.ready == l.ready + [t] && m.qElem == l.qElem + {t}
          else m.ready == l.ready && m.qElem == l.qElem)
  {
    var m := DueTimer(l);
    ConfigureFrame(m);
    hide Configure, OnTimer;
  }

  /** Then the timer is set for the next deadline, unless that is the one it was set for. */
  lemma NextTimerLaw(l: Loop)
    requires l.delayed != [] && l.Get(l.delayed[0]).nextRun <= l.now
    ensures var m := OnTimer(l);
      if |l.delayed| >= 2 && l.Get(l.delayed[1]).nextRun != l.target
      then m.timer == Some(l.Get(l.delayed[1]).nextRun) && m.target == l.Get(l.delayed[1]).nextRun
      else m.timer == None && m.target == l.target
  {
    var m := DueTimer(l);
    hide OnTimer;
    assert forall x: nat :: m.Get(x).nextRun == l.Get(x).nextRun;
    assert m.delayed != [] ==> m.delayed[0] == l.delayed[1];
    ConfigureLaw(m);
    hide Configure;
  }

  /** The loop between the two. */
  lemma DueTimer(l: Loop) returns (m: Loop)
    requires l.delayed != [] && l.Get(l.delayed[0]).nextRun <= l.now
    ensures OnTimer(l) == Configure(m)
    ensures var t := l.delayed[0];
      && m.delayed == l.delayed[1..] && m.sElem == l.sElem - {t} && m.timer == None && m.target == l.target
      && m.phase == l.phase && SameLimits(l, m)
      && (if l.Get(t).status.New? && !(0 <= l.concurrency <= l.running)
          then && t in l.tasks && m.tasks == l.tasks[t := l.tasks[t].(status := Running)]
               && m.running == l.running + 1 && m.live == l.live + multiset{t}
          else m.tasks == l.tasks && m.running == l.running && m.live == l.live)
      && (if l.Get(t).status.New? && 0 <= l.concurrency <= l.running
          then m.ready == l.ready + [t] && m.qElem == l.qElem + {t}
          else m.ready == l.ready && m.qElem == l.qElem)
  {
    var t := l.delayed[0];
    var l0 := Stamp(l.(timer := None, delayed := l.delayed[1..], sElem := l.sElem - {t}), t);
    m := TryExecuteTask(l0, t);
    hide TryExecuteTask, Configure;
    assert OnTimer(l) == Configure(m);
    hide OnTimer;
    DueLaw(l0, t);
  }

  /** The three ways of a due task in one. */
  lemma DueLaw(l: Loop, t: nat)
    requires l.Get(t).nextRun <= l.now
    ensures var m := TryExecuteTask(l, t);
      && m.delayed == l.delayed && m.sElem == l.sElem && m.timer == l.timer && m.target == l.target
      && m.phase == l.phase && SameLimits(l, m)
      && (if l.Get(t).status.New? && !(0 <= l.concurrency <= l.running)
          then && t in l.tasks && m.tasks == l.tasks[t := l.tasks[t].(status := Running)]
               && m.running == l.running + 1 && m.live == l.live + multiset{t}
          else m.tasks == l.tasks && m.running == l.running && m.live == l.live)
      && (if l.Get(t).status.New? && 0 <= l.concurrency <= l.running
          then m.ready == l.ready + [t] && m.qElem == l.qElem + {t}
          else m.ready == l.ready && m.qElem == l.qElem)
  {
    if !l.Get(t).status.New? {
      DroppedLaw(l, t);
    } else if 0 <= l.concurrency <= l.running {
      WaitingLaw(l, t);
    } else {
      RunningLaw(l, t);
    }
    hide TryExecuteTask;
  }

  /** The first half of a completion: one less runs; a task that is Done or not periodic stays as it is, one
      that was cancelled is finished with that error. */
  lemma EndedLaw(l: Loop, t: nat)
    requires l.Get(t).status.Done? || l.Get(t).canceled || l.Get(t).kind.Once?
    ensures var m := Settle(l, t);
      m == l.(running := l.running - 1, tasks := m.tasks) &&
      if l.Get(t).status.Done? || !l.Get(t).canceled then m.tasks == l.tasks
      else && t in m.tasks && m.tasks == l.tasks[t := m.tasks[t]]
           && m.tasks[t].status.Done? && m.tasks[t].err.ContextCanceled?
           && m.tasks[t].kind == l.Get(t).kind && m.tasks[t].nextRun == l.Get(t).nextRun
  {
    hide Requeue;
  }

  /** A periodic one is New again, due a period after its last deadline or a delay after now, and goes to
      the end of the ready list if that has come already, and on the heap otherwise. */
  lemma AgainLaw(l: Loop, t: nat)
    requires t in l.tasks && l.tasks[t].status.Running? && !l.tasks[t].canceled && !l.tasks[t].kind.Once?
    ensures var m := Settle(l, t);
      var next := l.tasks[t].delay + if l.tasks[t].kind.FixedRate? then l.tasks[t].nextRun else l.now;
      && m.running == l.running - 1 && m.tasks == l.tasks[t := l.tasks[t].(status := New, nextRun := next)]
      && m.qElem == l.qElem && m.sElem == l.sElem && m.live == l.live && m.phase == l.phase && SameLimits(l, m)
      && (next <= l.now ==> m.ready == l.ready + [t] && m.delayed == l.delayed)
      && (next > l.now ==> m.ready == l.ready && multiset(m.delayed) == multiset(l.delayed) + multiset{t})
  {
    hide PushDelayed, Insert;
    var l0 := l.(running := l.running - 1);
    var l1 := l0.(tasks := l.tasks[t := ConfigureNextRun(l.tasks[t], l.now).task]);
    assert Settle(l, t) == Requeue(l0, t) by { hide Requeue; }
    hide Settle;
    RequeueCases(l0, t);
    hide Requeue;
    PushFrame(l1, t);
    InsertCounts(l1, l.delayed, t);
  }

  /** The completion event is that, and then the next task is tried. */
  lemma CompletedLaw(l: Loop, t: nat)
    ensures var m := Settle(l.(log := l.log + [Ended(t, l.now)]), t);
      OnCompleted(l, t) == TryRunNext(m) && m.running == l.running - 1
  {
    hide TryRunNext;
    SettleUnderCap(l.(log := l.log + [Ended(t, l.now)]), t);
    hide Settle;
  }

  /** `r` is `q` without its entry at `j`, which is `t`. */
  ghost predicate Without(q: seq<nat>, j: nat, t: nat, r: seq<nat>) {
    j < |q| && q[j] == t && r == q[..j] + q[j + 1..]
  }

  /** One `t` is out of the queue, and nothing else. */
  ghost predicate TakenOut(q: seq<nat>, t: nat, r: seq<nat>) {
    if t in q then exists j: nat :: Without(q, j, t, r) else r == q
  }

  lemma RemoveLaw(q: seq<nat>, t: nat)
    ensures TakenOut(q, t, Remove(q, t))
  {
    hide Remove;
    if t in q {
      var j := R.RemoveAt(q, t);
      assert Without(q, j, t, Remove(q, t));
    } else {
      R.RemoveAbsent(q, t);
    }
  }

  /** The cancel event: a task without an error gets the cancel error. With an empty ready list that is all;
      otherwise the task leaves the queues it has handles into, and a stale handle spoils the list. */
  lemma CanceledLaw(l: Loop, t: nat)
    requires t in l.tasks
    ensures var m := OnCanceled(l, t);
      && m.tasks == l.tasks[t := if l.tasks[t].err.NoError? then l.tasks[t].(err := ContextCanceled) else l.tasks[t]]
      && m.running == l.running && m.live == l.live && m.phase == l.phase && m.timer == l.timer
      && (l.ready == [] ==> m == l.(tasks := m.tasks))
      && (l.ready != [] && t in l.qElem && t !in l.ready ==> m == l.(tasks := m.tasks, broken := true))
      && (l.ready != [] && t in l.qElem && t in l.ready ==> TakenOut(l.ready, t, m.ready) && t !in m.qElem)
      && (l.ready != [] && t !in l.qElem ==> m.ready == l.ready)
      && (l.ready != [] && !(t in l.qElem && t !in l.ready) ==>
            if t in l.sElem then TakenOut(l.delayed, t, m.delayed) else m.delayed == l.delayed)
  {
    RemoveLaw(l.ready, t);
    RemoveLaw(l.delayed, t);
    hide Remove, TakenOut;
    CanceledFrame(l, t);
    CanceledHandle(l, t);
    hide OnCanceled;
  }

  lemma CanceledHandle(l: Loop, t: nat)
    ensures var m := OnCanceled(l, t);
      && (l.ready == [] ==> m.qElem == l.qElem && m.broken == l.broken)
      && (l.ready != [] && Stale(l, t) ==> m.broken && m.qElem == l.qElem)
      && (l.ready != [] && !Stale(l, t) ==> m.qElem == l.qElem - {t} && m.broken == l.broken)
  {
    hide Remove;
  }

  /** A change of the concurrency takes effect, and then ready tasks leave the list one by one. */
  lemma ConcurrencyLaw(l: Loop, n: int) returns (k: nat)
    ensures var m := OnUpdateConcurrency(l, n);
      m.concurrency == n && m.capacity == l.capacity && m.phase == l.phase && k <= |l.ready| && m.ready == l.ready[k..]
    ensures var m := OnUpdateConcurrency(l, n);
      m.ready != [] && !l.phase.Terminated? ==> 0 <= n <= m.running
  {
    k := DrainLaw(l.(concurrency := n));
  }

  lemma {:induction false} DrainLaw(l: Loop) returns (k: nat)
    ensures var m := Drain(l);
      && m.concurrency == l.concurrency && m.capacity == l.capacity && m.phase == l.phase
      && k <= |l.ready| && m.ready == l.ready[k..]
      && (m.ready != [] && !l.phase.Terminated? ==> 0 <= m.concurrency <= m.running)
    decreases |l.ready|
  {
    k := 0;
    if l.CanStart() && l.ready != [] && !l.phase.Terminated? {
      NextTaskLaw(l);
      hide TryRunNext;
      k := DrainLaw(TryRunNext(l));
      assert l.ready[1..][k..] == l.ready[k + 1..];
      k := k + 1;
    }
  }

  /** A change of the queue capacity takes effect, and does nothing else. */
  lemma CapacityLaw(l: Loop, n: int)
    ensures OnUpdateCapacity(l, n).capacity == n && OnUpdateCapacity(l, n) == l.(capacity := n)
  {}

  /** Cancelling the executor: once only; then it ends, waits, or goes on with what is queued. */
  lemma CancelLaw(l: Loop)
    ensures var m := OnCancel(l);
      && (!l.phase.Active? ==> m == l)
      && (l.phase.Active? && l.ready == l.delayed == [] && l.running > 0 ==> m == l.(phase := WaitingTermination))
      && (l.phase.Active? && l.ready == l.delayed == [] && l.running <= 0 ==>
            m == l.(phase := Terminated, closes := l.closes + 1, exited := true))
      && (l.phase.Active? && (l.ready != [] || l.delayed != []) ==> m.phase.ShuttingDown?)
  {
    var l0 := l.(phase := ShuttingDown);
    if l0.ready == l0.delayed == [] {
      NothingQueuedLaw(l0);
    } else if l0.ready == [] || !l0.CanStart() {
      NothingToRunLaw(l0);
    } else {
      NextTaskLaw(l0);
    }
    hide TryRunNext;
  }

  /** CancelNow hands back the ready tasks in their order, and then the delayed ones by deadline; nothing
      stays queued, and the executor ends, or waits for what runs. Once it waits or has ended, CancelNow
      does nothing. */
  lemma CancelNowLaw(l: Loop)
    ensures var (m, futures) := OnCancelNow(l);
      && (l.phase.WaitingTermination? || l.phase.Terminated? ==> m == l && futures == [])
      && (l.phase.Active? || l.phase.ShuttingDown? ==>
            futures == l.ready + l.delayed && m.ready == m.delayed == [] && m.tasks == l.tasks)
      && (l.phase.ShuttingDown? && l.running > 0 ==> m.phase.WaitingTermination? && m.closes == l.closes)
      && (l.phase.ShuttingDown? && l.running <= 0 ==> m.phase.Terminated? && m.closes == l.closes + 1 && m.exited)
  {
    NothingQueuedLaw(l.(ready := [], delayed := [],
                        phase := if l.phase.ShuttingDown? then WaitingTermination else l.phase));
    hide TryRunNext;
  }

  /** The end of a body: a failed one, or one that is not periodic, finishes its task with its error. */
  lemma FinishLaw(s: System, t: nat, err: Error)
    requires Enabled(s, FinishBody(t, err))
    ensures var s' := Apply(s, FinishBody(t, err));
      && s'.completions == s.completions + multiset{t} && s'.l.live == s.l.live - multiset{t}
      && (if !s.l.tasks[t].status.Done? && (err != NoError || s.l.tasks[t].kind.Once?)
          then && t in s'.l.tasks && s'.l.tasks[t].status.Done? && s'.l.tasks[t].err == err
               && s'.l.tasks == s.l.tasks[t := s'.l.tasks[t]]
          else s'.l.tasks == s.l.tasks)
  {
    hide LoopNext;
    assert s.l.tasks[t := s.l.tasks[t]] == s.l.tasks;
  }
}
