/**
 Work conservation and order of the executor: while no task in the ready list is cancelled, the
 loop never waits with a ready task and a free slot, and tasks start in the order they came due.
 */
module ExecutorOrder {
  import opened Options
  import opened Tasks
  import opened ExecutorLoop
  import opened ExecutorRuns
  import opened ExecutorTheorems

  /** The hypothesis: no task in the ready list has been cancelled. */
  ghost predicate ReadyLive(l: Loop) {
    forall t :: t in l.ready ==> l.Get(t).Runnable()
  }

  /** Work conservation. */
  ghost predicate NoIdle(l: Loop) {
    l.ready != [] ==> 0 <= l.concurrency <= l.running
  }

  ghost predicate ReadyDue(l: Loop) {
    forall t :: t in l.ready && l.Get(t).Runnable() ==> l.Get(t).Delay(l.now) <= 0
  }

  ghost predicate StampsAscend(stamp: map<nat, nat>, ready: seq<nat>, above: int, below: int) {
    && (forall i :: 0 <= i < |ready| ==> ready[i] in stamp && above < stamp[ready[i]] < below)
    && (forall i, j :: 0 <= i < j < |ready| ==> stamp[ready[i]] < stamp[ready[j]])
  }

  /** The stamp of the last start in the log. */
  function LastStart(log: seq<Mark>): int {
    if log == [] then -1
    else if log[|log| - 1].Started? then log[|log| - 1].stamp
    else LastStart(log[..|log| - 1])
  }

  /** Tasks have been started in the order of their stamps. */
  ghost predicate StartsAscend(log: seq<Mark>) {
    forall j, k :: 0 <= j < k < |log| && log[j].Started? && log[k].Started? ==>
      log[j].stamp < log[k].stamp
  }

  ghost predicate StartsUpTo(log: seq<Mark>, bound: int) {
    forall k :: 0 <= k < |log| && log[k].Started? ==> log[k].stamp <= bound
  }

  /** The ready list is in stamp order, behind everything that was started. */
  ghost predicate Fifo(l: Loop) {
    && StartsAscend(l.log) && StartsUpTo(l.log, LastStart(l.log)) && LastStart(l.log) < l.arrivals
    && StampsAscend(l.stamp, l.ready, LastStart(l.log), l.arrivals)
  }

  ghost predicate Orderly(l: Loop) { Fifo(l) && ReadyDue(l) && NoIdle(l) }

  // ---------- the pieces of a loop step ----------

  lemma LogMark(log: seq<Mark>, m: Mark)
    ensures !m.Started? ==> LastStart(log + [m]) == LastStart(log)
    ensures m.Started? ==> LastStart(log + [m]) == m.stamp
    ensures StartsAscend(log) && StartsUpTo(log, LastStart(log)) &&
            (m.Started? ==> LastStart(log) < m.stamp)
            ==> StartsAscend(log + [m]) && StartsUpTo(log + [m], LastStart(log + [m]))
  {
    assert (log + [m])[..|log|] == log;
  }

  lemma AppendAscends(stamp: map<nat, nat>, ready: seq<nat>, t: nat, above: int, below: int)
    requires StampsAscend(stamp, ready, above, below) && t in stamp && above < stamp[t] < below
    requires forall i :: 0 <= i < |ready| ==> stamp[ready[i]] < stamp[t]
    ensures StampsAscend(stamp, ready + [t], above, below)
  {}

  /** A task in hand whose stamp follows every start and precedes the ready list. */
  lemma TryExecuteFifo(l: Loop, t: nat)
    requires Fifo(l) && t !in l.ready && t in l.stamp && LastStart(l.log) < l.stamp[t] < l.arrivals
    requires if l.CanStart() then StampsAscend(l.stamp, l.ready, l.stamp[t], l.arrivals)
             else forall i :: 0 <= i < |l.ready| ==> l.stamp[l.ready[i]] < l.stamp[t]
    ensures Fifo(TryExecuteTask(l, t))
  {
    LogMark(l.log, Scheduled(t, l.Deadline(t)));
    LogMark(l.log, Started(t, l.now, l.stamp[t]));
    if !l.CanStart() { AppendAscends(l.stamp, l.ready, t, LastStart(l.log), l.arrivals); }
    PushFrame(l.(sElem := l.sElem + {t}), t);
    hide StartsAscend, StartsUpTo, LastStart, StampsAscend, PushDelayed, Insert;
  }

  lemma ArriveFifo(l: Loop, t: nat)
    requires Fifo(l) && NoIdle(l) && t !in l.ready
    ensures Fifo(Arrive(l, t))
  {
    var l0 := Stamp(l, t);
    assert forall i :: 0 <= i < |l0.ready| ==> l0.ready[i] in l.ready && l0.stamp[l0.ready[i]] == l.stamp[l0.ready[i]];
    TryExecuteFifo(l0, t);
  }

  lemma ArriveBusy(l: Loop, t: nat)
    requires ReadyDue(l) && NoIdle(l) && t !in l.ready
    ensures ReadyDue(Arrive(l, t)) && NoIdle(Arrive(l, t))
  {
    hide Insert;
    TryExecuteDue(Stamp(l, t), t);
    PushFrame(Stamp(l, t).(sElem := l.sElem + {t}), t);
    hide PushDelayed, ReadyDue;
  }

  lemma ArriveOrderly(l: Loop, t: nat)
    requires Orderly(l) && t !in l.ready
    ensures Orderly(Arrive(l, t))
  {
    ArriveFifo(l, t);
    ArriveBusy(l, t);
  }

  lemma TryRunNextFifo(l: Loop)
    requires Fifo(l)
    ensures Fifo(TryRunNext(l))
  {
    if !l.phase.Terminated? && l.ready != [] && l.CanStart() {
      var t := l.ready[0];
      var l0 := l.(ready := l.ready[1..], qElem := l.qElem - {t});
      assert TryRunNext(l) == TryExecuteTask(l0, t);
      assert StampsAscend(l.stamp, l0.ready, l.stamp[t], l.arrivals);
      hide TryRunNext, TryExecuteTask, StartsAscend, StartsUpTo, LastStart;
      TryExecuteFifo(l0, t);
    } else {
      hide StartsAscend, StartsUpTo, LastStart, StampsAscend;
    }
  }

  /** The ready list keeps to due tasks when none becomes runnable and none is added undue. */
  lemma StillDue(l: Loop, l': Loop)
    requires ReadyDue(l) && l'.now == l.now
    requires forall t :: t in l'.ready ==>
      (t in l.ready && l'.Get(t) == l.Get(t)) || (l'.Get(t).Runnable() ==> l'.Get(t).Delay(l.now) <= 0)
    ensures ReadyDue(l')
  {}

  lemma TryExecuteDue(l: Loop, t: nat)
    requires ReadyDue(l)
    ensures ReadyDue(TryExecuteTask(l, t))
  {
    var l0 := l.(sElem := l.sElem + {t});
    hide PushDelayed, Insert;
    if !l.Get(t).Runnable() {
    } else if l.Get(t).Delay(l.now) > 0 {
      assert TryExecuteTask(l, t) == PushDelayed(l0, t);
      PushFrame(l0, t);
      hide TryExecuteTask;
      StillDue(l, PushDelayed(l0, t));
    } else if !l.CanStart() {
      var l' := l.(ready := l.ready + [t], qElem := l.qElem + {t});
      assert TryExecuteTask(l, t) == l';
      hide TryExecuteTask;
      StillDue(l, l');
    } else {
      var l' := ExecuteTask(l, t);
      assert TryExecuteTask(l, t) == l' && l'.now == l.now && l'.ready == l.ready;
      assert l'.tasks == l.tasks[t := l.Get(t).(status := Running)];
      hide TryExecuteTask, ExecuteTask;
      StillDue(l, l');
    }
  }

  lemma TryRunNextDue(l: Loop)
    requires ReadyDue(l)
    ensures ReadyDue(TryRunNext(l))
  {
    if !l.phase.Terminated? && l.ready != [] && l.CanStart() {
      var t := l.ready[0];
      var l0 := l.(ready := l.ready[1..], qElem := l.qElem - {t});
      assert TryRunNext(l) == TryExecuteTask(l0, t);
      StillDue(l, l0);
      TryExecuteDue(l0, t);
    } else {
      assert TryRunNext(l).tasks == l.tasks && TryRunNext(l).ready == l.ready;
      StillDue(l, TryRunNext(l));
    }
  }

  /** One pop restores work conservation after one slot came free, if the head is runnable. */
  lemma TryRunNextBusy(l: Loop)
    requires ReadyDue(l) && !l.phase.Terminated?
    requires l.ready != [] && l.concurrency >= 0 ==> l.running >= l.concurrency - 1 || |l.ready| == 1
    requires l.concurrency < 0 ==> |l.ready| <= 1
    ensures NoIdle(TryRunNext(l)) <==>
            !(l.CanStart() && |l.ready| >= 2 && !l.Get(l.ready[0]).Runnable())
  {
    if l.ready != [] && l.CanStart() {
      var t := l.ready[0];
      assert t in l.ready;
      assert l.Get(t).Runnable() ==> l.Get(t).Delay(l.now) <= 0;
      var l' := TryRunNext(l);
      assert l'.ready == l.ready[1..];
      assert l'.running == l.running + if l.Get(t).Runnable() then 1 else 0;
    }
  }

  lemma {:induction false} DrainOrderly(l: Loop)
    requires Fifo(l) && ReadyDue(l) && !l.phase.Terminated?
    ensures Orderly(Drain(l))
    decreases |l.ready|
  {
    if l.CanStart() && l.ready != [] {
      TryRunNextFifo(l);
      TryRunNextDue(l);
      DrainOrderly(TryRunNext(l));
    }
  }

  /** What the completion event can do to the ready list before the next task is tried. */
  ghost predicate Settled(l: Loop, l': Loop, t: nat) {
    && l'.now == l.now && l'.phase == l.phase
    && (forall x: nat :: x != t ==> l'.Get(x) == l.Get(x))
    && (|| (l'.ready == l.ready && l'.stamp == l.stamp && l'.arrivals == l.arrivals &&
            (l'.log == l.log || l'.log == l.log + [Scheduled(t, l'.Deadline(t))]))
        || (l'.ready == l.ready + [t] && l'.stamp == l.stamp[t := l.arrivals] && l'.log == l.log
            && l'.arrivals == l.arrivals + 1 && l'.Get(t).Runnable() && l'.Get(t).Delay(l.now) <= 0))
  }

  lemma RequeueShape(l: Loop, t: nat)
    requires l.Get(t).Periodic() && !l.Get(t).canceled
    ensures Settled(l, Requeue(l, t), t)
  {
    if !l.Get(t).status.Running? { return; }
    RequeueCases(l, t);
    PushFrame(l.(tasks := l.tasks[t := ConfigureNextRun(l.Get(t), l.now).task]), t);
    hide Requeue, PushDelayed, Insert;
  }

  lemma SettleShape(l: Loop, t: nat)
    ensures Settled(l, Settle(l, t), t)
  {
    var l0 := l.(running := l.running - 1);
    if !l.Get(t).status.Done? && !l.Get(t).canceled && l.Get(t).Periodic() {
      RequeueShape(l0, t);
      assert Settle(l, t) == Requeue(l0, t);
    }
  }

  lemma SettleFifo(l: Loop, t: nat)
    requires Fifo(l) && t !in l.ready
    ensures Fifo(Settle(l, t))
  {
    SettleShape(l, t);
    var l' := Settle(l, t);
    LogMark(l.log, Scheduled(t, l'.Deadline(t)));
    if l'.ready == l.ready + [t] {
      assert forall i :: 0 <= i < |l.ready| ==> l.ready[i] in l.ready && l'.stamp[l.ready[i]] == l.stamp[l.ready[i]];
    }
  }

  lemma SettleDue(l: Loop, t: nat)
    requires ReadyDue(l) && t !in l.ready
    ensures ReadyDue(Settle(l, t))
    ensures Settle(l, t).ready == l.ready ||
            (Settle(l, t).ready == l.ready + [t] && Settle(l, t).Get(t).Runnable())
    ensures forall x :: x in l.ready ==> Settle(l, t).Get(x) == l.Get(x)
    ensures Settle(l, t).phase == l.phase
  {
    SettleShape(l, t);
  }

  /** A periodic task whose run has ended is due again at once. */
  predicate ComesBack(l: Loop, t: nat) {
    && l.Get(t).status.Running? && !l.Get(t).canceled && l.Get(t).Periodic()
    && ConfigureNextRun(l.Get(t), l.now).task.Delay(l.now) <= 0
  }

  /** The end of a run of `t` frees a slot, and the task at the head of the ready list was cancelled: it
      is dropped, and the one behind it, if there is one, is not tried. */
  predicate Idles(l: Loop, t: nat) {
    && (l.concurrency < 0 || l.running - 1 < l.concurrency) && l.ready != [] && !l.Get(l.ready[0]).Runnable()
    && (|l.ready| >= 2 || ComesBack(l, t))
  }

  lemma SettleReady(l: Loop, t: nat)
    ensures Settle(l, t).ready == l.ready + (if ComesBack(l, t) then [t] else [])
  {
    var l0 := l.(running := l.running - 1);
    hide Insert, PushDelayed;
    if l.Get(t).status.Running? && !l.Get(t).canceled && l.Get(t).Periodic() {
      var l1 := l0.(tasks := l.tasks[t := ConfigureNextRun(l.Get(t), l.now).task]);
      assert Settle(l, t) == Requeue(l0, t) by { hide Requeue; }
      hide Settle;
      RequeueCases(l0, t);
      hide Requeue;
      PushFrame(l1, t);
    }
  }

  /** Exactly when a completion leaves a slot idle although tasks are ready. */
  lemma CompletionIdlesExactly(l: Loop, t: nat)
    requires ReadyDue(l) && NoIdle(l) && t !in l.ready && !l.phase.Terminated?
    ensures NoIdle(OnCompleted(l, t)) <==> !Idles(l, t)
  {
    var l0 := l.(log := l.log + [Ended(t, l.now)]);
    var m := Settle(l0, t);
    assert OnCompleted(l, t) == TryRunNext(m);
    hide Settle, OnCompleted, TryRunNext;
    SettleDue(l0, t);
    SettleUnderCap(l0, t);
    SettleReady(l0, t);
    assert l.ready != [] ==> m.ready[0] == l.ready[0] && l.ready[0] in l.ready;
    TryRunNextBusy(m);
  }

  /** The order is kept, idle slot or not. */
  lemma CompletedOrderly(l: Loop, t: nat)
    requires Fifo(l) && ReadyDue(l) && t !in l.ready
    ensures Fifo(OnCompleted(l, t)) && ReadyDue(OnCompleted(l, t))
  {
    var l0 := l.(log := l.log + [Ended(t, l.now)]);
    LogMark(l.log, Ended(t, l.now));
    assert OnCompleted(l, t) == TryRunNext(Settle(l0, t));
    assert Fifo(l0) && ReadyDue(l0);
    hide Settle, OnCompleted, TryRunNext, Fifo, ReadyDue;
    SettleFifo(l0, t);
    SettleDue(l0, t);
    TryRunNextFifo(Settle(l0, t));
    TryRunNextDue(Settle(l0, t));
  }

  lemma {:induction false} RemoveAscends(stamp: map<nat, nat>, s: seq<nat>, t: nat, above: int, below: int)
    requires StampsAscend(stamp, s, above, below)
    ensures StampsAscend(stamp, Remove(s, t), above, below)
    ensures forall x :: x in Remove(s, t) ==> x in s
  {
    if s != [] && s[0] != t {
      var lo := stamp[s[0]];
      assert StampsAscend(stamp, s[1..], lo, below);
      RemoveAscends(stamp, s[1..], t, lo, below);
    }
  }

  lemma CanceledOrderly(l: Loop, t: nat)
    requires Orderly(l) && t in l.tasks
    ensures Orderly(OnCanceled(l, t))
  {
    RemoveAscends(l.stamp, l.ready, t, LastStart(l.log), l.arrivals);
    CanceledFrame(l, t);
    var l' := OnCanceled(l, t);
    hide OnCanceled, StartsAscend, StartsUpTo, LastStart, StampsAscend;
    assert Fifo(l');
    forall x | x in l'.ready && l'.Get(x).Runnable() ensures l'.Get(x).Delay(l'.now) <= 0 {
      assert x in l.ready;
    }
  }

  // ---------- steps and runs ----------

  /** A task in an event, in the heap or new to the system is not in the ready list. */
  lemma NotReady(s: System, t: nat)
    requires Conserved(s)
    requires t in s.submits || t in s.completions || t in s.l.delayed || t !in s.l.tasks
    ensures t !in s.l.ready
  {
    assert OwnedOnce(s.l, s.submits + s.returned, s.completions, t);
  }

  lemma ConfigureOrderly(l: Loop)
    requires Orderly(l)
    ensures Orderly(Configure(l))
  {}

  lemma DueOrderly(s: System)
    requires Conserved(s) && Orderly(s.l) && s.l.delayed != []
    ensures var t := s.l.delayed[0];
      Orderly(Configure(Arrive(s.l.(timer := None, delayed := s.l.delayed[1..],
                                    sElem := s.l.sElem - {t}), t)))
  {
    var l, t := s.l, s.l.delayed[0];
    NotReady(s, t);
    var l0 := l.(timer := None, delayed := l.delayed[1..], sElem := l.sElem - {t});
    ArriveOrderly(l0, t);
    ConfigureOrderly(Arrive(l0, t));
  }

  lemma TimerOrderly(s: System)
    requires Conserved(s) && Orderly(s.l)
    ensures Orderly(OnTimer(s.l))
  {
    var l := s.l;
    if l.delayed == [] || l.Deadline(l.delayed[0]) > l.now {
      ConfigureOrderly(l.(timer := None));
    } else {
      DueOrderly(s);
    }
  }

  /** The steps that leave a slot idle although tasks are ready. */
  predicate IdlesNext(s: System, step: Step) { step.DeliverCompletion? && Idles(s.l, step.t) }

  lemma LoopStepOrderly(s: System, step: Step)
    requires Conserved(s) && Lifecycle(s.l) && Orderly(s.l) && Enabled(s, step) && step.IsLoopStep()
    ensures var l' := Apply(s, step).l; Fifo(l') && ReadyDue(l') && (NoIdle(l') <==> !IdlesNext(s, step))
  {
    var l := s.l;
    assert step.DeliverCancel? ==> step.t in l.tasks;
    hide Conserved, ClientNext, OnTimer, OnSubmitted, OnCompleted, OnCanceled, OnCancel, OnCancelNow, Drain;
    hide Fifo, ReadyDue, NoIdle, Idles;
    match step
    case TimerFires => TimerOrderly(s);
    case DeliverSubmit(t) => NotReady(s, t); SubmittedOrderly(l, t);
    case DeliverCompletion(t) => NotReady(s, t); CompletedOrderly(l, t); CompletionIdlesExactly(l, t);
    case DeliverCancel(t) => CanceledOrderly(l, t);
    case SetConcurrency(n) => ConcurrencyOrderly(l, n);
    case SetCapacity(n) => CapacityOrderly(l, n);
    case CancelExecutor => CancelOrderly(l);
    case CancelNow => CancelNowOrderly(l);
  }

  lemma SubmittedOrderly(l: Loop, t: nat)
    requires Orderly(l) && t !in l.ready
    ensures Orderly(OnSubmitted(l, t))
  {
    hide Orderly, Arrive;
    ArriveOrderly(l, t);
  }

  lemma ConcurrencyOrderly(l: Loop, n: int)
    requires Fifo(l) && ReadyDue(l) && !l.phase.Terminated?
    ensures Orderly(OnUpdateConcurrency(l, n))
  {
    FifoFrame(l, l.(concurrency := n));
    hide Fifo;
    assert ReadyDue(l.(concurrency := n));
    hide ReadyDue, Drain;
    DrainOrderly(l.(concurrency := n));
  }

  lemma CapacityOrderly(l: Loop, n: int)
    requires Orderly(l)
    ensures Orderly(OnUpdateCapacity(l, n))
  {
    FifoFrame(l, l.(capacity := n));
    hide Fifo;
  }

  lemma FifoFrame(l: Loop, l': Loop)
    requires Fifo(l) && l'.log == l.log && l'.arrivals == l.arrivals && l'.stamp == l.stamp && l'.ready == l.ready
    ensures Fifo(l')
  {
    hide StartsAscend, StartsUpTo, LastStart, StampsAscend;
  }

  /** A cancelled executor starts nothing: no slot was free for a ready task. */
  lemma CancelFrame(l: Loop)
    requires NoIdle(l) && !l.phase.Canceled()
    ensures OnCancel(l) == l.(phase := OnCancel(l).phase, closes := OnCancel(l).closes, exited := OnCancel(l).exited)
  {
    hide TryExecuteTask;
  }

  lemma CancelOrderly(l: Loop)
    requires Orderly(l)
    ensures Orderly(OnCancel(l))
  {
    if !l.phase.Canceled() {
      var l0 := l.(phase := ShuttingDown);
      CancelFrame(l);
      hide OnCancel;
      FifoFrame(l, OnCancel(l));
    }
  }

  lemma CancelNowOrderly(l: Loop)
    requires Orderly(l)
    ensures Orderly(OnCancelNow(l).0)
  {
    var l' := OnCancelNow(l).0;
    assert l'.log == l.log && l'.arrivals == l.arrivals && (l' == l || l'.ready == []);
  }

  /** No client step makes a task runnable again or moves its deadline. */
  lemma ClientStepTask(s: System, step: Step, t: nat)
    requires Enabled(s, step) && !step.IsLoopStep() && t in s.l.tasks
    ensures var l' := Apply(s, step).l;
      l'.Get(t).Runnable() ==> s.l.Get(t).Runnable() && l'.Get(t).nextRun == s.l.Get(t).nextRun
  {}

  lemma ClientStepOrderly(s: System, step: Step)
    requires Conserved(s) && Orderly(s.l) && Enabled(s, step) && !step.IsLoopStep()
    ensures Orderly(Apply(s, step).l)
  {
    if step.Submit? { NotReady(s, step.t); }
    var l, l' := s.l, Apply(s, step).l;
    assert l'.ready == l.ready && l'.log == l.log && l'.stamp == l.stamp && l'.arrivals == l.arrivals
      && l'.concurrency == l.concurrency && l'.running == l.running && l.now <= l'.now;
    assert Fifo(l') && NoIdle(l');
    ClientStepDue(s, step);
  }

  lemma ClientStepDue(s: System, step: Step)
    requires Conserved(s) && ReadyDue(s.l) && Enabled(s, step) && !step.IsLoopStep()
    ensures ReadyDue(Apply(s, step).l)
  {
    var l, l' := s.l, Apply(s, step).l;
    assert l'.ready == l.ready && l.now <= l'.now;
    forall t | t in l'.ready && l'.Get(t).Runnable() ensures l'.Get(t).Delay(l'.now) <= 0 {
      if t !in l.tasks { NotReady(s, t); }
      ClientStepTask(s, step, t);
      assert l.Get(t).Delay(l.now) <= 0;
    }
  }

  /** Order and due times are kept by every step; and from a state that is in order and without an idle
      slot, a step leaves a slot idle with tasks ready if and only if it is one of `IdlesNext`. */
  lemma StepIdlesExactly(s: System, step: Step)
    requires Conserved(s) && Lifecycle(s.l) && Orderly(s.l) && Enabled(s, step)
    ensures var l' := Apply(s, step).l; Fifo(l') && ReadyDue(l') && (NoIdle(l') <==> !IdlesNext(s, step))
  {
    hide Conserved, Apply, Idles, Fifo, ReadyDue, NoIdle;
    if step.IsLoopStep() {
      LoopStepOrderly(s, step);
    } else {
      ClientStepOrderly(s, step);
    }
  }

  /** One of the first `i` steps was in `IdlesNext`. */
  ghost predicate IdlesBefore(states: seq<System>, steps: seq<Step>, i: nat)
    requires i <= |states| && i <= |steps|
  {
    exists k :: 0 <= k < i && IdlesNext(states[k], steps[k])
  }

  /** One of the states up to `i` had an idle slot and a ready task. */
  ghost predicate IdleUpTo(states: seq<System>, i: nat)
    requires i < |states|
  {
    exists k :: 0 <= k <= i && !NoIdle(states[k].l)
  }

  lemma OneMoreState(states: seq<System>, steps: seq<Step>, i: nat)
    requires i < |steps| && i + 1 < |states|
    ensures IdlesBefore(states, steps, i + 1) <==> IdlesBefore(states, steps, i) || IdlesNext(states[i], steps[i])
    ensures IdleUpTo(states, i + 1) <==> IdleUpTo(states, i) || !NoIdle(states[i + 1].l)
  {
    hide IdlesNext, NoIdle;
  }

  /** Over every run: a state in which a task is ready and a slot is free has been reached if and only if
      one of the steps so far was a completion that met a cancelled task at the head of the ready list,
      with another one behind it. Until then the tasks were started in the order in which they came due. */
  lemma {:induction false} RunIdlesExactly(states: seq<System>, steps: seq<Step>, i: nat)
    requires IsRun(states, steps) && i < |states|
    ensures IdleUpTo(states, i) <==> IdlesBefore(states, steps, i)
    ensures !IdleUpTo(states, i) ==> Orderly(states[i].l)
  {
    if i > 0 {
      var k := i - 1;
      assert IsStep(states[k], steps[k], states[i]);
      hide IsRun, Conserved, Lifecycle, Apply, Enabled, IdlesNext, Fifo, ReadyDue, NoIdle, IdlesBefore, IdleUpTo;
      RunConserves(states, steps, k);
      RunLifecycle(states, steps, k);
      RunIdlesExactly(states, steps, k);
      if !IdleUpTo(states, k) { StepIdlesExactly(states[k], steps[k]); }
      OneMoreState(states, steps, k);
    } else {
      assert Orderly(states[0].l);
      assert forall k :: 0 <= k <= 0 ==> NoIdle(states[k].l);
    }
  }

  /** Work conservation and FIFO over every run in which no task in the ready list is cancelled:
      in every state a ready task means `0 <= concurrency <= running`, and the starts so far are
      in the order in which the tasks reached the loop as due. */
  lemma WorkConservation(states: seq<System>, steps: seq<Step>, i: nat)
    requires IsRun(states, steps) && i < |states|
    requires forall k :: 0 <= k < i ==> ReadyLive(states[k].l)
    ensures NoIdle(states[i].l) && StartsAscend(states[i].l.log) && Orderly(states[i].l)
  {
    RunIdlesExactly(states, steps, i);
    forall k | 0 <= k < i ensures !IdlesNext(states[k], steps[k]) {
      LiveNeverIdles(states[k], steps[k]);
    }
    hide IdlesNext, NoIdle, ReadyLive, ReadyDue, IsRun;
  }

  lemma LiveNeverIdles(s: System, step: Step)
    requires ReadyLive(s.l)
    ensures !IdlesNext(s, step)
  {
    if s.l.ready != [] { assert s.l.ready[0] in s.l.ready; }
  }
}
