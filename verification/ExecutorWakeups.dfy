/**
 Exactly when the executor loses a wakeup: over every run, the timer is armed no later than the first
 deadline on the heap until a step of one of three kinds is taken, and then it is not.
 */
module ExecutorWakeups {
  import opened Options
  import opened Tasks
  import opened ExecutorLoop
  import opened ExecutorRuns
  import opened ExecutorTimer
  import opened ExecutorOrder

  // ---------- the ready list holds due tasks only, over every run ----------

  lemma SameDue(l: Loop, l': Loop)
    requires ReadyDue(l) && l'.tasks == l.tasks && l'.now == l.now && (l'.ready == l.ready || l'.ready == [])
    ensures ReadyDue(l')
  {}

  lemma TimerDue(l: Loop)
    requires ReadyDue(l)
    ensures ReadyDue(OnTimer(l))
  {
    if l.delayed != [] && l.Deadline(l.delayed[0]) <= l.now {
      var t := l.delayed[0];
      var l0 := Stamp(l.(timer := None, delayed := l.delayed[1..], sElem := l.sElem - {t}), t);
      assert OnTimer(l) == Configure(TryExecuteTask(l0, t));
      hide OnTimer, TryExecuteTask, ReadyDue;
      SameDue(l, l0);
      TryExecuteDue(l0, t);
      ConfigureFrame(TryExecuteTask(l0, t));
      hide Configure;
      SameDue(TryExecuteTask(l0, t), OnTimer(l));
    } else {
      SameDue(l, OnTimer(l));
    }
  }

  lemma {:induction false} DrainDue(l: Loop)
    requires ReadyDue(l)
    ensures ReadyDue(Drain(l))
    decreases |l.ready|
  {
    if l.CanStart() && l.ready != [] && !l.phase.Terminated? {
      PopShrinks(l);
      hide TryRunNext, ReadyDue;
      TryRunNextDue(l);
      DrainDue(TryRunNext(l));
    }
  }

  lemma CompletedDue(l: Loop, t: nat)
    requires ReadyDue(l) && t !in l.ready
    ensures ReadyDue(OnCompleted(l, t))
  {
    var l0 := l.(log := l.log + [Ended(t, l.now)]);
    assert OnCompleted(l, t) == TryRunNext(Settle(l0, t));
    hide OnCompleted, Settle, TryRunNext, ReadyDue;
    SameDue(l, l0);
    SettleDue(l0, t);
    TryRunNextDue(Settle(l0, t));
  }

  lemma CanceledDue(l: Loop, t: nat)
    requires ReadyDue(l)
    ensures ReadyDue(OnCanceled(l, t))
  {
    var l' := OnCanceled(l, t);
    CanceledFrame(l, t);
    hide OnCanceled;
    forall x | x in l'.ready && l'.Get(x).Runnable() ensures l'.Get(x).Delay(l'.now) <= 0 {
      RemoveKeeps(l.ready, t, x);
    }
  }

  lemma {:induction false} RemoveKeeps(q: seq<nat>, t: nat, x: nat)
    ensures x in Remove(q, t) ==> x in q
  {
    if q != [] && q[0] != t { RemoveKeeps(q[1..], t, x); }
  }

  lemma ShutdownDue(l: Loop)
    requires ReadyDue(l)
    ensures ReadyDue(OnCancel(l)) && ReadyDue(OnCancelNow(l).0)
  {
    hide TryRunNext, ReadyDue;
    var l0 := l.(ready := [], delayed := [],
                 phase := if l.phase.ShuttingDown? then WaitingTermination else l.phase);
    SameDue(l, l.(phase := ShuttingDown));
    TryRunNextDue(l.(phase := ShuttingDown));
    SameDue(l, l0);
    TryRunNextDue(l0);
  }

  lemma StepDue(s: System, step: Step)
    requires Conserved(s) && ReadyDue(s.l) && Enabled(s, step)
    ensures ReadyDue(Apply(s, step).l)
  {
    var l := s.l;
    if !step.IsLoopStep() {
      hide Apply, ReadyDue;
      ClientStepDue(s, step);
      return;
    }
    if step.DeliverCompletion? { NotReady(s, step.t); }
    hide Conserved, ReadyDue, ClientNext, OnTimer, TryExecuteTask, OnCompleted, OnCanceled,
         OnCancel, OnCancelNow, Drain;
    match step
    case TimerFires => TimerDue(l);
    case DeliverSubmit(t) => SameDue(l, Stamp(l, t)); TryExecuteDue(Stamp(l, t), t);
    case DeliverCompletion(t) => CompletedDue(l, t);
    case DeliverCancel(t) => CanceledDue(l, t);
    case SetConcurrency(n) => SameDue(l, l.(concurrency := n)); DrainDue(l.(concurrency := n));
    case SetCapacity(n) => SameDue(l, l.(capacity := n));
    case CancelExecutor => ShutdownDue(l);
    case CancelNow => ShutdownDue(l);
  }

  lemma {:induction false} RunDue(states: seq<System>, steps: seq<Step>, i: nat)
    requires IsRun(states, steps) && i < |states|
    ensures ReadyDue(states[i].l)
  {
    if i > 0 {
      assert IsStep(states[i - 1], steps[i - 1], states[i]);
      hide IsRun, Conserved, ReadyDue, Apply, Enabled;
      RunConserves(states, steps, i - 1);
      RunDue(states, steps, i - 1);
      StepDue(states[i - 1], steps[i - 1]);
    }
  }

  // ---------- which steps lose the wakeup ----------

  /** A push of deadline `d` that the timer is taken to be armed for already, although it is spent. */
  predicate PushLoses(l: Loop, d: int) { l.delayed == [] && l.timer != Some(l.target) && d == l.target && d > l.now }

  /** The deadline of the next run of a periodic task whose run has ended. */
  function NextDeadline(task: Task, now: int): int {
    (if task.kind.FixedDelay? then now else task.nextRun) + task.delay
  }

  /** Exactly the steps that lose a wakeup: the timer takes out one of two tasks with the deadline it was
      armed for, or the first task on the heap, new or periodic, has the deadline it was last armed for. */
  predicate LosesNext(s: System, step: Step) {
    var l := s.l;
    match step
    case TimerFires => |l.delayed| >= 2 && l.Deadline(l.delayed[1]) == l.target
    case DeliverSubmit(t) => l.Get(t).Runnable() && PushLoses(l, l.Deadline(t))
    case DeliverCompletion(t) =>
      && l.Get(t).status.Running? && !l.Get(t).canceled && l.Get(t).Periodic()
      && PushLoses(l, NextDeadline(l.Get(t), l.now))
    case _ => false
  }

  ghost predicate Timed(l: Loop) { Sorted(l, l.delayed) && Armed(l) }

  /** Heap, timer and deadlines are as they were. */
  ghost predicate SameHeap(l: Loop, l': Loop) {
    && l'.delayed == l.delayed && l'.timer == l.timer && l'.target == l.target
    && forall x :: x in l.delayed ==> l'.Deadline(x) == l.Deadline(x)
  }

  lemma SameTimed(l: Loop, l': Loop)
    requires SameHeap(l, l')
    ensures Sorted(l, l.delayed) ==> Sorted(l', l'.delayed)
    ensures Armed(l') <==> Armed(l)
  {
    assert l.delayed != [] ==> l.delayed[0] in l.delayed;
  }

  /** Starting the next ready task pushes nothing: it is due. */
  lemma PopKeepsHeap(l: Loop)
    requires ReadyDue(l)
    ensures SameHeap(l, TryRunNext(l))
  {
    if !l.phase.Terminated? && l.ready != [] && l.CanStart() {
      var t := l.ready[0];
      var l0 := l.(ready := l.ready[1..], qElem := l.qElem - {t});
      assert TryRunNext(l) == TryExecuteTask(l0, t);
      assert t in l.ready;
      hide TryRunNext, TryExecuteTask;
      TryExecuteFrame(l0, t);
    }
  }

  lemma {:induction false} DrainKeepsHeap(l: Loop)
    requires ReadyDue(l)
    ensures SameHeap(l, Drain(l))
    decreases |l.ready|
  {
    if l.CanStart() && l.ready != [] && !l.phase.Terminated? {
      PopShrinks(l);
      hide TryRunNext, ReadyDue;
      PopKeepsHeap(l);
      TryRunNextDue(l);
      DrainKeepsHeap(TryRunNext(l));
    }
  }

  lemma SubmitArms(l: Loop, t: nat)
    requires Timed(l)
    ensures var l' := OnSubmitted(l, t);
      Sorted(l', l'.delayed) && (Armed(l') <==> !(l.Get(t).Runnable() && PushLoses(l, l.Deadline(t))))
  {
    var l0 := Stamp(l, t);
    assert OnSubmitted(l, t) == TryExecuteTask(l0, t);
    if l.Get(t).Runnable() && l.Get(t).Delay(l.now) > 0 {
      var l1 := l0.(sElem := l.sElem + {t});
      assert TryExecuteTask(l0, t) == PushDelayed(l1, t);
      hide OnSubmitted, TryExecuteTask, PushDelayed;
      SameTimed(l, l1);
      PushArmsExactly(l1, t);
    } else {
      TryExecuteFrame(l0, t);
      hide OnSubmitted, TryExecuteTask;
      SameTimed(l, TryExecuteTask(l0, t));
    }
  }

  lemma RequeueArms(l: Loop, t: nat)
    requires Timed(l) && t !in l.delayed && l.Get(t).status.Running? && l.Get(t).Periodic()
    ensures var l' := Requeue(l, t);
      Sorted(l', l'.delayed) && (Armed(l') <==> !PushLoses(l, NextDeadline(l.Get(t), l.now)))
  {
    var task := ConfigureNextRun(l.Get(t), l.now).task;
    var l0 := l.(tasks := l.tasks[t := task]);
    RequeueCases(l, t);
    assert task.nextRun == NextDeadline(l.Get(t), l.now) && l0.Deadline(t) == task.nextRun;
    hide Requeue, PushDelayed;
    SameTimed(l, l0);
    if task.Delay(l.now) > 0 {
      PushArmsExactly(l0, t);
    } else {
      SameTimed(l, PushBack(l0, t));
    }
  }

  lemma SettleArms(l: Loop, t: nat)
    requires Timed(l) && t !in l.delayed
    ensures var l' := Settle(l, t);
      && Sorted(l', l'.delayed)
      && (Armed(l') <==> !(&& l.Get(t).status.Running? && !l.Get(t).canceled && l.Get(t).Periodic()
                           && PushLoses(l, NextDeadline(l.Get(t), l.now))))
  {
    var l0 := l.(running := l.running - 1);
    hide Requeue;
    if l.Get(t).status.Running? && !l.Get(t).canceled && l.Get(t).Periodic() {
      assert Settle(l, t) == Requeue(l0, t);
      hide Settle;
      SameTimed(l, l0);
      RequeueArms(l0, t);
    } else {
      SettleKeepsHeap(l, t);
      hide Settle;
      SameTimed(l, Settle(l, t));
    }
  }

  lemma SettleKeepsHeap(l: Loop, t: nat)
    requires !(l.Get(t).status.Running? && !l.Get(t).canceled && l.Get(t).Periodic()) && t !in l.delayed
    ensures SameHeap(l, Settle(l, t))
  {
    hide PushDelayed;
  }

  lemma CompletedArms(s: System, t: nat)
    requires Conserved(s) && ReadyDue(s.l) && Timed(s.l) && t in s.completions
    ensures var l' := OnCompleted(s.l, t);
      Sorted(l', l'.delayed) && (Armed(l') <==> !LosesNext(s, DeliverCompletion(t)))
  {
    var l := s.l;
    var l0 := l.(log := l.log + [Ended(t, l.now)]);
    NotDelayed(s, t);
    NotReady(s, t);
    assert OnCompleted(l, t) == TryRunNext(Settle(l0, t));
    hide OnCompleted, TryRunNext, Settle, ReadyDue, Conserved;
    SameTimed(l, l0);
    SettleArms(l0, t);
    SameDue(l, l0);
    SettleDue(l0, t);
    PopKeepsHeap(Settle(l0, t));
    SameTimed(Settle(l0, t), OnCompleted(l, t));
  }

  lemma CanceledArms(l: Loop, t: nat)
    requires Timed(l)
    ensures Timed(OnCanceled(l, t))
  {
    var l' := OnCanceled(l, t);
    CanceledFrame(l, t);
    assert forall x: nat :: l'.Deadline(x) == l.Deadline(x);
    hide OnCanceled, Remove;
    RemoveSorts(l, l.delayed, t);
    HeadFirst(l);
    if l'.delayed != [] { assert l'.delayed[0] in l'.delayed; }
  }

  lemma ShutdownArms(l: Loop)
    requires ReadyDue(l) && Timed(l)
    ensures Timed(OnCancel(l)) && Timed(OnCancelNow(l).0)
  {
    hide TryRunNext;
    var l0 := l.(phase := ShuttingDown);
    var l1 := l.(ready := [], delayed := [],
                 phase := if l.phase.ShuttingDown? then WaitingTermination else l.phase);
    PopKeepsHeap(l0);
    PopKeepsHeap(l1);
    if !l.phase.Canceled() { SameTimed(l, OnCancel(l)); }
    if l.phase.Rank() < 2 { SameTimed(l1, OnCancelNow(l).0); }
  }

  lemma LimitsArm(l: Loop, n: int)
    requires ReadyDue(l) && Timed(l)
    ensures Timed(OnUpdateConcurrency(l, n)) && Timed(OnUpdateCapacity(l, n))
  {
    SameDue(l, l.(concurrency := n));
    hide ReadyDue, Drain;
    DrainKeepsHeap(l.(concurrency := n));
    SameTimed(l, OnUpdateConcurrency(l, n));
    SameTimed(l, OnUpdateCapacity(l, n));
  }

  lemma LoopStepArms(s: System, step: Step)
    requires Conserved(s) && ReadyDue(s.l) && Timed(s.l) && Enabled(s, step) && step.IsLoopStep()
    ensures var l' := Apply(s, step).l; Sorted(l', l'.delayed) && (Armed(l') <==> !LosesNext(s, step))
  {
    var l := s.l;
    hide Conserved, ReadyDue, ClientNext, OnTimer, OnSubmitted, OnCompleted, OnCanceled, OnUpdateConcurrency;
    hide OnUpdateCapacity, OnCancel, OnCancelNow, Sorted, Armed;
    match step
    case TimerFires => TimerRearmsExactly(l); TimerStepSorted(l);
    case DeliverSubmit(t) => SubmitArms(l, t);
    case DeliverCompletion(t) => CompletedArms(s, t);
    case DeliverCancel(t) => CanceledArms(l, t);
    case SetConcurrency(n) => LimitsArm(l, n);
    case SetCapacity(n) => LimitsArm(l, n);
    case CancelExecutor => ShutdownArms(l);
    case CancelNow => ShutdownArms(l);
  }

  /** From a state in which the timer is armed in time: after a step it is not if and only if the step is
      one of `LosesNext`. */
  lemma StepArmsExactly(s: System, step: Step)
    requires Conserved(s) && ReadyDue(s.l) && Timed(s.l) && Enabled(s, step)
    ensures var l' := Apply(s, step).l; Sorted(l', l'.delayed) && (Armed(l') <==> !LosesNext(s, step))
  {
    if step.IsLoopStep() {
      hide Apply, LosesNext, Timed;
      LoopStepArms(s, step);
    } else {
      if step.Submit? { NotDelayed(s, step.t); }
      ClientStepFrame(s, step);
      hide Apply, Conserved;
      SameTimed(s.l, Apply(s, step).l);
    }
  }

  // ---------- over every run ----------

  /** One of the first `i` steps was in `LosesNext`. */
  ghost predicate LosesBefore(states: seq<System>, steps: seq<Step>, i: nat)
    requires i <= |states| && i <= |steps|
  {
    exists k :: 0 <= k < i && LosesNext(states[k], steps[k])
  }

  /** In one of the states up to `i` the timer was not armed in time. */
  ghost predicate UnarmedUpTo(states: seq<System>, i: nat)
    requires i < |states|
  {
    exists k :: 0 <= k <= i && !Armed(states[k].l)
  }

  lemma OneMoreStep(states: seq<System>, steps: seq<Step>, i: nat)
    requires i < |steps| && i + 1 < |states|
    ensures LosesBefore(states, steps, i + 1) <==> LosesBefore(states, steps, i) || LosesNext(states[i], steps[i])
    ensures UnarmedUpTo(states, i + 1) <==> UnarmedUpTo(states, i) || !Armed(states[i + 1].l)
  {
    hide LosesNext, Armed;
  }

  /** Over every run, whatever its deadlines: a state has been reached in which a task is on the heap and
      the timer will not fire by its deadline if and only if one of the steps so far was in `LosesNext`. */
  lemma {:induction false} RunArmsExactly(states: seq<System>, steps: seq<Step>, i: nat)
    requires IsRun(states, steps) && i < |states|
    ensures UnarmedUpTo(states, i) <==> LosesBefore(states, steps, i)
    ensures !UnarmedUpTo(states, i) ==> Timed(states[i].l)
  {
    if i > 0 {
      var k := i - 1;
      assert IsStep(states[k], steps[k], states[i]);
      hide IsRun, Conserved, ReadyDue, Apply, Enabled, LosesNext, Armed, Sorted, LosesBefore, UnarmedUpTo;
      RunConserves(states, steps, k);
      RunDue(states, steps, k);
      RunArmsExactly(states, steps, k);
      if !UnarmedUpTo(states, k) { StepArmsExactly(states[k], steps[k]); }
      OneMoreStep(states, steps, k);
    } else {
      assert Timed(states[0].l);
      assert forall k :: 0 <= k <= 0 ==> Armed(states[k].l);
    }
  }
}
