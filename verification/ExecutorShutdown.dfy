/**
 Where cancelled tasks that are still queued hurt: a shutdown always ends in termination while no
 queued task is cancelled, but one cancelled task can stall it for ever. Which steps do that is
 stated exactly; `ExecutorScenarios` has runs that take them.
 */
module ExecutorShutdown {
  import opened Options
  import opened Tasks
  import opened ExecutorLoop
  import opened ExecutorRuns
  import opened ExecutorTheorems

  /** Shut down, nothing queued, nothing running, and yet not terminated. */
  ghost predicate Stalled(l: Loop) {
    !l.exited && l.phase.Canceled() && l.ready == [] && l.delayed == [] && l.running == 0
  }

  /** Nothing to do for the loop but to end. */
  predicate Idle(l: Loop) { l.phase.Canceled() && l.running == 0 && l.delayed == [] }

  /** Exactly which steps stall a shutdown. In each of them the last queued task has been cancelled,
      and the loop drops it without looking at what is left. */
  predicate StallsNext(s: System, step: Step) {
    var l := s.l;
    match step
    case TimerFires =>
      && l.phase.Canceled() && l.running == 0 && l.ready == [] && |l.delayed| == 1
      && l.Deadline(l.delayed[0]) <= l.now && !l.Get(l.delayed[0]).Runnable()
    case DeliverCompletion(t) =>
      && l.phase.Canceled() && l.running == 1 && l.delayed == [] && l.concurrency != 0
      && |l.ready| == 1 && !l.Get(l.ready[0]).Runnable() && (l.Get(t).status.Done? || l.Get(t).canceled)
    case DeliverCancel(t) => Idle(l) && l.ready == [t] && t in l.qElem
    case SetConcurrency(n) =>
      Idle(l) && l.ready != [] && n != 0 && forall t :: t in l.ready ==> !l.Get(t).Runnable()
    case CancelExecutor =>
      && l.phase.Active? && l.running == 0 && l.delayed == []
      && |l.ready| == 1 && l.CanStart() && !l.Get(l.ready[0]).Runnable()
    case _ => false
  }

  // ---------- the pieces of a loop step ----------

  /** A runnable task in hand keeps the loop busy: it runs or it waits. */
  lemma TryExecuteBusy(l: Loop, t: nat)
    requires l.Get(t).Runnable()
    ensures Load(TryExecuteTask(l, t)) == Load(l) + 1
    ensures TryExecuteTask(l, t).running >= l.running
  {
    var l0 := l.(sElem := l.sElem + {t});
    hide Insert;
    InsertLength(l0, l.delayed, t);
    PushFrame(l0, t);
    hide PushDelayed;
  }

  /** A task in hand leaves an idle loop exactly if it is dropped. */
  lemma TryExecuteStalls(l: Loop, t: nat)
    requires l.running >= 0
    ensures Stalled(TryExecuteTask(l, t)) <==> Stalled(l) && !l.Get(t).Runnable()
    ensures Idle(TryExecuteTask(l, t)) && TryExecuteTask(l, t).ready == l.ready
            <==> Idle(l) && !l.Get(t).Runnable()
  {
    var l' := TryExecuteTask(l, t);
    TryExecuteLife(l, t);
    if l.Get(t).Runnable() {
      TryExecuteBusy(l, t);
      hide TryExecuteTask;
    }
  }

  lemma TryRunNextStalls(l: Loop)
    requires !l.exited && !l.phase.Terminated? && l.running >= 0
    ensures Stalled(TryRunNext(l)) <==>
            Idle(l) && |l.ready| == 1 && l.CanStart() && !l.Get(l.ready[0]).Runnable()
  {
    if l.ready != [] && l.CanStart() {
      var t := l.ready[0];
      var l0 := l.(ready := l.ready[1..], qElem := l.qElem - {t});
      assert TryRunNext(l) == TryExecuteTask(l0, t);
      hide TryRunNext, TryExecuteTask;
      TryExecuteStalls(l0, t);
    } else {
      hide TryExecuteTask;
    }
  }

  lemma {:induction false} DrainStalls(l: Loop)
    requires !l.exited && !l.phase.Terminated? && l.running >= 0
    ensures Stalled(Drain(l)) <==>
            && Idle(l) && (l.ready == [] || l.CanStart())
            && forall t :: t in l.ready ==> !l.Get(t).Runnable()
    decreases |l.ready|
  {
    if l.CanStart() && l.ready != [] {
      var t := l.ready[0];
      var l0 := l.(ready := l.ready[1..], qElem := l.qElem - {t});
      PopShrinks(l);
      assert TryRunNext(l) == TryExecuteTask(l0, t) && Drain(l) == Drain(TryRunNext(l));
      if l.Get(t).Runnable() { TryExecuteBusy(l0, t); }
      assert !l.Get(t).Runnable() ==> TryExecuteTask(l0, t) == l0;
      assert t in l.ready && forall x :: x in l.ready <==> x == t || x in l0.ready;
      hide TryRunNext, TryExecuteTask;
      DrainStalls(TryRunNext(l));
    }
  }

  lemma TimerStalls(l: Loop)
    requires !l.exited && l.running >= 0 && !Stalled(l)
    ensures Stalled(OnTimer(l)) <==>
      && l.phase.Canceled() && l.running == 0 && l.ready == [] && |l.delayed| == 1
      && l.Deadline(l.delayed[0]) <= l.now && !l.Get(l.delayed[0]).Runnable()
  {
    if l.delayed != [] && l.Deadline(l.delayed[0]) <= l.now {
      var t := l.delayed[0];
      var l0 := Stamp(l.(timer := None, delayed := l.delayed[1..], sElem := l.sElem - {t}), t);
      assert OnTimer(l) == Configure(TryExecuteTask(l0, t));
      hide OnTimer, TryExecuteTask;
      ConfigureFrame(TryExecuteTask(l0, t));
      TryExecuteStalls(l0, t);
    }
  }

  /** What the first half of a completion does: a finished or cancelled task leaves the queues alone,
      any other is queued again. */
  ghost predicate Requeued(l: Loop, m: Loop, t: nat) {
    && m.running == l.running - 1 && m.phase == l.phase && m.exited == l.exited && m.concurrency == l.concurrency
    && (if l.Get(t).status.Done? || l.Get(t).canceled || !l.Get(t).status.Running?
        then m.ready == l.ready && m.delayed == l.delayed
        else || (m.delayed == l.delayed && m.ready == l.ready + [t] && m.Get(t).Runnable())
             || (m.ready == l.ready && |m.delayed| == |l.delayed| + 1))
    && forall x: nat :: x != t ==> m.Get(x) == l.Get(x)
  }

  lemma SettleQueues(l: Loop, t: nat)
    requires l.Get(t).status.Done? || l.Get(t).Periodic()
    ensures Requeued(l, Settle(l, t), t)
  {
    var l0 := l.(running := l.running - 1);
    hide Insert, PushDelayed;
    if l.Get(t).status.Running? && l.Get(t).Periodic() && !l.Get(t).canceled {
      var l1 := l0.(tasks := l.tasks[t := ConfigureNextRun(l.Get(t), l.now).task]);
      assert Settle(l, t) == Requeue(l0, t) by { hide Requeue; }
      hide Settle;
      RequeueCases(l0, t);
      hide Requeue;
      PushFrame(l1, t);
      InsertLength(l1, l.delayed, t);
    }
  }

  lemma RequeuedStalls(l: Loop, m: Loop, t: nat)
    requires Requeued(l, m, t) && t !in l.ready && !l.exited && !l.phase.Terminated? && l.running >= 1
    requires l.Get(t).status.Done? || l.Get(t).canceled || l.Get(t).status.Running?
    ensures Stalled(TryRunNext(m)) <==>
      && l.phase.Canceled() && l.running == 1 && l.delayed == [] && l.concurrency != 0
      && |l.ready| == 1 && !l.Get(l.ready[0]).Runnable() && (l.Get(t).status.Done? || l.Get(t).canceled)
  {
    TryRunNextStalls(m);
    hide Stalled, TryRunNext;
    if |l.ready| == 1 { assert l.ready[0] in l.ready; }
  }

  lemma CompletedStalls(s: System, t: nat)
    requires Conserved(s) && Lifecycle(s.l) && Enabled(s, DeliverCompletion(t)) && !Stalled(s.l)
    ensures Stalled(OnCompleted(s.l, t)) <==> StallsNext(s, DeliverCompletion(t))
  {
    var l := s.l;
    var l0 := l.(log := l.log + [Ended(t, l.now)]);
    assert OwnedOnce(l, s.submits + s.returned, s.completions, t);
    assert t !in l.ready && l.running >= 1;
    assert OnCompleted(l, t) == TryRunNext(Settle(l0, t));
    hide Conserved, OwnedOnce, Settle, TryRunNext, OnCompleted, Requeued, Stalled;
    SettleQueues(l0, t);
    RequeuedStalls(l0, Settle(l0, t), t);
  }

  lemma {:induction false} RemoveEmpties(q: seq<nat>, t: nat)
    ensures Remove(q, t) == [] <==> q == [] || q == [t]
  {
    if q != [] && q[0] != t { RemoveEmpties(q[1..], t); }
  }

  lemma CanceledStalls(s: System, t: nat)
    requires Conserved(s) && !s.l.exited && !Stalled(s.l)
    ensures Stalled(OnCanceled(s.l, t)) <==> Idle(s.l) && s.l.ready == [t] && t in s.l.qElem
  {
    var l := s.l;
    assert OwnedOnce(l, s.submits + s.returned, s.completions, t);
    assert !(l.ready == [t] && l.delayed == [t]);
    RemoveEmpties(l.ready, t);
    RemoveEmpties(l.delayed, t);
    CanceledFrame(l, t);
    hide OnCanceled, Remove, Conserved, OwnedOnce;
  }

  lemma ShutdownStalls(l: Loop)
    requires Lifecycle(l) && !l.exited && l.running >= 0 && !Stalled(l)
    ensures Stalled(OnCancel(l)) <==>
            l.phase.Active? && l.running == 0 && l.delayed == [] && |l.ready| == 1 &&
            l.CanStart() && !l.Get(l.ready[0]).Runnable()
    ensures !Stalled(OnCancelNow(l).0)
  {
    hide TryRunNext;
    if !l.phase.Canceled() { TryRunNextStalls(l.(phase := ShuttingDown)); }
    if l.phase.Rank() < 2 {
      TryRunNextStalls(l.(ready := [], delayed := [],
        phase := if l.phase.ShuttingDown? then WaitingTermination else l.phase));
    }
  }

  // ---------- steps and runs ----------

  /** From a state that is not stalled: a step stalls the executor if and only if it is one of
      `StallsNext`. */
  lemma StepStallsExactly(s: System, step: Step)
    requires Conserved(s) && Lifecycle(s.l) && !Stalled(s.l) && Enabled(s, step)
    ensures Stalled(Apply(s, step).l) <==> StallsNext(s, step)
  {
    var l := s.l;
    if !step.IsLoopStep() {
      ClientStepFrame(s, step);
      hide Apply, Conserved;
      return;
    }
    assert l.running >= 0;
    if step.DeliverCompletion? { CompletedStalls(s, step.t); }
    if step.DeliverCancel? { CanceledStalls(s, step.t); }
    hide Conserved, ClientNext, OnTimer, TryExecuteTask, OnCompleted, OnCanceled, Drain, OnCancel, OnCancelNow;
    match step
    case TimerFires => TimerStalls(l);
    case DeliverSubmit(t) => TryExecuteStalls(Stamp(l, t), t);
    case DeliverCompletion(t) =>
    case DeliverCancel(t) =>
    case SetConcurrency(n) => DrainStalls(l.(concurrency := n));
    case SetCapacity(_) =>
    case CancelExecutor => ShutdownStalls(l);
    case CancelNow => ShutdownStalls(l);
  }

  /** One of the first `i` steps was in `StallsNext`. */
  ghost predicate StallsBefore(states: seq<System>, steps: seq<Step>, i: nat)
    requires i <= |states| && i <= |steps|
  {
    exists k :: 0 <= k < i && StallsNext(states[k], steps[k])
  }

  /** One of the states up to `i` was stalled. */
  ghost predicate StalledUpTo(states: seq<System>, i: nat)
    requires i < |states|
  {
    exists k :: 0 <= k <= i && Stalled(states[k].l)
  }

  lemma OneMoreState(states: seq<System>, steps: seq<Step>, i: nat)
    requires i < |steps| && i + 1 < |states|
    ensures StallsBefore(states, steps, i + 1) <==> StallsBefore(states, steps, i) || StallsNext(states[i], steps[i])
    ensures StalledUpTo(states, i + 1) <==> StalledUpTo(states, i) || Stalled(states[i + 1].l)
    ensures Stalled(states[i].l) ==> StalledUpTo(states, i)
  {
    hide StallsNext, Stalled;
  }

  /** Over every run: a state in which the executor is cancelled, with nothing queued or running, and
      not terminated has been reached if and only if one of the steps so far was in `StallsNext`. */
  lemma {:induction false} RunStallsExactly(states: seq<System>, steps: seq<Step>, i: nat)
    requires IsRun(states, steps) && i < |states|
    ensures StalledUpTo(states, i) <==> StallsBefore(states, steps, i)
  {
    if i > 0 {
      var k := i - 1;
      assert IsStep(states[k], steps[k], states[i]);
      hide IsRun, Conserved, Lifecycle, Apply, Enabled, StallsNext, Stalled, StallsBefore, StalledUpTo;
      RunConserves(states, steps, k);
      RunLifecycle(states, steps, k);
      if !Stalled(states[k].l) { StepStallsExactly(states[k], steps[k]); }
      RunStallsExactly(states, steps, k);
      OneMoreState(states, steps, k);
    } else {
      assert !Stalled(states[0].l);
    }
  }

  /** No queued task has been cancelled. */
  ghost predicate QueuesLive(l: Loop) {
    forall t :: t in l.ready || t in l.delayed ==> l.Get(t).Runnable()
  }

  lemma LiveNeverStalls(s: System, step: Step)
    requires Conserved(s) && Enabled(s, step) && QueuesLive(s.l)
    ensures !StallsNext(s, step)
  {
    var l := s.l;
    if step.DeliverCancel? { assert OwnedOnce(l, s.submits + s.returned, s.completions, step.t); }
    assert |l.ready| > 0 ==> l.ready[0] in l.ready;
    assert |l.delayed| > 0 ==> l.delayed[0] in l.delayed;
  }

  /** A run in which no queued task is cancelled never stalls: once the executor is cancelled and
      nothing is queued or running, it has terminated. */
  lemma ShutdownCompletes(states: seq<System>, steps: seq<Step>, i: nat)
    requires IsRun(states, steps) && i < |states|
    requires forall k :: 0 <= k < i ==> QueuesLive(states[k].l)
    ensures !Stalled(states[i].l)
  {
    RunStallsExactly(states, steps, i);
    hide StallsNext, Stalled, QueuesLive, Conserved;
    forall k | 0 <= k < i ensures !StallsNext(states[k], steps[k]) {
      assert IsStep(states[k], steps[k], states[k + 1]);
      RunConserves(states, steps, k);
      LiveNeverStalls(states[k], steps[k]);
    }
  }

  // ---------- how long a stall lasts ----------

  /** Nothing is under way that could move the loop: no submitter, no finished or live body, nothing
      delayed. */
  predicate Quiet(s: System) {
    s.submits == s.completions == multiset{} && s.l.live == multiset{} && s.l.delayed == []
  }

  /** In a stalled and quiet system no step but CancelNow makes a difference. */
  lemma StallStays(s: System, step: Step)
    requires Stalled(s.l) && Quiet(s) && Enabled(s, step) && !step.CancelNow?
    ensures Stalled(Apply(s, step).l) && Quiet(Apply(s, step))
  {
    if !step.IsLoopStep() {
      ClientStepFrame(s, step);
      hide LoopNext;
    } else {
      hide ClientNext;
      if step.DeliverCancel? { CanceledFrame(s.l, step.t); }
      hide OnCanceled, TryExecuteTask;
    }
  }

  /** However a run goes on after the stall, the executor does not terminate before the next
      CancelNow. */
  lemma {:induction false} StallLasts(states: seq<System>, steps: seq<Step>, i: nat)
    requires |states| == |steps| + 1 && i < |states|
    requires forall k {:trigger steps[k]} :: 0 <= k < |steps| ==> IsStep(states[k], steps[k], states[k + 1])
    requires forall k :: 0 <= k < i ==> !steps[k].CancelNow?
    requires Stalled(states[0].l) && Quiet(states[0])
    ensures Stalled(states[i].l) && Quiet(states[i])
  {
    if i > 0 {
      var k := i - 1;
      StallLasts(states, steps, k);
      assert IsStep(states[k], steps[k], states[i]);
      hide Apply;
      StallStays(states[k], steps[k]);
    }
  }
}
