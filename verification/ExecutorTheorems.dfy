/**
 What holds over whole runs of the executor: conservation of tasks, the lifecycle, the limits,
 and the order in which ready tasks are started.
 */
module ExecutorTheorems {
  import opened Options
  import opened Tasks
  import opened ExecutorLoop
  import opened ExecutorRuns

  // ---------- conservation, in terms of one task ----------

  /** Every task of every reachable state: a New task is in exactly one of the undelivered
      submits, the ready list, the delayed heap and what CancelNow handed back; a started one has
      exactly one execution; no task ever has two; and `running` is the number of executions. The
      ready list must not be spoilt, which `RunBreaksExactly` takes apart. */
  lemma TaskConservation(states: seq<System>, steps: seq<Step>, i: nat, t: nat)
    requires IsRun(states, steps) && i < |states| && t in states[i].l.tasks && !states[i].l.broken
    ensures var s := states[i];
      var place := s.submits[t] + s.returned[t] + multiset(s.l.ready)[t] + multiset(s.l.delayed)[t];
      var exec := s.completions[t] + s.l.live[t];
      && place + exec <= 1
      && (s.l.tasks[t].status.New? ==> place == 1)
      && (s.l.tasks[t].status.Running? || s.l.tasks[t].status.Cancelling? ==> exec == 1)
      && s.l.running == |s.completions| + |s.l.live|
      && !s.l.panicked
  {
    RunConserves(states, steps, i);
    var s := states[i];
    assert OwnedOnce(s.l, s.submits + s.returned, s.completions, t);
  }

  // ---------- stale handles ----------

  /** A handle into the ready list belongs to a task in it, or to one that CancelNow handed back. */
  ghost predicate Handles(s: System) { HandlesOver(s.l, s.returned) }

  ghost predicate HandlesOver(l: Loop, returned: multiset<nat>) {
    forall t :: t in l.qElem ==> t in l.ready || t in returned
  }

  lemma TryExecuteHandles(l: Loop, R: multiset<nat>, t: nat)
    requires HandlesOver(l, R)
    ensures HandlesOver(TryExecuteTask(l, t), R) && TryExecuteTask(l, t).broken == l.broken
  {
    PushFrame(l.(sElem := l.sElem + {t}), t);
    hide PushDelayed, Insert;
  }

  lemma TryRunNextHandles(l: Loop, R: multiset<nat>)
    requires HandlesOver(l, R)
    ensures HandlesOver(TryRunNext(l), R) && TryRunNext(l).broken == l.broken
  {
    if !l.phase.Terminated? && l.ready != [] && l.CanStart() {
      var t := l.ready[0];
      var l0 := l.(ready := l.ready[1..], qElem := l.qElem - {t});
      assert TryRunNext(l) == TryExecuteTask(l0, t);
      assert HandlesOver(l0, R);
      hide TryRunNext, TryExecuteTask, HandlesOver;
      TryExecuteHandles(l0, R, t);
    }
  }

  lemma {:induction false} DrainHandles(l: Loop, R: multiset<nat>)
    requires HandlesOver(l, R)
    ensures HandlesOver(Drain(l), R) && Drain(l).broken == l.broken
    decreases |l.ready|
  {
    if l.CanStart() && l.ready != [] && !l.phase.Terminated? {
      PopShrinks(l);
      hide TryRunNext, HandlesOver;
      TryRunNextHandles(l, R);
      DrainHandles(TryRunNext(l), R);
    }
  }

  lemma SettleHandles(l: Loop, R: multiset<nat>, t: nat)
    requires HandlesOver(l, R)
    ensures HandlesOver(Settle(l, t), R) && Settle(l, t).broken == l.broken
  {
    var r := ConfigureNextRun(l.Get(t), l.now);
    if r.Next? { PushFrame(l.(running := l.running - 1, tasks := l.tasks[t := r.task]), t); }
    hide PushDelayed, Insert;
  }

  lemma CompletedHandles(l: Loop, R: multiset<nat>, t: nat)
    requires HandlesOver(l, R)
    ensures HandlesOver(OnCompleted(l, t), R) && OnCompleted(l, t).broken == l.broken
  {
    var l0 := l.(log := l.log + [Ended(t, l.now)]);
    hide Settle, TryRunNext;
    SettleHandles(l0, R, t);
    TryRunNextHandles(Settle(l0, t), R);
  }

  lemma CancelNowHandles(l: Loop, R: multiset<nat>)
    requires HandlesOver(l, R)
    ensures HandlesOver(OnCancelNow(l).0, R + multiset(OnCancelNow(l).1)) && OnCancelNow(l).0.broken == l.broken
  {
    var l0 := l.(ready := [], delayed := [], phase := if l.phase.ShuttingDown? then WaitingTermination else l.phase);
    assert l.phase.Rank() < 2 ==> OnCancelNow(l) == (TryRunNext(l0), l.ready + l.delayed);
    assert HandlesOver(l0, R + multiset(l.ready + l.delayed));
    hide TryRunNext;
    TryRunNextHandles(l0, R + multiset(l.ready + l.delayed));
  }

  lemma TimerHandles(l: Loop, R: multiset<nat>)
    requires HandlesOver(l, R)
    ensures HandlesOver(OnTimer(l), R) && OnTimer(l).broken == l.broken
  {
    if l.delayed != [] && l.Deadline(l.delayed[0]) <= l.now {
      var t := l.delayed[0];
      var l0 := Stamp(l.(timer := None, delayed := l.delayed[1..], sElem := l.sElem - {t}), t);
      assert OnTimer(l) == Configure(TryExecuteTask(l0, t));
      hide TryExecuteTask, OnTimer;
      TryExecuteHandles(l0, R, t);
      ConfigureFrame(TryExecuteTask(l0, t));
    }
  }

  lemma {:induction false} RemoveOthers(q: seq<nat>, t: nat, x: nat)
    requires x in q && x != t
    ensures x in Remove(q, t)
  {
    if q[0] != t && q[0] != x { RemoveOthers(q[1..], t, x); }
  }

  lemma CanceledHandles(l: Loop, R: multiset<nat>, t: nat)
    requires HandlesOver(l, R)
    ensures HandlesOver(OnCanceled(l, t), R)
    ensures OnCanceled(l, t).broken <==> l.broken || (l.ready != [] && Stale(l, t))
  {
    var l' := OnCanceled(l, t);
    CanceledFrame(l, t);
    assert l'.qElem == l.qElem || (l'.qElem == l.qElem - {t} && !Stale(l, t)) by { hide Remove; }
    assert OnCanceled(l, t).broken <==> l.broken || (l.ready != [] && Stale(l, t)) by { hide Remove; }
    hide OnCanceled;
    forall x | x in l'.qElem ensures x in l'.ready || x in R {
      if x in l.ready && x != t { RemoveOthers(l.ready, t, x); }
    }
  }

  /** The cancel event of a task that CancelNow took out of the ready list, received while other
      tasks are ready. */
  predicate StaleCancel(s: System, step: Step) {
    step.DeliverCancel? && step.t in s.returned && step.t in s.l.qElem && s.l.ready != []
  }

  lemma LoopStepHandles(s: System, step: Step)
    requires Handles(s) && Enabled(s, step) && step.IsLoopStep()
    ensures Handles(Apply(s, step))
    ensures Apply(s, step).l.broken <==>
            s.l.broken || (step.DeliverCancel? && s.l.ready != [] && Stale(s.l, step.t))
  {
    var l, R := s.l, s.returned;
    hide ClientNext, OnTimer, OnCanceled, OnCompleted, OnCancelNow, TryExecuteTask, TryRunNext, Drain;
    match step
    case TimerFires => TimerHandles(l, R);
    case DeliverSubmit(t) => TryExecuteHandles(Stamp(l, t), R, t);
    case DeliverCompletion(t) => CompletedHandles(l, R, t);
    case DeliverCancel(t) => CanceledHandles(l, R, t);
    case SetConcurrency(n) => DrainHandles(l.(concurrency := n), R);
    case SetCapacity(_) =>
    case CancelExecutor => if !l.phase.Canceled() { TryRunNextHandles(l.(phase := ShuttingDown), R); }
    case CancelNow => CancelNowHandles(l, R);
  }

  /** Every step keeps `Handles`, and it spoils the ready list if and only if it is such a cancel
      event. */
  lemma StepHandles(s: System, step: Step)
    requires Conserved(s) && Handles(s) && Enabled(s, step)
    ensures Handles(Apply(s, step))
    ensures Apply(s, step).l.broken <==> s.l.broken || StaleCancel(s, step)
  {
    if step.IsLoopStep() {
      if step.DeliverCancel? { assert OwnedOnce(s.l, s.submits + s.returned, s.completions, step.t); }
      hide Conserved, Apply;
      LoopStepHandles(s, step);
    } else {
      ClientStepFrame(s, step);
      assert Apply(s, step).returned == s.returned by { hide LoopNext; }
      hide Apply, Conserved;
    }
  }

  /** One of the first `i` steps was such a cancel event. */
  ghost predicate StaleBefore(states: seq<System>, steps: seq<Step>, i: nat)
    requires i <= |states| && i <= |steps|
  {
    exists k :: 0 <= k < i && StaleCancel(states[k], steps[k])
  }

  lemma StaleNext(states: seq<System>, steps: seq<Step>, i: nat)
    requires i < |states| && i < |steps|
    ensures StaleBefore(states, steps, i + 1) <==>
            StaleBefore(states, steps, i) || StaleCancel(states[i], steps[i])
  {
    hide StaleCancel;
  }

  /** Over every run: the ready list is spoilt if and only if some step so far was such a cancel
      event. `ReadyLists` says what a spoilt list does. */
  lemma {:induction false} RunBreaksExactly(states: seq<System>, steps: seq<Step>, i: nat)
    requires IsRun(states, steps) && i < |states|
    ensures Handles(states[i])
    ensures states[i].l.broken <==> StaleBefore(states, steps, i)
  {
    if i > 0 {
      var k := i - 1;
      assert IsStep(states[k], steps[k], states[i]);
      hide IsRun, Conserved, Handles, Apply, Enabled, StaleCancel, StaleBefore;
      RunConserves(states, steps, k);
      RunBreaksExactly(states, steps, k);
      StepHandles(states[k], steps[k]);
      StaleNext(states, steps, k);
    }
  }

  // ---------- the lifecycle ----------

  ghost predicate Lifecycle(l: Loop) {
    && (l.exited <==> l.phase.Terminated?)
    && l.closes == (if l.exited then 1 else 0)
    && (l.exited ==> l.ready == [] && l.delayed == [] && l.running <= 0)
  }

  lemma TryRunNextLifecycle(l: Loop)
    requires Lifecycle(l) && !l.exited
    ensures Lifecycle(TryRunNext(l))
    ensures l.ready != [] ==> !TryRunNext(l).exited
  {}

  lemma {:induction false} DrainLifecycle(l: Loop)
    requires Lifecycle(l) && !l.exited
    ensures Lifecycle(Drain(l)) && !Drain(l).exited
    decreases |l.ready|
  {
    if l.CanStart() && l.ready != [] {
      PopShrinks(l);
      hide TryRunNext;
      TryRunNextLifecycle(l);
      DrainLifecycle(TryRunNext(l));
    }
  }

  /** Everything outside `TryRunNext` leaves the lifecycle alone. */
  ghost predicate SameLife(l: Loop, l': Loop) {
    l'.phase == l.phase && l'.exited == l.exited && l'.closes == l.closes
  }

  lemma TryExecuteLife(l: Loop, t: nat)
    ensures SameLife(l, TryExecuteTask(l, t))
  {}

  lemma OnTimerLife(l: Loop)
    ensures SameLife(l, OnTimer(l))
  {
    if l.delayed != [] && l.Deadline(l.delayed[0]) <= l.now {
      var t := l.delayed[0];
      TryExecuteLife(Stamp(l.(timer := None, delayed := l.delayed[1..], sElem := l.sElem - {t}), t), t);
    }
  }

  lemma SettleLife(l: Loop, t: nat)
    ensures SameLife(l, Settle(l, t))
  {}

  lemma StepLifecycle(s: System, step: Step)
    requires Lifecycle(s.l) && Enabled(s, step)
    ensures Lifecycle(Apply(s, step).l)
    ensures s.l.phase.Rank() <= Apply(s, step).l.phase.Rank()
  {
    var l := s.l;
    if !step.IsLoopStep() { ClientStepFrame(s, step); return; }
    hide ClientNext, OnTimer, TryExecuteTask, Drain, Settle, TryRunNext, OnCanceled;
    match step
    case TimerFires => OnTimerLife(l);
    case DeliverSubmit(t) => TryExecuteLife(Stamp(l, t), t);
    case SetConcurrency(n) =>
      DrainLifecycle(l.(concurrency := n));
      DrainEvolves(l.(concurrency := n));
    case DeliverCompletion(t) =>
      var l0 := l.(log := l.log + [Ended(t, l.now)]);
      SettleLife(l0, t);
      TryRunNextLifecycle(Settle(l0, t));
      TryRunNextEvolves(Settle(l0, t));
    case DeliverCancel(t) => CanceledFrame(l, t);
    case SetCapacity(_) =>
    case CancelExecutor =>
      if !l.phase.Canceled() {
        TryRunNextLifecycle(l.(phase := ShuttingDown));
        TryRunNextEvolves(l.(phase := ShuttingDown));
      }
    case CancelNow =>
      var l0 := l.(ready := [], delayed := [],
        phase := if l.phase.ShuttingDown? then WaitingTermination else l.phase);
      TryRunNextLifecycle(l0);
      TryRunNextEvolves(l0);
  }

  lemma {:induction false} RunLifecycle(states: seq<System>, steps: seq<Step>, i: nat)
    requires IsRun(states, steps) && i < |states|
    ensures Lifecycle(states[i].l)
  {
    if i > 0 {
      RunLifecycle(states, steps, i - 1);
      assert IsStep(states[i - 1], steps[i - 1], states[i]);
      StepLifecycle(states[i - 1], steps[i - 1]);
    }
  }

  lemma RunStepForward(states: seq<System>, steps: seq<Step>, i: nat)
    requires IsRun(states, steps) && i < |steps|
    ensures states[i].l.phase.Rank() <= states[i + 1].l.phase.Rank()
    ensures states[i].l.closes <= states[i + 1].l.closes <= 1
  {
    RunLifecycle(states, steps, i);
    RunLifecycle(states, steps, i + 1);
    assert IsStep(states[i], steps[i], states[i + 1]);
    StepLifecycle(states[i], steps[i]);
  }

  /** The lifecycle only moves forward, and the termination channel is closed at most once. */
  lemma {:induction false} PhaseMovesForward(states: seq<System>, steps: seq<Step>, i: nat, j: nat)
    requires IsRun(states, steps) && i < j < |states|
    ensures states[i].l.phase.Rank() <= states[j].l.phase.Rank()
    ensures states[i].l.closes <= states[j].l.closes <= 1
    decreases j - i
  {
    RunStepForward(states, steps, j - 1);
    if i < j - 1 { PhaseMovesForward(states, steps, i, j - 1); }
  }

  /** What termination means: nothing is queued, nothing runs, and every task that reached the
      loop is Done or was handed back by CancelNow. */
  lemma Termination(states: seq<System>, steps: seq<Step>, i: nat)
    requires IsRun(states, steps) && i < |states| && states[i].l.phase.Terminated? && !states[i].l.broken
    ensures var s := states[i];
      && s.l.exited && s.l.closes == 1
      && s.l.ready == [] && s.l.delayed == [] && s.l.running == 0
      && s.l.live == multiset{} && s.completions == multiset{}
      && forall t :: t in s.l.tasks && t !in s.submits ==> s.l.tasks[t].status.Done? || t in s.returned
  {
    var s := states[i];
    RunConserves(states, steps, i);
    RunLifecycle(states, steps, i);
    forall t | t in s.l.tasks && t !in s.submits
      ensures s.l.tasks[t].status.Done? || t in s.returned
    {
      assert OwnedOnce(s.l, s.submits + s.returned, s.completions, t);
    }
  }

  // ---------- the concurrency cap ----------

  /** A step in which a task starts, or `running` grows, ends within the cap. A start adds a live
      body, and no step of the loop takes one away. */
  ghost predicate StartsUnderCap(l: Loop, l': Loop) {
    (|l'.live| > |l.live| || l'.running > l.running) ==> l'.concurrency < 0 || l'.running <= l'.concurrency
  }

  /** A part of a loop step: every start is counted, and made under the cap. */
  ghost predicate Counts(l: Loop, l': Loop) {
    && l'.concurrency == l.concurrency && l'.running - l.running == |l'.live| - |l.live| && l.live <= l'.live
    && StartsUnderCap(l, l')
  }

  lemma TryExecuteUnderCap(l: Loop, t: nat)
    ensures Counts(l, TryExecuteTask(l, t))
  {
    var l' := TryExecuteTask(l, t);
    PushFrame(l.(sElem := l.sElem + {t}), t);
    assert |l.live + multiset{t}| == |l.live| + 1;
    assert l'.live == l.live || l'.live == l.live + multiset{t} by { hide PushDelayed; }
    hide Insert, PushDelayed;
  }

  lemma TryRunNextUnderCap(l: Loop)
    ensures Counts(l, TryRunNext(l))
  {
    if !l.phase.Terminated? && l.ready != [] && l.CanStart() {
      var t := l.ready[0];
      var l0 := l.(ready := l.ready[1..], qElem := l.qElem - {t});
      assert TryRunNext(l) == TryExecuteTask(l0, t);
      hide TryExecuteTask, TryRunNext;
      TryExecuteUnderCap(l0, t);
    }
  }

  lemma {:induction false} DrainUnderCap(l: Loop)
    ensures Counts(l, Drain(l))
    decreases |l.ready|
  {
    if l.CanStart() && l.ready != [] && !l.phase.Terminated? {
      PopShrinks(l);
      assert Drain(l) == Drain(TryRunNext(l));
      hide TryRunNext;
      TryRunNextUnderCap(l);
      DrainUnderCap(TryRunNext(l));
    }
  }

  lemma SettleUnderCap(l: Loop, t: nat)
    ensures var l' := Settle(l, t);
      l'.running == l.running - 1 && l'.concurrency == l.concurrency && l'.live == l.live
  {
    hide Insert;
  }

  lemma TimerUnderCap(l: Loop)
    ensures StartsUnderCap(l, OnTimer(l))
  {
    if l.delayed != [] && l.Deadline(l.delayed[0]) <= l.now {
      var t := l.delayed[0];
      var l0 := Stamp(l.(timer := None, delayed := l.delayed[1..], sElem := l.sElem - {t}), t);
      var l1 := TryExecuteTask(l0, t);
      assert OnTimer(l) == Configure(l1);
      hide TryExecuteTask, OnTimer;
      TryExecuteUnderCap(l0, t);
      hide Configure;
      ConfigureFrame(l1);
    }
  }

  lemma CompletedUnderCap(l: Loop, t: nat)
    ensures StartsUnderCap(l, OnCompleted(l, t))
  {
    var l0 := l.(log := l.log + [Ended(t, l.now)]);
    hide Settle, TryRunNext;
    SettleUnderCap(l0, t);
    TryRunNextUnderCap(Settle(l0, t));
  }

  lemma ShutdownUnderCap(l: Loop)
    ensures StartsUnderCap(l, OnCancel(l)) && StartsUnderCap(l, OnCancelNow(l).0)
  {
    hide TryRunNext;
    TryRunNextUnderCap(l.(phase := ShuttingDown));
    TryRunNextUnderCap(l.(ready := [], delayed := [],
      phase := if l.phase.ShuttingDown? then WaitingTermination else l.phase));
  }

  /** Whatever the concurrency was before: no step starts a task while over the cap. */
  lemma StepUnderCap(s: System, step: Step)
    requires Enabled(s, step)
    ensures StartsUnderCap(s.l, Apply(s, step).l)
  {
    var l := s.l;
    if !step.IsLoopStep() {
      ClientStepFrame(s, step);
      assert |Apply(s, step).l.live| <= |l.live| by { hide LoopNext; }
      hide Apply;
      return;
    }
    hide ClientNext, TryExecuteTask, OnTimer, OnCompleted, OnCanceled, OnCancel, OnCancelNow, Drain, TryRunNext;
    match step
    case TimerFires => TimerUnderCap(l);
    case DeliverSubmit(t) => TryExecuteUnderCap(Stamp(l, t), t);
    case SetConcurrency(n) => DrainUnderCap(l.(concurrency := n));
    case DeliverCompletion(t) => CompletedUnderCap(l, t);
    case CancelExecutor => ShutdownUnderCap(l);
    case CancelNow => ShutdownUnderCap(l);
    case DeliverCancel(t) => CanceledFrame(l, t);
    case SetCapacity(_) =>
  }

  lemma {:induction false} ConcurrencyCap(states: seq<System>, steps: seq<Step>, c: int, i: nat)
    requires IsRun(states, steps) && i < |states|
    requires c >= 0 && forall k :: 0 <= k < |states| ==> states[k].l.concurrency == c
    ensures states[i].l.running <= c
  {
    if i > 0 {
      ConcurrencyCap(states, steps, c, i - 1);
      assert IsStep(states[i - 1], steps[i - 1], states[i]);
      hide Apply, Enabled;
      StepUnderCap(states[i - 1], steps[i - 1]);
    }
  }

  // ---------- capacity, with racing submitters ----------

  function Load(l: Loop): int { l.running + |l.ready| + |l.delayed| }

  lemma {:induction false} InsertLength(l: Loop, d: seq<nat>, t: nat)
    ensures |Insert(l, d, t)| == |d| + 1
  {
    if d != [] { InsertLength(l, d[1..], t); }
  }

  lemma {:induction false} RemoveLength(s: seq<nat>, t: nat)
    ensures |Remove(s, t)| <= |s|
  {
    if s != [] { RemoveLength(s[1..], t); }
  }

  lemma TryExecuteLoad(l: Loop, t: nat)
    ensures Load(TryExecuteTask(l, t)) <= Load(l) + 1
  {
    InsertLength(l.(sElem := l.sElem + {t}), l.delayed, t);
  }

  lemma TryRunNextLoad(l: Loop)
    ensures Load(TryRunNext(l)) <= Load(l)
  {
    if l.ready != [] {
      TryExecuteLoad(l.(ready := l.ready[1..], qElem := l.qElem - {l.ready[0]}), l.ready[0]);
    }
  }

  lemma {:induction false} DrainLoad(l: Loop)
    ensures Load(Drain(l)) <= Load(l)
    decreases |l.ready|
  {
    if l.CanStart() && l.ready != [] && !l.phase.Terminated? {
      PopShrinks(l);
      hide TryRunNext;
      TryRunNextLoad(l);
      DrainLoad(TryRunNext(l));
    }
  }

  /** A periodic task that is queued again takes the room its execution gave up. */
  lemma SettleLoad(l: Loop, t: nat)
    ensures Load(Settle(l, t)) <= Load(l)
  {
    var l0, r := l.(running := l.running - 1), ConfigureNextRun(l.Get(t), l.now);
    hide Insert;
    if r.Next? {
      var l1 := l0.(tasks := l.tasks[t := r.task]);
      InsertLength(l1, l.delayed, t);
      PushFrame(l1, t);
    }
    hide PushDelayed;
  }

  lemma OnTimerLoad(l: Loop)
    ensures Load(OnTimer(l)) <= Load(l)
  {
    if l.delayed != [] && l.Deadline(l.delayed[0]) <= l.now {
      var t := l.delayed[0];
      TryExecuteLoad(Stamp(l.(timer := None, delayed := l.delayed[1..], sElem := l.sElem - {t}), t), t);
    }
  }

  lemma CanceledLoad(l: Loop, t: nat)
    ensures Load(OnCanceled(l, t)) <= Load(l)
  {
    CanceledFrame(l, t);
    hide OnCanceled, Remove;
    RemoveLength(l.ready, t);
    RemoveLength(l.delayed, t);
  }

  /** Only a submission adds to the load, and it is admitted on the load it sees. */
  lemma StepLoad(s: System, step: Step)
    requires Enabled(s, step)
    ensures var s' := Apply(s, step);
      if step.Submit? then Load(s'.l) == Load(s.l) && |s'.submits| == |s.submits| + 1
      else Load(s'.l) + |s'.submits| <= Load(s.l) + |s.submits|
  {
    var l := s.l;
    if !step.IsLoopStep() { ClientStepFrame(s, step); hide LoopNext; return; }
    hide ClientNext, OnTimer, TryExecuteTask, Drain, Settle, TryRunNext, OnCanceled, Remove;
    match step
    case TimerFires => OnTimerLoad(l);
    case DeliverSubmit(t) => TryExecuteLoad(Stamp(l, t), t);
    case DeliverCompletion(t) =>
      var l0 := l.(log := l.log + [Ended(t, l.now)]);
      SettleLoad(l0, t);
      TryRunNextLoad(Settle(l0, t));
    case DeliverCancel(t) => CanceledLoad(l, t);
    case SetConcurrency(n) => DrainLoad(l.(concurrency := n));
    case SetCapacity(_) =>
    case CancelExecutor => TryRunNextLoad(l.(phase := ShuttingDown));
    case CancelNow =>
      TryRunNextLoad(l.(ready := [], delayed := [],
        phase := if l.phase.ShuttingDown? then WaitingTermination else l.phase));
  }

  /** With fixed limits and at most `n` submitters between the capacity check and delivery, the
      limits are overrun by at most `n - 1`; for one submitter they are never overrun. */
  lemma {:induction false} CapacityBound(states: seq<System>, steps: seq<Step>, c: int, q: int,
                                         n: nat, i: nat)
    requires IsRun(states, steps) && i < |states| && c >= 0 && q >= 0 && n >= 1
    requires forall k :: 0 <= k < |states| ==>
      states[k].l.concurrency == c && states[k].l.capacity == q && |states[k].submits| <= n
    ensures Load(states[i].l) + |states[i].submits| <= c + q + n - 1
  {
    if i > 0 {
      CapacityBound(states, steps, c, q, n, i - 1);
      assert IsStep(states[i - 1], steps[i - 1], states[i]);
      StepLoad(states[i - 1], steps[i - 1]);
    }
  }
}
