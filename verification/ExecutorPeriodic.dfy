/**
 Timing of periodic tasks over every run: a fixed-rate task does not drift and never runs early,
 and a fixed-delay task never starts sooner than its delay after the end of any earlier run.
 */
module ExecutorPeriodic {
  import opened Options
  import opened Tasks
  import opened ExecutorLoop
  import opened ExecutorRuns

  /** How often the log says that `t` was started. */
  function Starts(log: seq<Mark>, t: nat): nat {
    if log == [] then 0
    else Starts(log[..|log| - 1], t)
         + (if log[|log| - 1].Started? && log[|log| - 1].task == t then 1 else 0)
  }

  /** How often the log says that the loop received the end of a run of `t`. */
  function Ends(log: seq<Mark>, t: nat): nat {
    if log == [] then 0
    else Ends(log[..|log| - 1], t)
         + (if log[|log| - 1].Ended? && log[|log| - 1].task == t then 1 else 0)
  }

  lemma Logged(log: seq<Mark>, m: Mark, t: nat)
    ensures Starts(log + [m], t) == Starts(log, t) + (if m.Started? && m.task == t then 1 else 0)
    ensures Ends(log + [m], t) == Ends(log, t) + (if m.Ended? && m.task == t then 1 else 0)
  {
    assert (log + [m])[..|log|] == log;
  }

  predicate Pending(task: Task) { task.status.New? || task.status.Running? }

  /** The stored deadline of task `t` and its history agree. */
  ghost predicate OnTime(l: Loop, first: map<nat, int>, t: nat)
    requires t in l.tasks
  {
    && t in first
    && (l.tasks[t].kind.FixedRate? && Pending(l.tasks[t]) ==>
          && l.tasks[t].nextRun == first[t] + Ends(l.log, t) * l.tasks[t].delay
          && Starts(l.log, t) == Ends(l.log, t) + (if l.tasks[t].status.Running? then 1 else 0))
    && (l.tasks[t].kind.FixedDelay? && Pending(l.tasks[t]) ==>
          forall k :: 0 <= k < |l.log| && l.log[k].Ended? && l.log[k].task == t ==>
            l.log[k].at + l.tasks[t].delay <= l.tasks[t].nextRun)
  }

  /** The start recorded at `k` was not early. */
  ghost predicate NotEarly(l: Loop, first: map<nat, int>, k: nat)
    requires k < |l.log|
  {
    var m := l.log[k];
    m.Started? && m.task in l.tasks && m.task in first ==>
      && (l.tasks[m.task].kind.FixedRate? ==>
            first[m.task] + Starts(l.log[..k], m.task) * l.tasks[m.task].delay <= m.at)
      && (l.tasks[m.task].kind.FixedDelay? ==>
            forall j :: 0 <= j < k && l.log[j].Ended? && l.log[j].task == m.task ==>
              l.log[j].at + l.tasks[m.task].delay <= m.at)
  }

  ghost predicate NoneEarly(l: Loop, first: map<nat, int>) {
    forall k :: 0 <= k < |l.log| ==> NotEarly(l, first, k)
  }

  /** Everything logged names a task and lies in the past. */
  ghost predicate LogPast(l: Loop) {
    forall k :: 0 <= k < |l.log| ==>
      l.log[k].task in l.tasks && (!l.log[k].Scheduled? ==> l.log[k].at <= l.now)
  }

  ghost predicate Timely(l: Loop, first: map<nat, int>) {
    && LogPast(l) && NoneEarly(l, first)
    && forall t :: t in l.tasks ==> OnTime(l, first, t)
  }

  // ---------- the pieces of a loop step ----------

  /** One more mark keeps the old starts as they are. */
  lemma NoneEarlyGrows(l: Loop, first: map<nat, int>, m: Mark)
    requires NoneEarly(l, first)
    requires NotEarly(l.(log := l.log + [m]), first, |l.log|)
    ensures NoneEarly(l.(log := l.log + [m]), first)
  {
    var l' := l.(log := l.log + [m]);
    forall k | 0 <= k < |l'.log| ensures NotEarly(l', first, k) {
      if k < |l.log| {
        assert NotEarly(l, first, k);
        assert l'.log[..k] == l.log[..k];
      }
    }
  }

  /** Starts do not depend on the status or deadline of tasks, only on kind and delay. */
  lemma NoneEarlyKeeps(l: Loop, l': Loop, first: map<nat, int>, first': map<nat, int>)
    requires NoneEarly(l, first) && l'.log == l.log && LogPast(l)
    requires forall t :: t in l.tasks ==>
      t in l'.tasks && l'.tasks[t].kind == l.tasks[t].kind && l'.tasks[t].delay == l.tasks[t].delay
    requires forall t :: t in l.tasks ==> t in first && t in first' && first'[t] == first[t]
    ensures NoneEarly(l', first')
  {
    forall k | 0 <= k < |l'.log| ensures NotEarly(l', first', k) {
      assert NotEarly(l, first, k);
    }
  }

  lemma StartNotEarly(l: Loop, first: map<nat, int>, t: nat, m: Mark)
    requires Timely(l, first) && t in l.tasks && l.tasks[t].Runnable() && l.Deadline(t) <= l.now
    requires m.Started? && m.task == t && m.at == l.now
    ensures NotEarly(l.(log := l.log + [m]), first, |l.log|)
  {
    assert OnTime(l, first, t);
    var l' := l.(log := l.log + [m]);
    assert l'.log[..|l.log|] == l.log && l'.log[|l.log|] == m;
    forall j | 0 <= j < |l.log| && l'.log[j].Ended? && l'.log[j].task == t
      ensures l'.log[j] == l.log[j]
    {}
  }

  lemma StartTimely(l: Loop, first: map<nat, int>, t: nat)
    requires Timely(l, first)
    ensures Timely(ExecuteTask(l, t), first)
  {
    var (task, ok) := SetRunning(l.Get(t), l.now);
    if ok {
      var m := Started(t, l.now, if t in l.stamp then l.stamp[t] else 0);
      StartNotEarly(l, first, t, m);
      NoneEarlyGrows(l, first, m);
      StartedTimely(l, first, t, m, task);
      SameTimely(l.(log := l.log + [m], tasks := l.tasks[t := task]), ExecuteTask(l, t), first);
    }
  }

  lemma StartedTimely(l: Loop, first: map<nat, int>, t: nat, m: Mark, task: Task)
    requires Timely(l, first) && NoneEarly(l.(log := l.log + [m]), first)
    requires t in l.tasks && l.tasks[t].Runnable() && task == l.tasks[t].(status := Running)
    requires m.Started? && m.task == t && m.at == l.now
    ensures Timely(l.(log := l.log + [m], tasks := l.tasks[t := task]), first)
  {
    var l1, l' := l.(log := l.log + [m]), l.(log := l.log + [m], tasks := l.tasks[t := task]);
    forall x | x in l'.tasks ensures OnTime(l', first, x) {
      assert OnTime(l, first, x);
      Logged(l.log, m, x);
    }
    NoneEarlyKeeps(l1, l', first, first);
  }

  lemma PushTimely(l: Loop, first: map<nat, int>, t: nat)
    requires Timely(l, first) && t in l.tasks
    ensures Timely(PushDelayed(l, t), first)
  {
    var m := Scheduled(t, l.Deadline(t));
    NoneEarlyGrows(l, first, m);
    var l' := PushDelayed(l, t);
    PushFrame(l, t);
    hide PushDelayed, Insert;
    NoneEarlyKeeps(l.(log := l.log + [m]), l', first, first);
    hide NoneEarly;
    forall x | x in l'.tasks ensures OnTime(l', first, x) {
      assert OnTime(l, first, x);
      Logged(l.log, m, x);
    }
  }

  lemma SameTimely(l: Loop, l': Loop, first: map<nat, int>)
    requires Timely(l, first) && l'.tasks == l.tasks && l'.log == l.log && l'.now >= l.now
    ensures Timely(l', first)
  {
    NoneEarlyKeeps(l, l', first, first);
    forall x | x in l'.tasks ensures OnTime(l', first, x) {
      assert OnTime(l, first, x);
    }
  }

  lemma TryExecuteTimely(l: Loop, first: map<nat, int>, t: nat)
    requires Timely(l, first)
    ensures Timely(TryExecuteTask(l, t), first)
  {
    if l.Get(t).Runnable() {
      if l.Get(t).Delay(l.now) > 0 {
        SameTimely(l, l.(sElem := l.sElem + {t}), first);
        PushTimely(l.(sElem := l.sElem + {t}), first, t);
      } else if !l.CanStart() {
        SameTimely(l, TryExecuteTask(l, t), first);
      } else {
        StartTimely(l, first, t);
      }
    }
  }

  lemma TryRunNextTimely(l: Loop, first: map<nat, int>)
    requires Timely(l, first)
    ensures Timely(TryRunNext(l), first)
  {
    if !l.phase.Terminated? && l.ready != [] && l.CanStart() {
      var t := l.ready[0];
      var l0 := l.(ready := l.ready[1..], qElem := l.qElem - {t});
      SameTimely(l, l0, first);
      TryExecuteTimely(l0, first, t);
    } else {
      SameTimely(l, TryRunNext(l), first);
    }
  }

  lemma {:induction false} DrainTimely(l: Loop, first: map<nat, int>)
    requires Timely(l, first)
    ensures Timely(Drain(l), first)
    decreases |l.ready|
  {
    if l.CanStart() && l.ready != [] && !l.phase.Terminated? {
      TryRunNextTimely(l, first);
      DrainTimely(TryRunNext(l), first);
    }
  }

  /** A task is updated; it is exempt if it is no longer pending. */
  lemma UpdateTimely(l: Loop, first: map<nat, int>, t: nat, task: Task)
    requires Timely(l, first) && t in l.tasks
    requires task.kind == l.tasks[t].kind && task.delay == l.tasks[t].delay
    requires Pending(task) ==> task.status == l.tasks[t].status && task.nextRun == l.tasks[t].nextRun
    ensures Timely(l.(tasks := l.tasks[t := task]), first)
  {
    var l' := l.(tasks := l.tasks[t := task]);
    NoneEarlyKeeps(l, l', first, first);
    forall x | x in l'.tasks ensures OnTime(l', first, x) {
      assert OnTime(l, first, x);
    }
  }

  /** The end of a run is received: the task is finished, or moves on to its next deadline. */
  lemma EndTimely(l: Loop, first: map<nat, int>, t: nat, task: Task)
    requires Timely(l, first) && t in l.tasks && !l.tasks[t].status.New?
    requires task.kind == l.tasks[t].kind && task.delay == l.tasks[t].delay
    requires !Pending(task) ||
             (l.tasks[t].Periodic() && ConfigureNextRun(l.tasks[t], l.now) == Next(task))
    ensures Timely(l.(log := l.log + [Ended(t, l.now)], tasks := l.tasks[t := task]), first)
  {
    var m := Ended(t, l.now);
    var l' := l.(log := l.log + [m], tasks := l.tasks[t := task]);
    NoneEarlyGrows(l, first, m);
    NoneEarlyKeeps(l.(log := l.log + [m]), l', first, first);
    forall x | x in l'.tasks ensures OnTime(l', first, x) {
      assert OnTime(l, first, x);
      Logged(l.log, m, x);
      if x == t && Pending(task) && task.kind.FixedRate? {
        NextMultiple(Ends(l.log, t), task.delay);
      }
    }
  }

  lemma NextMultiple(k: nat, d: int)
    ensures (k + 1) * d == k * d + d
  {}

  lemma RequeueTimely(l: Loop, first: map<nat, int>, t: nat)
    requires Timely(l, first) && t in l.tasks && l.tasks[t].status.Running? && l.tasks[t].Periodic()
    ensures Timely(Requeue(l.(log := l.log + [Ended(t, l.now)], running := l.running - 1), t), first)
  {
    var task := ConfigureNextRun(l.tasks[t], l.now).task;
    EndTimely(l, first, t, task);
    var l1 := l.(log := l.log + [Ended(t, l.now)], tasks := l.tasks[t := task]);
    var l2 := l1.(running := l.running - 1);
    SameTimely(l1, l2, first);
    if task.Delay(l.now) > 0 {
      PushTimely(l2, first, t);
    } else {
      SameTimely(l2, Stamp(l2, t).(ready := l2.ready + [t]), first);
    }
  }

  lemma SettleTimely(l: Loop, first: map<nat, int>, t: nat)
    requires Timely(l, first) && t in l.tasks && !l.tasks[t].status.New?
    requires Consistent(l.tasks[t]) && (l.tasks[t].Periodic() || l.tasks[t].status.Done?)
    ensures Timely(Settle(l.(log := l.log + [Ended(t, l.now)]), t), first)
  {
    var l0 := l.(log := l.log + [Ended(t, l.now)]);
    if l.tasks[t].status.Done? || l.tasks[t].canceled {
      var l', task := Settle(l0, t), SetDone(l.tasks[t], ContextCanceled).0;
      EndTimely(l, first, t, task);
      assert l.tasks[t].status.Done? ==> l.tasks[t := task] == l.tasks;
      SameTimely(l0.(tasks := l0.tasks[t := task]), l', first);
    } else {
      assert Settle(l0, t) == Requeue(l0.(running := l.running - 1), t);
      RequeueTimely(l, first, t);
    }
  }

  lemma OnTimerTimely(l: Loop, first: map<nat, int>)
    requires Timely(l, first)
    ensures Timely(OnTimer(l), first)
  {
    if l.delayed != [] && l.Deadline(l.delayed[0]) <= l.now {
      var t := l.delayed[0];
      var l0 := Stamp(l.(timer := None, delayed := l.delayed[1..], sElem := l.sElem - {t}), t);
      assert OnTimer(l) == Configure(TryExecuteTask(l0, t));
      SameTimely(l, l0, first);
      TryExecuteTimely(l0, first, t);
      ConfigureTimely(TryExecuteTask(l0, t), first);
    } else {
      SameTimely(l, l.(timer := None), first);
      ConfigureTimely(l.(timer := None), first);
    }
  }

  lemma ConfigureTimely(l: Loop, first: map<nat, int>)
    requires Timely(l, first)
    ensures Timely(Configure(l), first)
  {
    SameTimely(l, Configure(l), first);
  }

  // ---------- steps and runs ----------

  lemma CanceledTimely(l: Loop, first: map<nat, int>, t: nat)
    requires Timely(l, first) && t in l.tasks
    ensures Timely(OnCanceled(l, t), first)
  {
    CanceledFrame(l, t);
    hide Timely, OnCanceled;
    UpdateTimely(l, first, t, NoteCanceled(l.tasks[t]));
    SameTimely(l.(tasks := l.tasks[t := NoteCanceled(l.tasks[t])]), OnCanceled(l, t), first);
  }

  lemma ShutdownTimely(l: Loop, first: map<nat, int>)
    requires Timely(l, first)
    ensures Timely(OnCancel(l), first) && Timely(OnCancelNow(l).0, first)
  {
    hide Timely, TryRunNext;
    SameTimely(l, l.(phase := ShuttingDown), first);
    TryRunNextTimely(l.(phase := ShuttingDown), first);
    var l0 := l.(ready := [], delayed := [],
                 phase := if l.phase.ShuttingDown? then WaitingTermination else l.phase);
    SameTimely(l, l0, first);
    TryRunNextTimely(l0, first);
  }

  lemma LoopStepTimely(s: System, step: Step)
    requires Conserved(s) && Enabled(s, step) && step.IsLoopStep() && Timely(s.l, s.first)
    ensures Timely(Apply(s, step).l, s.first)
  {
    var l, first := s.l, s.first;
    if step.DeliverCompletion? { assert OwnedOnce(l, s.submits + s.returned, s.completions, step.t); }
    hide Conserved, Timely, ClientNext, OnTimer, TryExecuteTask, Settle, TryRunNext, OnCanceled,
         OnCancel, OnCancelNow, Drain;
    match step
    case TimerFires => OnTimerTimely(l, first);
    case DeliverSubmit(t) => SameTimely(l, Stamp(l, t), first); TryExecuteTimely(Stamp(l, t), first, t);
    case DeliverCompletion(t) =>
      SettleTimely(l, first, t);
      TryRunNextTimely(Settle(l.(log := l.log + [Ended(t, l.now)]), t), first);
    case DeliverCancel(t) => CanceledTimely(l, first, t);
    case SetConcurrency(n) =>
      SameTimely(l, l.(concurrency := n), first);
      DrainTimely(l.(concurrency := n), first);
    case SetCapacity(n) => SameTimely(l, l.(capacity := n), first);
    case CancelExecutor => ShutdownTimely(l, first);
    case CancelNow => ShutdownTimely(l, first);
  }

  lemma SubmitTimely(l: Loop, first: map<nat, int>, t: nat, task: Task)
    requires Timely(l, first) && t !in l.tasks && task.status.New?
    ensures Timely(l.(tasks := l.tasks[t := task]), first[t := task.nextRun])
  {
    var l', first' := l.(tasks := l.tasks[t := task]), first[t := task.nextRun];
    assert forall x :: x in l.tasks ==> OnTime(l, first, x);
    NoneEarlyKeeps(l, l', first, first');
    Unlogged(l.log, t);
    forall x | x in l'.tasks ensures OnTime(l', first', x) {
      if x != t { assert OnTime(l, first, x); }
    }
  }

  lemma {:induction false} Unlogged(log: seq<Mark>, t: nat)
    requires forall k :: 0 <= k < |log| ==> log[k].task != t
    ensures Starts(log, t) == 0 && Ends(log, t) == 0
  {
    if log != [] { Unlogged(log[..|log| - 1], t); }
  }

  lemma FinishBodyTimely(s: System, step: Step)
    requires Conserved(s) && Enabled(s, step) && step.FinishBody? && Timely(s.l, s.first)
    ensures Timely(Apply(s, step).l, s.first)
  {
    var l, t, s' := s.l, step.t, Apply(s, step);
    UpdateTimely(l, s.first, t, s'.l.tasks[t]);
    assert l.tasks[t := s'.l.tasks[t]] == s'.l.tasks;
    SameTimely(l.(tasks := s'.l.tasks), s'.l, s.first);
  }

  lemma ClientStepTimely(s: System, step: Step)
    requires Conserved(s) && Enabled(s, step) && !step.IsLoopStep() && Timely(s.l, s.first)
    ensures Timely(Apply(s, step).l, Apply(s, step).first)
  {
    var l, first, s' := s.l, s.first, Apply(s, step);
    hide LoopNext, Timely;
    if step.FinishBody? {
      assert s'.first == first;
      hide ClientNext, Apply, Conserved;
      FinishBodyTimely(s, step);
      return;
    }
    match step
    case Submit(t, kind, initialDelay, delay) =>
      var task := NewTask(kind, initialDelay, delay, l.now);
      assert s'.l == l.(tasks := l.tasks[t := task]) && s'.first == first[t := task.nextRun];
      hide ClientNext, Apply, Conserved;
      SubmitTimely(l, first, t, task);
    case CancelTask(t) =>
      assert s'.l == l.(tasks := l.tasks[t := Cancel(l.tasks[t]).0]) && s'.first == first;
      hide ClientNext, Apply, Conserved;
      UpdateTimely(l, first, t, Cancel(l.tasks[t]).0);
    case AwaitTask(t) =>
      assert s'.l == l.(tasks := l.tasks[t := Await(l.tasks[t])]) && s'.first == first;
      hide ClientNext, Apply, Conserved;
      UpdateTimely(l, first, t, Await(l.tasks[t]));
    case Tick(_) => SameTimely(l, s'.l, first);
  }

  lemma {:induction false} RunTimely(states: seq<System>, steps: seq<Step>, i: nat)
    requires IsRun(states, steps) && i < |states|
    ensures Timely(states[i].l, states[i].first)
  {
    if i > 0 {
      var k := i - 1;
      assert IsStep(states[k], steps[k], states[i]);
      RunTimely(states, steps, k);
      RunConserves(states, steps, k);
      if steps[k].IsLoopStep() {
        LoopStepTimely(states[k], steps[k]);
      } else {
        ClientStepTimely(states[k], steps[k]);
      }
    }
  }

  /** A fixed-rate task: its run number `r` (from 0) starts at `first + r * period` or later, and
      while it is pending the stored deadline is exactly that of its next or current run. */
  lemma FixedRateTiming(states: seq<System>, steps: seq<Step>, i: nat, t: nat)
    requires IsRun(states, steps) && i < |states|
    requires t in states[i].l.tasks && states[i].l.tasks[t].kind.FixedRate?
    ensures var s := states[i];
      && t in s.first
      && (forall k :: 0 <= k < |s.l.log| && s.l.log[k].Started? && s.l.log[k].task == t ==>
            s.first[t] + Starts(s.l.log[..k], t) * s.l.tasks[t].delay <= s.l.log[k].at)
      && (Pending(s.l.tasks[t]) ==>
            s.l.tasks[t].nextRun == s.first[t] + Ends(s.l.log, t) * s.l.tasks[t].delay)
  {
    RunTimely(states, steps, i);
    var s := states[i];
    assert OnTime(s.l, s.first, t);
    forall k | 0 <= k < |s.l.log| && s.l.log[k].Started? && s.l.log[k].task == t
      ensures s.first[t] + Starts(s.l.log[..k], t) * s.l.tasks[t].delay <= s.l.log[k].at
    {
      assert NotEarly(s.l, s.first, k);
    }
  }

  /** A fixed-delay task: no run starts sooner than `delay` after the end of an earlier run. */
  lemma FixedDelayTiming(states: seq<System>, steps: seq<Step>, i: nat, j: nat, k: nat)
    requires IsRun(states, steps) && i < |states| && j < k < |states[i].l.log|
    requires var log := states[i].l.log;
      log[j].Ended? && log[k].Started? && log[j].task == log[k].task
    requires var t := states[i].l.log[k].task;
      t in states[i].l.tasks && states[i].l.tasks[t].kind.FixedDelay?
    ensures var l := states[i].l;
      l.log[j].at + l.tasks[l.log[k].task].delay <= l.log[k].at
  {
    RunTimely(states, steps, i);
    var s := states[i];
    assert OnTime(s.l, s.first, s.l.log[k].task);
    assert NotEarly(s.l, s.first, k);
  }

  // ---------- the tasks that were asked for ----------

  /** A task is submitted as it was asked for. */
  lemma SubmitGives(s: System, t: nat, kind: Kind, initialDelay: int, delay: int)
    requires Enabled(s, Submit(t, kind, initialDelay, delay))
    ensures var s' := Apply(s, Submit(t, kind, initialDelay, delay));
      && t in s'.l.tasks && s'.l.tasks[t].kind == kind && s'.l.tasks[t].delay == delay
      && s'.l.tasks[t].nextRun == s.l.now + initialDelay && s'.l.tasks[t].status.New?
      && t in s'.first && s'.first[t] == s.l.now + initialDelay
  {
    hide LoopNext;
  }

  /** What was asked for does not change, and neither does a failure once it is final. */
  ghost predicate Settled(s: System, s': System, t: nat) {
    && t in s.l.tasks && t in s'.l.tasks && TaskEvolves(s.l.tasks[t], s'.l.tasks[t])
    && (t in s.first ==> t in s'.first && s'.first[t] == s.first[t])
  }

  lemma ClientStepFirst(s: System, step: Step)
    requires Enabled(s, step) && !step.IsLoopStep()
    ensures var first' := Apply(s, step).first;
      first' == s.first || (step.Submit? && first' == s.first[step.t := first'[step.t]])
  {
    hide LoopNext;
  }

  lemma OwnStepEvolves(s: System, step: Step)
    requires Enabled(s, step) && !step.IsLoopStep() && !step.Tick? && step.t in s.l.tasks
    ensures var l' := Apply(s, step).l; step.t in l'.tasks && TaskEvolves(s.l.tasks[step.t], l'.tasks[step.t])
  {
    hide LoopNext;
    match step
    case CancelTask(t) =>
    case AwaitTask(t) =>
    case FinishBody(t, err) =>
  }

  lemma ClientStepEvolves(s: System, step: Step, t: nat)
    requires Enabled(s, step) && !step.IsLoopStep() && t in s.l.tasks
    ensures Settled(s, Apply(s, step), t)
  {
    ClientStepFrame(s, step);
    ClientStepFirst(s, step);
    if !step.Tick? && step.t == t { OwnStepEvolves(s, step); }
    hide Apply;
  }

  lemma LoopStepFirst(s: System, step: Step)
    requires Enabled(s, step) && step.IsLoopStep()
    ensures Apply(s, step).first == s.first
  {
    hide ClientNext, OnTimer, OnSubmitted, OnCompleted, OnCanceled, OnUpdateConcurrency, OnCancel, OnCancelNow;
  }

  lemma StepSettled(s: System, step: Step, t: nat)
    requires Conserved(s) && Enabled(s, step) && t in s.l.tasks
    ensures Settled(s, Apply(s, step), t)
  {
    if step.IsLoopStep() {
      assert step.DeliverCompletion? ==> step.t in s.l.tasks;
      hide Conserved, Apply;
      LoopStepEvolves(s, step);
      LoopStepFirst(s, step);
    } else {
      hide Conserved, Apply;
      ClientStepEvolves(s, step, t);
    }
  }

  lemma {:induction false} RunSettled(states: seq<System>, steps: seq<Step>, j: nat, i: nat, t: nat)
    requires IsRun(states, steps) && j <= i < |states| && t in states[j].l.tasks && t in states[j].first
    ensures Settled(states[j], states[i], t) && t in states[i].first
    decreases i - j
  {
    if j < i {
      assert IsStep(states[i - 1], steps[i - 1], states[i]);
      hide IsRun, Conserved, Apply, Enabled;
      RunSettled(states, steps, j, i - 1, t);
      RunConserves(states, steps, i - 1);
      StepSettled(states[i - 1], steps[i - 1], t);
    }
  }

  /** What a Submit step asked for is the task in every later state. */
  lemma SubmittedStays(states: seq<System>, steps: seq<Step>, j: nat, i: nat)
    requires IsRun(states, steps) && j < i < |states| && steps[j].Submit?
    ensures var s, step := states[i], steps[j];
      && step.t in s.l.tasks && s.l.tasks[step.t].kind == step.kind && s.l.tasks[step.t].delay == step.delay
      && step.t in s.first && s.first[step.t] == states[j].l.now + step.initialDelay
  {
    var step := steps[j];
    assert IsStep(states[j], step, states[j + 1]);
    hide IsRun, Apply, Enabled;
    SubmitGives(states[j], step.t, step.kind, step.initialDelay, step.delay);
    RunSettled(states, steps, j + 1, i, step.t);
  }

  /** A task asked for at a fixed rate: run number `r` starts no earlier than the time it was asked for plus
      the initial delay plus `r` periods, and while it is pending the stored deadline is exactly that of its
      next or current run. */
  lemma AskedAtFixedRate(states: seq<System>, steps: seq<Step>, j: nat, i: nat)
    requires IsRun(states, steps) && j < i < |states| && steps[j].Submit? && steps[j].kind.FixedRate?
    ensures var l, step, asked := states[i].l, steps[j], states[j].l.now;
      && step.t in l.tasks
      && (forall k :: 0 <= k < |l.log| && l.log[k].Started? && l.log[k].task == step.t ==>
            asked + step.initialDelay + Starts(l.log[..k], step.t) * step.delay <= l.log[k].at)
      && (Pending(l.tasks[step.t]) ==>
            l.tasks[step.t].nextRun == asked + step.initialDelay + Ends(l.log, step.t) * step.delay)
  {
    SubmittedStays(states, steps, j, i);
    hide IsRun;
    FixedRateTiming(states, steps, i, steps[j].t);
  }

  /** A task asked for with a fixed delay: no run starts sooner than that delay after the end of an earlier
      one. */
  lemma AskedWithFixedDelay(states: seq<System>, steps: seq<Step>, j: nat, i: nat, m: nat, k: nat)
    requires IsRun(states, steps) && j < i < |states| && steps[j].Submit? && steps[j].kind.FixedDelay?
    requires m < k < |states[i].l.log|
    requires var log, t := states[i].l.log, steps[j].t;
      log[m].Ended? && log[k].Started? && log[m].task == log[k].task == t
    ensures states[i].l.log[m].at + steps[j].delay <= states[i].l.log[k].at
  {
    SubmittedStays(states, steps, j, i);
    hide IsRun;
    FixedDelayTiming(states, steps, i, m, k);
  }

  /** The error that a body ends with is that of its task from then on, whatever else happens to it. */
  lemma FailureIsKept(states: seq<System>, steps: seq<Step>, j: nat, i: nat)
    requires IsRun(states, steps) && j < i < |states| && steps[j].FinishBody? && steps[j].err.Failed?
    requires !states[j].l.Get(steps[j].t).status.Done?
    ensures var task := states[i].l.Get(steps[j].t); task.status.Done? && task.err == steps[j].err
  {
    var t := steps[j].t;
    assert IsStep(states[j], steps[j], states[j + 1]);
    assert states[j + 1].l.Get(t).status.Done? && states[j + 1].l.Get(t).err == steps[j].err by { hide LoopNext; }
    hide IsRun, Apply, Enabled;
    RunTimely(states, steps, j + 1);
    assert OnTime(states[j + 1].l, states[j + 1].first, t);
    RunSettled(states, steps, j + 1, i, t);
  }
}
