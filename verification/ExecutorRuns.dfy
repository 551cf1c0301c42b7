/**
 Runs of the executor: the loop together with its clients, the running task bodies and the
 clock. A step is one client call, one task body finishing, one tick, or one event received by
 the loop; `eventChn` is unbuffered, so an undelivered event is a blocked sender.
 */
module ExecutorRuns {
  import opened Options
  import opened Tasks
  import opened ExecutorLoop

  datatype System = System(
    l: Loop,
    submits: multiset<nat>,      // submitters blocked on the event channel
    completions: multiset<nat>,  // finished bodies blocked on it
    cancels: multiset<nat>,      // cancelled tasks whose event is not delivered
    returned: multiset<nat>,     // futures handed back by CancelNow
    first: map<nat, int>)        // history: the first deadline of every task

  datatype Step =
    | Submit(t: nat, kind: Kind, initialDelay: int, delay: int)
    | CancelTask(t: nat)
    | AwaitTask(t: nat)
    | FinishBody(t: nat, err: Error)
    | Tick(d: nat)
    | TimerFires
    | DeliverSubmit(t: nat)
    | DeliverCompletion(t: nat)
    | DeliverCancel(t: nat)
    | SetConcurrency(n: int)
    | SetCapacity(n: int)
    | CancelExecutor
    | CancelNow
  {
    predicate IsLoopStep() {
      TimerFires? || DeliverSubmit? || DeliverCompletion? || DeliverCancel? ||
      SetConcurrency? || SetCapacity? || CancelExecutor? || CancelNow?
    }
  }

  predicate Enabled(s: System, step: Step) {
    && (step.IsLoopStep() ==> !s.l.exited && !s.l.panicked && !s.l.broken)
    && match step
       case Submit(t, _, _, _) =>
         t !in s.l.tasks && !s.l.phase.Canceled() && RemainingTotalCapacity(s.l) >= 1
       case CancelTask(t) => t in s.l.tasks && Cancel(s.l.tasks[t]).1
       case AwaitTask(t) => t in s.l.tasks
       case FinishBody(t, _) => t in s.l.live && t in s.l.tasks
       case TimerFires => s.l.timer.Some? && s.l.timer.value <= s.l.now
       case DeliverSubmit(t) => t in s.submits
       case DeliverCompletion(t) => t in s.completions
       case DeliverCancel(t) => t in s.cancels
       // CancelNow first cancels the executor and waits for the answer.
       case CancelNow => s.l.phase.Canceled()
       case _ => true
  }

  function Apply(s: System, step: Step): System
    requires Enabled(s, step)
  {
    if step.IsLoopStep() then LoopNext(s, step) else ClientNext(s, step)
  }

  /** A step of a submitter, a canceller, a task body or the clock. */
  function ClientNext(s: System, step: Step): System
    requires Enabled(s, step)
  {
    var l := s.l;
    match step
    case Submit(t, kind, initialDelay, delay) =>
      var task := NewTask(kind, initialDelay, delay, l.now);
      s.(l := l.(tasks := l.tasks[t := task]), submits := s.submits + multiset{t},
         first := s.first[t := task.nextRun])
    case CancelTask(t) =>
      s.(l := l.(tasks := l.tasks[t := Cancel(l.tasks[t]).0]), cancels := s.cancels + multiset{t})
    case AwaitTask(t) => s.(l := l.(tasks := l.tasks[t := Await(l.tasks[t])]))
    case FinishBody(t, err) =>
      var task := l.tasks[t];
      s.(l := l.(live := l.live - multiset{t},
                 tasks := l.tasks[t := if err != NoError || !task.Periodic() then SetDone(task, err).0 else task]),
         completions := s.completions + multiset{t})
    case Tick(d) => s.(l := l.(now := l.now + d))
    case _ => s
  }

  /** An event that the loop receives. */
  function LoopNext(s: System, step: Step): System
    requires Enabled(s, step)
  {
    var l := s.l;
    match step
    case TimerFires => s.(l := OnTimer(l))
    case DeliverSubmit(t) => s.(l := OnSubmitted(l, t), submits := s.submits - multiset{t})
    case DeliverCompletion(t) =>
      s.(l := OnCompleted(l, t), completions := s.completions - multiset{t})
    case DeliverCancel(t) => s.(l := OnCanceled(l, t), cancels := s.cancels - multiset{t})
    case SetConcurrency(n) => s.(l := OnUpdateConcurrency(l, n))
    case SetCapacity(n) => s.(l := OnUpdateCapacity(l, n))
    case CancelExecutor => s.(l := OnCancel(l))
    case CancelNow =>
      var (l', futures) := OnCancelNow(l);
      s.(l := l', returned := s.returned + multiset(futures))
    case _ => s
  }

  predicate Init(s: System) {
    && s.l.tasks == map[] && s.l.phase.Active? && s.l.ready == [] && s.l.delayed == []
    && s.l.qElem == {} && s.l.sElem == {} && s.l.timer == Some(s.l.now) && s.l.running == 0
    && s.l.live == multiset{} && s.l.closes == 0 && !s.l.exited && !s.l.panicked && !s.l.broken
    && s.l.arrivals == 0 && s.l.stamp == map[] && s.l.log == []
    && s.submits == s.completions == s.cancels == s.returned == multiset{} && s.first == map[]
  }

  /** A run: states, and between them enabled steps. */
  ghost predicate IsRun(states: seq<System>, steps: seq<Step>) {
    && |states| == |steps| + 1
    && Init(states[0])
    && forall i {:trigger steps[i]} :: 0 <= i < |steps| ==> IsStep(states[i], steps[i], states[i + 1])
  }

  ghost predicate IsStep(s: System, step: Step, s': System) {
    Enabled(s, step) && s' == Apply(s, step)
  }

  // ---------- ownership ----------

  /** How often task `t` waits to be started: in the loop's queues, or outside (`P`). */
  function Waits(l: Loop, P: multiset<nat>, t: nat): nat {
    P[t] + multiset(l.ready)[t] + multiset(l.delayed)[t]
  }

  /** How many executions task `t` has: a live body, or one whose end is not yet delivered (`E`). */
  function Runs(l: Loop, E: multiset<nat>, t: nat): nat { E[t] + l.live[t] }

  /** Task `t` has at most one owner; a New task is in one place, a started one in one execution. */
  ghost predicate OwnedOnce(l: Loop, P: multiset<nat>, E: multiset<nat>, t: nat) {
    && Waits(l, P, t) + Runs(l, E, t) <= (if t in l.tasks then 1 else 0)
    && (t in l.tasks ==>
          && Consistent(l.tasks[t])
          && (l.tasks[t].status.New? ==> Waits(l, P, t) == 1)
          && (l.tasks[t].status.Running? || l.tasks[t].status.Cancelling? ==> Runs(l, E, t) == 1))
  }

  ghost predicate AllOwned(l: Loop, P: multiset<nat>, E: multiset<nat>) {
    forall t: nat :: OwnedOnce(l, P, E, t)
  }

  /** A finished body is Done, unless its task is periodic. */
  ghost predicate BodiesOver(l: Loop, E: multiset<nat>) {
    forall t :: t in E ==> t in l.tasks && (l.tasks[t].Periodic() || l.tasks[t].status.Done?)
  }

  ghost predicate Own(l: Loop, P: multiset<nat>, E: multiset<nat>) {
    AllOwned(l, P, E) && l.running == |E| + |l.live| && BodiesOver(l, E) && !l.panicked
  }

  ghost predicate Conserved(s: System) {
    && Own(s.l, s.submits + s.returned, s.completions)
    && (forall t :: t in s.cancels ==> t in s.l.tasks && s.l.tasks[t].canceled)
  }

  lemma {:induction false} InsertCounts(l: Loop, d: seq<nat>, t: nat)
    ensures multiset(Insert(l, d, t)) == multiset(d) + multiset{t}
  {
    if d != [] && l.Deadline(t) >= l.Deadline(d[0]) {
      InsertCounts(l, d[1..], t);
      assert d == [d[0]] + d[1..];
    }
  }

  lemma {:induction false} RemoveCounts(s: seq<nat>, t: nat)
    ensures multiset(Remove(s, t)) == multiset(s) - multiset{t}
  {
    if s != [] {
      assert s == [s[0]] + s[1..];
      if s[0] != t {
        RemoveCounts(s[1..], t);
        assert multiset(Remove(s, t)) == multiset{s[0]} + multiset(Remove(s[1..], t));
      }
    }
  }

  /** Nothing but task `t` and its owner changes. */
  ghost predicate OnlyAt(l: Loop, P: multiset<nat>, E: multiset<nat>,
                         l': Loop, P': multiset<nat>, E': multiset<nat>, t: nat) {
    forall x: nat :: x != t ==>
      && Waits(l', P', x) == Waits(l, P, x) && Runs(l', E', x) == Runs(l, E, x)
      && (x in l'.tasks <==> x in l.tasks) && (x in l.tasks ==> l'.tasks[x] == l.tasks[x])
  }

  /** Changing one task and its owner keeps the balance of all others. */
  lemma Retask(l: Loop, P: multiset<nat>, E: multiset<nat>,
               l': Loop, P': multiset<nat>, E': multiset<nat>, t: nat)
    requires AllOwned(l, P, E) && OnlyAt(l, P, E, l', P', E', t) && OwnedOnce(l', P', E', t)
    ensures AllOwned(l', P', E')
  {
    forall x: nat ensures OwnedOnce(l', P', E', x) {
      assert OwnedOnce(l, P, E, x);
    }
  }

  /** A task that is updated keeps its owner, if its new status allows. */
  lemma UpdateOwns(l: Loop, P: multiset<nat>, E: multiset<nat>, t: nat, task: Task)
    requires Own(l, P, E) && t in l.tasks && Consistent(task)
    requires task.status == l.tasks[t].status || task.status.Done?
             || (l.tasks[t].status.Running? && task.status.Cancelling?)
    requires task.kind == l.tasks[t].kind
    ensures Own(l.(tasks := l.tasks[t := task]), P, E)
  {
    assert OwnedOnce(l, P, E, t);
    Retask(l, P, E, l.(tasks := l.tasks[t := task]), P, E, t);
  }

  /** Ownership does not depend on where in the loop the places are. */
  lemma OwnSame(l: Loop, P: multiset<nat>, E: multiset<nat>, l': Loop, P': multiset<nat>)
    requires Own(l, P, E)
    requires l'.tasks == l.tasks && l'.live == l.live && l'.running == l.running && !l'.panicked
    requires forall x: nat :: Waits(l', P', x) == Waits(l, P, x)
    ensures Own(l', P', E)
  {
    forall x: nat ensures OwnedOnce(l', P', E, x) {
      assert OwnedOnce(l, P, E, x);
    }
  }

  /** The same, with the queues as they were. */
  lemma OwnFrame(l: Loop, P: multiset<nat>, E: multiset<nat>, l': Loop)
    requires Own(l, P, E)
    requires l'.tasks == l.tasks && l'.live == l.live && l'.running == l.running && !l'.panicked
    requires l'.ready == l.ready && l'.delayed == l.delayed
    ensures Own(l', P, E)
  {
    OwnSame(l, P, E, l', P);
  }

  lemma DropOwns(l: Loop, P: multiset<nat>, E: multiset<nat>, t: nat)
    requires Own(l, P + multiset{t}, E) && !l.Get(t).Runnable()
    ensures Own(l, P, E)
  {
    assert OwnedOnce(l, P + multiset{t}, E, t);
    Retask(l, P + multiset{t}, E, l, P, E, t);
  }

  lemma StartOwns(l: Loop, P: multiset<nat>, E: multiset<nat>, t: nat)
    requires Own(l, P + multiset{t}, E) && l.Get(t).Runnable() && l.Get(t).Delay(l.now) <= 0
    ensures Own(ExecuteTask(l, t), P, E)
  {
    var l' := ExecuteTask(l, t);
    assert OwnedOnce(l, P + multiset{t}, E, t);
    assert l'.live == l.live + multiset{t} && l'.tasks == l.tasks[t := l.tasks[t].(status := Running)]
      && l'.ready == l.ready && l'.delayed == l.delayed && l'.running == l.running + 1 && !l'.panicked;
    hide ExecuteTask;
    Retask(l, P + multiset{t}, E, l', P, E, t);
  }

  lemma DelayOwns(l: Loop, P: multiset<nat>, E: multiset<nat>, t: nat)
    requires Own(l, P + multiset{t}, E)
    ensures Own(PushDelayed(l, t), P, E)
  {
    InsertCounts(l, l.delayed, t);
    var l' := PushDelayed(l, t);
    assert l'.delayed == Insert(l, l.delayed, t) && l'.ready == l.ready && l'.tasks == l.tasks
      && l'.live == l.live && l'.running == l.running && !l'.panicked;
    hide PushDelayed, Insert;
    OwnSame(l, P + multiset{t}, E, l', P);
  }

  lemma QueueOwns(l: Loop, P: multiset<nat>, E: multiset<nat>, t: nat, l': Loop)
    requires Own(l, P + multiset{t}, E)
    requires l'.tasks == l.tasks && l'.live == l.live && l'.running == l.running && !l'.panicked
    requires l'.ready == l.ready + [t] && l'.delayed == l.delayed
    ensures Own(l', P, E)
  {
    OwnSame(l, P + multiset{t}, E, l', P);
  }

  /** A task in hand ends up owned by the loop, unless it was finished already. */
  lemma TryExecuteOwns(l: Loop, P: multiset<nat>, E: multiset<nat>, t: nat)
    requires Own(l, P + multiset{t}, E)
    ensures Own(TryExecuteTask(l, t), P, E)
  {
    hide Own, ExecuteTask, PushDelayed;
    if !l.Get(t).Runnable() {
      DropOwns(l, P, E, t);
    } else if l.Get(t).Delay(l.now) > 0 {
      var l0 := l.(sElem := l.sElem + {t});
      OwnUnpanicked(l, P + multiset{t}, E);
      OwnFrame(l, P + multiset{t}, E, l0);
      DelayOwns(l0, P, E, t);
    } else if !l.CanStart() {
      OwnUnpanicked(l, P + multiset{t}, E);
      QueueOwns(l, P, E, t, TryExecuteTask(l, t));
    } else {
      StartOwns(l, P, E, t);
    }
  }

  lemma OwnUnpanicked(l: Loop, P: multiset<nat>, E: multiset<nat>)
    requires Own(l, P, E)
    ensures !l.panicked
  {}

  /** A task that leaves a queue is in hand. */
  lemma PopReadyOwns(l: Loop, P: multiset<nat>, E: multiset<nat>, l': Loop)
    requires Own(l, P, E) && l.ready != []
    requires l'.tasks == l.tasks && l'.live == l.live && l'.running == l.running && !l'.panicked
    requires l'.ready == l.ready[1..] && l'.delayed == l.delayed
    ensures Own(l', P + multiset{l.ready[0]}, E)
  {
    assert l.ready == [l.ready[0]] + l.ready[1..];
    OwnSame(l, P, E, l', P + multiset{l.ready[0]});
  }

  lemma PopDelayedOwns(l: Loop, P: multiset<nat>, E: multiset<nat>, l': Loop)
    requires Own(l, P, E) && l.delayed != []
    requires l'.tasks == l.tasks && l'.live == l.live && l'.running == l.running && !l'.panicked
    requires l'.delayed == l.delayed[1..] && l'.ready == l.ready
    ensures Own(l', P + multiset{l.delayed[0]}, E)
  {
    assert l.delayed == [l.delayed[0]] + l.delayed[1..];
    OwnSame(l, P, E, l', P + multiset{l.delayed[0]});
  }

  lemma TryRunNextOwns(l: Loop, P: multiset<nat>, E: multiset<nat>)
    requires Own(l, P, E)
    ensures Own(TryRunNext(l), P, E)
  {
    if !l.phase.Terminated? && l.ready != [] && l.CanStart() {
      var t := l.ready[0];
      var l0 := l.(ready := l.ready[1..], qElem := l.qElem - {t});
      assert TryRunNext(l) == TryExecuteTask(l0, t);
      PopReadyOwns(l, P, E, l0);
      hide Own, TryRunNext, TryExecuteTask;
      TryExecuteOwns(l0, P, E, t);
    } else {
      OwnFrame(l, P, E, TryRunNext(l));
    }
  }

  lemma RearmOwns(l: Loop, P: multiset<nat>, E: multiset<nat>, t: nat, task: Task)
    requires Own(l, P, E + multiset{t}) && l.Get(t).status.Running?
    requires task.(status := l.Get(t).status, nextRun := l.Get(t).nextRun) == l.Get(t) && task.status.New?
    ensures Own(l.(running := l.running - 1, tasks := l.tasks[t := task]), P + multiset{t}, E)
  {
    assert OwnedOnce(l, P, E + multiset{t}, t);
    var l' := l.(running := l.running - 1, tasks := l.tasks[t := task]);
    assert |E + multiset{t}| == |E| + 1;
    Retask(l, P, E + multiset{t}, l', P + multiset{t}, E, t);
    assert forall x :: x in E ==> x in E + multiset{t};
  }

  lemma RequeueOwns(l: Loop, P: multiset<nat>, E: multiset<nat>, t: nat)
    requires Own(l, P, E + multiset{t}) && l.Get(t).status.Running? && l.Get(t).Periodic()
    ensures Own(Requeue(l.(running := l.running - 1), t), P, E)
  {
    var l1 := l.(running := l.running - 1);
    var task := ConfigureNextRun(l.Get(t), l.now).task;
    var l0 := l1.(tasks := l.tasks[t := task]);
    RequeueCases(l1, t);
    hide Own, Requeue, PushDelayed;
    RearmOwns(l, P, E, t, task);
    if task.Delay(l.now) > 0 {
      DelayOwns(l0, P, E, t);
    } else {
      OwnUnpanicked(l0, P + multiset{t}, E);
      QueueOwns(l0, P, E, t, PushBack(l0, t));
    }
  }

  function PushBack(l: Loop, t: nat): Loop { Stamp(l, t).(ready := l.ready + [t]) }

  lemma RequeueCases(l: Loop, t: nat)
    requires l.Get(t).status.Running? && l.Get(t).Periodic()
    ensures var task := ConfigureNextRun(l.Get(t), l.now).task;
      var l0 := l.(tasks := l.tasks[t := task]);
      Requeue(l, t) == if task.Delay(l.now) > 0 then PushDelayed(l0, t) else PushBack(l0, t)
  {
    hide PushDelayed;
  }

  lemma FinishOwns(l: Loop, P: multiset<nat>, E: multiset<nat>, t: nat)
    requires Own(l, P, E + multiset{t}) && l.Get(t).status.Done?
    ensures Own(l.(running := l.running - 1), P, E)
  {
    assert OwnedOnce(l, P, E + multiset{t}, t);
    assert |E + multiset{t}| == |E| + 1;
    Retask(l, P, E + multiset{t}, l.(running := l.running - 1), P, E, t);
    assert forall x :: x in E ==> x in E + multiset{t};
  }

  lemma SettleFinishedOwns(l: Loop, P: multiset<nat>, E: multiset<nat>, t: nat)
    requires Own(l, P, E + multiset{t}) && t in l.tasks && Consistent(l.tasks[t])
    requires l.tasks[t].status.Done? || l.tasks[t].canceled
    ensures Own(Settle(l, t), P, E)
  {
    hide Own, Requeue;
    if l.tasks[t].status.Done? {
      FinishOwns(l, P, E, t);
    } else {
      var task := SetDone(l.tasks[t], ContextCanceled).0;
      UpdateOwns(l, P, E + multiset{t}, t, task);
      FinishOwns(l.(tasks := l.tasks[t := task]), P, E, t);
    }
  }

  lemma SettleOwns(l: Loop, P: multiset<nat>, E: multiset<nat>, t: nat)
    requires Own(l, P, E + multiset{t})
    ensures Own(Settle(l, t), P, E)
  {
    assert OwnedOnce(l, P, E + multiset{t}, t);
    assert t in E + multiset{t};
    assert t in l.tasks && (l.tasks[t].Periodic() || l.tasks[t].status.Done?) && Consistent(l.tasks[t]);
    hide Own, OwnedOnce, Requeue;
    if l.tasks[t].status.Done? || l.tasks[t].canceled {
      hide Settle;
      SettleFinishedOwns(l, P, E, t);
    } else {
      assert Settle(l, t) == Requeue(l.(running := l.running - 1), t);
      hide Settle;
      RequeueOwns(l, P, E, t);
    }
  }

  lemma OnSubmittedOwns(l: Loop, P: multiset<nat>, E: multiset<nat>, t: nat)
    requires Own(l, P + multiset{t}, E)
    ensures Own(OnSubmitted(l, t), P, E)
  {
    assert OnSubmitted(l, t) == TryExecuteTask(Stamp(l, t), t);
    OwnFrame(l, P + multiset{t}, E, Stamp(l, t));
    hide Own, TryExecuteTask, OnSubmitted;
    TryExecuteOwns(Stamp(l, t), P, E, t);
  }

  lemma ConfigureOwns(l: Loop, P: multiset<nat>, E: multiset<nat>)
    requires Own(l, P, E)
    ensures Own(Configure(l), P, E)
  {
    OwnFrame(l, P, E, Configure(l));
  }

  lemma OnTimerOwns(l: Loop, P: multiset<nat>, E: multiset<nat>)
    requires Own(l, P, E)
    ensures Own(OnTimer(l), P, E)
  {
    var l0 := l.(timer := None);
    if l.delayed != [] && l.Deadline(l.delayed[0]) <= l.now {
      var t := l.delayed[0];
      var l1 := l0.(delayed := l.delayed[1..], sElem := l.sElem - {t});
      assert OnTimer(l) == Configure(OnSubmitted(l1, t));
      PopDelayedOwns(l, P, E, l1);
      hide Own, OnSubmitted, OnTimer, Configure;
      OnSubmittedOwns(l1, P, E, t);
      ConfigureOwns(OnSubmitted(l1, t), P, E);
    } else {
      OwnFrame(l, P, E, l0);
      assert OnTimer(l) == if l.delayed == [] then l0 else Configure(l0);
      hide Own, OnTimer, Configure;
      ConfigureOwns(l0, P, E);
    }
  }

  lemma OnCompletedOwns(l: Loop, P: multiset<nat>, E: multiset<nat>, t: nat)
    requires Own(l, P, E + multiset{t})
    ensures Own(OnCompleted(l, t), P, E)
  {
    var l0 := l.(log := l.log + [Ended(t, l.now)]);
    assert OnCompleted(l, t) == TryRunNext(Settle(l0, t));
    OwnFrame(l, P, E + multiset{t}, l0);
    hide Own, Settle, TryRunNext, OnCompleted;
    SettleOwns(l0, P, E, t);
    TryRunNextOwns(Settle(l0, t), P, E);
  }

  lemma {:induction false} DrainOwns(l: Loop, P: multiset<nat>, E: multiset<nat>)
    requires Own(l, P, E)
    ensures Own(Drain(l), P, E)
    decreases |l.ready|
  {
    if l.CanStart() && l.ready != [] && !l.phase.Terminated? {
      PopShrinks(l);
      assert Drain(l) == Drain(TryRunNext(l));
      hide Own, TryRunNext;
      TryRunNextOwns(l, P, E);
      DrainOwns(TryRunNext(l), P, E);
    }
  }

  lemma OnUpdateConcurrencyOwns(l: Loop, P: multiset<nat>, E: multiset<nat>, n: int)
    requires Own(l, P, E)
    ensures Own(OnUpdateConcurrency(l, n), P, E)
  {
    OwnFrame(l, P, E, l.(concurrency := n));
    hide Own, Drain;
    DrainOwns(l.(concurrency := n), P, E);
  }

  lemma LoseOwned(l: Loop, P: multiset<nat>, E: multiset<nat>, t: nat, l': Loop)
    requires Own(l, P, E) && t in l.tasks && !l.tasks[t].status.New?
    requires l'.tasks == l.tasks && l'.live == l.live && l'.running == l.running && !l'.panicked
    requires Waits(l', P, t) <= Waits(l, P, t) && forall x: nat :: x != t ==> Waits(l', P, x) == Waits(l, P, x)
    ensures Own(l', P, E)
  {
    assert OwnedOnce(l, P, E, t);
    Retask(l, P, E, l', P, E, t);
  }

  /** A finished task may disappear from a place. */
  lemma UnreadyOwns(l: Loop, P: multiset<nat>, E: multiset<nat>, t: nat)
    requires Own(l, P, E) && t in l.tasks && !l.tasks[t].status.New?
    ensures Own(l.(ready := Remove(l.ready, t)), P, E)
  {
    RemoveCounts(l.ready, t);
    OwnUnpanicked(l, P, E);
    hide Remove, Own;
    LoseOwned(l, P, E, t, l.(ready := Remove(l.ready, t)));
  }

  lemma UndelayOwns(l: Loop, P: multiset<nat>, E: multiset<nat>, t: nat)
    requires Own(l, P, E) && t in l.tasks && !l.tasks[t].status.New?
    ensures Own(l.(delayed := Remove(l.delayed, t)), P, E)
  {
    RemoveCounts(l.delayed, t);
    OwnUnpanicked(l, P, E);
    hide Remove, Own;
    LoseOwned(l, P, E, t, l.(delayed := Remove(l.delayed, t)));
  }

  lemma UnqueueOwns(l: Loop, P: multiset<nat>, E: multiset<nat>, t: nat)
    requires Own(l, P, E) && t in l.tasks && !l.tasks[t].status.New?
    ensures Own(Unqueue(l, t), P, E)
  {
    OwnUnpanicked(l, P, E);
    hide Remove, Own;
    var l1 := if t in l.qElem then l.(ready := Remove(l.ready, t)) else l;
    var l2 := if t in l.sElem then l1.(delayed := Remove(l.delayed, t)) else l1;
    UnreadyOwns(l, P, E, t);
    UndelayOwns(l1, P, E, t);
    OwnFrame(l2, P, E, Unqueue(l, t));
  }

  lemma OnCanceledOwns(l: Loop, P: multiset<nat>, E: multiset<nat>, t: nat)
    requires Own(l, P, E) && t in l.tasks && l.tasks[t].canceled
    ensures Own(OnCanceled(l, t), P, E)
  {
    assert OwnedOnce(l, P, E, t);
    OwnUnpanicked(l, P, E);
    hide Own, Unqueue;
    var task := NoteCanceled(l.tasks[t]);
    UpdateOwns(l, P, E, t, task);
    var l0 := l.(tasks := l.tasks[t := task]);
    if l.ready != [] {
      if Stale(l0, t) { OwnFrame(l0, P, E, l0.(broken := true)); } else { UnqueueOwns(l0, P, E, t); }
    }
  }

  lemma OnCancelOwns(l: Loop, P: multiset<nat>, E: multiset<nat>)
    requires Own(l, P, E)
    ensures Own(OnCancel(l), P, E)
  {
    if !l.phase.Canceled() {
      OwnFrame(l, P, E, l.(phase := ShuttingDown));
      hide Own, TryRunNext;
      TryRunNextOwns(l.(phase := ShuttingDown), P, E);
    }
  }

  lemma OnCancelNowOwns(l: Loop, P: multiset<nat>, E: multiset<nat>)
    requires Own(l, P, E)
    ensures Own(OnCancelNow(l).0, P + multiset(OnCancelNow(l).1), E)
  {
    if l.phase.Rank() < 2 {
      var l0 := l.(ready := [], delayed := [],
                   phase := if l.phase.ShuttingDown? then WaitingTermination else l.phase);
      OwnSame(l, P, E, l0, P + multiset(l.ready + l.delayed));
      hide Own, TryRunNext;
      TryRunNextOwns(l0, P + multiset(l.ready + l.delayed), E);
    } else {
      OwnSame(l, P, E, l, P + multiset([]));
    }
  }

  lemma SubmitOwns(l: Loop, P: multiset<nat>, E: multiset<nat>, t: nat, task: Task)
    requires Own(l, P, E) && t !in l.tasks && task.status.New? && Consistent(task)
    ensures Own(l.(tasks := l.tasks[t := task]), P + multiset{t}, E)
  {
    assert OwnedOnce(l, P, E, t);
    Retask(l, P, E, l.(tasks := l.tasks[t := task]), P + multiset{t}, E, t);
  }

  lemma FinishBodyOwns(l: Loop, P: multiset<nat>, E: multiset<nat>, t: nat)
    requires Own(l, P, E) && t in l.live && t in l.tasks
    requires l.tasks[t].Periodic() || l.tasks[t].status.Done?
    ensures Own(l.(live := l.live - multiset{t}), P, E + multiset{t})
  {
    var l' := l.(live := l.live - multiset{t});
    assert OwnedOnce(l, P, E, t);
    assert |l'.live| == |l.live| - 1 && |E + multiset{t}| == |E| + 1;
    Retask(l, P, E, l', P, E + multiset{t}, t);
  }

  lemma SubmitStepOwns(s: System, step: Step)
    requires Conserved(s) && Enabled(s, step) && step.Submit?
    ensures var s' := ClientNext(s, step); Own(s'.l, s'.submits + s'.returned, s'.completions)
  {
    var s' := ClientNext(s, step);
    hide Own;
    SubmitOwns(s.l, s.submits + s.returned, s.completions, step.t, s'.l.tasks[step.t]);
    assert (s.submits + s.returned) + multiset{step.t} == s'.submits + s'.returned;
  }

  lemma FinishStepOwns(s: System, step: Step)
    requires Conserved(s) && Enabled(s, step) && step.FinishBody?
    ensures var s' := ClientNext(s, step); Own(s'.l, s'.submits + s'.returned, s'.completions)
  {
    var s', t, P := ClientNext(s, step), step.t, s.submits + s.returned;
    assert OwnedOnce(s.l, P, s.completions, t);
    hide Own;
    UpdateOwns(s.l, P, s.completions, t, s'.l.tasks[t]);
    FinishBodyOwns(s.l.(tasks := s'.l.tasks), P, s.completions, t);
  }

  /** A client step touches one task, and no queue of the loop. */
  lemma ClientStepOwns(s: System, step: Step)
    requires Conserved(s) && Enabled(s, step) && !step.IsLoopStep()
    ensures var s' := Apply(s, step); Own(s'.l, s'.submits + s'.returned, s'.completions)
  {
    var l, P, E := s.l, s.submits + s.returned, s.completions;
    match step
    case Submit(_, _, _, _) => hide LoopNext, ClientNext; SubmitStepOwns(s, step);
    case FinishBody(_, _) => hide LoopNext, ClientNext; FinishStepOwns(s, step);
    case CancelTask(t) =>
      assert OwnedOnce(l, P, E, t);
      hide Own, LoopNext;
      UpdateOwns(l, P, E, t, Cancel(l.tasks[t]).0);
    case AwaitTask(t) =>
      assert OwnedOnce(l, P, E, t);
      hide Own, LoopNext;
      UpdateOwns(l, P, E, t, Await(l.tasks[t]));
    case Tick(d) => hide LoopNext; OwnFrame(l, P, E, l.(now := l.now + d));
  }

  lemma DeliverSubmitOwns(s: System, t: nat)
    requires Conserved(s) && t in s.submits
    ensures Own(OnSubmitted(s.l, t), s.submits - multiset{t} + s.returned, s.completions)
  {
    var P' := s.submits - multiset{t} + s.returned;
    hide Own, OnSubmitted;
    assert s.submits + s.returned == P' + multiset{t};
    OnSubmittedOwns(s.l, P', s.completions, t);
  }

  lemma DeliverCompletionOwns(s: System, t: nat)
    requires Conserved(s) && t in s.completions
    ensures Own(OnCompleted(s.l, t), s.submits + s.returned, s.completions - multiset{t})
  {
    var E' := s.completions - multiset{t};
    hide Own, OnCompleted;
    assert s.completions == E' + multiset{t};
    OnCompletedOwns(s.l, s.submits + s.returned, E', t);
  }

  lemma CancelNowStepOwns(s: System)
    requires Conserved(s)
    ensures var (l', futures) := OnCancelNow(s.l);
      Own(l', s.submits + (s.returned + multiset(futures)), s.completions)
  {
    var futures := OnCancelNow(s.l).1;
    hide Own, OnCancelNow;
    OnCancelNowOwns(s.l, s.submits + s.returned, s.completions);
    assert (s.submits + s.returned) + multiset(futures) == s.submits + (s.returned + multiset(futures));
  }

  lemma LoopStepOwns(s: System, step: Step)
    requires Conserved(s) && Enabled(s, step) && step.IsLoopStep()
    ensures var s' := Apply(s, step); Own(s'.l, s'.submits + s'.returned, s'.completions)
  {
    var l, P, E := s.l, s.submits + s.returned, s.completions;
    if step.SetCapacity? { OwnFrame(l, P, E, l.(capacity := step.n)); }
    hide Own, ClientNext, OnTimer, OnSubmitted, OnCompleted, OnCanceled, OnUpdateConcurrency, OnCancel, OnCancelNow;
    match step
    case TimerFires => OnTimerOwns(l, P, E);
    case DeliverSubmit(t) => DeliverSubmitOwns(s, t);
    case DeliverCompletion(t) => DeliverCompletionOwns(s, t);
    case DeliverCancel(t) => OnCanceledOwns(l, P, E, t);
    case SetConcurrency(n) => OnUpdateConcurrencyOwns(l, P, E, n);
    case SetCapacity(n) =>
    case CancelExecutor => OnCancelOwns(l, P, E);
    case CancelNow => CancelNowStepOwns(s);
  }

  /** What no loop step undoes. */
  ghost predicate Evolves(l: Loop, l': Loop) {
    && l'.tasks.Keys == l.tasks.Keys && l'.now == l.now && l.phase.Rank() <= l'.phase.Rank()
    && forall t :: t in l.tasks ==> TaskEvolves(l.tasks[t], l'.tasks[t])
  }

  ghost predicate TaskEvolves(task: Task, task': Task) {
    && task'.kind == task.kind && task'.delay == task.delay
    && (task.canceled ==> task'.canceled) && (task.status.Done? ==> task'.status.Done?)
    && (task.status.Done? && !task.err.NoError? ==> task'.err == task.err)
  }

  lemma EvolvesOn(a: Loop, b: Loop, c: Loop)
    requires Evolves(a, b) && Evolves(b, c)
    ensures Evolves(a, c)
  {}

  lemma TryExecuteEvolves(l: Loop, t: nat)
    ensures Evolves(l, TryExecuteTask(l, t))
  {}

  lemma TryRunNextEvolves(l: Loop)
    ensures Evolves(l, TryRunNext(l))
  {
    if !l.phase.Terminated? && l.ready != [] && l.CanStart() {
      var t := l.ready[0];
      var l0 := l.(ready := l.ready[1..], qElem := l.qElem - {t});
      assert TryRunNext(l) == TryExecuteTask(l0, t);
      assert Evolves(l, l0);
      hide TryExecuteTask, TryRunNext;
      TryExecuteEvolves(l0, t);
    } else {
      assert TryRunNext(l).tasks == l.tasks && TryRunNext(l).now == l.now;
    }
  }

  lemma {:induction false} DrainEvolves(l: Loop)
    ensures Evolves(l, Drain(l))
    decreases |l.ready|
  {
    if l.CanStart() && l.ready != [] && !l.phase.Terminated? {
      PopShrinks(l);
      hide Evolves, TryRunNext;
      TryRunNextEvolves(l);
      DrainEvolves(TryRunNext(l));
      EvolvesOn(l, TryRunNext(l), Drain(l));
    } else {
      assert Drain(l) == l;
    }
  }

  lemma ConfigureFrame(l: Loop)
    ensures var l' := Configure(l);
      && l' == l.(timer := l'.timer, target := l'.target)
      && (l'.target == l.target || (l.delayed != [] && l'.target == l.Deadline(l.delayed[0])))
  {}

  lemma PushFrame(l: Loop, t: nat)
    ensures var l' := PushDelayed(l, t);
      l' == l.(delayed := Insert(l, l.delayed, t), log := l.log + [Scheduled(t, l.Deadline(t))],
               timer := l'.timer, target := l'.target)
  {
    hide Insert;
  }

  lemma RequeueTasks(l: Loop, t: nat)
    requires t in l.tasks
    ensures var l' := Requeue(l, t);
      && l'.now == l.now && l'.phase == l.phase && t in l'.tasks && l'.tasks == l.tasks[t := l'.tasks[t]]
      && (!l.tasks[t].canceled && !l.tasks[t].status.Done? ==> TaskEvolves(l.tasks[t], l'.tasks[t]))
  {
    var r := ConfigureNextRun(l.tasks[t], l.now);
    if r.Next? { PushFrame(l.(tasks := l.tasks[t := r.task]), t); }
    hide PushDelayed;
  }

  /** The completion event touches the finished task only. */
  lemma SettleTasks(l: Loop, t: nat)
    requires t in l.tasks
    ensures var l' := Settle(l, t);
      && l'.now == l.now && l'.phase == l.phase && t in l'.tasks && l'.tasks == l.tasks[t := l'.tasks[t]]
      && TaskEvolves(l.tasks[t], l'.tasks[t])
  {
    hide Requeue;
    var l0 := l.(running := l.running - 1);
    if l.tasks[t].status.Done? || l.tasks[t].canceled || !l.tasks[t].Periodic() {
      assert l.tasks[t := l.tasks[t]] == l.tasks;
    } else {
      assert Settle(l, t) == Requeue(l0, t);
      hide Settle;
      RequeueTasks(l0, t);
    }
  }

  lemma SettleEvolves(l: Loop, t: nat)
    requires t in l.tasks
    ensures Evolves(l, Settle(l, t))
  {
    SettleTasks(l, t);
    hide Settle;
  }

  lemma OnTimerEvolves(l: Loop)
    ensures Evolves(l, OnTimer(l))
  {
    if l.delayed != [] && l.Deadline(l.delayed[0]) <= l.now {
      var t := l.delayed[0];
      var l0 := Stamp(l.(timer := None, delayed := l.delayed[1..], sElem := l.sElem - {t}), t);
      assert OnTimer(l) == Configure(TryExecuteTask(l0, t));
      assert Evolves(l, l0);
      hide TryExecuteTask, OnTimer, Configure;
      TryExecuteEvolves(l0, t);
      EvolvesOn(l, l0, TryExecuteTask(l0, t));
      ConfigureEvolves(TryExecuteTask(l0, t));
      EvolvesOn(l, TryExecuteTask(l0, t), OnTimer(l));
    } else {
      ConfigureEvolves(l.(timer := None));
    }
  }

  lemma ConfigureEvolves(l: Loop)
    ensures Evolves(l, Configure(l))
  {}

  lemma OnCompletedEvolves(l: Loop, t: nat)
    requires t in l.tasks
    ensures Evolves(l, OnCompleted(l, t))
  {
    var l0 := l.(log := l.log + [Ended(t, l.now)]);
    SettleEvolves(l0, t);
    TryRunNextEvolves(Settle(l0, t));
    assert Evolves(l, l0);
    EvolvesOn(l, l0, Settle(l0, t));
    EvolvesOn(l, Settle(l0, t), OnCompleted(l, t));
  }

  lemma UnqueueFrame(l: Loop, t: nat)
    ensures var l' := Unqueue(l, t);
      && l' == l.(ready := l'.ready, delayed := l'.delayed, qElem := l'.qElem)
      && l'.ready == (if t in l.qElem then Remove(l.ready, t) else l.ready)
      && l'.delayed == (if t in l.sElem then Remove(l.delayed, t) else l.delayed)
  {
    hide Remove;
  }

  /** The cancel event notes the error of its task and takes that task out of the queues. */
  lemma CanceledFrame(l: Loop, t: nat)
    ensures var l' := OnCanceled(l, t);
      && l' == l.(tasks := l'.tasks, ready := l'.ready, delayed := l'.delayed, qElem := l'.qElem, broken := l'.broken)
      && l'.tasks == (if t in l.tasks then l.tasks[t := NoteCanceled(l.tasks[t])] else l.tasks)
      && l'.ready == (if t in l.qElem && t in l.ready then Remove(l.ready, t) else l.ready)
      && l'.delayed == (if l.ready != [] && !Stale(l, t) && t in l.sElem then Remove(l.delayed, t) else l.delayed)
  {
    var l0 := if t in l.tasks then l.(tasks := l.tasks[t := NoteCanceled(l.tasks[t])]) else l;
    UnqueueFrame(l0, t);
    assert OnCanceled(l, t) ==
      if l.ready == [] then l0 else if Stale(l, t) then l0.(broken := true) else Unqueue(l0, t);
    hide Remove, Unqueue, OnCanceled;
  }

  lemma OnCanceledEvolves(l: Loop, t: nat)
    ensures Evolves(l, OnCanceled(l, t))
  {
    CanceledFrame(l, t);
    hide OnCanceled;
  }

  lemma OnCancelNowEvolves(l: Loop)
    ensures Evolves(l, OnCancelNow(l).0)
  {
    if l.phase.Rank() < 2 {
      var l0 := l.(ready := [], delayed := [],
                   phase := if l.phase.ShuttingDown? then WaitingTermination else l.phase);
      TryRunNextEvolves(l0);
      assert Evolves(l, l0);
      EvolvesOn(l, l0, TryRunNext(l0));
    }
  }

  lemma OnCancelEvolves(l: Loop)
    ensures Evolves(l, OnCancel(l))
  {
    if !l.phase.Canceled() {
      var l0 := l.(phase := ShuttingDown);
      TryRunNextEvolves(l0);
      assert Evolves(l, l0);
      EvolvesOn(l, l0, TryRunNext(l0));
    }
  }

  lemma LoopStepEvolves(s: System, step: Step)
    requires Enabled(s, step) && step.IsLoopStep()
    requires step.DeliverCompletion? ==> step.t in s.l.tasks
    ensures Evolves(s.l, Apply(s, step).l)
  {
    var l := s.l;
    hide ClientNext, OnTimer, OnCompleted, OnCancel, OnCancelNow, OnCanceled, TryExecuteTask, Drain;
    match step
    case TimerFires => OnTimerEvolves(l);
    case DeliverSubmit(t) =>
      assert OnSubmitted(l, t) == TryExecuteTask(Stamp(l, t), t);
      hide OnSubmitted;
      TryExecuteEvolves(Stamp(l, t), t);
    case DeliverCompletion(t) => OnCompletedEvolves(l, t);
    case DeliverCancel(t) => OnCanceledEvolves(l, t);
    case SetConcurrency(n) => DrainEvolves(l.(concurrency := n));
    case SetCapacity(n) =>
    case CancelExecutor => OnCancelEvolves(l);
    case CancelNow => OnCancelNowEvolves(l);
  }

  lemma LoopStepCancels(s: System, step: Step)
    requires Enabled(s, step) && step.IsLoopStep()
    ensures Apply(s, step).cancels <= s.cancels
  {
    hide ClientNext, OnTimer, OnSubmitted, OnCompleted, OnCanceled, OnUpdateConcurrency, OnCancel, OnCancelNow;
  }

  /** A client step leaves the queues, the timer and every deadline alone. */
  lemma ClientStepFrame(s: System, step: Step)
    requires Enabled(s, step) && !step.IsLoopStep()
    ensures var l' := Apply(s, step).l;
      && l' == s.l.(tasks := l'.tasks, now := l'.now, live := l'.live) && s.l.now <= l'.now
      && (if step.Tick? then l'.tasks == s.l.tasks
          else step.t in l'.tasks && l'.tasks == s.l.tasks[step.t := l'.tasks[step.t]])
      && (!step.Tick? && step.t in s.l.tasks ==> l'.tasks[step.t].nextRun == s.l.tasks[step.t].nextRun)
  {
    hide LoopNext;
    var l := s.l;
    assert Apply(s, step) == ClientNext(s, step);
    match step
    case Submit(t, kind, initialDelay, delay) =>
      assert ClientNext(s, step).l == l.(tasks := l.tasks[t := NewTask(kind, initialDelay, delay, l.now)]);
    case CancelTask(t) =>
      assert ClientNext(s, step).l == l.(tasks := l.tasks[t := Cancel(l.tasks[t]).0]);
    case AwaitTask(t) =>
      assert ClientNext(s, step).l == l.(tasks := l.tasks[t := Await(l.tasks[t])]);
    case FinishBody(t, err) =>
    case Tick(d) =>
  }

  /** A client step keeps every cancelled task known and cancelled. */
  lemma ClientStepCancels(s: System, step: Step, t: nat)
    requires Enabled(s, step) && !step.IsLoopStep() && t in s.l.tasks && s.l.tasks[t].canceled
    ensures t in Apply(s, step).l.tasks && Apply(s, step).l.tasks[t].canceled
  {
    hide LoopNext;
    var s' := ClientNext(s, step);
    assert !step.Tick? ==>
      forall x :: x in s.l.tasks && x != step.t ==> x in s'.l.tasks && s'.l.tasks[x] == s.l.tasks[x];
  }

  /** A task whose cancel event is under way stays known and cancelled. */
  lemma StepCancels(s: System, step: Step, s': System)
    requires IsStep(s, step, s') && Conserved(s)
    ensures forall t :: t in s'.cancels ==> t in s'.l.tasks && s'.l.tasks[t].canceled
  {
    forall t | t in s'.cancels ensures t in s'.l.tasks && s'.l.tasks[t].canceled {
      if step.IsLoopStep() {
        assert step.DeliverCompletion? ==> step.t in s.l.tasks;
        hide Own, Apply, Enabled;
        LoopStepCancels(s, step);
        LoopStepEvolves(s, step);
      } else if step != CancelTask(t) {
        hide Own, LoopNext;
        assert t in s.cancels;
        ClientStepCancels(s, step, t);
      }
    }
  }

  lemma StepConserves(s: System, step: Step, s': System)
    requires IsStep(s, step, s') && Conserved(s)
    ensures Conserved(s')
  {
    hide Own, Apply, Enabled;
    StepCancels(s, step, s');
    if step.IsLoopStep() { LoopStepOwns(s, step); } else { ClientStepOwns(s, step); }
  }

  /** Conservation of tasks, over every run: in every state each task has exactly the owner its
      status calls for, and `running` counts the executions. */
  lemma {:induction false} RunConserves(states: seq<System>, steps: seq<Step>, i: nat)
    requires IsRun(states, steps) && i < |states|
    ensures Conserved(states[i])
  {
    if i > 0 {
      assert IsStep(states[i - 1], steps[i - 1], states[i]);
      hide Conserved, IsStep;
      RunConserves(states, steps, i - 1);
      StepConserves(states[i - 1], steps[i - 1], states[i]);
    } else {
      InitConserves(states[0]);
    }
  }

  lemma InitConserves(s: System)
    requires Init(s)
    ensures Conserved(s)
  {
  }

  // ---------- runs step by step ----------

  /** The state that the steps lead to, if they are enabled one after the other. */
  ghost predicate Leads(start: System, steps: seq<Step>, s: System) {
    exists states :: IsRun(states, steps) && states[0] == start && states[|steps|] == s
  }

  lemma LeadsNowhere(start: System)
    requires Init(start)
    ensures Leads(start, [], start)
  {
    assert IsRun([start], []);
  }

  lemma RunExtends(states: seq<System>, steps: seq<Step>, step: Step)
    requires IsRun(states, steps) && Enabled(states[|steps|], step)
    ensures IsRun(states + [Apply(states[|steps|], step)], steps + [step])
  {
    var states', steps' := states + [Apply(states[|steps|], step)], steps + [step];
    forall i {:trigger steps'[i]} | 0 <= i < |steps'| ensures IsStep(states'[i], steps'[i], states'[i + 1]) {
      if i < |steps| { assert IsStep(states[i], steps[i], states[i + 1]); }
    }
  }

  lemma Go(start: System, steps: seq<Step>, s: System, step: Step) returns (s': System, steps': seq<Step>)
    requires Leads(start, steps, s) && Enabled(s, step)
    ensures steps' == steps + [step] && s' == Apply(s, step) && Leads(start, steps', s')
  {
    var states :| IsRun(states, steps) && states[0] == start && states[|steps|] == s;
    s', steps' := Apply(s, step), steps + [step];
    assert |states| == |steps| + 1;
    hide IsRun, Apply, Enabled;
    RunExtends(states, steps, step);
    assert (states + [s'])[|steps'|] == s';
  }
}
