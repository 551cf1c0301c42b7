/**
 Runs from the initial state, step by step, that show where the executor does less than it seems to
 promise. Limits, delays and times are left open wherever the failure does not depend on them.
 */
module ExecutorScenarios {
  import opened Options
  import opened Tasks
  import opened ExecutorLoop
  import opened ExecutorRuns
  import opened ExecutorTimer
  import opened ExecutorShutdown
  import opened ExecutorLists
  import R = ReadyLists

  // ---------- single steps ----------

  lemma SubmitStep(s: System, t: nat, d: int)
    requires t !in s.l.tasks && s.l.phase.Active? && RemainingTotalCapacity(s.l) >= 1
    ensures Enabled(s, Submit(t, Once, d, 0))
    ensures var task := NewTask(Once, d, 0, s.l.now);
      Apply(s, Submit(t, Once, d, 0)) ==
      s.(l := s.l.(tasks := s.l.tasks[t := task]), submits := s.submits + multiset{t},
         first := s.first[t := task.nextRun])
  {}

  /** A due task that reaches a loop with a free slot is started. */
  lemma StartStep(s: System, t: nat)
    requires t in s.submits && t in s.l.tasks && s.l.tasks[t].Runnable() && s.l.tasks[t].nextRun <= s.l.now
    requires s.l.CanStart() && !s.l.exited && !s.l.panicked && !s.l.broken
    ensures Enabled(s, DeliverSubmit(t))
    ensures var s' := Apply(s, DeliverSubmit(t));
      s' == s.(submits := s.submits - multiset{t},
               l := s.l.(tasks := s.l.tasks[t := s.l.tasks[t].(status := Running)], running := s.l.running + 1,
                         live := s.l.live + multiset{t}, stamp := s'.l.stamp,
                         arrivals := s'.l.arrivals, log := s'.l.log))
  {
    hide PushDelayed;
  }

  /** Without one it is queued. */
  lemma QueueStep(s: System, t: nat)
    requires t in s.submits && t in s.l.tasks && s.l.tasks[t].Runnable() && s.l.tasks[t].nextRun <= s.l.now
    requires !s.l.CanStart() && !s.l.exited && !s.l.panicked && !s.l.broken
    ensures Enabled(s, DeliverSubmit(t))
    ensures var s' := Apply(s, DeliverSubmit(t));
      s' == s.(submits := s.submits - multiset{t},
               l := s.l.(ready := s.l.ready + [t], qElem := s.l.qElem + {t}, stamp := s'.l.stamp,
                         arrivals := s'.l.arrivals))
  {
    hide PushDelayed, ExecuteTask;
  }

  /** A task that is not due goes on the heap. */
  lemma DelayStep(s: System, t: nat)
    requires t in s.submits && t in s.l.tasks && s.l.tasks[t].Runnable() && s.l.tasks[t].nextRun > s.l.now
    requires !s.l.exited && !s.l.panicked && !s.l.broken
    ensures Enabled(s, DeliverSubmit(t))
    ensures var s' := Apply(s, DeliverSubmit(t));
      s' == s.(submits := s.submits - multiset{t},
               l := s.l.(delayed := Insert(s.l, s.l.delayed, t), sElem := s.l.sElem + {t},
                         timer := s'.l.timer, target := s'.l.target,
                         stamp := s'.l.stamp, arrivals := s'.l.arrivals, log := s'.l.log))
    ensures Configure(s.l.(delayed := Insert(s.l, s.l.delayed, t))).timer == Apply(s, DeliverSubmit(t)).l.timer
    ensures Configure(s.l.(delayed := Insert(s.l, s.l.delayed, t))).target == Apply(s, DeliverSubmit(t)).l.target
  {
    hide ExecuteTask, Insert;
    var l0 := Stamp(s.l, t).(sElem := s.l.sElem + {t});
    assert TryExecuteTask(Stamp(s.l, t), t) == PushDelayed(l0, t) by { hide PushDelayed; }
    SameInsert(s.l, l0, s.l.delayed, t);
    assert PushDelayed(l0, t) == Configure(l0.(delayed := Insert(s.l, s.l.delayed, t),
                                               log := l0.log + [Scheduled(t, l0.Deadline(t))]));
    hide TryExecuteTask, PushDelayed;
  }

  lemma {:induction false} SameInsert(l: Loop, l': Loop, d: seq<nat>, t: nat)
    requires l'.tasks == l.tasks
    ensures Insert(l', d, t) == Insert(l, d, t)
  {
    if d != [] { SameInsert(l, l', d[1..], t); }
  }

  lemma CancelStep(s: System, t: nat)
    requires t in s.l.tasks && (s.l.tasks[t].status.New? || s.l.tasks[t].status.Running?)
    ensures Enabled(s, CancelTask(t))
    ensures Apply(s, CancelTask(t)) ==
      s.(l := s.l.(tasks := s.l.tasks[t := Cancel(s.l.tasks[t]).0]), cancels := s.cancels + multiset{t})
  {}

  /** A cancel event that finds the ready list empty only notes the error. */
  lemma NoteStep(s: System, t: nat)
    requires t in s.cancels && t in s.l.tasks && s.l.ready == [] && !s.l.exited && !s.l.panicked && !s.l.broken
    ensures Enabled(s, DeliverCancel(t))
    ensures Apply(s, DeliverCancel(t)) ==
      s.(l := s.l.(tasks := s.l.tasks[t := NoteCanceled(s.l.tasks[t])]), cancels := s.cancels - multiset{t})
  {
    hide Unqueue;
  }

  /** Cancelling the executor while something is queued that cannot start. */
  lemma ShutStep(s: System)
    requires s.l.phase.Active? && !s.l.exited && !s.l.panicked && !s.l.broken
    requires s.l.QueueLength() > 0 && (s.l.ready == [] || !s.l.CanStart())
    ensures Enabled(s, CancelExecutor) && Apply(s, CancelExecutor) == s.(l := s.l.(phase := ShuttingDown))
  {
    hide TryExecuteTask;
  }

  lemma TickStep(s: System, d: nat)
    ensures Enabled(s, Tick(d)) && Apply(s, Tick(d)) == s.(l := s.l.(now := s.l.now + d))
  {}

  /** The timer takes out a cancelled task. */
  lemma DropStep(s: System, t: nat)
    requires s.l.timer.Some? && s.l.timer.value <= s.l.now && !s.l.exited && !s.l.panicked && !s.l.broken
    requires s.l.delayed == [t] && s.l.Deadline(t) <= s.l.now && !s.l.Get(t).Runnable()
    ensures Enabled(s, TimerFires)
    ensures var s' := Apply(s, TimerFires);
      s' == s.(l := s.l.(timer := None, delayed := [], sElem := s.l.sElem - {t}, stamp := s'.l.stamp,
                         arrivals := s'.l.arrivals))
  {}

  /** The cancel event of the first of the ready tasks. */
  lemma UnreadyStep(s: System, t: nat, rest: seq<nat>)
    requires t in s.cancels && t in s.l.tasks && s.l.ready == [t] + rest && t in s.l.qElem && t !in s.l.sElem
    requires !s.l.exited && !s.l.panicked && !s.l.broken
    ensures Enabled(s, DeliverCancel(t))
    ensures Apply(s, DeliverCancel(t)) ==
      s.(l := s.l.(tasks := s.l.tasks[t := NoteCanceled(s.l.tasks[t])], ready := rest, qElem := s.l.qElem - {t}),
         cancels := s.cancels - multiset{t})
  {
    assert ([t] + rest)[1..] == rest;
  }

  lemma FinishStep(s: System, t: nat)
    requires t in s.l.live && t in s.l.tasks && s.l.tasks[t].kind.Once?
    ensures Enabled(s, FinishBody(t, NoError))
    ensures Apply(s, FinishBody(t, NoError)) ==
      s.(l := s.l.(live := s.l.live - multiset{t}, tasks := s.l.tasks[t := SetDone(s.l.tasks[t], NoError).0]),
         completions := s.completions + multiset{t})
  {}

  /** A completion that finds a cancelled task at the head of the ready list drops it. */
  lemma DropHeadStep(s: System, a: nat, b: nat, rest: seq<nat>)
    requires a in s.completions && s.l.Get(a).status.Done? && !s.l.phase.Terminated?
    requires !s.l.exited && !s.l.panicked && !s.l.broken
    requires s.l.ready == [b] + rest && !s.l.Get(b).Runnable() && s.l.running <= s.l.concurrency
    ensures Enabled(s, DeliverCompletion(a))
    ensures Apply(s, DeliverCompletion(a)) ==
      s.(l := s.l.(running := s.l.running - 1, ready := rest, qElem := s.l.qElem - {b},
                   log := s.l.log + [Ended(a, s.l.now)]),
         completions := s.completions - multiset{a})
  {
    var l0 := s.l.(log := s.l.log + [Ended(a, s.l.now)]);
    var m := Settle(l0, a);
    assert m == l0.(running := s.l.running - 1) by { hide Requeue; }
    assert ([b] + rest)[1..] == rest && m.Get(b) == s.l.Get(b);
    assert TryRunNext(m) == m.(ready := rest, qElem := s.l.qElem - {b}) by { hide PushDelayed, ExecuteTask; }
    assert OnCompleted(s.l, a) == TryRunNext(m);
    hide OnCompleted, TryRunNext, Settle;
  }

  /** The cancel event of a task without handles only notes the error. */
  lemma LateStep(s: System, t: nat)
    requires t in s.cancels && t in s.l.tasks && t !in s.l.qElem && t !in s.l.sElem
    requires !s.l.exited && !s.l.panicked && !s.l.broken
    ensures Enabled(s, DeliverCancel(t))
    ensures Apply(s, DeliverCancel(t)) ==
      s.(l := s.l.(tasks := s.l.tasks[t := NoteCanceled(s.l.tasks[t])]), cancels := s.cancels - multiset{t})
  {
    hide Remove;
    assert s.l.qElem - {t} == s.l.qElem;
  }

  /** CancelNow hands back both queues, and waits for what is running. */
  lemma HandBackStep(s: System)
    requires s.l.phase.ShuttingDown? && s.l.running > 0 && !s.l.exited && !s.l.panicked && !s.l.broken
    ensures Enabled(s, CancelNow)
    ensures Apply(s, CancelNow) ==
      s.(l := s.l.(ready := [], delayed := [], phase := WaitingTermination),
         returned := s.returned + multiset(s.l.ready + s.l.delayed))
  {
    hide TryExecuteTask;
  }

  /** The cancel event of a task that was handed back, with other tasks ready. */
  lemma StaleStep(s: System, t: nat)
    requires t in s.cancels && t in s.l.tasks && s.l.ready != [] && Stale(s.l, t)
    requires !s.l.exited && !s.l.panicked && !s.l.broken
    ensures Enabled(s, DeliverCancel(t))
    ensures Apply(s, DeliverCancel(t)) ==
      s.(l := s.l.(tasks := s.l.tasks[t := NoteCanceled(s.l.tasks[t])], broken := true),
         cancels := s.cancels - multiset{t})
  {
    hide Unqueue;
  }

  // ---------- a stalled shutdown ----------

  /** A delayed task is cancelled while the executor shuts down. The event finds the ready list empty
      and leaves the task on the heap; the timer takes it out and does not look at what is left. */
  lemma DelayedStall(start: System, d: nat) returns (s: System)
    requires Init(start) && RemainingTotalCapacity(start.l) >= 1 && d > 0
    ensures Leads(start, [Submit(0, Once, d, 0), DeliverSubmit(0), CancelExecutor, CancelTask(0),
                          DeliverCancel(0), Tick(d), TimerFires], s)
    ensures Stalled(s.l) && Quiet(s)
  {
    hide Apply, Enabled, Leads;
    var p;
    s, p := OneDelayed(start, d);
    ShutStep(s);
    s, p := Go(start, p, s, CancelExecutor);
    CancelStep(s, 0);
    s, p := Go(start, p, s, CancelTask(0));
    NoteStep(s, 0);
    s, p := Go(start, p, s, DeliverCancel(0));
    TickStep(s, d);
    s, p := Go(start, p, s, Tick(d));
    DropStep(s, 0);
    s, p := Go(start, p, s, TimerFires);
    assert p == [Submit(0, Once, d, 0), DeliverSubmit(0), CancelExecutor, CancelTask(0),
                 DeliverCancel(0), Tick(d), TimerFires];
  }

  /** One delayed task, with the timer armed in time. */
  lemma OneDelayed(start: System, d: nat) returns (s: System, p: seq<Step>)
    requires Init(start) && RemainingTotalCapacity(start.l) >= 1 && d > 0
    ensures p == [Submit(0, Once, d, 0), DeliverSubmit(0)] && Leads(start, p, s)
    ensures s.l == start.l.(tasks := map[0 := NewTask(Once, d, 0, start.l.now)], delayed := [0], sElem := {0},
                            timer := s.l.timer, target := s.l.target, stamp := s.l.stamp,
                            arrivals := s.l.arrivals, log := s.l.log)
    ensures s.l.timer.Some? && s.l.timer.value <= start.l.now + d
    ensures s.submits == s.completions == s.cancels == multiset{}
  {
    hide Apply, Enabled, Leads;
    LeadsNowhere(start);
    SubmitStep(start, 0, d);
    s, p := Go(start, [], start, Submit(0, Once, d, 0));
    DelayStep(s, 0);
    assert Insert(s.l, [], 0) == [0];
    s, p := Go(start, p, s, DeliverSubmit(0));
  }

  /** With no slot at all, a ready task is cancelled while the executor shuts down. */
  lemma ReadyStall(start: System) returns (s: System)
    requires Init(start) && start.l.concurrency == 0 && start.l.capacity != 0
    ensures Leads(start, [Submit(0, Once, 0, 0), DeliverSubmit(0), CancelExecutor, CancelTask(0), DeliverCancel(0)], s)
    ensures Stalled(s.l) && Quiet(s)
  {
    hide Apply, Enabled, Leads;
    LeadsNowhere(start);
    SubmitStep(start, 0, 0);
    var p;
    s, p := Go(start, [], start, Submit(0, Once, 0, 0));
    QueueStep(s, 0);
    s, p := Go(start, p, s, DeliverSubmit(0));
    ShutStep(s);
    s, p := Go(start, p, s, CancelExecutor);
    CancelStep(s, 0);
    s, p := Go(start, p, s, CancelTask(0));
    UnreadyStep(s, 0, []);
    s, p := Go(start, p, s, DeliverCancel(0));
    assert p == [Submit(0, Once, 0, 0), DeliverSubmit(0), CancelExecutor, CancelTask(0), DeliverCancel(0)];
  }

  // ---------- one slot, taken ----------

  /** Three tasks submitted. */
  lemma ThreeSubmitted(start: System) returns (s: System, p: seq<Step>)
    requires Init(start) && RemainingTotalCapacity(start.l) >= 1
    ensures p == [Submit(0, Once, 0, 0), Submit(1, Once, 0, 0), Submit(2, Once, 0, 0)]
    ensures LeadsTo(start, p, s, R.New())
    ensures var task := NewTask(Once, 0, 0, start.l.now);
      s.l == start.l.(tasks := map[0 := task, 1 := task, 2 := task])
    ensures s.submits == multiset{0, 1, 2} && s.completions == s.cancels == s.returned == multiset{}
  {
    hide Apply, Enabled, LeadsTo, R.DoAll;
    LeadsToStart(start);
    R.DoAllOne(R.New(), R.Pop);
    var list;
    SubmitStep(start, 0, 0);
    s, p, list := GoOn(start, [], start, R.New(), Submit(0, Once, 0, 0));
    SubmitStep(s, 1, 0);
    s, p, list := GoOn(start, p, s, list, Submit(1, Once, 0, 0));
    SubmitStep(s, 2, 0);
    s, p, list := GoOn(start, p, s, list, Submit(2, Once, 0, 0));
  }

  /** With one slot, the first runs, the second is ready, and the third has not yet been delivered. */
  lemma OneRuns(start: System) returns (s: System, p: seq<Step>, list: R.List)
    requires Init(start) && start.l.concurrency == 1 && RemainingTotalCapacity(start.l) >= 1
    ensures p == [Submit(0, Once, 0, 0), Submit(1, Once, 0, 0), Submit(2, Once, 0, 0),
                  DeliverSubmit(0), DeliverSubmit(1)]
    ensures LeadsTo(start, p, s, list) && list == R.PushBack(R.New(), 1)
    ensures var task := NewTask(Once, 0, 0, start.l.now);
      s.l == start.l.(tasks := map[0 := task.(status := Running), 1 := task, 2 := task], ready := [1], qElem := {1},
                      running := 1, live := multiset{0}, stamp := s.l.stamp, arrivals := s.l.arrivals, log := s.l.log)
    ensures s.submits == multiset{2} && s.completions == s.cancels == s.returned == multiset{}
  {
    hide Apply, Enabled, LeadsTo, R.DoAll;
    s, p := ThreeSubmitted(start);
    R.DoAllOne(R.New(), R.Push(1));
    StartStep(s, 0);
    s, p, list := GoOn(start, p, s, R.New(), DeliverSubmit(0));
    QueueStep(s, 1);
    s, p, list := GoOn(start, p, s, list, DeliverSubmit(1));
  }

  /** The first of two ready tasks is cancelled just before the running one ends. It is dropped, and
      the second is left waiting although nothing runs and nothing is under way. */
  lemma CancelStarvesReady(start: System) returns (s: System)
    requires Init(start) && start.l.concurrency == 1 && RemainingTotalCapacity(start.l) >= 1
    ensures Leads(start, [Submit(0, Once, 0, 0), Submit(1, Once, 0, 0), Submit(2, Once, 0, 0),
                          DeliverSubmit(0), DeliverSubmit(1), DeliverSubmit(2), CancelTask(1),
                          FinishBody(0, NoError), DeliverCompletion(0), DeliverCancel(1)], s)
    ensures Quiet(s) && s.cancels == multiset{} && s.l.phase.Active? && s.l.running == 0
    ensures s.l.ready == [2] && s.l.Get(2).Runnable() && s.l.CanStart()
  {
    hide Apply, Enabled, Leads, LeadsTo;
    var p, list;
    s, p, list := OneRuns(start);
    LeadsOnly(start, p, s, list);
    QueueStep(s, 2);
    s, p := Go(start, p, s, DeliverSubmit(2));
    assert s.l.ready == [1] + [2];
    CancelStep(s, 1);
    s, p := Go(start, p, s, CancelTask(1));
    FinishStep(s, 0);
    s, p := Go(start, p, s, FinishBody(0, NoError));
    DropHeadStep(s, 0, 1, [2]);
    s, p := Go(start, p, s, DeliverCompletion(0));
    LateStep(s, 1);
    s, p := Go(start, p, s, DeliverCancel(1));
    assert p == [Submit(0, Once, 0, 0), Submit(1, Once, 0, 0), Submit(2, Once, 0, 0),
                 DeliverSubmit(0), DeliverSubmit(1), DeliverSubmit(2), CancelTask(1),
                 FinishBody(0, NoError), DeliverCompletion(0), DeliverCancel(1)];
  }

  // ---------- CancelNow ----------

  /** CancelNow touches no task. So what its documentation promises, that running tasks are cancelled,
      holds if and only if nothing is running. */
  lemma CancelNowCancelsExactly(l: Loop)
    ensures var l' := OnCancelNow(l).0; l'.tasks == l.tasks && l'.live == l.live && l'.running == l.running
    ensures (forall t :: t in OnCancelNow(l).0.tasks ==> !OnCancelNow(l).0.tasks[t].status.Running?) <==>
            (forall t :: t in l.tasks ==> !l.tasks[t].status.Running?)
  {
    hide TryExecuteTask;
  }

  /** A run in which CancelNow leaves a task running, and not cancelled. */
  lemma CancelNowLeavesRunning(start: System) returns (s: System)
    requires Init(start) && start.l.concurrency == 1 && RemainingTotalCapacity(start.l) >= 1
    ensures Leads(start, [Submit(0, Once, 0, 0), Submit(1, Once, 0, 0), Submit(2, Once, 0, 0),
                          DeliverSubmit(0), DeliverSubmit(1), CancelExecutor, CancelNow], s)
    ensures s.l.phase.WaitingTermination? && s.returned == multiset{1}
    ensures s.l.Get(0).status.Running? && !s.l.Get(0).canceled && 0 in s.l.live
  {
    hide Apply, Enabled, Leads, LeadsTo;
    var p, list;
    s, p, list := OneRuns(start);
    LeadsOnly(start, p, s, list);
    ShutStep(s);
    s, p := Go(start, p, s, CancelExecutor);
    HandBackStep(s);
    s, p := Go(start, p, s, CancelNow);
    assert p == [Submit(0, Once, 0, 0), Submit(1, Once, 0, 0), Submit(2, Once, 0, 0),
                 DeliverSubmit(0), DeliverSubmit(1), CancelExecutor, CancelNow];
  }

  /** The list after that run, by the operations of its steps: task 1 queued, the list reset, task 2
      queued, task 1 removed. */
  function SpoiltList(): R.List {
    R.Unlink(R.PushBack(R.Reset(R.PushBack(R.New(), 1)), 2), 1)
  }

  lemma SpoiltListEmpty()
    ensures R.Represents(SpoiltList(), [])
  {
    assert R.Nth([], 0) == R.Root == R.Nth([], 1);
  }

  /** The system as the code has it when its list has been spoilt and still stands for a sequence: that
      sequence, which is the only one (`StandsForOne`), is its ready list. */
  ghost predicate AsLinked(s: System, list: R.List, m: System) {
    m == s.(l := s.l.(ready := m.l.ready, broken := false)) && R.Represents(list, m.l.ready)
  }

  /** A ready task is cancelled, and CancelNow hands it back before its event is received. */
  lemma HandedBack(start: System) returns (s: System, p: seq<Step>, list: R.List)
    requires Init(start) && start.l.concurrency == 1 && RemainingTotalCapacity(start.l) >= 1
    ensures p == [Submit(0, Once, 0, 0), Submit(1, Once, 0, 0), Submit(2, Once, 0, 0),
                  DeliverSubmit(0), DeliverSubmit(1), CancelTask(1), CancelExecutor, CancelNow]
    ensures LeadsTo(start, p, s, list) && list == R.Reset(R.PushBack(R.New(), 1))
    ensures var task := NewTask(Once, 0, 0, start.l.now);
      s.l == start.l.(tasks := map[0 := task.(status := Running), 1 := Cancel(task).0, 2 := task], qElem := {1},
                      phase := WaitingTermination, running := 1, live := multiset{0},
                      stamp := s.l.stamp, arrivals := s.l.arrivals, log := s.l.log)
    ensures s.submits == multiset{2} && s.completions == multiset{} && s.cancels == s.returned == multiset{1}
  {
    hide Apply, Enabled, LeadsTo, R.DoAll;
    s, p, list := OneRuns(start);
    CancelStep(s, 1);
    R.DoAllOne(list, R.Clear);
    s, p, list := GoOn(start, p, s, list, CancelTask(1));
    ShutStep(s);
    s, p, list := GoOn(start, p, s, list, CancelExecutor);
    HandBackStep(s);
    s, p, list := GoOn(start, p, s, list, CancelNow);
  }

  /** When the event of that task comes, another task is ready; the stale handle empties the list. The next
      completion finds nothing queued and nothing running, and the executor terminates with that other task
      New and not handed back. */
  lemma StaleCancelLosesTask(start: System) returns (s: System, list: R.List, m: System, m1: System, m2: System)
    requires Init(start) && start.l.concurrency == 1 && RemainingTotalCapacity(start.l) >= 1
    ensures LeadsTo(start, [Submit(0, Once, 0, 0), Submit(1, Once, 0, 0), Submit(2, Once, 0, 0),
                            DeliverSubmit(0), DeliverSubmit(1), CancelTask(1), CancelExecutor, CancelNow,
                            DeliverSubmit(2), DeliverCancel(1)], s, list)
    ensures s.l.broken && s.l.ready == [2] && AsLinked(s, list, m)
    ensures IsStep(m, FinishBody(0, NoError), m1) && IsStep(m1, DeliverCompletion(0), m2)
    ensures m2.l.phase.Terminated? && m2.l.ready == m2.l.delayed == [] && m2.submits == multiset{}
    ensures m2.l.Get(2).status.New? && m2.returned == multiset{1}
  {
    hide Apply, Enabled, LeadsTo, R.DoAll;
    var p;
    s, p, list := HandedBack(start);
    R.DoAllOne(list, R.Push(2));
    QueueStep(s, 2);
    s, p, list := GoOn(start, p, s, list, DeliverSubmit(2));
    R.DoAllOne(list, R.Cancel(1));
    StaleStep(s, 1);
    s, p, list := GoOn(start, p, s, list, DeliverCancel(1));
    assert p == [Submit(0, Once, 0, 0), Submit(1, Once, 0, 0), Submit(2, Once, 0, 0),
                 DeliverSubmit(0), DeliverSubmit(1), CancelTask(1), CancelExecutor, CancelNow,
                 DeliverSubmit(2), DeliverCancel(1)];
    assert list == SpoiltList();
    SpoiltListEmpty();
    hide SpoiltList, R.Represents;
    m := s.(l := s.l.(ready := [], broken := false));
    FinishStep(m, 0);
    m1 := Apply(m, FinishBody(0, NoError));
    EndStep(m1, 0);
    m2 := Apply(m1, DeliverCompletion(0));
  }

  /** The last completion of an executor that has been shut down. */
  lemma EndStep(s: System, t: nat)
    requires t in s.completions && s.l.Get(t).status.Done? && s.l.ready == s.l.delayed == [] && s.l.running == 1
    requires s.l.phase.Canceled() && !s.l.phase.Terminated? && !s.l.exited && !s.l.panicked && !s.l.broken
    ensures Enabled(s, DeliverCompletion(t))
    ensures var s' := Apply(s, DeliverCompletion(t));
      s' == s.(completions := s.completions - multiset{t},
               l := s.l.(phase := Terminated, closes := s.l.closes + 1, exited := true, running := 0, log := s'.l.log))
  {
    hide Requeue, TryExecuteTask;
  }

  // ---------- a lost wakeup ----------

  /** Two tasks with one deadline are on the heap, and the timer is armed for it, or was meant to be. */
  lemma TwoDelayed(start: System, d: nat) returns (s: System, p: seq<Step>)
    requires Init(start) && RemainingTotalCapacity(start.l) >= 1 && d > 0
    ensures p == [Submit(0, Once, d, 0), Submit(1, Once, d, 0), DeliverSubmit(0), DeliverSubmit(1)]
    ensures Leads(start, p, s)
    ensures var task := NewTask(Once, d, 0, start.l.now); s.l.tasks == map[0 := task, 1 := task]
    ensures s.l.delayed == [0, 1] && s.l.now == start.l.now && s.l.target == start.l.now + d
    ensures s.l.timer.Some? && s.l.timer.value <= s.l.target && !s.l.exited && !s.l.panicked && !s.l.broken
  {
    hide Apply, Enabled, Leads;
    LeadsNowhere(start);
    SubmitStep(start, 0, d);
    s, p := Go(start, [], start, Submit(0, Once, d, 0));
    SubmitStep(s, 1, d);
    s, p := Go(start, p, s, Submit(1, Once, d, 0));
    DelayStep(s, 0);
    assert Insert(s.l, [], 0) == [0];
    s, p := Go(start, p, s, DeliverSubmit(0));
    DelayStep(s, 1);
    assert Insert(s.l, [0], 1) == [0] + Insert(s.l, [], 1);
    s, p := Go(start, p, s, DeliverSubmit(1));
  }

  /** Two tasks with one deadline. The timer takes out the first and is not armed again for the
      second: that one stays on the heap with the timer spent. `WakeupStaysLost` says for how long. */
  lemma WakeupLost(start: System, d: nat) returns (s: System)
    requires Init(start) && RemainingTotalCapacity(start.l) >= 1 && d > 0
    ensures Leads(start, [Submit(0, Once, d, 0), Submit(1, Once, d, 0), DeliverSubmit(0), DeliverSubmit(1),
                          Tick(d), TimerFires], s)
    ensures Lost(s.l, 1, start.l.now + d) && s.l.Deadline(1) <= s.l.now && s.l.Get(1).Runnable()
  {
    hide Apply, Enabled, Leads;
    var p;
    s, p := TwoDelayed(start, d);
    TickStep(s, d);
    s, p := Go(start, p, s, Tick(d));
    LoseStep(s, 0, 1);
    s, p := Go(start, p, s, TimerFires);
    assert p == [Submit(0, Once, d, 0), Submit(1, Once, d, 0), DeliverSubmit(0), DeliverSubmit(1), Tick(d), TimerFires];
  }

  lemma LoseStep(s: System, a: nat, b: nat)
    requires s.l.timer.Some? && s.l.timer.value <= s.l.now && !s.l.exited && !s.l.panicked && !s.l.broken
    requires s.l.delayed == [a, b] && a != b && s.l.Deadline(a) <= s.l.now && s.l.Deadline(b) == s.l.target
    ensures Enabled(s, TimerFires)
    ensures var s' := Apply(s, TimerFires);
      Lost(s'.l, b, s.l.Deadline(b)) && s'.l.now == s.l.now && s'.l.Get(b) == s.l.Get(b)
  {
    FiredFrame(s.l);
    var m := Fired(s.l);
    assert [a, b][1..] == [b];
    assert OnTimer(s.l) == m;
    hide OnTimer;
  }

  // ---------- the error of a finished task ----------

  /** A task is cancelled while it runs, ends without an error, and then its cancel event arrives: it
      was Done with no error before the last step, and is Done with one after it. */
  lemma ErrorChanges(start: System) returns (m: System, s: System)
    requires Init(start) && start.l.concurrency != 0 && RemainingTotalCapacity(start.l) >= 1
    ensures Leads(start, [Submit(0, Once, 0, 0), DeliverSubmit(0), CancelTask(0), FinishBody(0, NoError)], m)
    ensures IsStep(m, DeliverCancel(0), s)
    ensures 0 in m.l.tasks && m.l.tasks[0].status.Done? && m.l.tasks[0].err.NoError?
    ensures 0 in s.l.tasks && s.l.tasks[0].status.Done? && s.l.tasks[0].err.ContextCanceled?
  {
    hide Apply, Enabled, Leads;
    LeadsNowhere(start);
    var p;
    SubmitStep(start, 0, 0);
    m, p := Go(start, [], start, Submit(0, Once, 0, 0));
    StartStep(m, 0);
    m, p := Go(start, p, m, DeliverSubmit(0));
    CancelStep(m, 0);
    m, p := Go(start, p, m, CancelTask(0));
    FinishStep(m, 0);
    m, p := Go(start, p, m, FinishBody(0, NoError));
    NoteStep(m, 0);
    s := Apply(m, DeliverCancel(0));
    assert p == [Submit(0, Once, 0, 0), DeliverSubmit(0), CancelTask(0), FinishBody(0, NoError)];
  }
}
