/**
 No missed wakeup: while the deadlines put on the heap are distinct, the timer of the executor is
 armed for a time no later than the earliest of them whenever the loop waits.
 */
module ExecutorTimer {
  import opened Options
  import opened Tasks
  import opened ExecutorLoop
  import opened ExecutorRuns

  ghost predicate Sorted(l: Loop, d: seq<nat>) {
    forall i, j :: 0 <= i < j < |d| ==> l.Deadline(d[i]) <= l.Deadline(d[j])
  }

  /** The timer will fire, and no later than the first deadline. */
  ghost predicate Armed(l: Loop) {
    l.delayed != [] ==> l.timer == Some(l.target) && l.target <= l.Deadline(l.delayed[0])
  }

  /** The hypothesis: no two pushes have one deadline, and none has the initial target. */
  ghost predicate Distinct(log: seq<Mark>, target0: int) {
    && (forall k :: 0 <= k < |log| && log[k].Scheduled? ==> log[k].deadline != target0)
    && (forall j, k :: 0 <= j < k < |log| && log[j].Scheduled? && log[k].Scheduled? ==>
          log[j].deadline != log[k].deadline)
  }

  ghost predicate Known(log: seq<Mark>, target0: int, d: int) {
    d == target0 || exists k :: 0 <= k < |log| && log[k].Scheduled? && log[k].deadline == d
  }

  ghost predicate Booked(l: Loop) {
    forall i :: 0 <= i < |l.delayed| ==> Scheduled(l.delayed[i], l.Deadline(l.delayed[i])) in l.log
  }

  ghost predicate TimerOk(l: Loop, target0: int) {
    Sorted(l, l.delayed) && Armed(l) && Booked(l) && Known(l.log, target0, l.target)
  }

  // ---------- the pieces of a loop step ----------

  lemma {:induction false} InsertSorts(l: Loop, d: seq<nat>, t: nat)
    requires Sorted(l, d)
    ensures Sorted(l, Insert(l, d, t))
    ensures Insert(l, d, t)[0] ==
            if d == [] || l.Deadline(t) < l.Deadline(d[0]) then t else d[0]
    ensures forall x :: x in Insert(l, d, t) <==> x in d || x == t
  {
    if d != [] && l.Deadline(t) >= l.Deadline(d[0]) {
      InsertSorts(l, d[1..], t);
      assert d == [d[0]] + d[1..];
    }
  }

  lemma {:induction false} RemoveSorts(l: Loop, d: seq<nat>, t: nat)
    requires Sorted(l, d)
    ensures Sorted(l, Remove(d, t))
    ensures forall x :: x in Remove(d, t) ==> x in d
  {
    if d != [] && d[0] != t {
      RemoveSorts(l, d[1..], t);
      var r := Remove(d[1..], t);
      forall k | 0 <= k < |r| ensures l.Deadline(d[0]) <= l.Deadline(r[k]) {
        assert r[k] in d[1..];
        var m :| 1 <= m < |d| && d[m] == r[k];
      }
    }
  }

  /** A distinct deadline that was just pushed is not the target of the timer. */
  lemma PushedIsNews(log: seq<Mark>, t: nat, d: int, target0: int, target: int)
    requires Known(log, target0, target) && Distinct(log + [Scheduled(t, d)], target0)
    ensures d != target
  {
    var log' := log + [Scheduled(t, d)];
    assert log'[|log|].deadline == d;
    if target != target0 {
      var k :| 0 <= k < |log| && log[k].Scheduled? && log[k].deadline == target;
      assert log'[k] == log[k];
    }
  }

  /** Exactly when a push loses the wakeup: the heap was empty, the timer is spent, and the new
      deadline is the one it was last armed for. */
  lemma PushArmsExactly(l: Loop, t: nat)
    requires Sorted(l, l.delayed) && Armed(l)
    ensures Armed(PushDelayed(l, t)) <==>
            !(l.delayed == [] && l.timer != Some(l.target) && l.Deadline(t) == l.target)
    ensures Sorted(PushDelayed(l, t), PushDelayed(l, t).delayed)
  {
    InsertSorts(l, l.delayed, t);
    var l' := PushDelayed(l, t);
    assert l'.delayed == Insert(l, l.delayed, t) && l'.tasks == l.tasks;
    assert forall x :: l'.Deadline(x) == l.Deadline(x);
  }

  lemma PushBooked(l: Loop, t: nat)
    requires Sorted(l, l.delayed) && Booked(l)
    ensures Booked(PushDelayed(l, t))
  {
    var l' := PushDelayed(l, t);
    assert l'.log == l.log + [Scheduled(t, l.Deadline(t))] && l'.tasks == l.tasks;
    InsertSorts(l, l.delayed, t);
    forall i | 0 <= i < |l'.delayed|
      ensures Scheduled(l'.delayed[i], l'.Deadline(l'.delayed[i])) in l'.log
    {
      assert l'.delayed[i] in Insert(l, l.delayed, t);
    }
  }

  lemma PushOk(l: Loop, t: nat, target0: int)
    requires TimerOk(l, target0) && Distinct(PushDelayed(l, t).log, target0)
    ensures TimerOk(PushDelayed(l, t), target0)
  {
    assert PushDelayed(l, t).log == l.log + [Scheduled(t, l.Deadline(t))];
    PushedIsNews(l.log, t, l.Deadline(t), target0, l.target);
    PushArmsExactly(l, t);
    PushBooked(l, t);
    KnownTarget(l, PushDelayed(l, t), target0);
  }

  /** Anything that leaves heap, timer and deadlines alone, and only adds to the log. */
  lemma FrameOk(l: Loop, l': Loop, target0: int)
    requires TimerOk(l, target0) && l.log <= l'.log
    requires l'.delayed == l.delayed && l'.timer == l.timer && l'.target == l.target
    requires forall t :: t in l.delayed ==> l'.Deadline(t) == l.Deadline(t)
    ensures TimerOk(l', target0)
  {
    if l.target != target0 {
      var k :| 0 <= k < |l.log| && l.log[k].Scheduled? && l.log[k].deadline == l.target;
      assert l'.log[k] == l.log[k];
    }
    forall i | 0 <= i < |l'.delayed|
      ensures Scheduled(l'.delayed[i], l'.Deadline(l'.delayed[i])) in l'.log
    {
      var m := Scheduled(l.delayed[i], l.Deadline(l.delayed[i]));
      var k :| 0 <= k < |l.log| && l.log[k] == m;
      assert l'.log[k] == m;
    }
  }

  /** A task that is not delayed is run, queued or dropped: heap and timer stay as they are. */
  lemma TryExecuteFrame(l: Loop, t: nat)
    requires !(l.Get(t).Runnable() && l.Get(t).Delay(l.now) > 0)
    ensures var m := TryExecuteTask(l, t);
      && m.timer == l.timer && m.target == l.target && m.delayed == l.delayed && l.log <= m.log
      && forall x: nat :: m.Deadline(x) == l.Deadline(x)
  {
    hide PushDelayed;
  }

  lemma TryExecuteOk(l: Loop, t: nat, target0: int)
    requires TimerOk(l, target0) && Distinct(TryExecuteTask(l, t).log, target0)
    ensures TimerOk(TryExecuteTask(l, t), target0) && l.log <= TryExecuteTask(l, t).log
  {
    hide TimerOk;
    if l.Get(t).Runnable() && l.Get(t).Delay(l.now) > 0 {
      var l0 := l.(sElem := l.sElem + {t});
      assert TryExecuteTask(l, t) == PushDelayed(l0, t);
      PushFrame(l0, t);
      hide TryExecuteTask, PushDelayed;
      FrameOk(l, l0, target0);
      PushOk(l0, t, target0);
    } else {
      TryExecuteFrame(l, t);
      hide TryExecuteTask;
      FrameOk(l, TryExecuteTask(l, t), target0);
    }
  }

  lemma TryRunNextOk(l: Loop, target0: int)
    requires TimerOk(l, target0) && Distinct(TryRunNext(l).log, target0)
    ensures TimerOk(TryRunNext(l), target0)
  {
    if !l.phase.Terminated? && l.ready != [] && l.CanStart() {
      var t := l.ready[0];
      var l0 := l.(ready := l.ready[1..], qElem := l.qElem - {t});
      FrameOk(l, l0, target0);
      TryExecuteOk(l0, t, target0);
    } else {
      FrameOk(l, TryRunNext(l), target0);
    }
  }

  lemma TryRunNextLog(l: Loop)
    ensures l.log <= TryRunNext(l).log
  {
    if !l.phase.Terminated? && l.ready != [] && l.CanStart() {
      var t := l.ready[0];
      var l0 := l.(ready := l.ready[1..], qElem := l.qElem - {t});
      assert TryRunNext(l) == TryExecuteTask(l0, t);
      hide TryRunNext, TryExecuteTask;
      TryExecuteLog(l0, t);
    } else {
      hide TryExecuteTask;
    }
  }

  lemma {:induction false} DrainLog(l: Loop)
    ensures l.log <= Drain(l).log
    decreases |l.ready|
  {
    if l.CanStart() && l.ready != [] && !l.phase.Terminated? {
      PopShrinks(l);
      hide TryRunNext;
      TryRunNextLog(l);
      DrainLog(TryRunNext(l));
    }
  }

  lemma {:induction false} DrainOk(l: Loop, target0: int)
    requires TimerOk(l, target0) && Distinct(Drain(l).log, target0)
    ensures TimerOk(Drain(l), target0)
    decreases |l.ready|
  {
    if l.CanStart() && l.ready != [] && !l.phase.Terminated? {
      PopShrinks(l);
      assert Drain(l) == Drain(TryRunNext(l));
      hide TryRunNext, TimerOk;
      DrainLog(TryRunNext(l));
      DistinctPrefix(TryRunNext(l).log, Drain(l).log, target0);
      hide Distinct;
      TryRunNextOk(l, target0);
      DrainOk(TryRunNext(l), target0);
    }
  }

  lemma DistinctPrefix(log: seq<Mark>, log': seq<Mark>, target0: int)
    requires log <= log' && Distinct(log', target0)
    ensures Distinct(log, target0)
  {
    forall k | 0 <= k < |log| ensures log[k] == log'[k] {}
  }

  lemma RequeueOk(l: Loop, t: nat, target0: int)
    requires TimerOk(l, target0) && t !in l.delayed && Distinct(Requeue(l, t).log, target0)
    requires l.Get(t).Periodic() && l.Get(t).status.Running?
    ensures TimerOk(Requeue(l, t), target0)
  {
    var task := ConfigureNextRun(l.Get(t), l.now).task;
    var l0 := l.(tasks := l.tasks[t := task]);
    assert Requeue(l, t) == if task.Delay(l.now) > 0 then PushDelayed(l0, t) else PushBack(l0, t) by {
      RequeueCases(l, t);
    }
    FrameOk(l, l0, target0);
    if task.Delay(l.now) > 0 { PushOk(l0, t, target0); } else { FrameOk(l0, PushBack(l0, t), target0); }
  }

  lemma SettleOk(l: Loop, t: nat, target0: int)
    requires TimerOk(l, target0) && t !in l.delayed && Distinct(Settle(l, t).log, target0)
    ensures TimerOk(Settle(l, t), target0)
  {
    var l0 := l.(running := l.running - 1);
    hide TimerOk, Distinct;
    if l.Get(t).status.Running? && !l.Get(t).canceled && l.Get(t).Periodic() {
      assert Settle(l, t) == Requeue(l0, t);
      hide Settle, Requeue;
      FrameOk(l, l0, target0);
      RequeueOk(l0, t, target0);
    } else {
      hide PushDelayed;
      FrameOk(l, Settle(l, t), target0);
    }
  }

  // ---------- the timer event ----------

  /** The loop when the timer has fired, just before `configureSchedulerTimer`: the due head of the
      heap has been taken out and run or queued. */
  function Fired(l: Loop): Loop {
    var l0 := l.(timer := None);
    if l.delayed != [] && l.Deadline(l.delayed[0]) <= l.now
    then Arrive(l0.(delayed := l.delayed[1..], sElem := l.sElem - {l.delayed[0]}), l.delayed[0])
    else l0
  }

  /** So it is with a due task that arrives. */
  lemma ArriveFrame(l: Loop, t: nat)
    requires l.Deadline(t) <= l.now
    ensures var m := Arrive(l, t);
      && m.timer == l.timer && m.target == l.target && m.delayed == l.delayed && l.log <= m.log
      && forall x: nat :: m.Deadline(x) == l.Deadline(x)
  {
    TryExecuteFrame(Stamp(l, t), t);
    hide TryExecuteTask;
  }

  lemma FiredFrame(l: Loop)
    ensures var m := Fired(l);
      && OnTimer(l) == (if l.delayed == [] then m else Configure(m))
      && m.timer == None && m.target == l.target && l.log <= m.log
      && m.delayed == (if l.delayed != [] && l.Deadline(l.delayed[0]) <= l.now
                       then l.delayed[1..] else l.delayed)
      && forall x: nat :: m.Deadline(x) == l.Deadline(x)
  {
    if l.delayed != [] && l.Deadline(l.delayed[0]) <= l.now {
      ArriveFrame(l.(timer := None, delayed := l.delayed[1..], sElem := l.sElem - {l.delayed[0]}),
                  l.delayed[0]);
    }
  }

  /** What the timer event leaves alone. */
  lemma OnTimerFrame(l: Loop)
    ensures var l' := OnTimer(l);
      && l.log <= l'.log
      && l'.delayed == (if l.delayed != [] && l.Deadline(l.delayed[0]) <= l.now
                        then l.delayed[1..] else l.delayed)
      && (l'.target == l.target || (l'.delayed != [] && l'.target == l.Deadline(l'.delayed[0])))
      && forall x: nat :: l'.Deadline(x) == l.Deadline(x)
  {
    FiredFrame(l);
    ConfigureFrame(Fired(l));
    assert OnTimer(l).tasks == Fired(l).tasks && OnTimer(l).log == Fired(l).log;
  }

  /** Exactly when the timer event loses the wakeup: the entry behind the one it took out has the
      deadline the timer was armed for, so the timer is not armed again. */
  lemma TimerRearmsExactly(l: Loop)
    requires Sorted(l, l.delayed) && Armed(l) && l.timer.Some? && l.timer.value <= l.now
    ensures Armed(OnTimer(l)) <==>
            !(|l.delayed| >= 2 && l.Deadline(l.delayed[1]) == l.target)
  {
    FiredFrame(l);
    var m, l' := Fired(l), OnTimer(l);
    if l.delayed == [] { return; }
    assert l' == Configure(m);
    hide OnTimer, Fired;
    if m.delayed != [] {
      assert Armed(l') <==> m.Deadline(m.delayed[0]) != l.target;
      assert l.target == l.timer.value;
    }
    if l.Deadline(l.delayed[0]) <= l.now && |l.delayed| >= 2 { assert l.delayed[1..][0] == l.delayed[1]; }
  }

  /** Two tasks on the heap have different deadlines. */
  lemma HeapDistinct(s: System, target0: int, i: nat, j: nat)
    requires Conserved(s) && TimerOk(s.l, target0) && Distinct(s.l.log, target0)
    requires i < j < |s.l.delayed|
    ensures s.l.delayed[i] != s.l.delayed[j]
    ensures s.l.Deadline(s.l.delayed[i]) != s.l.Deadline(s.l.delayed[j])
  {
    var l := s.l;
    var x, y := l.delayed[i], l.delayed[j];
    assert OwnedOnce(l, s.submits + s.returned, s.completions, x);
    assert multiset(l.delayed)[x] <= 1;
    if x == y {
      TwiceCounts(l.delayed, i, j);
    }
    var a :| 0 <= a < |l.log| && l.log[a] == Scheduled(x, l.Deadline(x));
    var b :| 0 <= b < |l.log| && l.log[b] == Scheduled(y, l.Deadline(y));
    assert a < b || b < a;
  }

  lemma TwiceCounts(d: seq<nat>, i: nat, j: nat)
    requires i < j < |d| && d[i] == d[j]
    ensures multiset(d)[d[i]] >= 2
  {
    assert d == d[..j] + d[j..];
    assert d[i] == d[..j][i] && d[i] in d[..j];
    assert d[j] == d[j..][0] && d[j] in d[j..];
  }

  lemma TimerStepBooked(l: Loop)
    requires Booked(l)
    ensures Booked(OnTimer(l))
  {
    OnTimerFrame(l);
    var l' := OnTimer(l);
    forall i | 0 <= i < |l'.delayed|
      ensures Scheduled(l'.delayed[i], l'.Deadline(l'.delayed[i])) in l'.log
    {
      var x := l'.delayed[i];
      assert x in l.delayed;
      var k :| 0 <= k < |l.log| && l.log[k] == Scheduled(x, l.Deadline(x));
      assert l'.log[k] == l.log[k];
    }
  }

  lemma TimerStepSorted(l: Loop)
    requires Sorted(l, l.delayed)
    ensures Sorted(OnTimer(l), OnTimer(l).delayed)
  {
    OnTimerFrame(l);
  }

  lemma TimerStepOk(s: System, target0: int)
    requires Conserved(s) && TimerOk(s.l, target0) && Enabled(s, TimerFires)
    requires Distinct(s.l.log, target0)
    ensures TimerOk(OnTimer(s.l), target0)
  {
    if |s.l.delayed| >= 2 { HeapDistinct(s, target0, 0, 1); }
    TimerRearmsExactly(s.l);
    TimerStepBooked(s.l);
    TimerStepSorted(s.l);
    assert Known(OnTimer(s.l).log, target0, OnTimer(s.l).target) by {
      OnTimerFrame(s.l);
      KnownTarget(s.l, OnTimer(s.l), target0);
    }
  }

  lemma KnownTarget(l: Loop, l': Loop, target0: int)
    requires l.log <= l'.log && Known(l.log, target0, l.target) && Booked(l')
    requires l'.target == l.target || (l'.delayed != [] && l'.target == l'.Deadline(l'.delayed[0]))
    ensures Known(l'.log, target0, l'.target)
  {
    if l'.target == l.target {
      if l.target != target0 {
        var k :| 0 <= k < |l.log| && l.log[k].Scheduled? && l.log[k].deadline == l.target;
        assert l'.log[k] == l.log[k];
      }
    } else {
      var k :| 0 <= k < |l'.log| && l'.log[k] == Scheduled(l'.delayed[0], l'.target);
    }
  }

  // ---------- steps and runs ----------

  /** Taking something off the heap keeps the timer early enough. */
  lemma ThinOk(l: Loop, l': Loop, target0: int)
    requires TimerOk(l, target0) && l'.log == l.log && l'.timer == l.timer && l'.target == l.target
    requires forall x: nat :: l'.Deadline(x) == l.Deadline(x)
    requires Sorted(l, l'.delayed) && forall x :: x in l'.delayed ==> x in l.delayed
    ensures TimerOk(l', target0)
  {
    HeadFirst(l);
    hide Known;
    forall i | 0 <= i < |l'.delayed|
      ensures Scheduled(l'.delayed[i], l'.Deadline(l'.delayed[i])) in l'.log
    {
      var x := l'.delayed[i];
      assert x in l.delayed;
      var k :| 0 <= k < |l.delayed| && l.delayed[k] == x;
    }
    if l'.delayed != [] { assert l'.delayed[0] in l.delayed; }
  }

  lemma CanceledOk(l: Loop, t: nat, target0: int)
    requires TimerOk(l, target0)
    ensures TimerOk(OnCanceled(l, t), target0)
  {
    var l' := OnCanceled(l, t);
    CanceledFrame(l, t);
    assert forall x: nat :: l'.Deadline(x) == l.Deadline(x);
    RemoveSorts(l, l.delayed, t);
    hide OnCanceled, Remove;
    if l'.delayed == l.delayed {
      hide TimerOk;
      FrameOk(l, l', target0);
    } else {
      ThinOk(l, l', target0);
    }
  }

  lemma NotDelayed(s: System, t: nat)
    requires Conserved(s) && (t in s.submits || t in s.completions || t !in s.l.tasks)
    ensures t !in s.l.delayed
  {
    assert OwnedOnce(s.l, s.submits + s.returned, s.completions, t);
  }

  lemma CompletedOk(s: System, t: nat, target0: int)
    requires Conserved(s) && t in s.completions && TimerOk(s.l, target0)
    requires Distinct(OnCompleted(s.l, t).log, target0)
    ensures TimerOk(OnCompleted(s.l, t), target0)
  {
    var l0 := s.l.(log := s.l.log + [Ended(t, s.l.now)]);
    FrameOk(s.l, l0, target0);
    NotDelayed(s, t);
    TryRunNextLog(Settle(l0, t));
    DistinctPrefix(Settle(l0, t).log, OnCompleted(s.l, t).log, target0);
    SettleOk(l0, t, target0);
    TryRunNextOk(Settle(l0, t), target0);
  }

  lemma CancelOk(l: Loop, target0: int)
    requires TimerOk(l, target0) && Distinct(OnCancel(l).log, target0)
    ensures TimerOk(OnCancel(l), target0)
  {
    if !l.phase.Canceled() {
      FrameOk(l, l.(phase := ShuttingDown), target0);
      TryRunNextOk(l.(phase := ShuttingDown), target0);
    }
  }

  lemma SubmittedOk(l: Loop, t: nat, target0: int)
    requires TimerOk(l, target0) && Distinct(OnSubmitted(l, t).log, target0)
    ensures TimerOk(OnSubmitted(l, t), target0)
  {
    FrameOk(l, Stamp(l, t), target0);
    TryExecuteOk(Stamp(l, t), t, target0);
  }

  lemma ConcurrencyOk(l: Loop, n: int, target0: int)
    requires TimerOk(l, target0) && Distinct(OnUpdateConcurrency(l, n).log, target0)
    ensures TimerOk(OnUpdateConcurrency(l, n), target0)
  {
    FrameOk(l, l.(concurrency := n), target0);
    DrainOk(l.(concurrency := n), target0);
  }

  lemma CancelNowOk(l: Loop, target0: int)
    requires TimerOk(l, target0)
    ensures TimerOk(OnCancelNow(l).0, target0)
  {}

  lemma LoopStepOk(s: System, step: Step, target0: int)
    requires Conserved(s) && Enabled(s, step) && step.IsLoopStep()
    requires TimerOk(s.l, target0) && Distinct(Apply(s, step).l.log, target0) && Distinct(s.l.log, target0)
    ensures TimerOk(Apply(s, step).l, target0)
  {
    var l := s.l;
    match step
    case TimerFires => TimerStepOk(s, target0);
    case DeliverSubmit(t) => SubmittedOk(l, t, target0);
    case DeliverCompletion(t) => CompletedOk(s, t, target0);
    case DeliverCancel(t) => CanceledOk(l, t, target0);
    case SetConcurrency(n) => ConcurrencyOk(l, n, target0);
    case SetCapacity(n) => FrameOk(l, l.(capacity := n), target0);
    case CancelExecutor => CancelOk(l, target0);
    case CancelNow => CancelNowOk(l, target0);
  }

  lemma ClientStepOk(s: System, step: Step, target0: int)
    requires Conserved(s) && Enabled(s, step) && !step.IsLoopStep() && TimerOk(s.l, target0)
    ensures TimerOk(Apply(s, step).l, target0)
  {
    if step.Submit? { NotDelayed(s, step.t); }
    ClientStepFrame(s, step);
    hide TimerOk, Conserved, Apply, Enabled;
    FrameOk(s.l, Apply(s, step).l, target0);
  }

  lemma TryExecuteLog(l: Loop, t: nat)
    ensures l.log <= TryExecuteTask(l, t).log
  {
    PushFrame(l.(sElem := l.sElem + {t}), t);
    hide PushDelayed, Insert;
  }

  lemma SettleLog(l: Loop, t: nat)
    ensures l.log <= Settle(l, t).log
  {}

  lemma CompletedLog(l: Loop, t: nat)
    ensures l.log <= OnCompleted(l, t).log
  {
    var l0 := l.(log := l.log + [Ended(t, l.now)]);
    SettleLog(l0, t);
    TryRunNextLog(Settle(l0, t));
    assert OnCompleted(l, t) == TryRunNext(Settle(l0, t));
  }

  lemma ShutdownLog(l: Loop)
    ensures l.log <= OnCancel(l).log && l.log <= OnCancelNow(l).0.log
  {
    if !l.phase.Canceled() { TryRunNextLog(l.(phase := ShuttingDown)); }
  }

  lemma LoopStepLog(s: System, step: Step)
    requires Enabled(s, step) && step.IsLoopStep()
    ensures s.l.log <= Apply(s, step).l.log
  {
    var l := s.l;
    match step
    case TimerFires => OnTimerFrame(l);
    case DeliverSubmit(t) => TryExecuteLog(Stamp(l, t), t);
    case DeliverCompletion(t) => CompletedLog(l, t);
    case DeliverCancel(t) =>
    case SetConcurrency(n) => DrainLog(l.(concurrency := n));
    case SetCapacity(n) =>
    case CancelExecutor => ShutdownLog(l);
    case CancelNow => ShutdownLog(l);
  }

  lemma StepLog(s: System, step: Step)
    requires Enabled(s, step)
    ensures s.l.log <= Apply(s, step).l.log
  {
    if step.IsLoopStep() { LoopStepLog(s, step); }
  }

  lemma HeadFirst(l: Loop)
    requires Sorted(l, l.delayed)
    ensures forall t :: t in l.delayed ==> l.Deadline(l.delayed[0]) <= l.Deadline(t)
  {}

  /** No missed wakeup, over every run whose pushed deadlines are distinct: in every state with a
      delayed task, the timer is armed for a time no later than every deadline on the heap. */
  lemma {:induction false} NoMissedWakeup(states: seq<System>, steps: seq<Step>, i: nat)
    requires IsRun(states, steps) && i < |states|
    requires Distinct(states[i].l.log, states[0].l.target)
    ensures var l := states[i].l;
      TimerOk(l, states[0].l.target) &&
      forall t :: t in l.delayed ==> l.timer.Some? && l.timer.value <= l.Deadline(t)
  {
    var target0 := states[0].l.target;
    if i > 0 {
      var k := i - 1;
      assert IsStep(states[k], steps[k], states[i]);
      hide IsRun, Apply, Enabled, Sorted, Booked, Known;
      StepLog(states[k], steps[k]);
      DistinctPrefix(states[k].l.log, states[i].l.log, target0);
      hide Distinct;
      NoMissedWakeup(states, steps, k);
      RunConserves(states, steps, k);
      hide Conserved;
      if steps[k].IsLoopStep() {
        LoopStepOk(states[k], steps[k], target0);
      } else {
        ClientStepOk(states[k], steps[k], target0);
      }
      HeadFirst(states[i].l);
    }
  }

  // ---------- how long a lost wakeup stays lost ----------

  /** Task `h` is first on the heap, and the spent timer is taken to be armed for its deadline `d`. */
  predicate Lost(l: Loop, h: nat, d: int) {
    l.delayed != [] && l.delayed[0] == h && l.timer == None && l.target == d && l.Deadline(h) == d
  }

  /** Nothing due before `d` has been pushed since the log had length `from`. */
  ghost predicate NoEarlier(log: seq<Mark>, from: nat, d: int) {
    forall k :: from <= k < |log| && log[k].Scheduled? ==> log[k].deadline >= d
  }

  lemma PushLost(l: Loop, t: nat, h: nat, d: int)
    requires Lost(l, h, d) && NoEarlier(PushDelayed(l, t).log, |l.log|, d)
    ensures Lost(PushDelayed(l, t), h, d)
  {
    var l' := PushDelayed(l, t);
    assert l'.log[|l.log|] == Scheduled(t, l.Deadline(t));
  }

  lemma TryExecuteLost(l: Loop, t: nat, h: nat, d: int)
    requires Lost(l, h, d) && NoEarlier(TryExecuteTask(l, t).log, |l.log|, d)
    ensures Lost(TryExecuteTask(l, t), h, d)
  {
    if l.Get(t).Runnable() && l.Get(t).Delay(l.now) > 0 {
      var l0 := l.(sElem := l.sElem + {t});
      assert TryExecuteTask(l, t) == PushDelayed(l0, t);
      hide TryExecuteTask, PushDelayed;
      PushLost(l0, t, h, d);
    } else {
      TryExecuteFrame(l, t);
      hide TryExecuteTask;
    }
  }

  lemma TryRunNextLost(l: Loop, h: nat, d: int)
    requires Lost(l, h, d) && NoEarlier(TryRunNext(l).log, |l.log|, d)
    ensures Lost(TryRunNext(l), h, d)
  {
    if !l.phase.Terminated? && l.ready != [] && l.CanStart() {
      var t := l.ready[0];
      var l0 := l.(ready := l.ready[1..], qElem := l.qElem - {t});
      assert TryRunNext(l) == TryExecuteTask(l0, t);
      hide TryRunNext, TryExecuteTask;
      TryExecuteLost(l0, t, h, d);
    }
  }

  lemma {:induction false} DrainLost(l: Loop, h: nat, d: int)
    requires Lost(l, h, d) && NoEarlier(Drain(l).log, |l.log|, d)
    ensures Lost(Drain(l), h, d)
    decreases |l.ready|
  {
    if l.CanStart() && l.ready != [] && !l.phase.Terminated? {
      PopShrinks(l);
      TryRunNextLog(l);
      hide TryRunNext;
      DrainLog(TryRunNext(l));
      TryRunNextLost(l, h, d);
      DrainLost(TryRunNext(l), h, d);
    }
  }

  lemma SettleLost(l: Loop, t: nat, h: nat, d: int)
    requires Lost(l, h, d) && NoEarlier(Settle(l, t).log, |l.log|, d) && t != h
    ensures Lost(Settle(l, t), h, d)
  {
    var l0 := l.(running := l.running - 1);
    hide PushDelayed;
    if l.Get(t).status.Running? && !l.Get(t).canceled && l.Get(t).Periodic() {
      var l1 := l0.(tasks := l.tasks[t := ConfigureNextRun(l.Get(t), l.now).task]);
      assert Settle(l, t) == Requeue(l0, t);
      RequeueCases(l0, t);
      hide Settle, Requeue;
      if l1.Get(t).Delay(l.now) > 0 { PushLost(l1, t, h, d); }
    }
  }

  lemma CompletedLost(l: Loop, t: nat, h: nat, d: int)
    requires Lost(l, h, d) && NoEarlier(OnCompleted(l, t).log, |l.log|, d) && t != h
    ensures Lost(OnCompleted(l, t), h, d)
  {
    var l0 := l.(log := l.log + [Ended(t, l.now)]);
    var m := Settle(l0, t);
    assert OnCompleted(l, t) == TryRunNext(m);
    hide Settle, TryRunNext, OnCompleted;
    SettleLog(l0, t);
    TryRunNextLog(m);
    SettleLost(l0, t, h, d);
    TryRunNextLost(m, h, d);
  }

  lemma LoopStepLost(s: System, step: Step, h: nat, d: int)
    requires Enabled(s, step) && step.IsLoopStep() && Lost(s.l, h, d)
    requires !step.CancelNow? && (step.DeliverCancel? || step.DeliverCompletion? ==> step.t != h)
    requires NoEarlier(Apply(s, step).l.log, |s.l.log|, d)
    ensures Lost(Apply(s, step).l, h, d)
  {
    var l := s.l;
    hide ClientNext, OnCompleted, OnCanceled, TryExecuteTask, TryRunNext, Drain;
    match step
    case DeliverSubmit(t) => TryExecuteLost(Stamp(l, t), t, h, d);
    case DeliverCompletion(t) => CompletedLost(l, t, h, d);
    case DeliverCancel(t) => CanceledFrame(l, t);
    case SetConcurrency(n) => DrainLost(l.(concurrency := n), h, d);
    case SetCapacity(_) =>
    case CancelExecutor => if !l.phase.Canceled() { TryRunNextLost(l.(phase := ShuttingDown), h, d); }
  }

  /** Only CancelNow, the cancel event of the task itself, or an earlier deadline helps. */
  lemma StepLost(s: System, step: Step, h: nat, d: int)
    requires Conserved(s) && Enabled(s, step) && Lost(s.l, h, d)
    requires !step.CancelNow? && step != DeliverCancel(h)
    requires NoEarlier(Apply(s, step).l.log, |s.l.log|, d)
    ensures Lost(Apply(s, step).l, h, d)
  {
    var l := s.l;
    assert h in l.delayed;
    assert OwnedOnce(l, s.submits + s.returned, s.completions, h);
    if step.IsLoopStep() {
      assert step.DeliverCompletion? ==> step.t != h;
      hide Conserved, OwnedOnce;
      LoopStepLost(s, step, h, d);
    } else {
      ClientStepFrame(s, step);
      hide Apply, Conserved;
    }
  }

  /** However a run goes on, and however much time passes: the task is not started before it is
      cancelled, handed back by CancelNow, or something with an earlier deadline is pushed. */
  lemma {:induction false} WakeupStaysLost(states: seq<System>, steps: seq<Step>, i: nat, h: nat, d: int)
    requires |states| == |steps| + 1 && i < |states|
    requires forall k {:trigger steps[k]} :: 0 <= k < |steps| ==> IsStep(states[k], steps[k], states[k + 1])
    requires Conserved(states[0]) && Lost(states[0].l, h, d)
    requires forall k :: 0 <= k < i ==> !steps[k].CancelNow? && steps[k] != DeliverCancel(h)
    requires NoEarlier(states[i].l.log, |states[0].l.log|, d)
    ensures Conserved(states[i]) && Lost(states[i].l, h, d) && states[0].l.log <= states[i].l.log
  {
    if i > 0 {
      var k := i - 1;
      assert IsStep(states[k], steps[k], states[i]);
      hide Conserved, Lost, Apply;
      StepLog(states[k], steps[k]);
      WakeupStaysLost(states, steps, k, h, d);
      StepLost(states[k], steps[k], h, d);
      StepConserves(states[k], steps[k], states[i]);
    }
  }
}
