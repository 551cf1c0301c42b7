/**
 The event loop of the default executor (executors/executors_default.go) as functions on the
 state that its goroutine owns: one function per helper and per received event.

 The delayed heap is the sorted list that `PriorityQueues` proves it to be, the ready list the one
 that `ReadyLists` proves it to be. A task is named by its id; `qElem` are the tasks whose
 `queueElement` belongs to the ready list, `sElem` those whose `sQueueElement` is set. `broken` says
 that a stale handle has been removed from the ready list: its links and its length no longer agree.
 `arrivals`, `stamp` and `log` are history: they record what happened and decide nothing.
 */
module ExecutorLoop {
  import opened Options
  import opened Tasks

  datatype Phase = Active | ShuttingDown | WaitingTermination | Terminated
  {
    function Rank(): nat {
      match this
      case Active => 0
      case ShuttingDown => 1
      case WaitingTermination => 2
      case Terminated => 3
    }
    predicate Canceled() { !Active? }
  }

  datatype Mark =
    | Started(task: nat, at: int, stamp: nat)
    | Ended(task: nat, at: int)
    | Scheduled(task: nat, deadline: int)

  datatype Loop = Loop(
    tasks: map<nat, Task>, now: int, phase: Phase,
    ready: seq<nat>, delayed: seq<nat>, qElem: set<nat>, sElem: set<nat>,
    timer: Option<int>, target: int,
    capacity: int, concurrency: int, running: int, live: multiset<nat>,
    closes: nat, exited: bool, panicked: bool, broken: bool,
    arrivals: nat, stamp: map<nat, nat>, log: seq<Mark>)
  {
    /** An id that names no task reads as a finished task. */
    function Get(t: nat): Task {
      if t in tasks then tasks[t] else Task(Once, Done, 0, 0, false, NoError, Unset)
    }
    predicate CanStart() { concurrency < 0 || running < concurrency }
    function QueueLength(): nat { |ready| + |delayed| }
    function Deadline(t: nat): int { Get(t).nextRun }
  }

  const MAX_INT32 := 0x7fff_ffff

  function RemainingTotalCapacity(l: Loop): int {
    if l.concurrency < 0 || l.capacity < 0 then MAX_INT32
    else l.concurrency - l.running + l.capacity - l.QueueLength()
  }

  // ---------- the two queues ----------

  /** Insertion behind every entry that is due no later: the order (deadline, insertion). */
  function Insert(l: Loop, d: seq<nat>, t: nat): seq<nat> {
    if d == [] || l.Deadline(t) < l.Deadline(d[0]) then [t] + d
    else [d[0]] + Insert(l, d[1..], t)
  }

  function Remove(s: seq<nat>, t: nat): seq<nat> {
    if s == [] then [] else if s[0] == t then s[1..] else [s[0]] + Remove(s[1..], t)
  }

  function PushDelayed(l: Loop, t: nat): Loop {
    Configure(l.(delayed := Insert(l, l.delayed, t),
                 log := l.log + [Scheduled(t, l.Deadline(t))]))
  }

  /** `configureSchedulerTimer`. */
  function Configure(l: Loop): Loop {
    if l.delayed == [] then l
    else
      var next := l.Deadline(l.delayed[0]);
      if next == l.target then l else l.(timer := Some(next), target := next)
  }

  // ---------- starting tasks ----------

  function ExecuteTask(l: Loop, t: nat): Loop {
    var (task, ok) := SetRunning(l.Get(t), l.now);
    if !ok then l
    else l.(tasks := l.tasks[t := task], running := l.running + 1, live := l.live + multiset{t},
            log := l.log + [Started(t, l.now, if t in l.stamp then l.stamp[t] else 0)])
  }

  function TryExecuteTask(l: Loop, t: nat): Loop {
    if !l.Get(t).Runnable() then l
    else if l.Get(t).Delay(l.now) > 0 then PushDelayed(l.(sElem := l.sElem + {t}), t)
    else if !l.CanStart() then l.(ready := l.ready + [t], qElem := l.qElem + {t})
    else ExecuteTask(l, t)
  }

  /** A task reaches the loop from a submitter or from the timer: it is stamped, then tried. */
  function Arrive(l: Loop, t: nat): Loop {
    TryExecuteTask(Stamp(l, t), t)
  }

  function Stamp(l: Loop, t: nat): Loop {
    l.(stamp := l.stamp[t := l.arrivals], arrivals := l.arrivals + 1)
  }

  function TryRunNext(l: Loop): Loop {
    if l.phase.Terminated? then l
    else if l.QueueLength() == 0 then
      if !l.phase.Canceled() then l
      else if l.running > 0 then
        if l.phase.ShuttingDown? then l.(phase := WaitingTermination) else l
      else l.(phase := Terminated, closes := l.closes + 1, exited := true)
    else if l.ready == [] || !l.CanStart() then l
    else
      var t := l.ready[0];
      TryExecuteTask(l.(ready := l.ready[1..], qElem := l.qElem - {t}), t)
  }

  // ---------- one function per event ----------

  function OnTimer(l: Loop): Loop {
    var l0 := l.(timer := None);
    if l0.delayed == [] then l0
    else
      var t := l0.delayed[0];
      if l0.Deadline(t) <= l0.now then
        Configure(Arrive(l0.(delayed := l0.delayed[1..], sElem := l0.sElem - {t}), t))
      else Configure(l0)
  }

  function OnSubmitted(l: Loop, t: nat): Loop { Arrive(l, t) }

  function OnCompleted(l: Loop, t: nat): Loop {
    TryRunNext(Settle(l.(log := l.log + [Ended(t, l.now)]), t))
  }

  /** The first half of the completion event: finish the task or put it back in a queue. */
  function Settle(l: Loop, t: nat): Loop {
    var l0 := l.(running := l.running - 1);
    if l.Get(t).status.Done? then l0
    else if l.Get(t).canceled then
      l0.(tasks := l.tasks[t := SetDone(l.Get(t), ContextCanceled).0])
    else if !l.Get(t).Periodic() then l0
    else Requeue(l0, t)
  }

  function Requeue(l: Loop, t: nat): Loop {
    match ConfigureNextRun(l.Get(t), l.now)
    case Panic => l.(panicked := true)
    case Next(task) =>
      var l1 := l.(tasks := l.tasks[t := task]);
      if task.Delay(l.now) > 0 then PushDelayed(l1, t)
      else Stamp(l1, t).(ready := l1.ready + [t])
  }

  /** A handle into the ready list of a task that is not in it: `CancelNow` reset the list, and the
      element still names the list as its own. */
  predicate Stale(l: Loop, t: nat) { t in l.qElem && t !in l.ready }

  function OnCanceled(l: Loop, t: nat): Loop {
    var l0 := if t in l.tasks then l.(tasks := l.tasks[t := NoteCanceled(l.tasks[t])]) else l;
    if l0.ready == [] then l0
    else if Stale(l0, t) then l0.(broken := true)
    else Unqueue(l0, t)
  }

  /** Takes a task out of the queues it has handles into. */
  function Unqueue(l: Loop, t: nat): Loop {
    l.(ready := if t in l.qElem then Remove(l.ready, t) else l.ready, qElem := l.qElem - {t},
       delayed := if t in l.sElem then Remove(l.delayed, t) else l.delayed)
  }

  function OnUpdateConcurrency(l: Loop, n: int): Loop { Drain(l.(concurrency := n)) }

  function Drain(l: Loop): Loop
    decreases |l.ready|
  {
    if !l.CanStart() || l.ready == [] || l.phase.Terminated? then l
    else Drain(TryRunNext(l))
  }

  /** Popping the ready list makes it shorter, whatever becomes of the task. */
  lemma PopShrinks(l: Loop)
    requires l.CanStart() && l.ready != [] && !l.phase.Terminated?
    ensures TryRunNext(l).ready == l.ready[1..]
    ensures TryRunNext(l).phase == l.phase && TryRunNext(l).exited == l.exited
  {}

  function OnUpdateCapacity(l: Loop, n: int): Loop { l.(capacity := n) }

  function OnCancel(l: Loop): Loop {
    if l.phase.Canceled() then l else TryRunNext(l.(phase := ShuttingDown))
  }

  /** The loop after `CancelNow`, and the futures it hands back. */
  function OnCancelNow(l: Loop): (Loop, seq<nat>) {
    if l.phase.Rank() >= 2 then (l, [])
    else
      (TryRunNext(l.(ready := [], delayed := [],
                     phase := if l.phase.ShuttingDown? then WaitingTermination else l.phase)),
       l.ready + l.delayed)
  }
}

/** The executor object: its methods update the fields in place, as the goroutine does. */
module Executors {
  import opened Options
  import opened Tasks
  import opened L = ExecutorLoop

  /** The answer of `schedule`. */
  datatype Admission = ErrExecutorCanceled | ErrExecutorQueueFull | Admitted

  class DefaultExecutor {
    var tasks: map<nat, Task>
    var now: int
    var phase: Phase
    var queue: seq<nat>
    var scheduledQueue: seq<nat>
    var queueElement: set<nat>
    var sQueueElement: set<nat>
    var schedulerTimer: Option<int>
    var schedulerTimerTarget: int
    var queueCapacity: int
    var concurrency: int
    var running: int
    var live: multiset<nat>
    var terminationCloses: nat
    var exited: bool
    var panicked: bool
    var queueBroken: bool
    ghost var arrivals: nat
    ghost var stamp: map<nat, nat>
    ghost var log: seq<Mark>

    ghost function Abs(): Loop
      reads this
    {
      Loop(tasks, now, phase, queue, scheduledQueue, queueElement, sQueueElement,
           schedulerTimer, schedulerTimerTarget, queueCapacity, concurrency, running, live,
           terminationCloses, exited, panicked, queueBroken, arrivals, stamp, log)
    }

    constructor (concurrency: int, queueCapacity: int, now: int, target: int)
      ensures Abs() == Loop(map[], now, Active, [], [], {}, {}, Some(now), target,
                            queueCapacity, concurrency, 0, multiset{}, 0, false, false, false, 0, map[], [])
    {
      tasks, this.now, phase := map[], now, Active;
      queue, scheduledQueue, queueElement, sQueueElement := [], [], {}, {};
      schedulerTimer, schedulerTimerTarget := Some(now), target;
      this.queueCapacity, this.concurrency, running, live := queueCapacity, concurrency, 0, multiset{};
      terminationCloses, exited, panicked, queueBroken := 0, false, false, false;
      arrivals, stamp, log := 0, map[], [];
    }

    function Task(t: nat): Task
      reads this
      ensures Task(t) == Abs().Get(t)
    {
      if t in tasks then tasks[t] else Tasks.Task(Once, Done, 0, 0, false, NoError, Unset)
    }

    predicate CanStartNewTask()
      reads this
      ensures CanStartNewTask() == Abs().CanStart()
    {
      concurrency < 0 || running < concurrency
    }

    /** `schedule` up to the send of its event: the checks, and the new task. */
    method Schedule(t: nat, kind: Kind, initialDelay: int, delay: int) returns (r: Admission)
      requires t !in tasks
      modifies this`tasks
      ensures r.ErrExecutorCanceled? <==> phase.Canceled()
      ensures r.Admitted? <==> !phase.Canceled() && RemainingTotalCapacity(old(Abs())) >= 1
      ensures r.ErrExecutorQueueFull? <==>
              (&& !phase.Canceled() && 0 <= concurrency && 0 <= queueCapacity
               && concurrency - running + queueCapacity <= |queue| + |scheduledQueue|)
      ensures r.Admitted? ==> tasks.Keys == old(tasks).Keys + {t}
      ensures r.Admitted? ==> tasks[t].kind == kind && tasks[t].delay == delay
      ensures r.Admitted? ==> tasks[t].nextRun == now + initialDelay && tasks[t].status.New?
      ensures r.Admitted? ==> !tasks[t].canceled && tasks[t].err.NoError? && tasks[t].done.Unset?
      ensures forall x :: x in old(tasks) ==> x in tasks && tasks[x] == old(tasks)[x]
      ensures Abs() == if !r.Admitted? then old(Abs())
                       else old(Abs()).(tasks := old(tasks)[t := NewTask(kind, initialDelay, delay, now)])
    {
      if phase.Canceled() {
        return ErrExecutorCanceled;
      }
      var remaining := if concurrency < 0 || queueCapacity < 0 then MAX_INT32
                       else concurrency - running + queueCapacity - (|queue| + |scheduledQueue|);
      if remaining < 1 {
        return ErrExecutorQueueFull;
      }
      tasks := tasks[t := NewTask(kind, initialDelay, delay, now)];
      r := Admitted;
    }

    method ConfigureSchedulerTimer()
      modifies this`schedulerTimer, this`schedulerTimerTarget
      ensures Abs() == Configure(old(Abs()))
    {
      if |scheduledQueue| == 0 {
        return;
      }
      var nextRun := Task(scheduledQueue[0]).nextRun;
      if nextRun == schedulerTimerTarget {
        return;
      }
      schedulerTimerTarget := nextRun;
      schedulerTimer := Some(nextRun);
    }

    /** `PriorityQueue.Push`, on the sorted list that the queue stands for. */
    method PushScheduled(t: nat)
      modifies this`scheduledQueue
      ensures scheduledQueue == Insert(old(Abs()), old(scheduledQueue), t)
    {
      var i := 0;
      while i < |scheduledQueue| && Task(scheduledQueue[i]).nextRun <= Task(t).nextRun
        invariant i <= |scheduledQueue|
        invariant forall k :: 0 <= k < i ==> Abs().Deadline(scheduledQueue[k]) <= Abs().Deadline(t)
      {
        i := i + 1;
      }
      InsertAt(Abs(), scheduledQueue, t, i);
      scheduledQueue := scheduledQueue[..i] + [t] + scheduledQueue[i..];
    }

    method Delay(t: nat)
      modifies this`scheduledQueue, this`log, this`schedulerTimer, this`schedulerTimerTarget
      ensures Abs() == PushDelayed(old(Abs()), t)
    {
      PushScheduled(t);
      log := log + [Scheduled(t, Task(t).nextRun)];
      ConfigureSchedulerTimer();
    }

    method ExecuteTask(t: nat)
      modifies this`tasks, this`running, this`live, this`log
      ensures Abs() == L.ExecuteTask(old(Abs()), t)
    {
      var r := SetRunning(Task(t), now);
      if !r.1 {
        return;
      }
      tasks, running, live := tasks[t := r.0], running + 1, live + multiset{t};
      log := log + [Started(t, now, if t in stamp then stamp[t] else 0)];
    }

    method TryExecuteTask(t: nat)
      modifies this
      ensures Abs() == L.TryExecuteTask(old(Abs()), t)
    {
      if !Task(t).Runnable() {
        return;
      }
      if Task(t).Delay(now) > 0 {
        sQueueElement := sQueueElement + {t};
        Delay(t);
        return;
      }
      if !CanStartNewTask() {
        queue := queue + [t];
        queueElement := queueElement + {t};
      } else {
        ExecuteTask(t);
      }
    }

    method Arrive(t: nat)
      modifies this
      ensures Abs() == L.Arrive(old(Abs()), t)
    {
      stamp := stamp[t := arrivals];
      arrivals := arrivals + 1;
      TryExecuteTask(t);
    }

    method TryRunNextTask() returns (shouldContinue: bool)
      modifies this
      ensures Abs() == TryRunNext(old(Abs()))
      ensures old(!exited) ==> shouldContinue == !exited
    {
      hide L.TryExecuteTask;
      if phase.Terminated? {
        return !exited;
      }
      if |queue| + |scheduledQueue| == 0 {
        if phase.Canceled() {
          if running > 0 {
            if phase.ShuttingDown? { phase := WaitingTermination; }
          } else {
            phase := Terminated;
            terminationCloses := terminationCloses + 1;
            exited := true;
          }
        }
        return !exited;
      } else if |queue| == 0 || !CanStartNewTask() {
        return !exited;
      }
      var t := queue[0];
      queue := queue[1..];
      queueElement := queueElement - {t};
      TryExecuteTask(t);
      return !exited;
    }

    method TimerFired()
      modifies this
      ensures Abs() == OnTimer(old(Abs()))
    {
      schedulerTimer := None;
      if |scheduledQueue| == 0 {
        return;
      }
      if Task(scheduledQueue[0]).nextRun <= now {
        PopDue();
      }
      ConfigureSchedulerTimer();
    }

    /** The head of the heap is due: it is taken out and tried. */
    method PopDue()
      requires |scheduledQueue| > 0
      modifies this
      ensures var l := old(Abs()); var t := l.delayed[0];
        Abs() == L.Arrive(l.(delayed := l.delayed[1..], sElem := l.sElem - {t}), t)
    {
      var t := scheduledQueue[0];
      scheduledQueue := scheduledQueue[1..];
      sQueueElement := sQueueElement - {t};
      Arrive(t);
    }

    method TaskCompleted(t: nat)
      modifies this
      ensures Abs() == OnCompleted(old(Abs()), t)
    {
      log := log + [Ended(t, now)];
      SettleTask(t);
      var _ := TryRunNextTask();
    }

    /** The completion event, up to the try of the next task. */
    method SettleTask(t: nat)
      modifies this
      ensures Abs() == Settle(old(Abs()), t)
    {
      running := running - 1;
      if !Task(t).status.Done? {
        if Task(t).canceled {
          tasks := tasks[t := SetDone(Task(t), ContextCanceled).0];
        } else if Task(t).Periodic() {
          Rearm(t);
        }
      }
    }

    /** The periodic branch of the completion event. */
    method Rearm(t: nat)
      modifies this
      ensures Abs() == Requeue(old(Abs()), t)
    {
      hide PushDelayed;
      match ConfigureNextRun(Task(t), now) {
        case Panic =>
          panicked := true;
        case Next(task) =>
          tasks := tasks[t := task];
          if task.Delay(now) > 0 {
            Delay(t);
          } else {
            stamp := stamp[t := arrivals];
            arrivals := arrivals + 1;
            queue := queue + [t];
          }
      }
    }

    method TaskCanceled(t: nat)
      modifies this
      ensures Abs() == OnCanceled(old(Abs()), t)
    {
      if t in tasks && tasks[t].err.NoError? {
        tasks := tasks[t := tasks[t].(err := ContextCanceled)];
      }
      assert t in tasks ==> tasks == old(tasks)[t := NoteCanceled(old(tasks)[t])];
      if |queue| == 0 {
        return;
      }
      if t in queueElement && t !in queue {
        queueBroken := true;
        return;
      }
      Dequeue(t);
    }

    method Dequeue(t: nat)
      modifies this`queue, this`queueElement, this`scheduledQueue
      ensures Abs() == Unqueue(old(Abs()), t)
    {
      if t in queueElement {
        queue := Remove(queue, t);
        queueElement := queueElement - {t};
      }
      if t in sQueueElement { scheduledQueue := Remove(scheduledQueue, t); }
    }

    method UpdateConcurrency(n: int)
      requires !phase.Terminated?
      modifies this
      ensures Abs() == OnUpdateConcurrency(old(Abs()), n)
      ensures queue != [] ==> 0 <= concurrency <= running
    {
      concurrency := n;
      while CanStartNewTask() && |queue| > 0
        invariant !phase.Terminated?
        invariant Drain(Abs()) == OnUpdateConcurrency(old(Abs()), n)
        decreases |queue|
      {
        PopShrinks(Abs());
        var _ := TryRunNextTask();
      }
    }

    method UpdateQueueCapacity(n: int)
      modifies this`queueCapacity
      ensures Abs() == OnUpdateCapacity(old(Abs()), n)
      ensures queueCapacity == n
    {
      queueCapacity := n;
    }

    method CancelRequested()
      modifies this
      ensures Abs() == OnCancel(old(Abs()))
    {
      if phase.Canceled() {
        return;
      }
      phase := ShuttingDown;
      var _ := TryRunNextTask();
    }

    method CancelNowRequested() returns (futures: seq<nat>)
      modifies this
      ensures (Abs(), futures) == OnCancelNow(old(Abs()))
    {
      hide TryRunNext;
      if phase.Rank() >= 2 {
        return [];
      }
      futures := [];
      var i := 0;
      while i < |queue|
        invariant i <= |queue| && futures == queue[..i] && Abs() == old(Abs())
      {
        futures := futures + [queue[i]];
        i := i + 1;
      }
      queue := [];
      ghost var d := scheduledQueue;
      while |scheduledQueue| > 0
        invariant futures + scheduledQueue == old(queue) + d
        invariant Abs() == old(Abs()).(ready := [], delayed := scheduledQueue)
      {
        futures := futures + [scheduledQueue[0]];
        scheduledQueue := scheduledQueue[1..];
      }
      assert futures == old(queue) + d;
      if phase.ShuttingDown? { phase := WaitingTermination; }
      var _ := TryRunNextTask();
    }
  }

  /** Where the sorted insertion puts a task. */
  lemma {:induction false} InsertAt(l: Loop, d: seq<nat>, t: nat, i: nat)
    requires i <= |d| && forall k :: 0 <= k < i ==> l.Deadline(d[k]) <= l.Deadline(t)
    requires i < |d| ==> l.Deadline(t) < l.Deadline(d[i])
    ensures Insert(l, d, t) == d[..i] + [t] + d[i..]
  {
    if i > 0 {
      InsertAt(l, d[1..], t, i - 1);
      assert d[..i] == [d[0]] + d[1..][..i - 1];
    }
  }
}
