/**
 The task status machine of the executor (executors/task.go), first as functions on a task
 value, one per operation, and then as an object whose methods update its fields in place.
 Every operation here is one atomic step; `TaskRaces` takes the operations apart again.
 */
module Tasks {

  datatype Status = New | Running | Cancelling | Done

  datatype Kind = Once | FixedDelay | FixedRate

  datatype Error = NoError | ContextCanceled | Failed(code: int)

  /** The `done` value: unset, a channel of the task's own with the number of times it was
      closed (Go panics on the second), or the package-wide channel that is closed for ever. */
  datatype Signal = Unset | Own(closes: nat) | SharedClosed

  datatype Task = Task(kind: Kind, status: Status, nextRun: int, delay: int,
                       canceled: bool, err: Error, done: Signal)
  {
    predicate Periodic() { kind.FixedRate? || kind.FixedDelay? }

    predicate Runnable() { status.New? }

    /** `time.Until(nextRun)` at time `now`. */
    function Delay(now: int): int { nextRun - now }
  }

  function NewTask(kind: Kind, initialDelay: int, delay: int, now: int): Task {
    Task(kind, New, now + initialDelay, delay, false, NoError, Unset)
  }

  function CloseSignal(d: Signal): Signal {
    match d
    case Own(n) => Own(n + 1)
    case _ => d
  }

  predicate IsClosed(d: Signal) { d.SharedClosed? || (d.Own? && d.closes > 0) }

  function SetRunning(t: Task, now: int): (Task, bool) {
    if !t.Runnable() || t.Delay(now) > 0 then (t, false) else (t.(status := Running), true)
  }

  function Cancel(t: Task): (Task, bool) {
    match t.status
    case New =>
      (t.(status := Done, canceled := true, err := ContextCanceled, done := CloseSignal(t.done)), true)
    case Running => (t.(status := Cancelling, canceled := true), true)
    case _ => (t, false)
  }

  function SetDone(t: Task, err: Error): (Task, bool) {
    if t.status.Done? then (t, false)
    else (t.(status := Done, err := err,
             done := if t.done.Unset? then SharedClosed else CloseSignal(t.done)), true)
  }

  /** The task after `Await`; the channel handed out is its `done`. */
  function Await(t: Task): Task {
    if !t.done.Unset? then t
    else t.(done := if t.status.Done? then SharedClosed else Own(0))
  }

  datatype Rearmed = Panic | Next(task: Task)

  /** `configureNextRun`: a panic unless the task is periodic and Running. */
  function ConfigureNextRun(t: Task, now: int): Rearmed {
    if !t.Periodic() || !t.status.Running? then Panic
    else Next(t.(status := New,
                 nextRun := (if t.kind.FixedDelay? then now else t.nextRun) + t.delay))
  }

  /** What the loop does with the error of a task whose cancel event it received. */
  function NoteCanceled(t: Task): Task {
    if t.err.NoError? then t.(err := ContextCanceled) else t
  }

  /** Channel and flag agree with the status. */
  ghost predicate Consistent(t: Task) {
    && (t.done.Own? ==> t.done.closes == if t.status.Done? then 1 else 0)
    && (t.done.SharedClosed? ==> t.status.Done?)
    && (t.status.Cancelling? ==> t.canceled)
    && (t.canceled ==> t.status.Cancelling? || t.status.Done?)
  }

  // ---------- whole lives of a task ----------

  datatype Op =
    | OpRun(now: int) | OpCancel | OpDone(err: Error) | OpAwait | OpRearm(now: int) | OpNote

  function Perform(t: Task, op: Op): Task {
    match op
    case OpRun(now) => SetRunning(t, now).0
    case OpCancel => Cancel(t).0
    case OpDone(err) => SetDone(t, err).0
    case OpAwait => Await(t)
    case OpRearm(now) => var r := ConfigureNextRun(t, now); if r.Next? then r.task else t
    case OpNote => NoteCanceled(t)
  }

  function PerformAll(t: Task, ops: seq<Op>): Task
    decreases |ops|
  {
    if ops == [] then t else PerformAll(Perform(t, ops[0]), ops[1..])
  }

  /** Over every life of a task: Done is absorbing, Cancelling leads only to Done, a channel once
      handed out stays the one handed out, and it is closed once, exactly when the task is Done. */
  lemma {:induction false} LifeOfTask(t: Task, ops: seq<Op>)
    requires Consistent(t)
    ensures var u := PerformAll(t, ops);
      && Consistent(u)
      && (t.status.Done? ==> u.status.Done?)
      && (t.status.Cancelling? ==> u.status.Cancelling? || u.status.Done?)
      && (t.done.Own? ==> u.done.Own?)
      && (t.done.SharedClosed? ==> u.done.SharedClosed?)
      && !Await(u).done.Unset?
      && (IsClosed(Await(u).done) <==> u.status.Done?)
      && (Await(u).done.Own? ==> Await(u).done.closes <= 1)
    decreases |ops|
  {
    if ops != [] {
      LifeOfTask(Perform(t, ops[0]), ops[1..]);
    }
  }

  function Wins(t: Task, op: Op): bool {
    match op
    case OpCancel => t.status.New?
    case OpDone(_) => !t.status.Done?
    case _ => false
  }

  function WinCount(t: Task, ops: seq<Op>): nat
    decreases |ops|
  {
    if ops == [] then 0
    else (if Wins(t, ops[0]) then 1 else 0) + WinCount(Perform(t, ops[0]), ops[1..])
  }

  /** Completion is won exactly once, by the operation that took the task to Done. */
  lemma {:induction false} CompletionWonOnce(t: Task, ops: seq<Op>)
    ensures WinCount(t, ops) ==
      if !t.status.Done? && PerformAll(t, ops).status.Done? then 1 else 0
    decreases |ops|
  {
    if ops != [] {
      CompletionWonOnce(Perform(t, ops[0]), ops[1..]);
      DoneStays(Perform(t, ops[0]), ops[1..]);
    }
  }

  lemma {:induction false} DoneStays(t: Task, ops: seq<Op>)
    ensures t.status.Done? ==> PerformAll(t, ops).status.Done?
    decreases |ops|
  {
    if ops != [] {
      DoneStays(Perform(t, ops[0]), ops[1..]);
    }
  }

  /** The error reported for a Done task is not final: the loop overwrites a missing error when
      the cancel event of a task that finished well arrives late. It changes exactly then. */
  lemma ErrorMayChangeAfterDone(t: Task, op: Op)
    requires Consistent(t) && t.status.Done?
    ensures Perform(t, op).err != t.err <==> op.OpNote? && t.err.NoError?
    ensures Perform(t, op).err != t.err ==> Perform(t, op).err.ContextCanceled?
  {
    match op
    case OpCancel =>
    case _ =>
  }
}

/** The same operations as methods that update the fields of one task object. */
module TaskObjects {
  import opened T = Tasks

  class TaskObject {
    const kind: Kind
    const delay: int
    var status: Status
    var nextRun: int
    var canceled: bool
    var err: Error
    var done: Signal

    ghost function Abs(): Task
      reads this
    {
      Task(kind, status, nextRun, delay, canceled, err, done)
    }

    constructor (kind: Kind, initialDelay: int, delay: int, now: int)
      ensures Abs() == NewTask(kind, initialDelay, delay, now) && Consistent(Abs())
      ensures this.kind == kind && this.delay == delay && status.New? && nextRun == now + initialDelay
      ensures !canceled && err.NoError? && done.Unset?
    {
      this.kind, this.delay := kind, delay;
      status, nextRun := New, now + initialDelay;
      canceled, err, done := false, NoError, Unset;
    }

    method CompareAndSwap(from: Status, to: Status) returns (ok: bool)
      modifies this`status
      ensures ok == (old(status) == from)
      ensures status == if ok then to else old(status)
    {
      ok := status == from;
      if ok { status := to; }
    }

    method SetRunning(now: int) returns (ok: bool)
      requires Consistent(Abs())
      modifies this`status
      ensures (Abs(), ok) == T.SetRunning(old(Abs()), now) && Consistent(Abs())
      ensures ok <==> old(status).New? && nextRun <= now
      ensures status == if ok then Running else old(status)
    {
      if status != New || nextRun - now > 0 {
        return false;
      }
      ok := CompareAndSwap(New, Running);
    }

    method Cancel() returns (ok: bool)
      requires Consistent(Abs())
      modifies this
      ensures (Abs(), ok) == T.Cancel(old(Abs())) && Consistent(Abs())
      ensures ok <==> old(status).New? || old(status).Running?
      ensures status == if old(status).New? then Done else if old(status).Running? then Cancelling else old(status)
      ensures nextRun == old(nextRun) && canceled == (ok || old(canceled))
      ensures err == if old(status).New? then ContextCanceled else old(err)
      ensures done == if old(status).New? && old(done).Own? then Own(old(done).closes + 1) else old(done)
    {
      if status.Cancelling? || status.Done? {
        return false;
      }
      ok := CompareAndSwap(New, Done);
      if ok {
        err := ContextCanceled;
        canceled := true;
        if done.Own? { done := Own(done.closes + 1); }
        return;
      }
      ok := CompareAndSwap(Running, Cancelling);
      if ok { canceled := true; }
    }

    method Await() returns (channel: Signal)
      requires Consistent(Abs())
      modifies this`done
      ensures Abs() == T.Await(old(Abs())) && Consistent(Abs())
      ensures channel == done && (IsClosed(channel) <==> status.Done?)
      ensures done == if !old(done).Unset? then old(done) else if status.Done? then SharedClosed else Own(0)
    {
      if done.Unset? {
        done := if status.Done? then SharedClosed else Own(0);
      }
      channel := done;
    }

    method SetDone(err: Error) returns (ok: bool)
      requires Consistent(Abs())
      modifies this
      ensures (Abs(), ok) == T.SetDone(old(Abs()), err) && Consistent(Abs())
      ensures ok <==> !old(status).Done?
      ensures status.Done? && nextRun == old(nextRun) && canceled == old(canceled)
      ensures this.err == if ok then err else old(this.err)
      ensures done == if !ok then old(done) else match old(done)
        case Own(n) => Own(n + 1)
        case _ => SharedClosed
    {
      if status.Done? {
        return false;
      }
      ok := CompareAndSwap(status, Done);
      this.err := err;
      if done.Unset? {
        done := SharedClosed;
      } else if done.Own? {
        done := Own(done.closes + 1);
      }
    }

    method ConfigureNextRun(now: int) returns (panicked: bool)
      requires Consistent(Abs())
      modifies this
      ensures var r := T.ConfigureNextRun(old(Abs()), now);
        panicked == r.Panic? && Abs() == (if r.Next? then r.task else old(Abs()))
      ensures Consistent(Abs())
      ensures panicked <==> kind.Once? || !old(status).Running?
      ensures panicked ==> status == old(status) && nextRun == old(nextRun)
      ensures !panicked ==> status.New? && nextRun == if kind.FixedRate? then old(nextRun) + delay else now + delay
      ensures canceled == old(canceled) && err == old(err) && done == old(done)
    {
      if !kind.FixedRate? && !kind.FixedDelay? {
        return true;
      }
      if status.Cancelling? || status.Done? {
        return true;
      }
      var ok := CompareAndSwap(Running, New);
      if !ok {
        return true;
      }
      match kind {
        case FixedDelay => nextRun := now + delay;
        case FixedRate => nextRun := nextRun + delay;
      }
      panicked := false;
    }
  }
}
