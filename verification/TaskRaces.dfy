/**
 The task operations taken apart: any number of goroutines run `Cancel`, `setDone`, `Await`,
 `setRunning` and `configureNextRun` on one task, one load, CAS, store or close at a time
 (executors/task.go).
 */
module TaskRaces {
  import opened Options
  import opened Tasks

  /** Where a goroutine stands. Channel 0 is the shared closed channel. */
  datatype Pc =
    | Idle
    | CancelCheck | CancelNew | CancelRunning | CancelLoad | CancelClose(c: nat)
    | DoneRead | DoneCas(seen: Status) | DoneLoad | DoneCasChan | DoneLock | DoneReload
    | DoneClose(c: nat, locked: bool)
    | AwaitLoad | AwaitLock | AwaitReload | AwaitStatus | AwaitStore(c: nat)
    | RunCas | RearmCas
  {
    /** The goroutine has won the CAS to Done and has not finished with the channel. */
    predicate Finishing() {
      CancelLoad? || CancelClose? || DoneLoad? || DoneCasChan? || DoneLock? || DoneReload? || DoneClose?
    }
    /** The goroutine holds the mutex and will store a channel. */
    predicate Publishing() { AwaitStatus? || AwaitStore? }
    predicate Holds() { AwaitReload? || Publishing() || DoneReload? || (DoneClose? && locked) }
    predicate Entry() { CancelCheck? || DoneRead? || AwaitLoad? || RunCas? || RearmCas? }
  }

  /** `winner` and `late` are history: who took the task to Done, and whether `Await` published a
      channel of its own after the winner had finished with the channel. */
  datatype State = State(
    status: Status, done: Option<nat>, closed: multiset<nat>, nextChan: nat,
    mutex: Option<nat>, pcs: map<nat, Pc>, winner: Option<nat>, late: bool)
  {
    function At(g: nat): Pc { if g in pcs then pcs[g] else Idle }
    function Go(g: nat, pc: Pc): State { this.(pcs := pcs[g := pc]) }
  }

  datatype Step = Call(g: nat, pc: Pc) | Advance(g: nat)

  predicate Enabled(s: State, step: Step) {
    match step
    case Call(g, pc) => s.At(g).Idle? && pc.Entry()
    case Advance(g) =>
      !s.At(g).Idle? && (s.At(g).AwaitLock? || s.At(g).DoneLock? ==> s.mutex.None?)
  }

  function Next(s: State, step: Step): State
    requires Enabled(s, step)
  {
    match step
    case Call(g, pc) => s.Go(g, pc)
    case Advance(g) =>
      match s.At(g)
      case CancelCheck => s.Go(g, if s.status.Cancelling? || s.status.Done? then Idle else CancelNew)
      case CancelNew =>
        if s.status.New? then s.Go(g, CancelLoad).(status := Done, winner := Some(g))
        else s.Go(g, CancelRunning)
      case CancelRunning =>
        if s.status.Running? then s.Go(g, Idle).(status := Cancelling) else s.Go(g, Idle)
      case CancelLoad => s.Go(g, if s.done.Some? && s.done.value != 0 then CancelClose(s.done.value) else Idle)
      case CancelClose(c) => s.Go(g, Idle).(closed := s.closed + multiset{c})
      case DoneRead => s.Go(g, if s.status.Done? then Idle else DoneCas(s.status))
      case DoneCas(seen) =>
        if s.status == seen then s.Go(g, DoneLoad).(status := Done, winner := Some(g)) else s.Go(g, Idle)
      case DoneLoad =>
        if s.done.None? then s.Go(g, DoneCasChan)
        else s.Go(g, if s.done.value != 0 then DoneClose(s.done.value, false) else Idle)
      case DoneCasChan => if s.done.None? then s.Go(g, Idle).(done := Some(0)) else s.Go(g, DoneLock)
      case DoneLock => s.Go(g, DoneReload).(mutex := Some(g))
      case DoneReload =>
        if s.done.Some? && s.done.value != 0 then s.Go(g, DoneClose(s.done.value, true))
        else s.Go(g, Idle).(mutex := None)
      case DoneClose(c, locked) =>
        s.Go(g, Idle).(closed := s.closed + multiset{c}, mutex := if locked then None else s.mutex)
      case AwaitLoad => s.Go(g, if s.done.Some? then Idle else AwaitLock)
      case AwaitLock => s.Go(g, AwaitReload).(mutex := Some(g))
      case AwaitReload => if s.done.Some? then s.Go(g, Idle).(mutex := None) else s.Go(g, AwaitStatus)
      case AwaitStatus =>
        if s.status.Done? then s.Go(g, AwaitStore(0)) else s.Go(g, AwaitStore(s.nextChan)).(nextChan := s.nextChan + 1)
      case AwaitStore(c) =>
        s.Go(g, Idle).(done := Some(c), mutex := None,
          late := s.late || (c != 0 && s.winner.Some? && !s.At(s.winner.value).Finishing()))
      case RunCas => if s.status.New? then s.Go(g, Idle).(status := Running) else s.Go(g, Idle)
      case RearmCas => if s.status.Running? then s.Go(g, Idle).(status := New) else s.Go(g, Idle)
      case Idle => s
  }

  predicate Init(s: State) {
    && s.status.New? && s.done.None? && s.closed == multiset{} && s.nextChan == 1
    && s.mutex.None? && s.pcs == map[] && s.winner.None? && !s.late
  }

  ghost predicate IsRun(states: seq<State>, steps: seq<Step>) {
    && |states| == |steps| + 1 && Init(states[0])
    && forall i {:trigger steps[i]} :: 0 <= i < |steps| ==> IsStep(states[i], steps[i], states[i + 1])
  }

  ghost predicate IsStep(s: State, step: Step, s': State) {
    Enabled(s, step) && s' == Next(s, step)
  }

  /** What one goroutine's position says about the shared state. */
  ghost predicate PcOk(s: State, g: nat) {
    var pc := s.At(g);
    && (pc.Finishing() ==> s.winner == Some(g))
    && (pc.Holds() ==> s.mutex == Some(g))
    && (pc.DoneCas? ==> !pc.seen.Done?)
    && (pc.CancelClose? || pc.DoneClose? ==> s.done == Some(pc.c) && pc.c != 0)
    && (pc.DoneLock? || pc.DoneReload? ==> s.done.Some?)
    && (pc.Publishing() ==> s.done.None? || (s.done == Some(0) && s.winner.Some?
                              && !s.At(s.winner.value).Finishing()))
    && (pc.AwaitStore? && pc.c != 0 ==> pc.c !in s.closed)
    && (pc.AwaitStore? ==> pc.c < s.nextChan && (pc.c == 0 ==> s.status.Done?))
  }

  ghost predicate Inv(s: State) {
    && (forall g: nat :: PcOk(s, g))
    && (s.status.Done? <==> s.winner.Some?)
    && |s.closed| <= 1 && 1 <= s.nextChan
    && (forall c :: c in s.closed ==> 0 < c < s.nextChan)
    && (s.winner.None? || s.At(s.winner.value).Finishing() ==> s.closed == multiset{} && !s.late)
    && (s.done.Some? ==> s.done.value < s.nextChan)
    && (s.done.None? ==> s.closed == multiset{} && !s.late)
    && (s.done == Some(0) ==> s.status.Done? && s.closed == multiset{} && !s.late)
    && (s.winner.Some? && !s.At(s.winner.value).Finishing() && s.done.Some? && s.done.value != 0 ==>
          (s.done.value in s.closed <==> !s.late))
  }

  lemma CallKeepsInv(s: State, g: nat, pc: Pc)
    requires Inv(s) && Enabled(s, Call(g, pc))
    ensures Inv(s.Go(g, pc))
  {
    var s' := s.Go(g, pc);
    forall h: nat ensures PcOk(s', h) {
      assert PcOk(s, h);
      if s.winner.Some? { assert PcOk(s, s.winner.value); }
    }
  }

  predicate IsCancel(pc: Pc) {
    pc.CancelCheck? || pc.CancelNew? || pc.CancelRunning?
  }

  lemma CancelKeepsPcs(s: State, g: nat)
    requires Inv(s) && IsCancel(s.At(g))
    ensures forall h: nat :: PcOk(Next(s, Advance(g)), h)
  {
    var s' := Next(s, Advance(g));
    assert PcOk(s, g);
    if s.winner.Some? { assert PcOk(s, s.winner.value); }
    forall h: nat ensures PcOk(s', h) {
      assert PcOk(s, h);
    }
  }

  lemma CancelKeepsInv(s: State, g: nat)
    requires Inv(s) && IsCancel(s.At(g))
    ensures Inv(Next(s, Advance(g)))
  {
    CancelKeepsPcs(s, g);
    assert PcOk(s, g);
    if s.winner.Some? { assert PcOk(s, s.winner.value); }
  }

  lemma FinishKeepsInv(s: State, g: nat)
    requires Inv(s) && s.At(g).Finishing() && Enabled(s, Advance(g))
    ensures Inv(Next(s, Advance(g)))
  {
    var s' := Next(s, Advance(g));
    assert PcOk(s, g);
    forall h: nat ensures PcOk(s', h) {
      assert PcOk(s, h);
    }
  }

  predicate IsAwait(pc: Pc) { pc.AwaitLoad? || pc.AwaitLock? || pc.AwaitReload? || pc.AwaitStatus? }

  lemma AwaitKeepsPcs(s: State, g: nat)
    requires Inv(s) && Enabled(s, Advance(g)) && IsAwait(s.At(g))
    ensures forall h: nat :: PcOk(Next(s, Advance(g)), h)
  {
    var s' := Next(s, Advance(g));
    assert PcOk(s, g);
    if s.winner.Some? { assert PcOk(s, s.winner.value); }
    forall h: nat ensures PcOk(s', h) {
      assert PcOk(s, h);
    }
  }

  lemma AwaitKeepsInv(s: State, g: nat)
    requires Inv(s) && Enabled(s, Advance(g)) && IsAwait(s.At(g))
    ensures Inv(Next(s, Advance(g)))
  {
    AwaitKeepsPcs(s, g);
    assert PcOk(s, g);
    if s.winner.Some? { assert PcOk(s, s.winner.value); }
  }

  lemma StoreKeepsPcs(s: State, g: nat)
    requires Inv(s) && s.At(g).AwaitStore?
    ensures forall h: nat :: PcOk(Next(s, Advance(g)), h)
  {
    var s' := Next(s, Advance(g));
    assert PcOk(s, g);
    if s.winner.Some? { assert PcOk(s, s.winner.value); }
    forall h: nat ensures PcOk(s', h) {
      assert PcOk(s, h);
    }
  }

  lemma StoreKeepsInv(s: State, g: nat)
    requires Inv(s) && s.At(g).AwaitStore?
    ensures Inv(Next(s, Advance(g)))
  {
    assert PcOk(s, g);
    if s.winner.Some? { assert PcOk(s, s.winner.value); }
    StoreKeepsPcs(s, g);
  }

  /** `setRunning` and `configureNextRun`: one CAS each. */
  lemma StatusCasKeepsInv(s: State, g: nat)
    requires Inv(s) && (s.At(g).RunCas? || s.At(g).RearmCas?)
    ensures Inv(Next(s, Advance(g)))
  {
    var s' := Next(s, Advance(g));
    assert PcOk(s, g);
    if s.winner.Some? { assert PcOk(s, s.winner.value); }
    forall h: nat ensures PcOk(s', h) {
      assert PcOk(s, h);
    }
  }

  lemma DoneCasKeepsPcs(s: State, g: nat)
    requires Inv(s) && (s.At(g).DoneRead? || s.At(g).DoneCas?)
    ensures forall h: nat :: PcOk(Next(s, Advance(g)), h)
  {
    var s' := Next(s, Advance(g));
    assert PcOk(s, g);
    if s.winner.Some? { assert PcOk(s, s.winner.value); }
    forall h: nat ensures PcOk(s', h) {
      assert PcOk(s, h);
    }
  }

  lemma DoneCasKeepsInv(s: State, g: nat)
    requires Inv(s) && (s.At(g).DoneRead? || s.At(g).DoneCas?)
    ensures Inv(Next(s, Advance(g)))
  {
    DoneCasKeepsPcs(s, g);
    assert PcOk(s, g);
    if s.winner.Some? { assert PcOk(s, s.winner.value); }
  }

  lemma StepKeepsInv(s: State, step: Step)
    requires Inv(s) && Enabled(s, step)
    ensures Inv(Next(s, step))
  {
    var g := step.g;
    if step.Call? { CallKeepsInv(s, g, step.pc); }
    else if IsCancel(s.At(g)) { CancelKeepsInv(s, g); }
    else if s.At(g).Finishing() { FinishKeepsInv(s, g); }
    else if s.At(g).DoneRead? || s.At(g).DoneCas? { DoneCasKeepsInv(s, g); }
    else if s.At(g).RunCas? || s.At(g).RearmCas? { StatusCasKeepsInv(s, g); }
    else if s.At(g).AwaitStore? { StoreKeepsInv(s, g); }
    else { AwaitKeepsInv(s, g); }
  }

  lemma {:induction false} RunInv(states: seq<State>, steps: seq<Step>, i: nat)
    requires IsRun(states, steps) && i < |states|
    ensures Inv(states[i])
  {
    if i > 0 {
      RunInv(states, steps, i - 1);
      var k := i - 1;
      assert IsStep(states[k], steps[k], states[i]);
      StepKeepsInv(states[k], steps[k]);
    } else {
      forall g: nat ensures PcOk(states[0], g) {}
    }
  }

  /** Under any interleaving: the channels of the task are closed at most once in all, so no close
      ever panics; and a step never leaves Done, nor Cancelling except for Done. */
  lemma ClosedAtMostOnce(states: seq<State>, steps: seq<Step>, i: nat)
    requires IsRun(states, steps) && i < |states|
    ensures |states[i].closed| <= 1
    ensures i < |steps| && states[i].status.Done? ==> states[i + 1].status.Done?
    ensures i < |steps| && states[i].status.Cancelling? ==>
      states[i + 1].status.Cancelling? || states[i + 1].status.Done?
  {
    RunInv(states, steps, i);
    if i < |steps| {
      var s, step := states[i], steps[i];
      assert PcOk(s, step.g) && IsStep(s, step, states[i + 1]);
    }
  }

  /** Exactly when the wakeup is lost: once the goroutine that took the task to Done has finished,
      the published channel is closed unless `Await` stored it after that. */
  lemma PublishedClosedExactly(states: seq<State>, steps: seq<Step>, i: nat)
    requires IsRun(states, steps) && i < |states|
    requires var s := states[i];
      s.status.Done? && s.winner.Some? && !s.At(s.winner.value).Finishing() && s.done.Some?
    ensures var s := states[i]; s.done.value == 0 || s.done.value in s.closed <==> !s.late
  {
    RunInv(states, steps, i);
  }

  /** The losing interleaving: `Await` has read the status of a New task and not yet stored its
      channel; from there a whole `Cancel` runs, then the store. The task is Done, and the channel
      that was handed out is open for ever. */
  lemma AwaitLosesCancel(s: State, a: nat, b: nat)
    returns (s1: State, s2: State, s3: State, s4: State, s': State)
    requires Inv(s) && a != b && s.At(a).AwaitStore? && s.At(a).c != 0 && s.At(b).Idle?
    requires s.status.New? && s.done.None?
    ensures IsStep(s, Call(b, CancelCheck), s1) && IsStep(s1, Advance(b), s2)
    ensures IsStep(s2, Advance(b), s3) && IsStep(s3, Advance(b), s4) && IsStep(s4, Advance(a), s')
    ensures s'.At(a).Idle? && s'.At(b).Idle? && s'.status.Done?
    ensures s'.done == Some(s.At(a).c) && s'.done.value !in s'.closed
  {
    assert PcOk(s, a);
    s1 := Next(s, Call(b, CancelCheck));
    s2 := Next(s1, Advance(b));
    s3 := Next(s2, Advance(b));
    s4 := Next(s3, Advance(b));
    s' := Next(s4, Advance(a));
  }

  lemma Extend(states: seq<State>, steps: seq<Step>, step: Step) returns (states': seq<State>, steps': seq<Step>)
    requires IsRun(states, steps) && Enabled(states[|steps|], step)
    ensures steps' == steps + [step] && states' == states + [Next(states[|steps|], step)] && IsRun(states', steps')
  {
    states', steps' := states + [Next(states[|steps|], step)], steps + [step];
    forall i {:trigger steps'[i]} | 0 <= i < |steps'| ensures IsStep(states'[i], steps'[i], states'[i + 1]) {
      if i < |steps| { assert IsStep(states[i], steps[i], states[i + 1]); }
    }
  }

  /** `Await` of a fresh task comes as far as its store. */
  lemma AwaitBegins(start: State) returns (states: seq<State>, steps: seq<Step>)
    requires Init(start)
    ensures IsRun(states, steps) && states[0] == start
    ensures steps == [Call(0, AwaitLoad), Advance(0), Advance(0), Advance(0), Advance(0)]
    ensures states[5] == start.(pcs := map[0 := AwaitStore(1)], nextChan := 2, mutex := Some(0))
  {
    states, steps := [start], [];
    assert IsRun(states, steps);
    hide IsRun;
    states, steps := Extend(states, steps, Call(0, AwaitLoad));
    states, steps := Extend(states, steps, Advance(0));
    states, steps := Extend(states, steps, Advance(0));
    states, steps := Extend(states, steps, Advance(0));
    states, steps := Extend(states, steps, Advance(0));
  }

  /** The losing interleaving as a run: the channel that `Await` hands out is open in a Done task. */
  lemma AwaitLosesCancelRun(start: State) returns (states: seq<State>)
    requires Init(start)
    ensures IsRun(states, [Call(0, AwaitLoad), Advance(0), Advance(0), Advance(0), Advance(0),
                           Call(1, CancelCheck), Advance(1), Advance(1), Advance(1), Advance(0)])
    ensures states[0] == start && states[10].late && states[10].status.Done? && states[10].done == Some(1)
  {
    var steps;
    states, steps := AwaitBegins(start);
    hide IsRun;
    states, steps := Extend(states, steps, Call(1, CancelCheck));
    states, steps := Extend(states, steps, Advance(1));
    states, steps := Extend(states, steps, Advance(1));
    states, steps := Extend(states, steps, Advance(1));
    states, steps := Extend(states, steps, Advance(0));
    assert steps == [Call(0, AwaitLoad), Advance(0), Advance(0), Advance(0), Advance(0),
                     Call(1, CancelCheck), Advance(1), Advance(1), Advance(1), Advance(0)];
  }

  lemma LateStays(s: State, step: Step)
    requires Inv(s) && Enabled(s, step) && s.late
    ensures Next(s, step).late && Next(s, step).done == s.done
  {
    assert PcOk(s, step.g);
  }

  lemma LateOpen(s: State)
    requires Inv(s) && s.late
    ensures s.status.Done? && s.done.Some? && s.done.value !in s.closed
  {}

  lemma {:induction false} LateReached(states: seq<State>, steps: seq<Step>, i: nat, j: nat)
    requires IsRun(states, steps) && i <= j < |states| && states[i].late
    ensures states[j].late && states[j].done == states[i].done
    decreases j
  {
    if i < j {
      assert IsStep(states[j - 1], steps[j - 1], states[j]);
      hide IsRun, Inv, Next, Enabled, IsStep;
      RunInv(states, steps, j - 1);
      LateReached(states, steps, i, j - 1);
      LateStays(states[j - 1], steps[j - 1]);
    }
  }

  /** Such a channel stays published, and open, for ever. */
  lemma OpenForEver(states: seq<State>, steps: seq<Step>, i: nat, j: nat)
    requires IsRun(states, steps) && i <= j < |states| && states[i].late
    ensures states[j].status.Done? && states[j].done == states[i].done
    ensures states[j].done.Some? && states[j].done.value !in states[j].closed
  {
    hide Inv;
    RunInv(states, steps, j);
    LateReached(states, steps, i, j);
    LateOpen(states[j]);
  }

  // ---------- a goroutine that is not disturbed ----------

  /** At most `fuel` steps of goroutine `g`, as long as it has one. */
  function Finish(s: State, g: nat, fuel: nat): State
    decreases fuel
  {
    if fuel == 0 || !Enabled(s, Advance(g)) then s else Finish(Next(s, Advance(g)), g, fuel - 1)
  }

  /** A whole operation of a goroutine that nobody disturbs. */
  function Whole(s: State, g: nat, entry: Pc): State { Finish(s.Go(g, entry), g, 5) }

  lemma Onward(s: State, g: nat, fuel: nat) returns (s': State)
    requires fuel > 0
    ensures !Enabled(s, Advance(g)) ==> s' == s
    ensures Enabled(s, Advance(g)) ==> s' == Next(s, Advance(g))
    ensures Finish(s, g, fuel) == Finish(s', g, fuel - 1)
  {
    s' := if Enabled(s, Advance(g)) then Next(s, Advance(g)) else s;
    if s' == s && !Enabled(s, Advance(g)) && fuel > 1 { assert Finish(s, g, fuel - 1) == s; }
  }

  lemma Stop(s: State, g: nat)
    ensures Finish(s, g, 0) == s
  {}

  lemma Rests(s: State, g: nat, fuel: nat)
    requires s.At(g).Idle?
    ensures Finish(s, g, fuel) == s
  {}

  /** Undisturbed, the operations do what they do as one step. `Cancel`: */
  lemma CancelAlone(s: State, g: nat)
    requires s.mutex.None?
    ensures var s' := Whole(s, g, CancelCheck);
      && s'.At(g).Idle? && s'.mutex.None? && s'.done == s.done
      && s'.status == (if s.status.New? then Done else if s.status.Running? then Cancelling else s.status)
      && s'.closed == s.closed + (if s.status.New? && s.done.Some? && s.done.value != 0 then multiset{s.done.value}
                                  else multiset{})
  {
    hide Finish;
    var s1 := Onward(s.Go(g, CancelCheck), g, 5);
    if s.status.Cancelling? || s.status.Done? {
      Rests(s1, g, 4);
    } else {
      var s2 := Onward(s1, g, 4);
      var s3 := Onward(s2, g, 3);
      assert s.status.Running? ==> s3.At(g).Idle?;
      var s4 := Onward(s3, g, 2);
      Rests(s4, g, 1);
    }
  }

  /** The winner of an undisturbed `setDone` sees to the channel. */
  lemma DoneFinishes(s: State, g: nat)
    requires s.mutex.None? && s.At(g).DoneLoad?
    ensures var s' := Finish(s, g, 3);
      && s'.At(g).Idle? && s'.mutex.None? && s'.status == s.status
      && s'.done == (if s.done.None? then Some(0) else s.done)
      && s'.closed == s.closed + (if s.done.Some? && s.done.value != 0 then multiset{s.done.value} else multiset{})
  {
    hide Finish;
    var s1 := Onward(s, g, 3);
    var s2 := Onward(s1, g, 2);
    var s3 := Onward(s2, g, 1);
    Stop(s3, g);
  }

  /** `setDone`: */
  lemma DoneAlone(s: State, g: nat)
    requires s.mutex.None?
    ensures var s' := Whole(s, g, DoneRead);
      && s'.At(g).Idle? && s'.mutex.None? && s'.status.Done?
      && s'.done == (if !s.status.Done? && s.done.None? then Some(0) else s.done)
      && s'.closed == s.closed + (if !s.status.Done? && s.done.Some? && s.done.value != 0 then multiset{s.done.value}
                                  else multiset{})
  {
    hide Finish;
    var s1 := Onward(s.Go(g, DoneRead), g, 5);
    var s2 := Onward(s1, g, 4);
    if s.status.Done? {
      Rests(s2, g, 3);
    } else {
      DoneFinishes(s2, g);
    }
  }

  /** `Await` of a task without a channel publishes one under the lock. */
  lemma AwaitPublishes(s: State, g: nat)
    requires s.mutex.None? && s.At(g).AwaitLock? && s.done.None?
    ensures var s' := Finish(s, g, 4);
      && s'.At(g).Idle? && s'.mutex.None? && s'.status == s.status && s'.closed == s.closed
      && s'.done == if s.status.Done? then Some(0) else Some(s.nextChan)
  {
    hide Finish;
    var s1 := Onward(s, g, 4);
    var s2 := Onward(s1, g, 3);
    assert s2.At(g).AwaitStatus? && s2.status == s.status && s2.closed == s.closed && s2.nextChan == s.nextChan;
    var s3 := Onward(s2, g, 2);
    var s4 := Onward(s3, g, 1);
    Stop(s4, g);
  }

  /** `Await`: */
  lemma AwaitAlone(s: State, g: nat)
    requires s.mutex.None?
    ensures var s' := Whole(s, g, AwaitLoad);
      && s'.At(g).Idle? && s'.mutex.None? && s'.status == s.status && s'.closed == s.closed
      && s'.done == if s.done.Some? then s.done else if s.status.Done? then Some(0) else Some(s.nextChan)
  {
    hide Finish;
    var s1 := Onward(s.Go(g, AwaitLoad), g, 5);
    if s.done.Some? {
      Rests(s1, g, 4);
    } else {
      AwaitPublishes(s1, g);
    }
  }

  /** `setRunning` and `configureNextRun`: */
  lemma StatusAlone(s: State, g: nat)
    requires s.mutex.None?
    ensures var s' := Whole(s, g, RunCas);
      s'.At(g).Idle? && s' == s.Go(g, RunCas).Go(g, Idle).(status := if s.status.New? then Running else s.status)
    ensures var s' := Whole(s, g, RearmCas);
      s'.At(g).Idle? && s' == s.Go(g, RearmCas).Go(g, Idle).(status := if s.status.Running? then New else s.status)
  {}
}
