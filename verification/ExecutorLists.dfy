/**
 The linked ready list along the runs of the executor: every step makes certain operations on the list,
 and over every run the list that they leave stands for the sequence that the loop is modelled on, until
 a cancel event removes a stale handle.
 */
module ExecutorLists {
  import opened Options
  import opened Tasks
  import opened ExecutorLoop
  import opened ExecutorRuns
  import opened ExecutorTheorems
  import opened ExecutorOrder
  import R = ReadyLists

  // ---------- the operations of every helper and event ----------

  function TryExecuteOps(l: Loop, t: nat): seq<R.Op> {
    if l.Get(t).Runnable() && l.Get(t).Delay(l.now) <= 0 && !l.CanStart() then [R.Push(t)] else []
  }

  function TryRunNextOps(l: Loop): seq<R.Op> {
    if l.phase.Terminated? || l.ready == [] || !l.CanStart() then [] else [R.Pop]
  }

  function DrainOps(l: Loop): seq<R.Op>
    decreases |l.ready|
  {
    if !l.CanStart() || l.ready == [] || l.phase.Terminated? then []
    else PopShrinks(l); TryRunNextOps(l) + DrainOps(TryRunNext(l))
  }

  function SettleOps(l: Loop, t: nat): seq<R.Op> { if ComesBack(l, t) then [R.Push(t)] else [] }

  /** What a step does to the linked list. */
  function StepOps(s: System, step: Step): seq<R.Op> {
    var l := s.l;
    match step
    case TimerFires =>
      if l.delayed != [] && l.Deadline(l.delayed[0]) <= l.now then TryExecuteOps(l, l.delayed[0]) else []
    case DeliverSubmit(t) => TryExecuteOps(l, t)
    case DeliverCompletion(t) => SettleOps(l, t) + TryRunNextOps(Settle(l.(log := l.log + [Ended(t, l.now)]), t))
    case DeliverCancel(t) => if t in l.qElem then [R.Cancel(t)] else []
    case SetConcurrency(n) => DrainOps(l.(concurrency := n))
    case CancelExecutor => if l.phase.Canceled() then [] else TryRunNextOps(l.(phase := ShuttingDown))
    case CancelNow => if l.phase.Rank() >= 2 then [] else [R.Clear]
    case _ => []
  }

  // ---------- the list and the loop ----------

  /** The list stands for the ready list of the loop; its elements are the ready tasks and those handed
      back, and every handle is of one of its elements. */
  ghost predicate Links(l: Loop, returned: multiset<nat>, list: R.List) {
    && R.Represents(list, l.ready)
    && (forall e :: e in list.owned ==> e in l.ready || e in returned)
    && (forall t :: t in l.qElem ==> t in list.owned)
  }

  lemma SameLinks(l: Loop, returned: multiset<nat>, list: R.List, l': Loop)
    requires Links(l, returned, list) && l'.ready == l.ready && l'.qElem == l.qElem
    ensures Links(l', returned, R.DoAll(list, []))
  {
    hide R.Represents;
  }

  lemma PushLinks(l: Loop, returned: multiset<nat>, list: R.List, t: nat, l': Loop)
    requires Links(l, returned, list) && t !in l.ready && t !in returned
    requires l'.ready == l.ready + [t] && (l'.qElem == l.qElem || l'.qElem == l.qElem + {t})
    ensures Links(l', returned, R.DoAll(list, [R.Push(t)]))
  {
    R.DoAllOne(list, R.Push(t));
    R.PushBackRepresents(list, l.ready, t);
    hide R.Represents, R.DoAll;
  }

  lemma PopLinks(l: Loop, returned: multiset<nat>, list: R.List, l': Loop)
    requires Links(l, returned, list) && l.ready != []
    requires l'.ready == l.ready[1..] && l'.qElem == l.qElem - {l.ready[0]}
    ensures Links(l', returned, R.DoAll(list, [R.Pop]))
  {
    R.DoAllOne(list, R.Pop);
    R.AgreesExactly(list, l.ready, R.Pop);
    assert list.Next(R.Nth(l.ready, 0)) == R.Nth(l.ready, 1);
    assert R.Do(list, R.Pop) == R.Unlink(list, l.ready[0]);
    assert forall x :: x in l.ready && x != l.ready[0] ==> x in l.ready[1..];
    hide R.Represents, R.DoAll;
  }

  lemma TryExecuteLinks(l: Loop, returned: multiset<nat>, list: R.List, t: nat)
    requires Links(l, returned, list) && t !in l.ready && t !in returned
    ensures Links(TryExecuteTask(l, t), returned, R.DoAll(list, TryExecuteOps(l, t)))
  {
    PushFrame(l.(sElem := l.sElem + {t}), t);
    hide PushDelayed, Insert;
    var l' := TryExecuteTask(l, t);
    if l.Get(t).Runnable() && l.Get(t).Delay(l.now) <= 0 && !l.CanStart() {
      hide Links;
      PushLinks(l, returned, list, t, l');
    } else {
      assert l'.ready == l.ready && l'.qElem == l.qElem;
      hide Links, TryExecuteTask;
      SameLinks(l, returned, list, l');
    }
  }

  /** What the next task leaves behind in the ready list. */
  lemma PopFrame(l: Loop)
    requires l.CanStart() && l.ready != [] && !l.phase.Terminated?
    ensures TryRunNext(l).ready == l.ready[1..] && TryRunNext(l).qElem == l.qElem - {l.ready[0]}
  {
    var l0 := l.(ready := l.ready[1..], qElem := l.qElem - {l.ready[0]});
    PushFrame(l0.(sElem := l.sElem + {l.ready[0]}), l.ready[0]);
    hide PushDelayed, Insert;
  }

  lemma TryRunNextLinks(l: Loop, returned: multiset<nat>, list: R.List)
    requires Links(l, returned, list)
    ensures Links(TryRunNext(l), returned, R.DoAll(list, TryRunNextOps(l)))
  {
    if !l.phase.Terminated? && l.ready != [] && l.CanStart() {
      PopFrame(l);
      hide TryRunNext, Links;
      PopLinks(l, returned, list, TryRunNext(l));
    } else {
      hide Links, TryExecuteTask;
      SameLinks(l, returned, list, TryRunNext(l));
    }
  }

  lemma {:induction false} DrainLinks(l: Loop, returned: multiset<nat>, list: R.List)
    requires Links(l, returned, list)
    ensures Links(Drain(l), returned, R.DoAll(list, DrainOps(l)))
    decreases |l.ready|
  {
    if l.CanStart() && l.ready != [] && !l.phase.Terminated? {
      PopShrinks(l);
      hide TryRunNext, Links, R.DoAll, TryRunNextOps;
      TryRunNextLinks(l, returned, list);
      DrainLinks(TryRunNext(l), returned, R.DoAll(list, TryRunNextOps(l)));
      R.DoAllSplits(list, TryRunNextOps(l), DrainOps(TryRunNext(l)));
    } else {
      SameLinks(l, returned, list, l);
    }
  }

  lemma SettleLinks(l: Loop, returned: multiset<nat>, list: R.List, t: nat)
    requires Links(l, returned, list) && t !in l.ready && t !in returned
    ensures Links(Settle(l, t), returned, R.DoAll(list, SettleOps(l, t)))
  {
    SettleReady(l, t);
    SettleHandlesSame(l, t);
    hide Settle, Links, ComesBack;
    if ComesBack(l, t) {
      PushLinks(l, returned, list, t, Settle(l, t));
    } else {
      SameLinks(l, returned, list, Settle(l, t));
    }
  }

  lemma SettleHandlesSame(l: Loop, t: nat)
    ensures Settle(l, t).qElem == l.qElem
  {
    var r := ConfigureNextRun(l.Get(t), l.now);
    if r.Next? { PushFrame(l.(running := l.running - 1, tasks := l.tasks[t := r.task]), t); }
    hide PushDelayed, Insert;
  }

  // ---------- steps ----------

  /** A task in an event, or on the heap, has no element in the list. */
  lemma Elsewhere(s: System, t: nat)
    requires Conserved(s) && (t in s.submits || t in s.completions || t in s.l.delayed)
    ensures t !in s.l.ready && t !in s.returned
  {
    assert OwnedOnce(s.l, s.submits + s.returned, s.completions, t);
  }

  lemma TimerLinks(s: System, list: R.List)
    requires Conserved(s) && Links(s.l, s.returned, list)
    ensures Links(OnTimer(s.l), s.returned, R.DoAll(list, StepOps(s, TimerFires)))
  {
    var l := s.l;
    hide R.DoAll, Links, Conserved, TryExecuteTask;
    if l.delayed != [] && l.Deadline(l.delayed[0]) <= l.now {
      var t := l.delayed[0];
      var l0 := Stamp(l.(timer := None, delayed := l.delayed[1..], sElem := l.sElem - {t}), t);
      hide Configure;
      assert OnTimer(l) == Configure(TryExecuteTask(l0, t));
      hide OnTimer;
      assert TryExecuteOps(l0, t) == TryExecuteOps(l, t);
      hide TryExecuteOps;
      Elsewhere(s, t);
      StillLinks(l, s.returned, list, l0);
      TryExecuteLinks(l0, s.returned, list, t);
      ConfigureFrame(TryExecuteTask(l0, t));
      StillLinks(TryExecuteTask(l0, t), s.returned, R.DoAll(list, TryExecuteOps(l, t)), OnTimer(l));
    } else {
      SameLinks(l, s.returned, list, OnTimer(l));
    }
  }

  lemma StillLinks(l: Loop, returned: multiset<nat>, list: R.List, l': Loop)
    requires Links(l, returned, list) && l'.ready == l.ready && l'.qElem == l.qElem
    ensures Links(l', returned, list)
  {
    hide R.Represents;
  }

  lemma SubmittedLinks(s: System, list: R.List, t: nat)
    requires Conserved(s) && Links(s.l, s.returned, list) && t in s.submits
    ensures Links(OnSubmitted(s.l, t), s.returned, R.DoAll(list, StepOps(s, DeliverSubmit(t))))
  {
    var l0 := Stamp(s.l, t);
    Elsewhere(s, t);
    assert OnSubmitted(s.l, t) == TryExecuteTask(l0, t) && TryExecuteOps(l0, t) == TryExecuteOps(s.l, t);
    hide Conserved, Links, TryExecuteTask, TryExecuteOps, OnSubmitted;
    StillLinks(s.l, s.returned, list, l0);
    TryExecuteLinks(l0, s.returned, list, t);
  }

  lemma CompletedLinks(s: System, list: R.List, t: nat)
    requires Conserved(s) && Links(s.l, s.returned, list) && t in s.completions
    ensures Links(OnCompleted(s.l, t), s.returned, R.DoAll(list, StepOps(s, DeliverCompletion(t))))
  {
    var l := s.l;
    var l0 := l.(log := l.log + [Ended(t, l.now)]);
    var m := Settle(l0, t);
    Elsewhere(s, t);
    assert OnCompleted(l, t) == TryRunNext(m) && SettleOps(l0, t) == SettleOps(l, t);
    hide Conserved, Links, Settle, TryRunNext, OnCompleted, SettleOps, TryRunNextOps, R.DoAll;
    StillLinks(l, s.returned, list, l0);
    SettleLinks(l0, s.returned, list, t);
    TryRunNextLinks(m, s.returned, R.DoAll(list, SettleOps(l, t)));
    R.DoAllSplits(list, SettleOps(l, t), TryRunNextOps(m));
  }

  /** The cancel event keeps the list and the loop in agreement if and only if it does not spoil it. */
  lemma CanceledLinks(l: Loop, returned: multiset<nat>, list: R.List, t: nat)
    requires Links(l, returned, list) && !l.broken
    ensures var list' := if t in l.qElem then R.Do(list, R.Cancel(t)) else list;
      && (R.Represents(list', OnCanceled(l, t).ready) <==> !OnCanceled(l, t).broken)
      && (!OnCanceled(l, t).broken ==> Links(OnCanceled(l, t), returned, list'))
  {
    R.CancelAgreesExactly(list, l, t);
    CanceledFrame(l, t);
    CanceledQElem(l, t);
    var l' := OnCanceled(l, t);
    hide OnCanceled, R.Represents, Remove;
    if !l'.broken {
      forall e | e in list.owned && e != t ensures e in l'.ready || e in returned {
        if e in l.ready { RemoveOthers(l.ready, t, e); }
      }
    }
  }

  lemma CanceledQElem(l: Loop, t: nat)
    requires !l.broken
    ensures var l' := OnCanceled(l, t);
      && (l'.broken <==> l.ready != [] && Stale(l, t))
      && (!l'.broken ==> l'.qElem == if l.ready == [] then l.qElem else l.qElem - {t})
  {
    hide Remove;
  }

  lemma CancelNowLinks(l: Loop, returned: multiset<nat>, list: R.List)
    requires Links(l, returned, list) && l.phase.Rank() < 2
    ensures Links(OnCancelNow(l).0, returned + multiset(OnCancelNow(l).1), R.DoAll(list, [R.Clear]))
  {
    R.DoAllOne(list, R.Clear);
    R.AgreesExactly(list, l.ready, R.Clear);
    var l' := OnCancelNow(l).0;
    assert l'.ready == [] && l'.qElem == l.qElem && OnCancelNow(l).1 == l.ready + l.delayed by { hide TryExecuteTask; }
    hide OnCancelNow, R.Represents, R.DoAll;
  }

  lemma ShutdownLinks(l: Loop, returned: multiset<nat>, list: R.List)
    requires Links(l, returned, list) && !l.phase.Canceled()
    ensures Links(OnCancel(l), returned, R.DoAll(list, TryRunNextOps(l.(phase := ShuttingDown))))
  {
    var l0 := l.(phase := ShuttingDown);
    hide Links, TryRunNext, TryRunNextOps;
    StillLinks(l, returned, list, l0);
    TryRunNextLinks(l0, returned, list);
  }

  /** What a step leaves of the agreement. */
  ghost predicate StepLinks(s: System, step: Step, list: R.List)
    requires Enabled(s, step)
  {
    var s', list' := Apply(s, step), R.DoAll(list, StepOps(s, step));
    && (R.Represents(list', s'.l.ready) <==> !s'.l.broken)
    && (!s'.l.broken ==> Links(s'.l, s'.returned, list'))
  }

  lemma LinksRepresents(l: Loop, returned: multiset<nat>, list: R.List)
    requires Links(l, returned, list)
    ensures R.Represents(list, l.ready)
  {}

  lemma LoopStepLinks(s: System, step: Step, list: R.List)
    requires Conserved(s) && Handles(s) && Enabled(s, step) && step.IsLoopStep() && Links(s.l, s.returned, list)
    ensures StepLinks(s, step, list)
  {
    var l, back := s.l, s.returned;
    LoopStepHandles(s, step);
    hide Conserved, Handles, Links, R.Represents, ClientNext, OnTimer, OnSubmitted, OnCompleted, OnCanceled, OnCancel;
    hide OnCancelNow, Drain, DrainOps, TryExecuteOps, SettleOps, TryRunNextOps, Settle, R.DoAll;
    var s', list' := Apply(s, step), R.DoAll(list, StepOps(s, step));
    match step {
      case TimerFires => TimerLinks(s, list);
      case DeliverSubmit(t) => SubmittedLinks(s, list, t);
      case DeliverCompletion(t) => CompletedLinks(s, list, t);
      case DeliverCancel(t) =>
        CanceledLinks(l, back, list, t);
        R.DoAllOne(list, R.Cancel(t));
        return;
      case SetConcurrency(n) =>
        StillLinks(l, back, list, l.(concurrency := n));
        DrainLinks(l.(concurrency := n), back, list);
      case SetCapacity(n) => SameLinks(l, back, list, l.(capacity := n));
      case CancelExecutor =>
        SameLinks(l, back, list, l);
        if !l.phase.Canceled() { ShutdownLinks(l, back, list); } else { assert OnCancel(l) == l; }
      case CancelNow =>
        if l.phase.Rank() < 2 { CancelNowLinks(l, back, list); } else { CancelNowLate(l, back, list); }
    }
    LinksRepresents(s'.l, s'.returned, list');
  }

  lemma CancelNowLate(l: Loop, returned: multiset<nat>, list: R.List)
    requires Links(l, returned, list) && l.phase.Rank() >= 2
    ensures Links(OnCancelNow(l).0, returned + multiset(OnCancelNow(l).1), R.DoAll(list, []))
  {
    assert OnCancelNow(l).0 == l && returned + multiset(OnCancelNow(l).1) == returned;
    SameLinks(l, returned, list, l);
  }

  /** Every step keeps list and loop in agreement, if and only if it does not spoil the list. */
  lemma StepLinksExactly(s: System, step: Step, list: R.List)
    requires Conserved(s) && Handles(s) && Enabled(s, step) && !s.l.broken && Links(s.l, s.returned, list)
    ensures StepLinks(s, step, list)
  {
    if step.IsLoopStep() {
      LoopStepLinks(s, step, list);
    } else {
      ClientStepFrame(s, step);
      assert Apply(s, step).returned == s.returned by { hide LoopNext; }
      assert StepOps(s, step) == [];
      hide Apply, Conserved, Handles, Links, StepOps, R.Represents, R.DoAll;
      SameLinks(s.l, s.returned, list, Apply(s, step).l);
      LinksRepresents(Apply(s, step).l, s.returned, R.DoAll(list, []));
    }
  }

  // ---------- runs ----------

  /** The linked list after the first `i` steps of a run. */
  function Linked(states: seq<System>, steps: seq<Step>, i: nat): R.List
    requires i <= |states| && i <= |steps|
  {
    if i == 0 then R.New() else R.DoAll(Linked(states, steps, i - 1), StepOps(states[i - 1], steps[i - 1]))
  }

  /** Over every run: the linked list that the loop's own operations leave stands for the ready list of the
      model if and only if it has not been spoilt; and `RunBreaksExactly` says when that is. */
  lemma {:induction false} RunListAgrees(states: seq<System>, steps: seq<Step>, i: nat)
    requires IsRun(states, steps) && i < |states|
    ensures R.Represents(Linked(states, steps, i), states[i].l.ready) <==> !states[i].l.broken
    ensures !states[i].l.broken ==> Links(states[i].l, states[i].returned, Linked(states, steps, i))
  {
    if i > 0 {
      var k := i - 1;
      assert IsStep(states[k], steps[k], states[i]);
      hide IsRun, Conserved, Handles, Links, StepOps, Apply, R.Represents, R.DoAll;
      RunListAgrees(states, steps, k);
      if states[k].l.broken {
        BrokenStays(states[k], steps[k], Linked(states, steps, k));
      } else {
        RunConserves(states, steps, k);
        RunBreaksExactly(states, steps, k);
        StepLinksExactly(states[k], steps[k], Linked(states, steps, k));
      }
    } else {
      EmptyLinks(states[0]);
    }
  }

  /** Once the list is spoilt only clients take steps, and they do not touch it. */
  lemma BrokenStays(s: System, step: Step, list: R.List)
    requires Enabled(s, step) && s.l.broken
    ensures Apply(s, step).l.broken && Apply(s, step).l.ready == s.l.ready && R.DoAll(list, StepOps(s, step)) == list
  {
    ClientStepFrame(s, step);
    hide Apply;
  }

  lemma EmptyLinks(s: System)
    requires Init(s)
    ensures Links(s.l, s.returned, R.New())
  {
    assert R.Nth([], 0) == R.Root == R.Nth([], 1);
  }

  // ---------- runs step by step, with the list ----------

  /** A run from `start` to `s` that leaves the list `list`. */
  ghost predicate RunsTo(states: seq<System>, start: System, steps: seq<Step>, s: System, list: R.List) {
    && IsRun(states, steps) && states[0] == start && states[|steps|] == s
    && Linked(states, steps, |steps|) == list
  }

  /** The steps lead to state `s`, and leave the list `list`. */
  ghost predicate LeadsTo(start: System, steps: seq<Step>, s: System, list: R.List) {
    exists states :: RunsTo(states, start, steps, s, list)
  }

  lemma LeadsToStart(start: System)
    requires Init(start)
    ensures LeadsTo(start, [], start, R.New())
  {
    assert RunsTo([start], start, [], start, R.New());
  }

  lemma LeadsOnly(start: System, steps: seq<Step>, s: System, list: R.List)
    requires LeadsTo(start, steps, s, list)
    ensures Leads(start, steps, s)
  {
    var states :| RunsTo(states, start, steps, s, list);
    hide Linked;
  }

  lemma {:induction false} SameLinked(a: seq<System>, p: seq<Step>, b: seq<System>, q: seq<Step>, i: nat)
    requires i <= |a| <= |b| && i <= |p| <= |q| && a <= b && p <= q
    ensures Linked(a, p, i) == Linked(b, q, i)
  {
    if i > 0 {
      SameLinked(a, p, b, q, i - 1);
      assert a[i - 1] == b[i - 1] && p[i - 1] == q[i - 1];
    }
  }

  lemma LinkedNext(states: seq<System>, steps: seq<Step>, s': System, step: Step)
    requires |states| == |steps| + 1
    ensures Linked(states + [s'], steps + [step], |steps| + 1) ==
            R.DoAll(Linked(states, steps, |steps|), StepOps(states[|steps|], step))
  {
    hide StepOps, R.DoAll;
    var states', steps' := states + [s'], steps + [step];
    assert states'[|steps|] == states[|steps|] && steps'[|steps|] == step;
    assert Linked(states', steps', |steps| + 1) ==
      R.DoAll(Linked(states', steps', |steps|), StepOps(states'[|steps|], steps'[|steps|]));
    hide Linked;
    SameLinked(states, steps, states', steps', |steps|);
  }

  lemma RunsOn(states: seq<System>, start: System, steps: seq<Step>, s: System, list: R.List, step: Step)
    requires RunsTo(states, start, steps, s, list) && Enabled(s, step)
    ensures RunsTo(states + [Apply(s, step)], start, steps + [step], Apply(s, step), R.DoAll(list, StepOps(s, step)))
  {
    assert |states| == |steps| + 1;
    hide IsRun, Apply, Enabled, StepOps, R.DoAll, Linked;
    RunExtends(states, steps, step);
    LinkedNext(states, steps, Apply(s, step), step);
  }

  lemma GoOn(start: System, steps: seq<Step>, s: System, list: R.List, step: Step)
    returns (s': System, steps': seq<Step>, list': R.List)
    requires LeadsTo(start, steps, s, list) && Enabled(s, step)
    ensures steps' == steps + [step] && s' == Apply(s, step) && list' == R.DoAll(list, StepOps(s, step))
    ensures LeadsTo(start, steps', s', list')
  {
    hide RunsTo, Apply, Enabled, StepOps, R.DoAll;
    var states :| RunsTo(states, start, steps, s, list);
    s', steps', list' := Apply(s, step), steps + [step], R.DoAll(list, StepOps(s, step));
    RunsOn(states, start, steps, s, list, step);
  }
}
