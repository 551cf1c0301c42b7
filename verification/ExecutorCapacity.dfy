/**
 The capacity bound of the executor is attained: for all limits that admit a task and every number
 of racing submitters there is a run in which the queue overruns the limits by all of them but one.
 */
module ExecutorCapacity {
  import opened Tasks
  import opened ExecutorLoop
  import opened ExecutorRuns
  import opened ExecutorTheorems
  import opened ExecutorShutdown

  predicate Limits(s: System, c: int, q: int, n: nat) {
    s.l.concurrency == c && s.l.capacity == q && |s.submits| <= n
  }

  /** A run under fixed limits, with at most `n` submitters between check and delivery. */
  ghost predicate Within(states: seq<System>, steps: seq<Step>, c: int, q: int, n: nat) {
    IsRun(states, steps) && forall k :: 0 <= k < |states| ==> Limits(states[k], c, q, n)
  }

  function Last(states: seq<System>): System
    requires states != []
  {
    states[|states| - 1]
  }

  /** The executor takes tasks, ids from `k` are unused, and every undelivered task is due. */
  ghost predicate Open(s: System, k: nat) {
    && s.l.phase.Active? && !s.l.exited && !s.l.panicked && !s.l.broken
    && (forall t :: t in s.l.tasks ==> t < k)
    && (forall t :: t in s.submits ==> t in s.l.tasks && s.l.tasks[t].Runnable())
  }

  lemma Append(states: seq<System>, steps: seq<Step>, step: Step, c: int, q: int, n: nat)
    returns (states': seq<System>, steps': seq<Step>)
    requires Within(states, steps, c, q, n) && Enabled(Last(states), step)
    requires Limits(Apply(Last(states), step), c, q, n)
    ensures Within(states', steps', c, q, n) && Last(states') == Apply(Last(states), step)
  {
    states', steps' := states + [Apply(Last(states), step)], steps + [step];
    forall i {:trigger steps'[i]} | 0 <= i < |steps'| ensures IsStep(states'[i], steps'[i], states'[i + 1]) {
      if i < |steps| {
        assert IsStep(states[i], steps[i], states[i + 1]);
      }
    }
  }

  lemma SubmitStep(s: System, k: nat)
    requires Open(s, k) && 0 <= s.l.concurrency && 0 <= s.l.capacity
    requires Load(s.l) < s.l.concurrency + s.l.capacity
    ensures Enabled(s, Submit(k, Once, 0, 0))
    ensures var s' := Apply(s, Submit(k, Once, 0, 0));
      && Open(s', k + 1) && Load(s'.l) == Load(s.l) && |s'.submits| == |s.submits| + 1
      && s'.l.concurrency == s.l.concurrency && s'.l.capacity == s.l.capacity
  {}

  /** A task in hand leaves all other tasks, the limits and the health of the loop alone. */
  lemma TryExecuteOther(l: Loop, t: nat)
    ensures var l' := TryExecuteTask(l, t);
      && l'.concurrency == l.concurrency && l'.capacity == l.capacity
      && l'.panicked == l.panicked && l'.broken == l.broken
      && forall x :: x in l.tasks && x != t ==> x in l'.tasks && l'.tasks[x] == l.tasks[x]
  {
    PushFrame(l.(sElem := l.sElem + {t}), t);
    hide PushDelayed, Insert;
  }

  lemma DeliverStep(s: System, k: nat, t: nat)
    requires Conserved(s) && Open(s, k) && t in s.submits
    ensures Enabled(s, DeliverSubmit(t))
    ensures var s' := Apply(s, DeliverSubmit(t));
      && Open(s', k) && Load(s'.l) == Load(s.l) + 1 && |s'.submits| == |s.submits| - 1
      && s'.l.concurrency == s.l.concurrency && s'.l.capacity == s.l.capacity
  {
    var l := s.l;
    var l0 := Stamp(l, t);
    var l' := TryExecuteTask(l0, t);
    TryExecuteBusy(l0, t);
    TryExecuteLife(l0, t);
    TryExecuteEvolves(l0, t);
    TryExecuteOther(l0, t);
    assert OwnedOnce(l, s.submits + s.returned, s.completions, t);
    assert Apply(s, DeliverSubmit(t)) == s.(l := l', submits := s.submits - multiset{t});
    hide TryExecuteTask, Apply, Conserved, OwnedOnce, Enabled;
    assert forall x :: x in s.submits - multiset{t} ==> x in s.submits && x != t;
  }

  /** `m` more submitters pass the capacity check, all on the same load. */
  lemma {:induction false} Submits(states: seq<System>, steps: seq<Step>, c: nat, q: nat, n: nat, k: nat, m: nat)
    returns (states': seq<System>, steps': seq<Step>)
    requires Within(states, steps, c, q, n) && Open(Last(states), k)
    requires Load(Last(states).l) < c + q && |Last(states).submits| + m <= n
    ensures Within(states', steps', c, q, n) && Open(Last(states'), k + m)
    ensures Load(Last(states').l) == Load(Last(states).l)
    ensures |Last(states').submits| == |Last(states).submits| + m
    decreases m
  {
    states', steps' := states, steps;
    if m > 0 {
      SubmitStep(Last(states), k);
      states', steps' := Append(states, steps, Submit(k, Once, 0, 0), c, q, n);
      states', steps' := Submits(states', steps', c, q, n, k + 1, m - 1);
    }
  }

  /** All blocked submitters are let through. */
  lemma {:induction false} Deliveries(states: seq<System>, steps: seq<Step>, c: nat, q: nat, n: nat, k: nat)
    returns (states': seq<System>, steps': seq<Step>)
    requires Within(states, steps, c, q, n) && Open(Last(states), k)
    ensures Within(states', steps', c, q, n) && Open(Last(states'), k)
    ensures |Last(states').submits| == 0
    ensures Load(Last(states').l) == Load(Last(states).l) + |Last(states).submits|
    decreases |Last(states).submits|
  {
    states', steps' := states, steps;
    var s := Last(states);
    if |s.submits| > 0 {
      var t :| t in s.submits;
      RunConserves(states, steps, |states| - 1);
      DeliverStep(s, k, t);
      states', steps' := Append(states, steps, DeliverSubmit(t), c, q, n);
      states', steps' := Deliveries(states', steps', c, q, n, k);
    }
  }

  /** One submitter at a time fills the executor up. */
  lemma {:induction false} Fills(states: seq<System>, steps: seq<Step>, c: nat, q: nat, n: nat, k: nat, m: nat)
    returns (states': seq<System>, steps': seq<Step>)
    requires Within(states, steps, c, q, n) && Open(Last(states), k) && |Last(states).submits| == 0 && n >= 1
    requires Load(Last(states).l) + m <= c + q
    ensures Within(states', steps', c, q, n) && Open(Last(states'), k + m) && |Last(states').submits| == 0
    ensures Load(Last(states').l) == Load(Last(states).l) + m
    decreases m
  {
    states', steps' := states, steps;
    if m > 0 {
      states', steps' := Submits(states, steps, c, q, n, k, 1);
      states', steps' := Deliveries(states', steps', c, q, n, k + 1);
      states', steps' := Fills(states', steps', c, q, n, k + 1, m - 1);
    }
  }

  /** For all limits that leave room for a task, and every number of racing submitters, the bound of
      `CapacityBound` is reached, with every task delivered. */
  lemma CapacityAttained(start: System, c: nat, q: nat, n: nat)
    returns (states: seq<System>, steps: seq<Step>)
    requires Init(start) && start.l.concurrency == c && start.l.capacity == q && c + q >= 1 && n >= 1
    ensures IsRun(states, steps)
    ensures forall k :: 0 <= k < |states| ==>
      states[k].l.concurrency == c && states[k].l.capacity == q && |states[k].submits| <= n
    ensures var s := states[|states| - 1]; |s.submits| == 0 && Load(s.l) == c + q + n - 1
  {
    states, steps := [start], [];
    states, steps := Fills(states, steps, c, q, n, 0, c + q - 1);
    states, steps := Submits(states, steps, c, q, n, c + q - 1, n);
    states, steps := Deliveries(states, steps, c, q, n, c + q - 1 + n);
  }
}
