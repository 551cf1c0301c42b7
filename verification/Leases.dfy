/**
 The lease protocol that both distributed locks implement (distributedlock/): one resource, a
 server clock, any number of lock objects. `belief` is what a lock object was last granted and has
 not given up: for Postgres its field `expiration`, for Redis the expiry the script set.
 */
module Leases {

  datatype Lease = Free | Held(owner: nat, until: int)

  datatype State = State(now: int, lease: Lease, belief: map<nat, int>)

  datatype Step =
    | Tick(d: nat)
    | Acquire(c: nat, until: int)
    | Extend(c: nat, until: int)
    | Release(c: nat, lease: Lease)
    | Forget(c: nat)
    | Stutter

  predicate Enabled(s: State, step: Step) {
    match step
    case Acquire(c, _) => s.lease.Free? || s.lease.until <= s.now
    case Extend(c, _) => s.lease.Held? && s.lease.owner == c
    case Release(c, lease) =>
      s.lease.Held? && s.lease.owner == c && (lease.Held? ==> lease.owner == c && lease.until <= s.now)
    case _ => true
  }

  function Next(s: State, step: Step): State
    requires Enabled(s, step)
  {
    match step
    case Tick(d) => s.(now := s.now + d)
    case Acquire(c, until) => s.(lease := Held(c, until), belief := s.belief[c := until])
    case Extend(c, until) => s.(lease := Held(c, until), belief := s.belief[c := until])
    case Release(c, lease) => s.(lease := lease, belief := s.belief - {c})
    case Forget(c) => s.(belief := s.belief - {c})
    case Stutter => s
  }

  /** Whoever believes in an unexpired lease has it. */
  ghost predicate Honest(s: State) {
    forall c :: c in s.belief && s.now < s.belief[c] ==>
      s.lease.Held? && s.lease.owner == c && s.belief[c] <= s.lease.until
  }

  lemma StepHonest(s: State, step: Step)
    requires Honest(s) && Enabled(s, step)
    ensures Honest(Next(s, step))
  {
    var s' := Next(s, step);
    forall c | c in s'.belief && s'.now < s'.belief[c]
      ensures s'.lease.Held? && s'.lease.owner == c && s'.belief[c] <= s'.lease.until
    {
      assert c in s.belief || step.Acquire? || step.Extend?;
    }
  }

  /** No two lock objects believe in an unexpired lease at once. */
  lemma Exclusion(s: State, a: nat, b: nat)
    requires Honest(s) && a in s.belief && b in s.belief
    requires s.now < s.belief[a] && s.now < s.belief[b]
    ensures a == b
  {
    assert s.lease.owner == a;
  }
}

/**
 The Postgres lock (distributedlock/distributedlock_postgres.go): the row of one resource, and any
 number of lock objects. TryLock is two statements of one transaction, so other objects may act in
 between; `now()` is the start of the transaction.
 */
module PostgresLocks {
  import opened Options
  import L = Leases

  datatype Row = Row(instance: nat, expiration: int, count: nat)

  // ---------- the statements ----------

  /** `UPDATE ... WHERE instance_id = seen AND expiration < now()`, or `INSERT ... ON CONFLICT DO
      NOTHING` when the SELECT saw no row; answers the RETURNING expiration. */
  function TakeRow(row: Option<Row>, id: nat, ttl: nat, now: int, seen: Option<nat>): (Option<Row>, Option<int>) {
    if seen.Some? then
      if row.Some? && row.value.instance == seen.value && row.value.expiration < now
      then (Some(row.value.(instance := id, expiration := now + ttl)), Some(now + ttl))
      else (row, None)
    else if row.None? then (Some(Row(id, now + ttl, 0)), Some(now + ttl))
    else (row, None)
  }

  function UnlockRow(row: Option<Row>, id: nat, now: int): Option<Row> {
    if row.Some? && row.value.instance == id && row.value.expiration > now
    then Some(row.value.(expiration := now)) else row
  }

  function ExtendRow(row: Option<Row>, id: nat, ttl: nat, now: int): Option<Row> {
    if row.Some? && row.value.instance == id && row.value.expiration > now
    then Some(Row(id, now + ttl, row.value.count + 1)) else None
  }

  // ---------- any number of lock objects ----------

  datatype Pc = Idle | Begun(start: int) | Selected(start: int, seen: Option<nat>)

  datatype Client = Client(ttl: nat, expiration: Option<int>, extendedCount: nat, pc: Pc)

  datatype System = System(now: int, row: Option<Row>, clients: map<nat, Client>)

  datatype Step =
    | Tick(d: nat)
    | New(c: nat, ttl: nat)
    | Begin(c: nat)
    | Select(c: nat)
    | Take(c: nat)
    | Unlock(c: nat, start: int)
    | Extend(c: nat, start: int)

  predicate Enabled(s: System, step: Step) {
    match step
    case Tick(_) => true
    case New(c, _) => c !in s.clients
    case Begin(c) => c in s.clients && s.clients[c].pc.Idle?
    case Select(c) => c in s.clients && s.clients[c].pc.Begun?
    case Take(c) => c in s.clients && s.clients[c].pc.Selected?
    case Unlock(c, start) => c in s.clients && s.clients[c].pc.Idle? && start <= s.now
    case Extend(c, start) => c in s.clients && s.clients[c].pc.Idle? && start <= s.now
  }

  function Next(s: System, step: Step): System
    requires Enabled(s, step)
  {
    match step
    case Tick(d) => s.(now := s.now + d)
    case New(c, ttl) => s.(clients := s.clients[c := Client(ttl, None, 0, Idle)])
    case Begin(c) => s.(clients := s.clients[c := s.clients[c].(pc := Begun(s.now))])
    case Select(c) =>
      var seen := if s.row.Some? then Some(s.row.value.instance) else None;
      s.(clients := s.clients[c := s.clients[c].(pc := Selected(s.clients[c].pc.start, seen))])
    case Take(c) =>
      var me := s.clients[c];
      var (row, until) := TakeRow(s.row, c, me.ttl, me.pc.start, me.pc.seen);
      s.(row := row,
         clients := s.clients[c := me.(pc := Idle, expiration := if until.Some? then until else me.expiration)])
    case Unlock(c, start) =>
      s.(row := UnlockRow(s.row, c, start),
         clients := s.clients[c := s.clients[c].(expiration := None, extendedCount := 0)])
    case Extend(c, start) =>
      var me := s.clients[c];
      var row := ExtendRow(s.row, c, me.ttl, start);
      if row.Some?
      then s.(row := row, clients := s.clients[c := me.(expiration := Some(row.value.expiration),
                                                        extendedCount := row.value.count)])
      else s.(clients := s.clients[c := me.(expiration := None, extendedCount := 0)])
  }

  /** The lease machine state behind a system. */
  function Abs(s: System): L.State {
    L.State(s.now,
            if s.row.None? then L.Free else L.Held(s.row.value.instance, s.row.value.expiration),
            map c | c in s.clients && s.clients[c].expiration.Some? :: s.clients[c].expiration.value)
  }

  ghost predicate Valid(s: System) {
    forall c :: c in s.clients && !s.clients[c].pc.Idle? ==> s.clients[c].pc.start <= s.now
  }

  /** Which step of the lease machine a step is. */
  function Label(s: System, step: Step): L.Step
    requires Enabled(s, step)
  {
    match step
    case Tick(d) => L.Tick(d)
    case Take(c) =>
      var me := s.clients[c];
      var until := TakeRow(s.row, c, me.ttl, me.pc.start, me.pc.seen).1;
      if until.Some? then L.Acquire(c, until.value) else L.Stutter
    case Unlock(c, start) =>
      if UnlockRow(s.row, c, start) != s.row then L.Release(c, L.Held(c, start)) else L.Forget(c)
    case Extend(c, start) =>
      var row := ExtendRow(s.row, c, s.clients[c].ttl, start);
      if row.Some? then L.Extend(c, row.value.expiration) else L.Forget(c)
    case _ => L.Stutter
  }

  /** Every step of the Postgres lock is a step of the lease machine. */
  lemma StepRefines(s: System, step: Step)
    requires Valid(s) && Enabled(s, step)
    ensures Valid(Next(s, step))
    ensures L.Enabled(Abs(s), Label(s, step)) && Abs(Next(s, step)) == L.Next(Abs(s), Label(s, step))
  {
    var s', a, a' := Next(s, step), Abs(s), Abs(Next(s, step));
    var b := L.Next(a, Label(s, step));
    assert a'.belief.Keys == b.belief.Keys;
    assert a'.belief == b.belief;
  }

  function Run(s: System, steps: seq<Step>): Option<System>
    decreases |steps|
  {
    if steps == [] then Some(s)
    else if !Enabled(s, steps[0]) then None
    else Run(Next(s, steps[0]), steps[1..])
  }

  lemma {:induction false} RunHonest(s: System, steps: seq<Step>)
    requires Valid(s) && L.Honest(Abs(s)) && Run(s, steps).Some?
    ensures Valid(Run(s, steps).value) && L.Honest(Abs(Run(s, steps).value))
    decreases |steps|
  {
    if steps != [] {
      StepRefines(s, steps[0]);
      L.StepHonest(Abs(s), Label(s, steps[0]));
      RunHonest(Next(s, steps[0]), steps[1..]);
    }
  }

  /** Lease exclusion, for any number of lock objects and steps from an empty table: an object whose
      local expiration lies in the future is named by the row with at least that expiration, and
      there is at most one such object. */
  lemma LeaseExclusion(now: int, steps: seq<Step>, a: nat)
    requires Run(System(now, None, map[]), steps).Some?
    requires var s := Run(System(now, None, map[]), steps).value;
      a in s.clients && s.clients[a].expiration.Some? && s.now < s.clients[a].expiration.value
    ensures var s := Run(System(now, None, map[]), steps).value;
      && s.row.Some? && s.row.value.instance == a
      && s.clients[a].expiration.value <= s.row.value.expiration
      && forall b :: b in s.clients && s.clients[b].expiration.Some? && b != a ==>
           s.clients[b].expiration.value <= s.now
  {
    var s0 := System(now, None, map[]);
    RunHonest(s0, steps);
    var s := Run(s0, steps).value;
    var abs := Abs(s);
    assert a in abs.belief && abs.belief[a] == s.clients[a].expiration.value;
    forall b | b in s.clients && s.clients[b].expiration.Some? && b != a
      ensures s.clients[b].expiration.value <= s.now
    {
      assert b in abs.belief && abs.belief[b] == s.clients[b].expiration.value;
      if s.now < abs.belief[b] { L.Exclusion(abs, a, b); }
    }
  }

  // ---------- a holder that extends in time ----------

  /** From state `s` on, with its last extension begun at `last`: lock object `c` does not unlock, and
      the server's clock never gets a whole ttl ahead of the last extension. */
  ghost predicate Prompt(s: System, steps: seq<Step>, c: nat, last: int)
    decreases |steps|
  {
    && c in s.clients && s.now < last + s.clients[c].ttl
    && (steps == [] ||
        (Enabled(s, steps[0]) && !(steps[0].Unlock? && steps[0].c == c)
         && Prompt(Next(s, steps[0]), steps[1..], c,
                   if steps[0].Extend? && steps[0].c == c then steps[0].start else last)))
  }

  /** How often an Extend of `c` is refused in the run. */
  function Refusals(s: System, steps: seq<Step>, c: nat): nat
    decreases |steps|
  {
    if steps == [] || !Enabled(s, steps[0]) then 0
    else (if steps[0].Extend? && steps[0].c == c &&
             ExtendRow(s.row, c, s.clients[c].ttl, steps[0].start).None? then 1 else 0)
         + Refusals(Next(s, steps[0]), steps[1..], c)
  }

  /** The object's last answer was a lease from `last`; the row may only be kinder. */
  ghost predicate Holding(s: System, c: nat, last: int) {
    c in s.clients && s.clients[c].expiration == Some(last + s.clients[c].ttl)
  }

  /** A believer in an unexpired lease is in the row. */
  lemma HolderInRow(s: System, c: nat, last: int)
    requires L.Honest(Abs(s)) && Holding(s, c, last) && s.now < last + s.clients[c].ttl
    ensures s.row.Some? && s.row.value.instance == c && s.now < s.row.value.expiration
  {
    assert c in Abs(s).belief;
  }

  lemma StepHolding(s: System, step: Step, c: nat, last: int)
    requires Valid(s) && L.Honest(Abs(s)) && Enabled(s, step) && !(step.Unlock? && step.c == c)
    requires Holding(s, c, last) && s.now < last + s.clients[c].ttl
    ensures Holding(Next(s, step), c, if step.Extend? && step.c == c then step.start else last)
    ensures step.Extend? && step.c == c ==> ExtendRow(s.row, c, s.clients[c].ttl, step.start).Some?
  {
    HolderInRow(s, c, last);
  }

  /** Auto-extension never lapses, over every run of any number of lock objects: a holder that
      extends within the ttl of its last extension is never refused and keeps the row. */
  lemma {:induction false} HolderNeverLapses(s: System, steps: seq<Step>, c: nat, last: int)
    requires Valid(s) && L.Honest(Abs(s)) && Holding(s, c, last) && Prompt(s, steps, c, last)
    ensures Refusals(s, steps, c) == 0 && Run(s, steps).Some?
    ensures var row := Run(s, steps).value.row; row.Some? && row.value.instance == c
    decreases |steps|
  {
    if steps == [] {
      HolderInRow(s, c, last);
    } else {
      StepHolding(s, steps[0], c, last);
      StepRefines(s, steps[0]);
      L.StepHonest(Abs(s), Label(s, steps[0]));
      HolderNeverLapses(Next(s, steps[0]), steps[1..], c,
                        if steps[0].Extend? && steps[0].c == c then steps[0].start else last);
    }
  }

  // ---------- when the lock is had ----------

  /** The steps of an uninterrupted TryLock. */
  function WholeTryLock(c: nat): seq<Step> { [Begin(c), Select(c), Take(c)] }

  /** An uninterrupted TryLock is granted if and only if there is no row or it has expired, and then the row
      and the object have the lease of its ttl. */
  lemma TryLockExactly(s: System, c: nat)
    requires c in s.clients && s.clients[c].pc.Idle?
    ensures Run(s, WholeTryLock(c)).Some?
    ensures var s' := Run(s, WholeTryLock(c)).value; var until := s.now + s.clients[c].ttl;
      if s.row.None? || s.row.value.expiration < s.now
      then s'.row == Some(Row(c, until, RowCount(s.row))) && c in s'.clients && s'.clients[c].expiration == Some(until)
      else s'.row == s.row && c in s'.clients && s'.clients[c].expiration == s.clients[c].expiration
  {
    var s1 := Next(s, Begin(c));
    var s2 := Next(s1, Select(c));
    var s3 := Next(s2, Take(c));
    var w := WholeTryLock(c);
    assert w[1..] == [Select(c), Take(c)] && w[1..][1..] == [Take(c)] && w[1..][1..][1..] == [];
    assert Run(s2, w[1..][1..]) == Some(s3);
  }

  /** No TryLock succeeds in the run, and no extension. */
  ghost predicate NothingGranted(s: System, steps: seq<Step>)
    decreases |steps|
  {
    steps == [] ||
    (Enabled(s, steps[0]) && !Extends(s, steps[0])
     && (steps[0].Take? ==>
           var me := s.clients[steps[0].c]; TakeRow(s.row, steps[0].c, me.ttl, me.pc.start, me.pc.seen).1.None?)
     && NothingGranted(Next(s, steps[0]), steps[1..]))
  }

  lemma {:induction false} StaysExpired(s: System, steps: seq<Step>, end: int)
    requires s.row.Some? && s.row.value.expiration <= end && NothingGranted(s, steps)
    ensures Run(s, steps).Some?
    ensures var row := Run(s, steps).value.row; row.Some? && row.value.expiration <= end
    decreases |steps|
  {
    if steps != [] { StaysExpired(Next(s, steps[0]), steps[1..], end); }
  }

  /** Unlocking releases: after an object unlocks its unexpired row at `start`, over every run in which
      nothing is granted since, any object whose uninterrupted TryLock begins later has the lock. */
  lemma UnlockReleases(s: System, c: nat, start: int, steps: seq<Step>, d: nat)
    requires Enabled(s, Unlock(c, start)) && s.row.Some? && s.row.value.instance == c && s.row.value.expiration > start
    requires NothingGranted(Next(s, Unlock(c, start)), steps)
    requires Run(Next(s, Unlock(c, start)), steps).Some? ==>
      var s' := Run(Next(s, Unlock(c, start)), steps).value; d in s'.clients && s'.clients[d].pc.Idle? && start < s'.now
    ensures Run(Next(s, Unlock(c, start)), steps).Some?
    ensures var s' := Run(Next(s, Unlock(c, start)), steps).value;
      && Run(s', WholeTryLock(d)).Some?
      && var s'' := Run(s', WholeTryLock(d)).value;
         && s''.row.Some? && s''.row.value.instance == d && s''.row.value.expiration == s'.now + s'.clients[d].ttl
         && d in s''.clients && s''.clients[d].expiration == Some(s'.now + s'.clients[d].ttl)
  {
    var s1 := Next(s, Unlock(c, start));
    assert s1.row.Some? && s1.row.value.expiration == start;
    StaysExpired(s1, steps, start);
    hide Next, Enabled, NothingGranted;
    TryLockExactly(Run(s1, steps).value, d);
  }

  // ---------- the extension counter ----------

  /** The step is an extension that the row grants. */
  predicate Extends(s: System, step: Step)
    requires Enabled(s, step)
  {
    step.Extend? && ExtendRow(s.row, step.c, s.clients[step.c].ttl, step.start).Some?
  }

  /** How many extensions a run has, of all lock objects. */
  function Extensions(s: System, steps: seq<Step>): nat
    decreases |steps|
  {
    if steps == [] || !Enabled(s, steps[0]) then 0
    else (if Extends(s, steps[0]) then 1 else 0) + Extensions(Next(s, steps[0]), steps[1..])
  }

  /** How many of them are of `c`. */
  function OwnExtensions(s: System, steps: seq<Step>, c: nat): nat
    decreases |steps|
  {
    if steps == [] || !Enabled(s, steps[0]) then 0
    else (if Extends(s, steps[0]) && steps[0].c == c then 1 else 0) + OwnExtensions(Next(s, steps[0]), steps[1..], c)
  }

  function RowCount(row: Option<Row>): nat { if row.Some? then row.value.count else 0 }

  /** Over every run the counter in the row grows by every extension of any object, and by nothing else:
      taking over, unlocking and the first insert leave it alone. */
  lemma {:induction false} RunCounts(s: System, steps: seq<Step>)
    requires Run(s, steps).Some?
    ensures RowCount(Run(s, steps).value.row) == RowCount(s.row) + Extensions(s, steps)
    decreases |steps|
  {
    if steps != [] { RunCounts(Next(s, steps[0]), steps[1..]); }
  }

  /** In every state of the run the row names `c`. */
  ghost predicate Stays(s: System, steps: seq<Step>, c: nat)
    decreases |steps|
  {
    && s.row.Some? && s.row.value.instance == c
    && (steps == [] || (Enabled(s, steps[0]) && Stays(Next(s, steps[0]), steps[1..], c)))
  }

  lemma {:induction false} AllAreOwn(s: System, steps: seq<Step>, c: nat)
    requires Stays(s, steps, c)
    ensures Run(s, steps).Some? && Extensions(s, steps) == OwnExtensions(s, steps, c)
    decreases |steps|
  {
    if steps != [] { AllAreOwn(Next(s, steps[0]), steps[1..], c); }
  }

  /** From the empty table, object `c` takes the lock after a run `before` and keeps it over a run `after`:
      an extension then reports the number of extensions since `c` took the lock if and only if nobody
      had extended the row before that. */
  lemma CountExactly(now: int, before: seq<Step>, after: seq<Step>, c: nat, start: int)
    requires Run(System(now, None, map[]), before).Some?
    requires var s0 := Run(System(now, None, map[]), before).value;
      && Enabled(s0, Take(c))
      && TakeRow(s0.row, c, s0.clients[c].ttl, s0.clients[c].pc.start, s0.clients[c].pc.seen).1.Some?
      && Stays(Next(s0, Take(c)), after, c)
      && Run(Next(s0, Take(c)), after).Some?
      && var s := Run(Next(s0, Take(c)), after).value;
         Enabled(s, Extend(c, start)) && Extends(s, Extend(c, start))
    ensures var s0 := Run(System(now, None, map[]), before).value;
      var s := Run(Next(s0, Take(c)), after).value;
      Next(s, Extend(c, start)).clients[c].extendedCount == OwnExtensions(Next(s0, Take(c)), after, c) + 1
      <==> Extensions(System(now, None, map[]), before) == 0
  {
    var empty := System(now, None, map[]);
    var s0 := Run(empty, before).value;
    var s1 := Next(s0, Take(c));
    RunCounts(empty, before);
    assert RowCount(s1.row) == RowCount(s0.row);
    AllAreOwn(s1, after, c);
    RunCounts(s1, after);
    hide Run, Extensions, OwnExtensions, Stays;
  }

  lemma {:induction false} RunOn(s: System, steps: seq<Step>, step: Step)
    requires Run(s, steps).Some? && Enabled(Run(s, steps).value, step)
    ensures Run(s, steps + [step]) == Some(Next(Run(s, steps).value, step))
    decreases |steps|
  {
    if steps == [] {
      assert [step][1..] == [];
    } else {
      assert (steps + [step])[1..] == steps[1..] + [step];
      RunOn(Next(s, steps[0]), steps[1..], step);
    }
  }

  lemma Then(s: System, steps: seq<Step>, m: System, step: Step) returns (steps': seq<Step>, m': System)
    requires Run(s, steps) == Some(m) && Enabled(m, step)
    ensures steps' == steps + [step] && m' == Next(m, step) && Run(s, steps') == Some(m')
  {
    RunOn(s, steps, step);
    steps', m' := steps + [step], Next(m, step);
  }

  /** Object 0 locks and extends. */
  lemma Extended(now: int, ttl: nat) returns (steps: seq<Step>, s: System)
    requires ttl > 0
    ensures steps == [New(0, ttl), New(1, ttl), Begin(0), Select(0), Take(0), Extend(0, now)]
    ensures Run(System(now, None, map[]), steps) == Some(s)
    ensures s.now == now && s.row == Some(Row(0, now + ttl, 1))
    ensures 1 in s.clients && s.clients[1] == Client(ttl, None, 0, Idle)
  {
    var empty := System(now, None, map[]);
    assert Run(empty, []) == Some(empty);
    hide Run;
    steps, s := Then(empty, [], empty, New(0, ttl));
    steps, s := Then(empty, steps, s, New(1, ttl));
    steps, s := Then(empty, steps, s, Begin(0));
    steps, s := Then(empty, steps, s, Select(0));
    steps, s := Then(empty, steps, s, Take(0));
    steps, s := Then(empty, steps, s, Extend(0, now));
  }

  /** Its lease runs out, and object 1 takes over. */
  lemma TakenOver(now: int, ttl: nat) returns (steps: seq<Step>, s: System)
    requires ttl > 0
    ensures steps == [New(0, ttl), New(1, ttl), Begin(0), Select(0), Take(0), Extend(0, now), Tick(ttl + 1),
                      Begin(1), Select(1), Take(1)]
    ensures Run(System(now, None, map[]), steps) == Some(s)
    ensures s.now == now + ttl + 1 && s.row == Some(Row(1, s.now + ttl, 1))
    ensures 1 in s.clients && s.clients[1] == Client(ttl, Some(s.now + ttl), 0, Idle)
  {
    var empty := System(now, None, map[]);
    hide Run;
    steps, s := Extended(now, ttl);
    steps, s := Then(empty, steps, s, Tick(ttl + 1));
    steps, s := Then(empty, steps, s, Begin(1));
    steps, s := Then(empty, steps, s, Select(1));
    steps, s := Then(empty, steps, s, Take(1));
  }

  /** So the first extension of object 1 reports two. */
  lemma TakeoverMiscounts(now: int, ttl: nat) returns (steps: seq<Step>, s: System)
    requires ttl > 0
    ensures steps == [New(0, ttl), New(1, ttl), Begin(0), Select(0), Take(0), Extend(0, now), Tick(ttl + 1),
                      Begin(1), Select(1), Take(1), Extend(1, now + ttl + 1)]
    ensures Run(System(now, None, map[]), steps) == Some(s)
    ensures 1 in s.clients && s.clients[1].extendedCount == 2
  {
    steps, s := TakenOver(now, ttl);
    hide Run;
    steps, s := Then(System(now, None, map[]), steps, s, Extend(1, s.now));
  }

  // ---------- the objects ----------

  class LockTable {
    var now: int
    var rows: map<string, Row>

    function Get(resource: string): Option<Row>
      reads this
    {
      if resource in rows then Some(rows[resource]) else None
    }
  }

  class PostgresLock {
    const resource: string
    const id: nat
    const ttl: nat
    var expiration: Option<int>
    var extendedCount: nat

    constructor (resource: string, id: nat, ttl: nat)
      ensures this.resource == resource && this.id == id && this.ttl == ttl
      ensures expiration.None? && extendedCount == 0
    {
      this.resource, this.id, this.ttl := resource, id, ttl;
      expiration, extendedCount := None, 0;
    }

    /** An uninterrupted TryLock: both statements at one time. */
    method TryLock(table: LockTable) returns (locked: bool)
      modifies this`expiration, table`rows
      ensures var row := old(table.Get(resource));
        var seen := if row.Some? then Some(row.value.instance) else None;
        var (row', until) := TakeRow(row, id, ttl, table.now, seen);
        && table.Get(resource) == row' && locked == until.Some?
        && expiration == if locked then until else old(expiration)
      ensures locked <==> old(resource !in table.rows || table.rows[resource].expiration < table.now)
      ensures locked ==> resource in table.rows && expiration == Some(table.now + ttl)
      ensures var count := if old(resource in table.rows) then old(table.rows)[resource].count else 0;
        locked ==> table.rows[resource] == Row(id, table.now + ttl, count)
      ensures !locked ==> table.rows == old(table.rows) && expiration == old(expiration)
      ensures forall r :: r != resource ==> table.Get(r) == old(table.Get(r))
    {
      var until: Option<int> := None;
      if resource in table.rows {
        if table.rows[resource].expiration < table.now {
          until := Some(table.now + ttl);
          table.rows := table.rows[resource :=
            table.rows[resource].(instance := id, expiration := table.now + ttl)];
        }
      } else {
        until := Some(table.now + ttl);
        table.rows := table.rows[resource := Row(id, table.now + ttl, 0)];
      }
      if until.Some? {
        expiration := until;
      }
      locked := until.Some?;
    }

    method Unlock(table: LockTable)
      modifies this, table`rows
      ensures table.Get(resource) == UnlockRow(old(table.Get(resource)), id, table.now)
      ensures var own := old(resource in table.rows && table.rows[resource].instance == id
                             && table.rows[resource].expiration > table.now);
        if own then resource in table.rows &&
                    table.rows[resource] == Row(id, table.now, old(table.rows)[resource].count)
        else table.rows == old(table.rows)
      ensures expiration.None? && extendedCount == 0
      ensures forall r :: r != resource ==> table.Get(r) == old(table.Get(r))
    {
      if resource in table.rows && table.rows[resource].instance == id && table.rows[resource].expiration > table.now {
        table.rows := table.rows[resource := table.rows[resource].(expiration := table.now)];
      }
      expiration, extendedCount := None, 0;
    }

    method Extend(table: LockTable) returns (extended: bool)
      modifies this, table`rows
      ensures var row' := ExtendRow(old(table.Get(resource)), id, ttl, table.now);
        && extended == row'.Some?
        && table.Get(resource) == (if extended then row' else old(table.Get(resource)))
        && expiration == (if extended then Some(row'.value.expiration) else None)
        && extendedCount == (if extended then row'.value.count else 0)
      ensures extended <==> old(resource in table.rows && table.rows[resource].instance == id
                                && table.rows[resource].expiration > table.now)
      ensures extended ==> resource in table.rows && expiration == Some(table.now + ttl)
      ensures extended ==> extendedCount == old(table.rows)[resource].count + 1
      ensures extended ==> table.rows[resource] == Row(id, table.now + ttl, extendedCount)
      ensures !extended ==> table.rows == old(table.rows)
      ensures forall r :: r != resource ==> table.Get(r) == old(table.Get(r))
    {
      if resource in table.rows && table.rows[resource].instance == id && table.rows[resource].expiration > table.now {
        var row := Row(id, table.now + ttl, table.rows[resource].count + 1);
        table.rows := table.rows[resource := row];
        expiration, extendedCount := Some(row.expiration), row.count;
        return true;
      }
      expiration, extendedCount := None, 0;
      extended := false;
    }
  }
}

/**
 The Redis lock (distributedlock/distributedlock_redis.go): three scripts, each atomic, on a lock
 key and one counter key per lock object. Times are nanoseconds, like every Go duration; the scripts
 are given whole milliseconds.
 */
module RedisLocks {
  import opened Options
  import L = Leases

  const NS_PER_MS := 1_000_000

  /** `Milliseconds()`: the rest is cut off. */
  function Millis(ttl: nat): nat { ttl / NS_PER_MS }

  /** How long a lease of so many milliseconds is. */
  function Length(ms: int): int { ms * NS_PER_MS }

  datatype Key = Key(id: nat, expireAt: int)

  /** A counter without expiry is what INCR creates when the key is missing. */
  datatype Count = Count(value: nat, expireAt: Option<int>)

  datatype Redis = Redis(now: int, lock: Option<Key>, counts: map<nat, Count>)
  {
    predicate HeldBy(id: nat) { lock.Some? && now < lock.value.expireAt && lock.value.id == id }
    predicate LockFree() { lock.None? || lock.value.expireAt <= now }
    predicate CountLive(id: nat) {
      id in counts && (counts[id].expireAt.None? || now < counts[id].expireAt.value)
    }
  }

  /** The answer of a script: an error, or an integer. */
  datatype Answer = Error | Int(n: nat)

  /** `SET lock id NX PX ms`, then `SET count 0 PX ms`. A non-positive expiry is an error. */
  function LockScript(r: Redis, id: nat, ms: int): (Redis, Answer) {
    if ms <= 0 then (r, Error)
    else if !r.LockFree() then (r, Int(0))
    else (r.(lock := Some(Key(id, r.now + Length(ms))),
             counts := r.counts[id := Count(0, Some(r.now + Length(ms)))]), Int(1))
  }

  function UnlockScript(r: Redis, id: nat): (Redis, Answer) {
    if !r.HeldBy(id) then (r, Int(0))
    else (r.(lock := None, counts := r.counts - {id}), Int(if r.CountLive(id) then 2 else 1))
  }

  /** `SET lock id PX ms`, `EXPIRE count ms` (which counts seconds) and `INCR count`. */
  function ExtendScript(r: Redis, id: nat, ms: int): (Redis, Answer) {
    if !r.HeldBy(id) then (r, Int(0))
    else if ms <= 0 then (r, Error)
    else
      var n := if r.CountLive(id) then r.counts[id].value + 1 else 1;
      var expireAt := if r.CountLive(id) then Some(r.now + 1000 * Length(ms)) else None;
      (r.(lock := Some(Key(id, r.now + Length(ms))), counts := r.counts[id := Count(n, expireAt)]), Int(n))
  }

  // ---------- any number of lock objects ----------

  /** History: what was last granted to each object, and its extensions since it acquired. */
  datatype System = System(r: Redis, granted: map<nat, int>, extensions: map<nat, nat>)

  datatype Step = Tick(d: nat) | TryLock(c: nat, ms: int) | Unlock(c: nat) | Extend(c: nat, ms: int)

  function Next(s: System, step: Step): System {
    match step
    case Tick(d) => s.(r := s.r.(now := s.r.now + d))
    case TryLock(c, ms) =>
      var (r, answer) := LockScript(s.r, c, ms);
      if answer == Int(1)
      then s.(r := r, granted := s.granted[c := s.r.now + Length(ms)], extensions := s.extensions[c := 0]) else s
    case Unlock(c) =>
      s.(r := UnlockScript(s.r, c).0, granted := s.granted - {c})
    case Extend(c, ms) =>
      var (r, answer) := ExtendScript(s.r, c, ms);
      if answer.Error? then s
      else if answer.n != 0
      then s.(r := r, granted := s.granted[c := s.r.now + Length(ms)],
              extensions := s.extensions[c := (if c in s.extensions then s.extensions[c] else 0) + 1])
      else s.(granted := s.granted - {c})
  }

  function Abs(s: System): L.State {
    L.State(s.r.now, if s.r.lock.None? then L.Free else L.Held(s.r.lock.value.id, s.r.lock.value.expireAt),
            s.granted)
  }

  function Label(s: System, step: Step): L.Step {
    match step
    case Tick(d) => L.Tick(d)
    case TryLock(c, ms) => if LockScript(s.r, c, ms).1 == Int(1) then L.Acquire(c, s.r.now + Length(ms)) else L.Stutter
    case Unlock(c) => if s.r.HeldBy(c) then L.Release(c, L.Free) else L.Forget(c)
    case Extend(c, ms) =>
      if !s.r.HeldBy(c) then L.Forget(c) else if ms <= 0 then L.Stutter else L.Extend(c, s.r.now + Length(ms))
  }

  /** Every step of the Redis lock is a step of the lease machine. */
  lemma StepRefines(s: System, step: Step)
    ensures L.Enabled(Abs(s), Label(s, step)) && Abs(Next(s, step)) == L.Next(Abs(s), Label(s, step))
  {}

  /** While the lock key holds an id, its counter is live, expires no earlier, and is the number of
      extensions since that id acquired the lock. */
  ghost predicate Counted(s: System) {
    forall c :: s.r.HeldBy(c) ==>
      && c in s.r.counts && c in s.extensions && s.r.counts[c].value == s.extensions[c]
      && (s.r.counts[c].expireAt.Some? ==> s.r.lock.value.expireAt <= s.r.counts[c].expireAt.value)
  }

  lemma StepCounted(s: System, step: Step)
    requires Counted(s)
    ensures Counted(Next(s, step))
  {
    forall c | Next(s, step).r.HeldBy(c)
      ensures var s' := Next(s, step);
        && c in s'.r.counts && c in s'.extensions && s'.r.counts[c].value == s'.extensions[c]
        && (s'.r.counts[c].expireAt.Some? ==> s'.r.lock.value.expireAt <= s'.r.counts[c].expireAt.value)
    {
      if step.Extend? || step.Tick? { assert s.r.HeldBy(c) || step.Extend?; }
    }
  }

  function Run(s: System, steps: seq<Step>): System
    decreases |steps|
  {
    if steps == [] then s else Run(Next(s, steps[0]), steps[1..])
  }

  function Empty(now: int): System { System(Redis(now, None, map[]), map[], map[]) }

  lemma {:induction false} RunKeeps(s: System, steps: seq<Step>)
    requires Counted(s) && L.Honest(Abs(s))
    ensures Counted(Run(s, steps)) && L.Honest(Abs(Run(s, steps)))
    decreases |steps|
  {
    if steps != [] {
      StepRefines(s, steps[0]);
      L.StepHonest(Abs(s), Label(s, steps[0]));
      StepCounted(s, steps[0]);
      RunKeeps(Next(s, steps[0]), steps[1..]);
    }
  }

  /** Exclusion on the server, over every run: an object whose granted lease is unexpired holds the
      lock key, and no other object's granted lease is unexpired. */
  lemma LeaseExclusion(now: int, steps: seq<Step>, a: nat)
    requires var s := Run(Empty(now), steps); a in s.granted && s.r.now < s.granted[a]
    ensures var s := Run(Empty(now), steps);
      s.r.HeldBy(a) && forall b :: b in s.granted && b != a ==> s.granted[b] <= s.r.now
  {
    RunKeeps(Empty(now), steps);
    var s := Run(Empty(now), steps);
    forall b | b in s.granted && b != a ensures s.granted[b] <= s.r.now {
      if s.r.now < s.granted[b] { L.Exclusion(Abs(s), a, b); }
    }
  }

  /** From state `s` on, with its last extension at `last`: lock object `c`, whose ttl is `ms`, does
      not unlock, and the server's clock never gets that far ahead of the last extension. */
  ghost predicate Prompt(s: System, steps: seq<Step>, c: nat, ms: int, last: int)
    decreases |steps|
  {
    && s.r.now < last + Length(ms)
    && (steps == [] ||
        (steps[0] != Unlock(c) && (steps[0].Extend? && steps[0].c == c ==> steps[0].ms == ms)
         && Prompt(Next(s, steps[0]), steps[1..], c, ms, if steps[0] == Extend(c, ms) then s.r.now else last)))
  }

  /** How often an Extend of `c` is refused in the run. */
  function Refusals(s: System, steps: seq<Step>, c: nat): nat
    decreases |steps|
  {
    if steps == [] then 0
    else (if steps[0].Extend? && steps[0].c == c && ExtendScript(s.r, c, steps[0].ms).1 == Int(0) then 1 else 0)
         + Refusals(Next(s, steps[0]), steps[1..], c)
  }

  /** Auto-extension never lapses, over every run of any number of lock objects: a holder that
      extends within the lease length of its last extension is never refused and keeps the key. */
  lemma {:induction false} HolderNeverLapses(s: System, steps: seq<Step>, c: nat, ms: int, last: int)
    requires Counted(s) && L.Honest(Abs(s)) && ms > 0 && Prompt(s, steps, c, ms, last)
    requires c in s.granted && s.granted[c] == last + Length(ms)
    ensures Refusals(s, steps, c) == 0 && Run(s, steps).r.HeldBy(c)
    decreases |steps|
  {
    assert s.r.HeldBy(c);
    if steps != [] {
      var s' := Next(s, steps[0]);
      StepRefines(s, steps[0]);
      L.StepHonest(Abs(s), Label(s, steps[0]));
      StepCounted(s, steps[0]);
      HolderNeverLapses(s', steps[1..], c, ms, if steps[0] == Extend(c, ms) then s.r.now else last);
    }
  }

  /** Over every run: the extend script answers 0 exactly when it did not extend, and otherwise the
      number of extensions since the lock was acquired. */
  lemma ExtendAnswers(now: int, steps: seq<Step>, c: nat, ms: int)
    requires ms > 0
    ensures var s := Run(Empty(now), steps);
      var answer := ExtendScript(s.r, c, ms).1;
      && answer.Int?
      && (answer.n == 0 <==> !s.r.HeldBy(c))
      && (s.r.HeldBy(c) ==> c in s.extensions && answer.n == s.extensions[c] + 1)
  {
    RunKeeps(Empty(now), steps);
  }

  // ---------- the objects ----------

  class RedisServer {
    var db: Redis
  }

  class RedisLock {
    const id: nat
    const ttl: nat
    var expiration: Option<int>
    var extendedCount: nat

    constructor (id: nat, ttl: nat)
      ensures this.id == id && this.ttl == ttl && expiration.None? && extendedCount == 0
    {
      this.id, this.ttl := id, ttl;
      expiration, extendedCount := None, 0;
    }

    /** `clientNow` is the client's clock; the remaining time to live is asked for separately. */
    method TryLock(server: RedisServer, clientNow: int) returns (set_: bool, failed: bool)
      modifies this, server
      ensures var (db, answer) := LockScript(old(server.db), id, Millis(ttl));
        && server.db == db && failed == answer.Error? && set_ == (answer == Int(1))
        && expiration == (if set_ then Some(clientNow + Length(Millis(ttl))) else old(expiration))
        && extendedCount == (if set_ then 0 else old(extendedCount))
      ensures failed <==> Millis(ttl) <= 0
      ensures set_ <==> Millis(ttl) > 0 && old(server.db.LockFree())
      ensures var now := old(server.db).now; var until := now + Length(Millis(ttl));
        server.db == if set_ then Redis(now, Some(Key(id, until)), old(server.db).counts[id := Count(0, Some(until))])
                     else old(server.db)
    {
      var (db, answer) := LockScript(server.db, id, Millis(ttl));
      server.db := db;
      if answer.Error? {
        return false, true;
      }
      set_, failed := answer.n != 0, false;
      if set_ {
        extendedCount := 0;
        var pttl := server.db.lock.value.expireAt - server.db.now;
        expiration := Some(clientNow + pttl);
      }
    }

    method Unlock(server: RedisServer)
      modifies this, server
      ensures server.db == UnlockScript(old(server.db), id).0
      ensures old(server.db.HeldBy(id)) ==>
              server.db == Redis(old(server.db).now, None, old(server.db).counts - {id})
      ensures !old(server.db.HeldBy(id)) ==> server.db == old(server.db)
      ensures expiration.None? && extendedCount == 0 && !server.db.HeldBy(id)
    {
      server.db := UnlockScript(server.db, id).0;
      expiration, extendedCount := None, 0;
    }

    method Extend(server: RedisServer, clientNow: int) returns (set_: bool, failed: bool)
      modifies this, server
      ensures var (db, answer) := ExtendScript(old(server.db), id, Millis(ttl));
        && server.db == db && failed == answer.Error? && set_ == (answer.Int? && old(server.db.HeldBy(id)))
        && (set_ ==> extendedCount == answer.n && expiration == Some(clientNow + Length(Millis(ttl))))
        && (!set_ && !failed ==> extendedCount == 0 && expiration.None?)
      ensures failed <==> old(server.db.HeldBy(id)) && Millis(ttl) <= 0
      ensures set_ <==> old(server.db.HeldBy(id)) && Millis(ttl) > 0
      ensures !set_ ==> server.db == old(server.db)
      ensures set_ ==> server.db.lock == Some(Key(id, old(server.db).now + Length(Millis(ttl))))
      ensures set_ && old(server.db.CountLive(id)) ==>
        extendedCount == old(server.db).counts[id].value + 1 && id in server.db.counts
        && server.db.counts[id] == Count(extendedCount, Some(old(server.db).now + 1000 * Length(Millis(ttl))))
      ensures set_ && !old(server.db.CountLive(id)) ==>
        extendedCount == 1 && id in server.db.counts && server.db.counts[id] == Count(1, None)
    {
      var (db, answer) := ExtendScript(server.db, id, Millis(ttl));
      server.db := db;
      if answer.Error? {
        return false, true;
      }
      set_, failed := answer.n != 0, false;
      if set_ {
        extendedCount := answer.n;
        expiration := Some(clientNow + (server.db.lock.value.expireAt - server.db.now));
      } else {
        expiration, extendedCount := None, 0;
      }
    }
  }
}

/**
 Auto-extension (distributedlock/distributedlock.go): the holder sleeps ttl/2 and extends, over and
 over, while any number of other lock objects do what they like.
 */
module AutoExtends {
  import opened Options
  import P = PostgresLocks
  import R = RedisLocks

  /** What one turn of the loop takes besides the sleep, from the server's answer to one extension
      until the next request is at the server. */
  datatype Delays = Delays(response: nat, scheduling: nat, request: nat)

  function Total(d: Delays): nat { d.response + d.scheduling + d.request }

  /** From one extension to the next. */
  function Elapsed(d: Delays, ttl: nat): nat { d.response + d.scheduling + ttl / 2 + d.request }

  /** How the loop of `autoExtend` comes out. `Lost` is the cancellation with LOCK_NOT_AUTO_EXTENDED,
      in cycle `k`; `Alive` means that the caller has not cancelled it yet. */
  datatype Outcome = NotLocked | Lost(k: nat) | Alive

  // ---------- Postgres ----------

  datatype PgCycle = PgCycle(delays: Delays, others: seq<P.Step>)

  function PgTicks(steps: seq<P.Step>): nat {
    if steps == [] then 0 else (if steps[0].Tick? then steps[0].d else 0) + PgTicks(steps[1..])
  }

  /** In the meantime the other lock objects take steps, and that time passes. */
  ghost predicate PgCycleOk(c: nat, ttl: nat, cycle: PgCycle) {
    && (forall i :: 0 <= i < |cycle.others| ==> cycle.others[i].Tick? || cycle.others[i].c != c)
    && PgTicks(cycle.others) == Elapsed(cycle.delays, ttl)
  }

  /** Object `c` was granted the row at time `last`; if the row is another's now, that has run out. */
  ghost predicate PgGranted(s: P.System, c: nat, last: int) {
    && c in s.clients && s.clients[c].pc.Idle? && s.row.Some? && P.Valid(s)
    && (if s.row.value.instance == c then s.row.value.expiration == last + s.clients[c].ttl
        else last + s.clients[c].ttl < s.now)
  }

  /** That is how a Postgres lock begins. */
  lemma PgAcquiredIsGranted(s: P.System, c: nat)
    requires P.Valid(s) && P.Enabled(s, P.Take(c)) && s.clients[c].pc.start == s.now
    requires P.TakeRow(s.row, c, s.clients[c].ttl, s.now, s.clients[c].pc.seen).1.Some?
    ensures var s' := P.Next(s, P.Take(c));
      PgGranted(s', c, s'.now) && s'.row.value.instance == c && s'.clients[c].expiration.Some?
  {
    P.StepRefines(s, P.Take(c));
  }

  lemma PgStepGranted(s: P.System, step: P.Step, c: nat, last: int)
    requires PgGranted(s, c, last) && P.Enabled(s, step) && (step.Tick? || step.c != c)
    ensures PgGranted(P.Next(s, step), c, last)
    ensures P.Next(s, step).clients[c] == s.clients[c]
    ensures P.Next(s, step).now == s.now + if step.Tick? then step.d else 0
  {
    P.StepRefines(s, step);
  }

  lemma {:induction false} PgBetween(s: P.System, steps: seq<P.Step>, c: nat, last: int)
    requires PgGranted(s, c, last) && P.Run(s, steps).Some?
    requires forall i :: 0 <= i < |steps| ==> steps[i].Tick? || steps[i].c != c
    ensures var s' := P.Run(s, steps).value;
      PgGranted(s', c, last) && s'.clients[c] == s.clients[c] && s'.now == s.now + PgTicks(steps)
    decreases |steps|
  {
    if steps != [] {
      PgStepGranted(s, steps[0], c, last);
      PgBetween(P.Next(s, steps[0]), steps[1..], c, last);
    }
  }

  /** One turn: the extension is refused if and only if the delays use up the ttl minus the sleep. */
  lemma PgCycleExactly(s: P.System, c: nat, cycle: PgCycle)
    requires PgGranted(s, c, s.now) && s.row.value.instance == c && s.clients[c].ttl > 0
    requires PgCycleOk(c, s.clients[c].ttl, cycle) && P.Run(s, cycle.others).Some?
    ensures var s1 := P.Run(s, cycle.others).value; var ttl := s.clients[c].ttl;
      && s1.now == s.now + Elapsed(cycle.delays, ttl) && P.Enabled(s1, P.Extend(c, s1.now))
      && (P.ExtendRow(s1.row, c, ttl, s1.now).None? <==> Total(cycle.delays) >= ttl - ttl / 2)
      && (P.ExtendRow(s1.row, c, ttl, s1.now).Some? ==>
            var s2 := P.Next(s1, P.Extend(c, s1.now));
            PgGranted(s2, c, s2.now) && s2.row.value.instance == c && s2.now == s1.now && s2.clients[c].ttl == ttl)
  {
    PgBetween(s, cycle.others, c, s.now);
    var s1 := P.Run(s, cycle.others).value;
    P.StepRefines(s1, P.Extend(c, s1.now));
  }

  /** The run that the loop makes: after each pause an extension begins, at the time it is then. */
  function PgSteps(now: int, c: nat, ttl: nat, cycles: seq<PgCycle>): seq<P.Step>
    decreases |cycles|
  {
    if cycles == [] then []
    else
      var then_ := now + Elapsed(cycles[0].delays, ttl);
      cycles[0].others + ([P.Extend(c, then_)] + PgSteps(then_, c, ttl, cycles[1..]))
  }

  lemma {:induction false} PgRunSplits(s: P.System, a: seq<P.Step>, b: seq<P.Step>, c: nat)
    requires P.Run(s, a + b).Some? && forall i :: 0 <= i < |a| ==> a[i].Tick? || a[i].c != c
    ensures P.Run(s, a).Some? && P.Run(s, a + b) == P.Run(P.Run(s, a).value, b)
    ensures P.Refusals(s, a + b, c) == P.Refusals(P.Run(s, a).value, b, c)
    decreases |a|
  {
    if a == [] {
      assert a + b == b;
    } else {
      assert (a + b)[0] == a[0] && (a + b)[1..] == a[1..] + b;
      PgRunSplits(P.Next(s, a[0]), a[1..], b, c);
    }
  }

  lemma PgFirst(s: P.System, c: nat, start: int, rest: seq<P.Step>)
    requires P.Run(s, [P.Extend(c, start)] + rest).Some?
    ensures P.Enabled(s, P.Extend(c, start))
    ensures var s' := P.Next(s, P.Extend(c, start));
      && P.Run(s, [P.Extend(c, start)] + rest) == P.Run(s', rest)
      && P.Refusals(s, [P.Extend(c, start)] + rest, c) ==
           (if P.ExtendRow(s.row, c, s.clients[c].ttl, start).None? then 1 else 0) + P.Refusals(s', rest, c)
  {
    assert ([P.Extend(c, start)] + rest)[1..] == rest;
    hide P.Next, P.ExtendRow;
  }

  /** The run of the loop, one turn taken off. */
  lemma PgTurn(s: P.System, c: nat, ttl: nat, cycles: seq<PgCycle>)
    requires cycles != [] && PgCycleOk(c, ttl, cycles[0])
    requires P.Run(s, PgSteps(s.now, c, ttl, cycles)).Some?
    ensures P.Run(s, cycles[0].others).Some?
    ensures var s1 := P.Run(s, cycles[0].others).value;
      var then_ := s.now + Elapsed(cycles[0].delays, ttl);
      var rest := PgSteps(then_, c, ttl, cycles[1..]);
      && P.Enabled(s1, P.Extend(c, then_))
      && P.Run(s, PgSteps(s.now, c, ttl, cycles)) == P.Run(P.Next(s1, P.Extend(c, then_)), rest)
      && P.Refusals(s, PgSteps(s.now, c, ttl, cycles), c) ==
           (if P.ExtendRow(s1.row, c, s1.clients[c].ttl, then_).None? then 1 else 0)
           + P.Refusals(P.Next(s1, P.Extend(c, then_)), rest, c)
  {
    hide P.Next, P.ExtendRow, P.Run, P.Refusals, P.Enabled, Elapsed;
    var then_ := s.now + Elapsed(cycles[0].delays, ttl);
    var x, rest := P.Extend(c, then_), PgSteps(then_, c, ttl, cycles[1..]);
    assert PgSteps(s.now, c, ttl, cycles) == cycles[0].others + ([x] + rest);
    hide PgSteps;
    PgRunSplits(s, cycles[0].others, [x] + rest, c);
    PgFirst(P.Run(s, cycles[0].others).value, c, then_, rest);
  }

  /** Auto-extension over every run of any number of lock objects: some extension is refused if and
      only if in some turn response, scheduling and request delay add up to ttl - ttl/2 or more. Until
      then the row names the holder. */
  lemma {:induction false} PgAutoExtendExactly(s: P.System, c: nat, ttl: nat, cycles: seq<PgCycle>)
    requires PgGranted(s, c, s.now) && s.row.value.instance == c && s.clients[c].ttl == ttl > 0
    requires forall k :: 0 <= k < |cycles| ==> PgCycleOk(c, ttl, cycles[k])
    requires P.Run(s, PgSteps(s.now, c, ttl, cycles)).Some?
    ensures P.Refusals(s, PgSteps(s.now, c, ttl, cycles), c) > 0 <==>
            exists k :: 0 <= k < |cycles| && Total(cycles[k].delays) >= ttl - ttl / 2
    ensures P.Refusals(s, PgSteps(s.now, c, ttl, cycles), c) == 0 ==>
            var row := P.Run(s, PgSteps(s.now, c, ttl, cycles)).value.row; row.Some? && row.value.instance == c
    decreases |cycles|
  {
    if cycles != [] {
      var cycle := cycles[0];
      assert PgCycleOk(c, ttl, cycle);
      PgTurn(s, c, ttl, cycles);
      PgCycleExactly(s, c, cycle);
      var s1 := P.Run(s, cycle.others).value;
      hide P.Run, P.Refusals, P.Next, P.Enabled, P.ExtendRow, PgSteps, PgGranted, PgCycleOk;
      if Total(cycle.delays) < ttl - ttl / 2 {
        PgAutoExtendExactly(P.Next(s1, P.Extend(c, s1.now)), c, ttl, cycles[1..]);
        assert forall k :: 0 < k < |cycles| ==> cycles[k] == cycles[1..][k - 1];
      }
    }
  }

  /** The loop itself: it comes to an end in the first such turn. */
  method PgAutoExtend(start: P.System, c: nat, cycles: seq<PgCycle>) returns (r: Outcome, s: P.System)
    requires c in start.clients && start.clients[c].ttl > 0
    requires start.clients[c].expiration.Some? ==> PgGranted(start, c, start.now) && start.row.value.instance == c
    requires forall k :: 0 <= k < |cycles| ==> PgCycleOk(c, start.clients[c].ttl, cycles[k])
    requires P.Run(start, PgSteps(start.now, c, start.clients[c].ttl, cycles)).Some?
    ensures r.NotLocked? <==> start.clients[c].expiration.None?
    ensures r.NotLocked? ==> s == start
    ensures r.Lost? ==> r.k < |cycles| && Total(cycles[r.k].delays) >= start.clients[c].ttl - start.clients[c].ttl / 2
    ensures forall k :: 0 <= k < (if r.Lost? then r.k else |cycles|) && !r.NotLocked? ==>
      Total(cycles[k].delays) < start.clients[c].ttl - start.clients[c].ttl / 2
    ensures r.Alive? ==> s.row.Some? && s.row.value.instance == c
  {
    hide P.Run, P.Next, PgSteps, PgCycleOk;
    s := start;
    if s.clients[c].expiration.None? {
      return NotLocked, s;
    }
    var ttl, i := s.clients[c].ttl, 0;
    while i < |cycles|
      invariant i <= |cycles| && PgGranted(s, c, s.now) && s.row.value.instance == c && s.clients[c].ttl == ttl
      invariant P.Run(s, PgSteps(s.now, c, ttl, cycles[i..])).Some?
      invariant forall k :: 0 <= k < i ==> Total(cycles[k].delays) < ttl - ttl / 2
    {
      assert cycles[i..][0] == cycles[i] && cycles[i..][1..] == cycles[i + 1..];
      PgTurn(s, c, ttl, cycles[i..]);
      PgCycleExactly(s, c, cycles[i]);
      s := P.Run(s, cycles[i].others).value;
      var extended := P.ExtendRow(s.row, c, ttl, s.now).Some?;
      s := P.Next(s, P.Extend(c, s.now));
      if !extended {
        return Lost(i), s;
      }
      i := i + 1;
    }
    r := Alive;
  }

  // ---------- Redis ----------

  datatype RedisCycle = RedisCycle(delays: Delays, others: seq<R.Step>)

  function RedisTicks(steps: seq<R.Step>): nat {
    if steps == [] then 0 else (if steps[0].Tick? then steps[0].d else 0) + RedisTicks(steps[1..])
  }

  ghost predicate RedisCycleOk(c: nat, ttl: nat, cycle: RedisCycle) {
    && (forall i :: 0 <= i < |cycle.others| ==> cycle.others[i].Tick? || cycle.others[i].c != c)
    && RedisTicks(cycle.others) == Elapsed(cycle.delays, ttl)
  }

  /** Object `c` was granted the lock key until `until`; whoever else has it came after that. */
  ghost predicate RedisGranted(s: R.System, c: nat, until: int) {
    if s.r.lock.Some? && s.r.lock.value.id == c then s.r.lock.value.expireAt == until else until <= s.r.now
  }

  lemma {:induction false} RedisBetween(s: R.System, steps: seq<R.Step>, c: nat, until: int)
    requires RedisGranted(s, c, until)
    requires forall i :: 0 <= i < |steps| ==> steps[i].Tick? || steps[i].c != c
    ensures RedisGranted(R.Run(s, steps), c, until) && R.Run(s, steps).r.now == s.r.now + RedisTicks(steps)
    decreases |steps|
  {
    if steps != [] { RedisBetween(R.Next(s, steps[0]), steps[1..], c, until); }
  }

  function RedisSteps(c: nat, ttl: nat, cycles: seq<RedisCycle>): seq<R.Step>
    decreases |cycles|
  {
    if cycles == [] then []
    else cycles[0].others + ([R.Extend(c, R.Millis(ttl))] + RedisSteps(c, ttl, cycles[1..]))
  }

  lemma {:induction false} RedisRunSplits(s: R.System, a: seq<R.Step>, b: seq<R.Step>, c: nat)
    requires forall i :: 0 <= i < |a| ==> a[i].Tick? || a[i].c != c
    ensures R.Run(s, a + b) == R.Run(R.Run(s, a), b) && R.Refusals(s, a + b, c) == R.Refusals(R.Run(s, a), b, c)
    decreases |a|
  {
    if a == [] {
      assert a + b == b;
    } else {
      assert (a + b)[0] == a[0] && (a + b)[1..] == a[1..] + b;
      RedisRunSplits(R.Next(s, a[0]), a[1..], b, c);
    }
  }

  /** The lease of a Redis lock: its ttl, cut to milliseconds. */
  function RedisLease(ttl: nat): nat { R.Length(R.Millis(ttl)) }

  /** That is how a Redis lock begins. A lock with a ttl under a millisecond cannot be had in the first
      place. */
  lemma RedisAcquiredIsGranted(r: R.System, c: nat, ttl: nat)
    requires R.LockScript(r.r, c, R.Millis(ttl)).1 == R.Int(1)
    ensures var r' := R.Next(r, R.TryLock(c, R.Millis(ttl))).r;
      r'.lock == Some(R.Key(c, r'.now + RedisLease(ttl))) && R.Millis(ttl) > 0
  {}

  /** One turn. */
  lemma RedisCycleExactly(s: R.System, c: nat, ttl: nat, cycle: RedisCycle)
    requires s.r.lock == Some(R.Key(c, s.r.now + RedisLease(ttl))) && R.Millis(ttl) > 0 && RedisCycleOk(c, ttl, cycle)
    ensures var s1 := R.Run(s, cycle.others);
      var (r, answer) := R.ExtendScript(s1.r, c, R.Millis(ttl));
      && s1.r.now == s.r.now + Elapsed(cycle.delays, ttl)
      && (answer == R.Int(0) <==> Total(cycle.delays) >= RedisLease(ttl) - ttl / 2)
      && (answer != R.Int(0) ==>
            R.Next(s1, R.Extend(c, R.Millis(ttl))).r == r &&
            r.now == s1.r.now && r.lock == Some(R.Key(c, r.now + RedisLease(ttl))))
  {
    var s1, until := R.Run(s, cycle.others), s.r.now + RedisLease(ttl);
    RedisBetween(s, cycle.others, c, until);
    hide R.Run, RedisTicks;
    assert s1.r.HeldBy(c) <==> s1.r.now < until;
  }

  /** The same for Redis, where the lease is the ttl cut to milliseconds and the sleep is not: some
      extension is refused if and only if in some turn the delays add up to what the lease leaves over
      the sleep, or more. Until then the key names the holder. */
  lemma {:induction false} RedisAutoExtendExactly(s: R.System, c: nat, ttl: nat, cycles: seq<RedisCycle>)
    requires s.r.lock == Some(R.Key(c, s.r.now + RedisLease(ttl))) && R.Millis(ttl) > 0
    requires forall k :: 0 <= k < |cycles| ==> RedisCycleOk(c, ttl, cycles[k])
    ensures R.Refusals(s, RedisSteps(c, ttl, cycles), c) > 0 <==>
            exists k :: 0 <= k < |cycles| && Total(cycles[k].delays) >= RedisLease(ttl) - ttl / 2
    ensures R.Refusals(s, RedisSteps(c, ttl, cycles), c) == 0 ==> R.Run(s, RedisSteps(c, ttl, cycles)).r.HeldBy(c)
    decreases |cycles|
  {
    if cycles != [] {
      var cycle, x := cycles[0], R.Extend(c, R.Millis(ttl));
      var rest := RedisSteps(c, ttl, cycles[1..]);
      assert RedisSteps(c, ttl, cycles) == cycle.others + ([x] + rest);
      RedisRunSplits(s, cycle.others, [x] + rest, c);
      RedisCycleExactly(s, c, ttl, cycle);
      assert ([x] + rest)[1..] == rest;
      if Total(cycle.delays) < RedisLease(ttl) - ttl / 2 {
        RedisAutoExtendExactly(R.Next(R.Run(s, cycle.others), x), c, ttl, cycles[1..]);
      }
    }
  }

  /** The loop itself. */
  method RedisAutoExtend(start: R.System, c: nat, ttl: nat, locked: bool, cycles: seq<RedisCycle>)
    returns (r: Outcome, s: R.System)
    requires locked ==> start.r.lock == Some(R.Key(c, start.r.now + RedisLease(ttl))) && R.Millis(ttl) > 0
    requires forall k :: 0 <= k < |cycles| ==> RedisCycleOk(c, ttl, cycles[k])
    ensures r.NotLocked? <==> !locked
    ensures r.NotLocked? ==> s == start
    ensures r.Lost? ==> r.k < |cycles| && Total(cycles[r.k].delays) >= RedisLease(ttl) - ttl / 2
    ensures forall k :: 0 <= k < (if r.Lost? then r.k else |cycles|) && locked ==>
      Total(cycles[k].delays) < RedisLease(ttl) - ttl / 2
    ensures r.Alive? ==> s.r.HeldBy(c)
  {
    s := start;
    if !locked {
      return NotLocked, s;
    }
    var i := 0;
    while i < |cycles|
      invariant i <= |cycles| && s.r.lock == Some(R.Key(c, s.r.now + RedisLease(ttl)))
      invariant forall k :: 0 <= k < i ==> Total(cycles[k].delays) < RedisLease(ttl) - ttl / 2
    {
      RedisCycleExactly(s, c, ttl, cycles[i]);
      s := R.Run(s, cycles[i].others);
      var answer := R.ExtendScript(s.r, c, R.Millis(ttl)).1;
      s := R.Next(s, R.Extend(c, R.Millis(ttl)));
      if answer == R.Int(0) {
        return Lost(i), s;
      }
      i := i + 1;
    }
    r := Alive;
  }

  /** The Redis lease is never longer than the ttl, and it leaves a budget over the sleep if and only
      if the ttl is at least a millisecond. */
  lemma RedisBudget(ttl: nat)
    ensures ttl - R.NS_PER_MS < RedisLease(ttl) <= ttl && (RedisLease(ttl) - ttl / 2 >= 1 <==> ttl >= R.NS_PER_MS)
  {}
}
