/**
 Double-checked initialisation in the thread-safe map (sync/map.go): any number of goroutines run
 `LoadOrStoreFunc`, `Load` and `Delete`, one map access, lock operation or generator call at a time.
 */
module SyncMaps {
  import opened Options

  /** Where a goroutine stands in `LoadOrStoreFunc(key, ...)`. */
  datatype Pc<K, V> =
    | Idle
    | Check(key: K)
    | Lock(key: K)
    | Recheck(key: K)
    | Generating(key: K)
    | Storing(key: K, v: V)
    | Unlocking(key: K, v: V, gen: nat)
  {
    predicate Holds() { Recheck? || Generating? || Storing? || Unlocking? }
    /** The generator was called and its value is not in the map yet. */
    predicate Making() { Generating? || Storing? }
  }

  /** What a caller was given: the value, and by which generator call for that key it was made. */
  datatype Result<K, V> = Result(key: K, gen: nat, v: V)

  /** `calls` counts generator calls per key, `removals` the deletions that found a value, and `made`
      has the value of every finished generator call. They are history, like `results`. */
  datatype State<K, V> = State(
    m: map<K, V>, mutex: Option<nat>, pcs: map<nat, Pc<K, V>>,
    calls: map<K, nat>, removals: map<K, nat>, made: map<(K, nat), V>, results: seq<Result<K, V>>)
  {
    function At(g: nat): Pc<K, V> { if g in pcs then pcs[g] else Idle }
    function Go(g: nat, pc: Pc<K, V>): State<K, V> { this.(pcs := pcs[g := pc]) }
    function Calls(key: K): nat { if key in calls then calls[key] else 0 }
    function Removals(key: K): nat { if key in removals then removals[key] else 0 }
    function Give(key: K, gen: nat, v: V): State<K, V> { this.(results := results + [Result(key, gen, v)]) }
    /** The generator has been called for the key and its value is not stored yet. */
    predicate Making(key: K) { mutex.Some? && At(mutex.value).Making() && At(mutex.value).key == key }
  }

  datatype Step<K, V> =
    | Call(g: nat, key: K)
    | Advance(g: nat)
    | Generated(g: nat, v: V)
    | Load(key: K)
    | Delete(key: K)

  predicate Enabled<K, V>(s: State<K, V>, step: Step<K, V>) {
    match step
    case Call(g, _) => s.At(g).Idle?
    case Advance(g) =>
      !s.At(g).Idle? && !s.At(g).Generating? && (s.At(g).Lock? ==> s.mutex.None?)
    case Generated(g, _) => s.At(g).Generating?
    case Load(_) => true
    case Delete(_) => true
  }

  function Next<K, V>(s: State<K, V>, step: Step<K, V>): State<K, V>
    requires Enabled(s, step)
  {
    match step
    case Call(g, key) => s.Go(g, Check(key))
    case Generated(g, v) => s.Go(g, Storing(s.At(g).key, v))
    case Load(key) => if key in s.m then s.Give(key, s.Calls(key), s.m[key]) else s
    case Delete(key) =>
      if key in s.m then s.(m := s.m - {key}, removals := s.removals[key := s.Removals(key) + 1]) else s
    case Advance(g) =>
      match s.At(g)
      case Check(key) =>
        if key in s.m then s.Go(g, Idle).Give(key, s.Calls(key), s.m[key]) else s.Go(g, Lock(key))
      case Lock(key) => s.Go(g, Recheck(key)).(mutex := Some(g))
      case Recheck(key) =>
        if key in s.m then s.Go(g, Unlocking(key, s.m[key], s.Calls(key)))
        else s.Go(g, Generating(key)).(calls := s.calls[key := s.Calls(key) + 1])
      case Storing(key, v) =>
        s.Go(g, Unlocking(key, v, s.Calls(key))).(m := s.m[key := v], made := s.made[(key, s.Calls(key)) := v])
      case Unlocking(key, v, gen) => s.Go(g, Idle).(mutex := None).Give(key, gen, v)
      case _ => s
  }

  ghost predicate PcOk<K, V>(s: State<K, V>, g: nat) {
    var pc := s.At(g);
    && (pc.Holds() ==> s.mutex == Some(g))
    && (pc.Making() ==> pc.key !in s.m)
    && (pc.Unlocking? ==> Made(s, pc.key, pc.gen, pc.v))
  }

  /** Generator call number `gen` for the key made `v`. */
  ghost predicate Made<K, V>(s: State<K, V>, key: K, gen: nat, v: V) {
    (key, gen) in s.made && s.made[(key, gen)] == v
  }

  /** Every generator call for a key but the last is paid for by a deletion. */
  predicate Paid<K, V>(s: State<K, V>, key: K) {
    s.Calls(key) == s.Removals(key) + (if key in s.m || s.Making(key) then 1 else 0)
  }

  /** The generator calls of a key are numbered, and the last is not over while its value is made. */
  ghost predicate Numbered<K, V>(s: State<K, V>, key: K) {
    forall gen: nat :: (key, gen) in s.made ==>
      1 <= gen && (gen < s.Calls(key) || (gen == s.Calls(key) && !s.Making(key)))
  }

  ghost predicate KeyOk<K(!new), V>(s: State<K, V>, key: K) {
    Paid(s, key) && Numbered(s, key) && (key in s.m ==> Made(s, key, s.Calls(key), s.m[key]))
  }

  ghost predicate Inv<K(!new), V(!new)>(s: State<K, V>) {
    && (forall g: nat :: PcOk(s, g))
    && (forall key :: KeyOk(s, key))
    && (forall r :: r in s.results ==> Made(s, r.key, r.gen, r.v))
  }

  /** A value once made is not made again. */
  lemma StepKeepsMade<K(!new), V(!new)>(s: State<K, V>, step: Step<K, V>, key: K, gen: nat, v: V)
    requires Inv(s) && Enabled(s, step) && Made(s, key, gen, v)
    ensures Made(Next(s, step), key, gen, v)
  {
    assert KeyOk(s, key);
    if step.Advance? { assert PcOk(s, step.g); }
  }

  lemma StepKeepsPcs<K(!new), V(!new)>(s: State<K, V>, step: Step<K, V>)
    requires Inv(s) && Enabled(s, step)
    ensures forall g: nat :: PcOk(Next(s, step), g)
  {
    var s' := Next(s, step);
    forall g: nat ensures PcOk(s', g) {
      assert PcOk(s, g);
      if s.At(g).Unlocking? { StepKeepsMade(s, step, s.At(g).key, s.At(g).gen, s.At(g).v); }
      if !step.Load? && !step.Delete? {
        assert PcOk(s, step.g);
        if s.At(step.g).Recheck? { assert KeyOk(s, s.At(step.g).key); }
      }
    }
  }

  /** What one step of a goroutine does to the shared state. */
  lemma AdvanceFrame<K, V>(s: State<K, V>, g: nat)
    requires Enabled(s, Advance(g))
    ensures var s', pc := Next(s, Advance(g)), s.At(g);
      && s'.removals == s.removals && s'.pcs == s.pcs[g := s'.At(g)]
      && s'.m == (if pc.Storing? then s.m[pc.key := pc.v] else s.m)
      && s'.made == (if pc.Storing? then s.made[(pc.key, s.Calls(pc.key)) := pc.v] else s.made)
      && s'.mutex == (if pc.Lock? then Some(g) else if pc.Unlocking? then None else s.mutex)
      && (if pc.Recheck? && pc.key !in s.m
          then s'.calls == s.calls[pc.key := s.Calls(pc.key) + 1] && s'.At(g) == Generating(pc.key)
          else s'.calls == s.calls && !s'.At(g).Making())
  {
    var s' := Next(s, Advance(g));
    match s.At(g)
    case Check(key) =>
      assert s' == (if key in s.m then s.Go(g, Idle).Give(key, s.Calls(key), s.m[key]) else s.Go(g, Lock(key)));
    case Lock(key) => assert s' == s.Go(g, Recheck(key)).(mutex := Some(g));
    case Recheck(key) =>
    case Storing(key, v) =>
      assert s' == s.Go(g, Unlocking(key, v, s.Calls(key)))
        .(m := s.m[key := v], made := s.made[(key, s.Calls(key)) := v]);
    case Unlocking(key, v, gen) => assert s' == s.Go(g, Idle).(mutex := None).Give(key, gen, v);
  }

  lemma AdvanceKeepsPaid<K, V>(s: State<K, V>, g: nat, key: K)
    requires Enabled(s, Advance(g)) && Paid(s, key) && PcOk(s, g) && (s.mutex.Some? ==> PcOk(s, s.mutex.value))
    ensures Paid(Next(s, Advance(g)), key)
  {
    hide Made;
    AdvanceFrame(s, g);
    hide Next;
  }

  lemma StepKeepsPaid<K(!new), V(!new)>(s: State<K, V>, step: Step<K, V>, key: K)
    requires Inv(s) && Enabled(s, step)
    ensures Paid(Next(s, step), key)
  {
    assert KeyOk(s, key) && Paid(s, key);
    if step.Advance? {
      assert PcOk(s, step.g);
      if s.mutex.Some? { assert PcOk(s, s.mutex.value); }
      hide Inv, KeyOk, Made;
      AdvanceKeepsPaid(s, step.g, key);
    } else {
      if step.Generated? { assert PcOk(s, step.g); }
      if s.mutex.Some? { assert PcOk(s, s.mutex.value); }
      hide Inv, KeyOk, Made;
    }
  }

  lemma StepKeepsNumbered<K(!new), V(!new)>(s: State<K, V>, step: Step<K, V>, key: K)
    requires Inv(s) && Enabled(s, step)
    ensures Numbered(Next(s, step), key)
  {
    var s' := Next(s, step);
    assert KeyOk(s, key);
    if !step.Load? && !step.Delete? { assert PcOk(s, step.g); }
    if s.mutex.Some? { assert PcOk(s, s.mutex.value); }
    hide Inv, KeyOk, Paid, Made;
    if step.Advance? {
      AdvanceFrame(s, step.g);
      hide Next;
      forall gen: nat | (key, gen) in s'.made
        ensures 1 <= gen && (gen < s'.Calls(key) || (gen == s'.Calls(key) && !s'.Making(key)))
      {
        assert (key, gen) in s.made || (s.At(step.g).Storing? && gen == s.Calls(key));
      }
    }
  }

  lemma StepKeepsCurrent<K(!new), V(!new)>(s: State<K, V>, step: Step<K, V>, key: K)
    requires Inv(s) && Enabled(s, step)
    ensures key in Next(s, step).m ==> Made(Next(s, step), key, Next(s, step).Calls(key), Next(s, step).m[key])
  {
    assert KeyOk(s, key);
    if key in s.m { StepKeepsMade(s, step, key, s.Calls(key), s.m[key]); }
    if step.Advance? { assert PcOk(s, step.g); }
    hide Numbered;
  }

  lemma StepKeepsKeys<K(!new), V(!new)>(s: State<K, V>, step: Step<K, V>)
    requires Inv(s) && Enabled(s, step)
    ensures forall key :: KeyOk(Next(s, step), key)
  {
    hide Inv, Next, Paid, Numbered, Made;
    forall key ensures KeyOk(Next(s, step), key) {
      StepKeepsPaid(s, step, key);
      StepKeepsNumbered(s, step, key);
      StepKeepsCurrent(s, step, key);
    }
  }

  lemma StepKeepsInv<K(!new), V(!new)>(s: State<K, V>, step: Step<K, V>)
    requires Inv(s) && Enabled(s, step)
    ensures Inv(Next(s, step))
    ensures forall key :: key in s.m && step != Delete(key) ==>
      key in Next(s, step).m && Next(s, step).m[key] == s.m[key]
  {
    StepKeepsPcs(s, step);
    StepKeepsKeys(s, step);
    StepKeepsResults(s, step);
    if step.Advance? { assert PcOk(s, step.g); }
  }

  lemma StepKeepsResults<K(!new), V(!new)>(s: State<K, V>, step: Step<K, V>)
    requires Inv(s) && Enabled(s, step)
    ensures forall r :: r in Next(s, step).results ==> Made(Next(s, step), r.key, r.gen, r.v)
  {
    var s' := Next(s, step);
    forall r | r in s'.results ensures Made(s', r.key, r.gen, r.v) {
      assert KeyOk(s, r.key);
      if step.Advance? { assert PcOk(s, step.g); }
      assert r in s.results || (r.key in s.m && r.gen == s.Calls(r.key) && r.v == s.m[r.key])
        || (step.Advance? && s.At(step.g) == Unlocking(r.key, r.v, r.gen));
      hide Next, Made, Paid, Numbered;
      StepKeepsMade(s, step, r.key, r.gen, r.v);
    }
  }

  function Run<K, V>(s: State<K, V>, steps: seq<Step<K, V>>): Option<State<K, V>>
    decreases |steps|
  {
    if steps == [] then Some(s)
    else if !Enabled(s, steps[0]) then None
    else Run(Next(s, steps[0]), steps[1..])
  }

  function Start<K, V>(): State<K, V> { State(map[], None, map[], map[], map[], map[], []) }

  lemma {:induction false} RunKeepsInv<K(!new), V(!new)>(s: State<K, V>, steps: seq<Step<K, V>>)
    requires Inv(s) && Run(s, steps).Some?
    ensures Inv(Run(s, steps).value)
    decreases |steps|
  {
    if steps != [] {
      hide Inv, Next;
      StepKeepsInv(s, steps[0]);
      RunKeepsInv(Next(s, steps[0]), steps[1..]);
    }
  }

  lemma RunsAreOk<K(!new), V(!new)>(steps: seq<Step<K, V>>)
    requires Run(Start<K, V>(), steps).Some?
    ensures Inv(Run(Start<K, V>(), steps).value)
  {
    var s0 := Start<K, V>();
    assert Inv(s0) by {
      forall g: nat ensures PcOk(s0, g) {}
      forall k: K ensures KeyOk(s0, k) {}
    }
    RunKeepsInv(s0, steps);
  }

  /** Initialise once: over every run the generator is called for a key once more than its value was
      deleted, at most, and all callers that are given the value of one generator call are given the
      same. Without deletions there is one call, and the value in the map is the one all callers get. */
  lemma InitialiseOnce<K(!new), V(!new)>(steps: seq<Step<K, V>>, a: Result<K, V>, b: Result<K, V>)
    requires Run(Start<K, V>(), steps).Some? && a.key == b.key
    ensures var s := Run(Start<K, V>(), steps).value; var key := a.key;
      && s.Removals(key) <= s.Calls(key) <= s.Removals(key) + 1
      && (key in s.m ==> s.Calls(key) == s.Removals(key) + 1)
      && (a in s.results ==> 1 <= a.gen <= s.Calls(key))
      && (a in s.results && b in s.results && a.gen == b.gen ==> a.v == b.v)
      && (a in s.results && s.Removals(key) == 0 ==> key in s.m && s.m[key] == a.v && s.Calls(key) == 1)
  {
    RunsAreOk(steps);
    var s := Run(Start<K, V>(), steps).value;
    assert KeyOk(s, a.key);
    if a in s.results { assert Made(s, a.key, a.gen, a.v); }
    if b in s.results { assert Made(s, b.key, b.gen, b.v); }
    if s.mutex.Some? { assert PcOk(s, s.mutex.value); }
  }

  /** Exactly which steps call the generator again for a key that had it called before: the second
      look of a caller behind the lock, at a key whose value has been deleted and is missing. */
  lemma CalledAgainExactly<K(!new), V(!new)>(s: State<K, V>, step: Step<K, V>, key: K)
    requires Inv(s) && Enabled(s, step)
    ensures Next(s, step).Calls(key) > s.Calls(key) && s.Calls(key) >= 1 <==>
            step.Advance? && s.At(step.g) == Recheck(key) && key !in s.m && s.Removals(key) >= 1
  {
    assert KeyOk(s, key);
    if step.Advance? { assert PcOk(s, step.g); }
  }

  lemma {:induction false} RunOn<K, V>(s: State<K, V>, a: seq<Step<K, V>>, b: seq<Step<K, V>>)
    requires Run(s, a).Some?
    ensures Run(s, a + b) == Run(Run(s, a).value, b)
    decreases |a|
  {
    if a == [] {
      assert a + b == b;
    } else {
      assert (a + b)[1..] == a[1..] + b;
      RunOn(Next(s, a[0]), a[1..], b);
    }
  }

  lemma Then<K, V>(s: State<K, V>, steps: seq<Step<K, V>>, m: State<K, V>, step: Step<K, V>)
    returns (steps': seq<Step<K, V>>, m': State<K, V>)
    requires Run(s, steps) == Some(m) && Enabled(m, step)
    ensures steps' == steps + [step] && m' == Next(m, step) && Run(s, steps') == Some(m')
  {
    steps', m' := steps + [step], Next(m, step);
    RunOn(s, steps, [step]);
    assert [step][1..] == [];
  }

  /** Goroutine 0 finds the key missing and comes as far as calling the generator. */
  lemma CallGenerates<K, V>(s: State<K, V>, steps: seq<Step<K, V>>, m: State<K, V>, key: K)
    returns (steps': seq<Step<K, V>>, m': State<K, V>)
    requires Run(s, steps) == Some(m) && m.At(0).Idle? && m.mutex.None? && key !in m.m
    ensures Run(s, steps') == Some(m') && steps' == steps + [Call(0, key), Advance(0), Advance(0), Advance(0)]
    ensures m' == m.(pcs := m.pcs[0 := Generating(key)], mutex := Some(0), calls := m.calls[key := m.Calls(key) + 1])
  {
    hide Run;
    steps', m' := Then(s, steps, m, Call(0, key));
    steps', m' := Then(s, steps', m', Advance(0));
    steps', m' := Then(s, steps', m', Advance(0));
    steps', m' := Then(s, steps', m', Advance(0));
    assert m.pcs[0 := Check(key)][0 := Lock(key)][0 := Recheck(key)][0 := Generating(key)]
      == m.pcs[0 := Generating(key)];
  }

  /** A whole call of `LoadOrStoreFunc` by goroutine 0 that finds the key missing. */
  lemma WholeCall<K, V>(s: State<K, V>, steps: seq<Step<K, V>>, m: State<K, V>, key: K, v: V)
    returns (steps': seq<Step<K, V>>, m': State<K, V>)
    requires Run(s, steps) == Some(m) && m.At(0).Idle? && m.mutex.None? && key !in m.m
    ensures Run(s, steps') == Some(m')
    ensures steps' == steps +
            [Call(0, key), Advance(0), Advance(0), Advance(0), Generated(0, v), Advance(0), Advance(0)]
    ensures m'.At(0).Idle? && m'.mutex.None? && m'.m == m.m[key := v] && m'.removals == m.removals
    ensures m'.Calls(key) == m.Calls(key) + 1 && m'.results == m.results + [Result(key, m.Calls(key) + 1, v)]
  {
    hide Run;
    steps', m' := CallGenerates(s, steps, m, key);
    steps', m' := Then(s, steps', m', Generated(0, v));
    steps', m' := Then(s, steps', m', Advance(0));
    steps', m' := Then(s, steps', m', Advance(0));
  }

  /** A caller that finds its key present is given the value that is in the map, and nothing changes. */
  lemma PresentAlone<K, V>(s: State<K, V>, g: nat, key: K) returns (s': State<K, V>)
    requires s.At(g).Idle? && key in s.m
    ensures Run(s, [Call(g, key), Advance(g)]) == Some(s')
    ensures s'.At(g).Idle? && s'.mutex == s.mutex && s'.m == s.m && s'.calls == s.calls
    ensures s'.results == s.results + [Result(key, s.Calls(key), s.m[key])]
  {
    var steps := [];
    assert Run(s, steps) == Some(s);
    hide Run;
    steps, s' := Then(s, steps, s, Call(g, key));
    steps, s' := Then(s, steps, s', Advance(g));
  }

  /** One that finds it present at the second look, behind the lock, is given that value too. */
  lemma LateAlone<K, V>(s: State<K, V>, g: nat, key: K) returns (s': State<K, V>)
    requires s.At(g) == Lock(key) && s.mutex.None? && key in s.m
    ensures Run(s, [Advance(g), Advance(g), Advance(g)]) == Some(s')
    ensures s'.At(g).Idle? && s'.mutex.None? && s'.m == s.m && s'.calls == s.calls
    ensures s'.results == s.results + [Result(key, s.Calls(key), s.m[key])]
  {
    var steps := [];
    assert Run(s, steps) == Some(s);
    hide Run;
    steps, s' := Then(s, steps, s, Advance(g));
    steps, s' := Then(s, steps, s', Advance(g));
    steps, s' := Then(s, steps, s', Advance(g));
  }

  /** A run in which a deletion makes the generator be called twice for one key, with two values. */
  lemma DeleteStartsOver<K(!new), V(!new)>(key: K, v: V, w: V) returns (steps: seq<Step<K, V>>)
    ensures steps ==
      [Call(0, key), Advance(0), Advance(0), Advance(0), Generated(0, v), Advance(0), Advance(0), Delete(key),
       Call(0, key), Advance(0), Advance(0), Advance(0), Generated(0, w), Advance(0), Advance(0)]
    ensures Run(Start<K, V>(), steps).Some?
    ensures var s := Run(Start<K, V>(), steps).value;
      s.Calls(key) == 2 && s.Removals(key) == 1 && s.results == [Result(key, 1, v), Result(key, 2, w)]
  {
    var s := Start<K, V>();
    var m := s;
    steps := [];
    assert Run(s, steps) == Some(s);
    hide Run;
    steps, m := WholeCall(s, steps, m, key, v);
    steps, m := Then(s, steps, m, Delete(key));
    steps, m := WholeCall(s, steps, m, key, w);
  }

  // ---------- the object ----------

  class Map<K(==), V> {
    var entries: map<K, V>
    var locked: bool

    constructor ()
      ensures entries == map[] && !locked
    {
      entries, locked := map[], false;
    }

    method Load(key: K) returns (r: Option<V>)
      ensures r == if key in entries then Some(entries[key]) else None
    {
      r := if key in entries then Some(entries[key]) else None;
    }

    method Store(key: K, value: V)
      modifies this`entries
      ensures entries == old(entries)[key := value]
    {
      entries := entries[key := value];
    }

    method Delete(key: K)
      modifies this`entries
      ensures entries == old(entries) - {key}
    {
      entries := entries - {key};
    }

    /** Waiting for the lock: when it is had, others may have changed the map in any way. */
    method Lock()
      modifies this
      ensures locked
    {
      var changed: map<K, V> := *;
      entries, locked := changed, true;
    }

    /** `seen` is the map as it was when the lock was had. */
    method LoadOrStoreFunc(key: K, generator: K -> V) returns (value: V, ghost seen: map<K, V>)
      modifies this
      ensures key in entries && entries[key] == value
      ensures old(key in entries) ==> entries == old(entries) && locked == old(locked)
      ensures old(key !in entries) ==>
        !locked && entries == if key in seen then seen else seen[key := generator(key)]
    {
      var found := Load(key);
      if found.Some? {
        return found.value, entries;
      }
      Lock();
      seen := entries;
      found := Load(key);
      if found.Some? {
        value := found.value;
      } else {
        value := generator(key);
        Store(key, value);
      }
      locked := false;
    }
  }
}
