/**
 Nested transactions by savepoint (database/database.go). Postgres keeps one stack of savepoints
 per transaction; every sub-transaction hangs off the root, and the savepoint of one that was
 rolled back stays on the stack. The meaning proved of it is the nested one.
 */
module NestedTransactions {
  import opened Options

  type Data = map<string, int>

  datatype Savepoint = Savepoint(name: nat, snapshot: Data)

  /** The open transaction at the server. */
  datatype Session = Session(current: Data, savepoints: seq<Savepoint>)

  // ---------- the server ----------

  /** The topmost savepoint with a name, or -1. */
  function Find(sps: seq<Savepoint>, name: nat): (i: int)
    ensures -1 <= i < |sps|
    ensures i >= 0 ==> sps[i].name == name
    ensures forall k :: i < k < |sps| ==> sps[k].name != name
  {
    if sps == [] then -1
    else if sps[|sps| - 1].name == name then |sps| - 1
    else Find(sps[..|sps| - 1], name)
  }

  function SavepointAt(s: Session, name: nat): Session {
    s.(savepoints := s.savepoints + [Savepoint(name, s.current)])
  }

  /** RELEASE SAVEPOINT drops the savepoint and those above it, and keeps the data. */
  function Release(s: Session, name: nat): Session {
    var i := Find(s.savepoints, name);
    if i < 0 then s else s.(savepoints := s.savepoints[..i])
  }

  /** ROLLBACK TO SAVEPOINT restores the data, drops those above it, and keeps the savepoint. */
  function RollbackTo(s: Session, name: nat): Session {
    var i := Find(s.savepoints, name);
    if i < 0 then s else Session(s.savepoints[i].snapshot, s.savepoints[..i + 1])
  }

  // ---------- well-nested programs ----------

  datatype Op = Put(key: string, val: int) | Sub(body: seq<Op>, commit: bool)

  /** How many sub-transactions a program opens, at any depth. */
  function Subs(body: seq<Op>): nat
    decreases body
  {
    if body == [] then 0
    else (if body[0].Sub? then 1 + Subs(body[0].body) else 0) + Subs(body[1..])
  }

  /** What the server goes through: `names(n)` is the name of the n-th savepoint. */
  function Run(s: Session, body: seq<Op>, names: nat -> nat, n: nat): Session
    decreases body
  {
    if body == [] then s
    else match body[0]
      case Put(key, val) => Run(s.(current := s.current[key := val]), body[1..], names, n)
      case Sub(inner, commit) =>
        var s1 := Run(SavepointAt(s, names(n)), inner, names, n + 1);
        var s2 := if commit then Release(s1, names(n)) else RollbackTo(s1, names(n));
        Run(s2, body[1..], names, n + 1 + Subs(inner))
  }

  // ---------- the nested meaning ----------

  datatype Write = Write(key: string, val: int)

  /** The writes of a program whose every enclosing sub-transaction committed. */
  function Kept(body: seq<Op>, live: bool): seq<Write>
    decreases body
  {
    if body == [] then []
    else (match body[0]
          case Put(key, val) => if live then [Write(key, val)] else []
          case Sub(inner, commit) => Kept(inner, live && commit))
         + Kept(body[1..], live)
  }

  function Publish(d: Data, writes: seq<Write>): Data
    decreases |writes|
  {
    if writes == [] then d else Publish(d[writes[0].key := writes[0].val], writes[1..])
  }

  lemma {:induction false} PublishSplit(d: Data, a: seq<Write>, b: seq<Write>)
    ensures Publish(d, a + b) == Publish(Publish(d, a), b)
    decreases |a|
  {
    if a == [] {
      assert a + b == b;
    } else {
      assert (a + b)[1..] == a[1..] + b;
      PublishSplit(d[a[0].key := a[0].val], a[1..], b);
    }
  }

  lemma {:induction false} DeadKeepsNothing(body: seq<Op>)
    ensures Kept(body, false) == []
    decreases body
  {
    if body != [] {
      if body[0].Sub? { DeadKeepsNothing(body[0].body); }
      DeadKeepsNothing(body[1..]);
    }
  }

  ghost predicate Distinct(names: nat -> nat) {
    forall i: nat, j: nat :: i < j ==> names(i) != names(j)
  }

  /** Every savepoint on the stack has one of the names from `lo` up to `hi`. */
  ghost predicate Named(sps: seq<Savepoint>, names: nat -> nat, lo: nat, hi: nat) {
    forall k :: 0 <= k < |sps| ==> IsName(sps[k].name, names, lo, hi)
  }

  ghost predicate IsName(name: nat, names: nat -> nat, lo: nat, hi: nat) {
    exists i: nat :: lo <= i < hi && names(i) == name
  }

  lemma NotAmong(sps: seq<Savepoint>, names: nat -> nat, lo: nat, hi: nat, n: nat)
    requires Distinct(names) && Named(sps, names, lo, hi) && (n < lo || hi <= n)
    ensures forall k :: 0 <= k < |sps| ==> sps[k].name != names(n)
  {
    forall k | 0 <= k < |sps| ensures sps[k].name != names(n) {
      assert IsName(sps[k].name, names, lo, hi);
      var i: nat :| lo <= i < hi && names(i) == sps[k].name;
      assert i < n || n < i;
    }
  }

  /** No savepoint on top of a sub-transaction's own has its name. */
  ghost predicate NoneNamed(above: seq<Savepoint>, name: nat) {
    forall k :: 0 <= k < |above| ==> above[k].name != name
  }

  /** A sub-transaction finds its own savepoint, right above the stack it was opened on, if and only
      if none of those left above it has its name. */
  lemma FindOwn(base: seq<Savepoint>, own: Savepoint, above: seq<Savepoint>)
    ensures Find(base + [own] + above, own.name) == |base| <==> NoneNamed(above, own.name)
    ensures Find(base + [own] + above, own.name) >= |base|
  {
    hide Find;
    var sps := base + [own] + above;
    assert sps[|base|] == own;
    forall k | 0 <= k < |above| ensures sps[|base| + 1 + k] == above[k] {}
    var i := Find(sps, own.name);
    if i > |base| {
      assert above[i - |base| - 1].name == own.name;
    }
  }

  /** So a commit takes the stack back to where the sub-transaction was opened, and a rollback takes
      data and stack back to its savepoint, if and only if none of those left above has its name. */
  lemma EndsExactly(base: seq<Savepoint>, own: Savepoint, above: seq<Savepoint>, current: Data)
    ensures var s := Session(current, base + [own] + above);
      && (Release(s, own.name) == Session(current, base) <==> NoneNamed(above, own.name))
      && (RollbackTo(s, own.name) == Session(own.snapshot, base + [own]) <==> NoneNamed(above, own.name))
  {
    FindOwn(base, own, above);
    var sps := base + [own] + above;
    var i := Find(sps, own.name);
    hide Find;
    assert sps[..|base|] == base && sps[..|base| + 1] == base + [own] && sps[|base|] == own;
    assert |sps[..i]| == i && |sps[..i + 1]| == i + 1;
  }

  /** The data changed by the kept writes, the stack below as it was, and above it only savepoints
      of the program. */
  ghost predicate Means(s: Session, body: seq<Op>, names: nat -> nat, n: nat, s': Session) {
    && s'.current == Publish(s.current, Kept(body, true))
    && s.savepoints <= s'.savepoints
    && Named(s'.savepoints[|s.savepoints|..], names, n, n + Subs(body))
  }

  /** From any stack: a program changes the data by its kept writes, leaves the stack below alone,
      and leaves above it only savepoints of its own. */
  lemma {:induction false} RunMeaning(s: Session, body: seq<Op>, names: nat -> nat, n: nat)
    requires Distinct(names)
    ensures Means(s, body, names, n, Run(s, body, names, n))
    decreases body, 2
  {
    if body != [] {
      if body[0].Put? {
        PutThen(s, body, names, n);
      } else {
        SubThen(s, body, names, n);
      }
    }
  }

  lemma {:induction false} PutThen(s: Session, body: seq<Op>, names: nat -> nat, n: nat)
    requires Distinct(names) && body != [] && body[0].Put?
    ensures Means(s, body, names, n, Run(s, body, names, n))
    decreases body, 1
  {
    var w := Write(body[0].key, body[0].val);
    RunMeaning(s.(current := s.current[w.key := w.val]), body[1..], names, n);
    assert ([w] + Kept(body[1..], true))[1..] == Kept(body[1..], true);
  }

  lemma MeaningOfSub(body: seq<Op>, n: nat)
    requires body != [] && body[0].Sub?
    ensures Kept(body, true) == Kept(body[0].body, body[0].commit) + Kept(body[1..], true)
    ensures n + 1 + Subs(body[0].body) + Subs(body[1..]) == n + Subs(body)
  {}

  /** A sub-transaction and what comes after it. */
  lemma SubChains(s: Session, s2: Session, s': Session, body: seq<Op>, names: nat -> nat, n: nat)
    requires body != [] && body[0].Sub?
    requires s2.current == Publish(s.current, Kept(body[0].body, body[0].commit)) && s.savepoints <= s2.savepoints
    requires Named(s2.savepoints[|s.savepoints|..], names, n, n + 1 + Subs(body[0].body))
    requires Means(s2, body[1..], names, n + 1 + Subs(body[0].body), s')
    ensures Means(s, body, names, n, s')
  {
    var m := n + 1 + Subs(body[0].body);
    MeaningOfSub(body, n);
    hide Named, Kept, Publish, Subs;
    PublishSplit(s.current, Kept(body[0].body, body[0].commit), Kept(body[1..], true));
    StackAdds(s.savepoints, s2.savepoints, s'.savepoints, names, n, m, m + Subs(body[1..]));
  }

  lemma {:induction false} SubThen(s: Session, body: seq<Op>, names: nat -> nat, n: nat)
    requires Distinct(names) && body != [] && body[0].Sub?
    ensures Means(s, body, names, n, Run(s, body, names, n))
    decreases body, 1
  {
    hide Distinct, Named, Release, RollbackTo, SavepointAt, Means, Kept, Publish;
    var inner, commit := body[0].body, body[0].commit;
    var s2 := SubRun(s, inner, commit, names, n);
    var m := n + 1 + Subs(inner);
    var s' := Run(s2, body[1..], names, m);
    assert Run(s, body, names, n) == s';
    hide Run, Subs;
    RunMeaning(s2, body[1..], names, m);
    SubChains(s, s2, s', body, names, n);
  }

  lemma NamedOwn(own: Savepoint, names: nat -> nat, n: nat, hi: nat)
    requires own.name == names(n) && n < hi
    ensures Named([own], names, n, hi) && Named([], names, n, hi)
  {
    assert IsName(own.name, names, n, hi);
  }

  lemma PublishNothing(d: Data)
    ensures Publish(d, []) == d
  {}

  /** The end of one sub-transaction. */
  lemma SubEnds(s: Session, s1: Session, inner: seq<Op>, commit: bool, names: nat -> nat, n: nat)
    requires Distinct(names) && Means(SavepointAt(s, names(n)), inner, names, n + 1, s1)
    ensures var s2 := if commit then Release(s1, names(n)) else RollbackTo(s1, names(n));
      && s2.current == Publish(s.current, Kept(inner, commit))
      && s.savepoints <= s2.savepoints
      && Named(s2.savepoints[|s.savepoints|..], names, n, n + 1 + Subs(inner))
  {
    hide Release, RollbackTo, Kept, Distinct, IsName, Named, Publish, Subs;
    var base, own := s.savepoints, Savepoint(names(n), s.current);
    var above := s1.savepoints[|base| + 1..];
    assert s1.savepoints == base + [own] + above;
    NotAmong(above, names, n + 1, n + 1 + Subs(inner), n);
    NamedOwn(own, names, n, n + 1 + Subs(inner));
    EndsExactly(base, own, above, s1.current);
    if commit {
      assert base[|base|..] == [];
    } else {
      DeadKeepsNothing(inner);
      PublishNothing(s.current);
      assert (base + [own])[|base|..] == [own];
    }
  }

  /** One sub-transaction. */
  lemma {:induction false} SubRun(s: Session, inner: seq<Op>, commit: bool, names: nat -> nat, n: nat)
    returns (s2: Session)
    requires Distinct(names)
    ensures var s1 := Run(SavepointAt(s, names(n)), inner, names, n + 1);
      s2 == if commit then Release(s1, names(n)) else RollbackTo(s1, names(n))
    ensures s2.current == Publish(s.current, Kept(inner, commit))
    ensures s.savepoints <= s2.savepoints
    ensures Named(s2.savepoints[|s.savepoints|..], names, n, n + 1 + Subs(inner))
    decreases inner, 3
  {
    var s0 := SavepointAt(s, names(n));
    var s1 := Run(s0, inner, names, n + 1);
    RunMeaning(s0, inner, names, n + 1);
    s2 := if commit then Release(s1, names(n)) else RollbackTo(s1, names(n));
    hide Run, Release, RollbackTo;
    SubEnds(s, s1, inner, commit, names, n);
  }

  lemma StackAdds(a: seq<Savepoint>, b: seq<Savepoint>, c: seq<Savepoint>, names: nat -> nat,
                  lo: nat, mid: nat, hi: nat)
    requires a <= b <= c && lo <= mid <= hi
    requires Named(b[|a|..], names, lo, mid) && Named(c[|b|..], names, mid, hi)
    ensures Named(c[|a|..], names, lo, hi)
  {
    var d := c[|a|..];
    forall k | 0 <= k < |d| ensures IsName(d[k].name, names, lo, hi) {
      if k < |b| - |a| {
        assert d[k] == b[|a|..][k];
        Widen(d[k].name, names, lo, mid, lo, hi);
      } else {
        assert d[k] == c[|b|..][k - (|b| - |a|)];
        Widen(d[k].name, names, mid, hi, lo, hi);
      }
    }
  }

  lemma Widen(name: nat, names: nat -> nat, lo: nat, hi: nat, lo': nat, hi': nat)
    requires IsName(name, names, lo, hi) && lo' <= lo && hi <= hi'
    ensures IsName(name, names, lo', hi')
  {}

  /** Two savepoints with one name: the outer sub-transaction is rolled back, but the server finds
      the inner one's savepoint, which stayed on the stack, and the outer write survives. */
  lemma SameNameBreaks()
    ensures var body := [Sub([Put("x", 1), Sub([], false)], false)];
      && Run(Session(map[], []), body, _ => 0, 0).current == map["x" := 1]
      && Publish(map[], Kept(body, true)) == map[]
  {
    var inner := [Put("x", 1), Sub([], false)];
    var body := [Sub(inner, false)];
    var names: nat -> nat := _ => 0;
    var a := Savepoint(0, map[]);
    var s0 := Session(map[], [a]);
    assert SavepointAt(Session(map[], []), 0) == s0;
    var s1 := Session(map["x" := 1], [a]);
    var b := Savepoint(0, map["x" := 1]);
    assert SavepointAt(s1, 0) == Session(map["x" := 1], [a, b]);
    var s2 := Session(map["x" := 1], [a, b]);
    assert Run(s2, [], names, 2) == s2;
    assert Find([a, b], 0) == 1;
    assert RollbackTo(s2, 0) == s2;
    assert inner[1..] == [Sub([], false)] && inner[1..][1..] == [];
    assert Run(s1, inner[1..], names, 1) == s2;
    assert Run(s0, inner, names, 1) == s2;
    assert body[1..] == [];
    DeadKeepsNothing(inner);
  }

  // ---------- the objects ----------

  /** How a call ends: well, with `sql.ErrTxDone`, or with the panic that any use of a closed
      transaction ends in, because its `DB` has been replaced by an empty one. */
  datatype Outcome = Fine | TxDone | Panicked

  /** The database, and the transaction open on the connection. `names` stands for the clock and
      random numbers that savepoint names are made of. */
  class Server {
    const names: nat -> nat
    var issued: nat
    var committed: Data
    var session: Option<Session>

    constructor (names: nat -> nat, committed: Data)
      ensures this.names == names && this.committed == committed && session.None? && issued == 0
    {
      this.names, this.committed, session, issued := names, committed, None, 0;
    }

    method NewName() returns (name: nat)
      modifies this`issued
      ensures name == names(old(issued)) && issued == old(issued) + 1
    {
      name := names(issued);
      issued := issued + 1;
    }
  }

  class DBTx {
    const server: Server
    const parentTx: DBTx?
    const savePoint: nat
    var closed: bool

    constructor (server: Server, parentTx: DBTx?, savePoint: nat)
      ensures this.server == server && this.parentTx == parentTx && this.savePoint == savePoint && !closed
    {
      this.server, this.parentTx, this.savePoint, closed := server, parentTx, savePoint, false;
    }

    method Commit() returns (r: Outcome)
      modifies this`closed, server`session, server`committed
      ensures closed
      ensures old(closed) ==> r.Panicked?
      ensures old(!closed && server.session.None?) ==> r.TxDone?
      ensures old(closed || server.session.None?) ==>
        server.session == old(server.session) && server.committed == old(server.committed)
      ensures old(!closed && server.session.Some?) && parentTx == null ==>
        r.Fine? && server.session.None? && server.committed == old(server.session).value.current
      ensures old(!closed && server.session.Some?) && parentTx != null ==>
        r.Fine? && server.committed == old(server.committed) &&
        server.session == Some(Release(old(server.session).value, savePoint))
    {
      if closed {
        return Panicked;
      }
      closed := true;
      if server.session.None? {
        return TxDone;
      }
      if parentTx != null {
        server.session := Some(Release(server.session.value, savePoint));
      } else {
        server.committed, server.session := server.session.value.current, None;
      }
      r := Fine;
    }

    method Rollback() returns (r: Outcome)
      modifies this`closed, server`session
      ensures closed
      ensures old(closed || (parentTx != null && parentTx.closed)) ==> r.Panicked?
      ensures !r.Fine? ==> server.session == old(server.session)
      ensures old(!closed && server.session.Some?) && parentTx == null ==> r.Fine? && server.session.None?
      ensures old(!closed && server.session.Some? && parentTx != null && !parentTx.closed) ==>
        r.Fine? && server.session == Some(RollbackTo(old(server.session).value, savePoint))
    {
      if closed {
        return Panicked;
      }
      var parentClosed := parentTx != null && parentTx.closed;
      closed := true;
      if parentClosed {
        return Panicked;
      }
      if server.session.None? {
        return TxDone;
      }
      if parentTx != null {
        server.session := Some(RollbackTo(server.session.value, savePoint));
      } else {
        server.session := None;
      }
      r := Fine;
    }

    /** `DeferredCommitOrRollback`: rolls back if the caller failed, commits otherwise, and reports a
        commit that failed. An error of the rollback is only logged. */
    method DeferredCommitOrRollback(failed: bool) returns (failed': bool, panicked: bool)
      modifies this`closed, server`session, server`committed
      ensures closed
      ensures old(closed) ==> panicked && server.session == old(server.session)
      ensures !panicked ==> (failed' <==> failed || old(server.session.None?))
      ensures failed ==> server.committed == old(server.committed)
      ensures old(!closed && server.session.Some?) && parentTx == null ==>
        && !panicked && server.session.None?
        && (!failed ==> server.committed == old(server.session).value.current)
      ensures old(!closed && server.session.Some? && parentTx != null && !parentTx.closed) ==>
        && !panicked && server.committed == old(server.committed)
        && server.session == Some(if failed then RollbackTo(old(server.session).value, savePoint)
                                  else Release(old(server.session).value, savePoint))
    {
      if failed {
        var r := Rollback();
        failed', panicked := true, r.Panicked?;
      } else {
        var r := Commit();
        failed', panicked := !r.Fine?, r.Panicked?;
      }
    }

    /** `WithTx`: the transaction found in the context, if it is open, gets a savepoint; otherwise a
        new root is begun. A sub-transaction does not replace the root in the context. */
    static method WithTx(server: Server, ctx: DBTx?) returns (tx: DBTx, ctx': DBTx?)
      requires ctx != null && !ctx.closed ==> ctx.server == server && server.session.Some?
      modifies server`session, server`issued
      ensures fresh(tx) && !tx.closed && tx.server == server && server.committed == old(server.committed)
      ensures ctx != null && old(!ctx.closed) ==>
        && ctx' == ctx && tx.parentTx == ctx && tx.savePoint == server.names(old(server.issued))
        && server.issued == old(server.issued) + 1
        && server.session == Some(SavepointAt(old(server.session).value, tx.savePoint))
      ensures ctx == null || old(ctx.closed) ==>
        && ctx' == tx && tx.parentTx == null && server.issued == old(server.issued)
        && server.session == Some(Session(server.committed, []))
    {
      if ctx != null && !ctx.closed {
        var name := server.NewName();
        server.session := Some(SavepointAt(server.session.value, name));
        tx := new DBTx(server, ctx, name);
        ctx' := ctx;
      } else {
        server.session := Some(Session(server.committed, []));
        tx := new DBTx(server, null, 0);
        ctx' := tx;
      }
    }
  }

  /** A caller that runs a well-nested program in an open root transaction, with a deferred commit or
      rollback for every sub-transaction. */
  method Execute(root: DBTx, body: seq<Op>)
    requires !root.closed && root.parentTx == null && root.server.session.Some?
    modifies root.server`session, root.server`issued, root.server`committed
    ensures root.server.session ==
      Some(Run(old(root.server.session).value, body, root.server.names, old(root.server.issued)))
    ensures root.server.issued == old(root.server.issued) + Subs(body)
    ensures root.server.committed == old(root.server.committed)
    decreases body
  {
    var server := root.server;
    if body == [] {
      return;
    }
    match body[0] {
      case Put(key, val) =>
        server.session := Some(server.session.value.(current := server.session.value.current[key := val]));
      case Sub(inner, commit) =>
        var sub, _ := DBTx.WithTx(server, root);
        Execute(root, inner);
        var _, _ := sub.DeferredCommitOrRollback(!commit);
    }
    Execute(root, body[1..]);
  }

  /** A whole root transaction: committing it publishes exactly the writes whose every enclosing
      sub-transaction committed, rolling it back publishes nothing. */
  method Transact(server: Server, body: seq<Op>, commit: bool)
    requires server.session.None? && Distinct(server.names)
    modifies server
    ensures server.session.None?
    ensures server.committed ==
      if commit then Publish(old(server.committed), Kept(body, true)) else old(server.committed)
  {
    var root, _ := DBTx.WithTx(server, null);
    RunMeaning(server.session.value, body, server.names, server.issued);
    Execute(root, body);
    var _, _ := root.DeferredCommitOrRollback(!commit);
  }
}
