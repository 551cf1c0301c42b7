/**
 The ready list of the executor, down to the links: Go's `container/list` is a ring of elements
 around a root, a length, and in every element a pointer to the list it belongs to. `Init`, which
 `CancelNow` uses to reset the list, does not clear those pointers. So an element that was in the list
 at that time can still be removed from it, and that spoils the list for good.
 */
module ReadyLists {
  import L = ExecutorLoop
  import Runs = ExecutorRuns

  datatype Node = Root | At(elem: nat)

  /** `owned` are the elements whose `list` pointer is this list. An element has the id of its task. */
  datatype List = List(next: map<Node, Node>, prev: map<Node, Node>, owned: set<nat>, len: int)
  {
    function Next(n: Node): Node { if n in next then next[n] else Root }
    function Prev(n: Node): Node { if n in prev then prev[n] else Root }
  }

  function New(): List { List(map[Root := Root], map[Root := Root], {}, 0) }

  function PushBack(l: List, e: nat): List {
    var last := l.Prev(Root);
    var first := l.Next(last);
    List(l.next[At(e) := first][last := At(e)], l.prev[At(e) := last][first := At(e)],
         l.owned + {e}, l.len + 1)
  }

  /** `Remove`: the neighbours are joined, the links and the list pointer of the element cleared. */
  function Unlink(l: List, e: nat): List {
    if e !in l.owned then l
    else
      var p, n := l.Prev(At(e)), l.Next(At(e));
      List(l.next[p := n] - {At(e)}, l.prev[n := p] - {At(e)}, l.owned - {e}, l.len - 1)
  }

  /** `Init`. */
  function Reset(l: List): List {
    l.(next := l.next[Root := Root], prev := l.prev[Root := Root], len := 0)
  }

  // ---------- the sequence a list stands for ----------

  ghost predicate Once(q: seq<nat>) {
    forall i, j :: 0 <= i < j < |q| ==> q[i] != q[j]
  }

  /** The ring from root to root. */
  function Nth(q: seq<nat>, i: nat): Node
    requires i <= |q| + 1
  {
    if i == 0 || i == |q| + 1 then Root else At(q[i - 1])
  }

  ghost predicate Linked(l: List, q: seq<nat>) {
    forall i :: 0 <= i <= |q| ==> l.Next(Nth(q, i)) == Nth(q, i + 1) && l.Prev(Nth(q, i + 1)) == Nth(q, i)
  }

  ghost predicate Represents(l: List, q: seq<nat>) {
    Once(q) && Linked(l, q) && l.len == |q| && forall e :: e in q ==> e in l.owned
  }

  lemma NthDiffers(q: seq<nat>, i: nat, j: nat)
    requires Once(q) && i < j <= |q| + 1 && (i, j) != (0, |q| + 1)
    ensures Nth(q, i) != Nth(q, j)
  {}

  /** A list stands for one sequence only. */
  lemma StandsForOne(l: List, p: seq<nat>, q: seq<nat>)
    requires Represents(l, p) && Represents(l, q)
    ensures p == q
  {
    forall i | 0 <= i <= |p| ensures Nth(p, i) == Nth(q, i) { SameNth(l, p, q, i); }
    forall i | 0 <= i < |p| ensures p[i] == q[i] { assert Nth(p, i + 1) == Nth(q, i + 1); }
  }

  lemma {:induction false} SameNth(l: List, p: seq<nat>, q: seq<nat>, i: nat)
    requires Represents(l, p) && Represents(l, q) && i <= |p|
    ensures Nth(p, i) == Nth(q, i)
  {
    if i > 0 {
      SameNth(l, p, q, i - 1);
      assert l.Next(Nth(p, i - 1)) == Nth(p, i) && l.Next(Nth(q, i - 1)) == Nth(q, i);
    }
  }

  lemma PushBackRepresents(l: List, q: seq<nat>, e: nat)
    requires Represents(l, q) && e !in l.owned
    ensures Represents(PushBack(l, e), q + [e])
  {
    var l', q' := PushBack(l, e), q + [e];
    assert l.Prev(Root) == Nth(q, |q|) by { assert l.Prev(Nth(q, |q| + 1)) == Nth(q, |q|); }
    assert Nth(q, |q| + 1) == Root;
    assert l.Next(Nth(q, |q|)) == Root;
    forall i | 0 <= i <= |q'|
      ensures l'.Next(Nth(q', i)) == Nth(q', i + 1) && l'.Prev(Nth(q', i + 1)) == Nth(q', i)
    {
      if i < |q| {
        assert Nth(q', i) == Nth(q, i) && Nth(q', i + 1) == Nth(q, i + 1);
        assert l.Next(Nth(q, i)) == Nth(q, i + 1) && l.Prev(Nth(q, i + 1)) == Nth(q, i);
        assert Nth(q, i) != At(e) && Nth(q, i + 1) != At(e);
        NthDiffers(q, i, |q|);
      } else if i == |q| {
        assert Nth(q', i) == Nth(q, i) && Nth(q', i + 1) == At(e);
      } else {
        assert Nth(q', i) == At(e) && Nth(q', i + 1) == Root;
      }
    }
  }

  lemma UnlinkRepresents(l: List, q: seq<nat>, j: nat)
    requires Represents(l, q) && j < |q|
    ensures Represents(Unlink(l, q[j]), q[..j] + q[j + 1..])
  {
    var e, q' := q[j], q[..j] + q[j + 1..];
    var l' := Unlink(l, e);
    assert Nth(q, j + 1) == At(e);
    assert l.Prev(At(e)) == Nth(q, j) && l.Next(At(e)) == Nth(q, j + 2);
    forall i | 0 <= i <= |q'|
      ensures l'.Next(Nth(q', i)) == Nth(q', i + 1) && l'.Prev(Nth(q', i + 1)) == Nth(q', i)
    {
      UnlinkAt(l, q, j, i);
    }
  }

  lemma UnlinkAt(l: List, q: seq<nat>, j: nat, i: nat)
    requires Represents(l, q) && j < |q| && i < |q|
    ensures var q' := q[..j] + q[j + 1..]; var l' := Unlink(l, q[j]);
      l'.Next(Nth(q', i)) == Nth(q', i + 1) && l'.Prev(Nth(q', i + 1)) == Nth(q', i)
  {
    var e, q' := q[j], q[..j] + q[j + 1..];
    assert Nth(q, j + 1) == At(e);
    assert l.Prev(At(e)) == Nth(q, j) && l.Next(At(e)) == Nth(q, j + 2);
    var a, b := if i <= j then i else i + 1, if i < j then i + 1 else i + 2;
    assert Nth(q', i) == Nth(q, a) && Nth(q', i + 1) == Nth(q, b);
    if i != j {
      assert l.Next(Nth(q, a)) == Nth(q, b) && l.Prev(Nth(q, b)) == Nth(q, a);
      if a < j { NthDiffers(q, a, j); } else { NthDiffers(q, j, a); }
      if b < j + 2 { NthDiffers(q, b, j + 2); } else { NthDiffers(q, j + 2, b); }
    }
    if a < j + 1 { NthDiffers(q, a, j + 1); } else { NthDiffers(q, j + 1, a); }
    if b < j + 1 { NthDiffers(q, b, j + 1); } else { NthDiffers(q, j + 1, b); }
  }

  // ---------- the operations of the loop, on the list and on the sequence ----------

  /** What the loop does with its ready list: queue a task, take the first, take out a cancelled one
      unless the length is zero, and reset. */
  datatype Op = Push(e: nat) | Pop | Cancel(e: nat) | Clear

  /** The element an operation takes out, if any. The root is no task: in the code that is a panic. */
  function Out(l: List, op: Op): set<nat> {
    if l.len == 0 then {}
    else match op
      case Pop => if l.Next(Root).At? && l.Next(Root).elem in l.owned then {l.Next(Root).elem} else {}
      case Cancel(e) => if e in l.owned then {e} else {}
      case _ => {}
  }

  function Do(l: List, op: Op): List {
    match op
    case Push(e) => PushBack(l, e)
    case Pop => if l.len != 0 && l.Next(Root).At? then Unlink(l, l.Next(Root).elem) else l
    case Cancel(e) => if l.len != 0 then Unlink(l, e) else l
    case Clear => Reset(l)
  }

  function SeqDo(q: seq<nat>, op: Op): seq<nat> {
    match op
    case Push(e) => q + [e]
    case Pop => if q == [] then q else q[1..]
    case Cancel(e) => L.Remove(q, e)
    case Clear => []
  }

  /** A push makes a new element. */
  predicate Fresh(l: List, op: Op) { op.Push? ==> op.e !in l.owned }

  /** A stale handle: the element belongs to the list and is not in it. */
  predicate Spoils(l: List, q: seq<nat>, op: Op) {
    op.Cancel? && q != [] && op.e in l.owned && op.e !in q
  }

  lemma {:induction false} RemoveAt(q: seq<nat>, e: nat) returns (j: nat)
    requires e in q
    ensures j < |q| && q[j] == e && L.Remove(q, e) == q[..j] + q[j + 1..]
  {
    if q[0] == e { return 0; }
    var k := RemoveAt(q[1..], e);
    j := k + 1;
    assert q[..j] == [q[0]] + q[1..][..k] && q[1..][k + 1..] == q[j + 1..];
  }

  lemma {:induction false} RemoveAbsent(q: seq<nat>, e: nat)
    requires e !in q
    ensures L.Remove(q, e) == q
  {
    if q != [] { RemoveAbsent(q[1..], e); }
  }

  lemma PopRepresents(l: List, q: seq<nat>)
    requires Represents(l, q) && q != []
    ensures Represents(Do(l, Pop), q[1..])
  {
    assert l.Next(Nth(q, 0)) == Nth(q, 1);
    assert Do(l, Pop) == Unlink(l, q[0]);
    assert q[..0] + q[0 + 1..] == q[1..];
    hide Linked, Once, Unlink, Do;
    UnlinkRepresents(l, q, 0);
  }

  /** An operation keeps list and sequence in agreement if and only if it does not remove a stale
      handle from a list that is not empty. */
  lemma AgreesExactly(l: List, q: seq<nat>, op: Op)
    requires Represents(l, q) && Fresh(l, op)
    ensures Represents(Do(l, op), SeqDo(q, op)) <==> !Spoils(l, q, op)
  {
    match op
    case Push(e) => PushBackRepresents(l, q, e);
    case Pop => if q != [] { PopRepresents(l, q); }
    case Cancel(e) =>
      hide Linked, Once, L.Remove;
      if e in q {
        var j := RemoveAt(q, e);
        UnlinkRepresents(l, q, j);
      } else {
        RemoveAbsent(q, e);
      }
    case Clear => assert Nth([], 0) == Root == Nth([], 1);
  }

  /** The cancel event of the loop: its model and the linked list agree if and only if the model does
      not call the list broken. */
  lemma CancelAgreesExactly(list: List, l: L.Loop, t: nat)
    requires Represents(list, l.ready) && (t in l.qElem ==> t in list.owned) && !l.broken
    ensures Represents(if t in l.qElem then Do(list, Cancel(t)) else list, L.OnCanceled(l, t).ready)
            <==> !L.OnCanceled(l, t).broken
  {
    Runs.CanceledFrame(l, t);
    assert L.OnCanceled(l, t).broken <==> l.ready != [] && L.Stale(l, t) by { hide L.Remove; }
    hide L.OnCanceled;
    AgreesExactly(list, l.ready, Cancel(t));
    if t !in l.ready { RemoveAbsent(l.ready, t); }
  }

  /** All operations are fresh and none spoils. */
  ghost predicate Sound(l: List, q: seq<nat>, ops: seq<Op>)
    decreases |ops|
  {
    ops == [] ||
    (Fresh(l, ops[0]) && !Spoils(l, q, ops[0]) && Sound(Do(l, ops[0]), SeqDo(q, ops[0]), ops[1..]))
  }

  function DoAll(l: List, ops: seq<Op>): List
    decreases |ops|
  {
    if ops == [] then l else DoAll(Do(l, ops[0]), ops[1..])
  }

  function SeqDoAll(q: seq<nat>, ops: seq<Op>): seq<nat>
    decreases |ops|
  {
    if ops == [] then q else SeqDoAll(SeqDo(q, ops[0]), ops[1..])
  }

  lemma {:induction false} DoAllSplits(l: List, a: seq<Op>, b: seq<Op>)
    ensures DoAll(l, a + b) == DoAll(DoAll(l, a), b)
    decreases |a|
  {
    if a == [] {
      assert a + b == b;
    } else {
      assert (a + b)[1..] == a[1..] + b;
      DoAllSplits(Do(l, a[0]), a[1..], b);
    }
  }

  lemma DoAllOne(l: List, op: Op)
    ensures DoAll(l, [op]) == Do(l, op) && DoAll(l, []) == l
  {
    assert [op][1..] == [];
  }

  /** Over every sequence of operations in which no stale handle is removed, the linked list stands
      for the plain sequence that the event loop is modelled on. */
  lemma {:induction false} ListAgrees(l: List, q: seq<nat>, ops: seq<Op>)
    requires Represents(l, q) && Sound(l, q, ops)
    ensures Represents(DoAll(l, ops), SeqDoAll(q, ops))
    decreases |ops|
  {
    if ops != [] {
      AgreesExactly(l, q, ops[0]);
      ListAgrees(Do(l, ops[0]), SeqDo(q, ops[0]), ops[1..]);
    }
  }

  function Elems(q: seq<nat>): set<nat> { set x | x in q }

  // ---------- what a spoilt list does ----------

  /** The elements of `rest` and the pushed ones that the operations have not taken out. */
  function Left(l: List, rest: set<nat>, ops: seq<Op>): set<nat>
    decreases |ops|
  {
    if ops == [] then rest
    else Left(Do(l, ops[0]),
              rest + (if ops[0].Push? then {ops[0].e} else {}) - Out(l, ops[0]), ops[1..])
  }

  /** Pushes are of new elements, and the list is not reset a second time. */
  ghost predicate Plain(l: List, ops: seq<Op>)
    decreases |ops|
  {
    ops == [] || (Fresh(l, ops[0]) && !ops[0].Clear? && Plain(Do(l, ops[0]), ops[1..]))
  }

  lemma {:induction false} LeftBehind(l: List, rest: set<nat>, ops: seq<Op>)
    requires Plain(l, ops) && rest <= l.owned && |rest| >= l.len + 1
    ensures |Left(l, rest, ops)| >= DoAll(l, ops).len + 1
    decreases |ops|
  {
    if ops != [] {
      var op := ops[0];
      var rest' := rest + (if op.Push? then {op.e} else {}) - Out(l, op);
      match op {
        case Push(e) => assert rest' == rest + {e};
        case Pop => Shrinks(rest, Out(l, op));
        case Cancel(e) => Shrinks(rest, Out(l, op));
      }
      LeftBehind(Do(l, op), rest', ops[1..]);
    }
  }

  lemma Shrinks(rest: set<nat>, out: set<nat>)
    requires |out| <= 1
    ensures |rest - out| >= |rest| - |out|
  {
    assert rest == (rest - out) + (rest * out);
    if x :| x in out { assert |out - {x}| == |out| - 1; assert out == {x}; }
  }

  /** After the removal of a stale handle, however tasks are queued, taken and cancelled from then on:
      when the length has come down to zero, which is all the loop looks at before it terminates, some
      task that was ready or has been queued since was never taken out. */
  lemma SpoiltLoses(l: List, q: seq<nat>, e: nat, ops: seq<Op>)
    requires Represents(l, q) && Spoils(l, q, Cancel(e)) && Plain(Unlink(l, e), ops)
    requires DoAll(Unlink(l, e), ops).len == 0
    ensures Left(Unlink(l, e), Elems(q), ops) != {}
  {
    OnceCounts(q);
    LeftBehind(Unlink(l, e), Elems(q), ops);
  }

  lemma {:induction false} OnceCounts(q: seq<nat>)
    requires Once(q)
    ensures |Elems(q)| == |q|
  {
    if q != [] {
      OnceCounts(q[1..]);
      assert Elems(q) == Elems(q[1..]) + {q[0]};
    }
  }

  /** Without stale handles nothing is left behind: what was not taken out is in the list. */
  lemma {:induction false} SoundLosesNothing(l: List, q: seq<nat>, ops: seq<Op>)
    requires Represents(l, q) && Sound(l, q, ops) && forall i :: 0 <= i < |ops| ==> !ops[i].Clear?
    ensures Left(l, Elems(q), ops) == Elems(SeqDoAll(q, ops))
    decreases |ops|
  {
    if ops != [] {
      var op := ops[0];
      AgreesExactly(l, q, op);
      TakenOut(l, q, op);
      SoundLosesNothing(Do(l, op), SeqDo(q, op), ops[1..]);
    }
  }

  lemma TakenOut(l: List, q: seq<nat>, op: Op)
    requires Represents(l, q) && Fresh(l, op) && !Spoils(l, q, op) && !op.Clear?
    ensures Elems(SeqDo(q, op)) == Elems(q) + (if op.Push? then {op.e} else {}) - Out(l, op)
  {
    match op
    case Push(e) => ElemsAdd(q, e);
    case Pop =>
      if q != [] {
        assert l.Next(Nth(q, 0)) == Nth(q, 1);
        assert Out(l, op) == {q[0]};
        ElemsLess(q, 0);
        assert q[..0] + q[1..] == q[1..];
      }
    case Cancel(e) =>
      if e in q {
        assert Out(l, op) == {e};
        var j := RemoveAt(q, e);
        ElemsLess(q, j);
      } else {
        RemoveAbsent(q, e);
        assert Out(l, op) == {};
      }
  }

  lemma ElemsAdd(q: seq<nat>, e: nat)
    ensures Elems(q + [e]) == Elems(q) + {e}
  {}

  lemma ElemsLess(q: seq<nat>, j: nat)
    requires Once(q) && j < |q|
    ensures Elems(q[..j] + q[j + 1..]) == Elems(q) - {q[j]}
  {
    var r := q[..j] + q[j + 1..];
    assert q == q[..j] + [q[j]] + q[j + 1..];
    forall x ensures x in Elems(r) <==> x in Elems(q) && x != q[j] {
      if x in r {
        var k :| 0 <= k < |r| && r[k] == x;
        assert x == q[if k < j then k else k + 1];
      }
    }
  }
}
