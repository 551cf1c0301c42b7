/**
 The priority queue (queue/priority_queue.go, queue/priority_queue_heap.go): a binary heap driven
 by the sift operations of Go's container/heap, whose elements know their own slot. The reference
 it is proved against is a list sorted by (priority, insertion order).
 */
module PriorityQueues {

  class Element<T> {
    const value: T
    const priority: int
    const seqNo: nat
    var index: int
    var heap: PriorityQueue?<T>

    constructor (value: T, priority: int, seqNo: nat)
      ensures this.value == value && this.priority == priority && this.seqNo == seqNo
      ensures heap == null && index == -1
    {
      this.value, this.priority, this.seqNo := value, priority, seqNo;
      heap, index := null, -1;
    }
  }

  predicate Less<T>(a: Element<T>, b: Element<T>) {
    if a.priority != b.priority then a.priority < b.priority else a.seqNo < b.seqNo
  }

  // ---------- the slice as a heap ----------

  function Parent(i: nat): nat
    requires i > 0
  {
    (i - 1) / 2
  }

  function Swapped<T>(s: seq<Element<T>>, i: nat, j: nat): (r: seq<Element<T>>)
    requires i < |s| && j < |s|
    ensures |r| == |s|
  {
    s[i := s[j]][j := s[i]]
  }

  /** `up` of container/heap. */
  function Up<T>(s: seq<Element<T>>, j: nat): (r: seq<Element<T>>)
    requires j < |s|
    ensures |r| == |s|
    decreases j
  {
    if j == 0 || !Less(s[j], s[Parent(j)]) then s
    else Up(Swapped(s, Parent(j), j), Parent(j))
  }

  /** The child `down` compares with: the smaller one, the left one if they tie. */
  function Child<T>(s: seq<Element<T>>, i: nat): nat
    requires 2 * i + 1 < |s|
  {
    if 2 * i + 2 < |s| && Less(s[2 * i + 2], s[2 * i + 1]) then 2 * i + 2 else 2 * i + 1
  }

  predicate Sinks<T>(s: seq<Element<T>>, i: nat)
    requires i < |s|
  {
    2 * i + 1 < |s| && Less(s[Child(s, i)], s[i])
  }

  /** `down` of container/heap on the first |s| slots. */
  function Down<T>(s: seq<Element<T>>, i: nat): (r: seq<Element<T>>)
    requires i < |s|
    ensures |r| == |s|
    decreases |s| - i
  {
    if !Sinks(s, i) then s else Down(Swapped(s, i, Child(s, i)), Child(s, i))
  }

  lemma SwappedCounts<T>(s: seq<Element<T>>, i: nat, j: nat)
    requires i < |s| && j < |s|
    ensures multiset(Swapped(s, i, j)) == multiset(s)
  {}

  lemma {:induction false} UpCounts<T>(s: seq<Element<T>>, j: nat)
    requires j < |s|
    ensures multiset(Up(s, j)) == multiset(s)
    decreases j
  {
    if j > 0 && Less(s[j], s[Parent(j)]) {
      SwappedCounts(s, Parent(j), j);
      UpCounts(Swapped(s, Parent(j), j), Parent(j));
    }
  }

  lemma {:induction false} DownCounts<T>(s: seq<Element<T>>, i: nat)
    requires i < |s|
    ensures multiset(Down(s, i)) == multiset(s)
    decreases |s| - i
  {
    if Sinks(s, i) {
      SwappedCounts(s, i, Child(s, i));
      DownCounts(Swapped(s, i, Child(s, i)), Child(s, i));
    }
  }

  ghost predicate HeapOrdered<T>(s: seq<Element<T>>) {
    forall k :: 0 < k < |s| ==> !Less(s[k], s[Parent(k)])
  }

  /** A heap but for slot `j` against its parent. */
  ghost predicate HeapButUp<T>(s: seq<Element<T>>, j: nat) {
    && (forall k :: 0 < k < |s| && k != j ==> !Less(s[k], s[Parent(k)]))
    && (j > 0 ==> forall k :: 0 < k < |s| && Parent(k) == j ==> !Less(s[k], s[Parent(j)]))
  }

  /** A heap but for slot `i` against its parent and its children. */
  ghost predicate HeapBut<T>(s: seq<Element<T>>, i: nat) {
    && (forall k :: 0 < k < |s| && k != i && Parent(k) != i ==> !Less(s[k], s[Parent(k)]))
    && (i > 0 ==> forall k :: 0 < k < |s| && Parent(k) == i ==> !Less(s[k], s[Parent(i)]))
  }

  /** One exchange with the parent moves the disorder up. */
  lemma RiseOnce<T>(s: seq<Element<T>>, j: nat)
    requires 0 < j < |s| && HeapButUp(s, j) && Less(s[j], s[Parent(j)])
    ensures HeapButUp(Swapped(s, Parent(j), j), Parent(j))
  {
    var p, t := Parent(j), Swapped(s, Parent(j), j);
    forall k | 0 < k < |t| && k != p ensures !Less(t[k], t[Parent(k)]) {
      if k != j && Parent(k) == p {
        assert !Less(s[k], s[p]);
      } else if Parent(k) == j {
        assert !Less(s[k], s[p]);
      } else if k != j {
        assert !Less(s[k], s[Parent(k)]);
      }
    }
    if p > 0 {
      assert !Less(s[p], s[Parent(p)]);
      forall k | 0 < k < |t| && Parent(k) == p ensures !Less(t[k], t[Parent(p)]) {
        if k != j { assert !Less(s[k], s[p]); }
      }
    }
  }

  lemma {:induction false} UpOrders<T>(s: seq<Element<T>>, j: nat)
    requires j < |s| && HeapButUp(s, j)
    ensures HeapOrdered(Up(s, j))
    decreases j
  {
    if j > 0 && Less(s[j], s[Parent(j)]) {
      RiseOnce(s, j);
      hide HeapButUp, HeapOrdered, Swapped;
      UpOrders(Swapped(s, Parent(j), j), Parent(j));
    }
  }

  /** One exchange with the smaller child moves the disorder down. */
  lemma SinkOnce<T>(s: seq<Element<T>>, i: nat)
    requires i < |s| && HeapBut(s, i) && Sinks(s, i)
    ensures var c := Child(s, i); var t := Swapped(s, i, c);
      Parent(c) == i && HeapBut(t, c) && !Less(t[c], t[i])
  {
    var c := Child(s, i);
    var t := Swapped(s, i, c);
    forall k | 0 < k < |t| && k != c && Parent(k) != c ensures !Less(t[k], t[Parent(k)]) {
      if k == i {
        assert !Less(s[c], s[Parent(i)]);
      } else if Parent(k) == i {
        assert !Less(s[k], s[c]);
      }
    }
    forall k | 0 < k < |t| && Parent(k) == c ensures !Less(t[k], t[i]) {
      assert !Less(s[k], s[Parent(k)]);
    }
  }

  /** An element that sinks leaves a heap; one that does not may still have to rise. */
  lemma {:induction false} DownOrders<T>(s: seq<Element<T>>, i: nat)
    requires i < |s| && HeapBut(s, i)
    ensures Sinks(s, i) ==> HeapOrdered(Down(s, i))
    ensures !Sinks(s, i) ==> HeapButUp(s, i)
    decreases |s| - i
  {
    if Sinks(s, i) {
      SinkOnce(s, i);
      DownOrders(Swapped(s, i, Child(s, i)), Child(s, i));
    } else {
      forall k | 0 < k < |s| && Parent(k) == i ensures !Less(s[k], s[i]) {
        assert k == 2 * i + 1 || k == 2 * i + 2;
      }
    }
  }

  lemma {:induction false} RootIsLeast<T>(s: seq<Element<T>>, k: nat)
    requires HeapOrdered(s) && k < |s|
    ensures !Less(s[k], s[0])
    ensures s[0].priority < s[k].priority || (s[0].priority == s[k].priority && s[0].seqNo <= s[k].seqNo)
    decreases k
  {
    if k > 0 { RootIsLeast(s, Parent(k)); }
  }

  lemma RootIsFirst<T>(s: seq<Element<T>>)
    requires HeapOrdered(s) && s != []
    ensures forall x :: x in s ==> s[0].priority < x.priority || (s[0].priority == x.priority && s[0].seqNo <= x.seqNo)
  {
    forall k | 0 <= k < |s|
      ensures s[0].priority < s[k].priority || (s[0].priority == s[k].priority && s[0].seqNo <= s[k].seqNo)
    {
      RootIsLeast(s, k);
    }
    hide HeapOrdered;
  }

  // ---------- the three operations on the slice ----------

  function HeapPush<T>(s: seq<Element<T>>, e: Element<T>): seq<Element<T>> { Up(s + [e], |s|) }

  function Sifted<T>(s: seq<Element<T>>, i: nat): (r: seq<Element<T>>)
    requires i < |s|
    ensures |r| == |s|
  {
    if Sinks(s, i) then Down(s, i) else Up(s, i)
  }

  /** The slice without its last slot, whose element has taken slot `i`. */
  function Filled<T>(s: seq<Element<T>>, i: nat): (r: seq<Element<T>>)
    requires i < |s| - 1
    ensures |r| == |s| - 1
  {
    s[..|s| - 1][i := s[|s| - 1]]
  }

  /** `heap.Remove`: the last element takes the slot, then sinks or else rises. */
  function HeapRemove<T>(s: seq<Element<T>>, i: nat): seq<Element<T>>
    requires i < |s|
  {
    if i == |s| - 1 then s[..|s| - 1] else Sifted(Filled(s, i), i)
  }

  function HeapPop<T>(s: seq<Element<T>>): seq<Element<T>>
    requires s != []
  {
    if |s| == 1 then [] else Down(Filled(s, 0), 0)
  }

  lemma HeapPushOrders<T>(s: seq<Element<T>>, e: Element<T>)
    requires HeapOrdered(s)
    ensures HeapOrdered(HeapPush(s, e)) && multiset(HeapPush(s, e)) == multiset(s) + multiset{e}
  {
    UpOrders(s + [e], |s|);
    UpCounts(s + [e], |s|);
  }

  lemma TakeOut<T>(s: seq<Element<T>>, i: nat)
    requires i < |s| - 1
    ensures multiset(Filled(s, i)) == multiset(s) - multiset{s[i]}
  {
    var n := |s| - 1;
    assert s == s[..n] + [s[n]];
  }

  lemma RemoveCounts<T>(s: seq<Element<T>>, i: nat)
    requires i < |s|
    ensures multiset(HeapRemove(s, i)) == multiset(s) - multiset{s[i]}
  {
    if i < |s| - 1 {
      TakeOut(s, i);
      UpCounts(Filled(s, i), i);
      DownCounts(Filled(s, i), i);
    } else {
      assert s == s[..i] + [s[i]];
    }
  }

  lemma HeapRemoveOrders<T>(s: seq<Element<T>>, i: nat)
    requires HeapOrdered(s) && i < |s|
    ensures HeapOrdered(HeapRemove(s, i))
  {
    if i < |s| - 1 {
      var t := Filled(s, i);
      forall k | 0 < k < |t| && Parent(k) == i && i > 0 ensures !Less(t[k], t[Parent(i)]) {
        assert !Less(s[k], s[i]) && !Less(s[i], s[Parent(i)]);
      }
      assert HeapBut(t, i);
      DownOrders(t, i);
      if !Sinks(t, i) { UpOrders(t, i); }
    }
  }

  /** Popping is removing slot 0: an element that does not sink from there cannot rise. */
  lemma PopIsRemoveFirst<T>(s: seq<Element<T>>)
    requires s != []
    ensures HeapPop(s) == HeapRemove(s, 0)
  {}

  // ---------- the reference: a sorted list ----------

  ghost predicate SortedList<T>(m: seq<Element<T>>) {
    forall i, j :: 0 <= i < j < |m| ==> Less(m[i], m[j])
  }

  function ListInsert<T>(m: seq<Element<T>>, e: Element<T>): seq<Element<T>> {
    if m == [] || Less(e, m[0]) then [e] + m else [m[0]] + ListInsert(m[1..], e)
  }

  function ListRemove<T>(m: seq<Element<T>>, e: Element<T>): seq<Element<T>> {
    if m == [] then [] else if m[0] == e then m[1..] else [m[0]] + ListRemove(m[1..], e)
  }

  lemma {:induction false} ListInsertMembers<T>(m: seq<Element<T>>, e: Element<T>)
    ensures multiset(ListInsert(m, e)) == multiset(m) + multiset{e}
  {
    if m != [] && !Less(e, m[0]) {
      assert m == [m[0]] + m[1..];
      ListInsertMembers(m[1..], e);
    }
  }

  lemma {:induction false} ListInsertSorts<T>(m: seq<Element<T>>, e: Element<T>)
    requires SortedList(m) && forall k :: 0 <= k < |m| ==> m[k].seqNo < e.seqNo
    ensures SortedList(ListInsert(m, e))
  {
    if m != [] && !Less(e, m[0]) {
      ListInsertSorts(m[1..], e);
      ListInsertMembers(m[1..], e);
      var r := ListInsert(m[1..], e);
      forall k | 0 <= k < |r| ensures Less(m[0], r[k]) {
        assert r[k] in multiset(r);
        if r[k] in m[1..] {
          var q :| 1 <= q < |m| && m[q] == r[k];
        }
      }
    }
  }

  lemma {:induction false} ListRemoveCounts<T>(m: seq<Element<T>>, e: Element<T>)
    ensures multiset(ListRemove(m, e)) == multiset(m) - multiset{e}
  {
    if m != [] {
      assert m == [m[0]] + m[1..];
      if m[0] == e {
        assert multiset(m) == multiset{e} + multiset(m[1..]);
      } else {
        var rest := ListRemove(m[1..], e);
        ListRemoveCounts(m[1..], e);
        assert ListRemove(m, e) == [m[0]] + rest;
        hide ListRemove;
      }
    }
  }

  lemma {:induction false} ListRemoveSorts<T>(m: seq<Element<T>>, e: Element<T>)
    requires SortedList(m)
    ensures SortedList(ListRemove(m, e))
  {
    if m != [] && m[0] != e {
      ListRemoveSorts(m[1..], e);
      ListRemoveCounts(m[1..], e);
      var r := ListRemove(m[1..], e);
      forall k | 0 <= k < |r| ensures Less(m[0], r[k]) {
        assert r[k] in multiset(r) && r[k] in m[1..];
        var q :| 1 <= q < |m| && m[q] == r[k];
      }
    }
  }

  /** Heap and list hold the same elements, each in its own order. */
  ghost predicate Agree<T>(s: seq<Element<T>>, m: seq<Element<T>>) {
    HeapOrdered(s) && SortedList(m) && multiset(s) == multiset(m)
  }

  lemma SameMember<T>(s: seq<Element<T>>, m: seq<Element<T>>, e: Element<T>)
    requires multiset(s) == multiset(m)
    ensures e in s <==> e in m
  {
    assert e in s <==> e in multiset(s);
    assert e in m <==> e in multiset(m);
  }

  lemma HeadsAgree<T>(s: seq<Element<T>>, m: seq<Element<T>>)
    requires Agree(s, m) && s != []
    ensures m != [] && s[0] == m[0]
  {
    SameMember(s, m, s[0]);
    var k :| 0 <= k < |m| && m[k] == s[0];
    SameMember(s, m, m[0]);
    var q :| 0 <= q < |s| && s[q] == m[0];
    RootIsLeast(s, q);
  }

  lemma PushAgrees<T>(s: seq<Element<T>>, m: seq<Element<T>>, e: Element<T>)
    requires Agree(s, m) && forall k :: 0 <= k < |s| ==> s[k].seqNo < e.seqNo
    ensures Agree(HeapPush(s, e), ListInsert(m, e))
  {
    forall k | 0 <= k < |m| ensures m[k].seqNo < e.seqNo {
      SameMember(s, m, m[k]);
      var q :| 0 <= q < |s| && s[q] == m[k];
    }
    HeapPushOrders(s, e);
    ListInsertSorts(m, e);
    ListInsertMembers(m, e);
  }

  lemma RemoveAgrees<T>(s: seq<Element<T>>, m: seq<Element<T>>, i: nat)
    requires Agree(s, m) && i < |s|
    ensures Agree(HeapRemove(s, i), ListRemove(m, s[i]))
  {
    HeapRemoveOrders(s, i);
    RemoveCounts(s, i);
    ListRemoveSorts(m, s[i]);
    ListRemoveCounts(m, s[i]);
  }

  lemma PopAgrees<T>(s: seq<Element<T>>, m: seq<Element<T>>)
    requires Agree(s, m) && s != []
    ensures m != [] && s[0] == m[0] && Agree(HeapPop(s), m[1..])
  {
    HeadsAgree(s, m);
    PopIsRemoveFirst(s);
    RemoveAgrees(s, m, 0);
  }

  /** Pushed last among equals, an element leaves last among equals. */
  lemma {:induction false} InsertIsStable<T>(m: seq<Element<T>>, e: Element<T>, p: seq<Element<T>>, q: seq<Element<T>>)
    requires m == p + q
    requires forall k :: 0 <= k < |m| ==> m[k].seqNo < e.seqNo
    requires forall k :: 0 <= k < |p| ==> p[k].priority <= e.priority
    requires q != [] ==> e.priority < q[0].priority
    ensures ListInsert(m, e) == p + [e] + q
  {
    if p != [] {
      assert m[0] == p[0] && m[1..] == p[1..] + q;
      InsertIsStable(m[1..], e, p[1..], q);
    }
  }

  // ---------- every sequence of operations ----------

  datatype Op<T> = OpPush(e: Element<T>) | OpPop | OpPeek | OpRemove(e: Element<T>)

  datatype Answer<T> = Nothing | Found(e: Element<T>) | Removed(ok: bool)

  /** Every push carries a larger sequence number than the ones before it. */
  predicate Numbered<T>(ops: seq<Op<T>>, last: int) {
    ops == [] ||
    (if ops[0].OpPush? then last < ops[0].e.seqNo && Numbered(ops[1..], ops[0].e.seqNo)
     else Numbered(ops[1..], last))
  }

  function IndexOf<T>(s: seq<Element<T>>, e: Element<T>): (i: nat)
    requires e in s
    ensures i < |s| && s[i] == e
  {
    if s[0] == e then 0 else 1 + IndexOf(s[1..], e)
  }

  function HeapStep<T>(s: seq<Element<T>>, op: Op<T>): (seq<Element<T>>, Answer<T>) {
    match op
    case OpPush(e) => (HeapPush(s, e), Nothing)
    case OpPop => if s == [] then (s, Nothing) else (HeapPop(s), Found(s[0]))
    case OpPeek => if s == [] then (s, Nothing) else (s, Found(s[0]))
    case OpRemove(e) =>
      if e in s then (HeapRemove(s, IndexOf(s, e)), Removed(true)) else (s, Removed(false))
  }

  function ListStep<T>(m: seq<Element<T>>, op: Op<T>): (seq<Element<T>>, Answer<T>) {
    match op
    case OpPush(e) => (ListInsert(m, e), Nothing)
    case OpPop => if m == [] then (m, Nothing) else (m[1..], Found(m[0]))
    case OpPeek => if m == [] then (m, Nothing) else (m, Found(m[0]))
    case OpRemove(e) => (ListRemove(m, e), Removed(e in m))
  }

  function HeapRun<T>(s: seq<Element<T>>, ops: seq<Op<T>>): seq<Answer<T>>
    decreases |ops|
  {
    if ops == [] then [] else [HeapStep(s, ops[0]).1] + HeapRun(HeapStep(s, ops[0]).0, ops[1..])
  }

  function ListRun<T>(m: seq<Element<T>>, ops: seq<Op<T>>): seq<Answer<T>>
    decreases |ops|
  {
    if ops == [] then [] else [ListStep(m, ops[0]).1] + ListRun(ListStep(m, ops[0]).0, ops[1..])
  }

  lemma StepsAgree<T>(s: seq<Element<T>>, m: seq<Element<T>>, op: Op<T>)
    requires Agree(s, m)
    requires op.OpPush? ==> forall k :: 0 <= k < |s| ==> s[k].seqNo < op.e.seqNo
    ensures HeapStep(s, op).1 == ListStep(m, op).1
    ensures Agree(HeapStep(s, op).0, ListStep(m, op).0)
  {
    match op
    case OpPush(e) => PushAgrees(s, m, e);
    case OpPop => SizesAgree(s, m); if s != [] { PopAgrees(s, m); }
    case OpPeek => SizesAgree(s, m); if s != [] { HeadsAgree(s, m); }
    case OpRemove(e) =>
      SameMember(s, m, e);
      if e in s { RemoveAgrees(s, m, IndexOf(s, e)); } else { ListRemoveAbsent(m, e); }
  }

  lemma SizesAgree<T>(s: seq<Element<T>>, m: seq<Element<T>>)
    requires multiset(s) == multiset(m)
    ensures |s| == |m|
  {
    assert |multiset(s)| == |s| && |multiset(m)| == |m|;
  }

  lemma {:induction false} ListRemoveAbsent<T>(m: seq<Element<T>>, e: Element<T>)
    requires e !in m
    ensures ListRemove(m, e) == m
  {
    if m != [] { ListRemoveAbsent(m[1..], e); }
  }

  /** Any sequence of Push, Pop, Peek and Remove gives the answers of the sorted list. */
  lemma {:induction false} RunsAgree<T>(s: seq<Element<T>>, m: seq<Element<T>>, ops: seq<Op<T>>, last: int)
    requires Agree(s, m) && Numbered(ops, last) && forall k :: 0 <= k < |s| ==> s[k].seqNo <= last
    ensures HeapRun(s, ops) == ListRun(m, ops)
    decreases |ops|
  {
    if ops != [] {
      var op := ops[0];
      StepsAgree(s, m, op);
      var s' := HeapStep(s, op).0;
      var last' := if op.OpPush? then op.e.seqNo else last;
      forall k | 0 <= k < |s'| ensures s'[k].seqNo <= last' {
        StepMembers(s, op, s'[k]);
      }
      RunsAgree(s', ListStep(m, op).0, ops[1..], last');
    }
  }

  lemma StepMembers<T>(s: seq<Element<T>>, op: Op<T>, x: Element<T>)
    requires HeapOrdered(s) && x in HeapStep(s, op).0
    ensures x in s || (op.OpPush? && x == op.e)
  {
    var s' := HeapStep(s, op).0;
    assert x in multiset(s');
    match op
    case OpPush(e) => HeapPushOrders(s, e); assert x in multiset(s) + multiset{e};
    case OpPop => if s != [] { PopIsRemoveFirst(s); RemoveCounts(s, 0); assert x in multiset(s); }
    case OpPeek =>
    case OpRemove(e) => if e in s { RemoveCounts(s, IndexOf(s, e)); assert x in multiset(s); }
  }

  // ---------- the queue object ----------

  /** The package variable `sequence`, shared by all queues. */
  class Sequence {
    var last: nat
    constructor () ensures last == 0 { last := 0; }
  }

  /** Every slot's element knows the slot and the queue. */
  ghost predicate Linked<T>(pq: PriorityQueue<T>, s: seq<Element<T>>)
    reads s
  {
    forall i :: 0 <= i < |s| ==> s[i].index == i && s[i].heap == pq
  }

  class PriorityQueue<T> {
    const sequence: Sequence
    var items: seq<Element<T>>
    /** The sorted list that the queue stands for. */
    ghost var model: seq<Element<T>>
    /** Every element this queue ever handed out. */
    ghost var issued: set<Element<T>>

    ghost predicate Valid()
      reads this, issued, sequence
    {
      && (forall i :: 0 <= i < |items| ==> items[i] in issued && items[i].seqNo <= sequence.last)
      && Linked(this, items)
      && (forall e :: e in issued && e !in items ==> e.heap == null && e.index == -1)
      && Agree(items, model)
    }

    constructor (sequence: Sequence)
      ensures Valid() && model == [] && issued == {} && this.sequence == sequence
    {
      this.sequence := sequence;
      items, model, issued := [], [], {};
    }

    method Swap(i: nat, j: nat)
      requires i < |items| && j < |items| && Linked(this, items)
      modifies this`items, items
      ensures items == Swapped(old(items), i, j) && Linked(this, items)
      ensures forall k :: 0 <= k < |items| ==> items[k] in old(items)
    {
      items := items[i := items[j]][j := items[i]];
      items[i].index := i;
      items[j].index := j;
    }

    method SiftUp(start: nat)
      requires start < |items| && Linked(this, items)
      modifies this`items, items
      ensures items == Up(old(items), start) && Linked(this, items)
    {
      var j: nat := start;
      while j > 0 && Less(items[j], items[Parent(j)])
        invariant j < |items| && Linked(this, items)
        invariant Up(items, j) == Up(old(items), start)
        invariant forall k :: 0 <= k < |items| ==> items[k] in old(items)
      {
        Swap(Parent(j), j);
        j := Parent(j);
      }
    }

    /** One turn of the loop of `down`. */
    method Sink(i: nat, n: nat) returns (moved: bool, j: nat)
      requires i < n <= |items| && Linked(this, items)
      modifies this`items, items
      ensures var s := old(items)[..n];
        && moved == Sinks(s, i) && |items| == |old(items)|
        && (moved ==> j == Child(s, i) && items[..n] == Swapped(s, i, j))
        && (!moved ==> items == old(items))
      ensures items[n..] == old(items)[n..] && Linked(this, items)
      ensures forall k :: 0 <= k < |items| ==> items[k] in old(items)
    {
      j := 2 * i + 1;
      if j >= n {
        return false, j;
      }
      ChildOfPrefix(items, i, n);
      if j + 1 < n && Less(items[j + 1], items[j]) { j := j + 1; }
      if !Less(items[j], items[i]) {
        return false, j;
      }
      assert Swapped(items, i, j)[..n] == Swapped(items[..n], i, j);
      assert Swapped(items, i, j)[n..] == items[n..];
      Swap(i, j);
      moved := true;
    }

    /** Sifts within the first `n` slots; answers whether the element moved. */
    method SiftDown(start: nat, n: nat) returns (moved: bool)
      requires start < n <= |items| && Linked(this, items)
      modifies this`items, items
      ensures |items| == |old(items)| && items[..n] == Down(old(items)[..n], start)
      ensures items[n..] == old(items)[n..] && Linked(this, items)
      ensures moved == Sinks(old(items)[..n], start)
      ensures forall k :: 0 <= k < |items| ==> items[k] in old(items)
    {
      ghost var s := items[..n];
      var j: nat;
      moved, j := Sink(start, n);
      var more := moved;
      while more
        invariant |items| == |old(items)| && Linked(this, items)
        invariant more ==> j < n && Down(items[..n], j) == Down(s, start)
        invariant !more ==> items[..n] == Down(s, start)
        invariant items[n..] == old(items)[n..]
        invariant forall k :: 0 <= k < |items| ==> items[k] in old(items)
        decreases n - j, more
      {
        var i := j;
        more, j := Sink(i, n);
        if !more { j := i; }
      }
    }

    /** `heap.Push`. */
    method Append(e: Element<T>)
      requires Linked(this, items) && e !in items
      modifies this`items, items, e
      ensures items == HeapPush(old(items), e) && Linked(this, items)
    {
      e.index, e.heap := |items|, this;
      items := items + [e];
      SiftUp(|items| - 1);
    }

    method Push(value: T, priority: int) returns (e: Element<T>)
      requires Valid()
      modifies this, issued, sequence
      ensures Valid() && fresh(e) && e.value == value && e.priority == priority
      ensures model == ListInsert(old(model), e) && issued == old(issued) + {e}
      ensures e in items && sequence.last == old(sequence.last) + 1 == e.seqNo
    {
      hide Agree, ListInsert;
      sequence.last := sequence.last + 1;
      e := new Element<T>(value, priority, sequence.last);
      Place(e);
    }

    /** Puts a new element in its place. */
    method Place(e: Element<T>)
      requires Valid() && e !in issued && e.seqNo <= sequence.last
      requires forall i :: 0 <= i < |items| ==> items[i].seqNo < e.seqNo
      modifies this`items, this`model, this`issued, issued, e
      ensures Valid() && e in items
      ensures model == ListInsert(old(model), e) && issued == old(issued) + {e}
    {
      ghost var s := items;
      PushAgrees(s, model, e);
      PushMembers(s, e);
      Append(e);
      model := ListInsert(model, e);
      issued := issued + {e};
      forall x | x in issued && x !in items ensures x.heap == null && x.index == -1 {
        assert x != e && x !in s;
      }
    }

    /** Takes the last slot off, as `_Heap.Pop` does. */
    method DropLast() returns (e: Element<T>)
      requires items != [] && Linked(this, items)
      modifies this`items, items[|items| - 1]
      ensures items == old(items)[..|old(items)| - 1] && Linked(this, items)
      ensures e == old(items)[|old(items)| - 1] && e.index == -1 && e.heap == null && e !in items
    {
      var n := |items| - 1;
      e := items[n];
      items := items[..n];
      e.index, e.heap := -1, null;
    }

    /** Slot `i` sinks, or else rises, in front of the last slot. */
    method Resift(i: nat, ghost t: seq<Element<T>>, ghost e: Element<T>)
      requires i < |t| && items == t + [e] && Linked(this, items)
      modifies this`items, items
      ensures items == Sifted(t, i) + [e] && Linked(this, items)
    {
      var n := |items| - 1;
      assert items[..n] == t;
      var moved := SiftDown(i, n);
      assert items == items[..n] + items[n..];
      if !moved {
        UpOfPrefix(t, e, i);
        SiftUp(i);
      }
    }

    method SwapLast(i: nat)
      requires i < |items| - 1 && Linked(this, items)
      modifies this`items, items
      ensures items == Filled(old(items), i) + [old(items)[i]] && Linked(this, items)
      ensures forall k :: 0 <= k < |items| ==> items[k] in old(items)
    {
      Swap(i, |items| - 1);
    }

    /** Slot `i`, not the last, is exchanged with the last one and sifted. */
    method Exchange(i: nat)
      requires i < |items| - 1 && Linked(this, items)
      modifies this`items, items
      ensures items == HeapRemove(old(items), i) + [old(items)[i]] && Linked(this, items)
    {
      ghost var s := items;
      SwapLast(i);
      Resift(i, Filled(s, i), s[i]);
    }

    /** `heap.Remove`. */
    method RemoveAt(i: nat) returns (e: Element<T>)
      requires i < |items| && Linked(this, items)
      modifies this`items, items
      ensures items == HeapRemove(old(items), i) && Linked(this, items)
      ensures e == old(items)[i] && e.index == -1 && e.heap == null
    {
      if |items| - 1 != i {
        RemoveMembers(items, i);
        Exchange(i);
      }
      e := DropLast();
    }

    /** Takes the element of slot `i` out of heap and model. */
    method TakeAt(i: nat) returns (e: Element<T>)
      requires Valid() && i < |items|
      modifies this, issued
      ensures Valid() && issued == old(issued)
      ensures e == old(items)[i] && model == ListRemove(old(model), e)
      ensures e.heap == null && e.index == -1
    {
      ghost var s := items;
      RemoveAgrees(s, model, i);
      RemoveMembers(s, i);
      e := RemoveAt(i);
      model := ListRemove(model, e);
      forall x | x in issued && x !in items ensures x.heap == null && x.index == -1 {
        assert x == e || x !in s;
      }
    }

    method Pop() returns (e: Element<T>)
      requires Valid() && items != []
      modifies this, issued
      ensures Valid() && issued == old(issued)
      ensures old(model) != [] && e == old(model)[0] && model == old(model)[1..]
      ensures e.heap == null && e.index == -1
      ensures forall x :: x in old(items) ==>
        e.priority < x.priority || (e.priority == x.priority && e.seqNo <= x.seqNo)
    {
      RootIsFirst(items);
      HeadsAgree(items, model);
      e := TakeAt(0);
    }

    method Peek() returns (e: Element<T>)
      requires Valid() && items != []
      ensures model != [] && e == model[0]
      ensures forall x :: x in items ==>
        e.priority < x.priority || (e.priority == x.priority && e.seqNo <= x.seqNo)
    {
      RootIsFirst(items);
      HeadsAgree(items, model);
      e := items[0];
    }

    /** A handle this queue gave out is removed if it is still queued; a stale one, or one of
        another queue, is refused and nothing changes. */
    method Remove(e: Element<T>) returns (ok: bool)
      requires Valid() && (e in issued || e.heap != this)
      modifies this, issued
      ensures Valid() && issued == old(issued)
      ensures ok == (e in old(model)) && model == ListRemove(old(model), e)
      ensures !ok ==> items == old(items)
      ensures !ok ==> forall x :: x in issued ==> x.index == old(x.index) && x.heap == old(x.heap)
    {
      SameMember(items, model, e);
      if e.heap != this || e.index == -1 {
        ListRemoveAbsent(model, e);
        return false;
      }
      var _ := TakeAt(e.index);
      ok := true;
    }

    method Len() returns (n: nat)
      requires Valid()
      ensures n == |model|
    {
      SizesAgree(items, model);
      n := |items|;
    }
  }

  lemma PushMembers<T>(s: seq<Element<T>>, e: Element<T>)
    requires HeapOrdered(s)
    ensures var r := HeapPush(s, e);
      && (forall k :: 0 <= k < |r| ==> r[k] in s || r[k] == e)
      && (forall k :: 0 <= k < |s| ==> s[k] in r) && e in r
  {
    HeapPushOrders(s, e);
    var r := HeapPush(s, e);
    forall k | 0 <= k < |r| ensures r[k] in s || r[k] == e { assert r[k] in multiset(r); }
    forall k | 0 <= k < |s| ensures s[k] in r { assert s[k] in multiset(r); }
    assert e in multiset(r);
  }

  lemma RemoveMembers<T>(s: seq<Element<T>>, i: nat)
    requires i < |s|
    ensures var r := HeapRemove(s, i);
      && (forall k :: 0 <= k < |r| ==> r[k] in s)
      && (forall k :: 0 <= k < |s| && s[k] != s[i] ==> s[k] in r)
  {
    RemoveCounts(s, i);
    var r := HeapRemove(s, i);
    forall k | 0 <= k < |r| ensures r[k] in s { assert r[k] in multiset(r); }
    forall k | 0 <= k < |s| && s[k] != s[i] ensures s[k] in r { assert s[k] in multiset(r); }
  }

  lemma {:induction false} UpOfPrefix<T>(s: seq<Element<T>>, e: Element<T>, i: nat)
    requires i < |s|
    ensures Up(s + [e], i) == Up(s, i) + [e]
    decreases i
  {
    if i > 0 && Less(s[i], s[Parent(i)]) {
      assert Swapped(s + [e], Parent(i), i) == Swapped(s, Parent(i), i) + [e];
      UpOfPrefix(Swapped(s, Parent(i), i), e, Parent(i));
    }
  }

  lemma ChildOfPrefix<T>(s: seq<Element<T>>, i: nat, n: nat)
    requires 2 * i + 1 < n <= |s|
    ensures Child(s[..n], i) ==
      if 2 * i + 2 < n && Less(s[2 * i + 2], s[2 * i + 1]) then 2 * i + 2 else 2 * i + 1
    ensures forall k :: 0 <= k < n ==> s[..n][k] == s[k]
  {}

}
