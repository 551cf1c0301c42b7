/**
 Why the event loop may be modelled with a plain list for its delayed tasks: with deadlines as
 priorities, the sorted list behind the priority queue is the list the loop is modelled on.
 */
module ExecutorQueue {
  import opened ExecutorLoop
  import PQ = PriorityQueues

  function Values(m: seq<PQ.Element<nat>>): seq<nat> { seq(|m|, i requires 0 <= i < |m| => m[i].value) }

  /** The element was pushed with its task's deadline as priority. */
  predicate Priced(l: Loop, e: PQ.Element<nat>) { e.priority == l.Deadline(e.value) }

  /** Pushing a task on the queue puts it behind every task that is due no later. */
  lemma {:induction false} PushIsInsert(l: Loop, m: seq<PQ.Element<nat>>, e: PQ.Element<nat>)
    requires Priced(l, e) && forall k :: 0 <= k < |m| ==> Priced(l, m[k]) && m[k].seqNo < e.seqNo
    ensures Values(PQ.ListInsert(m, e)) == Insert(l, Values(m), e.value)
  {
    if m != [] {
      assert Values(m)[0] == m[0].value && Values(m)[1..] == Values(m[1..]);
      assert Priced(l, m[0]) && m[0].seqNo < e.seqNo;
      if PQ.Less(e, m[0]) {
        assert Values([e] + m) == [e.value] + Values(m);
      } else {
        PushIsInsert(l, m[1..], e);
        assert Values([m[0]] + PQ.ListInsert(m[1..], e)) == [m[0].value] + Values(PQ.ListInsert(m[1..], e));
      }
    }
  }

  /** Removing a handle takes its task out; every queued task has one handle. */
  lemma {:induction false} RemoveIsRemove(m: seq<PQ.Element<nat>>, e: PQ.Element<nat>)
    requires forall k :: 0 <= k < |m| && m[k].value == e.value ==> m[k] == e
    ensures Values(PQ.ListRemove(m, e)) == Remove(Values(m), e.value)
  {
    if m != [] {
      assert Values(m)[0] == m[0].value && Values(m)[1..] == Values(m[1..]);
      if m[0] != e {
        RemoveIsRemove(m[1..], e);
        assert Values([m[0]] + PQ.ListRemove(m[1..], e)) == [m[0].value] + Values(PQ.ListRemove(m[1..], e));
      }
    }
  }

  /** Peeking and popping see the first task of the list. */
  lemma PopIsHead(s: seq<PQ.Element<nat>>, m: seq<PQ.Element<nat>>)
    requires PQ.Agree(s, m) && s != []
    ensures Values(m) != [] && s[0].value == Values(m)[0]
    ensures PQ.Agree(PQ.HeapPop(s), m[1..]) && Values(m[1..]) == Values(m)[1..]
  {
    PQ.PopAgrees(s, m);
  }
}
