/** Linearizability of a history of calls against the sequential map, and the ways a linearization grows. */
module Linearizability {
  import opened Bytes
  import opened KvSpec
  import opened Chain

  datatype Entry = Entry(id: Id, op: Op, answer: Answer)

  /** The map a sequential user ends with after these operations. */
  function StoreAfter(order: seq<Entry>): Store {
    if order == [] then map[] else After(order[|order| - 1].op, StoreAfter(order[..|order| - 1]))
  }

  /** Every answer is the one the sequential map gives at that point. */
  ghost predicate Legal(order: seq<Entry>) {
    forall y :: 0 <= y < |order| ==> order[y].answer == KvSpec.Reply(order[y].op, StoreAfter(order[..y]))
  }

  ghost predicate Ordered(order: seq<Entry>, c: Id) {
    exists y :: 0 <= y < |order| && order[y].id == c
  }

  ghost predicate OrderedBefore(order: seq<Entry>, c: Id, y: nat) {
    exists x :: 0 <= x < y && x < |order| && order[x].id == c
  }

  /** The order holds each call at most once, only calls that were made, every call that was answered, with
      the answer it got; it makes sense to the sequential map; and a call that was answered before
      another was made comes before it. */
  ghost predicate IsLinearization(h: seq<Event>, order: seq<Entry>) {
    && (forall x, y :: 0 <= x < y < |order| ==> order[x].id != order[y].id)
    && (forall y :: 0 <= y < |order| ==> Invoke(order[y].id, order[y].op) in h)
    && (forall p :: 0 <= p < |h| && h[p].Return? ==>
          exists y :: 0 <= y < |order| && order[y].id == h[p].id && order[y].answer == h[p].answer)
    && Legal(order)
    && RealTime(h, order)
  }

  ghost predicate RealTime(h: seq<Event>, order: seq<Entry>) {
    forall p, q, y :: 0 <= p < q < |h| && 0 <= y < |order| && h[p].Return? && h[q].Invoke? && order[y].id == h[q].id
                      ==> OrderedBefore(order, h[p].id, y)
  }

  ghost predicate Linearizable(h: seq<Event>) {
    exists order :: IsLinearization(h, order)
  }

  ghost predicate Answered(h: seq<Event>, c: Id) {
    exists p :: 0 <= p < |h| && h[p].Return? && h[p].id == c
  }

  /** Ids are never reused: at most one call and at most one answer each, the answer after the call. */
  ghost predicate WellFormed(h: seq<Event>) {
    && (forall p, q :: 0 <= p < q < |h| && h[p].id == h[q].id ==> h[p].Invoke? && h[q].Return?)
    && (forall q :: 0 <= q < |h| && h[q].Return? ==> exists p :: 0 <= p < q && h[p].Invoke? && h[p].id == h[q].id)
  }

  // ----- growth

  lemma StoreAfterAppend(order: seq<Entry>, e: Entry)
    ensures StoreAfter(order + [e]) == After(e.op, StoreAfter(order))
  {
    assert (order + [e])[..|order|] == order;
  }

  lemma OrderedAppend(order: seq<Entry>, e: Entry, c: Id)
    ensures Ordered(order + [e], c) <==> Ordered(order, c) || c == e.id
  {
    var more := order + [e];
    assert more[|order|] == e;
    if y :| 0 <= y < |order| && order[y].id == c {
      assert more[y].id == c;
    }
  }

  lemma LegalAppend(order: seq<Entry>, e: Entry)
    requires Legal(order) && e.answer == KvSpec.Reply(e.op, StoreAfter(order))
    ensures Legal(order + [e])
  {
    var more := order + [e];
    forall y | 0 <= y < |more| ensures more[y].answer == KvSpec.Reply(more[y].op, StoreAfter(more[..y])) {
      assert more[..y] == order[..y];
      assert y == |order| ==> order[..y] == order;
    }
  }

  lemma AnsweredStayOrdered(h: seq<Event>, order: seq<Entry>, e: Entry, p: nat)
    requires IsLinearization(h, order) && p < |h| && h[p].Return?
    ensures exists y :: 0 <= y < |order + [e]| && (order + [e])[y].id == h[p].id && (order + [e])[y].answer == h[p].answer
  {
    hide Legal, RealTime;
    var y :| 0 <= y < |order| && order[y].id == h[p].id && order[y].answer == h[p].answer;
    assert (order + [e])[y] == order[y];
  }

  /** What takes effect last comes after all that was answered. */
  lemma RealTimeAppend(h: seq<Event>, order: seq<Entry>, e: Entry)
    requires IsLinearization(h, order)
    ensures RealTime(h, order + [e])
  {
    hide Legal;
    var more := order + [e];
    forall p, q, y | 0 <= p < q < |h| && 0 <= y < |more| && h[p].Return? && h[q].Invoke? && more[y].id == h[q].id
      ensures OrderedBefore(more, h[p].id, y)
    {
      if y < |order| {
        assert OrderedBefore(order, h[p].id, y);
        var x :| 0 <= x < y && x < |order| && order[x].id == h[p].id;
        assert more[x].id == h[p].id;
      } else {
        var x :| 0 <= x < |order| && order[x].id == h[p].id && order[x].answer == h[p].answer;
        assert more[x].id == h[p].id;
      }
    }
  }

  /** A call that was made and not ordered yet may take effect now. */
  lemma TakeEffect(h: seq<Event>, order: seq<Entry>, e: Entry)
    requires IsLinearization(h, order) && !Ordered(order, e.id)
    requires Invoke(e.id, e.op) in h && e.answer == KvSpec.Reply(e.op, StoreAfter(order))
    ensures IsLinearization(h, order + [e])
  {
    hide Legal, RealTime;
    var more := order + [e];
    LegalAppend(order, e);
    RealTimeAppend(h, order, e);
    forall p | 0 <= p < |h| && h[p].Return?
      ensures exists y :: 0 <= y < |more| && more[y].id == h[p].id && more[y].answer == h[p].answer
    {
      AnsweredStayOrdered(h, order, e, p);
    }
  }

  /** A new call may be made: nothing about it is ordered yet. */
  lemma NewCall(h: seq<Event>, order: seq<Entry>, c: Id, op: Op)
    requires IsLinearization(h, order) && !Ordered(order, c)
    ensures IsLinearization(h + [Invoke(c, op)], order)
  {
    hide Legal;
    var h' := h + [Invoke(c, op)];
    forall p, q, y | 0 <= p < q < |h'| && 0 <= y < |order| && h'[p].Return? && h'[q].Invoke? && order[y].id == h'[q].id
      ensures OrderedBefore(order, h'[p].id, y)
    {
      assert h'[p] == h[p];
      assert q < |h| && h'[q] == h[q];
    }
  }

  /** A call may be answered as it was ordered. */
  lemma NewAnswer(h: seq<Event>, order: seq<Entry>, c: Id, op: Op, answer: Answer)
    requires IsLinearization(h, order) && Entry(c, op, answer) in order
    ensures IsLinearization(h + [Return(c, answer)], order)
  {
    hide Legal;
    var h' := h + [Return(c, answer)];
    forall p, q, y | 0 <= p < q < |h'| && 0 <= y < |order| && h'[p].Return? && h'[q].Invoke? && order[y].id == h'[q].id
      ensures OrderedBefore(order, h'[p].id, y)
    {
      assert q < |h| && h'[q] == h[q] && h'[p] == h[p];
    }
    forall p | 0 <= p < |h'| && h'[p].Return?
      ensures exists y :: 0 <= y < |order| && order[y].id == h'[p].id && order[y].answer == h'[p].answer
    {
      if p < |h| {
        assert h'[p] == h[p];
      }
    }
  }

  // ----- the updates inside an order

  function UpdatesOf(order: seq<Entry>): seq<Update> {
    if order == [] then []
    else
      var e := order[|order| - 1];
      var rest := UpdatesOf(order[..|order| - 1]);
      if IsUpdate(e.op) && Accepted(e.op) then rest + [Update(e.id, e.op)] else rest
  }

  lemma UpdatesOfAppend(order: seq<Entry>, e: Entry)
    ensures UpdatesOf(order + [e]) ==
            if IsUpdate(e.op) && Accepted(e.op) then UpdatesOf(order) + [Update(e.id, e.op)] else UpdatesOf(order)
  {
    assert (order + [e])[..|order|] == order;
  }

  /** Reads and refused puts leave no trace: the order and its updates lead to the same map. */
  lemma {:induction false} UpdatesDecideTheStore(order: seq<Entry>)
    ensures StoreAfter(order) == Replay(UpdatesOf(order))
  {
    if order != [] {
      var init := order[..|order| - 1];
      var e := order[|order| - 1];
      UpdatesDecideTheStore(init);
      if IsUpdate(e.op) && Accepted(e.op) {
        assert (UpdatesOf(init) + [Update(e.id, e.op)])[..|UpdatesOf(init)|] == UpdatesOf(init);
      }
    }
  }

  lemma {:induction false} UpdatesOfHolds(order: seq<Entry>, e: Entry)
    requires e in order && IsUpdate(e.op) && Accepted(e.op)
    ensures Update(e.id, e.op) in UpdatesOf(order)
  {
    var last := |order| - 1;
    if order[last] != e {
      UpdatesOfHolds(order[..last], e);
    }
  }

  lemma {:induction false} UpdateWasOrdered(order: seq<Entry>, x: nat)
    requires x < |UpdatesOf(order)|
    ensures exists y :: 0 <= y < |order| && order[y].id == UpdatesOf(order)[x].id && order[y].op == UpdatesOf(order)[x].op
  {
    var init := order[..|order| - 1];
    if x < |UpdatesOf(init)| {
      UpdateWasOrdered(init, x);
      var y :| 0 <= y < |init| && init[y].id == UpdatesOf(init)[x].id && init[y].op == UpdatesOf(init)[x].op;
      assert order[y] == init[y];
    }
  }
}
