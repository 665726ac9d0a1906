/** What a client sees of an update that was answered and lost: a later read contradicts the answer. */
module ChainStale {
  import opened Bytes
  import opened KvSpec
  import opened RwSpec
  import opened Chain
  import opened ChainInvariant
  import opened Linearizability
  import opened AnswerLaws
  import opened ChainSafety
  import opened ChainTheorems
  import opened ChainResults
  import opened ChainProgress
  import opened ChainLimits
  import opened ChainLoss

  // ----- histories

  predicate AnsweredBefore(h: seq<Event>, c: Id, q: nat) {
    exists r :: 0 <= r < q && r < |h| && h[r].Return? && h[r].id == c
  }

  /** Whatever else was to change the key had been answered when the call was made. */
  ghost predicate Alone(h: seq<Event>, c: Id, k: CString) {
    forall p, q :: 0 <= p < |h| && 0 <= q < |h| && h[p].Invoke? && h[q].Invoke?
                   ==> h[p].id != c && Changes(h[p].op, k) && h[q].id == c ==> AnsweredBefore(h, h[p].id, q)
  }

  /** The history after the answer to c and a get, called d, that follows it. */
  function ThenGet(h: seq<Event>, c: Id, a: Answer, d: Id, k: CString, r: Answer): seq<Event> {
    h + [Return(c, a), Invoke(d, Get(k)), Return(d, r)]
  }

  /** After an update of the key, and nothing else that changes it, the key is as the update left it. */
  lemma {:induction false} LastUpdateStays(order: seq<Entry>, x: nat, k: CString)
    requires x < |order| && Changes(order[x].op, k)
    requires forall z :: x < z < |order| ==> !Changes(order[z].op, k)
    ensures forall m :: KvSpec.Reply(Get(k), StoreAfter(order)) == KvSpec.Reply(Get(k), After(order[x].op, m))
  {
    var init := order[..|order| - 1];
    if x < |order| - 1 { LastUpdateStays(init, x, k); }
  }

  /** What else changes the key comes before an update that was alone. */
  lemma ChangedEarlier(h: seq<Event>, order: seq<Entry>, c: Id, op: Op, k: CString, x: nat, z: nat)
    requires IsLinearization(h, order) && Invoke(c, op) in h && Alone(h, c, k)
    requires x < |order| && z < |order| && order[x].id == c && order[z].id != c && Changes(order[z].op, k)
    ensures OrderedBefore(order, order[z].id, x)
  {
    hide Legal, Changes;
    var e := order[z];
    var p :| 0 <= p < |h| && h[p] == Invoke(e.id, e.op);
    var q :| 0 <= q < |h| && h[q] == Invoke(c, op);
    assert AnsweredBefore(h, e.id, q);
  }

  /** In a linearization, nothing changes the key between such an update and a get called after its answer. */
  lemma NothingBetween(h: seq<Event>, order: seq<Entry>, c: Id, op: Op, k: CString, x: nat, z: nat)
    requires IsLinearization(h, order) && Invoke(c, op) in h && Alone(h, c, k)
    requires x < z < |order| && order[x].id == c
    ensures !Changes(order[z].op, k)
  {
    hide Legal, RealTime, Alone, Changes;
    if Changes(order[z].op, k) {
      ChangedEarlier(h, order, c, op, k, x, z);
    }
  }

  lemma AloneLater(h: seq<Event>, c: Id, op: Op, a: Answer, d: Id, k: CString, r: Answer)
    requires Alone(h, c, k) && c != d
    ensures Alone(ThenGet(h, c, a, d, k, r), c, k)
  {
    var h' := ThenGet(h, c, a, d, k, r);
    forall p, q | 0 <= p < |h'| && 0 <= q < |h'| && h'[p].Invoke? && h'[q].Invoke?
                  && h'[p].id != c && Changes(h'[p].op, k) && h'[q].id == c
      ensures AnsweredBefore(h', h'[p].id, q)
    {
      assert p < |h| && q < |h| && h'[p] == h[p] && h'[q] == h[q];
      assert AnsweredBefore(h, h[p].id, q);
      var x :| 0 <= x < q && h[x].Return? && h[x].id == h[p].id;
      assert h'[x] == h[x];
    }
  }

  /** Whoever calls get after the answer to an update, with no other update of the key around, has to be told what
      the update left. */
  lemma GetSeesTheUpdate(h: seq<Event>, c: Id, op: Op, a: Answer, d: Id, r: Answer, order: seq<Entry>)
    requires Invoke(c, op) in h && IsUpdate(op) && Accepted(op) && Alone(h, c, op.key)
    requires c != d && forall p :: 0 <= p < |h| ==> h[p].id != d
    requires WellFormed(h) && IsLinearization(ThenGet(h, c, a, d, op.key, r), order)
    ensures forall m :: r == KvSpec.Reply(Get(op.key), After(op, m))
  {
    hide Alone, Changes, Legal, WellFormed;
    var k := op.key;
    var h' := ThenGet(h, c, a, d, k, r);
    var y := AnsweredAt(h, c, a, d, k, r, order);
    assert h'[|h|] == Return(c, a) && h'[|h| + 1] == Invoke(d, Get(k));
    assert OrderedBefore(order, c, y);
    var x :| 0 <= x < y && order[x].id == c;
    assert Invoke(c, order[x].op) in h' && Invoke(c, order[x].op) in h;
    SameOp(h, c, op, order[x].op);
    assert Invoke(c, op) in h';
    AloneLater(h, c, op, a, d, k, r);
    forall z | x < z < y ensures !Changes(order[z].op, k) {
      NothingBetween(h', order, c, op, k, x, z);
    }
    assert Changes(op, k) by { ChangesItsKey(op); }
    LastUpdateStays(order[..y], x, k);
  }

  lemma ChangesItsKey(op: Op)
    requires IsUpdate(op) && Accepted(op)
    ensures Changes(op, op.key)
  {
  }

  lemma AnsweredAt(h: seq<Event>, c: Id, a: Answer, d: Id, k: CString, r: Answer, order: seq<Entry>) returns (y: nat)
    requires c != d && forall p :: 0 <= p < |h| ==> h[p].id != d
    requires IsLinearization(ThenGet(h, c, a, d, k, r), order)
    ensures y < |order| && order[y] == Entry(d, Get(k), r) && r == KvSpec.Reply(Get(k), StoreAfter(order[..y]))
  {
    hide RealTime;
    var h' := ThenGet(h, c, a, d, k, r);
    assert h'[|h| + 2] == Return(d, r);
    y :| 0 <= y < |order| && order[y].id == d && order[y].answer == r;
    assert Invoke(d, order[y].op) in h';
    var p :| 0 <= p < |h'| && h'[p] == Invoke(d, order[y].op);
    assert p == |h| + 1;
  }

  lemma UnchangedShows(op: Op, m: Store)
    requires IsUpdate(op) && Accepted(op)
    ensures KvSpec.Reply(Get(op.key), m) == KvSpec.Reply(Get(op.key), After(op, m)) <==> After(op, m) == m
  {
  }

  // ----- a read at the tail

  /** A read gets through the locks and reads the table. */
  lemma ReadsInFour(sv: Server, d: Id, op: Op)
    requires sv.lock.writer == None && sv.stats == None && !IsUpdate(op)
    ensures var sv0 := sv.(calls := sv.calls[d := Call(op, Client, Wait, Failed)]);
            CanAdvance(sv0, d) &&
            var sv1 := Advance(sv0, d);
            CanAdvance(sv1, d) &&
            var sv2 := Advance(sv1, d);
            CanAdvance(sv2, d) &&
            var sv3 := Advance(sv2, d);
            CanAdvance(sv3, d) &&
            var sv4 := Advance(sv3, d);
            d in sv4.calls && sv4.calls[d] == Call(op, Client, Back, KvSpec.Reply(op, sv.table)) && sv4.stats == None
  {
    hide After, KvSpec.Reply;
  }

  lemma LeavesInThree(sv: Server, d: Id)
    requires d in sv.calls && sv.calls[d].stage == Back && sv.stats == None
    ensures CanAdvance(sv, d) &&
            var sv1 := Advance(sv, d);
            CanAdvance(sv1, d) &&
            var sv2 := Advance(sv1, d);
            CanAdvance(sv2, d) &&
            var sv3 := Advance(sv2, d);
            d in sv3.calls && sv3.calls[d] == sv.calls[d].(stage := Finished)
  {
    hide After, KvSpec.Reply;
  }

  /** The last part of a read: it leaves the locks and is answered. */
  lemma ReadLeaves(t: Chain, j: nat, d: Id) returns (more: seq<Label>)
    requires j < |t.servers| && d in t.servers[j].calls && t.servers[j].stats == None
    requires t.servers[j].calls[d].stage == Back && t.servers[j].calls[d].from == Client
    ensures Possible(t, more) && Run(t, more).history == t.history + [Return(d, t.servers[j].calls[d].answer)]
  {
    hide Advance, CanAdvance, Possible, Run;
    LeavesInThree(t.servers[j], d);
    var l, a := Local(j, d), Respond(j, d);
    var t1 := Do(t, l);
    var t2 := Do(t1, l);
    var t3 := Do(t2, l);
    NoSteps(Do(t3, a));
    Then(t3, a, []);
    Then(t2, l, [a] + []);
    Then(t1, l, [l] + ([a] + []));
    Then(t, l, [l] + ([l] + ([a] + [])));
    more := [l] + ([l] + ([l] + ([a] + [])));
  }

  lemma ReadIsServed(t: Chain, j: nat, op: Op) returns (more: seq<Label>)
    requires j < |t.servers| && t.servers[j].lock.writer == None && t.servers[j].stats == None && !IsUpdate(op)
    ensures Possible(t, more)
    ensures Run(t, more).history == t.history + [Invoke(t.next, op), Return(t.next, KvSpec.Reply(op, t.servers[j].table))]
  {
    hide Advance, CanAdvance, Possible, Run, KvSpec.Reply;
    var d := t.next;
    ReadsInFour(t.servers[j], d, op);
    var l := Local(j, d);
    var t0 := Do(t, Send(op, j));
    var t1 := Do(t0, l);
    var t2 := Do(t1, l);
    var t3 := Do(t2, l);
    var t4 := Do(t3, l);
    var rest := ReadLeaves(t4, j, d);
    Then(t3, l, rest);
    Then(t2, l, [l] + rest);
    Then(t1, l, [l] + ([l] + rest));
    Then(t0, l, [l] + ([l] + ([l] + rest)));
    Then(t, Send(op, j), [l] + ([l] + ([l] + ([l] + rest))));
    more := [Send(op, j)] + ([l] + ([l] + ([l] + ([l] + rest))));
    assert t.history + [Invoke(d, op)] + [Return(d, KvSpec.Reply(op, t.servers[j].table))]
        == t.history + [Invoke(d, op), Return(d, KvSpec.Reply(op, t.servers[j].table))];
  }

  // ----- the tail's locks come free

  /** Server j has let go of its locks, with the same table. */
  ghost predicate Freed(t: Chain, j: nat, v: Chain)
    requires j < |t.servers|
  {
    && |v.servers| == |t.servers| && v.next == t.next && v.history == t.history
    && v.servers[j].lock.writer == None && v.servers[j].stats == None && v.servers[j].table == t.servers[j].table
  }

  /** Whoever holds the statistics lock gives it back in its next step. */
  lemma StatsComeFree(t: Chain, j: nat) returns (more: seq<Label>)
    requires j < |t.servers| && ServerInv(t.servers[j])
    ensures Possible(t, more)
    ensures var v := Run(t, more); var sv := t.servers[j];
            && v == t.(servers := v.servers) && |v.servers| == |t.servers|
            && ServerInv(v.servers[j]) && v.servers[j].stats == None
            && v.servers[j].lock == sv.lock && v.servers[j].table == sv.table
            && (forall d :: d in v.servers[j].calls <==> d in sv.calls)
            && (forall d :: d in sv.calls ==> (Early(v.servers[j].calls[d].stage) <==> Early(sv.calls[d].stage)))
  {
    hide Possible, Run, LockInv, CallInv, After, KvSpec.Reply, Replay;
    var sv := t.servers[j];
    if sv.stats == None {
      more := [];
      NoSteps(t);
    } else {
      var l := Local(j, sv.stats.value);
      AdvanceKeepsServer(sv, sv.stats.value);
      NoSteps(Do(t, l));
      Then(t, l, []);
      more := [l] + [];
    }
  }

  /** The writer of the last server does not wait for anybody, if it is past the table. */
  lemma WriterLeaves(t: Chain, e: Id) returns (more: seq<Label>)
    requires |t.servers| > 0 && ServerInv(t.servers[|t.servers| - 1]) && t.servers[|t.servers| - 1].stats == None
    requires var sv := t.servers[|t.servers| - 1];
             sv.lock.writer == Some(e) && e in sv.calls && !Early(sv.calls[e].stage)
    ensures Possible(t, more) && Freed(t, |t.servers| - 1, Run(t, more))
  {
    hide Possible, Run, After, KvSpec.Reply, Replay;
    var j := |t.servers| - 1;
    var sv := t.servers[j];
    var st := sv.calls[e].stage;
    if st == Leaving {
      NoSteps(Do(t, Local(j, e)));
      Then(t, Local(j, e), []);
      more := [Local(j, e)] + [];
    } else if st == Dropped || st == Back {
      more := Ends(t, j, e);
    } else {
      var l := if st == Applied then Skip(j, e) else LinkLost(j, e);
      var t' := Do(t, l);
      var rest := Closes(t', j, e);
      Then(t, l, rest);
      more := [l] + rest;
    }
  }

  lemma LocksComeFree(t: Chain) returns (more: seq<Label>)
    requires |t.servers| > 0 && ServerInv(t.servers[|t.servers| - 1])
    requires var sv := t.servers[|t.servers| - 1];
             sv.lock.writer.Some? && sv.lock.writer.value in sv.calls ==> !Early(sv.calls[sv.lock.writer.value].stage)
    ensures Possible(t, more) && Freed(t, |t.servers| - 1, Run(t, more))
  {
    hide Possible, Run, StatsInv, CallInv, Replay;
    var j := |t.servers| - 1;
    more := StatsComeFree(t, j);
    var u := Run(t, more);
    if u.servers[j].lock.writer.Some? {
      var on := WriterLeaves(u, u.servers[j].lock.writer.value);
      RunAppend(t, more, on);
      more := more + on;
    }
  }

  // ----- the main result

  lemma WriterIsServed(sv: Server)
    requires ServerInv(sv) && sv.lock.writer.Some?
    ensures sv.lock.writer.value in sv.calls && IsUpdate(sv.calls[sv.lock.writer.value].op)
  {
    hide StatsInv, CallInv, Replay;
  }

  /** While an update is under way to the tail, no other is. */
  lemma NoOtherIsComing(s: Chain, order: seq<Entry>, i: nat, c: Id, e: Id)
    requires InFlight(s, order, i, c) && e != c
    requires var tail := s.servers[|s.servers| - 1]; e in tail.calls && IsUpdate(tail.calls[e].op)
    ensures !Early(s.servers[|s.servers| - 1].calls[e].stage)
  {
    hide ReadsStay, AllKnown, IsLinearization, WellFormed, Ordered, ServerInv, LinkInv, KvSpec.Reply;
    var ss := s.servers;
    var tail := ss[|ss| - 1];
    assert ServerOrdered(tail, true, order) && CallOrdered(tail.calls[e], e, true, order);
    if Early(tail.calls[e].stage) {
      Upstream(ss, order, 0, |ss| - 1, e);
      ForwardedBefore(s, order, i, c, 0);
      OneWriter(ss[0], c, e);
    }
  }

  lemma TailWriterIsPast(s: Chain, order: seq<Entry>, i: nat, c: Id)
    requires InFlight(s, order, i, c) && s.servers[|s.servers| - 1].lock.writer != Some(c)
    ensures var tail := s.servers[|s.servers| - 1];
            && ServerInv(tail)
            && (tail.lock.writer.Some? ==>
                  tail.lock.writer.value in tail.calls && !Early(tail.calls[tail.lock.writer.value].stage))
  {
    hide Inv, ServerInv;
    var tail := s.servers[|s.servers| - 1];
    AllServersHold(s, order);
    if tail.lock.writer.Some? {
      WriterIsServed(tail);
      NoOtherIsComing(s, order, i, c, tail.lock.writer.value);
    }
  }

  lemma TailAfterLoss(s: Chain, i: nat)
    requires 0 < i && i + 1 < |s.servers| && ServerInv(s.servers[|s.servers| - 1])
    ensures |Lose(s, i).servers| == |s.servers| - 1
    ensures var tail, sv := s.servers[|s.servers| - 1], Lose(s, i).servers[|s.servers| - 2];
            && ServerInv(sv) && sv.lock == tail.lock && sv.table == tail.table
            && (forall d :: d in sv.calls <==> d in tail.calls)
            && (forall d :: d in sv.calls ==> sv.calls[d].stage == tail.calls[d].stage)
  {
    hide ServerInv, CutOut;
    CutOutAt(s.servers, i, |s.servers| - 2);
    OrphanedKeepsServer(s.servers[|s.servers| - 1]);
  }

  /** The answer arrives, and then a get reads the tail's table. */
  lemma AnsweredThenRead(s: Chain, order: seq<Entry>, i: nat, c: Id, k: CString) returns (more: seq<Label>)
    requires InFlight(s, order, i, c) && WaitsAt(s.servers, 0, c) && s.servers[|s.servers| - 1].lock.writer != Some(c)
    ensures Possible(Lose(s, i), more)
    ensures Run(Lose(s, i), more).history
         == ThenGet(s.history, c, s.servers[0].calls[c].answer, s.next, k, KvSpec.Reply(Get(k), s.servers[|s.servers| - 1].table))
  {
    hide Inv, Possible, Run, Lose, ServerInv, KvSpec.Reply;
    var t := Lose(s, i);
    TailWriterIsPast(s, order, i, c);
    TailAfterLoss(s, i);
    var first := AnswerClimbs(s, order, i, c);
    var u := Run(t, first);
    var second := LocksComeFree(u);
    var v := Run(u, second);
    var third := ReadIsServed(v, |v.servers| - 1, Get(k));
    RunAppend(u, second, third);
    RunAppend(t, first, second + third);
    more := first + (second + third);
  }

  /** An update that changes nothing may be lost: the order goes on with it and the read. */
  lemma HarmlessLoss(s: Chain, order: seq<Entry>, i: nat, c: Id)
    requires InFlight(s, order, i, c) && WaitsAt(s.servers, 0, c)
    requires After(s.servers[i].calls[c].op, s.servers[|s.servers| - 1].table) == s.servers[|s.servers| - 1].table
    ensures var k := s.servers[i].calls[c].op.key;
            Linearizable(ThenGet(s.history, c, s.servers[0].calls[c].answer, s.next, k, KvSpec.Reply(Get(k), s.servers[|s.servers| - 1].table)))
  {
    hide ServersInv, ReadsStay, AllKnown, IsLinearization, WellFormed, Ordered, KvSpec.Reply, After, Linearizable;
    var op, a, h, d := s.servers[i].calls[c].op, s.servers[0].calls[c].answer, s.history, s.next;
    ForwardedBefore(s, order, i, c, 0);
    CallMade(s, order, 0, c);
    TailHoldsTheStore(s, order);
    NextIsFresh(s, order);
    assert ServerOrdered(s.servers[0], false, order);
    assert CallOrdered(s.servers[0].calls[c], c, false, order);
    var e := Entry(c, op, a);
    TakeEffect(h, order, e);
    NewAnswer(h, order + [e], c, op, a);
    ReadGoesLast(h + [Return(c, a)], order + [e], order, e, d);
    var r := KvSpec.Reply(Get(op.key), StoreAfter(order));
    assert h + [Return(c, a)] + [Invoke(d, Get(op.key)), Return(d, r)] == ThenGet(h, c, a, d, op.key, r);
  }

  lemma ReadGoesLast(h: seq<Event>, order: seq<Entry>, before: seq<Entry>, e: Entry, d: Id)
    requires IsLinearization(h, order) && order == before + [e] && IsUpdate(e.op)
    requires !Ordered(before, d) && e.id != d && After(e.op, StoreAfter(before)) == StoreAfter(before)
    ensures var r := KvSpec.Reply(Get(e.op.key), StoreAfter(before)); Linearizable(h + [Invoke(d, Get(e.op.key)), Return(d, r)])
  {
    hide IsLinearization, Ordered, KvSpec.Reply, After;
    var op := Get(e.op.key);
    var r := KvSpec.Reply(op, StoreAfter(before));
    StoreAfterAppend(before, e);
    OrderedAppend(before, e, d);
    NewCall(h, order, d, op);
    var h1 := h + [Invoke(d, op)];
    assert h1[|h|] == Invoke(d, op);
    TakeEffect(h1, order, Entry(d, op, r));
    NewAnswer(h1, order + [Entry(d, op, r)], d, op, r);
    assert h1 + [Return(d, r)] == h + [Invoke(d, op), Return(d, r)];
  }

  lemma Contradicts(s: Chain, order: seq<Entry>, i: nat, c: Id)
    requires InFlight(s, order, i, c) && WaitsAt(s.servers, 0, c)
    requires Alone(s.history, c, s.servers[i].calls[c].op.key)
    ensures var k := s.servers[i].calls[c].op.key; var table := s.servers[|s.servers| - 1].table;
            Linearizable(ThenGet(s.history, c, s.servers[0].calls[c].answer, s.next, k, KvSpec.Reply(Get(k), table)))
            ==> After(s.servers[i].calls[c].op, table) == table
  {
    hide ServersInv, ReadsStay, AllKnown, AllOrdered, IsLinearization, WellFormed, Ordered, KvSpec.Reply, After, Alone, Accepted;
    var op, a, h, d, table := s.servers[i].calls[c].op, s.servers[0].calls[c].answer, s.history, s.next, s.servers[|s.servers| - 1].table;
    CallMade(s, order, i, c);
    OnlyHeadHearsClients(s.servers, i, c);
    if order' :| IsLinearization(ThenGet(h, c, a, d, op.key, KvSpec.Reply(Get(op.key), table)), order') {
      GetSeesTheUpdate(h, c, op, a, d, KvSpec.Reply(Get(op.key), table), order');
      UnchangedShows(op, table);
    }
  }

  /** An update that goes through a lost server and has not reached the tail, whose client still waits. Unless the
      update is at work in the tail already, the chain can answer the client and then serve a get of that
      key from the tail. When nothing else was to change the key meanwhile, that history is linearizable exactly
      if the update would have left the tail's table as it is. */
  lemma {:induction false} StaleRead(n: nat, ls: seq<Label>, i: nat, c: Id) returns (more: seq<Label>)
    requires n > 0 && Possible(Start(n), ls) && 0 < i && i + 1 < |Run(Start(n), ls).servers|
    requires var ss := Run(Start(n), ls).servers;
             && c in ss[i].calls && IsUpdate(ss[i].calls[c].op) && Update(c, ss[i].calls[c].op) !in ss[|ss| - 1].log
             && WaitsAt(ss, 0, c) && ss[|ss| - 1].lock.writer != Some(c)
    ensures var s := Run(Start(n), ls); var op := s.servers[i].calls[c].op; var table := s.servers[|s.servers| - 1].table;
            && Possible(Lose(s, i), more)
            && var h := Run(Lose(s, i), more).history;
               && h == s.history + [Return(c, s.servers[0].calls[c].answer),
                                    Invoke(s.next, Get(op.key)), Return(s.next, KvSpec.Reply(Get(op.key), table))]
               && (After(op, table) == table ==> Linearizable(h))
               && (Alone(s.history, c, op.key) && Linearizable(h) ==> After(op, table) == table)
  {
    hide Inv, Possible, Run, Lose, Alone, KvSpec.Reply, After, Linearizable;
    var s := Run(Start(n), ls);
    var order := OrderOf(n, ls);
    NotLoggedIsNotOrdered(s, i, c, order);
    var op := s.servers[i].calls[c].op;
    var table := s.servers[|s.servers| - 1].table;
    more := AnsweredThenRead(s, order, i, c, op.key);
    if After(op, table) == table { HarmlessLoss(s, order, i, c); }
    if Alone(s.history, c, op.key) { Contradicts(s, order, i, c); }
  }

  /** The shortest case: one put, answered and lost, and a get of its key. */
  lemma LostPut(k: CString, v: Block) returns (before: seq<Label>, more: seq<Label>)
    requires v != []
    ensures Possible(Start(3), before) && |Run(Start(3), before).servers| == 3 && Possible(Lose(Run(Start(3), before), 1), more)
    ensures var h := Run(Lose(Run(Start(3), before), 1), more).history;
            h == [Invoke(0, Put(k, v)), Return(0, Done), Invoke(1, Get(k)), Return(1, Absent)] && !Linearizable(h)
  {
    hide Possible, Run, Lose, Linearizable;
    before := UntilForwarding(k, v);
    more := StaleRead(3, before, 1, 0);
    assert After(Put(k, v), map[]) != map[] by { assert k in After(Put(k, v), map[]); }
  }
}
