/** Every step keeps the invariant, and what follows for every run. */
module ChainTheorems {
  import opened Bytes
  import opened KvSpec
  import opened RwSpec
  import opened Chain
  import opened ChainInvariant
  import opened Linearizability
  import opened ChainSafety

  // ----- threads

  /** A thread moves inside its server and nothing takes effect. */
  lemma LocalQuiet(s: Chain, i: nat, c: Id, order: seq<Entry>)
    requires Inv(s, order) && Enabled(s, Local(i, c))
    requires s.servers[i].calls[c].stage == Ready ==> i + 1 < |s.servers| && IsUpdate(s.servers[i].calls[c].op)
    ensures Inv(Do(s, Local(i, c)), order)
  {
    hide LockInv, StatsInv, CallInv, LinkInv, ServerKnown, ServerOrdered;
    hide IsLinearization, KvSpec.Reply, After, WellFormed, Replay;
    hide Enter, Leave, MayRead, MayWrite;
    var ss := s.servers;
    var sv := ss[i];
    LocalKeeps(ss, i, c);
    AdvanceKnown(sv, c, s.history);
    if sv.calls[c].stage == Ready {
      ReadyAgreesWithTail(ss, order, i, c);
      TailHoldsTheStore(s, order);
    }
    AdvanceOrdered(sv, c, i == |ss| - 1, order);
    AdvanceReads(ss, i, c);
    ReplaceOneSafe(ss, i, Advance(sv, c), s.history, order);
  }

  /** The call takes effect in its next step: the tail reads or updates its table, or another server reads. */
  predicate TakesEffect(s: Chain, i: nat, c: Id) {
    At(s, i, c, Ready) && (i + 1 == |s.servers| || !IsUpdate(s.servers[i].calls[c].op))
  }

  /** All servers are in step with the access to the table. */
  lemma EffectIsOrdered(s: Chain, i: nat, c: Id, order: seq<Entry>)
    requires TakesEffect(s, i, c) && Inv(s, order) && Enabled(s, Local(i, c))
    ensures var op := s.servers[i].calls[c].op;
            var ss' := s.servers[i := Advance(s.servers[i], c)];
            && !Ordered(order, c) && AllKnown(ss', s.history)
            && AllOrdered(ss', order + [Entry(c, op, KvSpec.Reply(op, StoreAfter(order)))])
  {
    hide LockInv, StatsInv, CallInv, LinkInv, ServerKnown, ServerOrdered, Advance, CanAdvance;
    hide IsLinearization, KvSpec.Reply, After, WellFormed, Replay, ReadsStay, Ordered;
    var ss := s.servers;
    var n := |ss|;
    var sv := ss[i];
    var op := sv.calls[c].op;
    var e := Entry(c, op, KvSpec.Reply(op, StoreAfter(order)));
    assert ServerKnown(sv, s.history) && ServerOrdered(sv, i == n - 1, order) && ServerInv(sv);
    AdvanceKnown(sv, c, s.history);
    TailHoldsTheStore(s, order);
    ReadyAgreesWithTail(ss, order, i, c);
    AccessOrdered(sv, c, i == n - 1, order);
    var ss' := ss[i := Advance(sv, c)];
    forall j | 0 <= j < n ensures ServerOrdered(ss'[j], j == n - 1, order + [e]) && ServerKnown(ss'[j], s.history) {
      if j != i { ElsewhereOrdered(s, order, i, c, j); }
    }
  }

  /** A server reads its table, or the tail updates it: the call takes effect. */
  lemma LocalEffect(s: Chain, i: nat, c: Id, order: seq<Entry>)
    requires TakesEffect(s, i, c) && Inv(s, order) && Enabled(s, Local(i, c))
    ensures var op := s.servers[i].calls[c].op;
            Inv(Do(s, Local(i, c)), order + [Entry(c, op, KvSpec.Reply(op, StoreAfter(order)))])
  {
    hide LockInv, StatsInv, CallInv, LinkInv, AllKnown, AllOrdered;
    hide IsLinearization, KvSpec.Reply, After, WellFormed, Replay;
    hide Enter, Leave, MayRead, MayWrite, Ordered, ReadsStay;
    var ss := s.servers;
    var op := ss[i].calls[c].op;
    var e := Entry(c, op, KvSpec.Reply(op, StoreAfter(order)));
    LocalKeeps(ss, i, c);
    EffectIsOrdered(s, i, c, order);
    CallMade(s, order, i, c);
    TakeEffect(s.history, order, e);
    UpdatesOfAppend(order, e);
    AcceptedInside(ss[i], c);
    AdvanceReads(ss, i, c);
  }

  lemma AdvanceReads(ss: seq<Server>, i: nat, c: Id)
    requires ReadsStay(ss) && i < |ss| && CanAdvance(ss[i], c)
    ensures ReadsStay(ss[i := Advance(ss[i], c)])
  {
    hide ReadsStay, After, KvSpec.Reply, Enter, Leave, MayRead, MayWrite;
    ReplaceOneReads(ss, i, Advance(ss[i], c));
  }

  lemma CallMade(s: Chain, order: seq<Entry>, i: nat, c: Id)
    requires Inv(s, order) && i < |s.servers| && c in s.servers[i].calls
    ensures Invoke(c, s.servers[i].calls[c].op) in s.history && c < s.next
    ensures s.servers[i].calls[c].from == Client ==> !Answered(s.history, c)
  {
    hide LockInv, StatsInv, CallInv, LinkInv, ServerOrdered, IsLinearization, WellFormed, Replay, Answered;
    assert ServerKnown(s.servers[i], s.history);
  }

  lemma AcceptedInside(sv: Server, c: Id)
    requires ServerInv(sv) && c in sv.calls && sv.calls[c].stage != Wait
    ensures Accepted(sv.calls[c].op)
  {
    hide LockInv, StatsInv, Replay;
  }

  // ----- between servers

  lemma StageSafe(sv: Server, c: Id, st: Stage, last: bool, h: seq<Event>, order: seq<Entry>)
    requires ServerKnown(sv, h) && ServerOrdered(sv, last, order) && c in sv.calls
    requires sv.calls[c].stage in {Applied, Forwarded, Dropped}
    requires if st == Forwarded then sv.calls[c].stage == Applied && !last else st == Back && Ordered(order, c)
    ensures ServerKnown(SetStage(sv, c, st), h) && ServerOrdered(SetStage(sv, c, st), last, order)
  {
    hide KvSpec.Reply, Answered, Ordered;
    assert CallOrdered(sv.calls[c], c, last, order);
  }

  lemma RemoveSafe(sv: Server, c: Id, last: bool, h: seq<Event>, order: seq<Entry>)
    requires ServerKnown(sv, h) && ServerOrdered(sv, last, order)
    ensures ServerKnown(Remove(sv, c), h) && ServerOrdered(Remove(sv, c), last, order)
  {
    hide CallOrdered, Answered;
  }

  lemma ArriveSafe(sv: Server, c: Id, op: Op, from: Caller, last: bool, h: seq<Event>, order: seq<Entry>)
    requires ServerKnown(sv, h) && ServerOrdered(sv, last, order) && Invoke(c, op) in h && !Ordered(order, c)
    requires from != Nobody && (from == Client ==> !Answered(h, c))
    ensures var sv' := sv.(calls := sv.calls[c := Call(op, from, Wait, Failed)]);
            ServerKnown(sv', h) && ServerOrdered(sv', last, order)
  {
    hide Answered, Ordered, KvSpec.Reply;
  }

  lemma ReplaceTwoSafe(ss: seq<Server>, i: nat, a: Server, b: Server, h: seq<Event>, order: seq<Entry>)
    requires i + 1 < |ss| && AllKnown(ss, h) && AllOrdered(ss, order)
    requires ServerKnown(a, h) && ServerOrdered(a, false, order)
    requires ServerKnown(b, h) && ServerOrdered(b, i + 1 == |ss| - 1, order)
    ensures AllKnown(ss[i := a][i + 1 := b], h) && AllOrdered(ss[i := a][i + 1 := b], order)
  {
    hide ServerKnown, ServerOrdered;
  }

  /** A thread goes on that has no successor to wait for, or no longer. */
  lemma GoesOn(s: Chain, i: nat, c: Id, order: seq<Entry>)
    requires Inv(s, order)
    requires At(s, i, c, Dropped) || (i + 1 == |s.servers| && (At(s, i, c, Applied) || At(s, i, c, Forwarded)))
    ensures Inv(s.(servers := s.servers[i := SetStage(s.servers[i], c, Back)]), order)
  {
    hide LockInv, StatsInv, CallInv, LinkInv, ServerKnown, ServerOrdered;
    hide IsLinearization, KvSpec.Reply, After, WellFormed, Replay;
    hide Ordered, ReadsStay;
    var ss := s.servers;
    assert ServerOrdered(ss[i], i == |ss| - 1, order);
    if ss[i].calls[c].stage == Dropped {
      LateIsOrdered(ss[i], c, i == |ss| - 1, order);
    } else {
      TailOrdered(ss[i], c, order);
    }
    StageKeeps(ss, i, c);
    StageSafe(ss[i], c, Back, i == |ss| - 1, s.history, order);
    ReplaceOneReads(ss, i, SetStage(ss[i], c, Back));
    ReplaceOneSafe(ss, i, SetStage(ss[i], c, Back), s.history, order);
  }

  lemma TailOrdered(sv: Server, c: Id, order: seq<Entry>)
    requires ServerOrdered(sv, true, order) && c in sv.calls && !Early(sv.calls[c].stage)
    ensures Ordered(order, c)
  {
    hide Ordered, KvSpec.Reply;
    assert CallOrdered(sv.calls[c], c, true, order);
  }

  /** An update in progress that has taken effect is in the tail's log, and the other way round. */
  lemma {:induction false} OrderedIsLogged(s: Chain, i: nat, c: Id, order: seq<Entry>)
    requires Inv(s, order) && i < |s.servers| && c in s.servers[i].calls
    requires IsUpdate(s.servers[i].calls[c].op)
    ensures Update(c, s.servers[i].calls[c].op) in s.servers[|s.servers| - 1].log ==> Ordered(order, c)
    ensures Ordered(order, c) && Accepted(s.servers[i].calls[c].op) ==>
              Update(c, s.servers[i].calls[c].op) in s.servers[|s.servers| - 1].log
  {
    hide LockInv, StatsInv, CallInv, LinkInv, ServerKnown, ServerOrdered, Legal, RealTime, WellFormed, Replay, ReadsStay;
    var op := s.servers[i].calls[c].op;
    CallMade(s, order, i, c);
    if x :| 0 <= x < |UpdatesOf(order)| && UpdatesOf(order)[x] == Update(c, op) {
      UpdateWasOrdered(order, x);
    }
    if y :| 0 <= y < |order| && order[y].id == c {
      SameOp(s.history, c, op, order[y].op);
      if Accepted(op) { UpdatesOfHolds(order, order[y]); }
    }
  }

  /** A server gives up waiting only for an update that the tail has applied. */
  lemma {:induction false} OnlyCoveredCallsAreDropped(s: Chain, i: nat, c: Id, order: seq<Entry>)
    requires Inv(s, order) && Enabled(s, LinkLost(i, c))
    ensures Update(c, s.servers[i].calls[c].op) in s.servers[|s.servers| - 1].log
  {
    hide LockInv, StatsInv, LinkInv, ServerKnown, ServerOrdered, IsLinearization, WellFormed, Replay, ReadsStay;
    hide Ordered, KvSpec.Reply;
    var ss := s.servers;
    assert ServerInv(ss[i]) && ServerOrdered(ss[i], i == |ss| - 1, order);
    if ss[i].calls[c].stage == Dropped {
      LateIsOrdered(ss[i], c, i == |ss| - 1, order);
    } else {
      TailOrdered(ss[i], c, order);
    }
    OrderedIsLogged(s, i, c, order);
  }

  /** An update reaches a successor once. */
  lemma NotThereYet(s: Chain, order: seq<Entry>, i: nat, c: Id)
    requires Inv(s, order) && Enabled(s, Forward(i, c))
    ensures c !in s.servers[i + 1].calls
  {
    hide LockInv, StatsInv, LinkInv, ServerKnown, ServerOrdered, IsLinearization, WellFormed, Replay;
    hide Ordered, KvSpec.Reply;
    var ss := s.servers;
    assert ServerInv(ss[i]) && ServerOrdered(ss[i], false, order);
    NotYetOrdered(ss[i], c, order);
    if c in ss[i + 1].calls {
      Upstream(ss, order, i, i + 1, c);
    }
  }

  lemma ForwardSafe(s: Chain, i: nat, c: Id, order: seq<Entry>)
    requires Inv(s, order) && Enabled(s, Forward(i, c))
    ensures Inv(Do(s, Forward(i, c)), order)
  {
    hide LockInv, StatsInv, CallInv, LinkInv, ServerKnown, ServerOrdered;
    hide IsLinearization, KvSpec.Reply, After, WellFormed, Replay;
    hide Ordered, Answered, ReadsStay;
    var ss := s.servers;
    var op := ss[i].calls[c].op;
    var a := SetStage(ss[i], c, Forwarded);
    var b := ss[i + 1].(calls := ss[i + 1].calls[c := Call(op, Predecessor, Wait, Failed)]);
    AppliedIsUpdate(ss, i, c);
    CallMade(s, order, i, c);
    NotThereYet(s, order, i, c);
    ForwardKeeps(ss, i, c);
    assert ServerOrdered(ss[i], false, order) && ServerOrdered(ss[i + 1], i + 1 == |ss| - 1, order);
    assert ServerKnown(ss[i], s.history) && ServerKnown(ss[i + 1], s.history);
    NotYetOrdered(ss[i], c, order);
    StageSafe(ss[i], c, Forwarded, false, s.history, order);
    ArriveSafe(ss[i + 1], c, op, Predecessor, i + 1 == |ss| - 1, s.history, order);
    ForwardReads(ss, i, c);
    ReplaceTwoSafe(ss, i, a, b, s.history, order);
  }

  lemma AppliedIsUpdate(ss: seq<Server>, i: nat, c: Id)
    requires ServersInv(ss) && i < |ss| && c in ss[i].calls && ss[i].calls[c].stage == Applied
    ensures IsUpdate(ss[i].calls[c].op)
  {
    hide LinkInv, LockInv, StatsInv, Replay;
    assert ServerInv(ss[i]);
  }

  lemma ForwardReads(ss: seq<Server>, i: nat, c: Id)
    requires ReadsStay(ss) && i + 1 < |ss| && c in ss[i].calls && IsUpdate(ss[i].calls[c].op)
    ensures ReadsStay(ss[i := SetStage(ss[i], c, Forwarded)]
                        [i + 1 := ss[i + 1].(calls := ss[i + 1].calls[c := Call(ss[i].calls[c].op, Predecessor, Wait, Failed)])])
  {
    var a := SetStage(ss[i], c, Forwarded);
    ReplaceOneReads(ss, i, a);
    ReplaceOneReads(ss[i := a], i + 1, ss[i + 1].(calls := ss[i + 1].calls[c := Call(ss[i].calls[c].op, Predecessor, Wait, Failed)]));
  }

  lemma NotYetOrdered(sv: Server, c: Id, order: seq<Entry>)
    requires ServerOrdered(sv, false, order) && c in sv.calls && (sv.calls[c].stage == Applied || Early(sv.calls[c].stage))
    ensures !Ordered(order, c)
  {
    hide Ordered, KvSpec.Reply;
    assert CallOrdered(sv.calls[c], c, false, order);
  }

  lemma AcknowledgeSafe(s: Chain, i: nat, c: Id, order: seq<Entry>)
    requires Inv(s, order) && Enabled(s, Acknowledge(i, c))
    ensures Inv(Do(s, Acknowledge(i, c)), order)
  {
    hide LockInv, StatsInv, CallInv, LinkInv, ServerKnown, ServerOrdered;
    hide IsLinearization, KvSpec.Reply, After, WellFormed, Replay;
    hide Answered, ReadsStay;
    var ss := s.servers;
    var last := i + 1 == |ss| - 1;
    ReplaceOneReads(ss, i, SetStage(ss[i], c, Back));
    ReplaceOneReads(ss[i := SetStage(ss[i], c, Back)], i + 1, Remove(ss[i + 1], c));
    AcknowledgeKeeps(ss, i, c);
    assert ServerOrdered(ss[i], false, order) && ServerOrdered(ss[i + 1], last, order);
    assert ServerKnown(ss[i], s.history) && ServerKnown(ss[i + 1], s.history);
    LateIsOrdered(ss[i + 1], c, last, order);
    StageSafe(ss[i], c, Back, false, s.history, order);
    RemoveSafe(ss[i + 1], c, last, s.history, order);
    ReplaceTwoSafe(ss, i, SetStage(ss[i], c, Back), Remove(ss[i + 1], c), s.history, order);
  }

  lemma LateIsOrdered(sv: Server, c: Id, last: bool, order: seq<Entry>)
    requires ServerOrdered(sv, last, order) && c in sv.calls && Late(sv.calls[c].stage)
    ensures Ordered(order, c)
    ensures sv.calls[c].from == Client ==> Entry(c, sv.calls[c].op, sv.calls[c].answer) in order
  {
    hide KvSpec.Reply;
    assert CallOrdered(sv.calls[c], c, last, order);
  }

  // ----- clients

  lemma AnsweredGrows(h: seq<Event>, ev: Event, c: Id)
    ensures Answered(h + [ev], c) <==> Answered(h, c) || (ev.Return? && ev.id == c)
  {
    var h' := h + [ev];
    assert h'[|h|] == ev;
    if p :| 0 <= p < |h| && h[p].Return? && h[p].id == c {
      assert h'[p].id == c;
    }
  }

  lemma KnownGrows(sv: Server, h: seq<Event>, ev: Event)
    requires ServerKnown(sv, h)
    requires ev.Return? && ev.id in sv.calls ==> sv.calls[ev.id].from != Client
    ensures ServerKnown(sv, h + [ev])
  {
    hide Answered;
    forall c | c in sv.calls
      ensures Invoke(c, sv.calls[c].op) in h + [ev] && (sv.calls[c].from == Client ==> !Answered(h + [ev], c))
    {
      AnsweredGrows(h, ev, c);
    }
  }

  lemma AllKnownGrows(ss: seq<Server>, h: seq<Event>, ev: Event)
    requires AllKnown(ss, h)
    requires forall j :: 0 <= j < |ss| && ev.Return? && ev.id in ss[j].calls ==> ss[j].calls[ev.id].from != Client
    ensures AllKnown(ss, h + [ev])
  {
    hide ServerKnown;
    forall j | 0 <= j < |ss| ensures ServerKnown(ss[j], h + [ev]) {
      KnownGrows(ss[j], h, ev);
    }
  }

  lemma HistoryTakesCall(h: seq<Event>, next: Id, op: Op)
    requires HistoryInv(h, next)
    ensures HistoryInv(h + [Invoke(next, op)], next + 1) && !Answered(h + [Invoke(next, op)], next)
  {
    var h' := h + [Invoke(next, op)];
    forall q | 0 <= q < |h'| && h'[q].Return? ensures exists p :: 0 <= p < q && h'[p].Invoke? && h'[p].id == h'[q].id {
      var p :| 0 <= p < q && h[p].Invoke? && h[p].id == h[q].id;
      assert h'[p] == h[p];
    }
  }

  lemma HistoryTakesAnswer(h: seq<Event>, next: Id, c: Id, op: Op, answer: Answer)
    requires HistoryInv(h, next) && Invoke(c, op) in h && !Answered(h, c)
    ensures HistoryInv(h + [Return(c, answer)], next)
  {
    var h' := h + [Return(c, answer)];
    var i :| 0 <= i < |h| && h[i] == Invoke(c, op);
    assert h'[i].id == c;
    forall q | 0 <= q < |h'| && h'[q].Return? ensures exists p :: 0 <= p < q && h'[p].Invoke? && h'[p].id == h'[q].id {
      if q < |h| {
        var p :| 0 <= p < q && h[p].Invoke? && h[p].id == h[q].id;
        assert h'[p] == h[p];
      }
    }
  }

  lemma NextIsFresh(s: Chain, order: seq<Entry>)
    requires Inv(s, order)
    ensures !Ordered(order, s.next)
    ensures forall i :: 0 <= i < |s.servers| ==> s.next !in s.servers[i].calls
  {
    hide ServersInv, ServerKnown, ServerOrdered, Legal, RealTime, WellFormed;
    forall i | 0 <= i < |s.servers| ensures s.next !in s.servers[i].calls {
      if s.next in s.servers[i].calls {
        CallMade(s, order, i, s.next);
      }
    }
  }

  lemma SendSafe(s: Chain, op: Op, i: nat, order: seq<Entry>)
    requires Inv(s, order) && Enabled(s, Send(op, i))
    ensures Inv(Do(s, Send(op, i)), order)
  {
    hide LockInv, StatsInv, CallInv, LinkInv, ServerKnown, ServerOrdered;
    hide IsLinearization, KvSpec.Reply, After, WellFormed, Replay;
    hide Ordered, Answered, ReadsStay;
    var ss := s.servers;
    var c := s.next;
    NextIsFresh(s, order);
    SendKeeps(ss, i, c, op);
    NewCall(s.history, order, c, op);
    HistoryTakesCall(s.history, c, op);
    AllKnownGrows(ss, s.history, Invoke(c, op));
    var h := s.history + [Invoke(c, op)];
    assert ServerKnown(ss[i], h) && ServerOrdered(ss[i], i == |ss| - 1, order);
    ArriveSafe(ss[i], c, op, Client, i == |ss| - 1, h, order);
    ReplaceOneReads(ss, i, ss[i].(calls := ss[i].calls[c := Call(op, Client, Wait, Failed)]));
    ReplaceOneSafe(ss, i, ss[i].(calls := ss[i].calls[c := Call(op, Client, Wait, Failed)]), h, order);
  }

  /** A client's call is waited for at one server. */
  lemma OneListener(s: Chain, order: seq<Entry>, i: nat, j: nat, c: Id)
    requires Inv(s, order) && i < |s.servers| && j < |s.servers| && i != j
    requires c in s.servers[i].calls && s.servers[i].calls[c].from == Client && c in s.servers[j].calls
    ensures s.servers[j].calls[c].from != Client
  {
    hide LockInv, StatsInv, CallInv, LinkInv, ServerKnown, ServerOrdered;
    hide IsLinearization, KvSpec.Reply, After, WellFormed, Replay;
    hide Ordered, Answered;
    var ss := s.servers;
    CallMade(s, order, i, c);
    CallMade(s, order, j, c);
    SameOp(s.history, c, ss[i].calls[c].op, ss[j].calls[c].op);
    if IsUpdate(ss[i].calls[c].op) {
      if i > 0 { OnlyHeadHearsClients(ss, i, c); }
      if j > 0 { OnlyHeadHearsClients(ss, j, c); }
    }
  }

  /** A client gets the answer its call was ordered with. */
  lemma AnswerSafe(s: Chain, i: nat, c: Id, order: seq<Entry>)
    requires Inv(s, order) && i < |s.servers| && c in s.servers[i].calls && s.servers[i].calls[c].from == Client
    requires Late(s.servers[i].calls[c].stage)
    requires ServersInv(s.servers[i := Remove(s.servers[i], c)])
    ensures Inv(s.(servers := s.servers[i := Remove(s.servers[i], c)],
                   history := s.history + [Return(c, s.servers[i].calls[c].answer)]), order)
  {
    hide LockInv, StatsInv, CallInv, LinkInv, ServerKnown, ServerOrdered;
    hide IsLinearization, KvSpec.Reply, After, WellFormed, Replay;
    hide Ordered, Answered, ServersInv, ReadsStay;
    var ss := s.servers;
    var call := ss[i].calls[c];
    ReplaceOneReads(ss, i, Remove(ss[i], c));
    var ev := Return(c, call.answer);
    CallMade(s, order, i, c);
    assert ServerKnown(ss[i], s.history) && ServerOrdered(ss[i], i == |ss| - 1, order);
    LateIsOrdered(ss[i], c, i == |ss| - 1, order);
    NewAnswer(s.history, order, c, call.op, call.answer);
    HistoryTakesAnswer(s.history, s.next, c, call.op, call.answer);
    RemoveSafe(ss[i], c, i == |ss| - 1, s.history, order);
    var ss' := ss[i := Remove(ss[i], c)];
    ReplaceOneSafe(ss, i, Remove(ss[i], c), s.history, order);
    forall j | 0 <= j < |ss'| && c in ss'[j].calls ensures ss'[j].calls[c].from != Client {
      if j != i { OneListener(s, order, i, j, c); }
    }
    AllKnownGrows(ss', s.history, ev);
    assert ss'[|ss| - 1].log == ss[|ss| - 1].log;
  }

  lemma RespondSafe(s: Chain, i: nat, c: Id, order: seq<Entry>)
    requires Inv(s, order) && Enabled(s, Respond(i, c))
    ensures Inv(Do(s, Respond(i, c)), order)
  {
    hide LockInv, StatsInv, CallInv, LinkInv, ServerKnown, ServerOrdered;
    hide IsLinearization, KvSpec.Reply, After, WellFormed, Replay;
    if i > 0 && IsUpdate(s.servers[i].calls[c].op) { OnlyHeadHearsClients(s.servers, i, c); }
    RemoveKeeps(s.servers, i, c);
    AnswerSafe(s, i, c, order);
  }

  lemma OrphanSafe(s: Chain, i: nat, c: Id, order: seq<Entry>)
    requires Inv(s, order) && Enabled(s, Orphan(i, c))
    ensures Inv(Do(s, Orphan(i, c)), order)
  {
    hide LockInv, StatsInv, CallInv, LinkInv, ServerKnown, ServerOrdered;
    hide IsLinearization, KvSpec.Reply, After, WellFormed, Replay, ReadsStay;
    var ss := s.servers;
    RemoveKeeps(ss, i, c);
    assert ServerKnown(ss[i], s.history) && ServerOrdered(ss[i], i == |ss| - 1, order);
    RemoveSafe(ss[i], c, i == |ss| - 1, s.history, order);
    ReplaceOneReads(ss, i, Remove(ss[i], c));
    ReplaceOneSafe(ss, i, Remove(ss[i], c), s.history, order);
  }

  lemma OnlyHeadRefuses(s: Chain, order: seq<Entry>, j: nat, c: Id)
    requires Inv(s, order) && 0 < j < |s.servers| && c in s.servers[j].calls
    ensures Accepted(s.servers[j].calls[c].op)
  {
    hide LockInv, StatsInv, CallInv, LinkInv, ServerKnown, ServerOrdered;
    hide IsLinearization, KvSpec.Reply, After, WellFormed, Replay;
    if IsUpdate(s.servers[j].calls[c].op) {
      OnlyHeadHearsClients(s.servers, j, c);
    }
  }

  /** A refused put takes effect, without effect, when it is refused. */
  lemma RefusalOrdered(s: Chain, c: Id, order: seq<Entry>)
    requires Inv(s, order) && Enabled(s, Refuse(0, c))
    ensures var op := s.servers[0].calls[c].op;
            var order' := order + [Entry(c, op, Failed)];
            var ss' := s.servers[0 := Remove(s.servers[0], c)];
            && AllOrdered(ss', order') && AllKnown(ss', s.history)
            && IsLinearization(s.history, order') && UpdatesOf(order') == UpdatesOf(order)
  {
    var op := s.servers[0].calls[c].op;
    assert KvSpec.Reply(op, StoreAfter(order)) == Failed && After(op, StoreAfter(order)) == StoreAfter(order);
    hide LockInv, StatsInv, CallInv, LinkInv, ServerKnown, ServerOrdered;
    hide IsLinearization, KvSpec.Reply, After, WellFormed, Replay;
    hide Answered;
    var ss := s.servers;
    var e := Entry(c, op, Failed);
    CallMade(s, order, 0, c);
    assert ServerOrdered(ss[0], 0 == |ss| - 1, order) && ServerKnown(ss[0], s.history);
    WaitingIsNotOrdered(ss[0], c, 0 == |ss| - 1, order);
    RemoveSafe(ss[0], c, 0 == |ss| - 1, s.history, order);
    var ss' := ss[0 := Remove(ss[0], c)];
    ReplaceOneSafe(ss, 0, Remove(ss[0], c), s.history, order);
    forall j | 0 <= j < |ss'| ensures ServerOrdered(ss'[j], j == |ss'| - 1, order + [e]) {
      if j > 0 && c in ss[j].calls {
        CallMade(s, order, j, c);
        SameOp(s.history, c, op, ss[j].calls[c].op);
        OnlyHeadRefuses(s, order, j, c);
      }
      ServerOrderGrows(ss'[j], j == |ss'| - 1, order, e);
    }
    TakeEffect(s.history, order, e);
    UpdatesOfAppend(order, e);
  }

  lemma WaitingIsNotOrdered(sv: Server, c: Id, last: bool, order: seq<Entry>)
    requires ServerOrdered(sv, last, order) && c in sv.calls && sv.calls[c].stage == Wait
    ensures !Ordered(order, c)
  {
    hide Ordered, KvSpec.Reply;
    assert CallOrdered(sv.calls[c], c, last, order);
  }

  lemma {:induction false} RefuseSafe(s: Chain, i: nat, c: Id, order: seq<Entry>)
    requires Inv(s, order) && Enabled(s, Refuse(i, c))
    ensures i == 0 && Inv(Do(s, Refuse(i, c)), order + [Entry(c, s.servers[i].calls[c].op, Failed)])
  {
    hide LockInv, StatsInv, CallInv, LinkInv, ServerKnown, ServerOrdered;
    hide IsLinearization, KvSpec.Reply, After, WellFormed, Replay;
    hide Answered, Ordered, ReadsStay;
    if i > 0 { OnlyHeadRefuses(s, order, i, c); }
    var ss := s.servers;
    ReplaceOneReads(ss, 0, Remove(ss[0], c));
    var op := ss[0].calls[c].op;
    var order' := order + [Entry(c, op, Failed)];
    var ss' := ss[0 := Remove(ss[0], c)];
    CallMade(s, order, 0, c);
    RemoveKeeps(ss, 0, c);
    RefusalOrdered(s, c, order);
    assert ss'[|ss| - 1].log == ss[|ss| - 1].log;
    if ss[0].calls[c].from == Client {
      assert Entry(c, op, Failed) in order';
      NewAnswer(s.history, order', c, op, Failed);
      HistoryTakesAnswer(s.history, s.next, c, op, Failed);
      forall j | 0 <= j < |ss'| && c in ss'[j].calls ensures ss'[j].calls[c].from != Client {
        if j > 0 { OneListener(s, order, 0, j, c); }
      }
      AllKnownGrows(ss', s.history, Return(c, Failed));
    }
  }

  // ----- membership

  lemma {:induction false} RemoveHeadSafe(s: Chain, order: seq<Entry>)
    requires Inv(s, order) && Enabled(s, RemoveHead)
    ensures Inv(Do(s, RemoveHead), order)
  {
    hide LockInv, StatsInv, CallInv, LinkInv, ServerKnown, ServerOrdered;
    hide IsLinearization, KvSpec.Reply, After, WellFormed, Replay;
    hide ServerInv;
    var ss := s.servers;
    var tt := ss[1..];
    forall j | 0 <= j < |tt|
      ensures ServerInv(tt[j]) && ServerKnown(tt[j], s.history) && ServerOrdered(tt[j], j == |tt| - 1, order)
    {
      assert tt[j] == ss[j + 1];
    }
    forall j | 0 < j < |tt| ensures LinkInv(tt[j - 1], tt[j]) {
      assert tt[j - 1] == ss[j] && tt[j] == ss[j + 1];
    }
  }

  lemma BereftSafe(sv: Server, last: bool, h: seq<Event>, order: seq<Entry>)
    requires ServerKnown(sv, h) && ServerOrdered(sv, last, order)
    requires forall c :: c in sv.calls && sv.calls[c].stage == Forwarded ==> Ordered(order, c)
    requires last ==> forall c :: c in sv.calls ==> sv.calls[c].stage != Applied
    ensures ServerKnown(Bereft(sv), h) && ServerOrdered(Bereft(sv), false, order)
  {
    hide Ordered, Answered, KvSpec.Reply;
    var sv' := Bereft(sv);
    forall c | c in sv'.calls ensures CallOrdered(sv'.calls[c], c, false, order) {
      assert CallOrdered(sv.calls[c], c, last, order);
    }
  }

  lemma OrphanedSafe(sv: Server, last: bool, h: seq<Event>, order: seq<Entry>)
    requires ServerKnown(sv, h) && ServerOrdered(sv, last, order)
    requires forall c :: c in sv.calls && sv.calls[c].from == Predecessor ==> Ordered(order, c)
    ensures ServerKnown(Orphaned(sv), h) && ServerOrdered(Orphaned(sv), last, order)
  {
    hide Ordered, Answered, KvSpec.Reply;
    var sv' := Orphaned(sv);
    forall c | c in sv'.calls ensures CallOrdered(sv'.calls[c], c, last, order) {
      assert CallOrdered(sv.calls[c], c, last, order);
    }
  }

  /** What a server that is covered serves has taken effect: for its neighbours, too. */
  lemma CoveredIsOrdered(s: Chain, i: nat, order: seq<Entry>)
    requires Inv(s, order) && 0 < i && i + 1 < |s.servers| && Covered(s.servers, i)
    ensures forall c :: c in s.servers[i].calls && IsUpdate(s.servers[i].calls[c].op) ==> Ordered(order, c)
    ensures forall c :: c in s.servers[i - 1].calls && s.servers[i - 1].calls[c].stage == Forwarded ==> Ordered(order, c)
    ensures forall c :: c in s.servers[i + 1].calls && s.servers[i + 1].calls[c].from == Predecessor ==> Ordered(order, c)
  {
    hide LockInv, StatsInv, ServerKnown, ServerOrdered, IsLinearization, WellFormed, Replay, ReadsStay, Ordered, Lag;
    var ss := s.servers;
    forall c | c in ss[i].calls && IsUpdate(ss[i].calls[c].op) ensures Ordered(order, c) {
      OrderedIsLogged(s, i, c, order);
    }
    assert LinkInv(ss[i - 1], ss[i]) && LinkInv(ss[i], ss[i + 1]) && ServerInv(ss[i + 1]);
  }

  lemma CutOutReads(ss: seq<Server>, i: nat)
    requires ReadsStay(ss) && 0 < i && i + 1 < |ss|
    ensures ReadsStay(CutOut(ss, i))
  {
    hide CutOut;
    var tt := CutOut(ss, i);
    CutOutAt(ss, i, 0);
    forall j | 0 <= j < |tt|
      ensures forall c :: c in tt[j].calls ==> c in ss[OldPlace(i, j)].calls && ss[OldPlace(i, j)].calls[c].op == tt[j].calls[c].op
    {
      CutOutAt(ss, i, j);
    }
  }

  /** A server in the middle may be lost once the tail has applied what it serves. */
  lemma {:induction false} RemoveMiddleSafe(s: Chain, i: nat, order: seq<Entry>)
    requires Inv(s, order) && Enabled(s, RemoveMiddle(i))
    ensures Inv(Do(s, RemoveMiddle(i)), order)
  {
    hide LockInv, StatsInv, CallInv, LinkInv, ServerKnown, ServerOrdered;
    hide IsLinearization, KvSpec.Reply, After, WellFormed, Replay, ReadsStay;
    hide ServerInv, Ordered, CutOut, Bereft, Orphaned, Covered;
    var ss := s.servers;
    var tt := CutOut(ss, i);
    var n := |ss|;
    CutOutAt(ss, i, 0);
    CutOutReads(ss, i);
    CoveredIsOrdered(s, i, order);
    CoveredLinks(s, i, order);
    MiddleKeeps(ss, i);
    assert ServerKnown(ss[i - 1], s.history) && ServerOrdered(ss[i - 1], false, order);
    assert ServerKnown(ss[i + 1], s.history) && ServerOrdered(ss[i + 1], i + 1 == n - 1, order);
    BereftSafe(ss[i - 1], false, s.history, order);
    OrphanedSafe(ss[i + 1], i + 1 == n - 1, s.history, order);
    forall j | 0 <= j < |tt| ensures ServerKnown(tt[j], s.history) && ServerOrdered(tt[j], j == |tt| - 1, order) {
      CutOutAt(ss, i, j);
    }
    CutOutAt(ss, i, n - 2);
    OrphanedLog(ss[i + 1]);
  }

  lemma OrphanedLog(sv: Server)
    ensures Orphaned(sv).log == sv.log && Orphaned(sv).table == sv.table
    ensures Bereft(sv).log == sv.log && Bereft(sv).table == sv.table
  {
  }

  lemma CoveredLinks(s: Chain, i: nat, order: seq<Entry>)
    requires Inv(s, order) && 0 < i && i + 1 < |s.servers| && Covered(s.servers, i)
    ensures LinkInv(Bereft(s.servers[i - 1]), Orphaned(s.servers[i + 1]))
  {
    hide LockInv, StatsInv, CallInv, ServerKnown, ServerOrdered, IsLinearization, WellFormed, Replay, ReadsStay;
    hide Ordered, Lag, KvSpec.Reply, Bereft, Orphaned, Covered;
    var a, m, b := s.servers[i - 1], s.servers[i], s.servers[i + 1];
    var last := i + 1 == |s.servers| - 1;
    CoveredIsOrdered(s, i, order);
    assert LinkInv(a, m) && LinkInv(m, b) && ServerInv(a) && ServerInv(m);
    assert ServerOrdered(m, false, order) && ServerOrdered(b, last, order);
    forall c | c in m.calls && IsUpdate(m.calls[c].op)
      ensures !Early(m.calls[c].stage) && m.calls[c].stage != Applied
      ensures m.calls[c].stage == Forwarded ==> !Early(b.calls[c].stage)
    {
      OrderedIsLate(m, c, false, order);
      if m.calls[c].stage == Forwarded { OrderedIsLate(b, c, last, order); }
    }
    Bypass(a, m, b);
  }

  lemma OrderedIsLate(sv: Server, c: Id, last: bool, order: seq<Entry>)
    requires ServerOrdered(sv, last, order) && c in sv.calls && Ordered(order, c)
    ensures !Early(sv.calls[c].stage) && (!last ==> sv.calls[c].stage != Applied)
  {
    hide Ordered, KvSpec.Reply;
    assert CallOrdered(sv.calls[c], c, last, order);
  }

  lemma IdleSafe(sv: Server, last: bool, h: seq<Event>, order: seq<Entry>)
    requires sv.calls == map[]
    ensures ServerKnown(sv, h) && ServerOrdered(sv, last, order)
  {
  }

  lemma {:induction false} JoinSafe(s: Chain, entries: seq<Pair>, order: seq<Entry>)
    requires Inv(s, order) && Enabled(s, Join(entries))
    ensures Inv(Do(s, Join(entries)), order)
  {
    hide LockInv, StatsInv, CallInv, LinkInv, ServerKnown, ServerOrdered;
    hide IsLinearization, KvSpec.Reply, After, WellFormed, Replay, ReadsStay, Ordered;
    hide ServerInv, Lists, PutAll, Bereft;
    var ss := s.servers;
    var n := |ss|;
    var sv := FRESH_SERVER.(table := PutAll(map[], entries), log := ss[n - 1].log);
    JoinKeeps(ss, entries);
    JoinReads(ss, sv);
    var tt := ss[n - 1 := Bereft(ss[n - 1])] + [sv];
    assert ServerKnown(ss[n - 1], s.history) && ServerOrdered(ss[n - 1], true, order);
    forall c | c in ss[n - 1].calls && ss[n - 1].calls[c].stage == Forwarded ensures Ordered(order, c) {
      TailOrdered(ss[n - 1], c, order);
    }
    BereftSafe(ss[n - 1], true, s.history, order);
    forall j | 0 <= j < |tt| ensures ServerKnown(tt[j], s.history) && ServerOrdered(tt[j], j == |tt| - 1, order) {
      if j == n { IdleSafe(tt[j], true, s.history, order); }
    }
  }

  lemma JoinReads(ss: seq<Server>, sv: Server)
    requires ReadsStay(ss) && |ss| > 0 && sv.calls == map[]
    ensures ReadsStay(ss[|ss| - 1 := Bereft(ss[|ss| - 1])] + [sv])
  {
    hide ReadsStay;
    ReplaceOneReads(ss, |ss| - 1, Bereft(ss[|ss| - 1]));
    AppendReads(ss[|ss| - 1 := Bereft(ss[|ss| - 1])], sv);
  }

  lemma AppendReads(ss: seq<Server>, sv: Server)
    requires ReadsStay(ss) && sv.calls == map[]
    ensures ReadsStay(ss + [sv])
  {
  }

  /** What the loss of the tail makes take effect: the update that its predecessor had applied and it had not. */
  function Inherited(ss: seq<Server>, order: seq<Entry>): seq<Entry> {
    if |ss| < 2 || Lag(ss[|ss| - 2], ss[|ss| - 1]) == [] then []
    else var u := Lag(ss[|ss| - 2], ss[|ss| - 1])[0]; [Entry(u.id, u.op, KvSpec.Reply(u.op, StoreAfter(order)))]
  }

  /** Nothing lags behind the lost tail: all its predecessor has applied has taken effect. */
  lemma NewTailUpToDate(a: Server, b: Server, order: seq<Entry>)
    requires ServerInv(a) && LinkInv(a, b) && Lag(a, b) == []
    requires ServerOrdered(a, false, order) && ServerOrdered(b, true, order)
    ensures ServerOrdered(a, true, order)
  {
    hide StatsInv, Replay, Ordered, KvSpec.Reply;
    forall c | c in a.calls ensures CallOrdered(a.calls[c], c, true, order) {
      assert CallOrdered(a.calls[c], c, false, order);
      if a.calls[c].stage in {Applied, Forwarded} {
        assert a.lock.writer == Some(c);
        assert c in b.calls && !Early(b.calls[c].stage);
        assert CallOrdered(b.calls[c], c, true, order);
      }
    }
  }

  /** An update that lags over a link: it has not taken effect yet, and its answer is the right one. */
  lemma LaggingIsNotOrdered(a: Server, b: Server, last: bool, u: Update, order: seq<Entry>)
    requires ServerInv(a) && LinkInv(a, b) && Lag(a, b) == [u]
    requires ServerOrdered(a, false, order) && ServerOrdered(b, last, order)
    ensures !Ordered(order, u.id) && u.id in a.calls && a.calls[u.id].op == u.op
    ensures a.calls[u.id].stage in {Applied, Forwarded} && IsUpdate(u.op) && Accepted(u.op)
  {
    hide StatsInv, Replay, Ordered, KvSpec.Reply;
    assert CallOrdered(a.calls[u.id], u.id, false, order);
    if a.calls[u.id].stage == Forwarded {
      assert CallOrdered(b.calls[u.id], u.id, last, order);
    }
  }

  lemma NewTailInherits(a: Server, u: Update, order: seq<Entry>)
    requires ServerInv(a) && ServerOrdered(a, false, order) && !Ordered(order, u.id)
    requires u.id in a.calls && a.calls[u.id].op == u.op && a.calls[u.id].stage in {Applied, Forwarded}
    ensures ServerOrdered(a, true, order + [Entry(u.id, u.op, KvSpec.Reply(u.op, StoreAfter(order)))])
  {
    hide ServerInv, Ordered, KvSpec.Reply, After;
    var e := Entry(u.id, u.op, KvSpec.Reply(u.op, StoreAfter(order)));
    forall d | d in a.calls ensures CallOrdered(a.calls[d], d, true, order + [e]) {
      assert CallOrdered(a.calls[d], d, false, order);
      OrderedAppend(order, e, d);
      assert e in order + [e];
      if d != u.id {
        if a.calls[d].stage in {Applied, Forwarded} { OneWriter(a, d, u.id); }
        OrderGrows(a.calls[d], d, true, order, e);
      }
    }
  }

  lemma InheritElsewhere(s: Chain, order: seq<Entry>, u: Update, j: nat)
    requires Inv(s, order) && |s.servers| >= 2 && j < |s.servers| - 2 && !Ordered(order, u.id)
    requires var a := s.servers[|s.servers| - 2];
             u.id in a.calls && a.calls[u.id].op == u.op && IsUpdate(u.op)
    ensures ServerOrdered(s.servers[j], false, order + [Entry(u.id, u.op, KvSpec.Reply(u.op, StoreAfter(order)))])
  {
    hide LockInv, StatsInv, CallInv, LinkInv, ServerKnown, ServerOrdered;
    hide IsLinearization, KvSpec.Reply, After, WellFormed, Replay;
    hide CallOrdered, Answered;
    var ss := s.servers;
    var e := Entry(u.id, u.op, KvSpec.Reply(u.op, StoreAfter(order)));
    assert ServerOrdered(ss[j], false, order);
    Upstream(ss, order, j, |ss| - 2, u.id);
    forall d | d in ss[j].calls && ss[j].calls[d].stage in {Applied, Forwarded} ensures d == u.id {
      OneWriter(ss[j], d, u.id);
    }
    ServerOrderGrows(ss[j], false, order, e);
  }

  lemma CutTail(ss: seq<Server>)
    requires ServersInv(ss) && |ss| >= 2
    ensures ServersInv(ss[..|ss| - 1]) && LinkInv(ss[|ss| - 2], ss[|ss| - 1]) && ServerInv(ss[|ss| - 2])
  {
    hide ServerInv, LinkInv;
    var tt := ss[..|ss| - 1];
    forall j | 0 < j < |tt| ensures LinkInv(tt[j - 1], tt[j]) {
      assert tt[j - 1] == ss[j - 1] && tt[j] == ss[j];
    }
    assert LinkInv(ss[|ss| - 1 - 1], ss[|ss| - 1]);
  }

  lemma CutCalls(ss: seq<Server>, h: seq<Event>)
    requires ReadsStay(ss) && AllKnown(ss, h) && |ss| >= 2
    ensures ReadsStay(ss[..|ss| - 1]) && AllKnown(ss[..|ss| - 1], h)
  {
    hide ServerKnown;
  }

  lemma LastTwo(ss: seq<Server>, order: seq<Entry>)
    requires AllOrdered(ss, order) && |ss| >= 2
    ensures ServerOrdered(ss[|ss| - 2], false, order) && ServerOrdered(ss[|ss| - 1], true, order)
  {
    hide ServerOrdered;
  }

  lemma NothingIsInherited(s: Chain, order: seq<Entry>)
    requires Enabled(s, RemoveTail) && Inherited(s.servers, order) == []
    requires Inv(s, order)
    ensures Inv(Do(s, RemoveTail), order)
  {
    hide ServersInv, ReadsStay, AllKnown, ServerOrdered, LinkInv, Lag, ServerInv, Ordered, IsLinearization, WellFormed;
    var ss := s.servers;
    var tt := ss[..|ss| - 1];
    CutTail(ss);
    CutCalls(ss, s.history);
    LastTwo(ss, order);
    LagIsOne(ss[|ss| - 2], ss[|ss| - 1]);
    NewTailUpToDate(ss[|ss| - 2], ss[|ss| - 1], order);
    forall j | 0 <= j < |tt| ensures ServerOrdered(tt[j], j == |tt| - 1, order) {
      assert tt[j] == ss[j];
    }
  }

  lemma OrderWithInherited(s: Chain, order: seq<Entry>, e: Entry)
    requires |s.servers| >= 2 && Inherited(s.servers, order) == [e]
    requires Inv(s, order)
    ensures AllOrdered(s.servers[..|s.servers| - 1], order + [e])
    ensures !Ordered(order, e.id) && IsUpdate(e.op) && Accepted(e.op) && Invoke(e.id, e.op) in s.history
  {
    hide ServersInv, ReadsStay, AllKnown, ServerOrdered, LinkInv, Lag, ServerInv, Ordered, IsLinearization, WellFormed;
    hide KvSpec.Reply;
    var ss := s.servers;
    var tt := ss[..|ss| - 1];
    var a, b, u := ss[|ss| - 2], ss[|ss| - 1], Update(e.id, e.op);
    CutTail(ss);
    LastTwo(ss, order);
    LagIsOne(a, b);
    LaggingIsNotOrdered(a, b, true, u, order);
    CallMade(s, order, |ss| - 2, u.id);
    NewTailInherits(a, u, order);
    forall j | 0 <= j < |tt| ensures ServerOrdered(tt[j], j == |tt| - 1, order + [e]) {
      assert tt[j] == ss[j];
      if j < |tt| - 1 { InheritElsewhere(s, order, u, j); }
    }
  }

  lemma LagIsInherited(s: Chain, order: seq<Entry>, e: Entry)
    requires Enabled(s, RemoveTail) && Inherited(s.servers, order) == [e]
    requires Inv(s, order)
    ensures Inv(Do(s, RemoveTail), order + [e])
  {
    hide ServersInv, ReadsStay, AllKnown, AllOrdered, LinkInv, Lag, Ordered, IsLinearization, WellFormed, KvSpec.Reply;
    hide Advance, CanAdvance, Lists, PutAll, Covered, CutOut, Bereft, Copyable, UpdatesOf, StoreAfter, After, HistoryInv, ServerInv;
    var ss := s.servers;
    CutTail(ss);
    CutCalls(ss, s.history);
    LagIsOne(ss[|ss| - 2], ss[|ss| - 1]);
    OrderWithInherited(s, order, e);
    TakeEffect(s.history, order, e);
    UpdatesOfAppend(order, e);
  }

  lemma RemoveTailSafe(s: Chain, order: seq<Entry>)
    requires Inv(s, order) && Enabled(s, RemoveTail)
    ensures Inv(Do(s, RemoveTail), order + Inherited(s.servers, order))
  {
    hide Inv, Lag;
    var lag := Inherited(s.servers, order);
    if lag == [] {
      assert order + [] == order;
      NothingIsInherited(s, order);
    } else {
      LagIsInherited(s, order, lag[0]);
    }
  }

  /** At most one update lags over a link. */
  lemma LagIsOne(a: Server, b: Server)
    requires LinkInv(a, b)
    ensures a.log == b.log + Lag(a, b) && (Lag(a, b) == [] || Lag(a, b) == [Lag(a, b)[0]])
  {
  }

  // ----- runs

  /** The order after a step: what takes effect in it, if anything, comes last. */
  function Grow(s: Chain, l: Label, order: seq<Entry>): seq<Entry>
    requires Enabled(s, l)
  {
    match l
    case Local(i, c) =>
      var call := s.servers[i].calls[c];
      if TakesEffect(s, i, c)
      then order + [Entry(c, call.op, KvSpec.Reply(call.op, StoreAfter(order)))] else order
    case Refuse(i, c) => order + [Entry(c, s.servers[i].calls[c].op, Failed)]
    case RemoveTail => order + Inherited(s.servers, order)
    case _ => order
  }

  lemma {:induction false} StepKeeps(s: Chain, l: Label, order: seq<Entry>)
    requires Inv(s, order) && Enabled(s, l)
    ensures Inv(Do(s, l), Grow(s, l, order))
  {
    hide Inv;
    match l
    case Send(op, at) => SendSafe(s, op, at, order);
    case Local(i, c) =>
      if TakesEffect(s, i, c) {
        LocalEffect(s, i, c, order);
      } else {
        LocalQuiet(s, i, c, order);
      }
    case Refuse(i, c) => RefuseSafe(s, i, c, order);
    case Forward(i, c) => ForwardSafe(s, i, c, order);
    case Skip(i, c) => GoesOn(s, i, c, order);
    case LinkLost(i, c) => GoesOn(s, i, c, order);
    case Acknowledge(i, c) => AcknowledgeSafe(s, i, c, order);
    case Respond(i, c) => RespondSafe(s, i, c, order);
    case Orphan(i, c) => OrphanSafe(s, i, c, order);
    case RemoveHead => RemoveHeadSafe(s, order);
    case RemoveTail => RemoveTailSafe(s, order);
    case RemoveMiddle(i) => RemoveMiddleSafe(s, i, order);
    case Join(entries) => JoinSafe(s, entries, order);
  }

  lemma StartHolds(n: nat)
    requires n > 0
    ensures Inv(Start(n), [])
  {
    forall i | 0 < i < n ensures LinkInv(Start(n).servers[i - 1], Start(n).servers[i]) {
    }
  }

  lemma {:induction false} RunKeeps(s: Chain, ls: seq<Label>, order: seq<Entry>)
    requires Inv(s, order) && Possible(s, ls)
    ensures exists order' :: Inv(Run(s, ls), order')
    decreases |ls|
  {
    hide Inv, Grow;
    if ls == [] {
      assert Inv(Run(s, ls), order);
    } else {
      var s' := Do(s, ls[0]);
      StepKeeps(s, ls[0], order);
      RunKeeps(s', ls[1..], Grow(s, ls[0], order));
      assert Run(s, ls) == Run(s', ls[1..]);
    }
  }
}
