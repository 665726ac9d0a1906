/** Safety over whole runs: every history of the chain is linearizable, and no answered update is lost. */
module ChainSafety {
  import opened Bytes
  import opened KvSpec
  import opened RwSpec
  import opened Chain
  import opened ChainInvariant
  import opened Linearizability

  // ----- how a call in progress stands to the order built so far

  /** An update takes effect when the tail applies it, a read when the tail's table is read. */
  ghost predicate CallOrdered(call: Call, c: Id, last: bool, order: seq<Entry>) {
    && (Early(call.stage) ==> !Ordered(order, c))
    && (Late(call.stage) ==> Ordered(order, c))
    && (call.stage == Applied ==> (Ordered(order, c) <==> last))
    && (call.stage == Forwarded && last ==> Ordered(order, c))
    && (call.from == Nobody ==> Ordered(order, c))
    && (call.from == Client && !Early(call.stage) ==>
          if Ordered(order, c) then Entry(c, call.op, call.answer) in order
          else call.answer == KvSpec.Reply(call.op, StoreAfter(order)))
  }

  ghost predicate ServerOrdered(sv: Server, last: bool, order: seq<Entry>) {
    forall c :: c in sv.calls ==> CallOrdered(sv.calls[c], c, last, order)
  }

  ghost predicate AllOrdered(ss: seq<Server>, order: seq<Entry>) {
    forall i :: 0 <= i < |ss| ==> ServerOrdered(ss[i], i == |ss| - 1, order)
  }

  /** A call in progress was made, and while a client waits for it, it has not been answered. */
  ghost predicate ServerKnown(sv: Server, h: seq<Event>) {
    forall c :: c in sv.calls ==>
                  && Invoke(c, sv.calls[c].op) in h
                  && (sv.calls[c].from == Client ==> !Answered(h, c))
  }

  ghost predicate AllKnown(ss: seq<Server>, h: seq<Event>) {
    forall i :: 0 <= i < |ss| ==> ServerKnown(ss[i], h)
  }

  ghost predicate HistoryInv(h: seq<Event>, next: Id) {
    WellFormed(h) && forall p :: 0 <= p < |h| ==> h[p].id < next
  }

  /** A read is served by one server only. */
  ghost predicate ReadsStay(ss: seq<Server>) {
    forall i, j, c :: 0 <= i < |ss| && 0 <= j < |ss| && i != j && c in ss[i].calls && c in ss[j].calls ==> IsUpdate(ss[i].calls[c].op)
  }

  ghost predicate Inv(s: Chain, order: seq<Entry>) {
    && ServersInv(s.servers)
    && ReadsStay(s.servers)
    && AllKnown(s.servers, s.history)
    && AllOrdered(s.servers, order)
    && HistoryInv(s.history, s.next)
    && IsLinearization(s.history, order)
    && UpdatesOf(order) == s.servers[|s.servers| - 1].log
  }

  // ----- what the links say about servers further away

  /** Every server before one that serves an update has forwarded that update, unless it has taken effect. */
  lemma {:induction false} Upstream(ss: seq<Server>, order: seq<Entry>, i: nat, j: nat, c: Id)
    requires ServersInv(ss) && AllOrdered(ss, order) && !Ordered(order, c)
    requires i < j < |ss| && c in ss[j].calls && IsUpdate(ss[j].calls[c].op)
    ensures c in ss[i].calls && ss[i].calls[c].stage == Forwarded && ss[i].calls[c].op == ss[j].calls[c].op
    ensures ss[j].calls[c].from == Predecessor
    decreases j - i
  {
    hide ServerInv, Ordered, KvSpec.Reply, Lag;
    assert LinkInv(ss[j - 1], ss[j]);
    assert ServerOrdered(ss[j], j == |ss| - 1, order);
    assert CallOrdered(ss[j].calls[c], c, j == |ss| - 1, order);
    if i < j - 1 {
      Upstream(ss, order, i, j - 1, c);
    }
  }

  /** All that a server has applied has taken effect. */
  ghost predicate Quiet(sv: Server, order: seq<Entry>) {
    forall c :: c in sv.calls && sv.calls[c].stage in {Applied, Forwarded} ==> Ordered(order, c)
  }

  /** Behind a quiet server all servers are quiet, and they agree with it. */
  lemma {:induction false} Settled(ss: seq<Server>, order: seq<Entry>, i: nat, j: nat)
    requires ServersInv(ss) && AllOrdered(ss, order) && i <= j < |ss| && Quiet(ss[i], order)
    ensures ss[j].log == ss[i].log
    decreases j - i
  {
    hide ServerInv, LinkInv, ServerOrdered, Quiet;
    if i < j {
      assert LinkInv(ss[i], ss[i + 1]);
      assert ServerOrdered(ss[i], i == |ss| - 1, order) && ServerOrdered(ss[i + 1], i + 1 == |ss| - 1, order);
      SettledLink(ss[i], ss[i + 1], i + 1 == |ss| - 1, order);
      Settled(ss, order, i + 1, j);
    }
  }

  lemma SettledLink(a: Server, b: Server, last: bool, order: seq<Entry>)
    requires ServerInv(a) && ServerInv(b) && LinkInv(a, b) && Quiet(a, order)
    requires ServerOrdered(a, false, order) && ServerOrdered(b, last, order)
    ensures b.log == a.log && Quiet(b, order)
  {
    hide StatsInv, Replay, Ordered, KvSpec.Reply;
    forall c | c in b.calls && IsUpdate(b.calls[c].op) ensures Ordered(order, c) && !Early(b.calls[c].stage) {
      assert CallOrdered(b.calls[c], c, last, order);
    }
    forall c | c in a.calls && a.calls[c].stage in {Applied, Forwarded}
      ensures a.calls[c].stage == Forwarded && !Early(b.calls[c].stage)
    {
      assert CallOrdered(a.calls[c], c, false, order);
    }
    assert Lag(a, b) == [];
  }

  /** Behind a link that lags, everything is settled. */
  lemma LagSettles(a: Server, b: Server, last: bool, order: seq<Entry>)
    requires ServerInv(a) && ServerInv(b) && LinkInv(a, b) && Lag(a, b) != [] && ServerOrdered(b, last, order)
    ensures Quiet(b, order)
  {
    hide StatsInv, Replay, Ordered, KvSpec.Reply;
    var w := a.lock.writer.value;
    forall c | c in b.calls && b.calls[c].stage in {Applied, Forwarded} ensures Ordered(order, c) {
      assert CallOrdered(b.calls[c], c, last, order);
    }
  }

  // ----- appending to the order

  /** What the order may gain without upsetting a call in progress. */
  lemma OrderGrows(call: Call, c: Id, last: bool, order: seq<Entry>, e: Entry)
    requires CallOrdered(call, c, last, order) && !Ordered(order, e.id)
    requires c == e.id ==> call.stage == Forwarded && call.op == e.op && e.answer == KvSpec.Reply(e.op, StoreAfter(order))
    requires c != e.id && call.from == Client && call.stage in {Applied, Forwarded} ==> After(e.op, StoreAfter(order)) == StoreAfter(order)
    ensures CallOrdered(call, c, last, order + [e])
  {
    hide After, KvSpec.Reply;
    OrderedAppend(order, e, c);
    StoreAfterAppend(order, e);
    assert forall f :: f in order ==> f in order + [e];
    assert e in order + [e];
  }

  /** The order gains e; every call it is not about, and every forwarded copy of it, stays in step. */
  lemma ServerOrderGrows(sv: Server, last: bool, order: seq<Entry>, e: Entry)
    requires ServerOrdered(sv, last, order) && !Ordered(order, e.id)
    requires e.id in sv.calls ==> sv.calls[e.id].stage == Forwarded && sv.calls[e.id].op == e.op
    requires e.answer == KvSpec.Reply(e.op, StoreAfter(order))
    requires forall c :: c in sv.calls && c != e.id && sv.calls[c].from == Client && sv.calls[c].stage in {Applied, Forwarded}
                         ==> After(e.op, StoreAfter(order)) == StoreAfter(order)
    ensures ServerOrdered(sv, last, order + [e])
  {
    hide CallOrdered, After, KvSpec.Reply;
    forall c | c in sv.calls ensures CallOrdered(sv.calls[c], c, last, order + [e]) {
      OrderGrows(sv.calls[c], c, last, order, e);
    }
  }

  // ----- one server at a time

  /** A server serves nothing new, or a call that is new to all, or an update. */
  lemma ReplaceOneReads(ss: seq<Server>, i: nat, sv: Server)
    requires ReadsStay(ss) && i < |ss|
    requires forall c :: c in sv.calls ==>
               || (c in ss[i].calls && sv.calls[c].op == ss[i].calls[c].op)
               || (IsUpdate(sv.calls[c].op) && forall k :: 0 <= k < |ss| && c in ss[k].calls ==> IsUpdate(ss[k].calls[c].op))
               || (forall k :: 0 <= k < |ss| ==> c !in ss[k].calls)
    ensures ReadsStay(ss[i := sv])
  {
  }

  lemma ReplaceOneSafe(ss: seq<Server>, i: nat, sv: Server, h: seq<Event>, order: seq<Entry>)
    requires i < |ss| && AllKnown(ss, h) && AllOrdered(ss, order)
    requires ServerKnown(sv, h) && ServerOrdered(sv, i == |ss| - 1, order)
    ensures AllKnown(ss[i := sv], h) && AllOrdered(ss[i := sv], order)
  {
    hide ServerKnown, ServerOrdered;
  }

  lemma AdvanceKnown(sv: Server, c: Id, h: seq<Event>)
    requires ServerKnown(sv, h) && CanAdvance(sv, c)
    ensures ServerKnown(Advance(sv, c), h)
  {
    hide After, KvSpec.Reply, MayRead, MayWrite, Enter, Leave, Answered;
  }

  /** A step that is not the tail's access to its table changes nothing in the order. */
  lemma AdvanceOrdered(sv: Server, c: Id, last: bool, order: seq<Entry>)
    requires ServerOrdered(sv, last, order) && CanAdvance(sv, c)
    requires sv.calls[c].stage == Ready ==>
               && !last && IsUpdate(sv.calls[c].op)
               && (sv.calls[c].from == Client ==> KvSpec.Reply(sv.calls[c].op, sv.table) == KvSpec.Reply(sv.calls[c].op, StoreAfter(order)))
    ensures ServerOrdered(Advance(sv, c), last, order)
  {
    hide After, KvSpec.Reply, MayRead, MayWrite, Enter, Leave, Ordered;
    assert CallOrdered(sv.calls[c], c, last, order);
    assert CallOrdered(Advance(sv, c).calls[c], c, last, order);
  }

  /** The access to the table is the moment a read takes effect, and at the tail an update. */
  lemma AccessOrdered(sv: Server, c: Id, last: bool, order: seq<Entry>)
    requires ServerInv(sv) && ServerOrdered(sv, last, order) && CanAdvance(sv, c) && sv.calls[c].stage == Ready
    requires sv.table == StoreAfter(order) && (last || !IsUpdate(sv.calls[c].op))
    ensures var op := sv.calls[c].op;
            var e := Entry(c, op, KvSpec.Reply(op, StoreAfter(order)));
            !Ordered(order, c) && ServerOrdered(Advance(sv, c), last, order + [e])
  {
    hide StatsInv, LockInv, CallInv, MayRead, MayWrite, Enter, Leave, After, KvSpec.Reply;
    var op := sv.calls[c].op;
    var e := Entry(c, op, KvSpec.Reply(op, StoreAfter(order)));
    assert CallOrdered(sv.calls[c], c, last, order);
    forall d | d in sv.calls && d != c ensures CallOrdered(sv.calls[d], d, last, order + [e]) {
      assert CallOrdered(sv.calls[d], d, last, order);
      WriterIsAlone(sv, c, d);
      OrderGrows(sv.calls[d], d, last, order, e);
    }
    OrderedAppend(order, e, c);
    assert e in order + [e];
  }

  /** While a call is at the table, no other update is past it. */
  lemma WriterIsAlone(sv: Server, c: Id, d: Id)
    requires ServerInv(sv) && c in sv.calls && d in sv.calls && c != d && sv.calls[c].stage == Ready
    ensures sv.calls[d].stage !in {Applied, Forwarded}
  {
    hide StatsInv, Replay;
  }

  // ----- the order and the tables

  lemma TailHoldsTheStore(s: Chain, order: seq<Entry>)
    requires Inv(s, order)
    ensures StoreAfter(order) == s.servers[|s.servers| - 1].table
  {
    hide LockInv, StatsInv, CallInv, LinkInv, ServerKnown, ServerOrdered, IsLinearization, WellFormed;
    assert ServerInv(s.servers[|s.servers| - 1]);
    UpdatesDecideTheStore(order);
  }

  /** A server about to update its table has the same table as the tail. */
  lemma ReadyAgreesWithTail(ss: seq<Server>, order: seq<Entry>, i: nat, c: Id)
    requires ServersInv(ss) && AllOrdered(ss, order) && i < |ss| && c in ss[i].calls && ss[i].calls[c].stage == Ready
    ensures ss[i].table == ss[|ss| - 1].table
  {
    hide LockInv, StatsInv, CallInv, LinkInv, Replay, ServerOrdered;
    forall d | d in ss[i].calls ensures ss[i].calls[d].stage !in {Applied, Forwarded} {
      if d != c { WriterIsAlone(ss[i], c, d); }
    }
    Settled(ss, order, i, |ss| - 1);
  }

  lemma SameOp(h: seq<Event>, c: Id, op: Op, op': Op)
    requires WellFormed(h) && Invoke(c, op) in h && Invoke(c, op') in h
    ensures op == op'
  {
    var p :| 0 <= p < |h| && h[p] == Invoke(c, op);
    var q :| 0 <= q < |h| && h[q] == Invoke(c, op');
    assert h[p].id == h[q].id;
  }

  lemma OnlyHeadHearsClients(ss: seq<Server>, i: nat, c: Id)
    requires ServersInv(ss) && 0 < i < |ss| && c in ss[i].calls && IsUpdate(ss[i].calls[c].op)
    ensures ss[i].calls[c].from != Client && Accepted(ss[i].calls[c].op)
  {
    hide ServerInv, Lag;
    assert LinkInv(ss[i - 1], ss[i]);
  }

  /** Applied and forwarded updates are unique in a server: there is one writer. */
  lemma OneWriter(sv: Server, c: Id, d: Id)
    requires ServerInv(sv) && c in sv.calls && d in sv.calls
    requires sv.calls[c].stage in {Applied, Forwarded} && sv.calls[d].stage in {Applied, Forwarded}
    ensures c == d
  {
    hide StatsInv, Replay;
  }

  // ----- when a call takes effect

  /** Other servers are in step with the access of server i to its table: they hold the same update forwarded, or
      nothing of the call. */
  lemma ElsewhereOrdered(s: Chain, order: seq<Entry>, i: nat, c: Id, j: nat)
    requires Inv(s, order) && i < |s.servers| && j < |s.servers| && j != i
    requires c in s.servers[i].calls && !Ordered(order, c) && (i + 1 == |s.servers| || !IsUpdate(s.servers[i].calls[c].op))
    ensures var op := s.servers[i].calls[c].op;
            ServerOrdered(s.servers[j], j + 1 == |s.servers|, order + [Entry(c, op, KvSpec.Reply(op, StoreAfter(order)))])
  {
    hide LockInv, StatsInv, CallInv, LinkInv, ServerOrdered, CallOrdered, IsLinearization, KvSpec.Reply, WellFormed;
    hide Answered, Replay;
    var ss := s.servers;
    var op := ss[i].calls[c].op;
    var e := Entry(c, op, KvSpec.Reply(op, StoreAfter(order)));
    assert ServerOrdered(ss[j], j == |ss| - 1, order);
    if c in ss[j].calls {
      assert ServerKnown(ss[j], s.history) && ServerKnown(ss[i], s.history);
      SameOp(s.history, c, op, ss[j].calls[c].op);
      assert IsUpdate(ss[j].calls[c].op);
      Upstream(ss, order, j, i, c);
    }
    forall d | d in ss[j].calls && d != c && ss[j].calls[d].from == Client && ss[j].calls[d].stage in {Applied, Forwarded}
      ensures After(op, StoreAfter(order)) == StoreAfter(order)
    {
      if IsUpdate(op) {
        Upstream(ss, order, j, i, c);
        OneWriter(ss[j], c, d);
      }
    }
    ServerOrderGrows(ss[j], j == |ss| - 1, order, e);
  }
}
