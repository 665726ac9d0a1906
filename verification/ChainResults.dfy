/** What every run of the chain guarantees: the main theorems. */
module ChainResults {
  import opened Bytes
  import opened KvSpec
  import opened RwSpec
  import opened Chain
  import opened Linearizability
  import opened AnswerLaws
  import opened ChainSafety
  import opened ChainTheorems

  /** Whatever the threads, the clients and the membership do, in whatever interleaving, and whichever servers
      the reads are sent to, the answers are those of a single map used by one client at a time, in an order that
      respects real time: a get returns what the last put of its key has stored, if no del came after it, a del tells
      whether there was such a put, and size counts the keys that have one. */
  lemma {:induction false} EveryHistoryIsLinearizable(n: nat, ls: seq<Label>)
    requires n > 0 && Possible(Start(n), ls)
    ensures Linearizable(Run(Start(n), ls).history)
    ensures exists order :: IsLinearization(Run(Start(n), ls).history, order) && AllRight(order)
  {
    hide ServersInv, AllKnown, AllOrdered, Legal, RealTime, WellFormed, AllRight;
    var order := OrderOf(n, ls);
    LegalIsRight(order);
  }

  /** Each call is made once and answered at most once, after it was made. */
  lemma {:induction false} HistoriesAreWellFormed(n: nat, ls: seq<Label>)
    requires n > 0 && Possible(Start(n), ls)
    ensures WellFormed(Run(Start(n), ls).history)
  {
    hide ServersInv, AllKnown, AllOrdered, IsLinearization, WellFormed;
    var order := OrderOf(n, ls);
  }

  lemma OrderOf(n: nat, ls: seq<Label>) returns (order: seq<Entry>)
    requires n > 0 && Possible(Start(n), ls)
    ensures Inv(Run(Start(n), ls), order)
  {
    hide Inv;
    StartHolds(n);
    RunKeeps(Start(n), ls, []);
    order :| Inv(Run(Start(n), ls), order);
  }

  // ----- logs and tables

  /** How far a server is ahead of the tail: not at all, or by the one update in flight. */
  lemma {:induction false} Ahead(s: Chain, order: seq<Entry>, i: nat) returns (gap: seq<Update>)
    requires Inv(s, order) && i < |s.servers|
    ensures s.servers[i].log == s.servers[|s.servers| - 1].log + gap && |gap| <= 1
    ensures gap != [] ==> !Ordered(order, gap[0].id)
    decreases |s.servers| - i
  {
    hide ServerInv, ServerKnown, ServerOrdered, IsLinearization, WellFormed, Lag, Ordered, ReadsStay, Quiet;
    var ss := s.servers;
    if i == |ss| - 1 {
      gap := [];
    } else {
      var a, b, last := ss[i], ss[i + 1], i + 1 == |ss| - 1;
      assert LinkInv(a, b) && ServerInv(a) && ServerInv(b);
      assert ServerOrdered(a, false, order) && ServerOrdered(b, last, order);
      LagIsOne(a, b);
      gap := Ahead(s, order, i + 1);
      if Lag(a, b) == [] {
        assert a.log == b.log;
      } else {
        LagSettles(a, b, last, order);
        Settled(ss, order, i + 1, |ss| - 1);
        gap := Lag(a, b);
        LaggingIsNotOrdered(a, b, last, gap[0], order);
      }
    }
  }

  /** Every server's log is a prefix of those before it; the head is at most one update ahead of the
      tail; and every table is what its log makes of an empty one. */
  lemma {:induction false} LogsAreNestedPrefixes(n: nat, ls: seq<Label>, i: nat, j: nat)
    requires n > 0 && Possible(Start(n), ls) && i <= j < |Run(Start(n), ls).servers|
    ensures var ss := Run(Start(n), ls).servers;
            && ss[j].log <= ss[i].log && |ss[i].log| <= |ss[j].log| + 1
            && ss[i].table == Replay(ss[i].log)
  {
    var s := Run(Start(n), ls);
    var order := OrderOf(n, ls);
    hide LinkInv, LockInv, StatsInv, CallInv, AllKnown, AllOrdered, IsLinearization, WellFormed, Replay;
    var gapI := Ahead(s, order, i);
    var gapJ := Ahead(s, order, j);
    LogsShrink(s.servers, i, j);
  }

  lemma {:induction false} LogsShrink(ss: seq<Server>, i: nat, j: nat)
    requires ServersInv(ss) && i <= j < |ss|
    ensures ss[j].log <= ss[i].log
    decreases j - i
  {
    hide ServerInv, Lag;
    if i < j {
      assert LinkInv(ss[i], ss[i + 1]);
      LogsShrink(ss, i + 1, j);
    }
  }

  lemma {:induction false} UpdatesOfDistinct(order: seq<Entry>, x: nat, y: nat)
    requires forall a, b :: 0 <= a < b < |order| ==> order[a].id != order[b].id
    requires x < y < |UpdatesOf(order)|
    ensures UpdatesOf(order)[x].id != UpdatesOf(order)[y].id
  {
    if y < |UpdatesOf(order[..|order| - 1])| {
      UpdatesOfDistinct(order[..|order| - 1], x, y);
    } else {
      UpdateWasOrdered(order[..|order| - 1], x);
    }
  }

  /** No server ever applies an update twice. */
  lemma {:induction false} NoUpdateIsAppliedTwice(n: nat, ls: seq<Label>, i: nat, x: nat, y: nat)
    requires n > 0 && Possible(Start(n), ls) && i < |Run(Start(n), ls).servers|
    requires x < y < |Run(Start(n), ls).servers[i].log|
    ensures var log := Run(Start(n), ls).servers[i].log; log[x].id != log[y].id
  {
    hide ServersInv, AllKnown, AllOrdered, Legal, RealTime, WellFormed;
    var s := Run(Start(n), ls);
    var order := OrderOf(n, ls);
    var gap := Ahead(s, order, i);
    var updates := UpdatesOf(order);
    if y < |updates| {
      UpdatesOfDistinct(order, x, y);
    } else {
      UpdateWasOrdered(order, x);
    }
  }

  lemma AnswerWasOrdered(h: seq<Event>, order: seq<Entry>, c: Id, op: Op, answer: Answer)
    requires IsLinearization(h, order) && WellFormed(h) && Invoke(c, op) in h && Return(c, answer) in h
    ensures Entry(c, op, answer) in order
  {
    hide Legal, RealTime;
    var p :| 0 <= p < |h| && h[p] == Return(c, answer);
    var y :| 0 <= y < |order| && order[y].id == h[p].id && order[y].answer == h[p].answer;
    SameOp(h, c, op, order[y].op);
  }

  /** An update whose client has its answer is in the log of every server there is, and stays there:
      losing the head or the tail at any moment, or a covered middle server, or adding a server, loses none. */
  lemma {:induction false} AnsweredUpdatesAreEverywhere(n: nat, ls: seq<Label>, c: Id, op: Op, answer: Answer, i: nat)
    requires n > 0 && Possible(Start(n), ls) && i < |Run(Start(n), ls).servers|
    requires Invoke(c, op) in Run(Start(n), ls).history && Return(c, answer) in Run(Start(n), ls).history
    requires IsUpdate(op) && Accepted(op)
    ensures Update(c, op) in Run(Start(n), ls).servers[i].log
  {
    hide ServerInv, LinkInv, AllKnown, AllOrdered, IsLinearization, WellFormed;
    var s := Run(Start(n), ls);
    var order := OrderOf(n, ls);
    AnswerWasOrdered(s.history, order, c, op, answer);
    UpdatesOfHolds(order, Entry(c, op, answer));
    LogsShrink(s.servers, i, |s.servers| - 1);
  }

  // ----- exclusion

  /** While an update is inside a server's table lock, no other call is: tables are never raced for. */
  lemma {:induction false} UpdatesAreAlone(n: nat, ls: seq<Label>, i: nat, c: Id, d: Id)
    requires n > 0 && Possible(Start(n), ls) && i < |Run(Start(n), ls).servers|
    requires var calls := Run(Start(n), ls).servers[i].calls;
             && c in calls && d in calls && IsUpdate(calls[c].op) && Inside(calls[c].stage) && Inside(calls[d].stage)
    ensures c == d
  {
    hide LinkInv, AllKnown, AllOrdered, IsLinearization, WellFormed, StatsInv, CallInv, Replay;
    var order := OrderOf(n, ls);
    assert ServerInv(Run(Start(n), ls).servers[i]);
  }

  /** One update at a time in the whole chain: of all that servers behind the head serve, at most one has not
      been applied by the tail. */
  lemma {:induction false} OneUpdateInFlight(n: nat, ls: seq<Label>, i: nat, j: nat, c: Id, d: Id)
    requires n > 0 && Possible(Start(n), ls) && 0 < i < |Run(Start(n), ls).servers| && 0 < j < |Run(Start(n), ls).servers|
    requires var ss := Run(Start(n), ls).servers; var log := ss[|ss| - 1].log;
             && c in ss[i].calls && IsUpdate(ss[i].calls[c].op) && Update(c, ss[i].calls[c].op) !in log
             && d in ss[j].calls && IsUpdate(ss[j].calls[d].op) && Update(d, ss[j].calls[d].op) !in log
    ensures c == d
  {
    hide ServerInv, LinkInv, AllKnown, IsLinearization, WellFormed, ReadsStay, ServerOrdered;
    var order := OrderOf(n, ls);
    var s := Run(Start(n), ls);
    var ss := s.servers;
    NotLoggedIsNotOrdered(s, i, c, order);
    NotLoggedIsNotOrdered(s, j, d, order);
    Upstream(ss, order, 0, i, c);
    Upstream(ss, order, 0, j, d);
    OneWriter(ss[0], c, d);
  }

  lemma NotLoggedIsNotOrdered(s: Chain, i: nat, c: Id, order: seq<Entry>)
    requires Inv(s, order) && 0 < i < |s.servers| && c in s.servers[i].calls && IsUpdate(s.servers[i].calls[c].op)
    requires Update(c, s.servers[i].calls[c].op) !in s.servers[|s.servers| - 1].log
    ensures !Ordered(order, c)
  {
    hide ServerInv, LinkInv, AllKnown, AllOrdered, IsLinearization, WellFormed, ReadsStay;
    OnlyHeadHearsClients(s.servers, i, c);
    OrderedIsLogged(s, i, c, order);
  }
}
