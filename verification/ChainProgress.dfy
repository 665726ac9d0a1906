/** Progress: the nested locks of the chain never block each other for good, and every call ends. */
module ChainProgress {
  import opened Bytes
  import opened KvSpec
  import opened RwSpec
  import opened Chain
  import opened ChainInvariant
  import opened Linearizability
  import opened ChainSafety
  import opened ChainTheorems
  import opened ChainResults

  /** The steps of the servers' threads, as opposed to those of clients and of the membership. */
  predicate IsThreadStep(l: Label) {
    l.Local? || l.Refuse? || l.Forward? || l.Skip? || l.LinkLost? || l.Acknowledge? || l.Respond? || l.Orphan?
  }

  ghost predicate CanMove(s: Chain) {
    exists l :: IsThreadStep(l) && Enabled(s, l)
  }

  predicate Busy(s: Chain) {
    exists i :: 0 <= i < |s.servers| && s.servers[i].calls != map[]
  }

  // ----- no deadlock

  /** The last server that holds a call has a thread that can move: nothing further down holds it up. */
  lemma LastBusyServerMoves(s: Chain, i: nat)
    requires ServersInv(s.servers) && i < |s.servers| && s.servers[i].calls != map[]
    requires forall j :: i < j < |s.servers| ==> s.servers[j].calls == map[]
    ensures CanMove(s)
  {
    hide Replay, Lag, Advance;
    var sv := s.servers[i];
    assert ServerInv(sv);
    if c :| c in sv.calls && sv.calls[c].stage != Wait {
      MovesOn(s, i, c);
    } else {
      var c :| c in sv.calls;
      assert sv.lock.writer.None? && sv.lock.readers == {};
      if Accepted(sv.calls[c].op) {
        assert Enabled(s, Local(i, c));
      } else {
        assert Enabled(s, Refuse(i, c));
      }
    }
  }

  lemma MovesOn(s: Chain, i: nat, c: Id)
    requires ServersInv(s.servers) && i < |s.servers| && c in s.servers[i].calls && s.servers[i].calls[c].stage != Wait
    requires forall j :: i < j < |s.servers| ==> s.servers[j].calls == map[]
    ensures CanMove(s)
  {
    hide ServerInv, LinkInv, CanMove, Enabled;
    match s.servers[i].calls[c].stage
    case Entered => StatsMoves(s, i, c);
    case Back => StatsMoves(s, i, c);
    case Applied => UpdateMoves(s, i, c);
    case Forwarded => UpdateMoves(s, i, c);
    case Dropped => UpdateMoves(s, i, c);
    case Finished => AnswerMoves(s, i, c);
    case Counting => LocalMoves(s, i, c);
    case Ready => LocalMoves(s, i, c);
    case Timing => LocalMoves(s, i, c);
    case Leaving => LocalMoves(s, i, c);
    case Wait =>
  }

  lemma LocalMoves(s: Chain, i: nat, c: Id)
    requires i < |s.servers| && c in s.servers[i].calls && s.servers[i].calls[c].stage in {Counting, Ready, Timing, Leaving}
    ensures CanMove(s)
  {
    assert Enabled(s, Local(i, c));
  }

  /** An update that has been applied goes on to the successor, or on without it. */
  lemma UpdateMoves(s: Chain, i: nat, c: Id)
    requires ServersInv(s.servers) && i < |s.servers|
    requires c in s.servers[i].calls && s.servers[i].calls[c].stage in {Applied, Forwarded, Dropped}
    requires forall j :: i < j < |s.servers| ==> s.servers[j].calls == map[]
    ensures CanMove(s)
  {
    hide ServerInv, Lag, Advance;
    if s.servers[i].calls[c].stage == Applied {
      assert if i + 1 < |s.servers| then Enabled(s, Forward(i, c)) else Enabled(s, Skip(i, c));
    } else {
      assert i + 1 < |s.servers| ==> LinkInv(s.servers[i], s.servers[i + 1]);
      assert Enabled(s, LinkLost(i, c));
    }
  }

  /** The response finds a client or a predecessor that waits for it, or nobody. */
  lemma AnswerMoves(s: Chain, i: nat, c: Id)
    requires ServersInv(s.servers) && i < |s.servers| && c in s.servers[i].calls && s.servers[i].calls[c].stage == Finished
    ensures CanMove(s)
  {
    hide ServerInv, LinkInv;
    var from := s.servers[i].calls[c].from;
    if from == Client {
      assert Enabled(s, Respond(i, c));
    } else if i == 0 || from == Nobody {
      assert Enabled(s, Orphan(i, c));
    } else {
      assert LinkInv(s.servers[i - 1], s.servers[i]) && ServerInv(s.servers[i]);
      CallerWaits(s.servers[i - 1], s.servers[i], c);
      assert Enabled(s, Acknowledge(i - 1, c));
    }
  }

  lemma CallerWaits(a: Server, b: Server, c: Id)
    requires LinkInv(a, b) && ServerInv(b) && c in b.calls && b.calls[c].from == Predecessor
    ensures c in a.calls && a.calls[c].stage == Forwarded
  {
    hide LockInv, StatsInv, Replay, Lag;
  }

  /** Either the statistics lock is free, or its holder is about to release it. */
  lemma StatsMoves(s: Chain, i: nat, c: Id)
    requires ServersInv(s.servers) && i < |s.servers| && c in s.servers[i].calls
    requires s.servers[i].calls[c].stage in {Entered, Back}
    ensures CanMove(s)
  {
    hide Replay, Lag, Advance, LockInv, LinkInv;
    var sv := s.servers[i];
    assert ServerInv(sv);
    if sv.stats.None? {
      assert Enabled(s, Local(i, c));
    } else {
      assert Enabled(s, Local(i, sv.stats.value));
    }
  }

  lemma {:induction false} SomeoneMoves(s: Chain, i: nat)
    requires ServersInv(s.servers) && i < |s.servers|
    requires exists j :: 0 <= j <= i && s.servers[j].calls != map[]
    requires forall j :: i < j < |s.servers| ==> s.servers[j].calls == map[]
    ensures CanMove(s)
  {
    hide ServersInv, Enabled;
    if s.servers[i].calls != map[] {
      LastBusyServerMoves(s, i);
    } else {
      SomeoneMoves(s, i - 1);
    }
  }

  /** In every reachable state in which some server still has a call, some thread can move. */
  lemma {:induction false} NoDeadlock(n: nat, ls: seq<Label>)
    requires n > 0 && Possible(Start(n), ls) && Busy(Run(Start(n), ls))
    ensures CanMove(Run(Start(n), ls))
  {
    hide ServersInv, AllKnown, AllOrdered, IsLinearization, WellFormed, Enabled;
    var order := OrderOf(n, ls);
    var s := Run(Start(n), ls);
    var i :| 0 <= i < |s.servers| && s.servers[i].calls != map[];
    SomeoneMoves(s, |s.servers| - 1);
  }

  // ----- the work left

  function Rank(st: Stage): nat {
    match st
    case Wait => 10
    case Entered => 9
    case Counting => 8
    case Ready => 7
    case Applied => 6
    case Forwarded => 5
    case Dropped => 5
    case Back => 4
    case Timing => 3
    case Leaving => 2
    case Finished => 1
  }

  /** Steps left for a call at a server with at most the given number of successors. */
  function Work(call: Call, successors: nat): nat {
    Rank(call.stage) + if Early(call.stage) || call.stage == Applied then 11 * successors else 0
  }

  function WorkOf(sv: Server, c: Id, successors: nat): nat {
    if c in sv.calls then Work(sv.calls[c], successors) else 0
  }

  function ServerWork(sv: Server, successors: nat, ids: nat): nat {
    if ids == 0 then 0 else ServerWork(sv, successors, ids - 1) + WorkOf(sv, ids - 1, successors)
  }

  /** The work of all servers, with so many more still to join. */
  function ChainWork(ss: seq<Server>, ids: nat, joins: nat): nat {
    if ss == [] then 0 else ServerWork(ss[0], |ss| - 1 + joins, ids) + ChainWork(ss[1..], ids, joins)
  }

  lemma {:induction false} OneCallChanges(sv: Server, sv': Server, c: Id, successors: nat, ids: nat)
    requires forall d :: d != c ==> WorkOf(sv', d, successors) == WorkOf(sv, d, successors)
    ensures ServerWork(sv', successors, ids) - ServerWork(sv, successors, ids) ==
            if c < ids then WorkOf(sv', c, successors) - WorkOf(sv, c, successors) else 0
  {
    hide WorkOf;
    if ids > 0 {
      OneCallChanges(sv, sv', c, successors, ids - 1);
    }
  }

  lemma {:induction false} OneServerChanges(ss: seq<Server>, i: nat, sv: Server, ids: nat, joins: nat)
    requires i < |ss|
    ensures ChainWork(ss[i := sv], ids, joins) - ChainWork(ss, ids, joins) ==
            ServerWork(sv, |ss| - 1 - i + joins, ids) - ServerWork(ss[i], |ss| - 1 - i + joins, ids)
  {
    hide ServerWork;
    var tt := ss[i := sv];
    if i == 0 {
      assert tt[1..] == ss[1..];
    } else {
      OneServerChanges(ss[1..], i - 1, sv, ids, joins);
      assert tt[1..] == ss[1..][i - 1 := sv];
    }
  }

  lemma SameElsewhere(calls: map<Id, Call>, calls': map<Id, Call>, c: Id, d: Id)
    requires calls - {c} == calls' - {c} && d != c
    ensures (d in calls <==> d in calls') && (d in calls ==> calls[d] == calls'[d])
  {
    assert d in calls <==> d in calls - {c};
    assert d in calls' <==> d in calls' - {c};
  }

  /** One call at one server changes: so does the work, by as much. */
  lemma WorkChanges(ss: seq<Server>, i: nat, sv: Server, c: Id, ids: nat, joins: nat)
    requires i < |ss| && c < ids && sv.calls - {c} == ss[i].calls - {c}
    ensures var successors := |ss| - 1 - i + joins;
            ChainWork(ss[i := sv], ids, joins) - ChainWork(ss, ids, joins) == WorkOf(sv, c, successors) - WorkOf(ss[i], c, successors)
  {
    hide ChainWork, ServerWork;
    var successors := |ss| - 1 - i + joins;
    forall d | d != c ensures WorkOf(sv, d, successors) == WorkOf(ss[i], d, successors) {
      SameElsewhere(ss[i].calls, sv.calls, c, d);
    }
    OneCallChanges(ss[i], sv, c, successors, ids);
    OneServerChanges(ss, i, sv, ids, joins);
  }

  lemma {:induction false} NewIdIsIdle(ss: seq<Server>, ids: nat, joins: nat)
    requires forall i :: 0 <= i < |ss| ==> ids !in ss[i].calls
    ensures ChainWork(ss, ids + 1, joins) == ChainWork(ss, ids, joins)
  {
    if ss != [] {
      forall i | 0 <= i < |ss[1..]| ensures ids !in ss[1..][i].calls {
        assert ss[1..][i] == ss[i + 1];
      }
      NewIdIsIdle(ss[1..], ids, joins);
    }
  }

  // ----- every step does some of it

  function WorkIn(s: Chain, joins: nat): nat {
    ChainWork(s.servers, s.next, joins)
  }

  lemma LocalWorks(s: Chain, i: nat, c: Id, joins: nat)
    requires Enabled(s, Local(i, c)) && c < s.next
    ensures WorkIn(Do(s, Local(i, c)), joins) < WorkIn(s, joins)
  {
    hide ChainWork, KvSpec.Reply, After, Enter, Leave, MayRead, MayWrite;
    WorkChanges(s.servers, i, Advance(s.servers[i], c), c, s.next, joins);
  }

  lemma StageWorks(s: Chain, i: nat, c: Id, joins: nat)
    requires i < |s.servers| && c in s.servers[i].calls && c < s.next
    requires s.servers[i].calls[c].stage in {Applied, Forwarded, Dropped}
    ensures ChainWork(s.servers[i := SetStage(s.servers[i], c, Back)], s.next, joins) < WorkIn(s, joins)
  {
    hide ChainWork;
    WorkChanges(s.servers, i, SetStage(s.servers[i], c, Back), c, s.next, joins);
  }

  lemma RemoveWorks(s: Chain, i: nat, c: Id, joins: nat)
    requires i < |s.servers| && c in s.servers[i].calls && c < s.next
    ensures ChainWork(s.servers[i := Remove(s.servers[i], c)], s.next, joins) < WorkIn(s, joins)
  {
    hide ChainWork;
    WorkChanges(s.servers, i, Remove(s.servers[i], c), c, s.next, joins);
  }

  lemma ForwardWorks(s: Chain, i: nat, c: Id, joins: nat)
    requires Enabled(s, Forward(i, c)) && c < s.next && c !in s.servers[i + 1].calls
    ensures WorkIn(Do(s, Forward(i, c)), joins) < WorkIn(s, joins)
  {
    hide ChainWork;
    var ss := s.servers;
    var a := SetStage(ss[i], c, Forwarded);
    var b := ss[i + 1].(calls := ss[i + 1].calls[c := Call(ss[i].calls[c].op, Predecessor, Wait, Failed)]);
    WorkChanges(ss, i, a, c, s.next, joins);
    WorkChanges(ss[i := a], i + 1, b, c, s.next, joins);
  }

  lemma AcknowledgeWorks(s: Chain, i: nat, c: Id, joins: nat)
    requires Enabled(s, Acknowledge(i, c)) && c < s.next
    ensures WorkIn(Do(s, Acknowledge(i, c)), joins) < WorkIn(s, joins)
  {
    hide ChainWork;
    var ss := s.servers;
    WorkChanges(ss, i, SetStage(ss[i], c, Back), c, s.next, joins);
    WorkChanges(ss[i := SetStage(ss[i], c, Back)], i + 1, Remove(ss[i + 1], c), c, s.next, joins);
  }

  lemma ThreadStepWorks(s: Chain, order: seq<Entry>, l: Label, joins: nat)
    requires Inv(s, order) && Enabled(s, l) && IsThreadStep(l)
    ensures WorkIn(Do(s, l), joins) < WorkIn(s, joins)
    ensures |Do(s, l).servers| == |s.servers| && Do(s, l).next == s.next
  {
    hide Inv, WorkIn, ChainWork, Advance;
    match l
    case Local(i, c) => CallMade(s, order, i, c); LocalWorks(s, i, c, joins);
    case Refuse(i, c) => CallMade(s, order, i, c); RemoveWorks(s, i, c, joins); WorkInIs(Do(s, l), joins);
    case Forward(i, c) => CallMade(s, order, i, c); NotThereYet(s, order, i, c); ForwardWorks(s, i, c, joins);
    case Skip(i, c) => CallMade(s, order, i, c); StageWorks(s, i, c, joins); WorkInIs(Do(s, l), joins);
    case LinkLost(i, c) => CallMade(s, order, i, c); StageWorks(s, i, c, joins); WorkInIs(Do(s, l), joins);
    case Acknowledge(i, c) => CallMade(s, order, i, c); AcknowledgeWorks(s, i, c, joins);
    case Respond(i, c) => CallMade(s, order, i, c); RemoveWorks(s, i, c, joins); WorkInIs(Do(s, l), joins);
    case Orphan(i, c) => CallMade(s, order, i, c); RemoveWorks(s, i, c, joins); WorkInIs(Do(s, l), joins);
  }

  lemma WorkInIs(s: Chain, joins: nat)
    ensures WorkIn(s, joins) == ChainWork(s.servers, s.next, joins)
  {
  }

  lemma ArriveWorks(ss: seq<Server>, i: nat, c: Id, op: Op, ids: nat, joins: nat)
    requires i < |ss| && c !in ss[i].calls && c < ids
    ensures var sv := ss[i].(calls := ss[i].calls[c := Call(op, Client, Wait, Failed)]);
            ChainWork(ss[i := sv], ids, joins) == ChainWork(ss, ids, joins) + 10 + 11 * (|ss| - 1 - i + joins)
  {
    hide ChainWork;
    var sv := ss[i].(calls := ss[i].calls[c := Call(op, Client, Wait, Failed)]);
    WorkChanges(ss, i, sv, c, ids, joins);
  }

  /** A call brings with it eleven steps a server, the sending included. */
  lemma SendWorks(s: Chain, order: seq<Entry>, op: Op, at: nat, joins: nat)
    requires Inv(s, order) && Enabled(s, Send(op, at))
    ensures WorkIn(Do(s, Send(op, at)), joins) < WorkIn(s, joins) + 11 * (|s.servers| + joins)
  {
    hide Inv, ChainWork, Ordered;
    NextIsFresh(s, order);
    var ss := s.servers;
    ArriveWorks(ss, at, s.next, op, s.next + 1, joins);
    NewIdIsIdle(ss, s.next, joins);
  }

  // ----- servers that leave or join bring no work

  lemma {:induction false} FewerSuccessors(sv: Server, fewer: nat, more: nat, ids: nat)
    requires fewer <= more
    ensures ServerWork(sv, fewer, ids) <= ServerWork(sv, more, ids)
  {
    if ids > 0 { FewerSuccessors(sv, fewer, more, ids - 1); }
  }

  lemma {:induction false} LeavingWorks(ss: seq<Server>, i: nat, ids: nat, joins: nat)
    requires i < |ss|
    ensures ChainWork(ss[..i] + ss[i + 1..], ids, joins) <= ChainWork(ss, ids, joins)
  {
    hide ServerWork;
    var tt := ss[..i] + ss[i + 1..];
    if i == 0 {
      assert tt == ss[1..];
    } else {
      assert tt[1..] == ss[1..][..i - 1] + ss[1..][i..];
      LeavingWorks(ss[1..], i - 1, ids, joins);
      FewerSuccessors(ss[0], |tt| - 1 + joins, |ss| - 1 + joins, ids);
    }
  }

  lemma {:induction false} JoiningWorks(ss: seq<Server>, sv: Server, ids: nat, joins: nat)
    requires joins > 0 && sv.calls == map[]
    ensures ChainWork(ss + [sv], ids, joins - 1) == ChainWork(ss, ids, joins)
  {
    hide ServerWork;
    if ss == [] {
      assert ([sv])[1..] == [] && [] + [sv] == [sv];
      NoCallNoWork(sv, joins - 1, ids);
    } else {
      assert (ss + [sv])[1..] == ss[1..] + [sv];
      JoiningWorks(ss[1..], sv, ids, joins);
    }
  }

  lemma {:induction false} NoCallNoWork(sv: Server, successors: nat, ids: nat)
    requires sv.calls == map[]
    ensures ServerWork(sv, successors, ids) == 0
  {
    if ids > 0 { NoCallNoWork(sv, successors, ids - 1); }
  }

  /** Losing a neighbour leaves a server as much to do. */
  lemma {:induction false} NeighbourWorks(sv: Server, successors: nat, ids: nat)
    ensures ServerWork(Bereft(sv), successors, ids) == ServerWork(sv, successors, ids)
    ensures ServerWork(Orphaned(sv), successors, ids) == ServerWork(sv, successors, ids)
  {
    if ids > 0 { NeighbourWorks(sv, successors, ids - 1); }
  }

  lemma CutOutWorks(ss: seq<Server>, i: nat, ids: nat, joins: nat)
    requires 0 < i && i + 1 < |ss|
    ensures ChainWork(CutOut(ss, i), ids, joins) <= ChainWork(ss, ids, joins)
  {
    hide ChainWork, ServerWork, Bereft, Orphaned;
    var rest := ss[..i] + ss[i + 1..];
    LeavingWorks(ss, i, ids, joins);
    OneServerChanges(rest, i - 1, Bereft(ss[i - 1]), ids, joins);
    NeighbourWorks(ss[i - 1], |rest| - i + joins, ids);
    OneServerChanges(rest[i - 1 := Bereft(ss[i - 1])], i, Orphaned(ss[i + 1]), ids, joins);
    NeighbourWorks(ss[i + 1], |rest| - 1 - i + joins, ids);
    assert CutOut(ss, i) == rest[i - 1 := Bereft(ss[i - 1])][i := Orphaned(ss[i + 1])];
  }

  predicate IsRemoval(l: Label) {
    l.RemoveHead? || l.RemoveTail? || l.RemoveMiddle?
  }

  lemma RemovalWorks(s: Chain, l: Label, joins: nat)
    requires Enabled(s, l) && IsRemoval(l)
    ensures WorkIn(Do(s, l), joins) <= WorkIn(s, joins)
    ensures |Do(s, l).servers| + 1 == |s.servers|
  {
    hide ChainWork, Covered, CutOut;
    var ss := s.servers;
    match l
    case RemoveHead =>
      LeavingWorks(ss, 0, s.next, joins);
      assert ss[..0] + ss[0 + 1..] == ss[1..];
    case RemoveTail =>
      LeavingWorks(ss, |ss| - 1, s.next, joins);
      assert ss[..|ss| - 1] + ss[|ss| - 1 + 1..] == ss[..|ss| - 1];
    case RemoveMiddle(i) =>
      CutOutAt(ss, i, 0);
      CutOutWorks(ss, i, s.next, joins);
  }

  lemma JoinWorks(s: Chain, entries: seq<Pair>, joins: nat)
    requires Enabled(s, Join(entries)) && joins > 0
    ensures WorkIn(Do(s, Join(entries)), joins - 1) == WorkIn(s, joins)
    ensures |Do(s, Join(entries)).servers| == |s.servers| + 1
  {
    hide ChainWork, ServerWork, Bereft;
    var ss := s.servers;
    var n := |ss|;
    OneServerChanges(ss, n - 1, Bereft(ss[n - 1]), s.next, joins);
    NeighbourWorks(ss[n - 1], joins, s.next);
    JoiningWorks(ss[n - 1 := Bereft(ss[n - 1])], FRESH_SERVER.(table := PutAll(map[], entries), log := ss[n - 1].log), s.next, joins);
  }

  // ----- every run ends

  function Sends(ls: seq<Label>): nat {
    if ls == [] then 0 else (if ls[0].Send? then 1 else 0) + Sends(ls[1..])
  }

  function Joins(ls: seq<Label>): nat {
    if ls == [] then 0 else (if ls[0].Join? then 1 else 0) + Joins(ls[1..])
  }

  function Removals(ls: seq<Label>): nat {
    if ls == [] then 0 else (if IsRemoval(ls[0]) then 1 else 0) + Removals(ls[1..])
  }

  /** What a step costs that does no work. */
  function Charge(l: Label, cap: nat): nat {
    if l.Send? then 11 * cap else if l.Join? || IsRemoval(l) then 1 else 0
  }

  lemma StepWorks(s: Chain, order: seq<Entry>, l: Label, joins: nat)
    requires Inv(s, order) && Enabled(s, l) && (l.Join? ==> joins > 0)
    ensures var joins' := if l.Join? then joins - 1 else joins;
            && WorkIn(Do(s, l), joins') < WorkIn(s, joins) + Charge(l, |s.servers| + joins)
            && |Do(s, l).servers| + joins' <= |s.servers| + joins
  {
    hide Inv, WorkIn;
    match l
    case Send(op, at) => SendWorks(s, order, op, at, joins);
    case Join(entries) => JoinWorks(s, entries, joins);
    case RemoveHead => RemovalWorks(s, l, joins);
    case RemoveTail => RemovalWorks(s, l, joins);
    case RemoveMiddle(_) => RemovalWorks(s, l, joins);
    case _ => ThreadStepWorks(s, order, l, joins);
  }

  lemma OneMore(cap: nat, k: nat)
    ensures cap * (1 + k) == cap + cap * k
  {
  }

  lemma ChargeGrows(l: Label, cap: nat, cap': nat)
    requires cap <= cap'
    ensures Charge(l, cap) <= Charge(l, cap')
  {
  }

  /** What a run costs beyond the work it does. */
  function Cost(ls: seq<Label>, cap: nat): nat {
    11 * cap * Sends(ls) + Joins(ls) + Removals(ls)
  }

  lemma CostIsCharged(ls: seq<Label>, cap: nat)
    requires ls != []
    ensures Cost(ls, cap) == Charge(ls[0], cap) + Cost(ls[1..], cap)
  {
    OneMore(11 * cap, Sends(ls[1..]));
  }

  lemma {:induction false} WorkBounds(s: Chain, order: seq<Entry>, ls: seq<Label>, cap: nat)
    requires Inv(s, order) && Possible(s, ls) && |s.servers| + Joins(ls) <= cap
    ensures |ls| + WorkIn(Run(s, ls), 0) <= WorkIn(s, Joins(ls)) + Cost(ls, cap)
    decreases |ls|
  {
    hide Inv, WorkIn, Grow, Charge, Cost, Do, Enabled;
    if ls != [] {
      var l := ls[0];
      StepKeeps(s, l, order);
      StepWorks(s, order, l, Joins(ls));
      ChargeGrows(l, |s.servers| + Joins(ls), cap);
      WorkBounds(Do(s, l), Grow(s, l, order), ls[1..], cap);
      CostIsCharged(ls, cap);
    } else {
      CostOfNothing(cap);
    }
  }

  lemma CostOfNothing(cap: nat)
    ensures Cost([], cap) == 0
  {
  }

  /** With n servers, j more that join, r that leave and k calls, no run is longer than 11 * (n + j) * k + j + r
      steps: no schedule goes on for ever. */
  lemma {:induction false} EveryRunIsShort(n: nat, ls: seq<Label>)
    requires n > 0 && Possible(Start(n), ls)
    ensures |ls| <= 11 * (n + Joins(ls)) * Sends(ls) + Joins(ls) + Removals(ls)
  {
    hide Inv, Do, Enabled;
    StartHolds(n);
    NoWorkAtStart(n, Joins(ls));
    WorkBounds(Start(n), [], ls, n + Joins(ls));
  }

  lemma {:induction false} NoWorkWithoutIds(ss: seq<Server>, joins: nat)
    ensures ChainWork(ss, 0, joins) == 0
  {
    if ss != [] { NoWorkWithoutIds(ss[1..], joins); }
  }

  lemma NoWorkAtStart(n: nat, joins: nat)
    ensures WorkIn(Start(n), joins) == 0
  {
    NoWorkWithoutIds(Start(n).servers, joins);
  }

  // ----- nobody is forgotten

  ghost predicate WaitsAt(ss: seq<Server>, i: nat, c: Id)
    requires i < |ss|
  {
    c in ss[i].calls && ss[i].calls[c].from == Client
  }

  ghost predicate WaitedFor(ss: seq<Server>, c: Id) {
    exists i :: 0 <= i < |ss| && WaitsAt(ss, i, c)
  }

  /** The step takes away the server that a client waits for. */
  ghost predicate Leaves(s: Chain, l: Label, c: Id)
    requires Enabled(s, l)
  {
    match l
    case RemoveHead => WaitsAt(s.servers, 0, c)
    case RemoveTail => WaitsAt(s.servers, |s.servers| - 1, c)
    case RemoveMiddle(i) => WaitsAt(s.servers, i, c)
    case _ => false
  }

  /** In the run the server leaves that the client of a call waits for. */
  ghost predicate Abandoned(s: Chain, ls: seq<Label>, c: Id)
    requires Possible(s, ls)
    decreases |ls|
  {
    ls != [] && (Leaves(s, ls[0], c) || Abandoned(Do(s, ls[0]), ls[1..], c))
  }

  lemma ReplaceKeepsWaiting(ss: seq<Server>, i: nat, sv: Server, c: Id)
    requires i < |ss| && WaitedFor(ss, c)
    requires WaitsAt(ss, i, c) ==> c in sv.calls && sv.calls[c].from == Client
    ensures WaitedFor(ss[i := sv], c)
  {
    var tt := ss[i := sv];
    var j :| 0 <= j < |ss| && WaitsAt(ss, j, c);
    assert WaitsAt(tt, j, c);
  }

  lemma StepForgetsNobody(s: Chain, order: seq<Entry>, l: Label, c: Id)
    requires Inv(s, order) && Enabled(s, l) && WaitedFor(s.servers, c) && !Leaves(s, l, c)
    ensures WaitedFor(Do(s, l).servers, c) || Answered(Do(s, l).history, c)
  {
    hide Inv, WaitedFor, Answered, After, KvSpec.Reply, Enter, Leave, MayRead, MayWrite;
    hide CutOut, Covered, Lists, PutAll, NextStage, Copyable;
    var ss := s.servers;
    match l
    case Send(op, at) =>
      NextIsFresh(s, order);
      ReplaceKeepsWaiting(ss, at, ss[at].(calls := ss[at].calls[s.next := Call(op, Client, Wait, Failed)]), c);
    case Local(i, d) => ReplaceKeepsWaiting(ss, i, Advance(ss[i], d), c);
    case Forward(i, d) =>
      NotThereYet(s, order, i, d);
      var a := SetStage(ss[i], d, Forwarded);
      ReplaceKeepsWaiting(ss, i, a, c);
      ReplaceKeepsWaiting(ss[i := a], i + 1, Do(s, l).servers[i + 1], c);
    case Skip(i, d) => ReplaceKeepsWaiting(ss, i, SetStage(ss[i], d, Back), c);
    case LinkLost(i, d) => ReplaceKeepsWaiting(ss, i, SetStage(ss[i], d, Back), c);
    case Acknowledge(i, d) =>
      var a := SetStage(ss[i], d, Back);
      ReplaceKeepsWaiting(ss, i, a, c);
      ReplaceKeepsWaiting(ss[i := a], i + 1, Remove(ss[i + 1], d), c);
    case Refuse(i, d) => RemoveForgetsNobody(s, i, d, Failed, c);
    case Respond(i, d) => RemoveForgetsNobody(s, i, d, ss[i].calls[d].answer, c);
    case Orphan(i, d) => ReplaceKeepsWaiting(ss, i, Remove(ss[i], d), c);
    case RemoveHead => LeavingForgetsNobody(ss, 0, ss[1..], c);
    case RemoveTail => LeavingForgetsNobody(ss, |ss| - 1, ss[..|ss| - 1], c);
    case RemoveMiddle(i) =>
      CutOutWaits(ss, i, c);
      LeavingForgetsNobody(ss, i, CutOut(ss, i), c);
    case Join(entries) => JoinForgetsNobody(ss, Do(s, l).servers, c);
  }

  /** Servers other than the one that leaves keep their clients. */
  lemma LeavingForgetsNobody(ss: seq<Server>, i: nat, tt: seq<Server>, c: Id)
    requires i < |ss| && |tt| == |ss| - 1 && WaitedFor(ss, c) && !WaitsAt(ss, i, c)
    requires forall j :: 0 <= j < |tt| && WaitsAt(ss, OldPlace(i, j), c) ==> WaitsAt(tt, j, c)
    ensures WaitedFor(tt, c)
  {
    var k :| 0 <= k < |ss| && WaitsAt(ss, k, c);
    var j := if k < i then k else k - 1;
    assert OldPlace(i, j) == k;
    assert WaitsAt(tt, j, c);
  }

  lemma CutOutWaits(ss: seq<Server>, i: nat, c: Id)
    requires 0 < i && i + 1 < |ss|
    ensures |CutOut(ss, i)| == |ss| - 1
    ensures forall j :: 0 <= j < |CutOut(ss, i)| && WaitsAt(ss, OldPlace(i, j), c) ==> WaitsAt(CutOut(ss, i), j, c)
  {
    hide CutOut;
    CutOutAt(ss, i, 0);
    forall j | 0 <= j < |CutOut(ss, i)| && WaitsAt(ss, OldPlace(i, j), c) ensures WaitsAt(CutOut(ss, i), j, c) {
      CutOutAt(ss, i, j);
    }
  }

  lemma JoinForgetsNobody(ss: seq<Server>, tt: seq<Server>, c: Id)
    requires WaitedFor(ss, c) && |ss| <= |tt|
    requires forall j :: 0 <= j < |ss| && WaitsAt(ss, j, c) ==> WaitsAt(tt, j, c)
    ensures WaitedFor(tt, c)
  {
    var k :| 0 <= k < |ss| && WaitsAt(ss, k, c);
    assert WaitsAt(tt, k, c);
  }

  lemma RemoveForgetsNobody(s: Chain, i: nat, d: Id, answer: Answer, c: Id)
    requires i < |s.servers| && WaitedFor(s.servers, c)
    ensures WaitedFor(s.servers[i := Remove(s.servers[i], d)], c) || (c == d && WaitsAt(s.servers, i, d))
    ensures Answered(s.history + [Return(d, answer)], d)
  {
    AnsweredGrows(s.history, Return(d, answer), d);
    if c != d || !WaitsAt(s.servers, i, d) {
      ReplaceKeepsWaiting(s.servers, i, Remove(s.servers[i], d), c);
    }
  }

  lemma AnswersStay(s: Chain, l: Label, c: Id)
    requires Enabled(s, l) && Answered(s.history, c)
    ensures Answered(Do(s, l).history, c)
  {
    hide Answered;
    var h := Do(s, l).history;
    if h != s.history {
      assert h == s.history + [h[|h| - 1]];
      AnsweredGrows(s.history, h[|h| - 1], c);
    }
  }

  lemma NewCallIsWaitedFor(s: Chain, op: Op, at: nat)
    requires Enabled(s, Send(op, at))
    ensures WaitedFor(Do(s, Send(op, at)).servers, s.next)
  {
    assert WaitsAt(Do(s, Send(op, at)).servers, at, s.next);
  }

  /** A call that was made is answered, or its client still waits. */
  ghost predicate Pending(s: Chain, c: Id) {
    c < s.next ==> Answered(s.history, c) || WaitedFor(s.servers, c)
  }

  lemma StepKeepsPending(s: Chain, order: seq<Entry>, l: Label, c: Id)
    requires Inv(s, order) && Enabled(s, l) && Pending(s, c) && !Leaves(s, l, c)
    ensures Pending(Do(s, l), c)
  {
    hide Inv, WaitedFor, Answered, Leaves;
    if c < s.next {
      if Answered(s.history, c) {
        AnswersStay(s, l, c);
      } else {
        StepForgetsNobody(s, order, l, c);
      }
    } else if l.Send? && c == s.next {
      NewCallIsWaitedFor(s, l.op, l.at);
    }
  }

  lemma {:induction false} RunKeepsPending(s: Chain, order: seq<Entry>, ls: seq<Label>, c: Id)
    requires Inv(s, order) && Possible(s, ls) && Pending(s, c)
    ensures Pending(Run(s, ls), c) || Abandoned(s, ls, c)
    decreases |ls|
  {
    hide Inv, Pending, Grow, Leaves, Do, Enabled;
    if ls != [] && !Leaves(s, ls[0], c) {
      StepKeeps(s, ls[0], order);
      StepKeepsPending(s, order, ls[0], c);
      RunKeepsPending(Do(s, ls[0]), Grow(s, ls[0], order), ls[1..], c);
    }
  }

  /** A run that no thread can extend has answered every call, except those whose server has left. */
  lemma {:induction false} EveryCallIsAnswered(n: nat, ls: seq<Label>, c: Id, op: Op)
    requires n > 0 && Possible(Start(n), ls)
    requires !CanMove(Run(Start(n), ls))
    requires Invoke(c, op) in Run(Start(n), ls).history
    ensures Answered(Run(Start(n), ls).history, c) || Abandoned(Start(n), ls, c)
  {
    hide Inv, CanMove, Answered, Abandoned, WaitsAt;
    var s := Run(Start(n), ls);
    StartHolds(n);
    RunKeepsPending(Start(n), [], ls, c);
    var order := OrderOf(n, ls);
    CallsAreIssued(s, order, c, op);
    if WaitedFor(s.servers, c) {
      var i :| 0 <= i < |s.servers| && WaitsAt(s.servers, i, c);
      WaitsAtBusy(s, i, c);
      NoDeadlock(n, ls);
    }
  }

  lemma WaitsAtBusy(s: Chain, i: nat, c: Id)
    requires i < |s.servers| && WaitsAt(s.servers, i, c)
    ensures Busy(s)
  {
    assert c in s.servers[i].calls;
  }

  lemma CallsAreIssued(s: Chain, order: seq<Entry>, c: Id, op: Op)
    requires Inv(s, order) && Invoke(c, op) in s.history
    ensures c < s.next
  {
    hide ServersInv, ReadsStay, AllKnown, AllOrdered, IsLinearization, WellFormed;
    var p :| 0 <= p < |s.history| && s.history[p] == Invoke(c, op);
    assert s.history[p].id < s.next;
  }
}
