/** When a server in the middle may be lost: exactly when the tail has applied every update it serves. */
module ChainLoss {
  import opened Bytes
  import opened KvSpec
  import opened RwSpec
  import opened Chain
  import opened ChainInvariant
  import opened Linearizability
  import opened ChainSafety
  import opened ChainTheorems
  import opened ChainResults
  import opened ChainProgress
  import opened ChainLimits

  /** The chain right after server i has gone, whatever it was doing. */
  function Lose(s: Chain, i: nat): Chain
    requires 0 < i && i + 1 < |s.servers|
  {
    s.(servers := CutOut(s.servers, i))
  }

  /** Logs are nested prefixes, and the head is at most one update ahead. */
  ghost predicate InStep(ss: seq<Server>) {
    forall i, j :: 0 <= i <= j < |ss| ==> ss[j].log <= ss[i].log && |ss[i].log| <= |ss[j].log| + 1
  }

  // ----- runs, put together

  lemma {:induction false} RunAppend(s: Chain, ls: seq<Label>, more: seq<Label>)
    requires Possible(s, ls) && Possible(Run(s, ls), more)
    ensures Possible(s, ls + more) && Run(s, ls + more) == Run(Run(s, ls), more)
    decreases |ls|
  {
    hide Enabled, Do;
    if ls == [] {
      assert ls + more == more;
    } else {
      RunAppend(Do(s, ls[0]), ls[1..], more);
      Then(s, ls[0], ls[1..] + more);
      assert ls + more == [ls[0]] + (ls[1..] + more);
    }
  }

  // ----- one direction: what is covered is safe

  lemma InvIsInStep(s: Chain, order: seq<Entry>)
    requires Inv(s, order)
    ensures InStep(s.servers)
  {
    hide Inv;
    var ss := s.servers;
    forall i, j | 0 <= i <= j < |ss| ensures ss[j].log <= ss[i].log && |ss[i].log| <= |ss[j].log| + 1 {
      var gapI := Ahead(s, order, i);
      var gapJ := Ahead(s, order, j);
      InvLogsShrink(s, order, i, j);
    }
  }

  lemma InvLogsShrink(s: Chain, order: seq<Entry>, i: nat, j: nat)
    requires Inv(s, order) && i <= j < |s.servers|
    ensures s.servers[j].log <= s.servers[i].log
  {
    hide ServersInv, ReadsStay, AllKnown, AllOrdered, IsLinearization, WellFormed;
    LogsShrink(s.servers, i, j);
  }

  lemma CoveredStaysInStep(s: Chain, order: seq<Entry>, i: nat, more: seq<Label>)
    requires Inv(s, order) && 0 < i && i + 1 < |s.servers| && Covered(s.servers, i)
    requires Possible(Lose(s, i), more)
    ensures InStep(Run(Lose(s, i), more).servers)
  {
    hide Inv, InStep;
    assert Enabled(s, RemoveMiddle(i)) && Do(s, RemoveMiddle(i)) == Lose(s, i);
    RemoveMiddleSafe(s, i, order);
    RunKeeps(Lose(s, i), more, order);
    var order' :| Inv(Run(Lose(s, i), more), order');
    InvIsInStep(Run(Lose(s, i), more), order');
  }

  // ----- an update on its way, seen from the servers

  /** An update that the tail has not applied, and where it is. */
  ghost predicate InFlight(s: Chain, order: seq<Entry>, i: nat, c: Id) {
    && Inv(s, order) && 0 < i && i + 1 < |s.servers|
    && c in s.servers[i].calls && IsUpdate(s.servers[i].calls[c].op) && !Ordered(order, c)
  }

  lemma UncoveredIsInFlight(s: Chain, order: seq<Entry>, i: nat) returns (c: Id)
    requires Inv(s, order) && 0 < i && i + 1 < |s.servers| && !Covered(s.servers, i)
    ensures InFlight(s, order, i, c)
  {
    hide Inv;
    c :| c in s.servers[i].calls && IsUpdate(s.servers[i].calls[c].op)
         && Update(c, s.servers[i].calls[c].op) !in s.servers[|s.servers| - 1].log;
    NotLoggedIsNotOrdered(s, i, c, order);
  }

  /** The servers before hold it forwarded, each for its predecessor. */
  lemma ForwardedBefore(s: Chain, order: seq<Entry>, i: nat, c: Id, k: nat)
    requires InFlight(s, order, i, c) && k < i
    ensures var ss := s.servers;
            && c in ss[k].calls && ss[k].calls[c].stage == Forwarded && ss[k].calls[c].op == ss[i].calls[c].op
            && (k > 0 ==> ss[k].calls[c].from == Predecessor)
  {
    hide ServersInv, ReadsStay, AllKnown, AllOrdered, IsLinearization, WellFormed, Ordered;
    var ss := s.servers;
    Upstream(ss, order, k, i, c);
    if k > 0 { Upstream(ss, order, 0, k, c); }
  }

  /** An update that a server has applied and the tail has not lags over its link, or its successor has applied
      it too. */
  lemma AppliedOrLags(a: Server, b: Server, last: bool, order: seq<Entry>, c: Id)
    requires ServerInv(a) && LinkInv(a, b) && ServerOrdered(a, false, order) && ServerOrdered(b, last, order)
    requires !Ordered(order, c) && c in a.calls && a.calls[c].stage in {Applied, Forwarded}
    ensures Lag(a, b) == [Update(c, a.calls[c].op)] || (!last && c in b.calls && b.calls[c].stage in {Applied, Forwarded})
  {
    hide StatsInv, Replay, Ordered, KvSpec.Reply;
    if a.calls[c].stage == Forwarded {
      assert CallOrdered(b.calls[c], c, last, order);
    }
  }

  /** A server that has applied an update which the tail has not is ahead of the tail. */
  lemma {:induction false} AppliedIsAhead(s: Chain, order: seq<Entry>, k: nat, c: Id)
    requires Inv(s, order) && k < |s.servers| && !Ordered(order, c)
    requires c in s.servers[k].calls && s.servers[k].calls[c].stage in {Applied, Forwarded}
    ensures |s.servers[k].log| > |s.servers[|s.servers| - 1].log|
    decreases |s.servers| - k
  {
    hide ServerInv, ServerOrdered, AllKnown, IsLinearization, WellFormed, Ordered, ReadsStay, Lag;
    var ss := s.servers;
    assert ServerOrdered(ss[k], k == |ss| - 1, order) && ServerInv(ss[k]);
    if k == |ss| - 1 {
      TailOrdered(ss[k], c, order);
    } else {
      var a, b, last := ss[k], ss[k + 1], k + 1 == |ss| - 1;
      assert LinkInv(a, b) && ServerOrdered(b, last, order);
      AppliedOrLags(a, b, last, order, c);
      LogsShrink(ss, k + 1, |ss| - 1);
      if Lag(a, b) != [Update(c, a.calls[c].op)] { AppliedIsAhead(s, order, k + 1, c); }
    }
  }

  // ----- the other direction: the answer climbs back without the update having arrived

  /** What the thread of an update leaves behind when it goes through to the end. */
  function Closed(sv: Server, c: Id): Server
    requires c in sv.calls
  {
    Server(sv.table, sv.log, sv.calls[c := sv.calls[c].(stage := Finished)], Leave(sv.lock, c, true), None)
  }

  lemma StatsAreFree(sv: Server, c: Id)
    requires ServerInv(sv) && c in sv.calls && IsUpdate(sv.calls[c].op) && sv.calls[c].stage in {Forwarded, Dropped, Back}
    ensures sv.stats == None && sv.lock == RwLock({}, Some(c))
  {
    hide CallInv, Replay;
    assert Inside(sv.calls[c].stage);
  }

  /** Three local steps from the reply to the end of the call. */
  lemma ClosesInThree(sv: Server, c: Id)
    requires c in sv.calls && IsUpdate(sv.calls[c].op) && sv.calls[c].stage == Back && sv.stats == None
    ensures CanAdvance(sv, c)
    ensures var sv1 := Advance(sv, c); CanAdvance(sv1, c)
    ensures var sv2 := Advance(Advance(sv, c), c); CanAdvance(sv2, c) && Advance(sv2, c) == Closed(sv, c)
  {
    var sv3 := Advance(Advance(Advance(sv, c), c), c);
    assert sv3.calls == Closed(sv, c).calls;
  }

  lemma Closes(t: Chain, j: nat, c: Id) returns (more: seq<Label>)
    requires j < |t.servers| && c in t.servers[j].calls && IsUpdate(t.servers[j].calls[c].op)
    requires t.servers[j].calls[c].stage == Back && t.servers[j].stats == None
    ensures Possible(t, more) && Run(t, more) == t.(servers := t.servers[j := Closed(t.servers[j], c)])
  {
    hide Advance, CanAdvance, Closed, Possible, Run;
    var l, sv := Local(j, c), t.servers[j];
    ClosesInThree(sv, c);
    var t1 := Do(t, l);
    var t2 := Do(t1, l);
    var t3 := Do(t2, l);
    assert t3.servers == t.servers[j := Closed(sv, c)];
    NoSteps(t3);
    Then(t2, l, []);
    Then(t1, l, [l] + []);
    Then(t, l, [l] + ([l] + []));
    more := [l] + ([l] + ([l] + []));
  }

  /** The thread gives up its wait, if it has not yet, and goes through to the end. */
  lemma Ends(t: Chain, j: nat, c: Id) returns (more: seq<Label>)
    requires j < |t.servers| && c in t.servers[j].calls && IsUpdate(t.servers[j].calls[c].op)
    requires t.servers[j].calls[c].stage in {Dropped, Back} && t.servers[j].stats == None
    ensures Possible(t, more) && Run(t, more) == t.(servers := t.servers[j := Closed(t.servers[j], c)])
  {
    if t.servers[j].calls[c].stage == Back {
      more := Closes(t, j, c);
    } else {
      hide Possible, Run;
      var t' := Do(t, LinkLost(j, c));
      var rest := Closes(t', j, c);
      more := [LinkLost(j, c)] + rest;
      Then(t, LinkLost(j, c), rest);
      ClosedAnyway(t.servers[j], c);
      assert t'.servers[j := Closed(t'.servers[j], c)] == t.servers[j := Closed(t.servers[j], c)];
    }
  }

  lemma ClosedAnyway(sv: Server, c: Id)
    requires c in sv.calls
    ensures Closed(SetStage(sv, c, Back), c) == Closed(sv, c)
  {
    assert Closed(SetStage(sv, c, Back), c).calls == Closed(sv, c).calls;
  }

  /** From server j up to the head, each server waits for the reply of the next; at j itself it is overdue. */
  ghost predicate Rising(t: Chain, j: nat, c: Id) {
    && j < |t.servers|
    && (forall k :: 0 <= k <= j ==>
          && ServerInv(t.servers[k]) && c in t.servers[k].calls && IsUpdate(t.servers[k].calls[c].op)
          && (k > 0 ==> t.servers[k].calls[c].from == Predecessor))
    && (forall k :: 0 <= k < j ==> t.servers[k].calls[c].stage == Forwarded)
    && t.servers[j].calls[c].stage in {Dropped, Back}
  }

  /** Server j's response goes to its predecessor. */
  function Passed(t: Chain, j: nat, c: Id): Chain
    requires 0 < j < |t.servers| && c in t.servers[j].calls && c in t.servers[j - 1].calls
  {
    t.(servers := t.servers[j := Remove(t.servers[j], c)][j - 1 := SetStage(t.servers[j - 1], c, Back)])
  }

  lemma EndsAndPasses(t: Chain, j: nat, c: Id) returns (more: seq<Label>)
    requires Rising(t, j, c) && j > 0
    ensures Possible(t, more) && Run(t, more) == Passed(t, j, c).(servers := Run(t, more).servers)
    ensures Run(t, more).servers == t.servers[j := Remove(Closed(t.servers[j], c), c)][j - 1 := SetStage(t.servers[j - 1], c, Back)]
  {
    hide Possible, Run, ServerInv, Closed;
    StatsAreFree(t.servers[j], c);
    var first := Ends(t, j, c);
    var u := t.(servers := t.servers[j := Closed(t.servers[j], c)]);
    ClosedHas(t.servers[j], c);
    var l := Acknowledge(j - 1, c);
    assert Enabled(u, l);
    NoSteps(Do(u, l));
    Then(u, l, []);
    assert [l] + [] == [l];
    RunAppend(t, first, [l]);
    more := first + [l];
    assert Do(u, l).servers == t.servers[j := Remove(Closed(t.servers[j], c), c)][j - 1 := SetStage(t.servers[j - 1], c, Back)];
  }

  lemma ClosedHas(sv: Server, c: Id)
    requires c in sv.calls
    ensures c in Closed(sv, c).calls && Closed(sv, c).calls[c] == sv.calls[c].(stage := Finished)
    ensures Closed(sv, c).log == sv.log
  {
  }

  /** Nothing but the calls and locks of the servers up to j has changed. */
  ghost predicate SameLogs(t: Chain, u: Chain, j: nat)
    requires j < |t.servers|
  {
    && |u.servers| == |t.servers| && u.next == t.next && u.history == t.history
    && (forall k :: 0 <= k < |t.servers| ==> u.servers[k].log == t.servers[k].log)
    && (forall k :: j < k < |t.servers| ==> u.servers[k] == t.servers[k])
  }

  /** The reply climbs up to the head, although the update has gone no further down. */
  lemma {:induction false} Climbs(t: Chain, j: nat, c: Id) returns (more: seq<Label>)
    requires Rising(t, j, c)
    ensures Possible(t, more)
    ensures var u := Run(t, more); SameLogs(t, u, j) && u.servers[0] == Closed(t.servers[0], c)
    decreases j
  {
    hide Possible, Run, ServerInv, Closed, SetStage, Remove;
    if j == 0 {
      StatsAreFree(t.servers[0], c);
      more := Ends(t, 0, c);
      ClosedHas(t.servers[0], c);
    } else {
      var first := EndsAndPasses(t, j, c);
      var v := Run(t, first);
      StepsUp(t, j, c, v);
      var rest := Climbs(v, j - 1, c);
      RunAppend(t, first, rest);
      more := first + rest;
      if j == 1 { ClosedAnyway(t.servers[0], c); }
    }
  }

  lemma StepsUp(t: Chain, j: nat, c: Id, v: Chain)
    requires Rising(t, j, c) && j > 0 && v == t.(servers := v.servers)
    requires v.servers == t.servers[j := Remove(Closed(t.servers[j], c), c)][j - 1 := SetStage(t.servers[j - 1], c, Back)]
    ensures Rising(v, j - 1, c) && SameLogs(t, v, j)
    ensures j > 1 ==> v.servers[0] == t.servers[0]
    ensures j == 1 ==> v.servers[0] == SetStage(t.servers[0], c, Back)
  {
    hide ServerInv, Closed;
    SetStageKeepsServer(t.servers[j - 1], c, Back);
    ClosedHas(t.servers[j], c);
  }

  // ----- and a new update follows at the head

  /** A server with free locks takes a new update as far as its own table. */
  lemma AppliesInFour(sv: Server, d: Id, op: Op)
    requires sv.lock == FREE && sv.stats == None && IsUpdate(op) && Accepted(op)
    ensures var sv0 := sv.(calls := sv.calls[d := Call(op, Client, Wait, Failed)]);
            CanAdvance(sv0, d) &&
            var sv1 := Advance(sv0, d);
            CanAdvance(sv1, d) &&
            var sv2 := Advance(sv1, d);
            CanAdvance(sv2, d) &&
            var sv3 := Advance(sv2, d);
            CanAdvance(sv3, d) && Advance(sv3, d).log == sv.log + [Update(d, op)]
  {
    hide After, KvSpec.Reply;
  }

  lemma NewUpdate(u: Chain) returns (more: seq<Label>)
    requires |u.servers| > 0 && u.servers[0].lock == FREE && u.servers[0].stats == None
    ensures Possible(u, more)
    ensures var v := Run(u, more);
            && |v.servers| == |u.servers| && |v.servers[0].log| == |u.servers[0].log| + 1
            && forall k :: 0 < k < |u.servers| ==> v.servers[k] == u.servers[k]
  {
    hide Advance, CanAdvance, Possible, Run;
    var op, d, sv := Del([]), u.next, u.servers[0];
    AppliesInFour(sv, d, op);
    var l := Local(0, d);
    var v0 := Do(u, Send(op, 0));
    var v1 := Do(v0, l);
    var v2 := Do(v1, l);
    var v3 := Do(v2, l);
    var v4 := Do(v3, l);
    NoSteps(v4);
    Then(v3, l, []);
    Then(v2, l, [l] + []);
    Then(v1, l, [l] + ([l] + []));
    Then(v0, l, [l] + ([l] + ([l] + [])));
    Then(u, Send(op, 0), [l] + ([l] + ([l] + ([l] + []))));
    more := [Send(op, 0)] + ([l] + ([l] + ([l] + ([l] + []))));
  }

  // ----- the main result

  /** Where an update in flight stands right after server i has gone. */
  lemma RisesAfterLoss(s: Chain, order: seq<Entry>, i: nat, c: Id)
    requires InFlight(s, order, i, c)
    ensures var t := Lose(s, i);
            && |t.servers| == |s.servers| - 1 && Rising(t, i - 1, c)
            && t.servers[0].log == s.servers[0].log && t.servers[|t.servers| - 1].log == s.servers[|s.servers| - 1].log
            && t.servers[0].calls[c].from == s.servers[0].calls[c].from
            && t.servers[0].calls[c].answer == s.servers[0].calls[c].answer
            && t.servers[0].calls[c].op == s.servers[i].calls[c].op
  {
    hide ServersInv, ReadsStay, AllKnown, AllOrdered, IsLinearization, WellFormed, Ordered, ServerInv, CutOut;
    var ss, t := s.servers, Lose(s, i);
    CutOutAt(ss, i, 0);
    CutOutAt(ss, i, |ss| - 2);
    AllServersHold(s, order);
    BereftKeepsServer(ss[i - 1]);
    forall k | 0 <= k < i
      ensures ServerInv(t.servers[k]) && c in t.servers[k].calls && IsUpdate(t.servers[k].calls[c].op)
      ensures k > 0 ==> t.servers[k].calls[c].from == Predecessor
      ensures t.servers[k].calls[c].stage == if k == i - 1 then Dropped else Forwarded
      ensures t.servers[k].calls[c].op == ss[i].calls[c].op
    {
      CutOutAt(ss, i, k);
      ForwardedBefore(s, order, i, c, k);
    }
    ForwardedBefore(s, order, i, c, 0);
  }

  lemma AllServersHold(s: Chain, order: seq<Entry>)
    requires Inv(s, order)
    ensures forall k :: 0 <= k < |s.servers| ==> ServerInv(s.servers[k])
  {
    hide ServerInv, LinkInv, ReadsStay, AllKnown, AllOrdered, IsLinearization, WellFormed;
  }

  /** With an update in flight through the lost server, the head can get two updates ahead of the tail. */
  lemma UncoveredGetsOutOfStep(s: Chain, order: seq<Entry>, i: nat) returns (more: seq<Label>)
    requires Inv(s, order) && 0 < i && i + 1 < |s.servers| && !Covered(s.servers, i)
    ensures Possible(Lose(s, i), more) && !InStep(Run(Lose(s, i), more).servers)
  {
    hide Inv, Possible, Run, Rising, Covered, Lose, ServersInv;
    var c := UncoveredIsInFlight(s, order, i);
    var t := Lose(s, i);
    RisesAfterLoss(s, order, i, c);
    ForwardedBefore(s, order, i, c, 0);
    AppliedIsAhead(s, order, 0, c);
    RisingHead(t, i - 1, c);
    var up := Climbs(t, i - 1, c);
    var u := Run(t, up);
    var on := NewUpdate(u);
    RunAppend(t, up, on);
    more := up + on;
    var v := Run(t, more);
    assert |v.servers[0].log| > |v.servers[|v.servers| - 1].log| + 1;
  }

  /** At the head of a rising reply, the locks are free once it has gone through. */
  lemma RisingHead(t: Chain, j: nat, c: Id)
    requires Rising(t, j, c)
    ensures c in t.servers[0].calls
    ensures Closed(t.servers[0], c).lock == FREE && Closed(t.servers[0], c).stats == None
    ensures Closed(t.servers[0], c).log == t.servers[0].log
  {
    hide ServerInv;
    StatsAreFree(t.servers[0], c);
  }

  /** A server in the middle may be lost at any moment in any run, exactly when the tail has applied every update
      it serves: only then do all servers stay in step however the chain goes on. */
  lemma {:induction false} LosingAMiddleServer(n: nat, ls: seq<Label>, i: nat)
    requires n > 0 && Possible(Start(n), ls) && 0 < i && i + 1 < |Run(Start(n), ls).servers|
    ensures var s := Run(Start(n), ls);
            Covered(s.servers, i)
            <==> forall more :: Possible(Lose(s, i), more) ==> InStep(Run(Lose(s, i), more).servers)
  {
    hide Inv, Covered, Lose, InStep;
    var s := Run(Start(n), ls);
    var order := OrderOf(n, ls);
    if Covered(s.servers, i) {
      forall more | Possible(Lose(s, i), more) ensures InStep(Run(Lose(s, i), more).servers) {
        CoveredStaysInStep(s, order, i, more);
      }
    } else {
      var more := UncoveredGetsOutOfStep(s, order, i);
    }
  }

  /** The stage at the lost server decides, except while it waits for its successor: what is on its way back is
      covered, what has not been forwarded is not. */
  lemma {:induction false} StageTells(n: nat, ls: seq<Label>, i: nat, c: Id)
    requires n > 0 && Possible(Start(n), ls) && 0 < i && i + 1 < |Run(Start(n), ls).servers|
    requires var sv := Run(Start(n), ls).servers[i]; c in sv.calls && IsUpdate(sv.calls[c].op)
    ensures var ss := Run(Start(n), ls).servers; var call := ss[i].calls[c]; var covered := Update(c, call.op) in ss[|ss| - 1].log;
            && (Late(call.stage) ==> covered)
            && (Early(call.stage) || call.stage == Applied ==> !covered)
  {
    hide ServersInv, ServerInv, ReadsStay, AllKnown, ServerOrdered, IsLinearization, WellFormed, Ordered;
    var s := Run(Start(n), ls);
    var order := OrderOf(n, ls);
    OrderedIsLogged(s, i, c, order);
    assert ServerOrdered(s.servers[i], false, order);
    var stage := s.servers[i].calls[c].stage;
    if Late(stage) {
      LateIsOrdered(s.servers[i], c, false, order);
      AllServersHold(s, order);
      AcceptedInside(s.servers[i], c);
    } else if Early(stage) || stage == Applied {
      NotYetOrdered(s.servers[i], c, order);
    }
  }

  /** The answer reaches the client; the tail has not moved. */
  lemma AnswerClimbs(s: Chain, order: seq<Entry>, i: nat, c: Id) returns (more: seq<Label>)
    requires InFlight(s, order, i, c) && WaitsAt(s.servers, 0, c)
    ensures Possible(Lose(s, i), more)
    ensures var t := Lose(s, i); var v := Run(t, more);
            && v.history == s.history + [Return(c, s.servers[0].calls[c].answer)] && v.next == s.next
            && |v.servers| == |t.servers| == |s.servers| - 1 && v.servers[|s.servers| - 2] == t.servers[|s.servers| - 2]
            && v.servers[|s.servers| - 2].log == s.servers[|s.servers| - 1].log
  {
    hide Inv, Possible, Run, Rising, Lose, ServersInv;
    var t := Lose(s, i);
    RisesAfterLoss(s, order, i, c);
    RisingHead(t, i - 1, c);
    var up := Climbs(t, i - 1, c);
    var u := Run(t, up);
    ClosedHas(t.servers[0], c);
    var l := Respond(0, c);
    NoSteps(Do(u, l));
    Then(u, l, []);
    assert [l] + [] == [l];
    RunAppend(t, up, [l]);
    more := up + [l];
    LoseKeepsHistory(s, i);
  }

  /** While the client of such an update still waits, it can get its answer before the tail has applied it. */
  lemma {:induction false} AnsweredTooSoon(n: nat, ls: seq<Label>, i: nat, c: Id) returns (more: seq<Label>)
    requires n > 0 && Possible(Start(n), ls) && 0 < i && i + 1 < |Run(Start(n), ls).servers|
    requires var ss := Run(Start(n), ls).servers;
             && c in ss[i].calls && IsUpdate(ss[i].calls[c].op) && Update(c, ss[i].calls[c].op) !in ss[|ss| - 1].log
             && WaitsAt(ss, 0, c)
    ensures var s := Run(Start(n), ls);
            && Possible(Lose(s, i), more)
            && var v := Run(Lose(s, i), more);
               && v.history == s.history + [Return(c, s.servers[0].calls[c].answer)]
               && |v.servers| > 0 && Update(c, s.servers[i].calls[c].op) !in v.servers[|v.servers| - 1].log
  {
    hide Inv, Possible, Run, Lose;
    var s := Run(Start(n), ls);
    var order := OrderOf(n, ls);
    NotLoggedIsNotOrdered(s, i, c, order);
    more := AnswerClimbs(s, order, i, c);
  }

  lemma LoseKeepsHistory(s: Chain, i: nat)
    requires 0 < i && i + 1 < |s.servers|
    ensures Lose(s, i).history == s.history && Lose(s, i).next == s.next
  {
  }

  // ----- an update that was not forwarded is lost for good

  predicate Logged(log: seq<Update>, c: Id) {
    exists x :: 0 <= x < |log| && log[x].id == c
  }

  /** From server i on nobody has or serves the update, and nobody before is about to forward it. */
  ghost predicate CutOff(t: Chain, i: nat, c: Id) {
    && i < |t.servers| && c < t.next
    && (forall k :: i <= k < |t.servers| ==> c !in t.servers[k].calls && !Logged(t.servers[k].log, c))
    && (forall k :: 0 <= k < i && c in t.servers[k].calls ==>
          t.servers[k].calls[c].stage == Forwarded || Late(t.servers[k].calls[c].stage))
  }

  lemma LoggedAppend(log: seq<Update>, u: Update, c: Id)
    ensures Logged(log + [u], c) <==> Logged(log, c) || u.id == c
  {
    assert (log + [u])[|log|] == u;
    if x :| 0 <= x < |log| && log[x].id == c { assert (log + [u])[x].id == c; }
  }

  lemma AdvanceCutOff(sv: Server, d: Id, c: Id)
    requires CanAdvance(sv, d)
    ensures c !in sv.calls && !Logged(sv.log, c) ==> c !in Advance(sv, d).calls && !Logged(Advance(sv, d).log, c)
    ensures c in Advance(sv, d).calls ==> c in sv.calls
    ensures c in sv.calls && (sv.calls[c].stage == Forwarded || Late(sv.calls[c].stage)) ==>
              Advance(sv, d).calls[c].stage == Forwarded || Late(Advance(sv, d).calls[c].stage)
  {
    hide After, KvSpec.Reply, Enter, Leave, MayRead, MayWrite, Logged;
    LoggedAppend(sv.log, Update(d, sv.calls[d].op), c);
  }

  lemma MessageKeepsCutOff(t: Chain, l: Label, i: nat, c: Id)
    requires CutOff(t, i, c) && Enabled(t, l) && (l.Forward? || l.Acknowledge?)
    ensures CutOff(Do(t, l), i, c)
  {
    hide Logged, Advance, CanAdvance, Lists, PutAll, Copyable, CutOut, Covered, Bereft;
  }

  lemma ThreadKeepsCutOff(t: Chain, l: Label, i: nat, c: Id)
    requires CutOff(t, i, c) && Enabled(t, l) && (l.Local? || l.Skip? || l.LinkLost? || l.Respond? || l.Orphan?)
    ensures CutOff(Do(t, l), i, c)
  {
    hide Logged, Advance, CanAdvance, Lists, PutAll, Copyable, CutOut, Covered, Bereft;
    if l.Local? { AdvanceCutOff(t.servers[l.i], l.c, c); }
  }

  lemma ArrivalKeepsCutOff(t: Chain, l: Label, i: nat, c: Id)
    requires CutOff(t, i, c) && Enabled(t, l) && (l.Send? || l.Refuse? || l.Join?)
    ensures CutOff(Do(t, l), i, c)
  {
    hide Logged, Advance, CanAdvance, Lists, PutAll, Copyable, CutOut, Covered;
  }

  lemma StepKeepsCutOff(t: Chain, l: Label, i: nat, c: Id)
    requires CutOff(t, i, c) && Enabled(t, l) && !IsRemoval(l)
    ensures CutOff(Do(t, l), i, c)
  {
    hide CutOff, Do, Enabled;
    if l.Forward? || l.Acknowledge? {
      MessageKeepsCutOff(t, l, i, c);
    } else if l.Send? || l.Refuse? || l.Join? {
      ArrivalKeepsCutOff(t, l, i, c);
    } else {
      ThreadKeepsCutOff(t, l, i, c);
    }
  }

  lemma {:induction false} RunKeepsCutOff(t: Chain, ls: seq<Label>, i: nat, c: Id)
    requires CutOff(t, i, c) && Possible(t, ls) && Removals(ls) == 0
    ensures CutOff(Run(t, ls), i, c)
    decreases |ls|
  {
    hide CutOff, Do, Enabled;
    if ls != [] {
      StepKeepsCutOff(t, ls[0], i, c);
      RunKeepsCutOff(Do(t, ls[0]), ls[1..], i, c);
    }
  }

  lemma LogsGrow(t: Chain, l: Label, k: nat)
    requires Enabled(t, l) && !IsRemoval(l) && k < |t.servers|
    ensures k < |Do(t, l).servers| && t.servers[k].log <= Do(t, l).servers[k].log
  {
    hide CanAdvance, Lists, PutAll, Copyable, KvSpec.Reply, After, Enter, Leave;
  }

  lemma {:induction false} RunLogsGrow(t: Chain, ls: seq<Label>, k: nat)
    requires Possible(t, ls) && Removals(ls) == 0 && k < |t.servers|
    ensures k < |Run(t, ls).servers| && t.servers[k].log <= Run(t, ls).servers[k].log
    decreases |ls|
  {
    hide Do, Enabled;
    if ls != [] {
      LogsGrow(t, ls[0], k);
      RunLogsGrow(Do(t, ls[0]), ls[1..], k);
    }
  }

  /** An update at a server that has not forwarded it lags over one of the links of that server. */
  lemma NotForwardedLags(s: Chain, order: seq<Entry>, i: nat, c: Id)
    requires InFlight(s, order, i, c) && s.servers[i].calls[c].stage != Forwarded
    ensures var ss := s.servers; var u := [Update(c, ss[i].calls[c].op)];
            && c !in ss[i + 1].calls
            && ss[i - 1].log == ss[i + 1].log + u
            && (forall k :: i < k < |ss| ==> ss[k].log == ss[|ss| - 1].log)
  {
    hide ReadsStay, AllKnown, IsLinearization, WellFormed, Ordered, ServerInv, LinkInv, ServerOrdered, Quiet;
    var ss := s.servers;
    var m, last := ss[i], i + 1 == |ss| - 1;
    ForwardedBefore(s, order, i, c, i - 1);
    assert ServerOrdered(m, false, order) && ServerOrdered(ss[i + 1], last, order);
    NotLateYet(m, c, order);
    assert LinkInv(ss[i - 1], m) && LinkInv(m, ss[i + 1]) && ServerInv(ss[i - 1]) && ServerInv(m) && ServerInv(ss[i + 1]);
    NotAtTheNext(s, order, i, c);
    LagsThere(ss[i - 1], m, ss[i + 1], c, last, order);
    forall k | i < k < |ss| ensures ss[k].log == ss[|ss| - 1].log {
      Settled(ss, order, i + 1, k);
      Settled(ss, order, i + 1, |ss| - 1);
    }
  }

  lemma NotLateYet(sv: Server, c: Id, order: seq<Entry>)
    requires ServerOrdered(sv, false, order) && c in sv.calls && !Ordered(order, c)
    ensures !Late(sv.calls[c].stage)
  {
    hide Ordered, KvSpec.Reply;
    assert CallOrdered(sv.calls[c], c, false, order);
  }

  lemma NotAtTheNext(s: Chain, order: seq<Entry>, i: nat, c: Id)
    requires InFlight(s, order, i, c) && s.servers[i].calls[c].stage != Forwarded
    ensures forall k :: i < k < |s.servers| ==> c !in s.servers[k].calls
  {
    hide ServersInv, AllKnown, IsLinearization, WellFormed, Ordered, AllOrdered;
    forall k | i < k < |s.servers| ensures c !in s.servers[k].calls {
      if c in s.servers[k].calls {
        assert IsUpdate(s.servers[k].calls[c].op);
        Upstream(s.servers, order, i, k, c);
      }
    }
  }

  /** The writer of the server is that update, or its predecessor's is. */
  lemma LagsThere(a: Server, m: Server, b: Server, c: Id, last: bool, order: seq<Entry>)
    requires ServerInv(a) && ServerInv(m) && ServerInv(b) && LinkInv(a, m) && LinkInv(m, b)
    requires ServerOrdered(m, false, order) && ServerOrdered(b, last, order)
    requires c in a.calls && a.calls[c].stage == Forwarded && a.calls[c].op == m.calls[c].op && IsUpdate(a.calls[c].op)
    requires c in m.calls && (Early(m.calls[c].stage) || m.calls[c].stage == Applied)
    ensures a.log == b.log + [Update(c, m.calls[c].op)] && Quiet(b, order)
  {
    hide StatsInv, CallInv, Replay, ServerOrdered;
    assert a.lock.writer == Some(c);
    if m.calls[c].stage == Applied {
      assert m.lock.writer == Some(c) && Lag(m, b) == [Update(c, m.calls[c].op)] && Lag(a, m) == [];
      LagSettles(m, b, last, order);
    } else {
      assert Lag(a, m) == [Update(c, m.calls[c].op)];
      LagSettles(a, m, false, order);
      SettledLink(m, b, last, order);
    }
  }

  lemma NobodyBehindHasIt(s: Chain, order: seq<Entry>, i: nat, c: Id)
    requires InFlight(s, order, i, c) && s.servers[i].calls[c].stage != Forwarded
    ensures CutOff(Lose(s, i), i, c) && Logged(Lose(s, i).servers[i - 1].log, c)
  {
    hide ServersInv, ReadsStay, AllKnown, AllOrdered, IsLinearization, WellFormed, Ordered, Logged, CutOut;
    var ss, t := s.servers, Lose(s, i);
    CutOutAt(ss, i, 0);
    NotForwardedLags(s, order, i, c);
    NotAtTheNext(s, order, i, c);
    CallMade(s, order, i, c);
    TailLacksIt(s, order, c);
    forall k | i <= k < |t.servers| ensures c !in t.servers[k].calls && !Logged(t.servers[k].log, c) {
      CutOutAt(ss, i, k);
    }
    forall k | 0 <= k < i && c in t.servers[k].calls
      ensures t.servers[k].calls[c].stage == Forwarded || Late(t.servers[k].calls[c].stage)
    {
      CutOutAt(ss, i, k);
      ForwardedBefore(s, order, i, c, k);
    }
    CutOutAt(ss, i, i - 1);
    LoggedAppend(ss[i + 1].log, Update(c, ss[i].calls[c].op), c);
  }

  lemma TailLacksIt(s: Chain, order: seq<Entry>, c: Id)
    requires Inv(s, order) && !Ordered(order, c)
    ensures !Logged(s.servers[|s.servers| - 1].log, c)
  {
    hide ServersInv, ReadsStay, AllKnown, AllOrdered, IsLinearization, WellFormed;
    if x :| 0 <= x < |UpdatesOf(order)| && UpdatesOf(order)[x].id == c {
      UpdateWasOrdered(order, x);
    }
  }

  /** An update that the lost server had not forwarded stays with the servers before it: however the chain goes
      on, as long as no further server leaves, none behind, old or new, ever gets it. */
  lemma {:induction false} LostForGood(n: nat, ls: seq<Label>, i: nat, c: Id, more: seq<Label>)
    requires n > 0 && Possible(Start(n), ls) && 0 < i && i + 1 < |Run(Start(n), ls).servers|
    requires var sv := Run(Start(n), ls).servers[i];
             && c in sv.calls && IsUpdate(sv.calls[c].op) && (Early(sv.calls[c].stage) || sv.calls[c].stage == Applied)
    requires Possible(Lose(Run(Start(n), ls), i), more) && Removals(more) == 0
    ensures var tt := Run(Lose(Run(Start(n), ls), i), more).servers;
            && i < |tt| && Logged(tt[i - 1].log, c)
            && forall k :: i <= k < |tt| ==> !Logged(tt[k].log, c)
  {
    hide Inv, Lose, Logged;
    var s := Run(Start(n), ls);
    var order := OrderOf(n, ls);
    StageTells(n, ls, i, c);
    NotLoggedIsNotOrdered(s, i, c, order);
    NobodyBehindHasIt(s, order, i, c);
    RunKeepsCutOff(Lose(s, i), more, i, c);
    RunLogsGrow(Lose(s, i), more, i - 1);
    LoggedGrows(Lose(s, i).servers[i - 1].log, Run(Lose(s, i), more).servers[i - 1].log, c);
  }

  lemma LoggedGrows(log: seq<Update>, more: seq<Update>, c: Id)
    requires log <= more && Logged(log, c)
    ensures Logged(more, c)
  {
    var x :| 0 <= x < |log| && log[x].id == c;
    assert more[x].id == c;
  }
}
