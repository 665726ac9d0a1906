/** A run in which a server in the middle is lost too early. */
module ChainLimits {
  import opened Bytes
  import opened KvSpec
  import opened RwSpec
  import opened Chain

  /** A server that is serving the update with id 0, or has served it. */
  function Busy(op: Op, from: Caller, stage: Stage): Server {
    var applied := !Early(stage);
    Server(
      if applied then After(op, map[]) else map[],
      if applied then [Update(0, op)] else [],
      map[0 := Call(op, from, stage, if applied then KvSpec.Reply(op, map[]) else Failed)],
      if Inside(stage) then RwLock({}, Some(0)) else FREE,
      if stage == Counting || stage == Timing then Some(0) else None)
  }

  /** The stage of an update's thread after so many steps inside its server. */
  function Later(op: Op, stage: Stage, steps: nat): Stage
    decreases steps
  {
    if steps == 0 then stage else Later(op, NextStage(Call(op, Client, stage, Failed)), steps - 1)
  }

  /** None of the first steps has to do with another server. */
  predicate StaysInside(op: Op, stage: Stage, steps: nat)
    decreases steps
  {
    steps == 0 || (IsInner(stage) && StaysInside(op, NextStage(Call(op, Client, stage, Failed)), steps - 1))
  }

  predicate IsInner(stage: Stage) {
    stage in {Wait, Entered, Counting, Ready, Back, Timing, Leaving}
  }

  lemma Advances(op: Op, from: Caller, stage: Stage)
    requires IsUpdate(op) && Accepted(op) && IsInner(stage)
    ensures CanAdvance(Busy(op, from, stage), 0)
    ensures Advance(Busy(op, from, stage), 0) == Busy(op, from, NextStage(Call(op, from, stage, Failed)))
  {
    hide After, KvSpec.Reply;
    var sv := Busy(op, from, stage);
    assert sv.calls[0].stage == stage && sv.calls[0].op == op;
    assert Advance(sv, 0).calls == Busy(op, from, NextStage(Call(op, from, stage, Failed))).calls;
    assert stage == Ready ==> [] + [Update(0, op)] == [Update(0, op)];
  }

  lemma LocalStep(s: Chain, i: nat, op: Op, from: Caller, stage: Stage)
    requires IsUpdate(op) && Accepted(op) && IsInner(stage)
    requires i < |s.servers| && s.servers[i] == Busy(op, from, stage)
    ensures Enabled(s, Local(i, 0)) && Do(s, Local(i, 0)) == s.(servers := s.servers[i := Busy(op, from, NextStage(Call(op, from, stage, Failed)))])
  {
    hide Advance, CanAdvance, Busy;
    Advances(op, from, stage);
  }

  lemma Then(s: Chain, l: Label, rest: seq<Label>)
    requires Enabled(s, l) && Possible(Do(s, l), rest)
    ensures Possible(s, [l] + rest) && Run(s, [l] + rest) == Run(Do(s, l), rest)
  {
    hide Enabled, Do;
    assert ([l] + rest)[1..] == rest;
  }

  /** The thread at server i goes through the given number of local steps. */
  function Locals(i: nat, steps: nat): seq<Label> {
    if steps == 0 then [] else [Local(i, 0)] + Locals(i, steps - 1)
  }

  lemma {:induction false} LocalsRun(s: Chain, t: Chain, i: nat, op: Op, from: Caller, stage: Stage, steps: nat, rest: seq<Label>)
    requires i < |s.servers| && s.servers[i] == Busy(op, from, stage) && IsUpdate(op) && Accepted(op)
    requires StaysInside(op, stage, steps)
    requires t == s.(servers := s.servers[i := Busy(op, from, Later(op, stage, steps))]) && Possible(t, rest)
    ensures Possible(s, Locals(i, steps) + rest) && Run(s, Locals(i, steps) + rest) == Run(t, rest)
    decreases steps
  {
    hide Enabled, Do, Busy, Possible, Run;
    if steps == 0 {
      assert s.servers[i := s.servers[i]] == s.servers;
      assert Locals(i, 0) + rest == rest;
    } else {
      LocalStep(s, i, op, from, stage);
      LocalsRun(Do(s, Local(i, 0)), t, i, op, from, NextStage(Call(op, from, stage, Failed)), steps - 1, rest);
      Then(s, Local(i, 0), Locals(i, steps - 1) + rest);
      assert Locals(i, steps) + rest == [Local(i, 0)] + (Locals(i, steps - 1) + rest);
    }
  }

  lemma WaitToApplied(op: Op)
    requires IsUpdate(op)
    ensures StaysInside(op, Wait, 4) && Later(op, Wait, 4) == Applied
  {
  }

  lemma UntilForwarding(k: CString, v: Block) returns (before: seq<Label>)
    requires v != []
    ensures Possible(Start(3), before)
    ensures Run(Start(3), before)
         == Chain([Busy(Put(k, v), Client, Forwarded), Busy(Put(k, v), Predecessor, Applied), FRESH_SERVER], 1, [Invoke(0, Put(k, v))])
  {
    hide Possible, Run, Advance, CanAdvance, Locals, Later, StaysInside;
    var op := Put(k, v);
    var h := [Invoke(0, op)];
    WaitToApplied(op);
    var s1 := Chain([Busy(op, Client, Wait), FRESH_SERVER, FRESH_SERVER], 1, h);
    var s2 := Chain([Busy(op, Client, Applied), FRESH_SERVER, FRESH_SERVER], 1, h);
    var s3 := Chain([Busy(op, Client, Forwarded), Busy(op, Predecessor, Wait), FRESH_SERVER], 1, h);
    var s4 := Chain([Busy(op, Client, Forwarded), Busy(op, Predecessor, Applied), FRESH_SERVER], 1, h);
    NoSteps(s4);
    assert s3.servers[1 := Busy(op, Predecessor, Applied)] == s4.servers;
    LocalsRun(s3, s4, 1, op, Predecessor, Wait, 4, []);
    Forwards(op, h);
    Then(s2, Forward(0, 0), Locals(1, 4) + []);
    assert s1.servers[0 := Busy(op, Client, Applied)] == s2.servers;
    LocalsRun(s1, s2, 0, op, Client, Wait, 4, [Forward(0, 0)] + (Locals(1, 4) + []));
    Sends(op);
    before := [Send(op, 0)] + (Locals(0, 4) + ([Forward(0, 0)] + (Locals(1, 4) + [])));
    Then(Start(3), Send(op, 0), Locals(0, 4) + ([Forward(0, 0)] + (Locals(1, 4) + [])));
  }

  lemma NoSteps(s: Chain)
    ensures Possible(s, []) && Run(s, []) == s
  {
  }

  lemma Sends(op: Op)
    requires IsUpdate(op) && Accepted(op)
    ensures Enabled(Start(3), Send(op, 0))
    ensures Do(Start(3), Send(op, 0)) == Chain([Busy(op, Client, Wait), FRESH_SERVER, FRESH_SERVER], 1, [Invoke(0, op)])
  {
    assert Do(Start(3), Send(op, 0)).servers == [Busy(op, Client, Wait), FRESH_SERVER, FRESH_SERVER];
  }

  lemma Forwards(op: Op, h: seq<Event>)
    requires IsUpdate(op) && Accepted(op)
    ensures var s := Chain([Busy(op, Client, Applied), FRESH_SERVER, FRESH_SERVER], 1, h);
            && Enabled(s, Forward(0, 0))
            && Do(s, Forward(0, 0)) == Chain([Busy(op, Client, Forwarded), Busy(op, Predecessor, Wait), FRESH_SERVER], 1, h)
  {
    var s := Chain([Busy(op, Client, Applied), FRESH_SERVER, FRESH_SERVER], 1, h);
    assert SetStage(s.servers[0], 0, Forwarded).calls == Busy(op, Client, Forwarded).calls;
    assert SetStage(s.servers[0], 0, Forwarded) == Busy(op, Client, Forwarded);
    assert Do(s, Forward(0, 0)).servers == [Busy(op, Client, Forwarded), Busy(op, Predecessor, Wait), FRESH_SERVER];
  }

  lemma GivesUp(op: Op, h: seq<Event>)
    requires IsUpdate(op) && Accepted(op)
    ensures var s := Chain([Busy(op, Client, Dropped), FRESH_SERVER], 1, h);
            && Enabled(s, LinkLost(0, 0))
            && Do(s, LinkLost(0, 0)) == Chain([Busy(op, Client, Back), FRESH_SERVER], 1, h)
  {
    var s := Chain([Busy(op, Client, Dropped), FRESH_SERVER], 1, h);
    assert SetStage(s.servers[0], 0, Back).calls == Busy(op, Client, Back).calls;
    assert SetStage(s.servers[0], 0, Back) == Busy(op, Client, Back);
    assert Do(s, LinkLost(0, 0)).servers == [Busy(op, Client, Back), FRESH_SERVER];
  }

  lemma MiddleIsGone(op: Op)
    requires IsUpdate(op)
    ensures CutOut([Busy(op, Client, Forwarded), Busy(op, Predecessor, Applied), FRESH_SERVER], 1)
         == [Busy(op, Client, Dropped), FRESH_SERVER]
  {
    assert Bereft(Busy(op, Client, Forwarded)).calls == Busy(op, Client, Dropped).calls;
    assert Bereft(Busy(op, Client, Forwarded)) == Busy(op, Client, Dropped);
    assert Orphaned(FRESH_SERVER).calls == map[];
    assert Orphaned(FRESH_SERVER) == FRESH_SERVER;
  }

  lemma Answers(op: Op, h: seq<Event>)
    requires IsUpdate(op) && Accepted(op)
    ensures var s := Chain([Busy(op, Client, Finished), FRESH_SERVER], 1, h);
            && Enabled(s, Respond(0, 0))
            && var t := Do(s, Respond(0, 0));
               && t.history == h + [Return(0, KvSpec.Reply(op, map[]))]
               && |t.servers| == 2 && t.servers[0].calls == t.servers[1].calls == map[]
               && t.servers[0].table == After(op, map[]) && t.servers[1].table == map[]
  {
    var s := Chain([Busy(op, Client, Finished), FRESH_SERVER], 1, h);
    assert s.servers[0].calls - {0} == map[];
  }

  lemma BackToTheEnd(op: Op)
    ensures StaysInside(op, Back, 3) && Later(op, Back, 3) == Finished
  {
  }

  /** Three servers, one put. The middle server applies it and is lost before it forwards it: the head ignores
      the failure and answers, and the tail, which now follows the head, never hears of the put. */
  lemma LosingABusyServer(k: CString, v: Block) returns (before: seq<Label>, after: seq<Label>)
    requires v != []
    ensures Possible(Start(3), before)
    ensures var s := Run(Start(3), before);
            && |s.servers| == 3 && s.servers[1].calls != map[]
            && var cut := s.(servers := CutOut(s.servers, 1));
               && Possible(cut, after)
               && var end := Run(cut, after);
                  && end.history == [Invoke(0, Put(k, v)), Return(0, Done)]
                  && |end.servers| == 2 && end.servers[0].calls == end.servers[1].calls == map[]
                  && k in end.servers[0].table && k !in end.servers[1].table
  {
    hide Possible, Run, Advance, CanAdvance, Locals, Do, Enabled, CutOut, Later, StaysInside;
    before := UntilForwarding(k, v);
    var op := Put(k, v);
    var h := [Invoke(0, op)];
    var cut := Chain([Busy(op, Client, Dropped), FRESH_SERVER], 1, h);
    MiddleIsGone(op);
    var t1 := Chain([Busy(op, Client, Back), FRESH_SERVER], 1, h);
    var t2 := Chain([Busy(op, Client, Finished), FRESH_SERVER], 1, h);
    Answers(op, h);
    NoSteps(Do(t2, Respond(0, 0)));
    Then(t2, Respond(0, 0), []);
    assert [Respond(0, 0)] + [] == [Respond(0, 0)];
    assert t1.servers[0 := Busy(op, Client, Finished)] == t2.servers;
    BackToTheEnd(op);
    LocalsRun(t1, t2, 0, op, Client, Back, 3, [Respond(0, 0)]);
    GivesUp(op, h);
    after := [LinkLost(0, 0)] + (Locals(0, 3) + [Respond(0, 0)]);
    Then(cut, LinkLost(0, 0), Locals(0, 3) + [Respond(0, 0)]);
  }
}
