/** The chain invariant: kept by every step, whether of a thread, of a client or of the membership. */
module ChainInvariant {
  import opened Bytes
  import opened KvSpec
  import opened RwSpec
  import opened Chain

  // ----- one server

  lemma AdvanceKeepsLocks(sv: Server, c: Id)
    requires LockInv(sv) && CallInv(sv) && CanAdvance(sv, c)
    ensures LockInv(Advance(sv, c))
  {
    hide After, KvSpec.Reply;
    var sv' := Advance(sv, c);
    if !IsUpdate(sv.calls[c].op) {
      assert sv'.lock.writer == sv.lock.writer;
    }
  }

  lemma AdvanceKeepsStats(sv: Server, c: Id)
    requires StatsInv(sv) && CanAdvance(sv, c)
    ensures StatsInv(Advance(sv, c))
  {
    hide After, KvSpec.Reply, MayRead, MayWrite, Enter, Leave;
  }

  lemma AdvanceKeepsCalls(sv: Server, c: Id)
    requires CallInv(sv) && CanAdvance(sv, c)
    ensures CallInv(Advance(sv, c))
  {
    hide After, KvSpec.Reply, MayRead, MayWrite, Enter, Leave;
  }

  lemma AdvanceKeepsTable(sv: Server, c: Id)
    requires CanAdvance(sv, c) && sv.table == Replay(sv.log)
    ensures Advance(sv, c).table == Replay(Advance(sv, c).log)
  {
    var u := Update(c, sv.calls[c].op);
    assert (sv.log + [u])[..|sv.log|] == sv.log;
  }

  lemma AdvanceKeepsServer(sv: Server, c: Id)
    requires ServerInv(sv) && CanAdvance(sv, c)
    ensures ServerInv(Advance(sv, c))
  {
    hide LockInv, StatsInv, CallInv, Replay, Advance;
    AdvanceKeepsLocks(sv, c);
    AdvanceKeepsStats(sv, c);
    AdvanceKeepsCalls(sv, c);
    AdvanceKeepsTable(sv, c);
  }

  /** Any stage change that neither enters nor leaves a lock. */
  lemma SetStageKeepsServer(sv: Server, c: Id, st: Stage)
    requires ServerInv(sv) && c in sv.calls
    requires sv.calls[c].stage in {Applied, Forwarded, Dropped} && st in {Forwarded, Back}
    ensures ServerInv(SetStage(sv, c, st))
  {
  }

  lemma RemoveKeepsServer(sv: Server, c: Id)
    requires ServerInv(sv) && c in sv.calls && sv.calls[c].stage in {Wait, Finished}
    ensures ServerInv(Remove(sv, c))
  {
  }

  lemma ArriveKeepsServer(sv: Server, c: Id, op: Op, from: Caller)
    requires ServerInv(sv) && c !in sv.calls && (from == Client || IsUpdate(op))
    ensures ServerInv(sv.(calls := sv.calls[c := Call(op, from, Wait, Failed)]))
  {
  }

  lemma BereftKeepsServer(sv: Server)
    requires ServerInv(sv)
    ensures ServerInv(Bereft(sv))
  {
    hide Replay;
  }

  lemma OrphanedKeepsServer(sv: Server)
    requires ServerInv(sv)
    ensures ServerInv(Orphaned(sv))
  {
    hide Replay;
  }

  // ----- one link

  lemma AdvanceLeft(a: Server, b: Server, c: Id)
    requires ServerInv(a) && LinkInv(a, b) && CanAdvance(a, c)
    ensures LinkInv(Advance(a, c), b)
  {
    hide After, KvSpec.Reply, StatsInv, Replay, LockInv, Lag, MayRead, MayWrite, Enter, Leave;
    assert a.calls[c].stage != Forwarded && Advance(a, c).calls[c].stage != Forwarded;
    AdvanceLeftLog(a, b, c);
  }

  lemma AdvanceLeftLog(a: Server, b: Server, c: Id)
    requires ServerInv(a) && LinkInv(a, b) && CanAdvance(a, c)
    ensures Advance(a, c).log == b.log + Lag(Advance(a, c), b)
  {
    hide After, KvSpec.Reply, StatsInv, Replay, CallInv;
    var a' := Advance(a, c);
    assert a.calls[c].stage != Forwarded && a'.calls[c].stage != Forwarded;
    if !IsUpdate(a.calls[c].op) {
      AdvanceReadLeft(a, b, c);
    } else if a.calls[c].stage == Wait {
      assert Lag(a, b) == [] && Lag(a', b) == [];
    } else {
      assert a.lock.writer == Some(c) && Lag(a, b) == [];
      assert Lag(a', b) == if a.calls[c].stage == Ready then [Update(c, a.calls[c].op)] else [];
    }
  }

  /** A read changes nothing of what lags. */
  lemma AdvanceReadLeft(a: Server, b: Server, c: Id)
    requires LockInv(a) && CanAdvance(a, c) && !IsUpdate(a.calls[c].op)
    ensures Lag(Advance(a, c), b) == Lag(a, b) && Advance(a, c).log == a.log
  {
    hide After, KvSpec.Reply, MayWrite;
    assert a.lock.writer.None?;
  }

  /** While its successor serves an update that it waits for, a server's writer is that update. */
  lemma SuccessorServesTheWriter(a: Server, b: Server, c: Id)
    requires LockInv(a) && LinkInv(a, b) && c in b.calls && b.calls[c].from == Predecessor && IsUpdate(b.calls[c].op)
    ensures a.lock.writer == Some(c)
  {
  }

  lemma AdvanceRight(a: Server, b: Server, c: Id)
    requires LockInv(a) && LinkInv(a, b) && CanAdvance(b, c)
    ensures LinkInv(a, Advance(b, c))
  {
    hide After, KvSpec.Reply, MayRead, MayWrite, Enter, Leave, LockInv, Lag;
    AdvanceRightLog(a, b, c);
  }

  lemma AdvanceRightLog(a: Server, b: Server, c: Id)
    requires LockInv(a) && LinkInv(a, b) && CanAdvance(b, c)
    ensures a.log == Advance(b, c).log + Lag(a, Advance(b, c))
  {
    hide After, KvSpec.Reply, MayRead, MayWrite, Enter, Leave;
    var b' := Advance(b, c);
    if IsUpdate(b.calls[c].op) && b.calls[c].from == Predecessor {
      SuccessorServesTheWriter(a, b, c);
      assert Lag(a, b) == if Early(b.calls[c].stage) then [Update(c, b.calls[c].op)] else [];
      assert Lag(a, b') == if Early(b'.calls[c].stage) then [Update(c, b.calls[c].op)] else [];
    } else {
      assert b'.log == b.log;
      AdvanceRest(a, b, c);
    }
  }

  /** A read, or an update without a caller, does not change what lags. */
  lemma AdvanceRest(a: Server, b: Server, c: Id)
    requires LockInv(a) && LinkInv(a, b) && CanAdvance(b, c)
    requires IsUpdate(b.calls[c].op) ==> b.calls[c].from != Predecessor
    ensures Lag(a, Advance(b, c)) == Lag(a, b)
  {
    hide After, KvSpec.Reply, MayRead, MayWrite, Enter, Leave;
    if a.lock.writer.Some? {
      var w := a.lock.writer.value;
      assert w in a.calls && a.calls[w].stage == Forwarded ==> w in b.calls && w != c;
    }
  }

  lemma StageBack(a: Server, b: Server, c: Id)
    requires ServerInv(a) && LinkInv(a, b) && c in a.calls && a.calls[c].stage == Forwarded
    requires c in b.calls && b.calls[c].stage == Finished
    ensures LinkInv(SetStage(a, c, Back), Remove(b, c))
  {
    hide StatsInv, Replay;
    assert IsUpdate(a.calls[c].op) && a.lock.writer == Some(c);
    assert Lag(a, b) == [];
  }

  lemma StageForward(a: Server, b: Server, c: Id)
    requires ServerInv(a) && LinkInv(a, b) && c in a.calls && a.calls[c].stage == Applied && c !in b.calls
    ensures IsUpdate(a.calls[c].op)
    ensures LinkInv(SetStage(a, c, Forwarded), b.(calls := b.calls[c := Call(a.calls[c].op, Predecessor, Wait, Failed)]))
  {
    hide StatsInv, Replay;
    assert IsUpdate(a.calls[c].op) && a.lock.writer == Some(c);
    assert Lag(a, b) == [Update(c, a.calls[c].op)];
  }

  /** A server goes on without its successor's reply. */
  lemma StageGoesOn(a: Server, b: Server, c: Id)
    requires ServerInv(a) && LinkInv(a, b) && c in a.calls && a.calls[c].stage == Dropped
    ensures LinkInv(SetStage(a, c, Back), b)
  {
    hide StatsInv, Replay;
    assert IsUpdate(a.calls[c].op) && a.lock.writer == Some(c);
    assert Lag(a, b) == [] && Lag(SetStage(a, c, Back), b) == [];
  }

  /** The right end of a link may change any thread, as long as an update that the left end waits for stays as
      far as it was. */
  lemma RightEnd(a: Server, b: Server, b': Server, c: Id)
    requires ServerInv(a) && LinkInv(a, b) && b'.log == b.log
    requires forall d :: d != c ==> (d in b'.calls <==> d in b.calls) && (d in b.calls ==> b'.calls[d] == b.calls[d])
    requires c in b.calls && b.calls[c].from == Predecessor && IsUpdate(b.calls[c].op) ==>
               && c in b'.calls && b'.calls[c] == b.calls[c].(stage := b'.calls[c].stage)
               && (Early(b'.calls[c].stage) <==> Early(b.calls[c].stage))
    requires c in b'.calls && IsUpdate(b'.calls[c].op) ==>
               && c in b.calls && b'.calls[c] == b.calls[c].(stage := b'.calls[c].stage)
               && (Early(b'.calls[c].stage) ==> Early(b.calls[c].stage))
    ensures LinkInv(a, b')
  {
    hide ServerInv;
    if a.lock.writer.Some? {
      var w := a.lock.writer.value;
      if w in a.calls && a.calls[w].stage == Forwarded {
        assert w in b.calls && b.calls[w].from == Predecessor;
      }
    }
    assert Lag(a, b') == Lag(a, b);
  }

  /** A thread that is not behind a link comes or goes at the left end. */
  lemma LeftEnd(a: Server, a': Server, b: Server, c: Id)
    requires ServerInv(a) && LinkInv(a, b)
    requires a'.log == a.log && a'.lock == a.lock
    requires forall d :: d != c ==> (d in a'.calls <==> d in a.calls) && (d in a.calls ==> a'.calls[d] == a.calls[d])
    requires c in a.calls ==> a.calls[c].stage in {Wait, Finished}
    requires c in a'.calls ==> a'.calls[c].stage == Wait
    ensures LinkInv(a', b)
  {
    hide StatsInv, CallInv, Replay;
    assert a.lock.writer != Some(c);
    assert Lag(a', b) == Lag(a, b);
  }

  // ----- one link, when a server leaves or joins

  lemma BereftRight(a: Server, b: Server)
    requires LinkInv(a, b)
    ensures LinkInv(a, Bereft(b))
  {
    assert Lag(a, Bereft(b)) == Lag(a, b);
  }

  lemma OrphanedLeft(a: Server, b: Server)
    requires LinkInv(a, b)
    ensures LinkInv(Orphaned(a), b)
  {
    assert Lag(Orphaned(a), b) == Lag(a, b);
  }

  /** A server whose updates have all passed its successor can be cut out: its neighbours fit together. */
  lemma Bypass(a: Server, m: Server, b: Server)
    requires LockInv(a) && LockInv(m) && LinkInv(a, m) && LinkInv(m, b)
    requires forall c :: c in m.calls && IsUpdate(m.calls[c].op) ==>
                           && !Early(m.calls[c].stage) && m.calls[c].stage != Applied
                           && (m.calls[c].stage == Forwarded ==> !Early(b.calls[c].stage))
    ensures LinkInv(Bereft(a), Orphaned(b))
  {
    BypassLog(a, m, b);
    hide Lag;
    var a', b' := Bereft(a), Orphaned(b);
    forall c | c in b'.calls && IsUpdate(b'.calls[c].op)
      ensures b'.calls[c].from == Nobody && Accepted(b'.calls[c].op) && !Early(b'.calls[c].stage)
    {
      assert c in b.calls && IsUpdate(b.calls[c].op);
      if b.calls[c].from == Predecessor { assert m.calls[c].stage == Forwarded; }
    }
  }

  lemma BypassLog(a: Server, m: Server, b: Server)
    requires LockInv(a) && LockInv(m) && LinkInv(a, m) && LinkInv(m, b)
    requires forall c :: c in m.calls && IsUpdate(m.calls[c].op) ==>
                           && !Early(m.calls[c].stage) && m.calls[c].stage != Applied
                           && (m.calls[c].stage == Forwarded ==> !Early(b.calls[c].stage))
    ensures a.log == b.log + Lag(Bereft(a), Orphaned(b))
  {
    assert Lag(m, b) == [];
    assert Lag(Bereft(a), Orphaned(b)) == Lag(a, m) by {
      if a.lock.writer.Some? {
        var w := a.lock.writer.value;
        if a.calls[w].stage == Forwarded { assert w in m.calls && IsUpdate(m.calls[w].op); }
      }
    }
  }

  // ----- the whole chain

  lemma ReplaceOne(ss: seq<Server>, i: nat, sv: Server)
    requires ServersInv(ss) && i < |ss| && ServerInv(sv)
    requires i > 0 ==> LinkInv(ss[i - 1], sv)
    requires i + 1 < |ss| ==> LinkInv(sv, ss[i + 1])
    ensures ServersInv(ss[i := sv])
  {
    hide ServerInv, LinkInv;
  }

  lemma ReplaceTwo(ss: seq<Server>, i: nat, a: Server, b: Server)
    requires ServersInv(ss) && i + 1 < |ss| && ServerInv(a) && ServerInv(b) && LinkInv(a, b)
    requires i > 0 ==> LinkInv(ss[i - 1], a)
    requires i + 2 < |ss| ==> LinkInv(b, ss[i + 2])
    ensures ServersInv(ss[i := a][i + 1 := b])
  {
    hide ServerInv, LinkInv;
  }

  lemma LocalKeeps(ss: seq<Server>, i: nat, c: Id)
    requires ServersInv(ss) && i < |ss| && CanAdvance(ss[i], c)
    ensures ServersInv(ss[i := Advance(ss[i], c)])
  {
    hide LockInv, StatsInv, CallInv, LinkInv, Replay, Advance;
    AdvanceKeepsServer(ss[i], c);
    if i > 0 { AdvanceRight(ss[i - 1], ss[i], c); }
    if i + 1 < |ss| { AdvanceLeft(ss[i], ss[i + 1], c); }
    ReplaceOne(ss, i, Advance(ss[i], c));
  }

  lemma StageKeeps(ss: seq<Server>, i: nat, c: Id)
    requires ServersInv(ss) && i < |ss| && c in ss[i].calls
    requires ss[i].calls[c].stage == Dropped || (ss[i].calls[c].stage in {Applied, Forwarded} && i + 1 == |ss|)
    ensures ServersInv(ss[i := SetStage(ss[i], c, Back)])
  {
    hide ServerInv, LinkInv;
    SetStageKeepsServer(ss[i], c, Back);
    if i > 0 { RightEnd(ss[i - 1], ss[i], SetStage(ss[i], c, Back), c); }
    if i + 1 < |ss| { StageGoesOn(ss[i], ss[i + 1], c); }
    ReplaceOne(ss, i, SetStage(ss[i], c, Back));
  }

  lemma ForwardKeeps(ss: seq<Server>, i: nat, c: Id)
    requires ServersInv(ss) && i + 1 < |ss| && c in ss[i].calls && ss[i].calls[c].stage == Applied
    requires c !in ss[i + 1].calls
    ensures ServersInv(ss[i := SetStage(ss[i], c, Forwarded)]
                         [i + 1 := ss[i + 1].(calls := ss[i + 1].calls[c := Call(ss[i].calls[c].op, Predecessor, Wait, Failed)])])
  {
    hide ServerInv, LinkInv;
    var op := ss[i].calls[c].op;
    var a := SetStage(ss[i], c, Forwarded);
    StageForward(ss[i], ss[i + 1], c);
    var b := ss[i + 1].(calls := ss[i + 1].calls[c := Call(op, Predecessor, Wait, Failed)]);
    SetStageKeepsServer(ss[i], c, Forwarded);
    ArriveKeepsServer(ss[i + 1], c, op, Predecessor);
    if i > 0 { RightEnd(ss[i - 1], ss[i], a, c); }
    if i + 2 < |ss| { LeftEnd(ss[i + 1], b, ss[i + 2], c); }
    ReplaceTwo(ss, i, a, b);
  }

  lemma AcknowledgeKeeps(ss: seq<Server>, i: nat, c: Id)
    requires ServersInv(ss) && i + 1 < |ss| && c in ss[i].calls && ss[i].calls[c].stage == Forwarded
    requires c in ss[i + 1].calls && ss[i + 1].calls[c].stage == Finished
    ensures ServersInv(ss[i := SetStage(ss[i], c, Back)][i + 1 := Remove(ss[i + 1], c)])
  {
    hide ServerInv, LinkInv;
    var a := SetStage(ss[i], c, Back);
    var b := Remove(ss[i + 1], c);
    StageBack(ss[i], ss[i + 1], c);
    SetStageKeepsServer(ss[i], c, Back);
    RemoveKeepsServer(ss[i + 1], c);
    if i > 0 { RightEnd(ss[i - 1], ss[i], a, c); }
    if i + 2 < |ss| { LeftEnd(ss[i + 1], b, ss[i + 2], c); }
    ReplaceTwo(ss, i, a, b);
  }

  lemma RemoveKeeps(ss: seq<Server>, i: nat, c: Id)
    requires ServersInv(ss) && i < |ss| && c in ss[i].calls && ss[i].calls[c].stage in {Wait, Finished}
    requires i > 0 ==> !IsUpdate(ss[i].calls[c].op) || ss[i].calls[c].from == Nobody
    ensures ServersInv(ss[i := Remove(ss[i], c)])
  {
    hide ServerInv, LinkInv;
    RemoveKeepsServer(ss[i], c);
    if i > 0 { RightEnd(ss[i - 1], ss[i], Remove(ss[i], c), c); }
    if i + 1 < |ss| { LeftEnd(ss[i], Remove(ss[i], c), ss[i + 1], c); }
    ReplaceOne(ss, i, Remove(ss[i], c));
  }

  lemma SendKeeps(ss: seq<Server>, i: nat, c: Id, op: Op)
    requires ServersInv(ss) && i < |ss| && (IsUpdate(op) ==> i == 0)
    requires forall j :: 0 <= j < |ss| ==> c !in ss[j].calls
    ensures ServersInv(ss[i := ss[i].(calls := ss[i].calls[c := Call(op, Client, Wait, Failed)])])
  {
    hide ServerInv, LinkInv;
    var sv := ss[i].(calls := ss[i].calls[c := Call(op, Client, Wait, Failed)]);
    ArriveKeepsServer(ss[i], c, op, Client);
    if i > 0 { RightEnd(ss[i - 1], ss[i], sv, c); }
    if i + 1 < |ss| { LeftEnd(ss[i], sv, ss[i + 1], c); }
    ReplaceOne(ss, i, sv);
  }

  /** The place that server j of the chain without server i had before. */
  function OldPlace(i: nat, j: nat): nat {
    if j < i then j else j + 1
  }

  lemma CutOutAt(ss: seq<Server>, i: nat, j: nat)
    requires 0 < i && i + 1 < |ss| && j + 1 < |ss|
    ensures |CutOut(ss, i)| == |ss| - 1
    ensures CutOut(ss, i)[j] == if j == i - 1 then Bereft(ss[i - 1]) else if j == i then Orphaned(ss[i + 1]) else ss[OldPlace(i, j)]
  {
  }

  lemma MiddleKeeps(ss: seq<Server>, i: nat)
    requires ServersInv(ss) && 0 < i && i + 1 < |ss| && LinkInv(Bereft(ss[i - 1]), Orphaned(ss[i + 1]))
    ensures ServersInv(CutOut(ss, i))
  {
    hide ServerInv, LinkInv, Bereft, Orphaned, CutOut;
    var tt := CutOut(ss, i);
    CutOutAt(ss, i, 0);
    BereftKeepsServer(ss[i - 1]);
    OrphanedKeepsServer(ss[i + 1]);
    if i > 1 { BereftRight(ss[i - 2], ss[i - 1]); }
    if i + 2 < |ss| { OrphanedLeft(ss[i + 1], ss[i + 2]); }
    forall j | 0 <= j < |tt| ensures ServerInv(tt[j]) { CutOutAt(ss, i, j); }
    forall j | 0 < j < |tt| ensures LinkInv(tt[j - 1], tt[j]) {
      CutOutAt(ss, i, j - 1);
      CutOutAt(ss, i, j);
      assert LinkInv(ss[OldPlace(i, j) - 1], ss[OldPlace(i, j)]);
    }
  }

  /** A tail that may be copied and its copy fit together. */
  lemma JoinLink(tail: Server, entries: seq<Pair>)
    requires ServerInv(tail) && Copyable(tail) && Lists(entries, tail.table)
    ensures var sv := FRESH_SERVER.(table := PutAll(map[], entries), log := tail.log);
            ServerInv(sv) && LinkInv(Bereft(tail), sv)
  {
    hide StatsInv, CallInv, Lists, PutAll, Replay;
    CopyIsFaithful(entries, tail.table);
    var sv := FRESH_SERVER.(table := PutAll(map[], entries), log := tail.log);
    assert Lag(Bereft(tail), sv) == [];
    FreshServer(sv);
  }

  lemma FreshServer(sv: Server)
    requires sv == FRESH_SERVER.(table := sv.table, log := sv.log) && sv.table == Replay(sv.log)
    ensures ServerInv(sv)
  {
    hide Replay;
  }

  lemma AppendOne(ss: seq<Server>, sv: Server)
    requires ServersInv(ss) && ServerInv(sv) && LinkInv(ss[|ss| - 1], sv)
    ensures ServersInv(ss + [sv])
  {
    hide ServerInv, LinkInv;
    var tt := ss + [sv];
    forall j | 0 < j < |tt| ensures LinkInv(tt[j - 1], tt[j]) {
      if j < |ss| {
        assert tt[j - 1] == ss[j - 1] && tt[j] == ss[j];
      }
    }
  }

  lemma JoinKeeps(ss: seq<Server>, entries: seq<Pair>)
    requires ServersInv(ss) && Copyable(ss[|ss| - 1]) && Lists(entries, ss[|ss| - 1].table)
    ensures var n := |ss|;
            ServersInv(ss[n - 1 := Bereft(ss[n - 1])] + [FRESH_SERVER.(table := PutAll(map[], entries), log := ss[n - 1].log)])
  {
    hide ServerInv, LinkInv, Lists, Bereft, Copyable;
    var n := |ss|;
    JoinLink(ss[n - 1], entries);
    BereftKeepsServer(ss[n - 1]);
    if n > 1 {
      assert LinkInv(ss[n - 1 - 1], ss[n - 1]);
      BereftRight(ss[n - 2], ss[n - 1]);
    }
    ReplaceOne(ss, n - 1, Bereft(ss[n - 1]));
    AppendOne(ss[n - 1 := Bereft(ss[n - 1])], FRESH_SERVER.(table := PutAll(map[], entries), log := ss[n - 1].log));
  }

  /** A server whose copy failed joins with an empty table. No history makes it fit behind the tail, whatever the
      tail serves, unless the tail's table is empty too. */
  lemma FailedCopyFits(tail: Server)
    requires ServerInv(tail) && Copyable(tail)
    ensures (exists log :: ServerInv(FRESH_SERVER.(log := log)) && LinkInv(Bereft(tail), FRESH_SERVER.(log := log)))
            <==> tail.table == map[]
  {
    hide StatsInv, CallInv, Replay;
    BereftKeepsServer(tail);
    assert forall sv :: Lag(Bereft(tail), sv) == [];
    if tail.table == map[] {
      FreshServer(FRESH_SERVER.(log := tail.log));
      assert LinkInv(Bereft(tail), FRESH_SERVER.(log := tail.log));
    }
    forall log | ServerInv(FRESH_SERVER.(log := log)) && LinkInv(Bereft(tail), FRESH_SERVER.(log := log))
      ensures tail.table == map[]
    {
      FitsAreAlike(Bereft(tail), FRESH_SERVER.(log := log));
    }
  }

  lemma FitsAreAlike(a: Server, b: Server)
    requires ServerInv(a) && ServerInv(b) && LinkInv(a, b) && Lag(a, b) == []
    ensures a.table == b.table
  {
    hide LockInv, StatsInv, CallInv, Replay;
    assert a.log == b.log;
  }
}
