/** What the lock guarantees its threads, however many there are and however they interleave. */
module LockResults {
  import opened Bytes
  import opened RwSpec
  import opened LockProtocol

  // ----- runs keep the invariant

  lemma BeginKeeps(p: Protocol, l: Label)
    requires Inv(p) && Enabled(p, l) && !l.Step?
    ensures Inv(Do(p, l))
  {
    hide Readers, Writers;
    var t := l.t;
    SameSections(p.threads, t, Do(p, l).threads[t]);
  }

  lemma StepKeeps(p: Protocol, l: Label)
    requires Inv(p) && Enabled(p, l)
    ensures Inv(Do(p, l))
  {
    if l.Step? {
      StepKeepsMutex(p, l.t);
      StepKeepsCounts(p, l.t);
      StepKeepsGuards(p, l.t);
      StepKeepsWaiting(p, l.t);
      StepKeepsSleepers(p, l.t);
      StepKeepsCounter(p, l.t);
      hide MutexInv, CountInv, GuardInv, WaitingInv, SleepInv, CounterInv, DoStep;
    } else {
      BeginKeeps(p, l);
    }
  }

  lemma StartHolds(n: nat)
    ensures Inv(Start(n))
  {
    assert Readers(Start(n).threads) == {} && Writers(Start(n).threads) == {};
  }

  lemma {:induction false} RunKeeps(p: Protocol, ls: seq<Label>)
    requires Inv(p) && Possible(p, ls)
    ensures Inv(Run(p, ls))
    decreases |ls|
  {
    hide Inv;
    if ls != [] {
      StepKeeps(p, ls[0]);
      RunKeeps(Do(p, ls[0]), ls[1..]);
    }
  }

  lemma Reached(n: nat, ls: seq<Label>)
    requires Possible(Start(n), ls)
    ensures Inv(Run(Start(n), ls))
  {
    hide Inv;
    StartHolds(n);
    RunKeeps(Start(n), ls);
  }

  // ----- exclusion

  /** readers_reading counts the threads in read sections, and writer_active tells whether there is one in a write
      section. */
  lemma {:induction false} CountersTellSections(n: nat, ls: seq<Label>)
    requires Possible(Start(n), ls)
    ensures var p := Run(Start(n), ls);
            && p.readersReading == |Readers(p.threads)|
            && (p.writerActive <==> exists w :: 0 <= w < |p.threads| && InsideWrite(p.threads[w].pc))
  {
    hide SleepInv, GuardInv, WaitingInv, CounterInv, MutexInv;
    var p := Run(Start(n), ls);
    Reached(n, ls);
    if p.writerActive {
      var w :| w in Writers(p.threads);
    }
    if w :| 0 <= w < |p.threads| && InsideWrite(p.threads[w].pc) {
      assert w in Writers(p.threads);
    }
  }

  /** A thread in a write section has company from neither readers nor writers. */
  lemma {:induction false} Exclusion(n: nat, ls: seq<Label>, t: nat, u: nat)
    requires Possible(Start(n), ls) && t < |Run(Start(n), ls).threads| && u < |Run(Start(n), ls).threads|
    ensures var p := Run(Start(n), ls);
            InsideWrite(p.threads[t].pc) ==> !InsideRead(p.threads[u].pc) && (InsideWrite(p.threads[u].pc) ==> t == u)
    ensures var p := Run(Start(n), ls);
            p.threads[t].pc in {Writing, Loaded, Stored} ==>
              p.threads[u].pc != Reading && (p.threads[u].pc in {Writing, Loaded, Stored} ==> t == u)
  {
    hide SleepInv, GuardInv, WaitingInv, CounterInv, MutexInv;
    var p := Run(Start(n), ls);
    Reached(n, ls);
    InSections(p.threads, t);
    InSections(p.threads, u);
  }

  /** The calls of enter_write that a run completes: the steps that release the mutex at their end. */
  function Completed(p: Protocol, ls: seq<Label>): nat
    requires Possible(p, ls)
    decreases |ls|
  {
    if ls == [] then 0
    else (if ls[0].Step? && p.threads[ls[0].t].pc == AtUnlock(EnterWrite) then 1 else 0) + Completed(Do(p, ls[0]), ls[1..])
  }

  lemma {:induction false} WritesAreCompleted(p: Protocol, ls: seq<Label>)
    requires Possible(p, ls)
    ensures Run(p, ls).writes == p.writes + Completed(p, ls)
    decreases |ls|
  {
    if ls != [] {
      WritesAreCompleted(Do(p, ls[0]), ls[1..]);
    }
  }

  /** writers_waiting only ever falls: it is minus the number of completed calls of enter_write, and it fits
      a 32-bit int exactly as long as there were at most 2^31 of them. */
  lemma WaitingCountsBackwards(n: nat, ls: seq<Label>)
    requires Possible(Start(n), ls) && Run(Start(n), ls).mutex.None?
    ensures var waiting, completed := Run(Start(n), ls).writersWaiting, Completed(Start(n), ls);
            && waiting == 0 - completed
            && (-0x8000_0000 <= waiting < 0x8000_0000 <==> completed <= 0x8000_0000)
  {
    hide MutexInv, CountInv, GuardInv, SleepInv, CounterInv;
    Reached(n, ls);
    WritesAreCompleted(Start(n), ls);
  }

  /** So a reader waits for a writer inside, never for one that is waiting: there is no writer preference. */
  lemma ReadersIgnoreWaitingWriters(n: nat, ls: seq<Label>)
    requires Possible(Start(n), ls)
    ensures var p := Run(Start(n), ls); MustWait(p, false) <==> Writers(p.threads) != {}
  {
    Reached(n, ls);
    hide MutexInv, GuardInv, SleepInv, CounterInv;
  }

  lemma Then(p: Protocol, l: Label, rest: seq<Label>)
    requires Enabled(p, l) && Possible(Do(p, l), rest)
    ensures Possible(p, [l] + rest) && Run(p, [l] + rest) == Run(Do(p, l), rest)
  {
    hide Enabled, Do;
    assert ([l] + rest)[1..] == rest;
  }

  lemma NoSteps(p: Protocol)
    ensures Possible(p, []) && Run(p, []) == p
  {
  }

  /** A thread enters a read section while no writer is inside. */
  lemma ReadsAtOnce(p: Protocol, t: nat) returns (ls: seq<Label>)
    requires t < |p.threads| && p.threads[t].pc == Outside && p.mutex == None && p.writersWaiting <= 0 && !p.writerActive
    ensures Possible(p, ls)
    ensures Run(p, ls) == p.(threads := p.threads[t := Thread(Reading, 0, 0)], readersReading := p.readersReading + 1)
  {
    hide Possible, Run;
    var p0 := Do(p, BeginRead(t));
    var p1 := Do(p0, Step(t));
    var p2 := Do(p1, Step(t));
    var p3 := Do(p2, Step(t));
    var p4 := Do(p3, Step(t));
    NoSteps(p4);
    Then(p3, Step(t), []);
    Then(p2, Step(t), [Step(t)] + []);
    Then(p1, Step(t), [Step(t)] + ([Step(t)] + []));
    Then(p0, Step(t), [Step(t)] + ([Step(t)] + ([Step(t)] + [])));
    ls := [BeginRead(t)] + ([Step(t)] + ([Step(t)] + ([Step(t)] + ([Step(t)] + []))));
    Then(p, BeginRead(t), [Step(t)] + ([Step(t)] + ([Step(t)] + ([Step(t)] + []))));
    assert p4.threads == p.threads[t := Thread(Reading, 0, 0)];
  }

  /** A writer goes to sleep while a reader is inside. */
  lemma SleepsAtOnce(p: Protocol, t: nat, delta: int) returns (ls: seq<Label>)
    requires t < |p.threads| && p.threads[t].pc == Outside && p.mutex == None && p.readersReading > 0
    ensures Possible(p, ls)
    ensures Run(p, ls) == p.(threads := p.threads[t := Thread(Asleep(true), delta, 0)])
  {
    hide Possible, Run;
    var p0 := Do(p, BeginWrite(t, delta));
    var p1 := Do(p0, Step(t));
    var p2 := Do(p1, Step(t));
    NoSteps(p2);
    Then(p1, Step(t), []);
    Then(p0, Step(t), [Step(t)] + []);
    ls := [BeginWrite(t, delta)] + ([Step(t)] + ([Step(t)] + []));
    Then(p, BeginWrite(t, delta), [Step(t)] + ([Step(t)] + []));
    assert p2.threads == p.threads[t := Thread(Asleep(true), delta, 0)];
  }

  lemma {:induction false} RunAppend(p: Protocol, ls: seq<Label>, more: seq<Label>)
    requires Possible(p, ls) && Possible(Run(p, ls), more)
    ensures Possible(p, ls + more) && Run(p, ls + more) == Run(Run(p, ls), more)
    decreases |ls|
  {
    hide Enabled, Do;
    if ls == [] {
      assert ls + more == more;
    } else {
      RunAppend(Do(p, ls[0]), ls[1..], more);
      Then(p, ls[0], ls[1..] + more);
      assert ls + more == [ls[0]] + (ls[1..] + more);
    }
  }

  /** A run in which a reader overtakes a writer: thread 0 reads, thread 1 sleeps because of it and wants to write,
      thread 2 comes last and reads. */
  lemma ReaderOvertakesWriter(delta: int) returns (ls: seq<Label>)
    ensures Possible(Start(3), ls)
    ensures var p := Run(Start(3), ls);
            && |p.threads| == 3 && p.threads[1] == Thread(Asleep(true), delta, 0)
            && p.threads[0].pc == p.threads[2].pc == Reading && p.readersReading == 2
  {
    hide Possible, Run;
    var s := Start(3);
    var a := ReadsAtOnce(s, 0);
    var b := SleepsAtOnce(Run(s, a), 1, delta);
    RunAppend(s, a, b);
    var c := ReadsAtOnce(Run(s, a + b), 2);
    RunAppend(s, a + b, c);
    ls := a + b + c;
  }

  // ----- no lost wakeup, no deadlock

  /** With the mutex free, a thread asleep has somebody inside to wait for: a sleeping reader a writer, a
      sleeping writer a writer or a reader. */
  lemma NoLostWakeup(n: nat, ls: seq<Label>, t: nat)
    requires Possible(Start(n), ls)
    requires var p := Run(Start(n), ls); t < |p.threads| && p.mutex.None? && p.threads[t].pc.Asleep?
    ensures var p := Run(Start(n), ls);
            Writers(p.threads) != {} || (p.threads[t].pc.writing && Readers(p.threads) != {})
  {
    Reached(n, ls);
    hide MutexInv, GuardInv, WaitingInv, CounterInv;
  }

  /** As long as some thread is not outside, some thread can execute its next statement. */
  lemma NoDeadlock(n: nat, ls: seq<Label>, t: nat)
    requires Possible(Start(n), ls)
    requires var p := Run(Start(n), ls); t < |p.threads| && p.threads[t].pc != Outside
    ensures exists u :: Enabled(Run(Start(n), ls), Step(u))
  {
    var p := Run(Start(n), ls);
    Reached(n, ls);
    if p.mutex.Some? {
      assert Enabled(p, Step(p.mutex.value));
    } else if p.threads[t].pc.Asleep? {
      NoLostWakeup(n, ls, t);
      var u :| u in Writers(p.threads) || u in Readers(p.threads);
      assert Enabled(p, Step(u));
    } else {
      assert Enabled(p, Step(t));
    }
  }

  // ----- the counter

  /** No update of a counter is lost: it is the sum of all deltas stored so far. */
  lemma NoUpdateIsLost(n: nat, ls: seq<Label>)
    requires Possible(Start(n), ls)
    ensures Run(Start(n), ls).counter == Deltas(Start(n), ls)
  {
    Reached(n, ls);
    TotalIsDeltas(Start(n), ls);
    hide MutexInv, CountInv, GuardInv, WaitingInv, SleepInv;
  }

  /** The deltas of the stores executed in a run. */
  function Deltas(p: Protocol, ls: seq<Label>): int
    requires Possible(p, ls)
    decreases |ls|
  {
    if ls == [] then 0
    else (if ls[0].Step? && p.threads[ls[0].t].pc == Loaded then p.threads[ls[0].t].delta else 0) + Deltas(Do(p, ls[0]), ls[1..])
  }

  lemma {:induction false} TotalIsDeltas(p: Protocol, ls: seq<Label>)
    requires Possible(p, ls)
    ensures Run(p, ls).total == p.total + Deltas(p, ls)
    decreases |ls|
  {
    if ls != [] {
      TotalIsDeltas(Do(p, ls[0]), ls[1..]);
    }
  }

  // ----- every write takes effect once

  /** On its way to a store. */
  predicate Storing(pc: Pc) {
    pc in {AtLock(EnterWrite), AtTest(true), Asleep(true), AtUpdate(EnterWrite), AtCount, AtUnlock(EnterWrite), Writing, Loaded}
  }

  /** Inside enter_write. */
  predicate EntryDue(pc: Pc) {
    Storing(pc) && pc != Writing && pc != Loaded
  }

  /** What the threads still have to store, in sum, and how many have still to come through enter_write. */
  function Due(ths: seq<Thread>): (int, nat) {
    if ths == [] then (0, 0)
    else
      var (sum, count) := Due(ths[1..]);
      (sum + (if Storing(ths[0].pc) then ths[0].delta else 0), count + if EntryDue(ths[0].pc) then 1 else 0)
  }

  lemma {:induction false} DueChanges(ths: seq<Thread>, t: nat, th: Thread)
    requires t < |ths|
    ensures Due(ths[t := th]).0 == Due(ths).0 + (if Storing(th.pc) then th.delta else 0) - (if Storing(ths[t].pc) then ths[t].delta else 0)
    ensures Due(ths[t := th]).1 == Due(ths).1 + (if EntryDue(th.pc) then 1 else 0) - (if EntryDue(ths[t].pc) then 1 else 0)
  {
    hide Storing, EntryDue;
    if t == 0 {
      assert ths[t := th][1..] == ths[1..];
    } else {
      assert ths[t := th][1..] == ths[1..][t - 1 := th];
      DueChanges(ths[1..], t - 1, th);
    }
  }

  lemma {:induction false} WakeIsDue(ths: seq<Thread>)
    ensures Due(WakeAll(ths)) == Due(ths)
  {
    if ths != [] {
      WakeIsDue(ths[1..]);
      assert WakeAll(ths)[1..] == WakeAll(ths[1..]);
    }
  }

  lemma NextDue(p: Protocol, pc: Pc)
    requires pc != Outside && !pc.Asleep?
    ensures Storing(NextPc(p, pc)) <==> Storing(pc) && pc != Loaded
    ensures EntryDue(NextPc(p, pc)) <==> EntryDue(pc) && pc != AtUnlock(EnterWrite)
  {
  }

  lemma StepIsDue(p: Protocol, t: nat)
    requires Enabled(p, Step(t))
    ensures var th := p.threads[t];
            && Due(DoStep(p, t).threads).0 == Due(p.threads).0 - (if th.pc == Loaded then th.delta else 0)
            && Due(DoStep(p, t).threads).1 == Due(p.threads).1 - (if th.pc == AtUnlock(EnterWrite) then 1 else 0)
  {
    hide Due, NextPc, WakeAll;
    var pc := p.threads[t].pc;
    var ths := if Broadcasts(p, pc) then WakeAll(p.threads) else p.threads;
    assert ths[t] == p.threads[t];
    NextDue(p, pc);
    WakeIsDue(p.threads);
    DueChanges(ths, t, DoStep(p, t).threads[t]);
  }

  /** The writes that a run begins: their deltas in sum, and their number. */
  function Begun(ls: seq<Label>): (int, nat) {
    if ls == [] then (0, 0)
    else
      var (sum, count) := Begun(ls[1..]);
      if ls[0].BeginWrite? then (sum + ls[0].delta, count + 1) else (sum, count)
  }

  lemma {:induction false} BegunIsDue(p: Protocol, ls: seq<Label>)
    requires Possible(p, ls)
    ensures var q := Run(p, ls);
            && q.total + Due(q.threads).0 == p.total + Due(p.threads).0 + Begun(ls).0
            && q.writes + Due(q.threads).1 == p.writes + Due(p.threads).1 + Begun(ls).1
    decreases |ls|
  {
    hide Due, NextPc, WakeAll;
    if ls != [] {
      match ls[0] {
        case Step(t) => StepIsDue(p, t);
        case _ => DueChanges(p.threads, ls[0].t, Do(p, ls[0]).threads[ls[0].t]);
      }
      BegunIsDue(Do(p, ls[0]), ls[1..]);
    }
  }

  lemma {:induction false} NothingDue(ths: seq<Thread>)
    requires forall t :: 0 <= t < |ths| ==> ths[t].pc == Outside
    ensures Due(ths) == (0, 0)
  {
    if ths != [] { NothingDue(ths[1..]); }
  }

  /** Once all threads are outside again, the counter is the sum of the deltas of all writes that were begun, and
      writers_waiting is minus their number. */
  lemma {:induction false} EveryWriteTakesEffect(n: nat, ls: seq<Label>)
    requires Possible(Start(n), ls)
    requires forall t :: 0 <= t < |Run(Start(n), ls).threads| ==> Run(Start(n), ls).threads[t].pc == Outside
    ensures Run(Start(n), ls).counter == Begun(ls).0 && Run(Start(n), ls).writersWaiting == 0 - Begun(ls).1
  {
    hide CountInv, GuardInv, SleepInv, Due, Begun;
    Reached(n, ls);
    BegunIsDue(Start(n), ls);
    NothingDue(Start(n).threads);
    NothingDue(Run(Start(n), ls).threads);
  }

  // ----- the counter of connected clients

  /** What each thread has stored so far, in sum, after one more step. */
  function NextBalance(p: Protocol, l: Label, balance: seq<int>): seq<int>
    requires Enabled(p, l) && |balance| == |p.threads|
  {
    if l.Step? && p.threads[l.t].pc == Loaded then balance[l.t := balance[l.t] + p.threads[l.t].delta] else balance
  }

  function Balances(p: Protocol, ls: seq<Label>, balance: seq<int>): (r: seq<int>)
    requires Possible(p, ls) && |balance| == |p.threads|
    decreases |ls|
  {
    if ls == [] then balance else Balances(Do(p, ls[0]), ls[1..], NextBalance(p, ls[0], balance))
  }

  /** Every thread counts its client in and out in turn: +1, -1, +1 and so on. */
  predicate Brackets(p: Protocol, ls: seq<Label>, balance: seq<int>)
    requires Possible(p, ls) && |balance| == |p.threads|
    decreases |ls|
  {
    ls == [] || ((ls[0].BeginWrite? ==> ls[0].delta == 1 - 2 * balance[ls[0].t])
                 && Brackets(Do(p, ls[0]), ls[1..], NextBalance(p, ls[0], balance)))
  }

  function Sum(balance: seq<int>): int {
    if balance == [] then 0 else Sum(balance[..|balance| - 1]) + balance[|balance| - 1]
  }

  /** The threads between a stored +1 and a stored -1. */
  function Counted(balance: seq<int>): set<nat> {
    set t | 0 <= t < |balance| && balance[t] == 1
  }

  ghost predicate BalanceInv(p: Protocol, balance: seq<int>) {
    && |balance| == |p.threads| && p.total == Sum(balance)
    && (forall t :: 0 <= t < |balance| ==> balance[t] == 0 || balance[t] == 1)
    && (forall t :: 0 <= t < |balance| && Storing(p.threads[t].pc) ==> p.threads[t].delta == 1 - 2 * balance[t])
  }

  lemma {:induction false} SumChanges(balance: seq<int>, t: nat, x: int)
    requires t < |balance|
    ensures Sum(balance[t := x]) == Sum(balance) - balance[t] + x
  {
    var last := |balance| - 1;
    if t < last {
      assert balance[t := x][..last] == balance[..last][t := x];
      SumChanges(balance[..last], t, x);
    } else {
      assert balance[t := x][..last] == balance[..last];
    }
  }

  lemma {:induction false} SumCounts(balance: seq<int>)
    requires forall t :: 0 <= t < |balance| ==> balance[t] == 0 || balance[t] == 1
    ensures Sum(balance) == |Counted(balance)|
  {
    if balance != [] {
      var last := |balance| - 1;
      var init := balance[..last];
      SumCounts(init);
      assert Counted(balance) == Counted(init) + if balance[last] == 1 then {last} else {};
    } else {
      assert Counted(balance) == {};
    }
  }

  lemma AwakeStoring(th: Thread)
    ensures Storing(Awake(th).pc) <==> Storing(th.pc)
    ensures Awake(th).delta == th.delta
  {
  }

  lemma StepKeepsBalance(p: Protocol, l: Label, balance: seq<int>)
    requires BalanceInv(p, balance) && Enabled(p, l)
    requires l.BeginWrite? ==> l.delta == 1 - 2 * balance[l.t]
    ensures BalanceInv(Do(p, l), NextBalance(p, l, balance))
  {
    hide NextPc, Storing, Sum, EntryDue;
    var t := l.t;
    forall u | 0 <= u < |p.threads| ensures Storing(Awake(p.threads[u]).pc) <==> Storing(p.threads[u].pc) {
      AwakeStoring(p.threads[u]);
    }
    match l
    case BeginRead(_) => NotStoring();
    case BeginWrite(_, _) =>
    case Spurious(_) =>
    case Step(_) =>
      NextDue(p, p.threads[t].pc);
      if p.threads[t].pc == Loaded {
        LoadedIsStoring();
        SumChanges(balance, t, balance[t] + p.threads[t].delta);
      }
  }

  lemma NotStoring()
    ensures !Storing(AtLock(EnterRead))
  {
  }

  lemma LoadedIsStoring()
    ensures Storing(Loaded)
  {
  }

  lemma {:induction false} RunKeepsBalance(p: Protocol, ls: seq<Label>, balance: seq<int>)
    requires BalanceInv(p, balance) && Possible(p, ls) && Brackets(p, ls, balance)
    ensures BalanceInv(Run(p, ls), Balances(p, ls, balance))
    decreases |ls|
  {
    hide Do, Enabled, Storing, NextBalance;
    if ls != [] {
      StepKeepsBalance(p, ls[0], balance);
      RunKeepsBalance(Do(p, ls[0]), ls[1..], NextBalance(p, ls[0], balance));
    }
  }

  lemma {:induction false} NothingStored(n: nat)
    ensures Sum(seq(n, i => 0)) == 0
  {
    if n > 0 {
      NothingStored(n - 1);
      assert seq(n, i => 0)[..n - 1] == seq(n - 1, i => 0);
    }
  }

  /** If every thread counts its client in and out in turn, the counter is the number of threads between a stored
      +1 and a stored -1, in every interleaving of loads and stores. */
  lemma {:induction false} ClientsAreCounted(n: nat, ls: seq<Label>)
    requires Possible(Start(n), ls) && Brackets(Start(n), ls, seq(n, i => 0))
    ensures Run(Start(n), ls).counter == |Counted(Balances(Start(n), ls, seq(n, i => 0)))|
  {
    hide MutexInv, CountInv, GuardInv, WaitingInv, SleepInv, Storing;
    Reached(n, ls);
    NothingStored(n);
    OutsideIsNotStoring();
    RunKeepsBalance(Start(n), ls, seq(n, i => 0));
    SumCounts(Balances(Start(n), ls, seq(n, i => 0)));
  }

  lemma OutsideIsNotStoring()
    ensures !Storing(Outside)
  {
  }

  // ----- refinement

  ghost function WriterOf(ws: set<nat>): Option<nat> {
    if ws == {} then None else var w :| w in ws; Some(w)
  }

  /** The lock as its users see it. */
  ghost function Outline(p: Protocol): RwLock {
    RwLock(Readers(p.threads), WriterOf(Writers(p.threads)))
  }

  /** What a step means for the abstract lock: entering and leaving where the fields are updated, and
      nothing anywhere else. */
  ghost predicate StepsAs(before: RwLock, after: RwLock, t: nat, pc: Pc) {
    match pc
    case AtUpdate(EnterRead) => MayRead(before) && after == Enter(before, t, false)
    case AtUpdate(EnterWrite) => MayWrite(before) && after == Enter(before, t, true)
    case AtUpdate(ExitRead) => t in before.readers && after == Leave(before, t, false)
    case AtUpdate(ExitWrite) => before.writer == Some(t) && after == Leave(before, t, true)
    case _ => after == before
  }

  /** Each step of each thread is one step of the abstract lock, allowed there, or none at all. */
  lemma RefinesAbstractLock(n: nat, ls: seq<Label>, l: Label)
    requires Possible(Start(n), ls) && Enabled(Run(Start(n), ls), l)
    ensures var p := Run(Start(n), ls);
            if l.Step? then StepsAs(Outline(p), Outline(Do(p, l)), l.t, p.threads[l.t].pc) else Outline(Do(p, l)) == Outline(p)
  {
    var p := Run(Start(n), ls);
    Reached(n, ls);
    StepKeeps(p, l);
    if l.Step? {
      StepOutline(p, l.t);
    } else {
      SameSections(p.threads, l.t, Do(p, l).threads[l.t]);
    }
    hide Inv, Readers, Writers, DoStep;
  }

  lemma StepOutline(p: Protocol, t: nat)
    requires Inv(p) && Enabled(p, Step(t)) && CountInv(DoStep(p, t))
    ensures StepsAs(Outline(p), Outline(DoStep(p, t)), t, p.threads[t].pc)
  {
    var q := DoStep(p, t);
    var pc := p.threads[t].pc;
    InSections(p.threads, t);
    StepSections(p, t);
    hide SleepInv, WaitingInv, CounterInv, MutexInv, DoStep, Readers, Writers, NextPc;
    SectionsStep(Readers(p.threads), Writers(p.threads), t, pc);
  }

  /** The sets of threads in the sections, before and after one of the four updates. */
  lemma SectionsStep(readers: set<nat>, writers: set<nat>, t: nat, pc: Pc)
    requires forall u, w :: u in writers && w in writers ==> u == w
    requires pc == AtUpdate(EnterRead) ==> writers == {}
    requires pc == AtUpdate(EnterWrite) ==> writers == {} && readers == {}
    requires pc == AtUpdate(ExitRead) ==> t in readers
    requires pc == AtUpdate(ExitWrite) ==> t in writers
    ensures var readers' := if pc == AtUpdate(EnterRead) then readers + {t} else if pc == AtUpdate(ExitRead) then readers - {t} else readers;
            var writers' := if pc == AtUpdate(EnterWrite) then writers + {t} else if pc == AtUpdate(ExitWrite) then writers - {t} else writers;
            StepsAs(RwLock(readers, WriterOf(writers)), RwLock(readers', WriterOf(writers')), t, pc)
  {
    if pc == AtUpdate(ExitWrite) {
      assert writers == {t} && writers - {t} == {};
    }
  }

  // ----- every section ends

  /** Statements left for a thread, with n threads in all; a broadcast is charged for the wakeups it causes. */
  function Rank(pc: Pc, n: nat): nat {
    match pc
    case Outside => 0
    case AtUnlock(ExitRead) => 1
    case AtUnlock(ExitWrite) => 1
    case AtSignal(_) => 2 + 2 * n
    case AtUpdate(ExitRead) => 3 + 2 * n
    case AtUpdate(ExitWrite) => 3 + 2 * n
    case AtLock(ExitRead) => 4 + 2 * n
    case AtLock(ExitWrite) => 4 + 2 * n
    case Reading => 5 + 2 * n
    case Stored => 5 + 2 * n
    case Loaded => 6 + 2 * n
    case Writing => 7 + 2 * n
    case AtUnlock(_) => 8 + 2 * n
    case AtCount => 9 + 2 * n
    case AtUpdate(_) => 10 + 2 * n
    case Asleep(_) => 11 + 2 * n
    case AtTest(_) => 12 + 2 * n
    case AtLock(_) => 13 + 2 * n
  }

  function Work(ths: seq<Thread>, n: nat): nat {
    if ths == [] then 0 else Rank(ths[0].pc, n) + Work(ths[1..], n)
  }

  lemma {:induction false} WorkChanges(ths: seq<Thread>, t: nat, th: Thread, n: nat)
    requires t < |ths|
    ensures Work(ths[t := th], n) - Work(ths, n) == Rank(th.pc, n) - Rank(ths[t].pc, n)
  {
    hide Rank;
    if t == 0 {
      assert ths[t := th][1..] == ths[1..];
    } else {
      assert ths[t := th][1..] == ths[1..][t - 1 := th];
      WorkChanges(ths[1..], t - 1, th, n);
    }
  }

  lemma {:induction false} WakeWorks(ths: seq<Thread>, n: nat)
    ensures Work(WakeAll(ths), n) <= Work(ths, n) + 2 * |ths|
  {
    if ths != [] {
      WakeWorks(ths[1..], n);
      assert WakeAll(ths)[1..] == WakeAll(ths[1..]);
    }
  }

  lemma NextRank(p: Protocol, pc: Pc, n: nat)
    requires pc != Outside && !pc.Asleep?
    ensures Rank(NextPc(p, pc), n) < Rank(pc, n)
    ensures pc.AtSignal? ==> Rank(NextPc(p, pc), n) + 2 * n < Rank(pc, n)
  {
  }

  lemma StepWorks(p: Protocol, t: nat)
    requires Enabled(p, Step(t))
    ensures Work(DoStep(p, t).threads, |p.threads|) < Work(p.threads, |p.threads|)
    ensures |DoStep(p, t).threads| == |p.threads|
  {
    var n := |p.threads|;
    var pc := p.threads[t].pc;
    var ths := if Broadcasts(p, pc) then WakeAll(p.threads) else p.threads;
    assert ths[t].pc == pc;
    NextRank(p, pc, n);
    WakeWorks(p.threads, n);
    WorkChanges(ths, t, DoStep(p, t).threads[t], n);
    hide Rank, Work, NextPc, WakeAll;
  }

  function Begins(ls: seq<Label>): nat {
    if ls == [] then 0 else (if ls[0].BeginRead? || ls[0].BeginWrite? then 1 else 0) + Begins(ls[1..])
  }

  lemma {:induction false} WorkBounds(p: Protocol, ls: seq<Label>, n: nat)
    requires Possible(p, ls) && |p.threads| == n && forall x :: 0 <= x < |ls| ==> !ls[x].Spurious?
    ensures |ls| + Work(Run(p, ls).threads, n) <= Work(p.threads, n) + (14 + 2 * n) * Begins(ls)
    decreases |ls|
  {
    if ls != [] {
      var l := ls[0];
      var q := Do(p, l);
      if l.Step? {
        StepWorks(p, l.t);
      } else {
        assert l.BeginRead? || l.BeginWrite?;
        WorkChanges(p.threads, l.t, q.threads[l.t], n);
      }
      hide Work, Do;
      WorkBounds(q, ls[1..], n);
      assert (14 + 2 * n) * (1 + Begins(ls[1..])) == 14 + 2 * n + (14 + 2 * n) * Begins(ls[1..]);
    }
  }

  lemma {:induction false} NoWorkAtStart(ths: seq<Thread>, n: nat)
    requires forall t :: 0 <= t < |ths| ==> ths[t].pc == Outside
    ensures Work(ths, n) == 0
  {
    if ths != [] {
      NoWorkAtStart(ths[1..], n);
    }
  }

  /** Without spurious wakeups, n threads that enter k sections between them execute at most
      (14 + 2n) * k statements, beginnings included: waiting is bounded too. */
  lemma {:induction false} EverySectionEnds(n: nat, ls: seq<Label>)
    requires Possible(Start(n), ls) && forall x :: 0 <= x < |ls| ==> !ls[x].Spurious?
    ensures |ls| <= (14 + 2 * n) * Begins(ls)
  {
    NoWorkAtStart(Start(n).threads, n);
    WorkBounds(Start(n), ls, n);
  }

  // ----- what the abstract lock admits, the threads can do by themselves

  predicate Entering(pc: Pc, writing: bool) {
    pc == AtLock(if writing then EnterWrite else EnterRead) || pc == AtTest(writing) || pc == Asleep(writing)
    || pc == AtUpdate(if writing then EnterWrite else EnterRead)
  }

  /** In a section, and not about to release the mutex or to change the fields: what it does next is up to its
      user. */
  predicate InBody(pc: Pc) {
    (InsideRead(pc) || InsideWrite(pc)) && !HoldsMutex(pc)
  }

  /** The abstract lock lets the thread in. */
  ghost predicate Admitted(p: Protocol, t: nat) {
    && t < |p.threads|
    && ((Entering(p.threads[t].pc, false) && MayRead(Outline(p))) || (Entering(p.threads[t].pc, true) && MayWrite(Outline(p))))
  }

  lemma WhoeverIsInside(p: Protocol, t: nat)
    requires Admitted(p, t)
    ensures Writers(p.threads) == {} && (Entering(p.threads[t].pc, true) ==> Readers(p.threads) == {})
  {
    hide Readers, Writers;
  }

  /** Nobody who is using the lock has to move for a thread that the abstract lock admits: some thread that is in no
      body can execute its next statement. */
  lemma CanGoOn(p: Protocol, t: nat) returns (u: nat)
    requires Inv(p) && Admitted(p, t)
    ensures Enabled(p, Step(u)) && !InBody(p.threads[u].pc)
    ensures p.mutex == Some(u) || (p.mutex == None && u == t)
  {
    hide GuardInv, WaitingInv, CounterInv, Readers, Writers, Outline;
    u := if p.mutex.Some? then p.mutex.value else t;
    WhoeverIsInside(p, t);
  }

  predicate EntersNow(pc: Pc) {
    pc == AtUpdate(EnterRead) || pc == AtUpdate(EnterWrite)
  }

  lemma GuardIsOpen(p: Protocol, t: nat)
    requires Inv(p) && Admitted(p, t) && p.threads[t].pc.AtTest?
    ensures !MustWait(p, p.threads[t].pc.writing)
  {
    hide GuardInv, CounterInv, SleepInv, Readers, Writers, Outline;
    WhoeverIsInside(p, t);
  }

  lemma StaysAdmitted(p: Protocol, u: nat, t: nat)
    requires Inv(p) && Admitted(p, t) && Enabled(p, Step(u)) && !EntersNow(p.threads[u].pc)
    ensures Admitted(DoStep(p, u), t)
  {
    hide Inv, Readers, Writers;
    StepSections(p, u);
    WhoeverIsInside(p, t);
    if t == u && p.threads[t].pc.AtTest? { GuardIsOpen(p, t); }
  }

  /** Such statements lead to the moment at which somebody enters. */
  ghost predicate LeadsIn(p: Protocol, ls: seq<Label>)
    decreases |ls|
  {
    && ls != [] && ls[0].Step? && Enabled(p, ls[0]) && !InBody(p.threads[ls[0].t].pc)
    && if |ls| == 1 then EntersNow(p.threads[ls[0].t].pc) else LeadsIn(Do(p, ls[0]), ls[1..])
  }

  lemma {:induction false} SomebodyEnters(p: Protocol, t: nat) returns (ls: seq<Label>)
    requires Inv(p) && Admitted(p, t)
    ensures LeadsIn(p, ls) && |ls| <= Work(p.threads, |p.threads|)
    decreases Work(p.threads, |p.threads|)
  {
    hide Inv, Admitted, Work, DoStep;
    var u := CanGoOn(p, t);
    StepWorks(p, u);
    if EntersNow(p.threads[u].pc) {
      ls := [Step(u)];
    } else {
      StepKeeps(p, Step(u));
      StaysAdmitted(p, u, t);
      var rest := SomebodyEnters(DoStep(p, u), t);
      ls := [Step(u)] + rest;
      assert ls[1..] == rest;
    }
  }

  /** The lock does what its abstraction allows: while it admits a thread that wants to enter, a bounded number of
      statements, none of them by a thread in a body, lets somebody in. */
  lemma {:induction false} AdmittedGetsIn(n: nat, ls: seq<Label>, t: nat) returns (more: seq<Label>)
    requires Possible(Start(n), ls) && Admitted(Run(Start(n), ls), t)
    ensures var p := Run(Start(n), ls);
            LeadsIn(p, more) && |more| <= Work(p.threads, |p.threads|)
  {
    hide Inv, Admitted, LeadsIn;
    Reached(n, ls);
    more := SomebodyEnters(Run(Start(n), ls), t);
  }
}
