/** The readers/writer lock as its threads execute it: one mutex, one condition variable, three counters.
    Every statement of the four functions is a step of its own. A write section does what the statistics
    functions do in one: load a counter, then store the sum. */
module LockProtocol {
  import opened Bytes

  datatype Fn = EnterRead | ExitRead | EnterWrite | ExitWrite

  datatype Pc =
    | Outside
    | AtLock(fn: Fn)    // wants the mutex, for the first time or after a wakeup
    | AtTest(writing: bool) // in enter_write or enter_read: holds the mutex, about to evaluate the loop guard
    | Asleep(writing: bool) // in pthread_cond_wait
    | AtUpdate(fn: Fn)  // holds the mutex, about to change readers_reading or writer_active
    | AtCount           // enter_write: about to decrement writers_waiting
    | AtSignal(writing: bool) // in exit_write or exit_read: about to broadcast, if it is called for
    | AtUnlock(fn: Fn)  // about to release the mutex
    | Reading
    | Writing           // in a write section, counter not loaded yet
    | Loaded
    | Stored

  datatype Thread = Thread(pc: Pc, delta: int, current: int)

  /** writes and total are kept for the proofs: completed calls of enter_write, sum of the stored deltas. */
  datatype Protocol = Protocol(threads: seq<Thread>, mutex: Option<nat>, writersWaiting: int, readersReading: int,
                               writerActive: bool, counter: int, writes: nat, total: int)

  datatype Label =
    | BeginRead(t: nat)
    | BeginWrite(t: nat, delta: int)
    | Step(t: nat)
    | Spurious(t: nat)  // POSIX allows a wait to end without a broadcast

  predicate HoldsMutex(pc: Pc) {
    pc.AtTest? || pc.AtUpdate? || pc.AtCount? || pc.AtSignal? || pc.AtUnlock?
  }

  /** Counted in readers_reading. */
  predicate InsideRead(pc: Pc) {
    pc == AtUnlock(EnterRead) || pc == Reading || pc == AtLock(ExitRead) || pc == AtUpdate(ExitRead)
  }

  /** Covered by writer_active. */
  predicate InsideWrite(pc: Pc) {
    pc == AtCount || pc == AtUnlock(EnterWrite) || pc == Writing || pc == Loaded || pc == Stored
    || pc == AtLock(ExitWrite) || pc == AtUpdate(ExitWrite)
  }

  function Awake(th: Thread): Thread {
    if th.pc.Asleep? then th.(pc := AtLock(if th.pc.writing then EnterWrite else EnterRead)) else th
  }

  /** pthread_cond_broadcast. */
  function WakeAll(ths: seq<Thread>): (r: seq<Thread>)
    ensures |r| == |ths| && forall t :: 0 <= t < |ths| ==> r[t] == Awake(ths[t])
  {
    seq(|ths|, t requires 0 <= t < |ths| => Awake(ths[t]))
  }

  predicate Enabled(p: Protocol, l: Label) {
    l.t < |p.threads| &&
    var pc := p.threads[l.t].pc;
    match l
    case BeginRead(_) => pc == Outside
    case BeginWrite(_, _) => pc == Outside
    case Step(_) => pc != Outside && !pc.Asleep? && (pc.AtLock? ==> p.mutex.None?)
    case Spurious(_) => pc.Asleep?
  }

  /** The guards of the two wait loops. */
  predicate MustWait(p: Protocol, writing: bool) {
    if writing then p.readersReading > 0 || p.writerActive else p.writersWaiting > 0 || p.writerActive
  }

  function NextPc(p: Protocol, pc: Pc): Pc {
    match pc
    case AtLock(EnterRead) => AtTest(false)
    case AtLock(EnterWrite) => AtTest(true)
    case AtLock(fn) => AtUpdate(fn)
    case AtTest(writing) =>
      if MustWait(p, writing) then Asleep(writing) else AtUpdate(if writing then EnterWrite else EnterRead)
    case AtUpdate(EnterRead) => AtUnlock(EnterRead)
    case AtUpdate(ExitRead) => AtSignal(false)
    case AtUpdate(EnterWrite) => AtCount
    case AtUpdate(ExitWrite) => AtSignal(true)
    case AtCount => AtUnlock(EnterWrite)
    case AtSignal(writing) => AtUnlock(if writing then ExitWrite else ExitRead)
    case AtUnlock(EnterRead) => Reading
    case AtUnlock(EnterWrite) => Writing
    case AtUnlock(_) => Outside
    case Reading => AtLock(ExitRead)
    case Writing => Loaded
    case Loaded => Stored
    case Stored => AtLock(ExitWrite)
    case _ => pc
  }

  /** exit_write always broadcasts, exit_read when the last reader leaves. */
  predicate Broadcasts(p: Protocol, pc: Pc) {
    pc.AtSignal? && (pc.writing || p.readersReading == 0)
  }

  function DoStep(p: Protocol, t: nat): Protocol
    requires Enabled(p, Step(t))
  {
    var th := p.threads[t];
    var pc := th.pc;
    var pc' := NextPc(p, pc);
    var ths := if Broadcasts(p, pc) then WakeAll(p.threads) else p.threads;
    Protocol(
      ths[t := Thread(pc', th.delta, if pc == Writing then p.counter else th.current)],
      if pc.AtLock? then Some(t) else if pc.AtUnlock? || pc'.Asleep? then None else p.mutex,
      if pc == AtCount then p.writersWaiting - 1 else p.writersWaiting,
      if pc == AtUpdate(EnterRead) then p.readersReading + 1
      else if pc == AtUpdate(ExitRead) then p.readersReading - 1
      else p.readersReading,
      if pc == AtUpdate(EnterWrite) then true else if pc == AtUpdate(ExitWrite) then false else p.writerActive,
      if pc == Loaded then th.current + th.delta else p.counter,
      if pc == AtUnlock(EnterWrite) then p.writes + 1 else p.writes,
      if pc == Loaded then p.total + th.delta else p.total)
  }

  function Do(p: Protocol, l: Label): Protocol
    requires Enabled(p, l)
  {
    match l
    case BeginRead(t) => p.(threads := p.threads[t := Thread(AtLock(EnterRead), 0, 0)])
    case BeginWrite(t, delta) => p.(threads := p.threads[t := Thread(AtLock(EnterWrite), delta, 0)])
    case Step(t) => DoStep(p, t)
    case Spurious(t) => p.(threads := p.threads[t := Awake(p.threads[t])])
  }

  /** As init_server_resources leaves a lock. */
  function Start(n: nat): Protocol {
    Protocol(seq(n, i => Thread(Outside, 0, 0)), None, 0, 0, false, 0, 0, 0)
  }

  predicate Possible(p: Protocol, ls: seq<Label>)
    decreases |ls|
  {
    ls == [] || (Enabled(p, ls[0]) && Possible(Do(p, ls[0]), ls[1..]))
  }

  function Run(p: Protocol, ls: seq<Label>): Protocol
    requires Possible(p, ls)
    decreases |ls|
  {
    if ls == [] then p else Run(Do(p, ls[0]), ls[1..])
  }

  // ----- what every run keeps

  function Readers(ths: seq<Thread>): set<nat> {
    set t | 0 <= t < |ths| && InsideRead(ths[t].pc)
  }

  function Writers(ths: seq<Thread>): set<nat> {
    set t | 0 <= t < |ths| && InsideWrite(ths[t].pc)
  }

  ghost predicate MutexInv(p: Protocol) {
    && (forall t :: 0 <= t < |p.threads| && HoldsMutex(p.threads[t].pc) ==> p.mutex == Some(t))
    && (p.mutex.Some? ==> p.mutex.value < |p.threads| && HoldsMutex(p.threads[p.mutex.value].pc))
  }

  ghost predicate CountInv(p: Protocol) {
    && p.readersReading == |Readers(p.threads)|
    && (p.writerActive <==> Writers(p.threads) != {})
    && (forall t, u :: t in Writers(p.threads) && u in Writers(p.threads) ==> t == u)
    && (Writers(p.threads) != {} ==> Readers(p.threads) == {})
  }

  /** The guard a thread has passed still holds while it keeps the mutex. */
  ghost predicate GuardInv(p: Protocol) {
    forall t :: 0 <= t < |p.threads| ==>
                  && (p.threads[t].pc == AtUpdate(EnterRead) ==> !p.writerActive)
                  && (p.threads[t].pc == AtUpdate(EnterWrite) ==> !p.writerActive && p.readersReading == 0)
  }

  predicate Uncounted(p: Protocol) {
    p.mutex.Some? && p.mutex.value < |p.threads| && p.threads[p.mutex.value].pc == AtUnlock(EnterWrite)
  }

  ghost predicate WaitingInv(p: Protocol) {
    p.writersWaiting == -(p.writes + if Uncounted(p) then 1 else 0)
  }

  predicate Signals(p: Protocol, writing: bool) {
    p.mutex.Some? && p.mutex.value < |p.threads| && p.threads[p.mutex.value].pc == AtSignal(writing)
  }

  /** Whoever sleeps is owed a broadcast: by a thread inside, or by one about to send it. */
  ghost predicate SleepInv(p: Protocol) {
    forall t :: 0 <= t < |p.threads| ==>
                  && (p.threads[t].pc == Asleep(false) ==> p.writerActive || Signals(p, true))
                  && (p.threads[t].pc == Asleep(true) ==>
                        p.writerActive || p.readersReading > 0 || Signals(p, true) || Signals(p, false))
  }

  /** Between the load and the store of a counter nobody else stores. */
  ghost predicate CounterInv(p: Protocol) {
    && (forall t :: 0 <= t < |p.threads| && p.threads[t].pc == Loaded ==> p.threads[t].current == p.counter)
    && p.counter == p.total
  }

  ghost predicate Inv(p: Protocol) {
    MutexInv(p) && CountInv(p) && GuardInv(p) && WaitingInv(p) && SleepInv(p) && CounterInv(p)
  }

  // ----- one thread moves

  /** The thread moves and stays outside or inside as it was. */
  lemma SameSections(ths: seq<Thread>, t: nat, th: Thread)
    requires t < |ths|
    requires InsideRead(th.pc) <==> InsideRead(ths[t].pc)
    requires InsideWrite(th.pc) <==> InsideWrite(ths[t].pc)
    ensures Readers(ths[t := th]) == Readers(ths) && Writers(ths[t := th]) == Writers(ths)
  {
  }

  lemma WakeSections(ths: seq<Thread>)
    ensures Readers(WakeAll(ths)) == Readers(ths) && Writers(WakeAll(ths)) == Writers(ths)
  {
  }

  lemma ReaderEnters(ths: seq<Thread>, t: nat, th: Thread)
    requires t < |ths| && !InsideRead(ths[t].pc) && !InsideWrite(ths[t].pc) && InsideRead(th.pc)
    ensures Readers(ths[t := th]) == Readers(ths) + {t} && |Readers(ths[t := th])| == |Readers(ths)| + 1
    ensures Writers(ths[t := th]) == Writers(ths)
  {
    assert Readers(ths[t := th]) == Readers(ths) + {t};
  }

  lemma ReaderLeaves(ths: seq<Thread>, t: nat, th: Thread)
    requires t < |ths| && InsideRead(ths[t].pc) && !InsideRead(th.pc) && !InsideWrite(th.pc)
    ensures Readers(ths[t := th]) == Readers(ths) - {t} && |Readers(ths[t := th])| == |Readers(ths)| - 1
    ensures Writers(ths[t := th]) == Writers(ths)
  {
    assert Readers(ths[t := th]) == Readers(ths) - {t};
  }

  lemma WriterEnters(ths: seq<Thread>, t: nat, th: Thread)
    requires t < |ths| && !InsideRead(ths[t].pc) && !InsideWrite(ths[t].pc) && InsideWrite(th.pc)
    ensures Writers(ths[t := th]) == Writers(ths) + {t} && Readers(ths[t := th]) == Readers(ths)
  {
  }

  lemma WriterLeaves(ths: seq<Thread>, t: nat, th: Thread)
    requires t < |ths| && InsideWrite(ths[t].pc) && !InsideRead(th.pc) && !InsideWrite(th.pc)
    ensures Writers(ths[t := th]) == Writers(ths) - {t} && Readers(ths[t := th]) == Readers(ths)
  {
  }

  lemma InSections(ths: seq<Thread>, t: nat)
    requires t < |ths|
    ensures t in Readers(ths) <==> InsideRead(ths[t].pc)
    ensures t in Writers(ths) <==> InsideWrite(ths[t].pc)
  {
  }

  /** Sections are entered and left at the four updates only. */
  lemma NextSection(p: Protocol, pc: Pc)
    requires pc != Outside && !pc.Asleep?
    ensures InsideRead(NextPc(p, pc)) <==> pc == AtUpdate(EnterRead) || (InsideRead(pc) && pc != AtUpdate(ExitRead))
    ensures InsideWrite(NextPc(p, pc)) <==> pc == AtUpdate(EnterWrite) || (InsideWrite(pc) && pc != AtUpdate(ExitWrite))
    ensures pc == AtUpdate(EnterRead) || pc == AtUpdate(EnterWrite) ==> !InsideRead(pc) && !InsideWrite(pc)
    ensures pc == AtUpdate(ExitRead) ==> InsideRead(pc) && !InsideWrite(pc)
    ensures pc == AtUpdate(ExitWrite) ==> InsideWrite(pc) && !InsideRead(pc)
  {
  }

  /** The sections after a step, in terms of those before. */
  lemma StepSections(p: Protocol, t: nat)
    requires Enabled(p, Step(t))
    ensures var q := DoStep(p, t); var pc := p.threads[t].pc;
            && Readers(q.threads) == (if pc == AtUpdate(EnterRead) then Readers(p.threads) + {t}
                                      else if pc == AtUpdate(ExitRead) then Readers(p.threads) - {t}
                                      else Readers(p.threads))
            && Writers(q.threads) == (if pc == AtUpdate(EnterWrite) then Writers(p.threads) + {t}
                                      else if pc == AtUpdate(ExitWrite) then Writers(p.threads) - {t}
                                      else Writers(p.threads))
  {
    var pc := p.threads[t].pc;
    var ths := if Broadcasts(p, pc) then WakeAll(p.threads) else p.threads;
    var th := DoStep(p, t).threads[t];
    WakeSections(p.threads);
    NextSection(p, pc);
    assert ths[t] == p.threads[t] && th.pc == NextPc(p, pc);
    assert DoStep(p, t).threads == ths[t := th];
    hide WakeAll, Readers, Writers, NextPc, InsideRead, InsideWrite, DoStep;
    if pc == AtUpdate(EnterRead) {
      ReaderEnters(ths, t, th);
    } else if pc == AtUpdate(ExitRead) {
      ReaderLeaves(ths, t, th);
    } else if pc == AtUpdate(EnterWrite) {
      WriterEnters(ths, t, th);
    } else if pc == AtUpdate(ExitWrite) {
      WriterLeaves(ths, t, th);
    } else {
      SameSections(ths, t, th);
    }
  }

  lemma StepKeepsCounts(p: Protocol, t: nat)
    requires CountInv(p) && GuardInv(p) && Enabled(p, Step(t))
    ensures CountInv(DoStep(p, t))
  {
    StepSections(p, t);
    InSections(p.threads, t);
    hide WakeAll, Readers, Writers;
  }

  lemma StepKeepsMutex(p: Protocol, t: nat)
    requires MutexInv(p) && Enabled(p, Step(t))
    ensures MutexInv(DoStep(p, t))
  {
  }

  lemma StepKeepsGuards(p: Protocol, t: nat)
    requires MutexInv(p) && CountInv(p) && GuardInv(p) && WaitingInv(p) && Enabled(p, Step(t))
    ensures GuardInv(DoStep(p, t))
  {
    InSections(p.threads, t);
    hide Readers, Writers;
  }

  lemma StepKeepsWaiting(p: Protocol, t: nat)
    requires MutexInv(p) && WaitingInv(p) && Enabled(p, Step(t))
    ensures WaitingInv(DoStep(p, t))
  {
  }

  lemma StepKeepsSleepers(p: Protocol, t: nat)
    requires MutexInv(p) && SleepInv(p) && WaitingInv(p) && Enabled(p, Step(t)) && p.readersReading >= 0
    ensures SleepInv(DoStep(p, t))
  {
  }

  lemma StepKeepsCounter(p: Protocol, t: nat)
    requires CountInv(p) && CounterInv(p) && Enabled(p, Step(t))
    ensures CounterInv(DoStep(p, t))
  {
    forall u | 0 <= u < |p.threads| && u != t && p.threads[u].pc == Loaded ensures p.threads[t].pc != Loaded {
      InSections(p.threads, u);
      InSections(p.threads, t);
    }
    hide Readers, Writers;
  }
}
