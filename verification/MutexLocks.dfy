/** The four functions of the readers/writer lock as one thread executes them. Holding the mutex a thread is
    alone; while it waits for the condition, the others take their turns. */
module MutexLocks {
  import opened Bytes
  import opened RwSpec

  /** What another thread does in one go, holding the mutex. */
  datatype Move =
    | Enters(t: nat, writing: bool)
    | Leaves(t: nat, writing: bool)

  predicate IsInside(l: RwLock, t: nat, writing: bool) {
    if writing then l.writer == Some(t) else t in l.readers
  }

  predicate MayEnter(l: RwLock, writing: bool) {
    if writing then MayWrite(l) else MayRead(l)
  }

  /** A thread that may not enter goes to sleep, and changes nothing. */
  function Moved(l: RwLock, m: Move): RwLock {
    match m
    case Enters(t, writing) => if !IsInside(l, t, writing) && MayEnter(l, writing) then Enter(l, t, writing) else l
    case Leaves(t, writing) => if IsInside(l, t, writing) then Leave(l, t, writing) else l
  }

  /** The lock after the others' turns, one turn for each time the thread has waited. */
  function Taken(l: RwLock, turns: seq<seq<Move>>): RwLock {
    if turns == [] then l else AllMoved(Taken(l, turns[..|turns| - 1]), turns[|turns| - 1])
  }

  function AllMoved(l: RwLock, turn: seq<Move>): RwLock {
    if turn == [] then l else Moved(AllMoved(l, turn[..|turn| - 1]), turn[|turn| - 1])
  }

  predicate AdmitsWriter(l: RwLock, m: Move) {
    m.Enters? && m.writing && MayWrite(l)
  }

  /** The writers that enter in a turn, and in several turns. */
  function WritersIn(l: RwLock, turn: seq<Move>): nat {
    if turn == [] then 0
    else
      var init, m := turn[..|turn| - 1], turn[|turn| - 1];
      WritersIn(l, init) + if AdmitsWriter(AllMoved(l, init), m) then 1 else 0
  }

  function WritersBy(l: RwLock, turns: seq<seq<Move>>): nat {
    if turns == [] then 0
    else
      var init := turns[..|turns| - 1];
      WritersBy(l, init) + WritersIn(Taken(l, init), turns[|turns| - 1])
  }

  ghost predicate OthersOnly(turns: seq<seq<Move>>, t: nat) {
    forall i, j :: 0 <= i < |turns| && 0 <= j < |turns[i]| ==> turns[i][j].t != t
  }

  class Locks {
    var writersWaiting: int
    var readersReading: int
    var writerActive: bool
    var inside: RwLock     // who is in which section; the threads know this of themselves

    ghost predicate Valid()
      reads this
    {
      && readersReading == |inside.readers| && (writerActive <==> inside.writer.Some?)
      && writersWaiting <= 0 && (inside.writer.Some? ==> inside.readers == {})
    }

    constructor ()
      ensures Valid() && inside == FREE && writersWaiting == 0
    {
      writersWaiting, readersReading, writerActive, inside := 0, 0, false, FREE;
    }

    /** The statements behind the wait loop of enter_read. */
    method AdmitReader(t: nat)
      requires Valid() && MayRead(inside) && t !in inside.readers
      modifies this
      ensures Valid() && inside == Enter(old(inside), t, false) && writersWaiting == old(writersWaiting)
    {
      readersReading := readersReading + 1;
      inside := Enter(inside, t, false);
    }

    /** The statements behind the wait loop of enter_write. */
    method AdmitWriter(t: nat)
      requires Valid() && MayWrite(inside)
      modifies this
      ensures Valid() && inside == Enter(old(inside), t, true) && writersWaiting == old(writersWaiting) - 1
    {
      writerActive := true;
      writersWaiting := writersWaiting - 1;
      inside := Enter(inside, t, true);
    }

    /** exit_read: the last reader broadcasts. */
    method ExitRead(t: nat) returns (broadcast: bool)
      requires Valid() && t in inside.readers
      modifies this
      ensures Valid() && inside == Leave(old(inside), t, false) && writersWaiting == old(writersWaiting)
      ensures broadcast <==> MayWrite(inside)
    {
      readersReading := readersReading - 1;
      broadcast := readersReading == 0;
      inside := Leave(inside, t, false);
      assert |inside.readers| == 0 <==> inside.readers == {};
    }

    /** exit_write broadcasts always. */
    method ExitWrite(t: nat) returns (broadcast: bool)
      requires Valid() && inside.writer == Some(t)
      modifies this
      ensures Valid() && inside == Leave(old(inside), t, true) && writersWaiting == old(writersWaiting)
      ensures broadcast && MayWrite(inside)
    {
      writerActive := false;
      inside := Leave(inside, t, true);
      broadcast := true;
    }

    method Perform(m: Move)
      requires Valid()
      modifies this
      ensures Valid() && inside == Moved(old(inside), m)
      ensures writersWaiting == old(writersWaiting) - if AdmitsWriter(old(inside), m) then 1 else 0
    {
      match m {
        case Enters(t, writing) =>
          if writing {
            if readersReading == 0 && !writerActive { AdmitWriter(t); }
          } else if writersWaiting <= 0 && !writerActive && t !in inside.readers {
            AdmitReader(t);
          }
        case Leaves(t, writing) =>
          if IsInside(inside, t, writing) {
            if writing { var _ := ExitWrite(t); } else { var _ := ExitRead(t); }
          }
      }
    }

    /** pthread_cond_wait: the mutex is free until the others have had their turn. */
    method Wait(turn: seq<Move>)
      requires Valid()
      modifies this
      ensures Valid() && inside == AllMoved(old(inside), turn)
      ensures writersWaiting == old(writersWaiting) - WritersIn(old(inside), turn)
    {
      var i := 0;
      assert turn[..0] == [];
      while i < |turn|
        invariant 0 <= i <= |turn| && Valid() && inside == AllMoved(old(inside), turn[..i])
        invariant writersWaiting == old(writersWaiting) - WritersIn(old(inside), turn[..i])
      {
        assert turn[..i + 1][..i] == turn[..i];
        Perform(turn[i]);
        i := i + 1;
      }
      assert turn[..i] == turn;
    }

    /** enter_read: the thread is in, after the first of the others' turns that leaves no writer inside; or it
        still sleeps, because none of them does. */
    method EnterRead(t: nat, turns: seq<seq<Move>>) returns (entered: bool, ghost waits: nat)
      requires Valid() && !IsInside(inside, t, false) && OthersOnly(turns, t)
      modifies this
      ensures Valid() && waits <= |turns|
      ensures forall k :: 0 <= k < waits ==> !MayRead(Taken(old(inside), turns[..k]))
      ensures entered ==> MayRead(Taken(old(inside), turns[..waits])) && inside == Enter(Taken(old(inside), turns[..waits]), t, false)
      ensures !entered ==> waits == |turns| && inside == Taken(old(inside), turns) && !MayRead(inside)
      ensures writersWaiting == old(writersWaiting) - WritersBy(old(inside), turns[..waits])
    {
      hide Taken, AllMoved, OthersOnly, WritersIn, WritersBy;
      var k := 0;
      NothingTaken(old(inside), turns);
      while writersWaiting > 0 || writerActive
        invariant 0 <= k <= |turns| && Valid() && inside == Taken(old(inside), turns[..k])
        invariant writersWaiting == old(writersWaiting) - WritersBy(old(inside), turns[..k])
        invariant forall j :: 0 <= j < k ==> !MayRead(Taken(old(inside), turns[..j]))
        decreases |turns| - k
      {
        assert turns[..|turns|] == turns;
        if k == |turns| { return false, k; }
        TakenNext(old(inside), turns, k);
        Wait(turns[k]);
        k := k + 1;
      }
      OthersKeepOut(old(inside), turns, k, t, false);
      AdmitReader(t);
      entered, waits := true, k;
    }

    /** enter_write: the same, with nobody inside at all. */
    method EnterWrite(t: nat, turns: seq<seq<Move>>) returns (entered: bool, ghost waits: nat)
      requires Valid() && OthersOnly(turns, t)
      modifies this
      ensures Valid() && waits <= |turns|
      ensures forall k :: 0 <= k < waits ==> !MayWrite(Taken(old(inside), turns[..k]))
      ensures entered ==> MayWrite(Taken(old(inside), turns[..waits])) && inside == Enter(Taken(old(inside), turns[..waits]), t, true)
      ensures !entered ==> waits == |turns| && inside == Taken(old(inside), turns) && !MayWrite(inside)
      ensures writersWaiting == old(writersWaiting) - WritersBy(old(inside), turns[..waits]) - if entered then 1 else 0
    {
      hide Taken, AllMoved, OthersOnly, WritersIn, WritersBy;
      var k := 0;
      NothingTaken(old(inside), turns);
      while readersReading > 0 || writerActive
        invariant 0 <= k <= |turns| && Valid() && inside == Taken(old(inside), turns[..k])
        invariant writersWaiting == old(writersWaiting) - WritersBy(old(inside), turns[..k])
        invariant forall j :: 0 <= j < k ==> !MayWrite(Taken(old(inside), turns[..j]))
        decreases |turns| - k
      {
        assert turns[..|turns|] == turns;
        if k == |turns| { return false, k; }
        TakenNext(old(inside), turns, k);
        Wait(turns[k]);
        k := k + 1;
      }
      AdmitWriter(t);
      entered, waits := true, k;
    }
  }

  lemma NothingTaken(l: RwLock, turns: seq<seq<Move>>)
    ensures Taken(l, turns[..0]) == l && WritersBy(l, turns[..0]) == 0
  {
    assert turns[..0] == [];
  }

  lemma TakenNext(l: RwLock, turns: seq<seq<Move>>, k: nat)
    requires k < |turns|
    ensures Taken(l, turns[..k + 1]) == AllMoved(Taken(l, turns[..k]), turns[k])
    ensures WritersBy(l, turns[..k + 1]) == WritersBy(l, turns[..k]) + WritersIn(Taken(l, turns[..k]), turns[k])
  {
    assert turns[..k + 1][..k] == turns[..k];
  }

  /** The others neither let a thread in nor put it out. */
  lemma {:induction false} OthersKeepOut(l: RwLock, turns: seq<seq<Move>>, k: nat, t: nat, writing: bool)
    requires OthersOnly(turns, t) && k <= |turns|
    ensures IsInside(Taken(l, turns[..k]), t, writing) <==> IsInside(l, t, writing)
  {
    if k > 0 {
      assert turns[..k][..k - 1] == turns[..k - 1];
      OthersKeepOut(l, turns, k - 1, t, writing);
      TurnKeepsOut(Taken(l, turns[..k - 1]), turns[k - 1], |turns[k - 1]|, t, writing);
      assert turns[k - 1][..|turns[k - 1]|] == turns[k - 1];
    }
  }

  lemma {:induction false} TurnKeepsOut(l: RwLock, turn: seq<Move>, k: nat, t: nat, writing: bool)
    requires k <= |turn| && forall j :: 0 <= j < |turn| ==> turn[j].t != t
    ensures IsInside(AllMoved(l, turn[..k]), t, writing) <==> IsInside(l, t, writing)
  {
    if k > 0 {
      assert turn[..k][..k - 1] == turn[..k - 1];
      TurnKeepsOut(l, turn, k - 1, t, writing);
    }
  }
}
