/** The slots of the connection threads, and the count of connected clients the threads keep. */
module ThreadPool {

  const N_THREADS: nat := 5000

  /** What has become of the thread of a slot. */
  datatype Thread =
    | NoThread  // never created, or joined
    | Created   // has not counted its client yet
    | Serving   // between its +1 and its -1
    | Done      // has counted its client out, and waits to be joined

  function ServingIn(threads: seq<Thread>): nat {
    if threads == [] then 0 else ServingIn(threads[..|threads| - 1]) + if threads[|threads| - 1] == Serving then 1 else 0
  }

  function ActiveIn(active: seq<bool>): nat {
    if active == [] then 0 else ActiveIn(active[..|active| - 1]) + if active[|active| - 1] then 1 else 0
  }

  lemma {:induction false} ServingChanges(threads: seq<Thread>, i: nat, t: Thread)
    requires i < |threads|
    ensures ServingIn(threads[i := t])
         == ServingIn(threads) - (if threads[i] == Serving then 1 else 0) + (if t == Serving then 1 else 0)
  {
    var last := |threads| - 1;
    if i < last {
      assert threads[i := t][..last] == threads[..last][i := t];
      ServingChanges(threads[..last], i, t);
    } else {
      assert threads[i := t][..last] == threads[..last];
    }
  }

  lemma {:induction false} ServingFewerThanActive(threads: seq<Thread>, active: seq<bool>)
    requires |threads| == |active| && forall i :: 0 <= i < |threads| && threads[i] != NoThread ==> active[i]
    ensures ServingIn(threads) <= ActiveIn(active) <= |active|
  {
    if threads != [] {
      ServingFewerThanActive(threads[..|threads| - 1], active[..|active| - 1]);
    }
  }

  lemma {:induction false} NobodyServes(threads: seq<Thread>)
    requires forall i :: 0 <= i < |threads| ==> threads[i] == NoThread
    ensures ServingIn(threads) == 0
  {
    if threads != [] { NobodyServes(threads[..|threads| - 1]); }
  }

  /** What a thread may have become while it ran. */
  predicate Later(before: Thread, after: Thread) {
    match before
    case NoThread => after == NoThread
    case Created => after != NoThread
    case Serving => after == Serving || after == Done
    case Done => after == Done
  }

  /** One pass of the main loop. The scripts say which threads run before each slot is looked at, and at the
      end; accepted, whether there is a new connection; created, whether its thread could be created. */
  datatype Round = Round(scripts: seq<seq<nat>>, last: seq<nat>, accepted: bool, created: bool)

  datatype Slots = Slots(active: seq<bool>, threads: seq<Thread>)

  ghost predicate Full(s: Slots) {
    |s.active| == |s.threads| == N_THREADS
  }

  /** A slot in use without a thread. */
  ghost predicate Broken(s: Slots)
    requires Full(s)
  {
    exists i :: 0 <= i < N_THREADS && s.active[i] && s.threads[i] == NoThread
  }

  ghost predicate IsFirstVacant(s: Slots, v: nat)
    requires Full(s)
  {
    v < N_THREADS && !s.active[v] && forall j :: 0 <= j < v ==> s.active[j]
  }

  ghost predicate SomeVacant(s: Slots)
    requires Full(s)
  {
    exists v: nat :: IsFirstVacant(s, v)
  }

  /** The first loop has freed slots whose threads had ended, among them all that had ended before. */
  ghost predicate SweptFrom(before: Slots, after: Slots)
    requires Full(before) && Full(after)
  {
    forall i :: 0 <= i < N_THREADS ==>
      && (after.active[i] <==> after.threads[i] != NoThread)
      && (after.active[i] ==> before.active[i] && before.threads[i] != Done && Later(before.threads[i], after.threads[i]))
      && (before.active[i] && !after.active[i] ==> before.threads[i] != NoThread)
  }

  /** A connection takes the first vacant slot, if there is one, and its thread is there if it was created; all else
      that happens is that threads run. */
  ghost predicate ServedFrom(swept: Slots, round: Round, after: Slots)
    requires Full(swept) && Full(after)
  {
    forall i :: 0 <= i < N_THREADS ==>
      if round.accepted && IsFirstVacant(swept, i)
      then after.active[i] && Later(if round.created then Created else NoThread, after.threads[i])
      else after.active[i] == swept.active[i] && Later(swept.threads[i], after.threads[i])
  }

  class Pool {
    const active: array<bool>
    const threads: array<Thread>
    var clients: int

    ghost predicate Valid()
      reads this, active, threads
    {
      && active.Length == threads.Length == N_THREADS
      && (forall i :: 0 <= i < N_THREADS && threads[i] != NoThread ==> active[i])
      && clients == ServingIn(threads[..])
    }

    constructor ()
      ensures Valid() && clients == 0 && fresh(active) && fresh(threads)
    {
      active := new bool[N_THREADS](_ => false);
      threads := new Thread[N_THREADS](_ => NoThread);
      clients := 0;
      new;
      NobodyServes(threads[..]);
    }

    ghost function Now(): Slots
      reads active, threads
    {
      Slots(active[..], threads[..])
    }

    /** Never more clients than slots in use, and never more than the limit. */
    lemma ClientsAreBounded()
      requires Valid()
      ensures 0 <= clients <= ActiveIn(active[..]) <= N_THREADS
    {
      ServingFewerThanActive(threads[..], active[..]);
    }

    /** The next thing a thread does that matters here: it counts its client in, or out again. */
    method Advance(i: nat)
      requires Valid()
      modifies threads, this
      ensures Valid()
      ensures forall j :: 0 <= j < N_THREADS && j != i ==> threads[j] == old(threads[j])
      ensures i < N_THREADS ==> threads[i] == match old(threads[i])
                                              case Created => Serving
                                              case Serving => Done
                                              case t => t
      ensures i < N_THREADS ==> clients - old(clients) == match old(threads[i])
                                                          case Created => 1
                                                          case Serving => -1
                                                          case _ => 0
    {
      if i < N_THREADS {
        ghost var was := threads[..];
        if threads[i] == Created {
          ServingChanges(was, i, Serving);
          threads[i] := Serving;
          clients := clients + 1;
          assert threads[..] == was[i := Serving];
        } else if threads[i] == Serving {
          ServingChanges(was, i, Done);
          threads[i] := Done;
          clients := clients - 1;
          assert threads[..] == was[i := Done];
        }
      }
    }

    method RunThreads(script: seq<nat>)
      requires Valid()
      modifies threads, this
      ensures Valid()
      ensures forall i :: 0 <= i < N_THREADS ==> Later(old(threads[i]), threads[i])
    {
      var k := 0;
      while k < |script|
        invariant Valid()
        invariant forall i :: 0 <= i < N_THREADS ==> Later(old(threads[i]), threads[i])
      {
        Advance(script[k]);
        k := k + 1;
      }
    }

    /** One attempt to join: it succeeds for a thread that has ended, is put off for one that has not, and is an
        error without a thread. */
    method TryJoin(i: nat) returns (error: bool)
      requires Valid() && i < N_THREADS
      modifies threads, active
      ensures Valid() && (error <==> old(active[i]) && old(threads[i]) == NoThread)
      ensures threads[i] == if old(threads[i]) == Done then NoThread else old(threads[i])
      ensures active[i] == (old(active[i]) && old(threads[i]) != Done)
      ensures forall j :: 0 <= j < N_THREADS && j != i ==> threads[j] == old(threads[j]) && active[j] == old(active[j])
    {
      error := false;
      if active[i] {
        if threads[i] == Done {
          ServingChanges(threads[..], i, NoThread);
          ghost var was := threads[..];
          threads[i] := NoThread;
          active[i] := false;
          assert threads[..] == was[i := NoThread];
        } else if threads[i] == NoThread {
          error := true;
        }
      }
    }

    /** The first loop: the slots of threads that have ended are freed, and of no others. A slot in use without a
        thread is an error that ends the server. */
    method Sweep(scripts: seq<seq<nat>>) returns (serverError: bool)
      requires Valid()
      modifies threads, active, this
      ensures Valid()
      ensures forall i :: 0 <= i < N_THREADS ==> active[i] == (old(active[i]) && !(threads[i] == NoThread && old(threads[i]) != NoThread))
      ensures forall i :: 0 <= i < N_THREADS && threads[i] != NoThread ==> Later(old(threads[i]), threads[i])
      ensures !serverError ==> forall i :: 0 <= i < N_THREADS && old(threads[i]) == Done ==> !active[i]
      ensures !serverError ==> forall i :: 0 <= i < N_THREADS && active[i] ==> threads[i] != NoThread
      ensures serverError <==> exists i :: 0 <= i < N_THREADS && old(active[i]) && old(threads[i]) == NoThread
    {
      var i := 0;
      while i < N_THREADS
        invariant 0 <= i <= N_THREADS && Valid()
        invariant forall j :: 0 <= j < N_THREADS ==> active[j] == (old(active[j]) && !(threads[j] == NoThread && old(threads[j]) != NoThread))
        invariant forall j :: 0 <= j < N_THREADS && threads[j] != NoThread ==> Later(old(threads[j]), threads[j])
        invariant forall j :: i <= j < N_THREADS && old(threads[j]) != NoThread ==> threads[j] != NoThread
        invariant forall j :: 0 <= j < i && old(threads[j]) == Done ==> !active[j]
        invariant forall j :: 0 <= j < i && active[j] ==> threads[j] != NoThread
        invariant forall j :: 0 <= j < i && old(active[j]) ==> old(threads[j]) != NoThread
        invariant forall j :: i <= j < N_THREADS ==> (threads[j] == NoThread <==> old(threads[j]) == NoThread)
      {
        if i < |scripts| {
          RunThreads(scripts[i]);
        }
        var error := TryJoin(i);
        if error {
          assert old(active[i]) && old(threads[i]) == NoThread;
          return true;
        }
        i := i + 1;
      }
      serverError := false;
    }

    /** The second loop: the first slot that is not in use, or -1. */
    method FindVacant() returns (slot: int)
      requires active.Length == N_THREADS
      ensures -1 <= slot < N_THREADS
      ensures slot == -1 ==> forall j :: 0 <= j < N_THREADS ==> active[j]
      ensures slot >= 0 ==> !active[slot] && forall j :: 0 <= j < slot ==> active[j]
    {
      slot := -1;
      var i := 0;
      while i < N_THREADS
        invariant 0 <= i <= N_THREADS && slot == -1 && forall j :: 0 <= j < i ==> active[j]
      {
        if !active[i] { return i; }
        i := i + 1;
      }
    }

    /** A new connection takes the slot; its thread may fail to be created, and the slot stays in use. */
    method Assign(slot: nat, created: bool)
      requires Valid() && slot < N_THREADS && !active[slot]
      modifies threads, active
      ensures Valid() && active[..] == old(active[..])[slot := true]
      ensures threads[..] == if created then old(threads[..])[slot := Created] else old(threads[..])
    {
      active[slot] := true;
      if created {
        ServingChanges(threads[..], slot, Created);
        threads[slot] := Created;
      }
    }

    /** One pass: the sweep, which fails exactly when it meets a slot in use without a thread, and then at most one new
        connection. */
    method Pass(round: Round) returns (serverError: bool, ghost swept: Slots)
      requires Valid()
      modifies threads, active, this
      ensures Valid() && Full(swept) && (serverError <==> old(Broken(Now())))
      ensures !serverError ==> SweptFrom(old(Now()), swept) && ServedFrom(swept, round, Now())
    {
      serverError := Sweep(round.scripts);
      swept := Now();
      if serverError { return; }
      var slot := FindVacant();
      if slot != -1 && round.accepted {
        Assign(slot, round.created);
      }
      RunThreads(round.last);
    }

    /** The thread of a slot runs to its end and is joined. */
    method Join(i: nat)
      requires Valid() && i < N_THREADS
      modifies threads, this
      ensures Valid() && threads[i] == NoThread
      ensures forall j :: 0 <= j < N_THREADS && j != i ==> threads[j] == old(threads[j])
    {
      while threads[i] == Created || threads[i] == Serving
        invariant Valid()
        invariant forall j :: 0 <= j < N_THREADS && j != i ==> threads[j] == old(threads[j])
        decreases match threads[i] case Created => 2 case Serving => 1 case _ => 0
      {
        Advance(i);
      }
      ghost var was := threads[..];
      ServingChanges(was, i, NoThread);
      threads[i] := NoThread;
      assert threads[..] == was[i := NoThread];
    }

    /** The end of the main loop: all threads are joined, and no client is counted any more. */
    method Shutdown()
      requires Valid()
      modifies threads, this
      ensures Valid() && clients == 0 && forall j :: 0 <= j < N_THREADS ==> threads[j] == NoThread
    {
      var i := 0;
      while i < N_THREADS
        invariant 0 <= i <= N_THREADS && Valid() && forall j :: 0 <= j < i ==> threads[j] == NoThread
      {
        if active[i] {
          Join(i);
        }
        i := i + 1;
      }
      NobodyServes(threads[..]);
    }

    /** network_main_loop: whatever the connections and the threads do, the count of clients is the number of
        threads that are serving, and it is bounded by the slots in use. Each pass sweeps and then serves a connection;
        the loop ends with an error exactly at a pass that begins with a slot in use without a thread. */
    method MainLoop(rounds: seq<Round>) returns (serverError: bool, ghost trail: seq<Slots>, ghost swept: seq<Slots>)
      requires Valid()
      modifies threads, active, this
      ensures Valid() && clients == ServingIn(threads[..]) && 0 <= clients <= ActiveIn(active[..]) <= 5000
      ensures IsTrail(rounds, trail, swept) && trail[0] == old(Now())
      ensures serverError <==> |swept| < |rounds|
      ensures if serverError then Broken(trail[|swept|]) else trail[|swept|] == Now()
    {
      hide SweptFrom, ServedFrom, Broken, ServingIn;
      serverError, trail, swept := false, [Now()], [];
      var k := 0;
      while k < |rounds|
        invariant 0 <= k <= |rounds| && Valid() && !serverError && |swept| == k
        invariant IsTrail(rounds, trail, swept) && trail[0] == old(Now()) && trail[k] == Now()
      {
        ghost var s;
        serverError, s := Pass(rounds[k]);
        if serverError { break; }
        TrailGoesOn(rounds, trail, swept, s, Now());
        trail, swept := trail + [Now()], swept + [s];
        k := k + 1;
      }
      ClientsAreBounded();
    }
  }

  // ----- the threads that are started

  /** The slots before each pass and after the last, and after the sweep of each pass. */
  ghost predicate IsTrail(rounds: seq<Round>, trail: seq<Slots>, swept: seq<Slots>) {
    && |trail| == |swept| + 1 && |swept| <= |rounds|
    && (forall k :: 0 <= k < |trail| ==> Full(trail[k]))
    && (forall k :: 0 <= k < |swept| ==> Full(swept[k]))
    && (forall k :: 0 <= k < |swept| ==>
          !Broken(trail[k]) && SweptFrom(trail[k], swept[k]) && ServedFrom(swept[k], rounds[k], trail[k + 1]))
  }

  lemma TrailGoesOn(rounds: seq<Round>, trail: seq<Slots>, swept: seq<Slots>, s: Slots, t: Slots)
    requires IsTrail(rounds, trail, swept) && |swept| < |rounds| && Full(s) && Full(t)
    requires !Broken(trail[|swept|]) && SweptFrom(trail[|swept|], s) && ServedFrom(s, rounds[|swept|], t)
    ensures IsTrail(rounds, trail + [t], swept + [s])
  {
    hide SweptFrom, ServedFrom, Broken, Full;
  }

  /** The slots that had no thread and have one afterwards. */
  ghost function Started(before: Slots, after: Slots): set<nat>
    requires Full(before) && Full(after)
  {
    set i: nat | i < N_THREADS && before.threads[i] == NoThread && after.threads[i] != NoThread
  }

  /** A connection is accepted while there is a vacant slot, and its thread is created. */
  ghost predicate Starts(s: Slots, round: Round)
    requires Full(s)
  {
    round.accepted && round.created && SomeVacant(s)
  }

  lemma OneIsStarted(before: Slots, s: Slots, round: Round, after: Slots)
    requires Full(before) && Full(s) && Full(after) && SweptFrom(before, s) && ServedFrom(s, round, after)
    ensures |Started(s, after)| == if Starts(s, round) then 1 else 0
  {
    if Starts(s, round) {
      var v: nat :| IsFirstVacant(s, v);
      forall i: nat ensures i in Started(s, after) <==> i == v {
        if i < N_THREADS && IsFirstVacant(s, i) { assert i == v; }
      }
      assert Started(s, after) == {v};
    } else {
      assert Started(s, after) == {};
    }
  }

  ghost function AllStarted(trail: seq<Slots>, swept: seq<Slots>): nat
    requires |trail| == |swept| + 1 && (forall k :: 0 <= k < |trail| ==> Full(trail[k])) && forall k :: 0 <= k < |swept| ==> Full(swept[k])
  {
    if swept == [] then 0 else |Started(swept[0], trail[1])| + AllStarted(trail[1..], swept[1..])
  }

  ghost function AllStarts(rounds: seq<Round>, swept: seq<Slots>): nat
    requires |swept| <= |rounds| && forall k :: 0 <= k < |swept| ==> Full(swept[k])
  {
    if swept == [] then 0 else (if Starts(swept[0], rounds[0]) then 1 else 0) + AllStarts(rounds[1..], swept[1..])
  }

  /** As many threads are started as there are passes in which a connection was accepted with a slot vacant and its
      thread was created. */
  lemma {:induction false} ThreadsAreStarted(rounds: seq<Round>, trail: seq<Slots>, swept: seq<Slots>)
    requires IsTrail(rounds, trail, swept)
    ensures AllStarted(trail, swept) == AllStarts(rounds, swept)
    decreases |swept|
  {
    hide SweptFrom, ServedFrom, Broken, Started, Starts;
    if swept != [] {
      OneIsStarted(trail[0], swept[0], rounds[0], trail[1]);
      ThreadsAreStarted(rounds[1..], trail[1..], swept[1..]);
    }
  }

  ghost function ServingSlots(threads: seq<Thread>): set<nat> {
    set i: nat | i < |threads| && threads[i] == Serving
  }

  ghost function ActiveSlots(active: seq<bool>): set<nat> {
    set i: nat | i < |active| && active[i]
  }

  lemma OneMoreSlot(threads: seq<Thread>, active: seq<bool>, n: nat)
    requires |threads| == |active| == n + 1
    ensures ServingSlots(threads) == ServingSlots(threads[..n]) + (if threads[n] == Serving then {n} else {})
    ensures ActiveSlots(active) == ActiveSlots(active[..n]) + (if active[n] then {n} else {})
  {
  }

  /** The two counts are numbers of slots: those whose threads serve, and those in use. */
  lemma {:induction false} CountsAreSizes(threads: seq<Thread>, active: seq<bool>)
    requires |threads| == |active|
    ensures ServingIn(threads) == |ServingSlots(threads)| && ActiveIn(active) == |ActiveSlots(active)|
  {
    if threads == [] {
      assert ServingSlots(threads) == {} && ActiveSlots(active) == {};
    } else {
      var n := |threads| - 1;
      CountsAreSizes(threads[..n], active[..n]);
      OneMoreSlot(threads, active, n);
      assert n !in ServingSlots(threads[..n]) && n !in ActiveSlots(active[..n]);
    }
  }
}
