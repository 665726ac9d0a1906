/** What a chain of servers does with one operation, when the calls from server to server may be lost. */
module Replication {
  import opened Bytes
  import opened KvSpec

  /** What becomes of a remote call. */
  datatype Fate =
    | Delivered
    | RequestLost  // the server never sees the call
    | ReplyLost    // the server executes it, the caller sees a broken connection

  datatype Replica = Replica(store: Store, operations: int)

  /** A refused put is not counted. */
  function Step(r: Replica, op: Op): Replica {
    Replica(After(op, r.store), if Accepted(op) then r.operations + 1 else r.operations)
  }

  /** A read at the first server. */
  function Read(replicas: seq<Replica>): seq<Replica>
    requires |replicas| > 0
  {
    replicas[0 := replicas[0].(operations := replicas[0].operations + 1)]
  }

  /** The call between a client and the first server, then the operation along the chain. */
  function Arrived(replicas: seq<Replica>, fates: seq<Fate>, op: Op): (after: seq<Replica>)
    requires |replicas| == |fates| > 0
    ensures |after| == |replicas|
    decreases |replicas|, 2
  {
    if fates[0] == RequestLost then replicas else Served(replicas, fates[1..], op)
  }

  /** The first server executes the operation; an update it accepts travels on. */
  function Served(replicas: seq<Replica>, fates: seq<Fate>, op: Op): (after: seq<Replica>)
    requires |replicas| == |fates| + 1
    ensures |after| == |replicas|
    decreases |replicas|, 1
  {
    if IsUpdate(op) && Accepted(op) && fates != []
    then [Step(replicas[0], op)] + Arrived(replicas[1..], fates, op)
    else replicas[0 := Step(replicas[0], op)]
  }

  /** No call between the first servers of the chain has lost its request, up to server i. */
  predicate Reached(fates: seq<Fate>, i: nat)
    requires i <= |fates|
  {
    forall j :: 0 <= j < i ==> fates[j] != RequestLost
  }

  /** An update changes exactly the servers before the first lost request, each as if it were alone. */
  lemma {:induction false} UpdateReaches(replicas: seq<Replica>, fates: seq<Fate>, op: Op, i: nat)
    requires |replicas| == |fates| + 1 && IsUpdate(op) && Accepted(op) && i < |replicas|
    ensures var after := Served(replicas, fates, op);
            after[i] == if Reached(fates, i) then Step(replicas[i], op) else replicas[i]
    ensures var before, after := replicas[i], Served(replicas, fates, op)[i];
            Reached(fates, i) ==>
              && after.operations == before.operations + 1
              && after.store == if op.Put? then before.store[op.key := op.value] else before.store - {op.key}
  {
    if i > 0 {
      if fates[0] != RequestLost {
        UpdateReaches(replicas[1..], fates[1..], op, i - 1);
        assert Reached(fates, i) <==> Reached(fates[1..], i - 1) by {
          assert forall j :: 0 < j < i ==> fates[j] == fates[1..][j - 1];
          assert forall j :: 0 <= j < i - 1 ==> fates[1..][j] == fates[j + 1];
        }
      }
    } else if fates != [] && fates[0] != RequestLost {
      UpdateReaches(replicas[1..], fates[1..], op, 0);
    }
  }

  predicate Agree(replicas: seq<Replica>, m: Store) {
    forall i :: 0 <= i < |replicas| ==> replicas[i].store == m
  }

  predicate AllAlike(replicas: seq<Replica>) {
    forall i, j :: 0 <= i < |replicas| && 0 <= j < |replicas| ==> replicas[i].store == replicas[j].store
  }

  /** The outcome of the forwarded call is ignored, so replicas that agreed still agree afterwards exactly when
      every request on the way got through, or when the update would have changed nothing anyway. */
  lemma {:induction false} AgreementIsKept(replicas: seq<Replica>, fates: seq<Fate>, op: Op, m: Store)
    requires |replicas| == |fates| + 1 && IsUpdate(op) && Accepted(op) && Agree(replicas, m)
    ensures AllAlike(Served(replicas, fates, op)) <==> After(op, m) == m || Reached(fates, |fates|)
    ensures Reached(fates, |fates|) ==> Agree(Served(replicas, fates, op), After(op, m))
  {
    var after := Served(replicas, fates, op);
    forall i | 0 <= i < |replicas|
      ensures after[i].store == if Reached(fates, i) then After(op, m) else m
    {
      UpdateReaches(replicas, fates, op, i);
    }
    if After(op, m) == m || Reached(fates, |fates|) {
      assert Reached(fates, |fates|) ==> forall i :: 0 <= i < |replicas| ==> Reached(fates, i);
      assert Agree(after, After(op, m));
    } else {
      assert after[0].store == After(op, m) && after[|fates|].store == m;
    }
  }

  /** An answer that reaches the client says nothing about the servers behind the first one: with two servers
      and a lost request between them the put succeeds and the tail still answers that the key is absent. */
  lemma LostForwarding(k: CString, v: Block)
    requires v != []
    ensures var replicas := [Replica(map[], 0), Replica(map[], 0)];
            var after := Arrived(replicas, [Delivered, RequestLost], Put(k, v));
            && Reply(Put(k, v), replicas[0].store) == Done
            && Reply(Get(k), after[0].store) == Found(v) && Reply(Get(k), after[1].store) == Absent
  {
    var replicas := [Replica(map[], 0), Replica(map[], 0)];
    assert [Delivered, RequestLost][1..] == [RequestLost];
    UpdateReaches(replicas, [RequestLost], Put(k, v), 0);
    UpdateReaches(replicas, [RequestLost], Put(k, v), 1);
  }

  // ----- one connection after another operation

  /** An operation and what becomes of the calls between the servers on its way. */
  datatype Request = Request(op: Op, fates: seq<Fate>)

  ghost predicate Fits(requests: seq<Request>, n: nat) {
    forall i :: 0 <= i < |requests| ==> |requests[i].fates| + 1 == n
  }

  /** The chain after these requests, one after the other. */
  function ServedAll(replicas: seq<Replica>, requests: seq<Request>): (after: seq<Replica>)
    requires Fits(requests, |replicas|)
    ensures |after| == |replicas|
  {
    if requests == [] then replicas
    else
      var last := requests[|requests| - 1];
      Served(ServedAll(replicas, requests[..|requests| - 1]), last.fates, last.op)
  }

  function StoreAfterAll(m: Store, requests: seq<Request>): Store {
    if requests == [] then m
    else After(requests[|requests| - 1].op, StoreAfterAll(m, requests[..|requests| - 1]))
  }

  /** The first server is never behind: its table is what the requests make of a single map, whatever happens
      to the calls it makes. With no request lost on the way, all the others have that table too. */
  lemma {:induction false} ChainServesOneMap(replicas: seq<Replica>, requests: seq<Request>, m: Store)
    requires Fits(requests, |replicas|) && |replicas| > 0 && replicas[0].store == m
    ensures ServedAll(replicas, requests)[0].store == StoreAfterAll(m, requests)
    ensures Agree(replicas, m) && (forall i :: 0 <= i < |requests| ==> Reached(requests[i].fates, |requests[i].fates|))
            ==> Agree(ServedAll(replicas, requests), StoreAfterAll(m, requests))
  {
    if requests != [] {
      var init, last := requests[..|requests| - 1], requests[|requests| - 1];
      ChainServesOneMap(replicas, init, m);
      var before, m' := ServedAll(replicas, init), StoreAfterAll(m, init);
      hide ServedAll, StoreAfterAll;
      if IsUpdate(last.op) && Accepted(last.op) {
        UpdateReaches(before, last.fates, last.op, 0);
        if Agree(before, m') { AgreementIsKept(before, last.fates, last.op, m'); }
      }
    }
  }
}
