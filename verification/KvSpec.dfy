/** What the store promises a single user: a finite map from keys to blocks. */
module KvSpec {
  import opened Bytes

  type Store = map<CString, Block>

  type Pair = (CString, Block)

  datatype Op =
    | Put(key: CString, value: Block)
    | Del(key: CString)
    | Get(key: CString)
    | Size

  datatype Answer =
    | Done                 // put stored, or del removed
    | Missing              // del of a key that is not there
    | Found(value: Block)
    | Absent
    | Count(n: nat)
    | Failed               // put of an empty block is refused

  /** Sent to the head of the chain; what does not change the store is sent to one server only. */
  predicate IsUpdate(op: Op) {
    op.Put? || op.Del?
  }

  /** The skeleton refuses a put whose block is empty before it takes any lock. */
  predicate Accepted(op: Op) {
    op.Put? ==> op.value != []
  }

  function After(op: Op, m: Store): Store {
    match op
    case Put(k, v) => if v == [] then m else m[k := v]
    case Del(k) => m - {k}
    case Get(_) => m
    case Size => m
  }

  function Reply(op: Op, m: Store): Answer {
    match op
    case Put(_, v) => if v == [] then Failed else Done
    case Del(k) => if k in m then Done else Missing
    case Get(k) => if k in m then Found(m[k]) else Absent
    case Size => Count(|m|)
  }

  // ----- copying a table entry by entry

  function PutAll(m: Store, entries: seq<Pair>): Store {
    if entries == [] then m else PutAll(m, entries[..|entries| - 1])[entries[|entries| - 1].0 := entries[|entries| - 1].1]
  }

  /** The entries of a table, each once, in any order. */
  predicate Lists(entries: seq<Pair>, m: Store) {
    && (forall i :: 0 <= i < |entries| ==> entries[i].0 in m && m[entries[i].0] == entries[i].1)
    && (forall k :: k in m ==> exists i :: 0 <= i < |entries| && entries[i].0 == k)
  }

  lemma {:induction false} PutAllDomain(entries: seq<Pair>, m: Store)
    requires forall i :: 0 <= i < |entries| ==> entries[i].0 in m && m[entries[i].0] == entries[i].1
    ensures forall k :: k in PutAll(map[], entries) <==> exists i :: 0 <= i < |entries| && entries[i].0 == k
    ensures forall k :: k in PutAll(map[], entries) ==> k in m && PutAll(map[], entries)[k] == m[k]
  {
    if entries != [] {
      var last := |entries| - 1;
      var init := entries[..last];
      PutAllDomain(init, m);
      forall k ensures k in PutAll(map[], entries) <==> exists i :: 0 <= i < |entries| && entries[i].0 == k {
        if k in PutAll(map[], init) {
          var i :| 0 <= i < |init| && init[i].0 == k;
          assert entries[i].0 == k;
        }
        if i :| 0 <= i < |entries| && entries[i].0 == k && i < last {
          assert init[i].0 == k;
        }
      }
    }
  }

  /** Storing the listed entries of a table one by one into an empty table gives that table again,
      whatever order they are listed in. */
  lemma CopyIsFaithful(entries: seq<Pair>, m: Store)
    requires Lists(entries, m)
    ensures PutAll(map[], entries) == m
  {
    PutAllDomain(entries, m);
  }
}
