/** How a joining server fills its table from the tail, and what the operations in between do to the copy. */
module StateTransfer {
  import opened Bytes
  import opened KvSpec
  import opened SortedList
  import opened Buckets
  import opened HashTable
  import opened Replication
  import opened Packing
  import Framing
  import opened Skeleton

  /** The entries that a table has sent, with the null pointer after the last. */
  ghost predicate Sent(entries: array<Entry?>, pairs: seq<Pair>)
    reads entries, entries[..], set e: Entry | e in entries[..] :: e.value
  {
    |pairs| + 1 == entries.Length && entries[|pairs|] == null && Carries(entries[..|pairs|], pairs)
  }

  /** The copying loop: as many entries as the size says, in the order they came. It does not look for the null
      pointer at the end: with a larger size it reaches through it, and the process breaks down. */
  method Fill(target: Table, entries: array<Entry?>, count: nat, ghost pairs: seq<Pair>) returns (r: int, crash: bool)
    requires target.Valid() && Sent(entries, pairs)
    requires forall j :: 0 <= j < |pairs| ==> pairs[j].1 != []
    requires entries !in target.Repr
    requires forall j :: 0 <= j < |pairs| ==> entries[j] !in target.Repr && entries[j].value !in target.Repr
    modifies target.Repr
    ensures target.Valid() && fresh(target.Repr - old(target.Repr)) && r == 0
    ensures crash <==> count > |pairs|
    ensures target.Model() == PutAll(old(target.Model()), pairs[..if crash then |pairs| else count])
  {
    hide Table.Valid, Table.Model;
    r, crash := 0, false;
    var i := 0;
    assert pairs[..0] == [];
    while i < count
      invariant 0 <= i <= count && i <= |pairs| && r == 0 && !crash
      invariant target.Valid() && fresh(target.Repr - old(target.Repr))
      invariant target.Model() == PutAll(old(target.Model()), pairs[..i])
      invariant Sent(entries, pairs)
    {
      if entries[i] == null {
        EndOfEntries(entries, pairs, i);
        return 0, true;
      }
      assert entries[..|pairs|][i] == entries[i];
      r := target.Put(Some(entries[i].key), entries[i].value);
      assert pairs[..i + 1][..i] == pairs[..i];
      i := i + 1;
    }
  }

  lemma EndOfEntries(entries: array<Entry?>, pairs: seq<Pair>, i: nat)
    requires Sent(entries, pairs) && i <= |pairs| && entries[i] == null
    ensures i == |pairs| && pairs[..i] == pairs
  {
    assert forall j :: 0 <= j < |pairs| ==> entries[..|pairs|][j] == entries[j];
  }

  // ----- what lands between the two calls

  /** The requests of other clients at a server without a successor. */
  function Alone(window: seq<Op>): (requests: seq<Request>)
    ensures Fits(requests, 1)
  {
    seq(|window|, i requires 0 <= i < |window| => Request(window[i], []))
  }

  method MessageFor(op: Op) returns (msg: Message)
    ensures fresh(msg) && msg.Request() == Some(op)
  {
    msg := new Message();
    match op {
      case Put(k, v) => msg.opcode, msg.cType, msg.entry := OP_PUT, CT_ENTRY, Some((k, v));
      case Del(k) => msg.opcode, msg.cType, msg.key := OP_DEL, CT_KEY, Some(k);
      case Get(k) => msg.opcode, msg.cType, msg.key := OP_GET, CT_KEY, Some(k);
      case Size => msg.opcode, msg.cType := OP_SIZE, CT_NONE;
    }
  }

  method Land(tail: Server, window: seq<Op>)
    requires tail.Valid() && tail.nextPath == []
    modifies tail.Repr
    ensures tail.Valid() && fresh(tail.Repr - old(tail.Repr))
    ensures |old(tail.replicas)| == 1 && tail.replicas == ServedAll(old(tail.replicas), Alone(window))
  {
    hide Server.Valid, Served, Table.Model, Whole;
    var i := 0;
    assert Alone(window)[..0] == [];
    while i < |window|
      invariant 0 <= i <= |window| && tail.Valid() && fresh(tail.Repr - old(tail.Repr))
      invariant tail.replicas == ServedAll(old(tail.replicas), Alone(window)[..i])
    {
      var msg := MessageFor(window[i]);
      var _, _ := tail.Invoke(msg, []);
      assert Alone(window)[..i + 1][..i] == Alone(window)[..i];
      i := i + 1;
    }
    assert Alone(window)[..i] == Alone(window);
  }

  /** The two calls to the last server, its entries first and its size afterwards, and what other clients do in
      between. Either call may fail. */
  method Fetch(tail: Server, first: seq<Fate>, window: seq<Op>, second: seq<Fate>)
    returns (entries: array?<Entry?>, size: int)
    requires tail.Valid() && tail.nextPath == [] && |first| == |second| == 1
    modifies tail.Repr
    ensures entries != null && size != -1 <==>
              first[0] == Delivered && TableArrives(Flat(old(tail.table.views))) && second[0] == Delivered
    ensures entries != null ==> Sent(entries, Flat(old(tail.table.views))) && fresh(entries)
    ensures entries != null ==> forall j :: 0 <= j < entries.Length - 1 ==> fresh(entries[j]) && fresh(entries[j].value)
    ensures entries != null && size != -1 ==> size == |StoreAfterAll(old(tail.table.Model()), Alone(window))|
  {
    hide Table.Model, Server.Valid, Table.Valid, Flat, Lists, Merged, Placed, Arrived, Served, StoreAfterAll, TableArrives;
    entries := RtableGetTable(tail, first);
    if entries == null { return null, -1; }
    ghost var m, replicas := tail.table.Model(), tail.replicas;
    Land(tail, window);
    ChainServesOneMap(replicas, Alone(window), m);
    size := RtableSize(tail, second);
  }

  /** dup_table_from_server: the table of the last server, entry by entry, into the new server's own table. */
  method DupTable(tail: Server?, target: Table, first: seq<Fate>, window: seq<Op>, second: seq<Fate>)
    returns (r: int, crash: bool)
    requires target.Valid()
    requires tail != null ==> tail.Valid() && tail.nextPath == [] && tail.Repr !! target.Repr && |first| == |second| == 1
    modifies target.Repr, if tail == null then {} else tail.Repr
    ensures target.Valid()
    ensures r == if tail != null && first[0] == Delivered && TableArrives(Flat(old(tail.table.views))) && second[0] == Delivered
                 then 0 else -1
    ensures r == -1 ==> target.Model() == old(target.Model()) && !crash
    ensures r == 0 ==>
              var pairs := Flat(old(tail.table.views));
              var later := StoreAfterAll(old(tail.table.Model()), Alone(window));
              && (crash <==> |later| > |pairs|)
              && (!crash ==> target.Model() == PutAll(old(target.Model()), pairs[..|later|]))
  {
    hide Table.Valid, Table.Model, Server.Valid, Flat, Lists, Merged, Placed, Carries, StoreAfterAll, TableArrives;
    if tail == null { return -1, false; }
    ghost var pairs := Flat(tail.table.views);
    tail.table.Complete();
    var entries, size := Fetch(tail, first, window, second);
    if entries == null || size == -1 { return -1, false; }
    r, crash := Fill(target, entries, size, pairs);
  }

  // ----- what the copy is worth

  /** The table of a joining server that was empty before, or nothing if it breaks down. It stays empty when the
      listing does not arrive whole. */
  function Copied(pairs: seq<Pair>, count: nat): Option<Store> {
    if !TableArrives(pairs) then Some(map[])
    else if count > |pairs| then None
    else Some(PutAll(map[], pairs[..count]))
  }

  /** An empty table arrives; one whose keys and blocks have more than 2048 bytes together does not. */
  lemma WhatArrives(pairs: seq<Pair>)
    ensures pairs == [] ==> TableArrives(pairs)
    ensures Payload(pairs) > Framing.MAX_MSG ==> !TableArrives(pairs)
  {
    hide Whole;
    var c := TableResponse(Bare(OP_GETTABLE, CT_NONE), pairs);
    if pairs == [] { ShortMessage(c); }
    LongListing(c);
  }

  /** The keys that come late in the listing. */
  function KeysFrom(pairs: seq<Pair>, count: nat): set<CString> {
    set i | count <= i < |pairs| :: pairs[i].0
  }

  /** A copy that is cut short lacks the keys that were listed last, and nothing else. */
  lemma CutShort(views: seq<seq<Pair>>, count: nat)
    requires Placed(views) && count <= |Flat(views)|
    ensures PutAll(map[], Flat(views)[..count]) == Merged(views) - KeysFrom(Flat(views), count)
  {
    hide Flat, Merged, Placed;
    var pairs, m := Flat(views), Merged(views);
    FlatIsComplete(views);
    var j := PutAll(map[], pairs[..count]);
    PutAllDomain(pairs[..count], m);
    forall k: CString ensures k in j <==> k in m && k !in KeysFrom(pairs, count) {
      if k in j {
        var x :| 0 <= x < |pairs[..count]| && pairs[..count][x].0 == k;
        if k in KeysFrom(pairs, count) {
          var y :| count <= y < |pairs| && pairs[y].0 == k;
          ListedOnce(pairs, m, x, y);
        }
      }
      if k in m && k !in KeysFrom(pairs, count) {
        var x :| 0 <= x < |pairs| && pairs[x].0 == k;
        assert x < count && pairs[..count][x].0 == k;
      }
    }
  }

  lemma NothingCut(pairs: seq<Pair>, m: Store)
    ensures m - KeysFrom(pairs, |pairs|) == m
  {
  }

  /** The copy is the table that was sent exactly when the listing arrived whole and the size is the number of entries
      sent. */
  lemma {:induction false} CopyNeedsBothCalls(views: seq<seq<Pair>>, count: nat)
    requires Placed(views)
    ensures Copied(Flat(views), count) == Some(Merged(views)) <==> TableArrives(Flat(views)) && count == |Flat(views)|
  {
    hide Flat, Merged, Placed, PutAll, TableArrives;
    WhatArrives(Flat(views));
    var pairs, m := Flat(views), Merged(views);
    FlatIsComplete(views);
    if count <= |pairs| {
      CutShort(views, count);
      if count < |pairs| {
        assert pairs[count].0 in KeysFrom(pairs, count) && pairs[count].0 in m;
      } else {
        NothingCut(pairs, m);
      }
    }
  }

  /** The joining server and the tail after the operations that landed between the two calls. If the listing does
      not arrive whole, as when it has more than 2048 bytes, the joining server has nothing. Otherwise it breaks down
      exactly when the tail has more keys than before. With as many keys it agrees with the tail exactly when the
      tail's table is the one that was sent: an overwritten value makes the copy stale. With fewer keys, exactly
      when the tail has lost the keys that were listed last and nothing else has changed. */
  lemma {:induction false} JoinerAgrees(views: seq<seq<Pair>>, window: seq<Op>)
    requires Placed(views)
    ensures var m, later, pairs := Merged(views), StoreAfterAll(Merged(views), Alone(window)), Flat(views);
            var copy := Copied(pairs, |later|);
            && (Payload(pairs) > Framing.MAX_MSG ==> !TableArrives(pairs))
            && (!TableArrives(pairs) ==> copy == Some(map[]) != Some(m))
            && (TableArrives(pairs) ==>
                  && (copy == None <==> |later| > |m|)
                  && (|later| == |m| ==> (copy == Some(later) <==> later == m))
                  && (|later| < |m| ==> (copy == Some(later) <==> later == m - KeysFrom(pairs, |later|))))
  {
    hide Flat, Merged, Placed, PutAll, StoreAfterAll, KeysFrom, Alone, Lists, TableArrives;
    var later, pairs := StoreAfterAll(Merged(views), Alone(window)), Flat(views);
    FlatIsComplete(views);
    WhatArrives(pairs);
    if |later| <= |pairs| {
      CutShort(views, |later|);
      NothingCut(pairs, Merged(views));
    }
  }

  /** Reads and refused puts in between do no harm. */
  lemma {:induction false} QuietWindow(m: Store, window: seq<Op>)
    requires forall i :: 0 <= i < |window| ==> !IsUpdate(window[i]) || !Accepted(window[i])
    ensures StoreAfterAll(m, Alone(window)) == m
  {
    if window != [] {
      var init := window[..|window| - 1];
      QuietWindow(m, init);
      assert Alone(window)[..|window| - 1] == Alone(init);
    }
  }

  /** Three things that may happen to a table with one entry that arrives: a new key, and the joining server breaks
      down; the key is overwritten, and the copy is stale; the key is deleted, and the copy is right all the same. With
      a larger entry there is no copy, even if nothing happens. */
  lemma WindowsThatMatter(k: CString, l: CString, v: Block, w: Block)
    requires k != l && v != w && v != [] && w != []
    ensures var m: Store, pairs := map[k := v], [(k, v)];
            && StoreAfterAll(m, Alone([Put(k, w)])) == map[k := w] && StoreAfterAll(m, Alone([Del(k)])) == map[]
            && (|k| + |v| <= 2035 ==>
                  && Copied(pairs, |StoreAfterAll(m, Alone([Put(l, v)]))|) == None
                  && Copied(pairs, 1) == Some(m) && Copied(pairs, 0) == Some(map[]))
            && (|k| + |v| > 2048 ==> Copied(pairs, 1) == Some(map[]))
  {
    hide Whole, Packed;
    var m: Store, pairs := map[k := v], [(k, v)];
    OneListed(TableResponse(Bare(OP_GETTABLE, CT_NONE), pairs));
    forall op: Op ensures StoreAfterAll(m, Alone([op])) == After(op, m) {
      assert Alone([op])[..0] == [];
    }
    assert map[k := v][l := v].Keys == {k, l};
    assert |map[k := v][l := v]| == |map[k := v][l := v].Keys|;
    assert pairs[..1] == pairs && pairs[..0] == [];
    assert PutAll(map[], pairs[..0]) == map[];
    assert m - {k} == map[];
  }
}
