/** The server skeleton and the client stub: the table operations as messages, and as remote calls along a
    chain of servers. The two call each other, since a server that updates its table becomes a client of its
    successor. */
module Skeleton {
  import opened Bytes
  import opened KvSpec
  import opened SortedPairs
  import opened SortedList
  import opened Buckets
  import opened HashTable
  import opened Replication
  import opened Packing

  const OP_BAD := 0
  const OP_PUT := 10
  const OP_GET := 20
  const OP_DEL := 30
  const OP_SIZE := 40
  const OP_GETKEYS := 50
  const OP_GETTABLE := 60
  const OP_STATS := 70
  const OP_ERROR := 99

  const CT_BAD := 0
  const CT_ENTRY := 10
  const CT_KEY := 20
  const CT_VALUE := 30
  const CT_RESULT := 40
  const CT_KEYS := 50
  const CT_TABLE := 60
  const CT_NONE := 70
  const CT_STATS := 80

  /** A message; the same object carries the request in and the response out. A value without bytes is the
      null pointer. */
  class Message {
    var opcode: int
    var cType: int
    var entry: Option<Pair>
    var key: Option<CString>
    var value: Block
    var result: int
    var keys: seq<CString>
    var entries: seq<Pair>
    var stats: Option<Statistics>

    constructor ()
      ensures opcode == OP_BAD && cType == CT_BAD && entry == None && key == Some([])
      ensures value == [] && result == 0 && keys == [] && entries == [] && stats == None
    {
      opcode, cType, entry, key, value := OP_BAD, CT_BAD, None, Some([]), [];
      result, keys, entries, stats := 0, [], [], None;
    }

    function Fields(): Packet
      reads this
    {
      Packet(opcode, cType, entry, key, value, result, keys, entries, stats)
    }

    /** What arrives at the other end of a connection: nothing, if the message is longer than one chunk. */
    method Transmit() returns (copy: Message?)
      ensures copy != null <==> Whole(Fields())
      ensures copy != null ==> fresh(copy) && copy.Fields() == Fields()
    {
      hide Packed, Framing.LastChunk;
      if Framing.LastChunk(Packed(Fields())) != Packed(Fields()) { return null; }
      copy := new Message();
      copy.opcode, copy.cType, copy.entry, copy.key := opcode, cType, entry, key;
      copy.value, copy.result, copy.keys, copy.entries, copy.stats := value, result, keys, entries, stats;
    }

    ghost function Request(): Option<Op>
      reads this
    {
      Asked(Fields())
    }

    predicate ExecError()
      reads this
    {
      opcode == OP_ERROR && cType == CT_NONE
    }

    method RespondBadOp()
      modifies this`opcode, this`cType
      ensures opcode == OP_BAD && cType == CT_BAD
    {
      opcode, cType := OP_BAD, CT_BAD;
    }
  }

  /** The operation of the store that a message asks for. */
  function Asked(c: Packet): Option<Op> {
    if c.opcode == OP_PUT && c.entry.Some? then Some(Put(c.entry.value.0, c.entry.value.1))
    else if c.opcode == OP_DEL && c.key.Some? then Some(Del(c.key.value))
    else if c.opcode == OP_GET && c.key.Some? then Some(Get(c.key.value))
    else if c.opcode == OP_SIZE then Some(Size)
    else None
  }

  /** The message that brings the answer of the store, before its opcode is advanced. */
  function Answering(c: Packet, answer: Answer): (r: Packet)
    ensures answer != Failed ==> r.opcode == c.opcode
  {
    match answer
    case Done => c.(cType := CT_NONE)
    case Missing => c.(cType := CT_BAD)
    case Found(v) => c.(cType := CT_VALUE, value := v)
    case Absent => c.(value := [])
    case Count(n) => c.(cType := CT_RESULT, result := n)
    case Failed => c.(opcode := OP_BAD, cType := CT_BAD)
  }

  function Response(c: Packet, answer: Answer): Packet {
    if answer == Failed then Answering(c, answer) else Answering(c, answer).(opcode := c.opcode + 1)
  }

  function KeysResponse(c: Packet, pairs: seq<Pair>): Packet {
    c.(opcode := OP_GETKEYS + 1, cType := CT_KEYS, keys := Keys(pairs))
  }

  function TableResponse(c: Packet, pairs: seq<Pair>): Packet {
    c.(opcode := OP_GETTABLE + 1, cType := CT_TABLE, entries := pairs)
  }

  function StatsResponse(c: Packet, stats: Statistics): Packet {
    c.(opcode := OP_STATS + 1, cType := CT_STATS, stats := Some(stats))
  }

  /** The answers, spelled out: what invoke returns, and what is in the response to a message with that request. */
  lemma WhatAnswersSay(c: Packet, op: Op, m: Store)
    requires Asked(c) == Some(op)
    ensures var code, r := Code(Reply(op, m)), Response(c, Reply(op, m));
            match op
            case Put(k, v) =>
              if v == [] then code == -1 && r.opcode == 0 && r.cType == 0
              else code == 0 && r.opcode == 11 && r.cType == 70
            case Del(k) =>
              code == (if k in m then 0 else 1) && r.opcode == 31 && r.cType == if k in m then 70 else 0
            case Get(k) =>
              code == 0 && r.opcode == 21 && if k in m then r.cType == 30 && r.value == m[k] else r.value == []
            case Size =>
              code == |m| && r.opcode == 41 && r.cType == 40 && r.result == |m|
    ensures var r := Response(c, Reply(op, m));
            r.(opcode := c.opcode, cType := c.cType, value := c.value, result := c.result) == c
  {
  }

  /** The codes of the other answers. */
  lemma WhatListingsSay(c: Packet, pairs: seq<Pair>, stats: Statistics)
    ensures KeysResponse(c, pairs) == c.(opcode := 51, cType := 50, keys := Keys(pairs))
    ensures TableResponse(c, pairs) == c.(opcode := 61, cType := 60, entries := pairs)
    ensures StatsResponse(c, stats) == c.(opcode := 71, cType := 80, stats := Some(stats))
  {
  }

  /** A request without arguments. */
  function Bare(opcode: int, cType: int): Packet {
    Packet(opcode, cType, None, Some([]), [], 0, [], [], None)
  }

  /** The request that the stub sends for an operation. */
  function RequestFor(op: Op): Packet {
    match op
    case Put(k, v) => Bare(OP_PUT, CT_ENTRY).(entry := Some((k, v)))
    case Del(k) => Bare(OP_DEL, CT_KEY).(key := Some(k))
    case Get(k) => Bare(OP_GET, CT_KEY).(key := Some(k))
    case Size => Bare(OP_SIZE, CT_NONE)
  }

  /** The requests on the wire, as long as they are not huge. */
  lemma RequestBytes(op: Op)
    requires op != Size ==> |op.key| <= 8000
    requires op.Put? ==> |op.value| <= 8000
    ensures Packed(RequestFor(op)) ==
            match op
            case Put(k, v) => var e := PackedEntry((k, v)); [8, 10, 16, 10, 26] + Length(|e|) + e
            case Del(k) => [8, 30, 16, 20] + if k == [] then [] else [34] + Length(|k|) + k
            case Get(k) => [8, 20, 16, 20] + if k == [] then [] else [34] + Length(|k|) + k
            case Size => [8, 40, 16, 70]
  {
    hide Packed, PackedEntry, Length;
    SingleBytes(RequestFor(op));
  }

  /** Both messages of the call arrive whole. */
  predicate Exchanged(op: Op, m: Store) {
    Whole(RequestFor(op)) && Whole(Response(RequestFor(op), Reply(op, m)))
  }

  /** The listing of a table arrives whole. */
  predicate TableArrives(pairs: seq<Pair>) {
    Whole(TableResponse(Bare(OP_GETTABLE, CT_NONE), pairs))
  }

  /** What becomes of the calls from server to server: a request longer than one chunk does not get through. */
  function Carried(fates: seq<Fate>, op: Op): (carried: seq<Fate>)
    ensures |carried| == |fates|
  {
    if Whole(RequestFor(op)) then fates else seq(|fates|, i => RequestLost)
  }

  /** The answers to updates and to size are short if the requests were. */
  lemma ShortAnswers(op: Op, m: Store)
    requires !op.Get?
    ensures Reply(op, m) != Failed ==> (Exchanged(op, m) <==> Whole(RequestFor(op)))
    ensures op == Size ==> Whole(RequestFor(op))
  {
    hide Whole;
    var c := RequestFor(op);
    if op == Size {
      ShortMessage(c);
      ShortMessage(Response(c, Reply(op, m)));
    } else {
      OtherCodes(c, c.opcode + 1, CT_NONE);
      OtherCodes(c, c.opcode + 1, CT_BAD);
    }
  }

  /** What invoke returns. */
  function Code(answer: Answer): int {
    match answer
    case Done => 0
    case Missing => 1
    case Found(_) => 0
    case Absent => 0
    case Count(n) => n
    case Failed => -1
  }

  /** A server process: its table, its statistics, and the path and the handle of its successor. The path is
      empty at the tail. It may be set without a handle, when the connection could not be made. */
  class Server {
    const table: Table
    const nextPath: CString
    const next: Server?
    var operations: int
    var clients: int
    var totalTime: int
    ghost var replicas: seq<Replica>  // this server and those behind it, first to last
    ghost var Repr: set<object>

    constructor (table: Table, nextPath: CString, next: Server?)
      requires table.Valid() && (next != null ==> nextPath != [] && next.Valid() && next.Repr !! table.Repr)
      ensures Valid() && this.table == table && this.nextPath == nextPath && this.next == next
      ensures replicas == [Replica(table.Model(), 0)] + (if next == null then [] else next.replicas)
      ensures Repr == {this} + table.Repr + (if next == null then {} else next.Repr)
    {
      this.table, this.nextPath, this.next := table, nextPath, next;
      operations, clients, totalTime := 0, 0, 0;
      replicas := [Replica(table.Model(), 0)] + if next == null then [] else next.replicas;
      Repr := {this} + table.Repr + if next == null then {} else next.Repr;
    }

    /** A path without a handle: a put that is forwarded fails, a del reaches through the null pointer. */
    predicate Dangling() {
      nextPath != [] && next == null
    }

    ghost predicate Valid()
      reads this, Repr
      ensures Valid() ==> this in Repr && |replicas| > 0 && replicas[0] == Replica(table.Model(), operations)
      ensures Valid() ==> table.Valid() && table in Repr && table.Repr <= Repr && (next == null <==> |replicas| == 1)
      ensures Valid() && nextPath == [] ==> next == null
      ensures Valid() && next != null ==> next in Repr && next.Repr <= Repr
      decreases Repr
    {
      && this in Repr && table in Repr && table.Repr <= Repr && this !in table.Repr && table.Valid()
      && |replicas| > 0 && replicas[0] == Replica(table.Model(), operations) && (nextPath == [] ==> next == null)
      && if next == null then |replicas| == 1
         else
           && next in Repr && next.Repr <= Repr && this !in next.Repr && table.Repr !! next.Repr
           && next.replicas == replicas[1..] && next.Valid()
    }

    lemma BlocksAreNotEmpty(key: CString)
      requires Valid()
      ensures key in table.Model() ==> table.Model()[key] != []
    {
      MergedAt(table.views, key);
    }

    /** increase_time: whatever the clock says. */
    method TakeTime()
      modifies this`totalTime
    {
      var elapsed: int := *;
      totalTime := totalTime + elapsed;
    }

    /** change_client_num. */
    method ChangeClientNum(value: int)
      requires Valid()
      modifies this`clients
      ensures Valid() && clients == old(clients) + value
    {
      clients := clients + value;
    }

    /** Nothing but the counters of this server has changed. */
    method Counted()
      requires Valid()
      modifies this
      ensures Valid() && Repr == old(Repr) && replicas == Read(old(replicas)) && clients == old(clients)
    {
      hide Table.Valid;
      TakeTime();
      operations := operations + 1;
      replicas := replicas[0 := Replica(table.Model(), operations)];
      assert replicas[1..] == old(replicas)[1..];
    }

    /** Brings the ghost state up to date after this server's own table has changed. */
    ghost method Settle()
      requires this in Repr && table in Repr && this !in table.Repr && table.Valid() && |replicas| > 0
      requires next != null ==>
                 next in Repr && next.Valid() && this !in next.Repr && table.Repr !! next.Repr
      requires (next == null ==> |replicas| == 1) && (nextPath == [] ==> next == null)
      modifies this`replicas, this`Repr
      ensures Valid() && Repr == old(Repr) + table.Repr + (if next == null then {} else next.Repr)
      ensures replicas == [Replica(table.Model(), operations)] + (if next == null then [] else next.replicas)
    {
      hide Table.Valid;
      Repr := Repr + table.Repr + if next == null then {} else next.Repr;
      replicas := [Replica(table.Model(), operations)] + if next == null then [] else next.replicas;
    }

    /** The local half of a put. */
    method StorePut(key: CString, value: Data) returns (res: int)
      requires Valid() && value.bytes != []
      modifies this, table.Repr
      ensures Valid() && fresh(Repr - old(Repr)) && clients == old(clients) && res == 0
      ensures replicas == old(replicas)[0 := Step(old(replicas)[0], Put(key, old(value.bytes)))]
    {
      hide Table.Valid, Table.Model, OnlyBucket;
      operations := operations + 1;
      TakeTime();
      res := table.Put(Some(key), value);
      Settle();
      assert replicas[1..] == old(replicas)[1..];
    }

    /** The remote half of a put: the reply of the successor is ignored. */
    method ForwardPut(entry: Entry, fates: seq<Fate>)
      requires Valid() && |fates| == |replicas| - 1
      modifies this, if next == null then {} else next.Repr
      ensures Valid() && fresh(Repr - old(Repr)) && clients == old(clients)
      ensures next == null ==> replicas == old(replicas)
      ensures next != null ==>
                var op := Put(old(entry.key), old(entry.value.bytes));
                replicas == [old(replicas)[0]] + Arrived(old(replicas)[1..], Carried(fates, op), op)
      decreases |replicas|, 0
    {
      hide Table.Valid, Arrived;
      var _ := RtablePut(next, entry, fates);
      Settle();
    }

    /** A message without an entry breaks the process down: its entry is a null pointer. */
    method InvokePut(msg: Message, fates: seq<Fate>) returns (res: int, crash: bool)
      requires Valid() && msg !in Repr && |fates| == |replicas| - 1
      modifies Repr, msg
      ensures Valid() && fresh(Repr - old(Repr)) && clients == old(clients) && (crash <==> old(msg.entry) == None)
      ensures crash ==> res == -1 && replicas == old(replicas) && Repr == old(Repr)
      ensures !crash ==>
                var op := Put(old(msg.entry).value.0, old(msg.entry).value.1);
                && msg.Fields() == Answering(old(msg.Fields()), Reply(op, old(table.Model())))
                && res == Code(Reply(op, old(table.Model())))
                && replicas == Served(old(replicas), Carried(fates, op), op)
      ensures !crash ==>
                var k, v := old(msg.entry).value.0, old(msg.entry).value.1;
                if v == [] then res == -1 && msg.opcode == OP_BAD && replicas == old(replicas)
                else res == 0 && msg.cType == CT_NONE && table.Model() == old(table.Model())[k := v] && operations == old(operations) + 1
      decreases |replicas|, 2
    {
      hide Server.Valid, Arrived, Table.Model, Merged, Carried;
      if msg.entry == None { return -1, true; }
      crash := false;
      var k, v := msg.entry.value.0, msg.entry.value.1;
      if v == [] {
        msg.RespondBadOp();
        res := -1;
      } else {
        var dupValue := new Data(v);
        var dupEntry := new Entry(k, dupValue);
        res := StorePut(k, dupValue);
        if nextPath != [] {
          ForwardPut(dupEntry, fates);
        }
        msg.cType := CT_NONE;
      }
    }

    /** The local half of a del. */
    method DropKey(key: CString) returns (res: int)
      requires Valid()
      modifies this, table.Repr
      ensures Valid() && fresh(Repr - old(Repr)) && clients == old(clients)
      ensures res == if key in old(table.Model()) then 0 else 1
      ensures replicas == old(replicas)[0 := Step(old(replicas)[0], Del(key))]
    {
      hide Table.Valid, Table.Model, OnlyBucket;
      operations := operations + 1;
      TakeTime();
      res := table.Remove(Some(key));
      Settle();
      assert replicas[1..] == old(replicas)[1..];
    }

    /** The remote half of a del; without a handle the process ends here. */
    method ForwardDel(key: CString, fates: seq<Fate>) returns (crash: bool)
      requires Valid() && |fates| == |replicas| - 1
      modifies this, if next == null then {} else next.Repr
      ensures Valid() && fresh(Repr - old(Repr)) && clients == old(clients) && (crash <==> next == null)
      ensures next == null ==> replicas == old(replicas)
      ensures next != null ==> replicas == [old(replicas)[0]] + Arrived(old(replicas)[1..], Carried(fates, Del(key)), Del(key))
      decreases |replicas|, 0
    {
      hide Table.Valid, Arrived;
      var ignored;
      ignored, crash := RtableDel(next, key, fates);
      Settle();
    }

    method InvokeDel(msg: Message, fates: seq<Fate>) returns (res: int, crash: bool)
      requires Valid() && msg !in Repr && msg.key.Some? && |fates| == |replicas| - 1
      modifies Repr, msg
      ensures Valid() && fresh(Repr - old(Repr)) && clients == old(clients) && (crash <==> Dangling())
      ensures var op := Del(old(msg.key).value);
              && (!crash ==> msg.Fields() == Answering(old(msg.Fields()), Reply(op, old(table.Model()))))
              && res == Code(Reply(op, old(table.Model())))
              && replicas == Served(old(replicas), Carried(fates, op), op)
      ensures var key := old(msg.key).value;
              && res == (if key in old(table.Model()) then 0 else 1)
              && (!crash ==> msg.cType == if key in old(table.Model()) then CT_NONE else CT_BAD)
              && table.Model() == old(table.Model()) - {key} && operations == old(operations) + 1
      decreases |replicas|, 2
    {
      hide Server.Valid, Arrived, Table.Model, Merged;
      var key := msg.key.value;
      res := DropKey(key);
      crash := false;
      if nextPath != [] {
        crash := ForwardDel(key, fates);
        if crash { return; }
      }
      msg.cType := if res == 0 then CT_NONE else CT_BAD;
    }

    method InvokeGet(msg: Message) returns (res: int)
      requires Valid() && msg !in Repr && msg.key.Some?
      modifies this, msg
      ensures Valid() && Repr == old(Repr) && replicas == Read(old(replicas)) && clients == old(clients)
      ensures var op := Get(old(msg.key).value);
              && msg.Fields() == Answering(old(msg.Fields()), Reply(op, old(table.Model()))) && res == Code(Reply(op, old(table.Model())))
      ensures table.Model() == old(table.Model()) && res == 0
      ensures var k := old(msg.key).value;
              if k in table.Model() then msg.value == table.Model()[k] && msg.cType == CT_VALUE else msg.value == []
    {
      hide Table.Valid;
      Counted();
      var gotten := table.Get(msg.key);
      if gotten != null {
        msg.value := gotten.bytes;
        msg.cType := CT_VALUE;
      } else {
        msg.value := [];
      }
      res := 0;
    }

    method InvokeSize(msg: Message) returns (res: int)
      requires Valid() && msg !in Repr
      modifies this, msg
      ensures Valid() && Repr == old(Repr) && replicas == Read(old(replicas)) && clients == old(clients)
      ensures msg.Fields() == Answering(old(msg.Fields()), Reply(Size, old(table.Model()))) && res == Code(Reply(Size, old(table.Model())))
      ensures table.Model() == old(table.Model()) && res == msg.result == |table.Model()| && msg.cType == CT_RESULT
    {
      hide Table.Valid;
      Counted();
      res := table.Size();
      msg.result := res;
      msg.cType := CT_RESULT;
    }

    method InvokeGetKeys(msg: Message) returns (res: int)
      requires Valid() && msg !in Repr
      modifies this, msg
      ensures Valid() && Repr == old(Repr) && replicas == Read(old(replicas)) && clients == old(clients)
      ensures res == 0 && msg.Fields() == old(msg.Fields()).(cType := CT_KEYS, keys := Keys(Flat(table.views)))
    {
      hide Table.Valid, Placed, Merged, Flat;
      Counted();
      var keys := table.GetKeys();
      var n := table.Size();
      msg.keys := Strings(keys, n);
      msg.cType := CT_KEYS;
      res := 0;
    }

    method InvokeGetTable(msg: Message) returns (res: int)
      requires Valid() && msg !in Repr
      modifies this, msg
      ensures Valid() && Repr == old(Repr) && replicas == Read(old(replicas)) && clients == old(clients)
      ensures res == 0 && msg.Fields() == old(msg.Fields()).(cType := CT_TABLE, entries := Flat(table.views))
    {
      hide Table.Valid, Placed, Merged, Flat, Lists, Carries;
      Counted();
      table.Complete();
      var size := table.Size();
      var oldEntries := table.GetEntries();
      var entries := PairsOf(oldEntries, size, Flat(table.views));
      msg.entries := entries;
      msg.cType := CT_TABLE;
      res := 0;
    }

    /** The statistics are read without counting the request itself. */
    method InvokeStats(msg: Message) returns (res: int)
      requires Valid() && msg !in Repr
      modifies msg
      ensures res == 0
      ensures msg.Fields() == old(msg.Fields()).(cType := CT_STATS, stats := Some(Statistics(clients, operations, totalTime)))
    {
      msg.stats := Some(Statistics(clients, operations, totalTime));
      msg.cType := CT_STATS;
      res := 0;
    }

    /** The part of invoke that executes an operation of the store. */
    method Execute(msg: Message, fates: seq<Fate>, ghost op: Op) returns (res: int, crash: bool)
      requires Valid() && msg !in Repr && msg.Request() == Some(op) && |fates| == |replicas| - 1
      modifies Repr, msg
      ensures Valid() && fresh(Repr - old(Repr)) && clients == old(clients) && (!IsUpdate(op) ==> Repr == old(Repr))
      ensures crash <==> op.Del? && Dangling()
      ensures !crash ==> msg.Fields() == Answering(old(msg.Fields()), Reply(op, old(table.Model())))
      ensures res == Code(Reply(op, old(table.Model())))
      ensures op.Del? ==>
                var found := op.key in old(table.Model());
                res == (if found then 0 else 1) && (!crash ==> msg.cType == if found then CT_NONE else CT_BAD)
      ensures replicas == Served(old(replicas), Carried(fates, op), op)
      decreases |replicas|, 3
    {
      hide Server.Valid, Arrived, Merged, Flat, Keys, Table.Model, Carried;
      crash := false;
      if msg.opcode == OP_PUT {
        res, crash := InvokePut(msg, fates);
      } else if msg.opcode == OP_GET {
        res := InvokeGet(msg);
      } else if msg.opcode == OP_DEL {
        res, crash := InvokeDel(msg, fates);
      } else {
        res := InvokeSize(msg);
      }
    }

    /** invoke: executes the request on the table and turns the message into the response. */
    method Invoke(msg: Message, fates: seq<Fate>) returns (res: int, crash: bool)
      requires Valid() && msg !in Repr && |fates| == |replicas| - 1
      modifies Repr, msg
      ensures Valid() && fresh(Repr - old(Repr)) && clients == old(clients)
      ensures crash <==> (old(msg.opcode) == OP_PUT && old(msg.entry) == None)
                         || (old(msg.Request()).Some? && old(msg.Request()).value.Del? && Dangling())
      ensures var request := old(msg.Request());
              request.Some? ==>
                && (!crash ==> msg.Fields() == Response(old(msg.Fields()), Reply(request.value, old(table.Model()))))
                && res == Code(Reply(request.value, old(table.Model())))
                && replicas == Served(old(replicas), Carried(fates, request.value), request.value)
      ensures old(msg.opcode) == OP_DEL && old(msg.key).Some? ==>
                var found := old(msg.key).value in old(table.Model());
                res == (if found then 0 else 1) && (!crash ==> msg.cType == if found then CT_NONE else CT_BAD)
      ensures old(msg.opcode) == OP_GETKEYS ==>
                && res == 0 && replicas == Read(old(replicas))
                && msg.Fields() == KeysResponse(old(msg.Fields()), Flat(old(table.views)))
      ensures old(msg.opcode) !in {OP_PUT, OP_DEL} ==> Repr == old(Repr)
      ensures old(msg.opcode) == OP_GETTABLE ==>
                && res == 0 && replicas == Read(old(replicas))
                && msg.Fields() == TableResponse(old(msg.Fields()), Flat(old(table.views)))
      ensures old(msg.opcode) == OP_STATS ==>
                && res == 0 && replicas == old(replicas)
                && msg.Fields() == StatsResponse(old(msg.Fields()), Statistics(old(clients), old(operations), old(totalTime)))
      ensures old(msg.Request()) == None && old(msg.opcode) !in {OP_GETKEYS, OP_GETTABLE, OP_STATS} ==>
                res == -1 && replicas == old(replicas)
      ensures old(msg.opcode) in {OP_GET, OP_DEL} && old(msg.key) == None ==> msg.opcode == OP_BAD && msg.cType == CT_BAD
      decreases |replicas|, 4
    {
      hide Server.Valid, Arrived, Merged, Flat, Keys, Table.Model, Carried, Served, Answering;
      res, crash := -1, false;
      if msg.opcode == OP_PUT && msg.entry == None {
        res, crash := InvokePut(msg, fates);
      } else if msg.opcode in {OP_PUT, OP_SIZE} || (msg.opcode in {OP_GET, OP_DEL} && msg.key != None) {
        res, crash := Execute(msg, fates, msg.Request().value);
      } else if msg.opcode in {OP_GET, OP_DEL} {
        msg.RespondBadOp();
      } else if msg.opcode == OP_GETKEYS {
        res := InvokeGetKeys(msg);
      } else if msg.opcode == OP_GETTABLE {
        res := InvokeGetTable(msg);
      } else if msg.opcode == OP_STATS {
        res := InvokeStats(msg);
      }
      if res >= 0 && !crash {
        msg.opcode := msg.opcode + 1;
      }
    }
  }

  /** The entries that an array of pointers points to. */
  method PairsOf(entries: array<Entry?>, n: nat, ghost pairs: seq<Pair>) returns (s: seq<Pair>)
    requires n == |pairs| < entries.Length && Carries(entries[..n], pairs)
    ensures s == pairs
  {
    s := [];
    var i := 0;
    while i < n
      invariant 0 <= i <= n && s == pairs[..i]
    {
      assert entries[..n][i] == entries[i];
      s := s + [(entries[i].key, entries[i].value.bytes)];
      i := i + 1;
    }
  }

  /** The strings that an array of pointers points to. */
  method Strings(keys: array<Option<CString>>, n: nat) returns (s: seq<CString>)
    requires n <= keys.Length && forall i :: 0 <= i < n ==> keys[i].Some?
    ensures |s| == n && forall i :: 0 <= i < n ==> keys[i] == Some(s[i])
  {
    s := [];
    var i := 0;
    while i < n
      invariant 0 <= i <= n && |s| == i && forall j :: 0 <= j < i ==> keys[j] == Some(s[j])
    {
      s := s + [keys[i].value];
      i := i + 1;
    }
  }

  /** One remote call: the request travels, the server executes it and answers unless it failed or broke down, the
      response travels back. Null when the connection breaks at any point, or a message is longer than one chunk. */
  method NetworkSendReceive(server: Server, msg: Message, fates: seq<Fate>) returns (response: Message?)
    requires server.Valid() && msg !in server.Repr && |fates| == |server.replicas|
    modifies server.Repr
    ensures server.Valid() && fresh(server.Repr - old(server.Repr))
    ensures response != null ==> fates[0] == Delivered && fresh(response)
    ensures old(msg.opcode) !in {OP_PUT, OP_DEL} ==> server.Repr == old(server.Repr)
    ensures !Whole(old(msg.Fields())) ==> response == null && server.replicas == old(server.replicas)
    ensures var request, c := old(msg.Request()), old(msg.Fields());
            request.Some? && Whole(c) ==>
              var op, answer := request.value, Reply(request.value, old(server.table.Model()));
              && server.replicas == Arrived(old(server.replicas), [fates[0]] + Carried(fates[1..], op), op)
              && (response != null <==> fates[0] == Delivered && answer != Failed && !(op.Del? && server.Dangling())
                                        && Whole(Response(c, answer)))
              && (response != null ==> response.Fields() == Response(c, answer))
    ensures var c := old(msg.Fields());
            c.opcode in {OP_GETKEYS, OP_GETTABLE} && Whole(c) ==>
              var r := if c.opcode == OP_GETKEYS then KeysResponse(c, Flat(old(server.table.views)))
                       else TableResponse(c, Flat(old(server.table.views)));
              && server.replicas == (if fates[0] == RequestLost then old(server.replicas) else Read(old(server.replicas)))
              && (response != null <==> fates[0] == Delivered && Whole(r))
              && (response != null ==> response.Fields() == r)
    ensures var c := old(msg.Fields());
            c.opcode == OP_STATS && Whole(c) ==>
              var r := StatsResponse(c, Statistics(old(server.clients), old(server.operations), old(server.totalTime)));
              && server.replicas == old(server.replicas)
              && (response != null <==> fates[0] == Delivered && Whole(r))
              && (response != null ==> response.Fields() == r)
    decreases |server.replicas|, 5
  {
    hide Server.Valid, Served, Flat, Keys, Table.Model, Merged, Whole, Carried;
    if fates[0] == RequestLost { return null; }
    var received := msg.Transmit();
    if received == null { return null; }
    var res, crash := server.Invoke(received, fates[1..]);
    if res < 0 || crash || fates[0] == ReplyLost { return null; }
    response := received.Transmit();
  }

  /** The request that the stub sends goes from server to server as it is. */
  lemma CarriedOn(replicas: seq<Replica>, fates: seq<Fate>, op: Op)
    requires |replicas| == |fates| > 0
    ensures Whole(RequestFor(op)) ==> Carried(fates, op) == fates == [fates[0]] + Carried(fates[1..], op)
    ensures !Whole(RequestFor(op)) ==> Arrived(replicas, Carried(fates, op), op) == replicas
  {
    hide Whole;
  }

  method RtablePut(server: Server?, entry: Entry, fates: seq<Fate>) returns (r: int)
    requires server != null ==> server.Valid() && |fates| == |server.replicas|
    modifies if server == null then {} else server.Repr
    ensures server == null ==> r == -1
    ensures server != null ==>
              var op := Put(old(entry.key), old(entry.value.bytes));
              && server.Valid() && fresh(server.Repr - old(server.Repr))
              && server.replicas == Arrived(old(server.replicas), Carried(fates, op), op)
              && r == if fates[0] == Delivered && Accepted(op) && Whole(RequestFor(op)) then 0 else -1
    decreases if server == null then 0 else |server.replicas|, 6
  {
    hide Server.Valid, Arrived, Whole, Carried, Table.Model;
    if server == null { return -1; }
    ghost var op := Put(entry.key, entry.value.bytes);
    ShortAnswers(op, server.table.Model());
    CarriedOn(server.replicas, fates, op);
    var msg := new Message();
    msg.entry := Some((entry.key, entry.value.bytes));
    msg.opcode, msg.cType := OP_PUT, CT_ENTRY;
    var res := NetworkSendReceive(server, msg, fates);
    if res == null || res.opcode == OP_BAD || res.ExecError() { return -1; }
    r := 0;
  }

  /** rtable_del does not look whether there is a handle. */
  method RtableDel(server: Server?, key: CString, fates: seq<Fate>) returns (r: int, crash: bool)
    requires server != null ==> server.Valid() && |fates| == |server.replicas|
    modifies if server == null then {} else server.Repr
    ensures crash <==> server == null
    ensures server != null ==>
              && server.Valid() && fresh(server.Repr - old(server.Repr))
              && server.replicas == Arrived(old(server.replicas), Carried(fates, Del(key)), Del(key))
              && r == if fates[0] == Delivered && key in old(server.table.Model()) && !server.Dangling()
                         && Whole(RequestFor(Del(key))) then 0 else -1
    decreases if server == null then 0 else |server.replicas|, 6
  {
    hide Server.Valid, Arrived, Whole, Carried, Table.Model;
    if server == null { return -1, true; }
    crash := false;
    ShortAnswers(Del(key), server.table.Model());
    CarriedOn(server.replicas, fates, Del(key));
    var msg := new Message();
    msg.opcode, msg.cType, msg.key := OP_DEL, CT_KEY, Some(key);
    var res := NetworkSendReceive(server, msg, fates);
    if res == null || res.opcode == OP_BAD || res.ExecError() { return -1, false; }
    r := if res.cType == CT_BAD then -1 else 0;
  }

  method RtableGet(server: Server?, key: CString, fates: seq<Fate>) returns (value: Data?)
    requires server != null ==> server.Valid() && |fates| == |server.replicas|
    modifies if server == null then {} else server.Repr
    ensures server == null ==> value == null
    ensures server != null ==>
              && server.Valid() && fresh(server.Repr - old(server.Repr))
              && server.replicas == Arrived(old(server.replicas), Carried(fates, Get(key)), Get(key))
              && (value != null <==> fates[0] == Delivered && key in old(server.table.Model())
                                     && Exchanged(Get(key), old(server.table.Model())))
    ensures value != null ==> fresh(value) && value.bytes == old(server.table.Model())[key]
  {
    hide Server.Valid, Arrived, Merged, Flat, Keys, Table.Model, Whole, Carried;
    if server == null { return null; }
    server.BlocksAreNotEmpty(key);
    CarriedOn(server.replicas, fates, Get(key));
    var msg := new Message();
    msg.opcode, msg.cType, msg.key := OP_GET, CT_KEY, Some(key);
    var res := NetworkSendReceive(server, msg, fates);
    if res == null || res.opcode == OP_BAD || res.ExecError() { return null; }
    if res.value == [] { return null; }
    value := new Data(res.value);
  }

  method RtableSize(server: Server?, fates: seq<Fate>) returns (size: int)
    requires server != null ==> server.Valid() && |fates| == |server.replicas|
    modifies if server == null then {} else server.Repr
    ensures server == null ==> size == -1
    ensures server != null ==>
              && server.Valid() && fresh(server.Repr - old(server.Repr))
              && server.replicas == Arrived(old(server.replicas), fates, Size)
              && size == if fates[0] == Delivered then |old(server.table.Model())| else -1
  {
    hide Server.Valid, Arrived, Merged, Flat, Keys, Table.Model, Whole, Carried;
    if server == null { return -1; }
    ShortAnswers(Size, server.table.Model());
    CarriedOn(server.replicas, fates, Size);
    var msg := new Message();
    msg.opcode, msg.cType := OP_SIZE, CT_NONE;
    var res := NetworkSendReceive(server, msg, fates);
    if res == null || res.ExecError() { return -1; }
    size := res.result;
  }

  method RtableGetKeys(server: Server?, fates: seq<Fate>) returns (keys: array?<Option<CString>>)
    requires server != null ==> server.Valid() && |fates| == |server.replicas|
    modifies if server == null then {} else server.Repr
    ensures server == null ==> keys == null
    ensures server != null ==>
              && server.Valid() && fresh(server.Repr - old(server.Repr))
              && (keys != null <==>
                    fates[0] == Delivered && Whole(KeysResponse(Bare(OP_GETKEYS, CT_NONE), Flat(old(server.table.views)))))
    ensures keys != null ==> fresh(keys) && keys[..] == Present(Flat(old(server.table.views))) + [None]
  {
    hide Server.Valid, Flat, Merged, Arrived, Present, Keys, Pointers, Whole;
    if server == null { return null; }
    ShortMessage(Bare(OP_GETKEYS, CT_NONE));
    ghost var was := Flat(server.table.views);
    var msg := new Message();
    msg.opcode, msg.cType := OP_GETKEYS, CT_NONE;
    var res := NetworkSendReceive(server, msg, fates);
    if res == null || res.ExecError() { return null; }
    keys := PointersTo(res.keys);
    PresentKeys(was);
  }

  function Pointers(strings: seq<CString>): seq<Option<CString>> {
    seq(|strings|, i requires 0 <= i < |strings| => Some(strings[i]))
  }

  lemma PresentKeys(s: seq<Pair>)
    ensures Pointers(Keys(s)) == Present(s)
  {
  }

  method PointersTo(strings: seq<CString>) returns (keys: array<Option<CString>>)
    ensures fresh(keys) && keys[..] == Pointers(strings) + [None]
  {
    keys := new Option<CString>[|strings| + 1](_ => None);
    var i := 0;
    while i < |strings|
      invariant 0 <= i <= |strings| && forall j :: 0 <= j < i ==> keys[j] == Some(strings[j])
    {
      keys[i] := Some(strings[i]);
      i := i + 1;
    }
    keys[|strings|] := None;
  }

  method RtableGetTable(server: Server?, fates: seq<Fate>) returns (entries: array?<Entry?>)
    requires server != null ==> server.Valid() && |fates| == |server.replicas|
    modifies if server == null then {} else server.Repr
    ensures server == null ==> entries == null
    ensures server != null ==>
              && server.Valid() && server.Repr == old(server.Repr)
              && server.replicas == (if fates[0] == RequestLost then old(server.replicas) else Read(old(server.replicas)))
              && (entries != null <==> fates[0] == Delivered && TableArrives(Flat(old(server.table.views))))
    ensures entries != null ==>
              && fresh(entries) && entries.Length == |Flat(old(server.table.views))| + 1
              && entries[entries.Length - 1] == null
              && Carries(entries[..entries.Length - 1], Flat(old(server.table.views)))
              && forall j :: 0 <= j < entries.Length - 1 ==> fresh(entries[j]) && fresh(entries[j].value)
  {
    hide Server.Valid, Flat, Whole;
    if server == null { return null; }
    ShortMessage(Bare(OP_GETTABLE, CT_NONE));
    var msg := new Message();
    msg.opcode, msg.cType := OP_GETTABLE, CT_NONE;
    var res := NetworkSendReceive(server, msg, fates);
    if res == null || res.ExecError() { return null; }
    entries := EntriesOf(res.entries);
  }

  method EntriesOf(pairs: seq<Pair>) returns (entries: array<Entry?>)
    ensures fresh(entries) && entries.Length == |pairs| + 1 && entries[|pairs|] == null
    ensures Carries(entries[..|pairs|], pairs)
    ensures forall j :: 0 <= j < |pairs| ==> fresh(entries[j]) && fresh(entries[j].value)
  {
    entries := new Entry?[|pairs| + 1](_ => null);
    var i := 0;
    while i < |pairs|
      invariant 0 <= i <= |pairs| && entries[|pairs|] == null
      invariant forall j :: 0 <= j < i ==>
                  && entries[j] != null && fresh(entries[j]) && fresh(entries[j].value)
                  && entries[j].key == pairs[j].0 && entries[j].value.bytes == pairs[j].1
    {
      var value := new Data(pairs[i].1);
      entries[i] := new Entry(pairs[i].0, value);
      i := i + 1;
    }
  }

  /** rtable_stats: the server's statistics as they are when the call arrives. */
  method RtableStats(server: Server?, fates: seq<Fate>) returns (stats: Option<Statistics>)
    requires server != null ==> server.Valid() && |fates| == |server.replicas|
    modifies if server == null then {} else server.Repr
    ensures server == null ==> stats == None
    ensures server != null ==>
              && server.Valid() && server.replicas == old(server.replicas)
              && stats == if fates[0] == Delivered
                          then Some(Statistics(old(server.clients), old(server.replicas)[0].operations, old(server.totalTime)))
                          else None
  {
    hide Server.Valid, Arrived, Merged, Flat, Keys, Whole;
    if server == null { return None; }
    ShortMessage(Bare(OP_STATS, CT_NONE));
    ShortMessage(StatsResponse(Bare(OP_STATS, CT_NONE), Statistics(server.clients, server.operations, server.totalTime)));
    var msg := new Message();
    msg.opcode, msg.cType := OP_STATS, CT_NONE;
    var res := NetworkSendReceive(server, msg, fates);
    if res == null || res.ExecError() { return None; }
    stats := res.stats;
  }
}
