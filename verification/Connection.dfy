/** The thread of a connection: it serves one message after the other. */
module Connection {
  import opened Bytes
  import opened KvSpec
  import opened Buckets
  import opened HashTable
  import opened Replication
  import opened Packing
  import opened Skeleton

  /** A message as it arrives, and what becomes of the calls between the servers that it causes. */
  datatype Turn = Turn(packet: Packet, fates: seq<Fate>)

  ghost predicate Fit(turns: seq<Turn>, n: nat) {
    forall i :: 0 <= i < |turns| ==> |turns[i].fates| + 1 == n
  }

  /** The chain after one message. */
  function Turned(replicas: seq<Replica>, turn: Turn): (after: seq<Replica>)
    requires |turn.fates| + 1 == |replicas|
    ensures |after| == |replicas|
  {
    match Asked(turn.packet)
    case Some(op) => Served(replicas, Carried(turn.fates, op), op)
    case None => if turn.packet.opcode in {OP_GETKEYS, OP_GETTABLE} then Read(replicas) else replicas
  }

  function AllTurned(replicas: seq<Replica>, turns: seq<Turn>): (after: seq<Replica>)
    requires Fit(turns, |replicas|)
    ensures |after| == |replicas|
  {
    if turns == [] then replicas
    else Turned(AllTurned(replicas, turns[..|turns| - 1]), turns[|turns| - 1])
  }

  /** invoke fails: a message of no known kind, a key that is a null pointer, or a put of an empty block. */
  predicate Refused(c: Packet) {
    match Asked(c)
    case Some(op) => !Accepted(op)
    case None => c.opcode !in {OP_PUT, OP_GETKEYS, OP_GETTABLE, OP_STATS}
  }

  /** The process ends here: a put without an entry, or a del that is forwarded without a handle. */
  predicate BreaksDown(c: Packet, dangling: bool) {
    (c.opcode == OP_PUT && c.entry == None) || (c.opcode == OP_DEL && c.key.Some? && dangling)
  }

  /** The right answer of a server that has this table and has counted so many operations. */
  ghost predicate IsAnswer(c: Packet, r: Packet, server: Replica, clients: int) {
    match Asked(c)
    case Some(op) => r == Response(c, Reply(op, server.store))
    case None =>
      if c.opcode == OP_GETKEYS then
        exists pairs :: Lists(pairs, server.store) && |pairs| == |server.store| && r == KeysResponse(c, pairs)
      else if c.opcode == OP_GETTABLE then
        exists pairs :: Lists(pairs, server.store) && |pairs| == |server.store| && r == TableResponse(c, pairs)
      else
        exists time :: r == StatsResponse(c, Statistics(clients, server.operations, time))
  }

  /** One turn of the loop. */
  method ServeOne(server: Server, msg: Message, fates: seq<Fate>) returns (res: int, crash: bool)
    requires server.Valid() && msg !in server.Repr && |fates| + 1 == |server.replicas|
    modifies server.Repr, msg
    ensures server.Valid() && fresh(server.Repr - old(server.Repr)) && server.clients == old(server.clients)
    ensures var c := old(msg.Fields());
            && (crash <==> BreaksDown(c, server.Dangling()))
            && (!crash ==> (res < 0 <==> Refused(c)))
            && (!crash && res >= 0 ==> IsAnswer(c, msg.Fields(), old(server.replicas)[0], server.clients))
            && server.replicas == Turned(old(server.replicas), Turn(c, fates))
  {
    hide Server.Valid, Served, Table.Model, Carried, Flat, Lists, Answering;
    server.table.Complete();
    res, crash := server.Invoke(msg, fates);
  }

  ghost predicate Apart(messages: seq<Message>, repr: set<object>) {
    && (forall i, j :: 0 <= i < j < |messages| ==> messages[i] != messages[j])
    && forall i :: 0 <= i < |messages| ==> messages[i] !in repr
  }

  /** The right answer to message j: it is about the table that the messages before have left. */
  ghost predicate AnswersTurn(r: Packet, turns: seq<Turn>, j: nat, start: seq<Replica>, clients: int)
    requires j < |turns| && Fit(turns, |start|) && |start| > 0
  {
    !Refused(turns[j].packet) && IsAnswer(turns[j].packet, r, AllTurned(start, turns[..j])[0], clients)
  }

  ghost predicate AreAnswers(answers: seq<Packet>, turns: seq<Turn>, start: seq<Replica>, clients: int)
    requires |answers| <= |turns| && Fit(turns, |start|) && |start| > 0
  {
    forall j :: 0 <= j < |answers| ==> AnswersTurn(answers[j], turns, j, start, clients)
  }

  ghost predicate Hold(messages: seq<Message>, packets: seq<Packet>)
    requires |packets| <= |messages|
    reads messages
  {
    forall j :: 0 <= j < |packets| ==> messages[j].Fields() == packets[j]
  }

  lemma OneMoreAnswer(r: Packet, turns: seq<Turn>, j: nat, start: seq<Replica>, clients: int)
    requires j < |turns| && Fit(turns, |start|) && |start| > 0
    requires !Refused(turns[j].packet) && IsAnswer(turns[j].packet, r, AllTurned(start, turns[..j])[0], clients)
    ensures AnswersTurn(r, turns, j, start, clients)
  {
    hide Refused, IsAnswer, AllTurned;
  }

  lemma OneMoreTurn(start: seq<Replica>, turns: seq<Turn>, n: nat)
    requires n < |turns| && Fit(turns, |start|)
    ensures AllTurned(start, turns[..n + 1]) == Turned(AllTurned(start, turns[..n]), turns[n])
  {
    assert turns[..n + 1][..n] == turns[..n];
  }

  ghost predicate Unread(messages: seq<Message>, turns: seq<Turn>, from: nat)
    requires |messages| == |turns|
    reads messages
  {
    forall j :: from <= j < |messages| ==> messages[j].Fields() == turns[j].packet
  }

  /** How a connection may end after so many answers: all messages are answered, or invoke fails for the next one,
      or the process breaks down on it. */
  ghost predicate EndsAfter(turns: seq<Turn>, answered: nat, crash: bool, dangling: bool) {
    && answered <= |turns| && (crash ==> answered < |turns|)
    && (forall j :: 0 <= j < answered ==> !BreaksDown(turns[j].packet, dangling))
    && (answered < |turns| ==>
          if crash then BreaksDown(turns[answered].packet, dangling)
          else Refused(turns[answered].packet) && !BreaksDown(turns[answered].packet, dangling))
  }

  /** Where the loop stands. */
  ghost predicate Progress(turns: seq<Turn>, answers: seq<Packet>, start: seq<Replica>, now: seq<Replica>, clients: int, dangling: bool)
    requires |answers| <= |turns| && Fit(turns, |start|) && |start| > 0
  {
    && now == AllTurned(start, turns[..|answers|]) && AreAnswers(answers, turns, start, clients)
    && forall j :: 0 <= j < |answers| ==> !BreaksDown(turns[j].packet, dangling)
  }

  lemma NothingHeld(messages: seq<Message>)
    ensures Hold(messages, [])
  {
  }

  lemma NoProgress(turns: seq<Turn>, start: seq<Replica>, clients: int, dangling: bool)
    requires Fit(turns, |start|) && |start| > 0
    ensures Progress(turns, [], start, start, clients, dangling)
  {
  }

  lemma GoOn(turns: seq<Turn>, answers: seq<Packet>, r: Packet, start: seq<Replica>, now: seq<Replica>, clients: int, dangling: bool)
    requires |answers| < |turns| && Fit(turns, |start|) && |start| == |now| > 0
    requires Progress(turns, answers, start, now, clients, dangling) && !BreaksDown(turns[|answers|].packet, dangling)
    requires !Refused(turns[|answers|].packet) && IsAnswer(turns[|answers|].packet, r, now[0], clients)
    ensures Progress(turns, answers + [r], start, Turned(now, turns[|answers|]), clients, dangling)
  {
    hide Turned, AllTurned, Refused, BreaksDown, IsAnswer, AnswersTurn;
    OneMoreTurn(start, turns, |answers|);
    OneMoreAnswer(r, turns, |answers|, start, clients);
  }

  /** After the last message. */
  lemma AllServed(turns: seq<Turn>, answers: seq<Packet>, start: seq<Replica>, now: seq<Replica>, clients: int, dangling: bool)
    requires |answers| == |turns| && Fit(turns, |start|) && |start| > 0
    requires Progress(turns, answers, start, now, clients, dangling)
    ensures EndsAfter(turns, |answers|, false, dangling) && AreAnswers(answers, turns, start, clients)
    ensures now == AllTurned(start, turns[..|answers|])
  {
    hide AllTurned, Refused, BreaksDown, AreAnswers;
  }

  /** At a message that is not answered. */
  lemma Stop(turns: seq<Turn>, answers: seq<Packet>, start: seq<Replica>, now: seq<Replica>, clients: int, dangling: bool, crash: bool)
    requires |answers| < |turns| && Fit(turns, |start|) && |start| == |now| > 0
    requires Progress(turns, answers, start, now, clients, dangling)
    requires var c := turns[|answers|].packet; (crash <==> BreaksDown(c, dangling)) && (!crash ==> Refused(c))
    ensures EndsAfter(turns, |answers|, crash, dangling) && AreAnswers(answers, turns, start, clients)
    ensures Turned(now, turns[|answers|]) == AllTurned(start, turns[..|answers| + 1])
  {
    hide Turned, AllTurned, Refused, BreaksDown, AreAnswers;
    OneMoreTurn(start, turns, |answers|);
  }

  /** The next message; the others stay as they are. */
  method ServeNext(server: Server, messages: seq<Message>, turns: seq<Turn>, n: nat, ghost answers: seq<Packet>)
    returns (res: int, crash: bool)
    requires server.Valid() && |answers| == n < |messages| == |turns| && Apart(messages, server.Repr)
    requires Hold(messages, answers) && Unread(messages, turns, n) && Fit(turns, |server.replicas|)
    modifies server.Repr, messages
    ensures server.Valid() && fresh(server.Repr - old(server.Repr)) && server.clients == old(server.clients)
    ensures Hold(messages, answers + [messages[n].Fields()]) && Unread(messages, turns, n + 1)
    ensures Hold(messages, answers) && Apart(messages, server.Repr)
    ensures var c := turns[n].packet;
            && (crash <==> BreaksDown(c, server.Dangling()))
            && (!crash ==> (res < 0 <==> Refused(c)))
            && (!crash && res >= 0 ==> IsAnswer(c, messages[n].Fields(), old(server.replicas)[0], server.clients))
            && server.replicas == Turned(old(server.replicas), turns[n])
  {
    hide Server.Valid, Turned, Refused, BreaksDown, IsAnswer, Message.Fields;
    res, crash := ServeOne(server, messages[n], turns[n].fates);
  }

  /** The loop over the messages that arrive: each is answered in turn, until one fails. */
  method ServeMessages(server: Server, messages: seq<Message>, turns: seq<Turn>) returns (answered: nat, crash: bool, ghost answers: seq<Packet>)
    requires server.Valid() && |messages| == |turns| && Unread(messages, turns, 0) && Apart(messages, server.Repr)
    requires Fit(turns, |server.replicas|)
    modifies server.Repr, messages
    ensures server.Valid() && server.clients == old(server.clients)
    ensures EndsAfter(turns, answered, crash, server.Dangling())
    ensures |answers| == answered && Hold(messages, answers) && AreAnswers(answers, turns, old(server.replicas), server.clients)
    ensures server.replicas == AllTurned(old(server.replicas), turns[..if answered < |turns| then answered + 1 else answered])
  {
    hide Server.Valid, Turned, AllTurned, Refused, BreaksDown, IsAnswer, AreAnswers, Progress, EndsAfter;
    hide Message.Fields, Hold, Unread, Apart;
    answered, crash, answers := 0, false, [];
    ghost var start := server.replicas;
    NothingHeld(messages);
    NoProgress(turns, start, server.clients, server.Dangling());
    while answered < |messages|
      invariant 0 <= answered <= |messages| && server.Valid() && Apart(messages, server.Repr) && !crash
      invariant fresh(server.Repr - old(server.Repr)) && server.clients == old(server.clients)
      invariant |answers| == answered && Hold(messages, answers) && Unread(messages, turns, answered)
      invariant |server.replicas| == |start| && Progress(turns, answers, start, server.replicas, server.clients, server.Dangling())
    {
      ghost var now := server.replicas;
      var res;
      res, crash := ServeNext(server, messages, turns, answered, answers);
      if crash || res < 0 {
        Stop(turns, answers, start, now, server.clients, server.Dangling(), crash);
        return;
      }
      GoOn(turns, answers, messages[answered].Fields(), start, now, server.clients, server.Dangling());
      answered, answers := answered + 1, answers + [messages[answered].Fields()];
    }
    AllServed(turns, answers, start, server.replicas, server.clients, server.Dangling());
  }

  /** serve_conn: the client is counted, its messages are served, the client is counted out. */
  method ServeConn(server: Server, messages: seq<Message>, turns: seq<Turn>) returns (answered: nat, crash: bool, ghost answers: seq<Packet>)
    requires server.Valid() && |messages| == |turns| && Unread(messages, turns, 0) && Apart(messages, server.Repr)
    requires Fit(turns, |server.replicas|)
    modifies server.Repr, messages
    ensures server.Valid() && EndsAfter(turns, answered, crash, server.Dangling())
    ensures server.clients == old(server.clients) + if crash then 1 else 0
    ensures |answers| == answered && Hold(messages, answers)
    ensures AreAnswers(answers, turns, old(server.replicas), old(server.clients) + 1)
    ensures server.replicas == AllTurned(old(server.replicas), turns[..if answered < |turns| then answered + 1 else answered])
  {
    hide Server.Valid, AllTurned, AreAnswers, EndsAfter;
    server.ChangeClientNum(1);
    answered, crash, answers := ServeMessages(server, messages, turns);
    if !crash { server.ChangeClientNum(-1); }
  }

  // ----- one map behind a connection

  /** A single map after the messages. */
  function StoreAfterTurns(m: Store, turns: seq<Turn>): Store {
    if turns == [] then m
    else
      var before := StoreAfterTurns(m, turns[..|turns| - 1]);
      match Asked(turns[|turns| - 1].packet)
      case Some(op) => After(op, before)
      case None => before
  }

  /** What each answer is about is a single map, whatever happens to the calls between the servers: the connection
      sees its own updates, and listings and statistics change nothing. */
  lemma {:induction false} ConnectionSeesOneMap(start: seq<Replica>, turns: seq<Turn>)
    requires Fit(turns, |start|) && |start| > 0
    ensures AllTurned(start, turns)[0].store == StoreAfterTurns(start[0].store, turns)
  {
    hide Carried;
    if turns != [] {
      ConnectionSeesOneMap(start, turns[..|turns| - 1]);
    }
  }
}
