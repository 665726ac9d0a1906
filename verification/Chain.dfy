/** The replicated store as a transition system: a chain of servers, each running one thread per request
    it is serving, with the table lock held from before the local update until the successor has replied.
    A request keeps one id on its whole way down the chain. */
module Chain {
  import opened Bytes
  import opened KvSpec
  import opened RwSpec

  type Id = nat

  /** How far a thread has come inside invoke. */
  datatype Stage =
    | Wait       // wants the table lock
    | Entered    // holds the table lock, wants the statistics lock to count the operation
    | Counting   // holds both locks
    | Ready      // next: read or update the table
    | Applied    // updated the table; next: look at the successor path
    | Forwarded  // waits for the successor's reply
    | Dropped    // as before, but the successor it waits for is gone; it has not noticed yet
    | Back       // wants the statistics lock to add the time
    | Timing     // holds both locks
    | Leaving    // next: release the table lock
    | Finished   // lock released, response not sent yet

  /** Who waits for the answer of a call. A call from a predecessor at the head of the chain has lost it. */
  datatype Caller =
    | Client
    | Predecessor
    | Nobody  // the predecessor is gone

  datatype Call = Call(op: Op, from: Caller, stage: Stage, answer: Answer)

  /** One applied update; the history of a server is a record kept for the proofs only. */
  datatype Update = Update(id: Id, op: Op)

  datatype Server = Server(table: Store, log: seq<Update>, calls: map<Id, Call>, lock: RwLock, stats: Option<Id>)

  /** What clients see: a call goes out, its answer comes back. */
  datatype Event =
    | Invoke(id: Id, op: Op)
    | Return(id: Id, answer: Answer)

  datatype Chain = Chain(servers: seq<Server>, next: Id, history: seq<Event>)

  predicate Early(st: Stage) {
    st in {Wait, Entered, Counting, Ready}
  }

  predicate Late(st: Stage) {
    st in {Dropped, Back, Timing, Leaving, Finished}
  }

  predicate Inside(st: Stage) {
    st != Wait && st != Finished
  }

  /** The table a sequence of updates leaves behind. */
  function Replay(log: seq<Update>): Store {
    if log == [] then map[] else After(log[|log| - 1].op, Replay(log[..|log| - 1]))
  }

  const FRESH_SERVER := Server(map[], [], map[], FREE, None)

  // ----- steps inside one server

  function SetStage(sv: Server, c: Id, st: Stage): Server
    requires c in sv.calls
  {
    sv.(calls := sv.calls[c := sv.calls[c].(stage := st)])
  }

  function Remove(sv: Server, c: Id): Server {
    sv.(calls := sv.calls - {c})
  }

  predicate CanAdvance(sv: Server, c: Id) {
    c in sv.calls &&
    var call := sv.calls[c];
    match call.stage
    case Wait => Accepted(call.op) && if IsUpdate(call.op) then MayWrite(sv.lock) else MayRead(sv.lock)
    case Entered => sv.stats.None?
    case Back => sv.stats.None?
    case Counting => true
    case Ready => true
    case Timing => true
    case Leaving => true
    case _ => false
  }

  function NextStage(call: Call): Stage {
    match call.stage
    case Wait => Entered
    case Entered => Counting
    case Counting => Ready
    case Ready => if IsUpdate(call.op) then Applied else Back
    case Back => Timing
    case Timing => Leaving
    case _ => Finished
  }

  /** One step of a thread inside its server. Reading the table is the whole work of a read; an update
      also goes into the log. The table lock is taken first and released last, the statistics lock
      is taken twice in between. */
  function Advance(sv: Server, c: Id): Server
    requires CanAdvance(sv, c)
  {
    var call := sv.calls[c];
    var st := call.stage;
    var writing := IsUpdate(call.op);
    Server(
      if st == Ready then After(call.op, sv.table) else sv.table,
      if st == Ready && writing then sv.log + [Update(c, call.op)] else sv.log,
      sv.calls[c := Call(call.op, call.from, NextStage(call),
      if st == Ready then KvSpec.Reply(call.op, sv.table) else call.answer)],
      if st == Wait then Enter(sv.lock, c, writing) else if st == Leaving then Leave(sv.lock, c, writing) else sv.lock,
      if st == Entered || st == Back then Some(c) else if st == Counting || st == Timing then None else sv.stats)
  }

  // ----- servers that leave

  /** The successor has gone: whoever waits for its reply waits in vain. */
  function Bereft(sv: Server): Server {
    sv.(calls := map c | c in sv.calls :: if sv.calls[c].stage == Forwarded then sv.calls[c].(stage := Dropped) else sv.calls[c])
  }

  /** The predecessor has gone: nobody waits for the reply to what it had sent. */
  function Orphaned(sv: Server): Server {
    sv.(calls := map c | c in sv.calls :: if sv.calls[c].from == Predecessor then sv.calls[c].(from := Nobody) else sv.calls[c])
  }

  /** The tail has applied every update that server i serves. */
  predicate Covered(ss: seq<Server>, i: nat)
    requires i < |ss|
  {
    forall c :: c in ss[i].calls && IsUpdate(ss[i].calls[c].op) ==> Update(c, ss[i].calls[c].op) in ss[|ss| - 1].log
  }

  /** The chain without server i, which is neither its head nor its tail. */
  function CutOut(ss: seq<Server>, i: nat): seq<Server>
    requires 0 < i && i + 1 < |ss|
  {
    ss[..i - 1] + [Bereft(ss[i - 1]), Orphaned(ss[i + 1])] + ss[i + 2..]
  }

  // ----- steps of the whole chain

  datatype Label =
    | Send(op: Op, at: nat)     // a client sends an update to the head, a read to any server
    | Local(i: nat, c: Id)      // a thread moves on inside its own server
    | Refuse(i: nat, c: Id)     // a put of an empty block: the connection is closed
    | Forward(i: nat, c: Id)    // the update goes to the successor
    | Skip(i: nat, c: Id)       // there is no successor
    | LinkLost(i: nat, c: Id)   // the thread notices that the successor is gone, and ignores the failure
    | Acknowledge(i: nat, c: Id)// the successor's response arrives
    | Respond(i: nat, c: Id)    // the response reaches the client
    | Orphan(i: nat, c: Id)     // the response has nobody to go to
    | RemoveHead
    | RemoveTail
    | RemoveMiddle(i: nat)
    | Join(entries: seq<Pair>) // a new server copies the tail's table and becomes the tail

  predicate At(s: Chain, i: nat, c: Id, st: Stage) {
    i < |s.servers| && c in s.servers[i].calls && s.servers[i].calls[c].stage == st
  }

  /** The tail may be copied and get a successor: no update is between its application and the look at the
      successor path. */
  predicate Copyable(tail: Server) {
    forall c :: c in tail.calls ==> tail.calls[c].stage != Applied
  }

  predicate Enabled(s: Chain, l: Label) {
    var n := |s.servers|;
    match l
    case Send(op, at) => at < n && (IsUpdate(op) ==> at == 0)
    case Local(i, c) => i < n && CanAdvance(s.servers[i], c)
    case Refuse(i, c) => At(s, i, c, Wait) && !Accepted(s.servers[i].calls[c].op)
    case Forward(i, c) => At(s, i, c, Applied) && i + 1 < n
    case Skip(i, c) => At(s, i, c, Applied) && i + 1 == n
    case LinkLost(i, c) => At(s, i, c, Dropped) || (At(s, i, c, Forwarded) && i + 1 == n)
    case Acknowledge(i, c) =>
      At(s, i, c, Forwarded) && At(s, i + 1, c, Finished) && s.servers[i + 1].calls[c].from == Predecessor
    case Respond(i, c) => At(s, i, c, Finished) && s.servers[i].calls[c].from == Client
    case Orphan(i, c) =>
      At(s, i, c, Finished) && (s.servers[i].calls[c].from == Nobody || (i == 0 && s.servers[i].calls[c].from == Predecessor))
    case RemoveHead => n >= 2
    case RemoveTail => n >= 2
    case RemoveMiddle(i) => 0 < i && i + 1 < n && Covered(s.servers, i)
    case Join(entries) => n > 0 && Copyable(s.servers[n - 1]) && Lists(entries, s.servers[n - 1].table)
  }

  function Do(s: Chain, l: Label): Chain
    requires Enabled(s, l)
  {
    var ss := s.servers;
    var n := |ss|;
    match l
    case Send(op, at) =>
      var sv := ss[at].(calls := ss[at].calls[s.next := Call(op, Client, Wait, Failed)]);
      Chain(ss[at := sv], s.next + 1, s.history + [Invoke(s.next, op)])
    case Local(i, c) => s.(servers := ss[i := Advance(ss[i], c)])
    case Refuse(i, c) =>
      var h := if ss[i].calls[c].from == Client then s.history + [Return(c, Failed)] else s.history;
      s.(servers := ss[i := Remove(ss[i], c)], history := h)
    case Forward(i, c) =>
      var a := SetStage(ss[i], c, Forwarded);
      var b := ss[i + 1].(calls := ss[i + 1].calls[c := Call(ss[i].calls[c].op, Predecessor, Wait, Failed)]);
      s.(servers := ss[i := a][i + 1 := b])
    case Skip(i, c) => s.(servers := ss[i := SetStage(ss[i], c, Back)])
    case LinkLost(i, c) => s.(servers := ss[i := SetStage(ss[i], c, Back)])
    case Acknowledge(i, c) => s.(servers := ss[i := SetStage(ss[i], c, Back)][i + 1 := Remove(ss[i + 1], c)])
    case Respond(i, c) =>
      s.(servers := ss[i := Remove(ss[i], c)], history := s.history + [Return(c, ss[i].calls[c].answer)])
    case Orphan(i, c) => s.(servers := ss[i := Remove(ss[i], c)])
    case RemoveHead => s.(servers := ss[1..])
    case RemoveTail => s.(servers := ss[..n - 1])
    case RemoveMiddle(i) => s.(servers := CutOut(ss, i))
    case Join(entries) =>
      s.(servers := ss[n - 1 := Bereft(ss[n - 1])] + [FRESH_SERVER.(table := PutAll(map[], entries), log := ss[n - 1].log)])
  }

  /** A chain just started: n servers with empty tables, nobody connected. */
  function Start(n: nat): (s: Chain)
    ensures |s.servers| == n
  {
    Chain(seq(n, i => FRESH_SERVER), 0, [])
  }

  predicate Possible(s: Chain, ls: seq<Label>)
    decreases |ls|
  {
    ls == [] || (Enabled(s, ls[0]) && Possible(Do(s, ls[0]), ls[1..]))
  }

  /** The state a run ends in. */
  function Run(s: Chain, ls: seq<Label>): Chain
    requires Possible(s, ls)
    decreases |ls|
  {
    if ls == [] then s else Run(Do(s, ls[0]), ls[1..])
  }

  // ----- what every run keeps, server by server and link by link

  /** The locks name exactly the threads that are in the matching sections. */
  ghost predicate LockInv(sv: Server) {
    && (forall c :: c in sv.calls && IsUpdate(sv.calls[c].op) && Inside(sv.calls[c].stage) ==> sv.lock.writer == Some(c))
    && (sv.lock.writer.Some? ==>
          var c := sv.lock.writer.value;
          c in sv.calls && IsUpdate(sv.calls[c].op) && Inside(sv.calls[c].stage))
    && (forall c :: c in sv.calls && !IsUpdate(sv.calls[c].op) && Inside(sv.calls[c].stage) ==> c in sv.lock.readers)
    && (forall c :: c in sv.lock.readers ==> c in sv.calls && !IsUpdate(sv.calls[c].op) && Inside(sv.calls[c].stage))
    && (sv.lock.writer.Some? ==> sv.lock.readers == {})
  }

  ghost predicate StatsInv(sv: Server) {
    && (forall c :: c in sv.calls && sv.calls[c].stage in {Counting, Timing} ==> sv.stats == Some(c))
    && (sv.stats.Some? ==> sv.stats.value in sv.calls && sv.calls[sv.stats.value].stage in {Counting, Timing})
  }

  ghost predicate CallInv(sv: Server) {
    && (forall c :: c in sv.calls && sv.calls[c].stage != Wait ==> Accepted(sv.calls[c].op))
    && (forall c :: c in sv.calls && sv.calls[c].stage in {Applied, Forwarded, Dropped} ==> IsUpdate(sv.calls[c].op))
    && (forall c :: c in sv.calls && sv.calls[c].from != Client ==> IsUpdate(sv.calls[c].op))
  }

  ghost predicate ServerInv(sv: Server) {
    LockInv(sv) && StatsInv(sv) && CallInv(sv) && sv.table == Replay(sv.log)
  }

  /** The update that server a has applied and its successor b has not, if there is one. */
  function Lag(a: Server, b: Server): seq<Update> {
    if a.lock.writer.None? then []
    else
      var c := a.lock.writer.value;
      if c !in a.calls then []
      else if a.calls[c].stage == Applied then [Update(c, a.calls[c].op)]
      else if a.calls[c].stage == Forwarded && c in b.calls && Early(b.calls[c].stage) then [Update(c, a.calls[c].op)]
      else []
  }

  /** Server a and its successor b. What b serves was forwarded by a and a waits for it, or its caller has gone
      and b has applied it already. */
  ghost predicate LinkInv(a: Server, b: Server) {
    && (forall c :: c in b.calls && IsUpdate(b.calls[c].op) ==>
          && b.calls[c].from != Client && Accepted(b.calls[c].op)
          && if b.calls[c].from == Predecessor
             then c in a.calls && a.calls[c].stage == Forwarded && a.calls[c].op == b.calls[c].op
             else !Early(b.calls[c].stage))
    && (forall c :: c in a.calls && a.calls[c].stage == Forwarded ==>
          c in b.calls && b.calls[c].from == Predecessor && IsUpdate(b.calls[c].op))
    && a.log == b.log + Lag(a, b)
  }

  ghost predicate ServersInv(ss: seq<Server>) {
    && |ss| > 0
    && (forall i :: 0 <= i < |ss| ==> ServerInv(ss[i]))
    && (forall i :: 0 < i < |ss| ==> LinkInv(ss[i - 1], ss[i]))
  }
}
