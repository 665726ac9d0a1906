/** From the list of registered servers to the links of the chain: who follows whom, where updates enter and
    where reads go. */
module Topology {
  import opened Bytes

  // ----- paths

  /** "/chain/" */
  const ROOT: CString := [47, 99, 104, 97, 105, 110, 47]

  function ConcatZpath(node: CString): CString {
    ROOT + node
  }

  /** children_abs_zpaths. */
  method ChildrenAbsZpaths(children: seq<CString>) returns (paths: array<CString>)
    ensures fresh(paths) && paths.Length == |children|
    ensures forall i :: 0 <= i < |children| ==> paths[i] == ConcatZpath(children[i])
    ensures forall i :: 0 <= i < |children| ==> paths[i] == [47, 99, 104, 97, 105, 110, 47] + children[i]
    ensures forall i, j :: 0 <= i < |children| && 0 <= j < |children| ==>
              (Before(paths[i], paths[j]) <==> Before(children[i], children[j]))
  {
    paths := new CString[|children|](_ => []);
    var i := 0;
    while i < |children|
      invariant 0 <= i <= |children| && forall j :: 0 <= j < i ==> paths[j] == ConcatZpath(children[j])
    {
      paths[i] := ConcatZpath(children[i]);
      i := i + 1;
    }
    forall i, j | 0 <= i < |children| && 0 <= j < |children|
      ensures Before(paths[i], paths[j]) <==> Before(children[i], children[j])
    {
      ComparePrefix(ROOT, children[i], children[j]);
    }
  }

  // ----- selection

  ghost predicate Smallest(p: CString, paths: seq<CString>) {
    p in paths && forall q :: q in paths ==> !Before(q, p)
  }

  ghost predicate Largest(p: CString, paths: seq<CString>) {
    p in paths && forall q :: q in paths ==> !Before(p, q)
  }

  ghost predicate NamesOnly(paths: seq<CString>) {
    forall p :: p in paths ==> p != []
  }

  /** The loop that selects the head: the empty string stands for nothing found yet. */
  method SelectHead(paths: seq<CString>) returns (head: CString)
    requires NamesOnly(paths)
    ensures if paths == [] then head == [] else Smallest(head, paths)
  {
    head := [];
    var i := 0;
    while i < |paths|
      invariant 0 <= i <= |paths|
      invariant if i == 0 then head == [] else Smallest(head, paths[..i]) && head != []
    {
      var child := paths[i];
      assert child in paths;
      assert paths[..i + 1] == paths[..i] + [child];
      CompareSign(head, child);
      if head == [] {
        head := child;
        CompareSign(child, child);
      } else if Compare(head, child) > 0 {
        NothingBetween(paths[..i], child, head);
        head := child;
      }
      i := i + 1;
    }
    assert paths[..i] == paths;
  }

  /** The loop that selects the tail, also used by a joining server. */
  method SelectTail(paths: seq<CString>) returns (tail: CString)
    requires NamesOnly(paths)
    ensures if paths == [] then tail == [] else Largest(tail, paths)
  {
    tail := [];
    var i := 0;
    while i < |paths|
      invariant 0 <= i <= |paths|
      invariant if i == 0 then tail == [] else Largest(tail, paths[..i]) && tail != []
    {
      var child := paths[i];
      assert child in paths;
      assert paths[..i + 1] == paths[..i] + [child];
      CompareSign(tail, child);
      if tail == [] {
        tail := child;
        CompareSign(child, child);
      } else if Compare(tail, child) < 0 {
        NothingBetween(paths[..i], tail, child);
        tail := child;
      }
      i := i + 1;
    }
    assert paths[..i] == paths;
  }

  /** What bounds a list from one side still does after moving further out. */
  lemma NothingBetween(paths: seq<CString>, a: CString, b: CString)
    requires Before(a, b)
    ensures (forall q :: q in paths ==> !Before(q, b)) ==> forall q :: q in paths + [a] ==> !Before(q, a)
    ensures (forall q :: q in paths ==> !Before(a, q)) ==> forall q :: q in paths + [b] ==> !Before(b, q)
  {
    CompareSign(a, a);
    CompareSign(b, b);
    forall q | q in paths && Before(q, a) ensures Before(q, b) { BeforeTransitive(q, a, b); }
    forall q | q in paths && Before(b, q) ensures Before(a, q) { BeforeTransitive(a, b, q); }
  }

  lemma OneLargest(p: CString, q: CString, paths: seq<CString>)
    requires (Largest(p, paths) && Largest(q, paths)) || (Smallest(p, paths) && Smallest(q, paths))
    ensures p == q
  {
    CompareSign(p, q);
  }

  // ----- successors

  /** The first path of the list that is greater than p. */
  function NextOf(paths: seq<CString>, p: CString): Option<CString> {
    if paths == [] then None else if Before(p, paths[0]) then Some(paths[0]) else NextOf(paths[1..], p)
  }

  lemma {:induction false} NextIsGreater(paths: seq<CString>, p: CString)
    ensures NextOf(paths, p) == None <==> forall q :: q in paths ==> !Before(p, q)
    ensures NextOf(paths, p).Some? ==> NextOf(paths, p).value in paths && Before(p, NextOf(paths, p).value)
  {
    if paths != [] && !Before(p, paths[0]) {
      NextIsGreater(paths[1..], p);
      assert paths == [paths[0]] + paths[1..];
    }
  }

  /** Nothing greater than p stands before its successor in the list. */
  lemma {:induction false} NextIsFirst(paths: seq<CString>, p: CString, i: nat)
    requires i < |paths| && Before(p, paths[i])
    ensures exists j :: 0 <= j <= i && NextOf(paths, p) == Some(paths[j])
  {
    if !Before(p, paths[0]) {
      NextIsFirst(paths[1..], p, i - 1);
      var j :| 0 <= j <= i - 1 && NextOf(paths[1..], p) == Some(paths[1..][j]);
      assert paths[1..][j] == paths[j + 1];
    } else {
      assert NextOf(paths, p) == Some(paths[0]);
    }
  }

  /** The scanning loop of the callback; the empty string means that there is no successor. */
  method SelectSuccessor(own: CString, paths: seq<CString>) returns (successor: CString)
    requires NamesOnly(paths)
    ensures successor == match NextOf(paths, own) { case Some(p) => p case None => [] }
    ensures successor == [] <==> NextOf(paths, own) == None
    ensures successor == [] <==> forall q :: q in paths ==> !Before(own, q)
    ensures successor != [] ==>
              exists i :: 0 <= i < |paths| && successor == paths[i] && Before(own, paths[i])
                          && forall j :: 0 <= j < i ==> !Before(own, paths[j])
  {
    successor := [];
    var i := 0;
    while i < |paths|
      invariant 0 <= i <= |paths| && NextOf(paths, own) == NextOf(paths[i..], own) && successor == []
      invariant forall j :: 0 <= j < i ==> !Before(own, paths[j])
    {
      assert paths[i..][1..] == paths[i + 1..];
      if Compare(own, paths[i]) < 0 {
        successor := paths[i];
        break;
      }
      i := i + 1;
    }
    NextIsGreater(paths, own);
    assert successor != [] ==> successor == paths[i];
  }

  // ----- the server's link

  type Address = CString

  /** What a pointer to a remote table points to. */
  datatype Handle =
    | Blank  // memory that was set aside and never connected
    | Null
    | Open(address: Address)
    | Freed

  /** rtable_disconnect frees what it is given, and the pointer stays. */
  function Disconnected(h: Handle): Handle {
    if h == Null then Null else Freed
  }

  function Connected(address: Address, up: set<Address>): Handle {
    if address in up then Open(address) else Null
  }

  /** The part of a server's resources that names its successor. */
  class Link {
    var ownPath: CString
    var nextPath: CString  // empty for the tail
    var handle: Handle

    constructor ()
      ensures ownPath == [] && nextPath == [] && handle == Blank
    {
      ownPath, nextPath, handle := [], [], Blank;
    }

    /** server_watch_children. The list of children is None when it could not be fetched; addresses holds what
        is registered under each path, up the addresses that accept a connection. */
    method WatchChildren(childEvent: bool, children: Option<seq<CString>>, addresses: map<CString, Address>,
                         up: set<Address>)
      modifies this
      ensures ownPath == old(ownPath)
      ensures !childEvent || children == None ==> nextPath == old(nextPath) && handle == old(handle)
      ensures childEvent && children.Some? ==>
                var next := NextOf(Absolute(children.value), ownPath);
                var left := if old(nextPath) == [] || old(handle) == Null then old(handle) else Freed;
                if next == None then
                  nextPath == [] && handle == left
                else if next.value == old(nextPath) then
                  nextPath == old(nextPath) && handle == old(handle)
                else if next.value in addresses then
                  // open to that very address exactly if it accepts the connection
                  var address := addresses[next.value];
                  nextPath == next.value && handle == if address in up then Open(address) else Null
                else
                  // the old path stays although its connection is gone
                  nextPath == old(nextPath) && handle == left
    {
      var isTail := nextPath == [];
      if !childEvent || children == None { return; }
      var paths := ChildrenAbsZpaths(children.value);
      assert paths[..] == Absolute(children.value);
      var successor := SelectSuccessor(ownPath, paths[..]);
      if successor == [] && nextPath != [] {
        handle := Disconnected(handle);
        nextPath := [];
      } else if successor != nextPath {
        if !isTail {
          handle := Disconnected(handle);
        }
        if successor !in addresses { return; }
        handle := Connected(addresses[successor], up);
        nextPath := successor;
      }
    }
  }

  function Absolute(children: seq<CString>): (paths: seq<CString>)
    ensures NamesOnly(paths)
  {
    seq(|children|, i requires 0 <= i < |children| => ConcatZpath(children[i]))
  }

  // ----- the client's ends

  class Ends {
    var headPath: CString
    var tailPath: CString
    var head: Handle
    var tail: Handle

    constructor (headPath: CString, tailPath: CString, head: Handle, tail: Handle)
      ensures this.headPath == headPath && this.tailPath == tailPath && this.head == head && this.tail == tail
    {
      this.headPath, this.tailPath, this.head, this.tail := headPath, tailPath, head, tail;
    }

    /** client_watch_children. An address that cannot be looked up is not noticed: the connection goes to
        whatever the memory for the address holds. */
    method WatchChildren(childEvent: bool, children: Option<seq<CString>>, addresses: map<CString, Address>,
                         up: set<Address>, garbage: Address)
      modifies this
      ensures !childEvent || children == None ==>
                headPath == old(headPath) && tailPath == old(tailPath) && head == old(head) && tail == old(tail)
      ensures childEvent && children.Some? ==>
                var paths := Absolute(children.value);
                if paths == [] then headPath == tailPath == []
                else Smallest(headPath, paths) && Largest(tailPath, paths)
      ensures childEvent && children.Some? ==>
                && (headPath == old(headPath) ==> head == old(head))
                && (headPath != old(headPath) ==>
                      var address := if headPath in addresses then addresses[headPath] else garbage;
                      head == if address in up then Open(address) else Null)
                && (tailPath == old(tailPath) ==> tail == old(tail))
                && (tailPath != old(tailPath) ==>
                      var address := if tailPath in addresses then addresses[tailPath] else garbage;
                      tail == if address in up then Open(address) else Null)
    {
      if !childEvent || children == None { return; }
      var paths := ChildrenAbsZpaths(children.value);
      assert paths[..] == Absolute(children.value);
      var newHead := SelectHead(paths[..]);
      var newTail := SelectTail(paths[..]);
      if newHead != headPath {
        head := Disconnected(head);
        head := Connected(AddressOf(newHead, addresses, garbage), up);
        headPath := newHead;
      }
      if newTail != tailPath {
        tail := Disconnected(tail);
        tail := Connected(AddressOf(newTail, addresses, garbage), up);
        tailPath := newTail;
      }
    }
  }

  function AddressOf(path: CString, addresses: map<CString, Address>, garbage: Address): Address {
    if path in addresses then addresses[path] else garbage
  }

  // ----- following the links

  function Above(paths: seq<CString>, p: CString): set<CString> {
    set q | q in paths && Before(p, q)
  }

  /** Each server has a list of its own: the same servers, in any order. */
  ghost predicate SameServers(paths: seq<CString>, lists: CString -> seq<CString>) {
    forall p :: p in paths ==> forall q :: q in lists(p) <==> q in paths
  }

  /** All servers have the same list. */
  function Shared(paths: seq<CString>): CString -> seq<CString> {
    _ => paths
  }

  lemma NextIsServer(paths: seq<CString>, lists: CString -> seq<CString>, p: CString)
    requires SameServers(paths, lists) && p in paths
    ensures NextOf(lists(p), p) == None <==> Largest(p, paths)
    ensures NextOf(lists(p), p).Some? ==>
              var r := NextOf(lists(p), p).value; r in paths && Before(p, r) && Above(paths, r) < Above(paths, p)
  {
    NextIsGreater(lists(p), p);
    if NextOf(lists(p), p).Some? {
      var r := NextOf(lists(p), p).value;
      CompareSign(r, r);
      forall q | q in Above(paths, r) ensures q in Above(paths, p) { BeforeTransitive(p, r, q); }
      assert r in Above(paths, p) && r !in Above(paths, r);
    }
  }

  /** The servers an update passes that enters at p. */
  ghost function Walk(paths: seq<CString>, lists: CString -> seq<CString>, p: CString): seq<CString>
    requires SameServers(paths, lists) && p in paths
    decreases Above(paths, p)
  {
    match NextOf(lists(p), p)
    case None => [p]
    case Some(r) => NextIsServer(paths, lists, p); [p] + Walk(paths, lists, r)
  }

  ghost predicate AscendingPaths(paths: seq<CString>) {
    forall i, j :: 0 <= i < j < |paths| ==> Before(paths[i], paths[j])
  }

  /** A chain of registered servers that goes strictly upwards and ends at the server with the largest path. */
  ghost predicate Rises(paths: seq<CString>, w: seq<CString>) {
    && w != [] && AscendingPaths(w) && Largest(w[|w| - 1], paths)
    && forall i :: 0 <= i < |w| ==> w[i] in paths
  }

  lemma PrependRises(paths: seq<CString>, p: CString, rest: seq<CString>)
    requires p in paths && Rises(paths, rest) && Before(p, rest[0])
    ensures Rises(paths, [p] + rest)
  {
    hide Before;
    var w := [p] + rest;
    assert w[|w| - 1] == rest[|rest| - 1];
    forall i | 0 <= i < |rest| ensures Before(p, rest[i]) {
      if i > 0 { BeforeTransitive(p, rest[0], rest[i]); }
    }
  }

  /** Whatever the order of the lists, following the links goes upwards, so it never returns to a server, and it
      ends at the one server with the largest path. */
  lemma {:induction false} WalkGoesUp(paths: seq<CString>, lists: CString -> seq<CString>, p: CString)
    requires SameServers(paths, lists) && p in paths
    ensures Rises(paths, Walk(paths, lists, p)) && Walk(paths, lists, p)[0] == p
    decreases Above(paths, p)
  {
    hide Rises, Compare, SameServers;
    NextIsServer(paths, lists, p);
    match NextOf(lists(p), p) {
      case None =>
        AloneRises(paths, p);
      case Some(r) =>
        WalkGoesUp(paths, lists, r);
        PrependRises(paths, p, Walk(paths, lists, r));
    }
  }

  lemma AloneRises(paths: seq<CString>, p: CString)
    requires Largest(p, paths)
    ensures Rises(paths, [p])
  {
  }

  /** Apart from the smallest path, which may stand anywhere, the list is ascending. */
  ghost predicate Tidy(paths: seq<CString>) {
    forall i, j :: 0 <= i < j < |paths| ==> Before(paths[i], paths[j]) || Smallest(paths[j], paths)
  }

  /** No server lies between p and its successor. */
  ghost predicate Adjacent(paths: seq<CString>, p: CString) {
    NextOf(paths, p).Some? ==> forall q :: q in paths && Before(p, q) ==> !Before(q, NextOf(paths, p).value)
  }

  lemma TidyIsAdjacent(paths: seq<CString>, p: CString)
    requires Tidy(paths) && p in paths
    ensures Adjacent(paths, p)
  {
    if NextOf(paths, p).Some? {
      var r := NextOf(paths, p).value;
      forall q | q in paths && Before(p, q) ensures !Before(q, r) {
        var j :| 0 <= j < |paths| && paths[j] == q;
        NextIsFirst(paths, p, j);
        var i :| 0 <= i <= j && NextOf(paths, p) == Some(paths[i]);
        CompareSign(q, r);
      }
    }
  }

  /** The largest path below another one. */
  lemma {:induction false} LargestBelow(paths: seq<CString>, bound: CString) returns (p: CString)
    requires exists q :: q in paths && Before(q, bound)
    ensures p in paths && Before(p, bound) && forall q :: q in paths && Before(q, bound) ==> !Before(p, q)
  {
    var rest := paths[1..];
    assert paths == [paths[0]] + rest;
    CompareSign(paths[0], paths[0]);
    if exists q :: q in rest && Before(q, bound) {
      p := LargestBelow(rest, bound);
      CompareSign(p, paths[0]);
      if Before(paths[0], bound) && Before(p, paths[0]) {
        forall q | q in rest && Before(q, bound) && Before(paths[0], q) ensures false {
          BeforeTransitive(p, paths[0], q);
        }
        p := paths[0];
      }
    } else {
      p := paths[0];
    }
  }

  lemma AdjacentIsTidy(paths: seq<CString>)
    requires (forall i, j :: 0 <= i < j < |paths| ==> paths[i] != paths[j])
    requires forall p :: p in paths ==> Adjacent(paths, p)
    ensures Tidy(paths)
  {
    forall i, j | 0 <= i < j < |paths| && !Smallest(paths[j], paths) ensures Before(paths[i], paths[j]) {
      CompareSign(paths[i], paths[j]);
      var p := LargestBelow(paths, paths[j]);
      NextIsFirst(paths, p, j);
      NextIsGreater(paths, p);
      var r := NextOf(paths, p).value;
      CompareSign(r, paths[j]);
      assert !Before(r, paths[j]);
      assert r == paths[j];
      if Before(paths[j], paths[i]) {
        BeforeTransitive(p, paths[j], paths[i]);
        NextIsFirst(paths, p, i);
      }
    }
  }

  lemma {:induction false} WalkSteps(paths: seq<CString>, lists: CString -> seq<CString>, p: CString, i: nat)
    requires SameServers(paths, lists) && p in paths && i + 1 < |Walk(paths, lists, p)|
    ensures Walk(paths, lists, p)[i] in paths
    ensures NextOf(lists(Walk(paths, lists, p)[i]), Walk(paths, lists, p)[i]) == Some(Walk(paths, lists, p)[i + 1])
    decreases i
  {
    hide SameServers, Compare;
    var r := NextOf(lists(p), p).value;
    NextIsServer(paths, lists, p);
    assert Walk(paths, lists, p) == [p] + Walk(paths, lists, r);
    assert Walk(paths, lists, r)[0] == r;
    if i > 0 { WalkSteps(paths, lists, r, i - 1); }
  }

  lemma {:induction false} AdjacentReaches(paths: seq<CString>, lists: CString -> seq<CString>, start: CString, p: CString)
    requires SameServers(paths, lists) && forall q :: q in paths ==> Adjacent(lists(q), q)
    requires start in paths && p in paths && !Before(p, start)
    ensures p in Walk(paths, lists, start)
    decreases Above(paths, start)
  {
    CompareSign(start, p);
    if p != start {
      NextIsServer(paths, lists, start);
      assert Adjacent(lists(start), start);
      AdjacentReaches(paths, lists, NextOf(lists(start), start).value, p);
    }
  }

  lemma CompleteIsAdjacent(paths: seq<CString>, lists: CString -> seq<CString>, head: CString, p: CString)
    requires SameServers(paths, lists) && head in paths && p in paths
    requires forall q :: q in paths ==> q in Walk(paths, lists, head)
    ensures Adjacent(lists(p), p)
  {
    hide Walk, Compare;
    WalkGoesUp(paths, lists, head);
    var w := Walk(paths, lists, head);
    if NextOf(lists(p), p).Some? {
      var r := NextOf(lists(p), p).value;
      NextIsServer(paths, lists, p);
      var i :| 0 <= i < |w| && w[i] == p;
      assert i + 1 < |w|;
      WalkSteps(paths, lists, head, i);
      forall q | q in lists(p) && Before(p, q) ensures !Before(q, r) {
        var j :| 0 <= j < |w| && w[j] == q;
        CompareSign(p, q);
        CompareSign(q, r);
        assert j > i;
        assert r == w[i + 1];
      }
    }
  }

  /** The chain that starts at the head passes every server exactly when each has the nearest server above it as
      its successor. If all go by one list, that is when the list is ascending apart from its smallest element. */
  lemma EveryServerIsInTheChain(paths: seq<CString>, lists: CString -> seq<CString>, head: CString)
    requires forall i, j :: 0 <= i < j < |paths| ==> paths[i] != paths[j]
    requires SameServers(paths, lists) && Smallest(head, paths)
    ensures (forall p :: p in paths ==> p in Walk(paths, lists, head)) <==> (forall p :: p in paths ==> Adjacent(lists(p), p))
    ensures (forall p :: p in paths ==> lists(p) == paths) ==>
              ((forall p :: p in paths ==> p in Walk(paths, lists, head)) <==> Tidy(paths))
  {
    hide Walk, Adjacent, Tidy;
    if forall p :: p in paths ==> Adjacent(lists(p), p) {
      forall p | p in paths ensures p in Walk(paths, lists, head) {
        AdjacentReaches(paths, lists, head, p);
      }
    }
    if forall p :: p in paths ==> p in Walk(paths, lists, head) {
      forall p | p in paths ensures Adjacent(lists(p), p) {
        CompleteIsAdjacent(paths, lists, head, p);
      }
    }
    TidyMeansAdjacent(paths);
  }

  lemma TidyMeansAdjacent(paths: seq<CString>)
    requires forall i, j :: 0 <= i < j < |paths| ==> paths[i] != paths[j]
    ensures Tidy(paths) <==> forall p :: p in paths ==> Adjacent(paths, p)
  {
    if Tidy(paths) {
      forall p | p in paths ensures Adjacent(paths, p) {
        TidyIsAdjacent(paths, p);
      }
    }
    if forall p :: p in paths ==> Adjacent(paths, p) {
      AdjacentIsTidy(paths);
    }
  }

  /** With the children in ascending order the chain is the list itself, from the head the clients select to the
      tail they select. */
  lemma {:induction false} AscendingListIsTheChain(paths: seq<CString>)
    requires AscendingPaths(paths) && paths != []
    ensures Walk(paths, Shared(paths), paths[0]) == paths && Smallest(paths[0], paths) && Largest(paths[|paths| - 1], paths)
  {
    hide Walk, Compare;
    SuffixIsWalked(paths, 0);
    assert paths[0..] == paths;
    forall q | q in paths ensures !Before(q, paths[0]) && !Before(paths[|paths| - 1], q) {
      var i :| 0 <= i < |paths| && paths[i] == q;
      CompareSign(q, q);
      CompareSign(paths[0], q);
      CompareSign(q, paths[|paths| - 1]);
    }
  }

  lemma {:induction false} SuffixIsWalked(paths: seq<CString>, i: nat)
    requires AscendingPaths(paths) && i < |paths|
    ensures Walk(paths, Shared(paths), paths[i]) == paths[i..]
    decreases |paths| - i
  {
    NextIsGreater(paths, paths[i]);
    if i + 1 < |paths| {
      NextIsFirst(paths, paths[i], i + 1);
      var k :| 0 <= k <= i + 1 && NextOf(paths, paths[i]) == Some(paths[k]);
      CompareSign(paths[i], paths[k]);
      assert k == i + 1;
      SuffixIsWalked(paths, i + 1);
      assert paths[i..] == [paths[i]] + paths[i + 1..];
    } else {
      forall q | q in paths ensures !Before(paths[i], q) {
        var j :| 0 <= j < |paths| && paths[j] == q;
        CompareSign(paths[i], q);
      }
    }
  }

  /** For any order of the lists, updates that enter at the clients' head end at the clients' tail. */
  lemma UpdatesEndAtTheTail(paths: seq<CString>, lists: CString -> seq<CString>, head: CString, tail: CString)
    requires SameServers(paths, lists) && Smallest(head, paths) && Largest(tail, paths)
    ensures var w := Walk(paths, lists, head); w != [] && w[0] == head && w[|w| - 1] == tail
  {
    hide Walk;
    WalkGoesUp(paths, lists, head);
    var w := Walk(paths, lists, head);
    OneLargest(tail, w[|w| - 1], paths);
  }

  /** A server whose callback runs after it has registered and before it has stored its own path takes the first
      server of the list as its successor. If it is the last of the chain, the links now form a cycle: what it
      forwards comes back to it. */
  lemma NotKnowingItself(paths: seq<CString>, lists: CString -> seq<CString>, own: CString)
    requires NamesOnly(paths) && SameServers(paths, lists) && Largest(own, paths)
    ensures var list := lists(own);
            && list != [] && NextOf(list, []) == Some(list[0])
            && var w := Walk(paths, lists, list[0]); w[0] == list[0] && w[|w| - 1] == own
  {
    hide Walk;
    var list := lists(own);
    assert own in list;
    assert list[0] in list && list[0] in paths;
    WalkGoesUp(paths, lists, list[0]);
    var w := Walk(paths, lists, list[0]);
    OneLargest(own, w[|w| - 1], paths);
  }

  /** When a server leaves, the chain is what it was without that server. */
  lemma LeavingServer(paths: seq<CString>, i: nat)
    requires AscendingPaths(paths) && i < |paths| && |paths| > 1
    ensures var rest := paths[..i] + paths[i + 1..]; Walk(rest, Shared(rest), rest[0]) == rest
  {
    var rest := paths[..i] + paths[i + 1..];
    forall a, b | 0 <= a < b < |rest| ensures Before(rest[a], rest[b]) {
      assert rest[a] == paths[if a < i then a else a + 1] && rest[b] == paths[if b < i then b else b + 1];
    }
    AscendingListIsTheChain(rest);
  }

  /** A server that registers under a path above all others joins at the end of the chain. */
  lemma JoiningServer(paths: seq<CString>, p: CString)
    requires AscendingPaths(paths) && forall q :: q in paths ==> Before(q, p)
    ensures var more := paths + [p]; Walk(more, Shared(more), more[0]) == more && Largest(p, more)
  {
    AscendingListIsTheChain(paths + [p]);
  }

  /** In the order c, a, b the server b is passed over: a sends its updates to c. */
  lemma PassedOver()
    ensures var a: CString, b: CString, c: CString := [1], [2], [3];
            Walk([c, a, b], Shared([c, a, b]), a) == [a, c] && Smallest(a, [c, a, b]) && !Tidy([c, a, b])
  {
    var a: CString, b: CString, c: CString := [1], [2], [3];
    var paths := [c, a, b];
    assert paths[1..] == [a, b] && paths[1..][1..] == [b];
    assert Before(a, b) && Before(b, c) && Before(a, c);
    CompareSign(a, b);
    CompareSign(b, c);
    CompareSign(a, c);
    CompareSign(a, a);
    CompareSign(c, c);
    NextIsGreater(paths, c);
    assert NextOf(paths, a) == Some(c) && NextOf(paths, c) == None;
    assert Walk(paths, Shared(paths), c) == [c];
    assert paths[0] == c && paths[2] == b && !Before(c, b) && !Smallest(b, paths) by { assert a in paths; }
  }
}
