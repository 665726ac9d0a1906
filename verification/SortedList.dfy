/** The bucket: a singly linked list of entries, ascending by key, relinked in place. */
module SortedList {
  import opened Bytes
  import opened KvSpec
  import opened SortedPairs

  /** A data block on the heap. */
  class Data {
    var bytes: Block

    constructor (bytes: Block)
      ensures this.bytes == bytes
    {
      this.bytes := bytes;
    }
  }

  class Entry {
    var key: CString
    var value: Data

    constructor (key: CString, value: Data)
      ensures this.key == key && this.value == value
    {
      this.key, this.value := key, value;
    }
  }

  class Node {
    var entry: Entry
    var next: Node?

    constructor (entry: Entry, next: Node?)
      ensures this.entry == entry && this.next == next
    {
      this.entry, this.next := entry, next;
    }
  }

  // ----- sequences of nodes

  ghost predicate Distinct(ns: seq<Node>) {
    forall i, j :: 0 <= i < j < |ns| ==> ns[i] != ns[j]
  }

  /** Each node points to the next one, the last to none. */
  ghost predicate Chained(ns: seq<Node>)
    reads ns`next
  {
    && (forall i, j :: 0 <= i < j < |ns| && j == i + 1 ==> ns[i].next == ns[j])
    && (ns != [] ==> ns[|ns| - 1].next == null)
  }

  ghost predicate Owned(ns: seq<Node>, repr: set<object>)
    reads repr
  {
    forall n :: n in ns ==> n in repr && n.entry in repr && n.entry.value in repr
  }

  /** The list shows the entries its nodes hold. */
  ghost predicate Shows(view: seq<Pair>, ns: seq<Node>)
    reads ns`entry, (set n | n in ns :: n.entry), (set n | n in ns :: n.entry.value)
  {
    |view| == |ns| && forall i :: 0 <= i < |ns| ==> view[i].0 == ns[i].entry.key && view[i].1 == ns[i].entry.value.bytes
  }

  lemma OwnedNew(was: seq<Node>, node: Node, i: nat, repr: set<object>)
    requires i <= |was| && Owned(was, repr) && Owned([node], repr)
    ensures Owned(was[..i] + [node] + was[i..], repr)
  {
    assert node in [node];
  }

  lemma OwnedLess(was: seq<Node>, i: nat, repr: set<object>)
    requires i < |was| && Owned(was, repr)
    ensures Owned(was[..i] + was[i + 1..], repr)
  {
  }

  lemma OnePerNode(view: seq<Pair>, ns: seq<Node>)
    requires Shows(view, ns)
    ensures |view| == |ns|
  {
  }

  lemma ShowsNew(view: seq<Pair>, was: seq<Node>, node: Node, i: nat)
    requires i <= |was| && Shows(view, was)
    ensures Shows(view[..i] + [(node.entry.key, node.entry.value.bytes)] + view[i..], was[..i] + [node] + was[i..])
  {
    var ns := was[..i] + [node] + was[i..];
    assert forall j :: 0 <= j < |ns| ==> ns[j] == if j < i then was[j] else if j == i then node else was[j - 1];
  }

  lemma ShowsLess(view: seq<Pair>, was: seq<Node>, i: nat)
    requires i < |was| && Shows(view, was)
    ensures Shows(view[..i] + view[i + 1..], was[..i] + was[i + 1..])
  {
    var ns := was[..i] + was[i + 1..];
    assert forall j :: 0 <= j < |ns| ==> ns[j] == if j < i then was[j] else was[j + 1];
  }

  lemma WithNew(was: seq<Node>, node: Node, i: nat)
    requires i <= |was| && Distinct(was) && node !in was
    requires forall a, b :: 0 <= a < b < |was| && b == a + 1 && b != i ==> was[a].next == was[b]
    requires i > 0 ==> was[i - 1].next == node
    requires node.next == if i < |was| then was[i] else null
    requires i < |was| ==> was[|was| - 1].next == null
    ensures Distinct(was[..i] + [node] + was[i..]) && Chained(was[..i] + [node] + was[i..])
  {
    var ns := was[..i] + [node] + was[i..];
    assert forall j :: 0 <= j < |ns| ==> ns[j] == if j < i then was[j] else if j == i then node else was[j - 1];
  }

  lemma Without(was: seq<Node>, i: nat)
    requires i < |was| && Distinct(was)
    requires forall a, b :: 0 <= a < b < |was| && b == a + 1 && a != i && b != i ==> was[a].next == was[b]
    requires i > 0 ==> was[i - 1].next == if i + 1 < |was| then was[i + 1] else null
    requires i + 1 < |was| ==> was[|was| - 1].next == null
    ensures Distinct(was[..i] + was[i + 1..]) && Chained(was[..i] + was[i + 1..])
  {
    var ns := was[..i] + was[i + 1..];
    assert forall j :: 0 <= j < |ns| ==> ns[j] == if j < i then was[j] else was[j + 1];
  }

  class List {
    var head: Node?
    var size: int
    ghost var nodes: seq<Node>
    ghost var view: seq<Pair>  // the entries, in list order
    ghost var Repr: set<object>

    ghost predicate Linked()
      reads this, Repr
    {
      && this in Repr
      && Owned(nodes, Repr) && Shows(view, nodes) && Threaded()
    }

    ghost predicate Valid()
      reads this, Repr
      ensures Valid() ==> this in Repr
    {
      Linked() && Ascending(view)
    }

    constructor ()
      ensures Valid() && fresh(Repr) && view == []
    {
      head, size, nodes, view, Repr := null, 0, [], [], {this};
    }

    /** The pointers are those of the node sequence. */
    ghost predicate Threaded()
      reads this, nodes`next
    {
      Distinct(nodes) && Chained(nodes) && head == (if nodes == [] then null else nodes[0]) && size == |nodes|
    }

    method Splice(prev: Node?, entry: Entry, ghost i: nat) returns (node: Node)
      requires Threaded() && i <= |nodes|
      requires prev == if i == 0 then null else nodes[i - 1]
      modifies this`head, this`size, this`nodes, nodes`next
      ensures fresh(node) && node.entry == entry
      ensures nodes == old(nodes[..i]) + [node] + old(nodes[i..]) && Threaded()
    {
      ghost var was := nodes;
      if prev == null {
        node := new Node(entry, head);
        head := node;
      } else {
        node := new Node(entry, prev.next);
        prev.next := node;
      }
      size := size + 1;
      WithNew(was, node, i);
      nodes := was[..i] + [node] + was[i..];
    }

    method Cut(prev: Node?, node: Node, ghost i: nat)
      requires Threaded() && i < |nodes| && node == nodes[i]
      requires prev == if i == 0 then null else nodes[i - 1]
      modifies this`head, this`size, this`nodes, nodes`next
      ensures nodes == old(nodes[..i]) + old(nodes[i + 1..]) && Threaded()
    {
      ghost var was := nodes;
      assert node.next == if i + 1 < |was| then was[i + 1] else null;
      if prev == null {
        head := node.next;
      } else {
        prev.next := node.next;
      }
      size := size - 1;
      Without(was, i);
      nodes := was[..i] + was[i + 1..];
    }

    /** The new node is in its place and belongs to the list; the view does not show it yet. */
    method LinkNode(prev: Node?, entry: Entry, ghost i: nat) returns (node: Node)
      requires Linked() && i <= |nodes|
      requires prev == if i == 0 then null else nodes[i - 1]
      modifies this`head, this`size, this`nodes, this`Repr, nodes`next
      ensures fresh(node) && node.entry == entry && Repr == old(Repr) + {node, entry, entry.value} && this in Repr
      ensures nodes == old(nodes[..i]) + [node] + old(nodes[i..])
      ensures Threaded() && Owned(nodes, Repr) && Shows(view, old(nodes))
    {
      hide Distinct, Chained, Shows;
      ghost var was := nodes;
      node := Splice(prev, entry, i);
      Repr := Repr + {node, entry, entry.value};
      OwnedNew(was, node, i, Repr);
    }

    /** Puts a new node for the entry behind prev, or at the head when prev is null. */
    method LinkNew(prev: Node?, entry: Entry, ghost i: nat) returns (node: Node)
      requires Linked() && i <= |nodes|
      requires prev == if i == 0 then null else nodes[i - 1]
      modifies this, nodes`next
      ensures fresh(node) && Repr == old(Repr) + {node, entry, entry.value}
      ensures view == old(view[..i]) + [(entry.key, entry.value.bytes)] + old(view[i..])
      ensures Linked()
    {
      hide Distinct, Chained, Shows;
      ghost var was := nodes;
      OnePerNode(view, was);
      node := LinkNode(prev, entry, i);
      ShowsNew(view, was, node, i);
      view := view[..i] + [(entry.key, entry.value.bytes)] + view[i..];
    }

    /** Takes node i, which follows prev, out of the list. */
    method Unlink(prev: Node?, node: Node, ghost i: nat)
      requires Linked() && i < |nodes| && node == nodes[i]
      requires prev == if i == 0 then null else nodes[i - 1]
      modifies this, nodes`next
      ensures view == old(view[..i]) + old(view[i + 1..]) && Repr == old(Repr)
      ensures Linked()
    {
      hide Distinct, Chained;
      ghost var was := nodes;
      Cut(prev, node, i);
      ShowsLess(view, was, i);
      OwnedLess(was, i, Repr);
      view := view[..i] + view[i + 1..];
    }

    /** Puts another entry into node i. */
    method Replace(node: Node, entry: Entry, ghost i: nat)
      requires Linked() && i < |nodes| && node == nodes[i]
      modifies this, node`entry
      ensures view == old(view)[i := (entry.key, entry.value.bytes)] && Repr == old(Repr) + {entry, entry.value}
      ensures Linked()
    {
      assert forall j :: 0 <= j < |nodes| && j != i ==> nodes[j] != node;
      hide Threaded, Distinct, Chained;
      node.entry := entry;
      view := view[i := (entry.key, entry.value.bytes)];
      Repr := Repr + {entry, entry.value};
    }

    /** Walks from the head to the first node whose key is not below key. */
    method Seek(key: CString) returns (prev: Node?, node: Node?, ghost i: nat)
      requires Valid()
      ensures i <= |nodes| && node == (if i < |nodes| then nodes[i] else null)
      ensures prev == if i == 0 then null else nodes[i - 1]
      ensures forall j :: 0 <= j < i ==> Before(view[j].0, key)
      ensures i < |nodes| ==> Compare(key, view[i].0) <= 0
    {
      prev, node, i := null, head, 0;
      while node != null && Compare(key, node.entry.key) > 0
        invariant i <= |nodes| && node == (if i < |nodes| then nodes[i] else null)
        invariant prev == if i == 0 then null else nodes[i - 1]
        invariant forall j :: 0 <= j < i ==> Before(view[j].0, key)
        decreases |nodes| - i
      {
        CompareSign(key, node.entry.key);
        assert i + 1 < |nodes| ==> nodes[i].next == nodes[i + 1];
        prev, node, i := node, node.next, i + 1;
      }
    }

    /** Where an entry belongs, and whether its key is there already. */
    method Place(entry: Entry) returns (prev: Node?, node: Node?, equal: bool, ghost i: nat)
      requires Valid()
      ensures i <= |nodes| && prev == if i == 0 then null else nodes[i - 1]
      ensures equal ==> i < |nodes| && node == nodes[i]
      ensures equal <==> entry.key in Contents(view)
      ensures var e := (entry.key, entry.value.bytes);
              && Insert(view, e) == (if equal then view[i := e] else view[..i] + [e] + view[i..])
              && Ascending(Insert(view, e))
    {
      ghost var e := (entry.key, entry.value.bytes);
      prev, node, i := Seek(entry.key);
      SearchStops(view, e, i);
      equal := node != null && Compare(entry.key, node.entry.key) == 0;
      assert equal ==> view[i := e] == view[..i] + [e] + view[i + 1..];
    }

    /** list_add: 1 when an entry with that key was replaced, 0 when the key is new. The entry itself, not a
        copy, becomes part of the list. */
    method Add(entry: Entry) returns (r: int, ghost added: set<object>)
      requires Valid()
      modifies Repr
      ensures Valid() && Repr == old(Repr) + {entry, entry.value} + added && fresh(added)
      ensures view == Insert(old(view), (entry.key, entry.value.bytes))
      ensures r == if entry.key in Contents(old(view)) then 1 else 0
    {
      hide Distinct, Chained, Shows, Insert, Contents, Ascending;
      var prev, node, equal;
      ghost var i;
      prev, node, equal, i := Place(entry);
      if equal {
        Replace(node, entry, i);
        r, added := 1, {};
      } else {
        var n := LinkNew(prev, entry, i);
        r, added := 0, {n};
      }
    }

    /** Walks from the head to the first node with that key. */
    method SeekEqual(key: CString) returns (prev: Node?, node: Node?, ghost i: nat)
      requires Valid()
      ensures i <= |nodes| && node == (if i < |nodes| then nodes[i] else null)
      ensures prev == if i == 0 then null else nodes[i - 1]
      ensures (forall j :: 0 <= j < i ==> view[j].0 != key) && (i < |nodes| ==> view[i].0 == key)
    {
      prev, node, i := null, head, 0;
      while node != null && Compare(node.entry.key, key) != 0
        invariant i <= |nodes| && node == (if i < |nodes| then nodes[i] else null)
        invariant prev == if i == 0 then null else nodes[i - 1]
        invariant forall j :: 0 <= j < i ==> view[j].0 != key
        decreases |nodes| - i
      {
        CompareSign(node.entry.key, key);
        assert i + 1 < |nodes| ==> nodes[i].next == nodes[i + 1];
        prev, node, i := node, node.next, i + 1;
      }
      if node != null { CompareSign(node.entry.key, key); }
    }

    /** list_remove: 0 when the entry was found and taken out, 1 when there is none with that key. */
    method Remove(key: CString) returns (r: int)
      requires Valid()
      modifies Repr
      ensures Valid() && Repr == old(Repr)
      ensures view == Delete(old(view), key)
      ensures r == if key in Contents(old(view)) then 0 else 1
    {
      hide Distinct, Chained, Delete, Contents, Ascending;
      var prev, node;
      ghost var i;
      prev, node, i := SeekEqual(key);
      SearchEnds(view, key, i);
      if node == null {
        r := 1;
      } else {
        Unlink(prev, node, i);
        r := 0;
      }
    }

    /** list_get: the entry itself, not a copy. */
    method Get(key: CString) returns (entry: Entry?)
      requires Valid()
      ensures entry == null <==> key !in Contents(view)
      ensures entry != null ==> entry in Repr && entry.value in Repr && entry.key == key && entry.value.bytes == Contents(view)[key]
    {
      var prev, node;
      ghost var i;
      prev, node, i := SeekEqual(key);
      ContentsKeys(view, key);
      if node == null {
        entry := null;
      } else {
        ContentsAt(view, i);
        entry := node.entry;
      }
    }

    /** list_size counts the nodes. */
    method Count() returns (count: int)
      requires Valid()
      ensures count == |view| == size
    {
      count := 0;
      var node := head;
      while node != null
        invariant 0 <= count <= |nodes| && node == (if count < |nodes| then nodes[count] else null)
        decreases |nodes| - count
      {
        assert count + 1 < |nodes| ==> nodes[count].next == nodes[count + 1];
        count := count + 1;
        node := node.next;
      }
    }

    /** Writes a copy of every entry into the array, from index c on. */
    method CopyEntries(entries: array<Entry?>, c: nat) returns (next: nat)
      requires Valid() && c + |view| <= entries.Length && entries !in Repr
      modifies entries
      ensures next == c + |view|
      ensures entries[..c] == old(entries[..c]) && entries[next..] == old(entries[next..])
      ensures Carries(entries[c..next], view)
      ensures forall j :: c <= j < next ==> fresh(entries[j]) && fresh(entries[j].value)
    {
      next := c;
      ghost var i := 0;
      var node := head;
      while node != null
        invariant 0 <= i <= |nodes| && node == (if i < |nodes| then nodes[i] else null) && next == c + i
        invariant entries[..c] == old(entries[..c]) && entries[c + |view|..] == old(entries[c + |view|..])
        invariant forall j :: c <= j < next ==>
                                && entries[j] != null && fresh(entries[j]) && fresh(entries[j].value)
                                && entries[j].key == view[j - c].0 && entries[j].value.bytes == view[j - c].1
        decreases |nodes| - i
      {
        var value := new Data(node.entry.value.bytes);
        entries[next] := new Entry(node.entry.key, value);
        assert i + 1 < |nodes| ==> nodes[i].next == nodes[i + 1];
        node := node.next;
        next, i := next + 1, i + 1;
      }
    }

    /** list_get_keys: a new array with the keys in list order and None, the null pointer, after the last;
        no array at all for an empty list. */
    method GetKeys() returns (keys: array?<Option<CString>>)
      requires Valid()
      ensures keys == null <==> view == []
      ensures keys != null ==> fresh(keys) && keys.Length == |view| + 1 && keys[|view|] == None
      ensures keys != null ==> forall j :: 0 <= j < |view| ==> keys[j] == Some(view[j].0)
    {
      if head == null { return null; }
      keys := new Option<CString>[size + 1](_ => None);
      var i := 0;
      var node := head;
      while node != null
        invariant 0 <= i <= |nodes| && node == (if i < |nodes| then nodes[i] else null)
        invariant forall j :: 0 <= j < i ==> keys[j] == Some(view[j].0)
        decreases |nodes| - i
      {
        keys[i] := Some(node.entry.key);
        assert i + 1 < |nodes| ==> nodes[i].next == nodes[i + 1];
        node := node.next;
        i := i + 1;
      }
      keys[i] := None;
    }
  }

  /** These objects carry these entries. */
  ghost predicate Carries(entries: seq<Entry?>, s: seq<Pair>)
    reads set e: Entry | e in entries
    reads set e: Entry | e in entries :: e.value
  {
    && |entries| == |s|
    && (forall j :: 0 <= j < |s| ==> entries[j] != null && entries[j].key == s[j].0 && entries[j].value.bytes == s[j].1)
  }

  /** What the search for a place has found when it stops at i. */
  lemma {:induction false} SearchStops(s: seq<Pair>, e: Pair, i: nat)
    requires Ascending(s) && i <= |s| && (forall j :: 0 <= j < i ==> Before(s[j].0, e.0))
    requires i < |s| ==> Compare(e.0, s[i].0) <= 0
    ensures i < |s| ==> (Compare(e.0, s[i].0) == 0 <==> e.0 == s[i].0)
    ensures Insert(s, e) == s[..i] + [e] + s[if i < |s| && e.0 == s[i].0 then i + 1 else i..]
    ensures Ascending(Insert(s, e))
    ensures e.0 in Contents(s) <==> i < |s| && e.0 == s[i].0
  {
    if i < |s| { CompareSign(e.0, s[i].0); }
    InsertAt(s, e, i);
    SplicePreservesOrder(s, e, i);
    ContentsKeys(s, e.0);
    CompareSign(e.0, e.0);
    if j :| 0 <= j < |s| && s[j].0 == e.0 && j > i {
      BeforeTransitive(s[i].0, s[j].0, s[i].0);
    }
  }

  lemma SearchEnds(s: seq<Pair>, key: CString, i: nat)
    requires Ascending(s) && i <= |s| && (forall j :: 0 <= j < i ==> s[j].0 != key) && (i < |s| ==> s[i].0 == key)
    ensures Delete(s, key) == (if i < |s| then s[..i] + s[i + 1..] else s) && Ascending(Delete(s, key))
    ensures key in Contents(s) <==> i < |s|
  {
    DeleteAt(s, key, i);
    ContentsKeys(s, key);
    if i < |s| { CutPreservesOrder(s, i); }
  }
}
