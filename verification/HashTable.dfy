/** The table: an array of buckets that, together, are one map. */
module HashTable {
  import opened Bytes
  import opened KvSpec
  import opened SortedPairs
  import opened SortedList
  import opened Buckets
  import HashCode

  /** data_dup: a new block with the same bytes; none for an empty one. */
  method Dup(value: Data) returns (copy: Data?)
    ensures copy == null <==> value.bytes == []
    ensures copy != null ==> fresh(copy) && copy.bytes == value.bytes
  {
    if value.bytes == [] {
      copy := null;
    } else {
      copy := new Data(value.bytes);
    }
  }

  // ----- the objects the buckets are made of

  ghost predicate Separate(foots: seq<set<object>>) {
    forall i, j :: 0 <= i < j < |foots| ==> foots[i] !! foots[j]
  }

  ghost predicate Within(foots: seq<set<object>>, repr: set<object>) {
    forall i :: 0 <= i < |foots| ==> foots[i] <= repr
  }

  lemma Grown(foots: seq<set<object>>, index: nat, foot: set<object>, repr: set<object>)
    requires Separate(foots) && Within(foots, repr) && index < |foots|
    requires forall o :: o in foot && o in repr ==> o in foots[index]
    ensures Separate(foots[index := foot]) && Within(foots[index := foot], repr + foot)
  {
    forall j | 0 <= j < |foots| && j != index ensures foot !! foots[j] {
      assert foots[index] !! foots[j];
    }
  }

  /** Bucket i is in order, shows the i-th view and lives on the i-th set of objects. */
  ghost predicate Holds(lists: seq<List>, views: seq<seq<Pair>>, foots: seq<set<object>>, i: nat)
    requires i < |lists| == |views| == |foots|
    reads lists[i], lists[i].Repr
  {
    lists[i].Valid() && lists[i].view == views[i] && lists[i].Repr == foots[i]
  }

  lemma {:induction false} EmptyRow(bs: seq<seq<Pair>>)
    requires forall i :: 0 <= i < |bs| ==> bs[i] == []
    ensures (bs != [] ==> Placed(bs)) && Merged(bs) == map[]
  {
    if bs != [] { EmptyRow(bs[..|bs| - 1]); }
  }

  class Table {
    const lists: seq<List>
    ghost var views: seq<seq<Pair>>
    ghost var foots: seq<set<object>>
    ghost var Repr: set<object>

    ghost predicate Valid()
      reads this, Repr
      ensures Valid() ==> this in Repr
    {
      && this in Repr && |lists| == |views| == |foots|
      && (forall i :: 0 <= i < |lists| ==> lists[i] in foots[i] && this !in foots[i])
      && Within(foots, Repr)
      && (forall i :: 0 <= i < |lists| ==> lists[i].Repr == foots[i])
      && (forall i :: 0 <= i < |lists| ==> Holds(lists, views, foots, i))
      && Separate(foots)
      && Placed(views)
    }

    /** The map the table stands for. */
    ghost function Model(): Store
      reads this
    {
      Merged(views)
    }

    constructor (rows: seq<List>, ghost views: seq<seq<Pair>>, ghost foots: seq<set<object>>, ghost repr: set<object>)
      requires |rows| == |views| == |foots| > 0 && Separate(foots) && Within(foots, repr)
      requires forall i :: 0 <= i < |rows| ==> rows[i] in foots[i] && Holds(rows, views, foots, i) && views[i] == []
      ensures Valid() && Model() == map[] && lists == rows && Repr == repr + {this}
    {
      lists := rows;
      this.views := views;
      this.foots := foots;
      Repr := repr + {this};
      new;
      EmptyRow(views);
    }

    /** The entries, bucket after bucket, are all entries of the map, and none of them is empty. */
    lemma Complete()
      requires Valid()
      ensures |Flat(views)| == |Model()| && Lists(Flat(views), Model())
      ensures forall j :: 0 <= j < |Flat(views)| ==> Flat(views)[j].1 != []
    {
      FlatIsComplete(views);
      forall j | 0 <= j < |Flat(views)| ensures Flat(views)[j].1 != [] {
        MergedAt(views, Flat(views)[j].0);
      }
    }

    /** Adds an entry that belongs to no bucket yet to its bucket. */
    method AddTo(index: nat, entry: Entry) returns (r: int, ghost added: set<object>)
      requires Valid() && entry !in Repr && entry.value !in Repr && entry.value.bytes != []
      requires index == HashCode.Index(entry.key, |lists|)
      modifies this, lists[index].Repr
      ensures Valid() && Repr == old(Repr) + {entry, entry.value} + added && fresh(added)
      ensures views == old(views)[index := Insert(old(views)[index], (entry.key, entry.value.bytes))]
      ensures Model() == old(Model())[entry.key := entry.value.bytes]
      ensures r == if entry.key in Contents(old(views)[index]) then 1 else 0
    {
      hide List.Linked, List.Threaded, Ascending, Placed, Merged, Insert, Contents, HashCode.Index;
      ghost var fs, vs := foots, views;
      assert Holds(lists, vs, fs, index);
      r, added := lists[index].Add(entry);
      ghost var b := lists[index].view;
      PutInBucket(vs, (entry.key, entry.value.bytes), b);
      Grown(fs, index, lists[index].Repr, old(Repr));
      views := vs[index := b];
      foots := fs[index := lists[index].Repr];
      Repr := Repr + {entry, entry.value} + added;
      assert Repr == old(Repr) + lists[index].Repr;
      forall i | 0 <= i < |lists| ensures Holds(lists, views, foots, i) {
        assert old(Holds(lists, vs, fs, i));
        if i != index { assert fs[index] !! fs[i]; }
      }
    }

    /** table_put: 0, or -1 for a missing key, a missing value or an empty block. The table keeps copies. */
    method Put(key: Option<CString>, value: Data?) returns (r: int)
      requires Valid()
      modifies Repr
      ensures Valid() && fresh(Repr - old(Repr))
      ensures var stored := key.Some? && value != null && old(value.bytes) != [];
              if stored
              then r == 0 && Model() == old(Model())[key.value := old(value.bytes)]
                   && OnlyBucket(old(views), views, HashCode.Index(key.value, |lists|))
              else r == -1 && views == old(views)
    {
      if key == None || value == null { return -1; }
      var index := HashCode.Compute(key.value, |lists|);
      var copy := Dup(value);
      if copy == null { return -1; }
      var entry := new Entry(key.value, copy);
      ghost var added;
      hide List.Linked, Placed, Merged, Insert, HashCode.Index;
      r, added := AddTo(index, entry);
      if r == 1 { r := 0; }
    }

    /** table_get: a copy of the stored block, or null. */
    method Get(key: Option<CString>) returns (value: Data?)
      requires Valid()
      ensures value == null <==> key == None || key.value !in Model()
      ensures value != null ==> fresh(value) && value.bytes == Model()[key.value]
    {
      if key == None { return null; }
      var index := HashCode.Compute(key.value, |lists|);
      MergedAt(views, key.value);
      hide List.Linked, Placed, Merged, Contents, HashCode.Index;
      assert Holds(lists, views, foots, index);
      var entry := lists[index].Get(key.value);
      if entry == null { return null; }
      value := Dup(entry.value);
    }

    /** table_remove: 0 when the key was there and is gone, 1 when it was not there, -1 without a key. */
    method Remove(key: Option<CString>) returns (r: int)
      requires Valid()
      modifies Repr
      ensures Valid() && Repr == old(Repr)
      ensures r == if key == None then -1 else if key.value in old(Model()) then 0 else 1
      ensures key.Some? ==> Model() == old(Model()) - {key.value}
                            && OnlyBucket(old(views), views, HashCode.Index(key.value, |lists|))
      ensures key == None ==> views == old(views)
    {
      if key == None { return -1; }
      var index := HashCode.Compute(key.value, |lists|);
      r := RemoveFrom(index, key.value);
    }

    method RemoveFrom(index: nat, key: CString) returns (r: int)
      requires Valid() && index == HashCode.Index(key, |lists|)
      modifies this, lists[index].Repr
      ensures Valid() && Repr == old(Repr)
      ensures views == old(views)[index := Delete(old(views)[index], key)] && Model() == old(Model()) - {key}
      ensures r == if key in old(Model()) then 0 else 1
    {
      hide List.Linked, List.Threaded, Ascending, Placed, Merged, Delete, Contents, HashCode.Index;
      ghost var fs, vs := foots, views;
      assert Holds(lists, vs, fs, index);
      MergedAt(vs, key);
      r := lists[index].Remove(key);
      ghost var b := lists[index].view;
      RemoveFromBucket(vs, key, b);
      views := vs[index := b];
      forall i | 0 <= i < |lists| ensures Holds(lists, views, foots, i) {
        assert old(Holds(lists, vs, fs, i));
        if i != index { assert fs[index] !! fs[i]; }
      }
    }

    /** table_size adds up the lengths of the buckets. */
    method Size() returns (count: int)
      requires Valid()
      ensures count == |Model()|
    {
      hide List.Linked, Placed, Merged;
      count := 0;
      var i := 0;
      while i < |lists|
        invariant 0 <= i <= |lists| && count == |Flat(views[..i])|
      {
        assert Holds(lists, views, foots, i);
        assert views[..i + 1][..i] == views[..i];
        var result := lists[i].Count();
        count := count + result;
        i := i + 1;
      }
      assert views[..i] == views;
      FlatIsComplete(views);
    }

    /** table_get_keys: an array with every key, bucket after bucket, and the null pointer after the last. */
    method GetKeys() returns (keys: array<Option<CString>>)
      requires Valid()
      ensures fresh(keys) && keys.Length == |Model()| + 1
      ensures keys[..] == Present(Flat(views)) + [None]
    {
      hide List.Linked, Placed, Merged, Flat, Present, Lists;
      FlatIsComplete(views);
      var n := Size();
      keys := new Option<CString>[n + 1](_ => None);
      var written := 0;
      var i := 0;
      NothingPresent();
      assert views[..0] == [] && keys[..0] == [];
      while i < |lists|
        invariant 0 <= i <= |lists| && written == |Flat(views[..i])| <= n
        invariant keys[..written] == Present(Flat(views[..i]))
        invariant keys[n] == None
      {
        FlatNext(views, i);
        written := CopyBucketKeys(i, keys, written);
        i := i + 1;
      }
      assert views[..i] == views;
      assert keys[..] == keys[..n] + [keys[n]];
    }

    method CopyBucketKeys(i: nat, keys: array<Option<CString>>, written: nat) returns (next: nat)
      requires Valid() && i < |lists| && keys !in Repr && written + |views[i]| < keys.Length
      modifies keys
      ensures next == written + |views[i]| && keys[..next] == old(keys[..written]) + Present(views[i])
      ensures keys[keys.Length - 1] == old(keys[keys.Length - 1])
    {
      hide List.Linked, Placed;
      assert Holds(lists, views, foots, i);
      var part := lists[i].GetKeys();
      if part == null { return written; }
      var m := lists[i].Count();
      assert part[..m] == Present(views[i]);
      ghost var was := keys[..];
      CopyKeys(part, m, keys, written);
      next := written + m;
      assert keys[next..][keys.Length - 1 - next] == was[next..][keys.Length - 1 - next];
    }

    /** table_get_entries: copies of all entries, bucket after bucket, and the null pointer after the last. */
    method GetEntries() returns (entries: array<Entry?>)
      requires Valid()
      ensures fresh(entries) && entries.Length == |Model()| + 1 && entries[|Model()|] == null
      ensures Carries(entries[..|Model()|], Flat(views))
      ensures forall j :: 0 <= j < |Model()| ==> fresh(entries[j]) && fresh(entries[j].value)
    {
      hide List.Linked, Placed, Merged, Carries, Flat, Lists;
      FlatIsComplete(views);
      var n := Size();
      entries := new Entry?[n + 1](_ => null);
      var c := 0;
      var i := 0;
      NothingCarried();
      assert views[..0] == [] && entries[..0] == [];
      while i < |lists|
        invariant 0 <= i <= |lists| && c == |Flat(views[..i])| <= n
        invariant Carries(entries[..c], Flat(views[..i]))
        invariant forall j :: 0 <= j < c ==> fresh(entries[j]) && fresh(entries[j].value)
        invariant entries[n] == null
      {
        FlatNext(views, i);
        ghost var es := entries[..c];
        ghost var from := c;
        c := CopyBucket(i, entries, c);
        CarriesMore(es, Flat(views[..i]), entries[from..c], views[i]);
        assert entries[..c] == es + entries[from..c];
        i := i + 1;
      }
      assert views[..i] == views;
    }

    method CopyBucket(i: nat, entries: array<Entry?>, c: nat) returns (next: nat)
      requires Valid() && i < |lists| && entries !in Repr && c + |views[i]| < entries.Length
      modifies entries
      ensures next == c + |views[i]|
      ensures forall j :: 0 <= j < c ==> entries[j] == old(entries[j])
      ensures entries[..c] == old(entries[..c]) && entries[entries.Length - 1] == old(entries[entries.Length - 1])
      ensures Carries(entries[c..next], views[i])
      ensures forall j :: c <= j < next ==> fresh(entries[j]) && fresh(entries[j].value)
    {
      hide List.Linked, Placed, Carries;
      assert Holds(lists, views, foots, i);
      ghost var was := entries[..];
      next := lists[i].CopyEntries(entries, c);
      assert forall j :: 0 <= j < c ==> entries[..c][j] == was[..c][j];
      assert entries[next..][entries.Length - 1 - next] == was[next..][entries.Length - 1 - next];
    }
  }

  lemma NothingPresent()
    ensures Flat([]) == [] && Present([]) == []
  {
  }

  lemma NothingCarried()
    ensures Flat([]) == [] && Carries([], [])
  {
  }

  lemma CarriesMore(es: seq<Entry?>, s: seq<Pair>, fs: seq<Entry?>, t: seq<Pair>)
    requires Carries(es, s) && Carries(fs, t)
    ensures Carries(es + fs, s + t)
  {
  }

  /** The inner loop of table_get_keys. */
  method CopyKeys(part: array<Option<CString>>, m: nat, keys: array<Option<CString>>, written: nat)
    requires part != keys && m <= part.Length && written + m <= keys.Length
    modifies keys
    ensures keys[..written + m] == old(keys[..written]) + part[..m]
    ensures keys[written + m..] == old(keys[written + m..])
  {
    var j := 0;
    while j < m
      invariant 0 <= j <= m
      invariant keys[..written + j] == old(keys[..written]) + part[..j]
      invariant keys[written + j..] == old(keys[written + j..])
    {
      keys[written + j] := part[j];
      j := j + 1;
    }
  }

  /** The keys of these entries, none of them null. */
  function Present(s: seq<Pair>): seq<Option<CString>> {
    seq(|s|, i requires 0 <= i < |s| => Some(s[i].0))
  }

  lemma FlatNext(bs: seq<seq<Pair>>, m: nat)
    requires m < |bs|
    ensures Flat(bs[..m + 1]) == Flat(bs[..m]) + bs[m] && |Flat(bs[..m + 1])| <= |Flat(bs)|
    ensures Present(Flat(bs[..m + 1])) == Present(Flat(bs[..m])) + Present(bs[m])
  {
    assert bs[..m + 1][..m] == bs[..m];
    FlatGrows(bs, m + 1);
  }

  lemma {:induction false} FlatGrows(bs: seq<seq<Pair>>, m: nat)
    requires m <= |bs|
    ensures |Flat(bs[..m])| <= |Flat(bs)|
    decreases |bs| - m
  {
    if m < |bs| {
      assert bs[..m + 1][..m] == bs[..m];
      FlatGrows(bs, m + 1);
    } else {
      assert bs[..m] == bs;
    }
  }

  ghost predicate OnlyBucket(before: seq<seq<Pair>>, after: seq<seq<Pair>>, index: nat) {
    |before| == |after| && forall i :: 0 <= i < |before| && i != index ==> after[i] == before[i]
  }

  /** table_create: no table without buckets. */
  method Create(n: int) returns (t: Table?)
    ensures t == null <==> n <= 0
    ensures t != null ==> t.Valid() && fresh(t.Repr) && t.Model() == map[] && |t.lists| == n
  {
    if n <= 0 { return null; }
    var rows: seq<List> := [];
    ghost var views: seq<seq<Pair>>, foots: seq<set<object>>, repr: set<object> := [], [], {};
    var i := 0;
    while i < n
      invariant 0 <= i <= n && |rows| == |views| == |foots| == i && Separate(foots) && Within(foots, repr) && fresh(repr)
      invariant forall j :: 0 <= j < i ==> rows[j] in foots[j] && Holds(rows, views, foots, j) && views[j] == []
    {
      var list := new List();
      assert list.Repr !! repr;
      rows, views, foots, repr := rows + [list], views + [[]], foots + [list.Repr], repr + list.Repr;
      i := i + 1;
    }
    t := new Table(rows, views, foots, repr);
  }
}
