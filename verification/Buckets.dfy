/** A row of buckets as one map: each key lives in the bucket its hash names. */
module Buckets {
  import opened Bytes
  import opened KvSpec
  import opened SortedPairs
  import HashCode

  /** All entries, bucket after bucket. */
  function Flat(bs: seq<seq<Pair>>): seq<Pair> {
    if bs == [] then [] else Flat(bs[..|bs| - 1]) + bs[|bs| - 1]
  }

  ghost predicate Placed(bs: seq<seq<Pair>>) {
    && |bs| > 0
    && (forall i :: 0 <= i < |bs| ==> Ascending(bs[i]))
    && (forall i, j :: 0 <= i < |bs| && 0 <= j < |bs[i]| ==> HashCode.Index(bs[i][j].0, |bs|) == i)
    && (forall i, j :: 0 <= i < |bs| && 0 <= j < |bs[i]| ==> bs[i][j].1 != [])
  }

  /** The map the whole row stands for. */
  function Merged(bs: seq<seq<Pair>>): Store {
    if bs == [] then map[] else Merged(bs[..|bs| - 1]) + Contents(bs[|bs| - 1])
  }

  lemma InItsBucket(bs: seq<seq<Pair>>, i: nat, k: CString)
    requires Placed(bs) && i < |bs| && k in Contents(bs[i])
    ensures HashCode.Index(k, |bs|) == i && Contents(bs[i])[k] != []
  {
    ContentsKeys(bs[i], k);
    var j :| 0 <= j < |bs[i]| && bs[i][j].0 == k;
    ContentsAt(bs[i], j);
  }

  /** The first m buckets hold what their hashes say. */
  lemma {:induction false} MergedPrefix(bs: seq<seq<Pair>>, m: nat, k: CString)
    requires Placed(bs) && m <= |bs|
    ensures var i := HashCode.Index(k, |bs|);
            && (k in Merged(bs[..m]) <==> i < m && k in Contents(bs[i]))
            && (k in Merged(bs[..m]) ==> Merged(bs[..m])[k] == Contents(bs[i])[k])
  {
    hide HashCode.Index, Ascending, Contents;
    if m > 0 {
      assert bs[..m][..m - 1] == bs[..m - 1];
      MergedPrefix(bs, m - 1, k);
      if k in Contents(bs[m - 1]) { InItsBucket(bs, m - 1, k); }
    }
  }

  /** A key is looked up in one bucket only. */
  lemma {:induction false} MergedAt(bs: seq<seq<Pair>>, k: CString)
    requires Placed(bs)
    ensures var b := Contents(bs[HashCode.Index(k, |bs|)]);
            (k in Merged(bs) <==> k in b) && (k in b ==> Merged(bs)[k] == b[k] && b[k] != [])
  {
    assert bs[..|bs|] == bs;
    MergedPrefix(bs, |bs|, k);
    if k in Contents(bs[HashCode.Index(k, |bs|)]) { InItsBucket(bs, HashCode.Index(k, |bs|), k); }
  }

  lemma {:induction false} InsertedFrom(s: seq<Pair>, e: Pair, x: Pair)
    requires x in Insert(s, e)
    ensures x == e || x in s
  {
    if s != [] && !Before(e.0, s[0].0) && e.0 != s[0].0 && x != s[0] {
      InsertedFrom(s[1..], e, x);
    }
  }

  lemma {:induction false} DeletedFrom(s: seq<Pair>, k: CString, x: Pair)
    requires x in Delete(s, k)
    ensures x in s
  {
    if s != [] && s[0].0 != k && x != s[0] {
      DeletedFrom(s[1..], k, x);
    }
  }

  /** A row whose buckets but one are as they were, and that one as it should be, is in order. */
  lemma StillPlaced(bs: seq<seq<Pair>>, i: nat, b: seq<Pair>)
    requires Placed(bs) && i < |bs| && Ascending(b)
    requires forall j :: 0 <= j < |b| ==> HashCode.Index(b[j].0, |bs|) == i && b[j].1 != []
    ensures Placed(bs[i := b])
  {
    hide HashCode.Index, Ascending;
  }

  lemma PutKeepsPlaces(bs: seq<seq<Pair>>, e: Pair, b: seq<Pair>)
    requires Placed(bs) && e.1 != [] && b == Insert(bs[HashCode.Index(e.0, |bs|)], e) && Ascending(b)
    ensures Placed(bs[HashCode.Index(e.0, |bs|) := b])
  {
    hide HashCode.Index, Insert;
    var i := HashCode.Index(e.0, |bs|);
    forall j | 0 <= j < |b| ensures HashCode.Index(b[j].0, |bs|) == i && b[j].1 != [] {
      InsertedFrom(bs[i], e, b[j]);
    }
    StillPlaced(bs, i, b);
  }

  lemma PutAt(bs: seq<seq<Pair>>, e: Pair, b: seq<Pair>, k: CString)
    requires Placed(bs) && Placed(bs[HashCode.Index(e.0, |bs|) := b])
    requires Contents(b) == Contents(bs[HashCode.Index(e.0, |bs|)])[e.0 := e.1]
    ensures var bs', m := bs[HashCode.Index(e.0, |bs|) := b], Merged(bs)[e.0 := e.1];
            (k in Merged(bs') <==> k in m) && (k in m ==> Merged(bs')[k] == m[k])
  {
    hide Placed, Merged, Contents, HashCode.Index;
    MergedAt(bs, k);
    MergedAt(bs[HashCode.Index(e.0, |bs|) := b], k);
  }

  /** Adding an entry to its bucket updates the map at its key and nowhere else. */
  lemma {:induction false} PutInBucket(bs: seq<seq<Pair>>, e: Pair, b: seq<Pair>)
    requires Placed(bs) && e.1 != [] && b == Insert(bs[HashCode.Index(e.0, |bs|)], e) && Ascending(b)
    ensures var bs' := bs[HashCode.Index(e.0, |bs|) := b];
            Placed(bs') && Merged(bs') == Merged(bs)[e.0 := e.1]
  {
    hide Merged, Insert, Contents, HashCode.Index, Ascending;
    var bs' := bs[HashCode.Index(e.0, |bs|) := b];
    PutKeepsPlaces(bs, e, b);
    InsertIsUpdate(bs[HashCode.Index(e.0, |bs|)], e);
    forall k: CString ensures k in Merged(bs') <==> k in Merged(bs)[e.0 := e.1] { PutAt(bs, e, b, k); }
    forall k | k in Merged(bs') ensures Merged(bs')[k] == Merged(bs)[e.0 := e.1][k] { PutAt(bs, e, b, k); }
  }

  lemma RemoveKeepsPlaces(bs: seq<seq<Pair>>, k: CString, b: seq<Pair>)
    requires Placed(bs) && b == Delete(bs[HashCode.Index(k, |bs|)], k) && Ascending(b)
    ensures Placed(bs[HashCode.Index(k, |bs|) := b])
  {
    hide HashCode.Index, Delete;
    var i := HashCode.Index(k, |bs|);
    forall j | 0 <= j < |b| ensures HashCode.Index(b[j].0, |bs|) == i && b[j].1 != [] {
      DeletedFrom(bs[i], k, b[j]);
    }
    StillPlaced(bs, i, b);
  }

  lemma RemoveAt(bs: seq<seq<Pair>>, k: CString, b: seq<Pair>, x: CString)
    requires Placed(bs) && Placed(bs[HashCode.Index(k, |bs|) := b])
    requires Contents(b) == Contents(bs[HashCode.Index(k, |bs|)]) - {k}
    ensures var bs', m := bs[HashCode.Index(k, |bs|) := b], Merged(bs) - {k};
            (x in Merged(bs') <==> x in m) && (x in m ==> Merged(bs')[x] == m[x])
  {
    hide Placed, Merged, Contents, HashCode.Index;
    MergedAt(bs, x);
    MergedAt(bs[HashCode.Index(k, |bs|) := b], x);
  }

  lemma {:induction false} RemoveFromBucket(bs: seq<seq<Pair>>, k: CString, b: seq<Pair>)
    requires Placed(bs) && b == Delete(bs[HashCode.Index(k, |bs|)], k) && Ascending(b)
    ensures var bs' := bs[HashCode.Index(k, |bs|) := b];
            Placed(bs') && Merged(bs') == Merged(bs) - {k}
  {
    hide Merged, Delete, Contents, HashCode.Index, Ascending;
    var bs' := bs[HashCode.Index(k, |bs|) := b];
    RemoveKeepsPlaces(bs, k, b);
    DeleteIsRemoval(bs[HashCode.Index(k, |bs|)], k);
    forall x: CString ensures x in Merged(bs') <==> x in Merged(bs) - {k} { RemoveAt(bs, k, b, x); }
    forall x | x in Merged(bs') ensures Merged(bs')[x] == (Merged(bs) - {k})[x] { RemoveAt(bs, k, b, x); }
  }

  // ----- enumeration

  lemma {:induction false} FlatPrefix(bs: seq<seq<Pair>>, m: nat)
    requires Placed(bs) && m <= |bs|
    ensures |Flat(bs[..m])| == |Merged(bs[..m])|
    ensures Lists(Flat(bs[..m]), Merged(bs[..m]))
  {
    if m > 0 {
      var init, b := bs[..m - 1], bs[m - 1];
      assert bs[..m][..m - 1] == init;
      FlatPrefix(bs, m - 1);
      ContentsSize(b);
      forall k | k in Merged(init) ensures k !in Contents(b) {
        MergedPrefix(bs, m - 1, k);
        if k in Contents(b) { InItsBucket(bs, m - 1, k); }
      }
      DisjointUnion(Merged(init), Contents(b));
      ListsMore(Flat(init), Merged(init), b);
    }
  }

  lemma DisjointUnion(a: Store, b: Store)
    requires forall k :: k in a ==> k !in b
    ensures |a + b| == |a| + |b|
  {
    assert (a + b).Keys == a.Keys + b.Keys && a.Keys !! b.Keys;
    assert |a.Keys + b.Keys| == |a.Keys| + |b.Keys|;
    assert |(a + b).Keys| == |a + b| && |a.Keys| == |a| && |b.Keys| == |b|;
  }

  lemma ListsMore(flat: seq<Pair>, m: Store, b: seq<Pair>)
    requires Lists(flat, m) && Ascending(b) && forall k :: k in m ==> k !in Contents(b)
    ensures Lists(flat + b, m + Contents(b))
  {
    var all := flat + b;
    forall i | 0 <= i < |all| ensures all[i].0 in m + Contents(b) && (m + Contents(b))[all[i].0] == all[i].1 {
      if i >= |flat| { ContentsAt(b, i - |flat|); }
    }
    forall k | k in m + Contents(b) ensures exists i :: 0 <= i < |all| && all[i].0 == k {
      if k in Contents(b) {
        ContentsKeys(b, k);
        var j :| 0 <= j < |b| && b[j].0 == k;
        assert all[|flat| + j].0 == k;
      } else {
        var j :| 0 <= j < |flat| && flat[j].0 == k;
        assert all[j].0 == k;
      }
    }
  }

  /** As many entries as keys, all of them listed: each exactly once. */
  lemma {:induction false} ListedOnce(entries: seq<Pair>, m: Store, x: nat, y: nat)
    requires Lists(entries, m) && |entries| == |m| && x < y < |entries|
    ensures entries[x].0 != entries[y].0
  {
    if entries[x].0 == entries[y].0 {
      var short := entries[..y] + entries[y + 1..];
      forall k | k in m ensures exists i :: 0 <= i < |short| && short[i].0 == k {
        var i :| 0 <= i < |entries| && entries[i].0 == k;
        if i < y { assert short[i].0 == k; } else if i > y { assert short[i - 1].0 == k; } else { assert short[x].0 == k; }
      }
      TooFew(short, m);
    }
  }

  /** A list that mentions every key is at least as long as the map. */
  lemma {:induction false} TooFew(entries: seq<Pair>, m: Store)
    requires forall k :: k in m ==> exists i :: 0 <= i < |entries| && entries[i].0 == k
    ensures |m| <= |entries|
  {
    if entries != [] {
      var last := |entries| - 1;
      var init, m' := entries[..last], m - {entries[last].0};
      forall k | k in m' ensures exists i :: 0 <= i < |init| && init[i].0 == k {
        var i :| 0 <= i < |entries| && entries[i].0 == k;
        assert init[i].0 == k;
      }
      TooFew(init, m');
      assert m.Keys <= m'.Keys + {entries[last].0};
      assert |m.Keys| <= |m'.Keys + {entries[last].0}|  by { SubsetSize(m.Keys, m'.Keys + {entries[last].0}); }
    } else {
      assert forall k :: k !in m;
    }
  }

  lemma {:induction false} SubsetSize(a: set<CString>, b: set<CString>)
    requires a <= b
    ensures |a| <= |b|
  {
    if a != {} {
      var x :| x in a;
      SubsetSize(a - {x}, b - {x});
    }
  }

  /** Going through the buckets lists every key of the map once, with its value. */
  lemma {:induction false} FlatIsComplete(bs: seq<seq<Pair>>)
    requires Placed(bs)
    ensures |Flat(bs)| == |Merged(bs)| && Lists(Flat(bs), Merged(bs))
  {
    assert bs[..|bs|] == bs;
    FlatPrefix(bs, |bs|);
  }

  lemma {:induction false} FlatBelow(bs: seq<seq<Pair>>, m: nat, x: nat)
    requires Placed(bs) && m <= |bs| && x < |Flat(bs[..m])|
    ensures HashCode.Index(Flat(bs[..m])[x].0, |bs|) < m
  {
    hide HashCode.Index, Ascending;
    assert m > 0;
    assert bs[..m][..m - 1] == bs[..m - 1];
    if x < |Flat(bs[..m - 1])| { FlatBelow(bs, m - 1, x); }
  }

  lemma {:induction false} FlatInOrder(bs: seq<seq<Pair>>, m: nat, x: nat, y: nat)
    requires Placed(bs) && m <= |bs| && x < y < |Flat(bs[..m])|
    ensures var k, l := Flat(bs[..m])[x].0, Flat(bs[..m])[y].0; var i, j := HashCode.Index(k, |bs|), HashCode.Index(l, |bs|);
            i < j || (i == j && Before(k, l))
  {
    hide HashCode.Index, Before;
    assert m > 0;
    assert bs[..m][..m - 1] == bs[..m - 1];
    var init := Flat(bs[..m - 1]);
    if y < |init| {
      FlatInOrder(bs, m - 1, x, y);
    } else if x < |init| {
      FlatBelow(bs, m - 1, x);
    }
  }

  /** The listing goes from bucket to bucket, and through each bucket in the order of the keys. */
  lemma ListedInOrder(bs: seq<seq<Pair>>, x: nat, y: nat)
    requires Placed(bs) && x < y < |Flat(bs)|
    ensures var k, l := Flat(bs)[x].0, Flat(bs)[y].0; var i, j := HashCode.Index(k, |bs|), HashCode.Index(l, |bs|);
            i < j || (i == j && Before(k, l))
  {
    hide HashCode.Index, Before;
    assert bs[..|bs|] == bs;
    FlatInOrder(bs, |bs|, x, y);
  }

  /** Equal maps in rows of the same length are equal bucket by bucket, whatever happened before. */
  lemma {:induction false} RowsAreCanonical(bs: seq<seq<Pair>>, cs: seq<seq<Pair>>)
    requires Placed(bs) && Placed(cs) && |bs| == |cs| && Merged(bs) == Merged(cs)
    ensures bs == cs
  {
    forall i | 0 <= i < |bs| ensures bs[i] == cs[i] {
      forall k: CString ensures k in Contents(bs[i]) <==> k in Contents(cs[i]) {
        SameBucket(bs, cs, i, k);
      }
      forall k | k in Contents(bs[i]) ensures Contents(bs[i])[k] == Contents(cs[i])[k] {
        SameBucket(bs, cs, i, k);
      }
      Canonical(bs[i], cs[i]);
    }
  }

  lemma SameBucket(bs: seq<seq<Pair>>, cs: seq<seq<Pair>>, i: nat, k: CString)
    requires Placed(bs) && Placed(cs) && |bs| == |cs| && Merged(bs) == Merged(cs) && i < |bs|
    ensures k in Contents(bs[i]) <==> k in Contents(cs[i])
    ensures k in Contents(bs[i]) ==> Contents(bs[i])[k] == Contents(cs[i])[k]
  {
    MergedAt(bs, k);
    MergedAt(cs, k);
    if k in Contents(bs[i]) { InItsBucket(bs, i, k); }
    if k in Contents(cs[i]) { InItsBucket(cs, i, k); }
  }
}
