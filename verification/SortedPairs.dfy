/** Ascending lists of entries, and the maps they stand for. */
module SortedPairs {
  import opened Bytes
  import opened KvSpec

  ghost predicate Ascending(s: seq<Pair>) {
    forall i, j :: 0 <= i < j < |s| ==> Before(s[i].0, s[j].0)
  }

  /** The map a list stands for. */
  function Contents(s: seq<Pair>): Store {
    if s == [] then map[] else Contents(s[1..])[s[0].0 := s[0].1]
  }

  function Insert(s: seq<Pair>, e: Pair): seq<Pair> {
    if s == [] || Before(e.0, s[0].0) then [e] + s
    else if e.0 == s[0].0 then [e] + s[1..]
    else [s[0]] + Insert(s[1..], e)
  }

  function Delete(s: seq<Pair>, k: CString): seq<Pair> {
    if s == [] then [] else if s[0].0 == k then s[1..] else [s[0]] + Delete(s[1..], k)
  }

  function Keys(s: seq<Pair>): seq<CString> {
    seq(|s|, i requires 0 <= i < |s| => s[i].0)
  }

  lemma AscendingTail(s: seq<Pair>)
    requires Ascending(s) && s != []
    ensures Ascending(s[1..]) && forall i :: 0 <= i < |s[1..]| ==> Before(s[0].0, s[1..][i].0)
  {
    forall i | 0 <= i < |s[1..]| ensures Before(s[0].0, s[1..][i].0) {
      assert s[1..][i] == s[i + 1];
    }
    forall i, j | 0 <= i < j < |s[1..]| ensures Before(s[1..][i].0, s[1..][j].0) {
      assert s[1..][i] == s[i + 1] && s[1..][j] == s[j + 1];
    }
  }

  lemma {:induction false} ContentsKeys(s: seq<Pair>, k: CString)
    ensures k in Contents(s) <==> exists i :: 0 <= i < |s| && s[i].0 == k
  {
    if s != [] {
      ContentsKeys(s[1..], k);
      if i :| 0 <= i < |s| && s[i].0 == k && i > 0 {
        assert s[1..][i - 1].0 == k;
      }
      if k in Contents(s[1..]) {
        var i :| 0 <= i < |s[1..]| && s[1..][i].0 == k;
        assert s[i + 1].0 == k;
      }
    }
  }

  /** In an ascending list every entry is found under its key. */
  lemma {:induction false} ContentsAt(s: seq<Pair>, i: nat)
    requires Ascending(s) && i < |s|
    ensures s[i].0 in Contents(s) && Contents(s)[s[i].0] == s[i].1
  {
    if i > 0 {
      AscendingTail(s);
      ContentsAt(s[1..], i - 1);
      assert s[1..][i - 1] == s[i];
      CompareSign(s[0].0, s[i].0);
    }
  }

  /** Everything past the head of an ascending list is greater, so a key not above the head is not there. */
  lemma NotInTail(s: seq<Pair>, k: CString)
    requires Ascending(s) && s != [] && (k == s[0].0 || Before(k, s[0].0))
    ensures k !in Contents(s[1..])
    ensures Before(k, s[0].0) ==> k !in Contents(s)
  {
    AscendingTail(s);
    ContentsKeys(s[1..], k);
    CompareSign(k, k);
    if i :| 0 <= i < |s[1..]| && s[1..][i].0 == k {
      if k != s[0].0 { BeforeTransitive(k, s[0].0, k); }
    }
  }

  lemma {:induction false} InsertIsUpdate(s: seq<Pair>, e: Pair)
    requires Ascending(s)
    ensures Contents(Insert(s, e)) == Contents(s)[e.0 := e.1]
  {
    if s == [] || Before(e.0, s[0].0) {
      assert ([e] + s)[1..] == s;
    } else if e.0 == s[0].0 {
      assert ([e] + s[1..])[1..] == s[1..];
    } else {
      AscendingTail(s);
      InsertIsUpdate(s[1..], e);
      assert ([s[0]] + Insert(s[1..], e))[1..] == Insert(s[1..], e);
    }
  }

  lemma {:induction false} DeleteIsRemoval(s: seq<Pair>, k: CString)
    requires Ascending(s)
    ensures Contents(Delete(s, k)) == Contents(s) - {k}
  {
    if s != [] {
      AscendingTail(s);
      if s[0].0 == k {
        NotInTail(s, k);
      } else {
        DeleteIsRemoval(s[1..], k);
        assert ([s[0]] + Delete(s[1..], k))[1..] == Delete(s[1..], k);
      }
    }
  }

  lemma ConsSplice(s: seq<Pair>, e: Pair, i: nat, from: nat)
    requires 0 < i <= from <= |s|
    ensures [s[0]] + (s[1..][..i - 1] + [e] + s[1..][from - 1..]) == s[..i] + [e] + s[from..]
  {
  }

  /** Where an insertion lands. */
  lemma {:induction false} InsertAt(s: seq<Pair>, e: Pair, i: nat)
    requires Ascending(s) && i <= |s|
    requires forall j :: 0 <= j < i ==> Before(s[j].0, e.0)
    requires i < |s| ==> e.0 == s[i].0 || Before(e.0, s[i].0)
    ensures Insert(s, e) == s[..i] + [e] + s[if i < |s| && e.0 == s[i].0 then i + 1 else i..]
  {
    if i == 0 {
      if s != [] { CompareSign(e.0, s[0].0); }
    } else {
      CompareSign(e.0, s[0].0);
      AscendingTail(s);
      var t := s[1..];
      forall j | 0 <= j < i - 1 ensures Before(t[j].0, e.0) {
        assert t[j] == s[j + 1];
      }
      assert i - 1 < |t| ==> t[i - 1] == s[i];
      InsertAt(t, e, i - 1);
      ConsSplice(s, e, i, if i < |s| && e.0 == s[i].0 then i + 1 else i);
    }
  }

  lemma {:induction false} DeleteAt(s: seq<Pair>, k: CString, i: nat)
    requires i <= |s| && (forall j :: 0 <= j < i ==> s[j].0 != k) && (i < |s| ==> s[i].0 == k)
    ensures Delete(s, k) == if i < |s| then s[..i] + s[i + 1..] else s
  {
    if i > 0 {
      var t := s[1..];
      assert forall j :: 0 <= j < i - 1 ==> t[j] == s[j + 1];
      assert i - 1 < |t| ==> t[i - 1] == s[i];
      DeleteAt(t, k, i - 1);
      if i < |s| {
        assert t[..i - 1] + t[i - 1 + 1..] == s[1..i] + s[i + 1..];
        assert [s[0]] + (s[1..i] + s[i + 1..]) == s[..i] + s[i + 1..];
      } else {
        assert s == [s[0]] + t;
      }
    }
  }

  lemma SplicePreservesOrder(s: seq<Pair>, e: Pair, i: nat)
    requires Ascending(s) && i <= |s|
    requires forall j :: 0 <= j < i ==> Before(s[j].0, e.0)
    requires i < |s| ==> e.0 == s[i].0 || Before(e.0, s[i].0)
    ensures Ascending(s[..i] + [e] + s[if i < |s| && e.0 == s[i].0 then i + 1 else i..])
  {
    var from := if i < |s| && e.0 == s[i].0 then i + 1 else i;
    var r := s[..i] + [e] + s[from..];
    forall j | from <= j < |s| ensures Before(e.0, s[j].0) {
      if j > i && e.0 != s[i].0 { BeforeTransitive(e.0, s[i].0, s[j].0); }
    }
    forall a, b | 0 <= a < b < |r| ensures Before(r[a].0, r[b].0) {
      assert r[a] == if a < i then s[a] else if a == i then e else s[a - i - 1 + from];
      assert r[b] == if b < i then s[b] else if b == i then e else s[b - i - 1 + from];
    }
  }

  lemma CutPreservesOrder(s: seq<Pair>, i: nat)
    requires Ascending(s) && i < |s|
    ensures Ascending(s[..i] + s[i + 1..])
  {
    var r := s[..i] + s[i + 1..];
    forall a, b | 0 <= a < b < |r| ensures Before(r[a].0, r[b].0) {
      assert r[a] == s[if a < i then a else a + 1] && r[b] == s[if b < i then b else b + 1];
    }
  }

  /** A list is determined by the map it stands for. */
  lemma {:induction false} Canonical(s: seq<Pair>, t: seq<Pair>)
    requires Ascending(s) && Ascending(t) && Contents(s) == Contents(t)
    ensures s == t
  {
    if s == [] {
      if t != [] { ContentsAt(t, 0); }
    } else if t == [] {
      ContentsAt(s, 0);
    } else {
      ContentsAt(s, 0);
      ContentsAt(t, 0);
      CompareSign(s[0].0, t[0].0);
      if Before(s[0].0, t[0].0) {
        NotInTail(t, s[0].0);
      } else if Before(t[0].0, s[0].0) {
        NotInTail(s, t[0].0);
      }
      AscendingTail(s);
      AscendingTail(t);
      NotInTail(s, s[0].0);
      NotInTail(t, t[0].0);
      assert Contents(s[1..]) == Contents(s) - {s[0].0};
      assert Contents(t[1..]) == Contents(t) - {t[0].0};
      Canonical(s[1..], t[1..]);
      assert s == [s[0]] + s[1..] && t == [t[0]] + t[1..];
    }
  }

  lemma {:induction false} ContentsSize(s: seq<Pair>)
    requires Ascending(s)
    ensures |Contents(s)| == |s|
  {
    if s != [] {
      AscendingTail(s);
      NotInTail(s, s[0].0);
      ContentsSize(s[1..]);
    }
  }
}
