/** A null-terminated array of strings as one block of bytes: the count in network byte order, then the strings
    with their terminators. */
module KeyArray {
  import opened Bytes

  const MAX_INT := 0x7fff_ffff

  // ----- the format

  /** A 32-bit count, most significant byte first. */
  function CountBytes(n: nat): (s: seq<Byte>)
    requires n <= MAX_INT
    ensures |s| == 4
  {
    [(n / 0x100_0000) as Byte, (n / 0x1_0000 % 256) as Byte, (n / 256 % 256) as Byte, (n % 256) as Byte]
  }

  function CountOf(s: seq<Byte>): nat
    requires |s| >= 4
  {
    s[0] as int * 0x100_0000 + s[1] as int * 0x1_0000 + s[2] as int * 256 + s[3] as int
  }

  lemma CountRoundTrip(n: nat)
    requires n <= MAX_INT
    ensures CountOf(CountBytes(n)) == n
  {
    assert n / 0x1_0000 == n / 0x100_0000 * 256 + n / 0x1_0000 % 256;
    assert n / 256 == n / 0x1_0000 * 256 + n / 256 % 256;
  }

  /** The strings one behind the other, each with its terminator. */
  function Strings(list: seq<CString>): seq<Byte> {
    if list == [] then [] else Strings(list[..|list| - 1]) + list[|list| - 1] + [0]
  }

  function Printed(list: seq<CString>): seq<Byte>
    requires |list| <= MAX_INT
  {
    CountBytes(|list|) + Strings(list)
  }

  function SizeOf(list: seq<CString>): nat {
    if list == [] then 4 else SizeOf(list[..|list| - 1]) + |list[|list| - 1]| + 1
  }

  lemma {:induction false} PrintedSize(list: seq<CString>)
    ensures 4 + |Strings(list)| == SizeOf(list) && SizeOf(list) >= 4 + |list|
  {
    if list != [] { PrintedSize(list[..|list| - 1]); }
  }

  lemma {:induction false} StringsPrefix(list: seq<CString>, m: nat)
    requires m <= |list|
    ensures |Strings(list[..m])| <= |Strings(list)| && Strings(list[..m]) == Strings(list)[..|Strings(list[..m])|]
  {
    if m < |list| {
      var init := list[..|list| - 1];
      assert init[..m] == list[..m];
      StringsPrefix(init, m);
    } else {
      assert list[..m] == list;
    }
  }

  /** String m of the list, in its place. */
  lemma StringAt(list: seq<CString>, m: nat)
    requires m < |list|
    ensures var from, s := |Strings(list[..m])|, Strings(list);
            && from + |list[m]| + 1 <= |s|
            && s[from..from + |list[m]|] == list[m] && s[from + |list[m]|] == 0
            && |Strings(list[..m + 1])| == from + |list[m]| + 1
  {
    assert list[..m + 1][..m] == list[..m];
    StringsPrefix(list, m + 1);
    var from, s, t := |Strings(list[..m])|, Strings(list), Strings(list[..m + 1]);
    assert t == Strings(list[..m]) + list[m] + [0];
    assert t == s[..|t|];
    assert t[from..from + |list[m]|] == list[m];
    assert s[from..from + |list[m]|] == t[from..from + |list[m]|];
  }

  /** The buffer, spelled out: the count with its highest byte first, then string m from place at[m] on, each with a
      zero byte behind it, and the next string right after that. */
  ghost predicate LaidOut(b: seq<Byte>, list: seq<CString>, at: seq<nat>) {
    && |b| >= 4 && ((b[0] as int * 256 + b[1] as int) * 256 + b[2] as int) * 256 + b[3] as int == |list|
    && |at| == |list| + 1 && at[0] == 4 && at[|list|] == |b|
    && (forall m :: 0 <= m < |list| ==>
          && at[m] + |list[m]| < |b| && at[m + 1] == at[m] + |list[m]| + 1
          && b[at[m]..at[m] + |list[m]|] == list[m] && b[at[m] + |list[m]|] == 0)
  }

  lemma PrintedIsLaidOut(list: seq<CString>)
    requires |list| <= MAX_INT
    ensures exists at :: LaidOut(Printed(list), list, at)
  {
    hide Strings;
    var b := Printed(list);
    var at := seq(|list| + 1, m requires 0 <= m <= |list| => 4 + |Strings(list[..m])|);
    NoStrings();
    assert list[..0] == [] && list[..|list|] == list;
    CountRoundTrip(|list|);
    assert b[..4] == CountBytes(|list|);
    forall m | 0 <= m < |list|
      ensures at[m] + |list[m]| < |b| && at[m + 1] == at[m] + |list[m]| + 1
      ensures b[at[m]..at[m] + |list[m]|] == list[m] && b[at[m] + |list[m]|] == 0
    {
      StringAt(list, m);
      InPlace(b, list, at[m], |list[m]|);
    }
    assert LaidOut(b, list, at);
  }

  /** The array points to the strings of the list, and to nothing after the last of them. */
  ghost predicate PointsTo(keys: array<Option<CString>>, list: seq<CString>)
    reads keys
  {
    |list| < keys.Length && keys[|list|] == None && forall i :: 0 <= i < |list| ==> keys[i] == Some(list[i])
  }

  // ----- printing

  /** strcpy, to offset at of the buffer. */
  method StringCopy(buffer: array<Byte>, at: nat, s: CString)
    requires at + |s| + 1 <= buffer.Length
    modifies buffer
    ensures buffer[..at + |s| + 1] == old(buffer[..at]) + s + [0]
  {
    var i := 0;
    while i < |s|
      invariant 0 <= i <= |s| && buffer[..at + i] == old(buffer[..at]) + s[..i]
    {
      buffer[at + i] := s[i];
      i := i + 1;
    }
    buffer[at + i] := 0;
  }

  /** The first pass: how many strings there are, and how many bytes they take. */
  method Measure(keys: array<Option<CString>>, ghost list: seq<CString>) returns (size: nat, nkeys: nat)
    requires PointsTo(keys, list)
    ensures size == SizeOf(list) && nkeys == |list|
  {
    size, nkeys := 4, 0;
    assert list[..0] == [];
    while keys[nkeys] != None
      invariant 0 <= nkeys <= |list| && size == SizeOf(list[..nkeys])
      decreases |list| - nkeys
    {
      assert list[..nkeys + 1][..nkeys] == list[..nkeys];
      size := size + |keys[nkeys].value| + 1;
      nkeys := nkeys + 1;
    }
    assert nkeys == |list| && list[..nkeys] == list;
  }

  /** The second pass: the strings, behind the place for the count. */
  method WriteStrings(keys: array<Option<CString>>, nkeys: nat, buffer: array<Byte>, ghost list: seq<CString>)
    requires PointsTo(keys, list) && nkeys == |list| && buffer.Length == 4 + |Strings(list)|
    modifies buffer
    ensures buffer[4..] == Strings(list)
  {
    var at := 4;
    var i := 0;
    StringsPrefix(list, 0);
    ghost var room := buffer[..4];
    while i < nkeys
      invariant 0 <= i <= nkeys && at == 4 + |Strings(list[..i])| && at <= buffer.Length
      invariant buffer[..at] == room + Strings(list[..i])
    {
      StringAt(list, i);
      assert list[..i + 1][..i] == list[..i];
      ghost var done := Strings(list[..i]);
      StringCopy(buffer, at, keys[i].value);
      assert room + done + list[i] + [0] == room + Strings(list[..i + 1]);
      at := at + |keys[i].value| + 1;
      i := i + 1;
    }
    assert list[..i] == list;
    assert buffer[..] == room + Strings(list);
  }

  /** keyArray_to_buffer: the size and the buffer, or -1 when one of the two pointers is null. */
  method KeyArrayToBuffer(keys: array?<Option<CString>>, wanted: bool, ghost list: seq<CString>)
    returns (size: int, buffer: array?<Byte>)
    requires keys != null ==> PointsTo(keys, list) && SizeOf(list) <= MAX_INT
    ensures size == if keys == null || !wanted then -1 else SizeOf(list)
    ensures buffer == null <==> keys == null || !wanted
    ensures buffer != null ==> fresh(buffer) && |list| <= MAX_INT && buffer.Length == size && buffer[..] == Printed(list)
    ensures buffer != null ==> exists at :: LaidOut(buffer[..], list, at)
  {
    hide Strings, SizeOf, LaidOut;
    if keys == null || !wanted { return -1, null; }
    var nkeys;
    size, nkeys := Measure(keys, list);
    PrintedSize(list);
    buffer := new Byte[size](_ => 0);
    WriteStrings(keys, nkeys, buffer, list);
    ghost var tail := buffer[4..];
    var count := CountBytes(nkeys);
    buffer[0], buffer[1], buffer[2], buffer[3] := count[0], count[1], count[2], count[3];
    assert buffer[4..] == tail;
    assert buffer[..4] == count;
    assert buffer[..] == buffer[..4] + buffer[4..];
    PrintedIsLaidOut(list);
  }

  // ----- parsing

  /** strlen, from offset at of the buffer. */
  method StringLength(buffer: array<Byte>, at: nat, ghost s: CString) returns (n: nat)
    requires at + |s| < buffer.Length && buffer[at..at + |s|] == s && buffer[at + |s|] == 0
    ensures n == |s|
  {
    assert forall i :: at <= i < at + |s| ==> buffer[i] == buffer[at..at + |s|][i - at];
    n := 0;
    while buffer[at + n] != 0
      invariant 0 <= n <= |s|
      decreases |s| - n
    {
      n := n + 1;
    }
  }

  /** buffer_to_keyArray: the strings, and null after the last of them. It reads nothing beyond the printed
      list, whatever follows it in the buffer. */
  method BufferToKeyArray(buffer: array?<Byte>, ghost list: seq<CString>) returns (keys: array?<Option<CString>>)
    requires buffer != null ==> |list| <= MAX_INT && Printed(list) <= buffer[..]
    ensures keys == null <==> buffer == null
    ensures keys != null ==> fresh(keys) && keys.Length == |list| + 1 && PointsTo(keys, list)
  {
    hide Strings, CountBytes, CountOf;
    if buffer == null { return null; }
    assert buffer[..4] == CountBytes(|list|) by { assert Printed(list)[..4] == CountBytes(|list|); }
    var nkeys := CountOf(buffer[..4]);
    CountRoundTrip(|list|);
    keys := new Option<CString>[nkeys + 1](_ => None);
    ReadStrings(buffer, nkeys, keys, list);
  }

  method ReadStrings(buffer: array<Byte>, nkeys: nat, keys: array<Option<CString>>, ghost list: seq<CString>)
    requires |list| <= MAX_INT && Printed(list) <= buffer[..] && nkeys == |list| && keys.Length == nkeys + 1
    requires keys[nkeys] == None
    modifies keys
    ensures PointsTo(keys, list)
  {
    hide Strings, Printed;
    NoStrings();
    assert list[..0] == [];
    var at := 4;
    var i := 0;
    while i < nkeys
      invariant 0 <= i <= nkeys && at == 4 + |Strings(list[..i])|
      invariant keys[nkeys] == None && forall j :: 0 <= j < i ==> keys[j] == Some(list[j])
    {
      StringAt(list, i);
      InPlace(buffer[..], list, at, |list[i]|);
      var length := StringLength(buffer, at, list[i]);
      keys[i] := Some(buffer[at..at + length]);
      at := at + length + 1;
      i := i + 1;
    }
  }

  lemma NoStrings()
    ensures Strings([]) == []
  {
  }

  lemma InPlace(bytes: seq<Byte>, list: seq<CString>, at: nat, n: nat)
    requires |list| <= MAX_INT && Printed(list) <= bytes && 4 <= at && at - 4 + n < |Strings(list)|
    ensures at + n < |bytes|
    ensures bytes[at..at + n] == Strings(list)[at - 4..at - 4 + n] && bytes[at + n] == Strings(list)[at - 4 + n]
  {
    var p := Printed(list);
    assert p[at..at + n] == Strings(list)[at - 4..at - 4 + n];
    assert bytes[at..at + n] == p[at..at + n];
  }

  /** Different lists have different buffers; no buffer even begins with that of another list. */
  lemma PrintedIsInjective(a: seq<CString>, b: seq<CString>)
    requires |a| <= MAX_INT && |b| <= MAX_INT && Printed(a) <= Printed(b)
    ensures a == b
  {
    var pa, pb := Printed(a), Printed(b);
    assert pa[..4] == CountBytes(|a|) && pb[..4] == CountBytes(|b|) && pa[..4] == pb[..4];
    CountRoundTrip(|a|);
    CountRoundTrip(|b|);
    assert pa[4..] == Strings(a) && pb[4..] == Strings(b);
    assert Strings(a) <= Strings(b);
    SamePrefix(a, b, |a|);
    assert a[..|a|] == a && b[..|a|] == b;
  }

  lemma NoTerminator(bytes: seq<Byte>, from: nat, s: CString)
    requires from + |s| <= |bytes| && bytes[from..from + |s|] == s
    ensures forall k :: from <= k < from + |s| ==> bytes[k] != 0
  {
    forall k | from <= k < from + |s| ensures bytes[k] != 0 {
      assert bytes[k] == s[k - from];
    }
  }

  lemma {:induction false} SamePrefix(a: seq<CString>, b: seq<CString>, m: nat)
    requires m <= |a| <= |b| && Strings(a) <= Strings(b)
    ensures a[..m] == b[..m]
  {
    hide Strings;
    if m > 0 {
      SamePrefix(a, b, m - 1);
      StringAt(a, m - 1);
      StringAt(b, m - 1);
      var from, x, y := |Strings(a[..m - 1])|, a[m - 1], b[m - 1];
      var s, t := Strings(a), Strings(b);
      NoTerminator(s, from, x);
      NoTerminator(t, from, y);
      assert s[from + |x|] == t[from + |x|];
      assert s[from..from + |x|] == t[from..from + |y|];
      assert a[..m] == a[..m - 1] + [x] && b[..m] == b[..m - 1] + [y];
    }
  }
}
