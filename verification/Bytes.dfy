/** C strings and byte blocks: the data that keys, values, paths and messages are made of. */
module Bytes {

  newtype Byte = b: int | 0 <= b < 256

  /** A C string without its terminator: no byte in it is NUL. */
  type CString = s: seq<Byte> | forall i :: 0 <= i < |s| ==> s[i] != 0

  /** A data block; the source stores only blocks with at least one byte. */
  type Block = seq<Byte>

  datatype Option<+T> = None | Some(value: T)

  /** The sign of strcmp: the first differing byte decides, and a proper prefix comes first. */
  function Compare(a: seq<Byte>, b: seq<Byte>): (r: int)
    ensures -1 <= r <= 1
  {
    if a == [] then (if b == [] then 0 else -1)
    else if b == [] then 1
    else if a[0] < b[0] then -1
    else if a[0] > b[0] then 1
    else Compare(a[1..], b[1..])
  }

  predicate Before(a: seq<Byte>, b: seq<Byte>) {
    Compare(a, b) < 0
  }

  /** The comparison is zero for equal strings only, and swapping the arguments flips its sign. */
  lemma {:induction false} CompareSign(a: seq<Byte>, b: seq<Byte>)
    ensures Compare(a, b) == 0 <==> a == b
    ensures Compare(b, a) == -Compare(a, b)
  {
    if a != [] && b != [] {
      CompareSign(a[1..], b[1..]);
      assert a == [a[0]] + a[1..] && b == [b[0]] + b[1..];
    }
  }

  lemma {:induction false} BeforeTransitive(a: seq<Byte>, b: seq<Byte>, c: seq<Byte>)
    requires Before(a, b) && Before(b, c)
    ensures Before(a, c)
  {
    if a != [] && b != [] && c != [] && a[0] == b[0] == c[0] {
      BeforeTransitive(a[1..], b[1..], c[1..]);
    }
  }

  /** What strcmp looks for: behind a common prefix, a smaller byte or the end of the string. */
  predicate DiffersAt(a: seq<Byte>, b: seq<Byte>, k: nat) {
    k <= |a| && k < |b| && a[..k] == b[..k] && (k == |a| || a[k] < b[k])
  }

  /** One string comes before another exactly when the first difference says so. */
  lemma {:induction false} BeforeIsFirstDifference(a: seq<Byte>, b: seq<Byte>)
    ensures Before(a, b) <==> exists k: nat :: DiffersAt(a, b, k)
  {
    forall k: nat | DiffersAt(a, b, k) && k > 0 ensures a[0] == b[0] {
      assert a[..k][0] == b[..k][0];
    }
    if a != [] && b != [] && a[0] == b[0] {
      BeforeIsFirstDifference(a[1..], b[1..]);
      if k: nat :| DiffersAt(a[1..], b[1..], k) {
        assert a[..k + 1] == [a[0]] + a[1..][..k] && b[..k + 1] == [b[0]] + b[1..][..k];
        assert DiffersAt(a, b, k + 1);
      }
      if k: nat :| DiffersAt(a, b, k) {
        assert a[1..][..k - 1] == a[..k][1..] && b[1..][..k - 1] == b[..k][1..];
        assert DiffersAt(a[1..], b[1..], k - 1);
      }
    } else if b != [] && (a == [] || a[0] < b[0]) {
      assert DiffersAt(a, b, 0);
    }
  }

  /** The first differing byte decides whatever follows it, and a proper prefix comes first. */
  lemma FirstDifferenceDecides(p: seq<Byte>, x: Byte, y: Byte, s: seq<Byte>, t: seq<Byte>)
    requires x < y
    ensures Compare(p + [x] + s, p + [y] + t) < 0 && Compare(p + [y] + t, p + [x] + s) > 0 && Compare(p, p + [x] + s) < 0
  {
    ComparePrefix(p, [x] + s, [y] + t);
    ComparePrefix(p, [y] + t, [x] + s);
    ComparePrefix(p, [], [x] + s);
    assert p + [x] + s == p + ([x] + s) && p + [y] + t == p + ([y] + t) && p + [] == p;
  }

  /** A shared prefix does not change the comparison. */
  lemma {:induction false} ComparePrefix(p: seq<Byte>, a: seq<Byte>, b: seq<Byte>)
    ensures Compare(p + a, p + b) == Compare(a, b)
  {
    if p == [] {
      assert p + a == a && p + b == b;
    } else {
      ComparePrefix(p[1..], a, b);
      assert (p + a)[1..] == p[1..] + a && (p + b)[1..] == p[1..] + b;
    }
  }
}
