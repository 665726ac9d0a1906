/** hash_code: a base-31 polynomial in unsigned 64-bit arithmetic, cut down to a signed int, reduced modulo
    the number of buckets, made non-negative. */
module HashCode {
  import opened Bytes

  const TWO_32: nat := 0x1_0000_0000
  const TWO_64: nat := 0x1_0000_0000_0000_0000

  /** A char is signed: bytes from 128 on are negative. */
  function SignedChar(b: Byte): int {
    if b < 128 then b as int else b as int - 256
  }

  lemma CharIsByte(b: Byte)
    ensures -128 <= SignedChar(b) < 128 && (b as int - SignedChar(b)) % 256 == 0
  {
  }

  /** The cast of an unsigned value to a 32-bit int. */
  function ToInt(x: nat): (r: int)
    ensures -0x8000_0000 <= r < 0x8000_0000
  {
    var low := x % TWO_32;
    if low < 0x8000_0000 then low else low - TWO_32
  }

  /** The C remainder: it has the sign of the dividend. */
  function Remainder(a: int, n: int): int
    requires n > 0
  {
    if a >= 0 then a % n else -(-a % n)
  }

  function Horner(key: seq<Byte>, modulus: nat): nat
    requires modulus > 7
  {
    if key == [] then 7 else (Horner(key[..|key| - 1], modulus) * 31 + SignedChar(key[|key| - 1])) % modulus
  }

  /** The bucket of a key. */
  function Index(key: seq<Byte>, n: int): (i: nat)
    requires n > 0
    ensures i < n
  {
    var r := Remainder(ToInt(Horner(key, TWO_64)), n);
    RemainderBound(ToInt(Horner(key, TWO_64)), n);
    if r < 0 then -r else r
  }

  lemma RemainderBound(a: int, n: int)
    requires n > 0
    ensures -n < Remainder(a, n) < n
  {
  }

  /** What a cast to a 32-bit int leaves of a number. */
  predicate CutTo(whole: int, t: int) {
    -0x8000_0000 <= t < 0x8000_0000 && (whole - t) % 0x1_0000_0000 == 0
  }

  /** hash_code as the source computes it. The bucket is the polynomial of the key, cut down to an int, without its
      sign, modulo n. */
  method Compute(key: CString, n: int) returns (r: int)
    requires n > 0
    ensures r == Index(key, n) && 0 <= r < n
    ensures exists t :: CutTo(Polynomial(key), t) && r == (if t < 0 then -t else t) % n
  {
    var result: nat := 7;
    var i := 0;
    while i < |key|
      invariant 0 <= i <= |key| && result == Horner(key[..i], TWO_64) && result < TWO_64
    {
      assert key[..i + 1][..i] == key[..i];
      result := (result * 31 + SignedChar(key[i])) % TWO_64;
      i := i + 1;
    }
    assert key[..i] == key;
    var reduced := Remainder(ToInt(result), n);
    RemainderBound(ToInt(result), n);
    r := if reduced < 0 then -reduced else reduced;
    IndexOfPolynomial(key, n);
  }

  // ----- what the loop computes

  function Pow31(e: nat): nat {
    if e == 0 then 1 else 31 * Pow31(e - 1)
  }

  /** The polynomial read from the front: each byte times 31 to the number of bytes behind it. */
  function Weighted(key: seq<Byte>): int {
    if key == [] then 0 else SignedChar(key[0]) * Pow31(|key| - 1) + Weighted(key[1..])
  }

  /** The bytes of the key and a leading 7 as the digits of a number to base 31. */
  function Polynomial(key: seq<Byte>): int {
    7 * Pow31(|key|) + Weighted(key)
  }

  lemma {:induction false} WeightedAppend(key: seq<Byte>, b: Byte)
    ensures Weighted(key + [b]) == 31 * Weighted(key) + SignedChar(b)
  {
    if key != [] {
      assert (key + [b])[1..] == key[1..] + [b];
      WeightedAppend(key[1..], b);
      var c, p := SignedChar(key[0]), Pow31(|key| - 1);
      assert Weighted(key + [b]) == c * (31 * p) + Weighted(key[1..] + [b]);
      assert c * (31 * p) == 31 * (c * p);
    }
  }

  lemma ModStep(x: int, y: int, c: int, m: nat)
    requires m > 0 && x % m == y % m
    ensures (x * 31 + c) % m == (y * 31 + c) % m
  {
    var k := x / m - y / m;
    assert x == y + m * k by {
      assert x == m * (x / m) + x % m && y == m * (y / m) + y % m;
      assert m * (x / m) - m * (y / m) == m * k;
    }
    assert m * k * 31 == m * (k * 31);
    ModShift(y * 31 + c, k * 31, m);
  }

  lemma ModShift(a: int, k: int, m: nat)
    requires m > 0
    ensures (a + m * k) % m == a % m
  {
    var q, r := a / m, a % m;
    assert a + m * k == m * (q + k) + r by {
      assert m * (q + k) == m * q + m * k;
    }
    UniqueRemainder(a + m * k, q + k, r, m);
  }

  lemma UniqueRemainder(a: int, q: int, r: int, m: nat)
    requires m > 0 && a == m * q + r && 0 <= r < m
    ensures a % m == r
  {
    var q', r' := a / m, a % m;
    assert m * (q - q') == r' - r by { assert m * (q - q') == m * q - m * q'; }
    if q > q' { assert m * (q - q') >= m by { Grows(m, q - q'); } }
    if q < q' { assert m * (q' - q) >= m by { Grows(m, q' - q); } }
    if q == q' { assert m * (q - q') == 0; }
  }

  lemma Grows(m: nat, d: int)
    requires d >= 1
    ensures m * d >= m
  {
  }

  /** Whatever the modulus, the loop is the polynomial with seed 7, modulo it. */
  lemma {:induction false} HornerIsPolynomial(key: seq<Byte>, modulus: nat)
    requires modulus > 7
    ensures Horner(key, modulus) == Polynomial(key) % modulus
  {
    if key != [] {
      var init, b := key[..|key| - 1], key[|key| - 1];
      HornerIsPolynomial(init, modulus);
      WeightedAppend(init, b);
      assert init + [b] == key;
      var whole := Polynomial(init);
      UniqueRemainder(whole % modulus, 0, whole % modulus, modulus);
      ModStep(whole % modulus, whole, SignedChar(b), modulus);
      assert whole * 31 + SignedChar(b) == Polynomial(key);
    }
  }

  lemma Congruent(x: int, y: int, m: nat, k: int)
    requires m > 0 && x - y == m * k
    ensures (x - y) % m == 0
  {
    UniqueRemainder(x - y, k, 0, m);
  }

  /** The int that the sum is cut down to is what a cast leaves of the polynomial itself. */
  lemma IntOfPolynomial(key: seq<Byte>)
    ensures CutTo(Polynomial(key), ToInt(Horner(key, TWO_64)))
  {
    hide Horner, Polynomial;
    HornerIsPolynomial(key, TWO_64);
    var whole := Polynomial(key);
    var h := whole % TWO_64;
    var t := ToInt(h);
    var a, b := whole / TWO_64, h / TWO_32;
    assert whole == TWO_64 * a + h && h == TWO_32 * b + h % TWO_32;
    var k := TWO_32 * a + b + if h % TWO_32 < 0x8000_0000 then 0 else 1;
    assert whole - t == TWO_32 * k;
    Congruent(whole, t, TWO_32, k);
  }

  /** The bucket of a key: its polynomial, cut down to an int, without the sign, modulo n. */
  lemma IndexOfPolynomial(key: seq<Byte>, n: int)
    requires n > 0
    ensures exists t :: CutTo(Polynomial(key), t) && Index(key, n) == (if t < 0 then -t else t) % n
  {
    hide Horner, Polynomial;
    IntOfPolynomial(key);
    assert CutTo(Polynomial(key), ToInt(Horner(key, TWO_64)));
  }

  /** The buckets of some keys: "node01", whose polynomial does not fit an int, a key with a byte above 127, and the
      empty key. */
  lemma SomeBuckets()
    ensures Index([110, 111, 100, 101, 48, 49], 5) == 4 && Index([195], 5) == 1 && Index([], 5) == 2
  {
    var key: seq<Byte> := [110, 111, 100, 101, 48, 49];
    assert key[..5] == [110, 111, 100, 101, 48];
    assert key[..5][..4] == [110, 111, 100, 101];
    assert key[..5][..4][..3] == [110, 111, 100];
    assert key[..5][..4][..3][..2] == [110, 111];
    assert key[..5][..4][..3][..2][..1] == [110];
    assert Horner([110], TWO_64) == 327;
    assert Horner([110, 111], TWO_64) == 10248;
    assert Horner([110, 111, 100], TWO_64) == 317788;
    assert Horner([110, 111, 100, 101], TWO_64) == 9851529;
    assert Horner([110, 111, 100, 101, 48], TWO_64) == 305397447;
    assert Horner(key, TWO_64) == 9467320906;
    assert Horner([195], TWO_64) == 156;
  }

  /** The int the 64-bit sum is cut down to is the one a 32-bit loop would have produced. */
  lemma {:induction false} LowBitsSuffice(key: seq<Byte>)
    ensures ToInt(Horner(key, TWO_64)) == ToInt(Horner(key, TWO_32))
  {
    HornerIsPolynomial(key, TWO_64);
    HornerIsPolynomial(key, TWO_32);
    var whole := Polynomial(key);
    var q, r := whole / TWO_64, whole % TWO_64;
    assert whole == r + TWO_32 * (TWO_32 * q);
    ModShift(r, TWO_32 * q, TWO_32);
    UniqueRemainder(whole % TWO_32, 0, whole % TWO_32, TWO_32);
  }
}
