/** Packed messages: the fields of a message in the wire format of Protocol Buffers, version 3. */
module Packing {
  import opened Bytes
  import opened KvSpec
  import Framing

  datatype Statistics = Statistics(clients: int, operations: int, totalTime: int)

  /** The fields of a message. A key may be the null pointer; a value without bytes is one. */
  datatype Packet = Packet(opcode: int, cType: int, entry: Option<Pair>, key: Option<CString>, value: Block, result: int,
                           keys: seq<CString>, entries: seq<Pair>, stats: Option<Statistics>)

  /** Seven bits a byte, the lowest first; the top bit says that more follow. */
  function Varint(n: nat): (v: Block)
    ensures |v| > 0
  {
    if n < 128 then [n as Byte] else [(n % 128 + 128) as Byte] + Varint(n / 128)
  }

  function Tagged(tag: Byte, data: Block): Block {
    [tag] + Varint(|data|) + data
  }

  /** Fields with their default value are not sent. */
  function BytesField(tag: Byte, data: Block): Block {
    if data == [] then [] else Tagged(tag, data)
  }

  /** An enumeration is sent as 64 bits. */
  function EnumField(tag: Byte, x: int): Block {
    if x == 0 then [] else [tag] + Varint(x % 0x1_0000_0000_0000_0000)
  }

  /** A sint32: the sign is the lowest bit. */
  function SignedField(tag: Byte, x: int): Block {
    if x == 0 then [] else [tag] + Varint((if x < 0 then -2 * x - 1 else 2 * x) % 0x1_0000_0000)
  }

  function PackedEntry(p: Pair): Block {
    BytesField(0x0A, p.0) + BytesField(0x12, p.1)
  }

  function PackedStats(s: Statistics): Block {
    SignedField(0x08, s.clients) + SignedField(0x10, s.operations) + SignedField(0x18, s.totalTime)
  }

  function PackedKeys(keys: seq<CString>): Block {
    if keys == [] then [] else Tagged(0x3A, keys[0]) + PackedKeys(keys[1..])
  }

  function PackedEntries(entries: seq<Pair>): Block {
    if entries == [] then [] else Tagged(0x42, PackedEntry(entries[0])) + PackedEntries(entries[1..])
  }

  function Packed(c: Packet): Block {
    EnumField(0x08, c.opcode) + EnumField(0x10, c.cType)
    + (if c.entry.Some? then Tagged(0x1A, PackedEntry(c.entry.value)) else [])
    + (if c.key.Some? then BytesField(0x22, c.key.value) else [])
    + BytesField(0x2A, c.value) + SignedField(0x30, c.result)
    + PackedKeys(c.keys) + PackedEntries(c.entries)
    + (if c.stats.Some? then Tagged(0x4A, PackedStats(c.stats.value)) else [])
  }

  /** The receiver unpacks all that was packed. */
  predicate Whole(c: Packet) {
    Framing.LastChunk(Packed(c)) == Packed(c)
  }

  lemma WholeIsSmall(c: Packet)
    ensures Whole(c) <==> |Packed(c)| <= Framing.MAX_MSG
  {
    hide Packed;
    Framing.WholeMessages(Packed(c));
  }

  // ----- how long messages are

  lemma {:induction false} VarintSize(n: nat)
    ensures n < 128 ==> |Varint(n)| == 1
    ensures n < 0x4000 ==> |Varint(n)| <= 2
    ensures n < 0x1_0000_0000 ==> |Varint(n)| <= 5
  {
    if n >= 128 {
      assert Varint(n) == [(n % 128 + 128) as Byte] + Varint(n / 128);
      if n / 128 >= 128 {
        assert Varint(n / 128) == [(n / 128 % 128 + 128) as Byte] + Varint(n / 128 / 128);
        var m := n / 128 / 128;
        if m >= 128 {
          assert Varint(m) == [(m % 128 + 128) as Byte] + Varint(m / 128);
          var l := m / 128;
          assert n < 0x1_0000_0000 ==> l < 0x800;
          if l >= 128 {
            assert Varint(l) == [(l % 128 + 128) as Byte] + Varint(l / 128);
          }
        }
      }
    }
  }

  lemma NumberSizes(x: int, tag: Byte)
    ensures |EnumField(tag, 0)| == 0 && (0 < x < 128 ==> |EnumField(tag, x)| == 2)
    ensures |SignedField(tag, x)| <= 6
  {
    VarintSize(x % 0x1_0000_0000_0000_0000);
    VarintSize((if x < 0 then -2 * x - 1 else 2 * x) % 0x1_0000_0000);
  }

  /** Other codes in the two small fields, which a message has, make it no longer. */
  lemma OtherCodes(c: Packet, opcode: int, cType: int)
    requires 0 < c.opcode < 128 && 0 < c.cType < 128 && 0 < opcode < 128 && 0 <= cType < 128
    ensures |Packed(c.(opcode := opcode, cType := cType))| <= |Packed(c)|
    ensures Whole(c) ==> Whole(c.(opcode := opcode, cType := cType))
  {
    hide Whole, SignedField, BytesField, PackedEntry, PackedKeys, PackedEntries, PackedStats, EnumField, Tagged;
    NumberSizes(c.opcode, 0x08);
    NumberSizes(opcode, 0x08);
    NumberSizes(c.cType, 0x10);
    NumberSizes(cType, 0x10);
    WholeIsSmall(c);
    WholeIsSmall(c.(opcode := opcode, cType := cType));
  }

  /** A message with codes, a number and statistics only. */
  lemma ShortMessage(c: Packet)
    requires 0 < c.opcode < 128 && 0 < c.cType < 128
    requires c.entry == None && (c.key == None || c.key == Some([])) && c.value == [] && c.keys == [] && c.entries == []
    ensures Whole(c)
  {
    hide Whole, SignedField, PackedEntry, EnumField, Varint;
    NumberSizes(c.opcode, 0x08);
    NumberSizes(c.cType, 0x10);
    NumberSizes(c.result, 0x30);
    if c.stats.Some? {
      var s := c.stats.value;
      NumberSizes(s.clients, 0x08);
      NumberSizes(s.operations, 0x10);
      NumberSizes(s.totalTime, 0x18);
      VarintSize(|PackedStats(s)|);
    }
    WholeIsSmall(c);
  }

  /** The keys and blocks of a listing. */
  function Payload(entries: seq<Pair>): nat {
    if entries == [] then 0 else |entries[0].0| + |entries[0].1| + Payload(entries[1..])
  }

  function KeysPayload(keys: seq<CString>): nat {
    if keys == [] then 0 else |keys[0]| + KeysPayload(keys[1..])
  }

  lemma {:induction false} ListingsAreLonger(entries: seq<Pair>, keys: seq<CString>)
    ensures |PackedEntries(entries)| >= Payload(entries) && |PackedKeys(keys)| >= KeysPayload(keys)
    decreases |entries| + |keys|
  {
    if entries != [] { ListingsAreLonger(entries[1..], []); }
    if keys != [] { ListingsAreLonger([], keys[1..]); }
  }

  /** A listing whose keys and blocks together have more than 2048 bytes does not arrive whole. */
  lemma LongListing(c: Packet)
    ensures Payload(c.entries) > Framing.MAX_MSG || KeysPayload(c.keys) > Framing.MAX_MSG ==> !Whole(c)
  {
    hide Whole;
    ListingsAreLonger(c.entries, c.keys);
    WholeIsSmall(c);
  }

  /** The size of a field of n bytes, as long as its length takes two bytes at most. */
  function FieldSize(n: nat): nat {
    if n == 0 then 0 else n + if n < 128 then 2 else 3
  }

  lemma BytesSize(tag: Byte, data: Block)
    ensures |BytesField(tag, data)| >= FieldSize(|data|) && (|data| < 0x4000 ==> |BytesField(tag, data)| == FieldSize(|data|))
  {
    VarintSize(|data|);
    if |data| >= 128 { assert |Varint(|data|)| >= 2; }
  }

  lemma EntrySize(p: Pair)
    ensures var n := FieldSize(|p.0|) + FieldSize(|p.1|);
            |PackedEntry(p)| >= n && (|p.0| < 0x4000 && |p.1| < 0x4000 ==> |PackedEntry(p)| == n)
  {
    hide BytesField, FieldSize;
    BytesSize(0x0A, p.0);
    BytesSize(0x12, p.1);
  }

  /** A packed entry in a message with two codes and nothing else. */
  lemma OneField(c: Packet, p: Pair, tag: Byte)
    requires |Packed(c)| == 4 + |Tagged(tag, PackedEntry(p))|
    ensures Whole(c) <==> FieldSize(|p.0|) + FieldSize(|p.1|) <= 2041
  {
    hide Packed, PackedEntry, Whole, Varint;
    EntrySize(p);
    VarintSize(|PackedEntry(p)|);
    WholeIsSmall(c);
    assert |PackedEntry(p)| >= 128 ==> |Varint(|PackedEntry(p)|)| >= 2 by { LongVarint(|PackedEntry(p)|); }
  }

  lemma LongVarint(n: nat)
    ensures n >= 128 ==> |Varint(n)| >= 2
  {
  }

  /** A message that carries one entry arrives whole exactly when the two fields of the entry have at most 2041 bytes
      with their tags and lengths: always up to 2035 bytes of key and block, and never beyond 2048. */
  lemma OneEntry(c: Packet)
    requires 0 < c.opcode < 128 && 0 < c.cType < 128 && c.entry.Some?
    requires (c.key == None || c.key == Some([])) && c.value == [] && c.result == 0 && c.keys == [] && c.entries == [] && c.stats == None
    ensures var k, v := |c.entry.value.0|, |c.entry.value.1|;
            && (Whole(c) <==> FieldSize(k) + FieldSize(v) <= 2041)
            && (k + v <= 2035 ==> Whole(c)) && (k + v > 2048 ==> !Whole(c))
  {
    hide Whole, EnumField, Tagged, PackedEntry;
    NumberSizes(c.opcode, 0x08);
    NumberSizes(c.cType, 0x10);
    OneField(c, c.entry.value, 0x1A);
  }

  /** The same for a listing of one entry. */
  lemma OneListed(c: Packet)
    requires 0 < c.opcode < 128 && 0 < c.cType < 128 && |c.entries| == 1
    requires c.entry == None && (c.key == None || c.key == Some([])) && c.value == [] && c.result == 0 && c.keys == [] && c.stats == None
    ensures var k, v := |c.entries[0].0|, |c.entries[0].1|;
            && (Whole(c) <==> FieldSize(k) + FieldSize(v) <= 2041)
            && (k + v <= 2035 ==> Whole(c)) && (k + v > 2048 ==> !Whole(c))
  {
    hide Whole, EnumField, Tagged, PackedEntry;
    NumberSizes(c.opcode, 0x08);
    NumberSizes(c.cType, 0x10);
    assert PackedEntries(c.entries[1..]) == [];
    OneField(c, c.entries[0], 0x42);
  }

  // ----- the bytes, spelled out

  /** A length below 2^14: one byte, or two with the lower half first. */
  function Length(n: nat): Block {
    if n < 128 then [n as Byte] else [(128 + n % 128) as Byte, (n / 128 % 128) as Byte]
  }

  lemma VarintIsLength(n: nat)
    requires n < 0x4000
    ensures Varint(n) == Length(n)
  {
    if n >= 128 { assert Varint(n / 128) == [(n / 128) as Byte]; }
  }

  /** A field of bytes: its tag, its length and the bytes, and nothing if there are none. */
  lemma FieldBytes(tag: Byte, data: Block)
    requires |data| < 0x4000
    ensures BytesField(tag, data) == if data == [] then [] else [tag] + Length(|data|) + data
    ensures Tagged(tag, data) == [tag] + Length(|data|) + data
  {
    VarintIsLength(|data|);
  }

  lemma EntryBytes(p: Pair)
    requires |p.0| + |p.1| <= 16000
    ensures PackedEntry(p) == (if p.0 == [] then [] else [10] + Length(|p.0|) + p.0)
                            + (if p.1 == [] then [] else [18] + Length(|p.1|) + p.1)
    ensures |PackedEntry(p)| < 0x4000
  {
    FieldBytes(10, p.0);
    FieldBytes(18, p.1);
  }

  lemma NumberBytes(tag: Byte, x: int)
    requires 0 <= x < 128
    ensures EnumField(tag, x) == (if x == 0 then [] else [tag, x as Byte])
  {
    VarintIsLength(x);
  }

  /** A small number with a sign: 1, 2, 3 and so on stand for -1, 1, -2 and so on. */
  lemma SignedBytes(tag: Byte, x: int)
    requires -0x2000 <= x < 0x2000
    ensures SignedField(tag, x) == if x == 0 then [] else [tag] + Length(if x < 0 then -2 * x - 1 else 2 * x)
  {
    hide Varint, Length;
    var z := if x < 0 then -2 * x - 1 else 2 * x;
    VarintIsLength(z);
    assert z % 0x1_0000_0000 == z;
  }

  /** The codes of a message. */
  function Codes(opcode: Byte, cType: Byte): Block {
    [8, opcode] + if cType == 0 then [] else [16, cType]
  }

  lemma CodesBytes(c: Packet)
    requires 0 < c.opcode < 128 && 0 <= c.cType < 128
    ensures EnumField(0x08, c.opcode) + EnumField(0x10, c.cType) == Codes(c.opcode as Byte, c.cType as Byte)
  {
    NumberBytes(8, c.opcode);
    NumberBytes(16, c.cType);
  }

  lemma AddNothing(s: Block)
    ensures s + [] == s && [] + s == s
  {
  }

  /** A message without lists, number and statistics: the codes, the entry, the key and the block. */
  lemma SingleBytes(c: Packet)
    requires 0 < c.opcode < 128 && 0 <= c.cType < 128 && c.result == 0 && c.keys == [] && c.entries == [] && c.stats == None
    requires (c.key.Some? ==> |c.key.value| < 0x4000) && |c.value| < 0x4000
    requires c.entry.Some? ==> |c.entry.value.0| + |c.entry.value.1| <= 16000
    ensures Packed(c) == Codes(c.opcode as Byte, c.cType as Byte)
                       + (if c.entry == None then [] else var e := PackedEntry(c.entry.value); [26] + Length(|e|) + e)
                       + (if c.key == None || c.key.value == [] then [] else [34] + Length(|c.key.value|) + c.key.value)
                       + (if c.value == [] then [] else [42] + Length(|c.value|) + c.value)
  {
    hide PackedEntry, Varint, EnumField, BytesField, Tagged, Length, Codes;
    CodesBytes(c);
    if c.entry.Some? { EntryBytes(c.entry.value); FieldBytes(26, PackedEntry(c.entry.value)); }
    if c.key.Some? { FieldBytes(34, c.key.value); }
    FieldBytes(42, c.value);
    var front := EnumField(0x08, c.opcode) + EnumField(0x10, c.cType)
                 + (if c.entry.Some? then Tagged(0x1A, PackedEntry(c.entry.value)) else [])
                 + (if c.key.Some? then BytesField(0x22, c.key.value) else [])
                 + BytesField(0x2A, c.value);
    AddNothing(front);
    assert Packed(c) == front;
  }

  /** A listing: the codes, the keys one after the other, the entries one after the other. */
  lemma ListingBytes(c: Packet)
    requires 0 < c.opcode < 128 && 0 <= c.cType < 128 && c.result == 0 && c.stats == None
    requires c.entry == None && (c.key == None || c.key == Some([])) && c.value == []
    ensures Packed(c) == Codes(c.opcode as Byte, c.cType as Byte) + PackedKeys(c.keys) + PackedEntries(c.entries)
  {
    hide PackedKeys, PackedEntries, EnumField, Codes;
    CodesBytes(c);
    AddNothing(Codes(c.opcode as Byte, c.cType as Byte));
    AddNothing(Packed(c));
  }

  /** Each listed key and each listed entry is a field of its own. */
  lemma {:induction false} ListedBytes(keys: seq<CString>, k: CString, entries: seq<Pair>, p: Pair)
    requires |k| < 0x4000 && |p.0| + |p.1| <= 16000
    ensures PackedKeys(keys + [k]) == PackedKeys(keys) + ([58] + Length(|k|) + k)
    ensures var e := PackedEntry(p); PackedEntries(entries + [p]) == PackedEntries(entries) + ([66] + Length(|e|) + e)
    decreases |keys| + |entries|
  {
    hide PackedEntry, Varint, Tagged, Length;
    FieldBytes(58, k);
    EntryBytes(p);
    FieldBytes(66, PackedEntry(p));
    if keys != [] {
      ListedBytes(keys[1..], k, [], p);
      assert (keys + [k])[1..] == keys[1..] + [k];
    } else {
      assert ([] + [k])[1..] == [];
      AddNothing(Tagged(58, k));
    }
    if entries != [] {
      ListedBytes([], k, entries[1..], p);
      assert (entries + [p])[1..] == entries[1..] + [p];
    } else {
      assert ([] + [p])[1..] == [];
      AddNothing(Tagged(66, PackedEntry(p)));
    }
  }

  /** A message with a number only, as the answer to a size. */
  lemma ResultBytes(c: Packet)
    requires 0 < c.opcode < 128 && 0 <= c.cType < 128 && 0 <= c.result < 0x2000
    requires c.entry == None && (c.key == None || c.key == Some([])) && c.value == [] && c.keys == [] && c.entries == [] && c.stats == None
    ensures Packed(c) == Codes(c.opcode as Byte, c.cType as Byte) + if c.result == 0 then [] else [48] + Length(2 * c.result)
  {
    hide EnumField, SignedField, Codes, Length;
    CodesBytes(c);
    SignedBytes(48, c.result);
    AddNothing(Codes(c.opcode as Byte, c.cType as Byte));
    AddNothing(Packed(c));
  }

  /** The statistics, as long as they are small: three numbers, of which zeros are left out. */
  lemma StatsBytes(c: Packet)
    requires 0 < c.opcode < 128 && 0 <= c.cType < 128 && c.result == 0 && c.stats.Some?
    requires c.entry == None && (c.key == None || c.key == Some([])) && c.value == [] && c.keys == [] && c.entries == []
    requires var s := c.stats.value; 0 <= s.clients < 0x2000 && 0 <= s.operations < 0x2000 && -0x2000 <= s.totalTime < 0x2000
    ensures var s := c.stats.value;
            var b := (if s.clients == 0 then [] else [8] + Length(2 * s.clients))
                   + (if s.operations == 0 then [] else [16] + Length(2 * s.operations))
                   + (if s.totalTime == 0 then [] else [24] + Length(if s.totalTime < 0 then -2 * s.totalTime - 1 else 2 * s.totalTime));
            Packed(c) == Codes(c.opcode as Byte, c.cType as Byte) + ([74] + Length(|b|) + b)
  {
    hide EnumField, SignedField, Codes, Length, Varint, Tagged;
    var s := c.stats.value;
    CodesBytes(c);
    SignedBytes(8, s.clients);
    SignedBytes(16, s.operations);
    SignedBytes(24, s.totalTime);
    NumberSizes(s.clients, 8);
    NumberSizes(s.operations, 16);
    NumberSizes(s.totalTime, 24);
    FieldBytes(74, PackedStats(s));
    assert SignedField(0x30, 0) == [] by { SignedBytes(0x30, 0); }
    AddNothing(Codes(c.opcode as Byte, c.cType as Byte));
  }
}
