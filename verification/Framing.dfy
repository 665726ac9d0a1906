/** Messages on a byte stream: a two-byte size in network byte order, then the packed message in chunks. */
module Framing {
  import opened Bytes

  const MAX_MSG := 2048

  /** The largest size that a short can hold. */
  const MAX_SHORT := 32767

  // ----- the format

  function SizeBytes(n: nat): seq<Byte>
    requires n < 65536
  {
    [(n / 256) as Byte, (n % 256) as Byte]
  }

  function SizeOf(p: seq<Byte>): (n: nat)
    requires |p| >= 2
    ensures n < 65536
  {
    p[0] as int * 256 + p[1] as int
  }

  /** What one message looks like on the wire. */
  function Frame(content: Block): (f: seq<Byte>)
    requires |content| <= MAX_SHORT
    ensures |f| == 2 + |content|
  {
    SizeBytes(|content|) + content
  }

  lemma FrameStart(content: Block, rest: seq<Byte>)
    requires |content| <= MAX_SHORT
    ensures Frame(content)[0] as int == |content| / 256 && Frame(content)[1] as int == |content| % 256
    ensures SizeOf(Frame(content) + rest) == |content|
    ensures (Frame(content) + rest)[2..2 + |content|] == content && (Frame(content) + rest)[2 + |content|..] == rest
  {
  }

  /** The receiver moves its buffer pointer along with every full chunk, so what it unpacks in the end is what
      was read after the last of them. */
  function LastChunk(content: Block): Block {
    if |content| > MAX_MSG then LastChunk(content[MAX_MSG..]) else content
  }

  lemma {:induction false} LastChunkIsSuffix(content: Block)
    ensures var n := |content|;
            LastChunk(content) == content[if n == 0 then 0 else (n - 1) / 2048 * 2048..]
  {
    if |content| > MAX_MSG {
      var rest := content[MAX_MSG..];
      LastChunkIsSuffix(rest);
      var n := |content|;
      assert (n - 1) / MAX_MSG == (n - MAX_MSG - 1) / MAX_MSG + 1;
      var k := (n - MAX_MSG - 1) / MAX_MSG * MAX_MSG;
      assert rest[k..] == content[MAX_MSG + k..];
    }
  }

  /** A message is handed on whole exactly when it fits into one chunk. */
  lemma WholeMessages(content: Block)
    ensures LastChunk(content) == content <==> |content| <= 2048
  {
    LastChunkIsSuffix(content);
  }

  // ----- the stream

  /** What a system call does. */
  datatype Outcome =
    | Complete         // as many bytes as asked for, or as there are
    | Partial(n: nat)  // at most n of them
    | Interrupted      // -1, with errno EINTR
    | Broken           // -1, with another errno

  /** One direction of a connection: the bytes that were written and not yet read. The outcomes say what the
      next calls do; when they are used up, calls are complete. */
  class Stream {
    var pending: seq<Byte>
    var outcomes: seq<Outcome>

    constructor ()
      ensures pending == [] && outcomes == []
    {
      pending, outcomes := [], [];
    }

    ghost predicate Smooth()
      reads this
    {
      forall i :: 0 <= i < |outcomes| ==> outcomes[i] == Complete
    }

    method NextOutcome() returns (o: Outcome)
      modifies this`outcomes
      ensures if old(outcomes) == [] then o == Complete && outcomes == [] else o == old(outcomes)[0] && outcomes == old(outcomes)[1..]
      ensures old(Smooth()) ==> Smooth() && o == Complete
    {
      if outcomes == [] { return Complete; }
      o := outcomes[0];
      outcomes := outcomes[1..];
    }

    method Write(data: seq<Byte>) returns (len: int)
      modifies this
      ensures -1 <= len <= |data|
      ensures pending == if len == -1 then old(pending) else old(pending) + data[..len]
      ensures old(Smooth()) ==> Smooth() && len == |data|
    {
      var o := NextOutcome();
      if o == Interrupted || o == Broken { return -1; }
      len := if o.Partial? && o.n < |data| then o.n else |data|;
      pending := pending + data[..len];
    }

    /** Reads at most count bytes into the buffer. */
    method Read(buffer: array<Byte>, from: nat, count: nat) returns (len: int, interrupted: bool)
      requires from + count <= buffer.Length
      modifies this, buffer
      ensures -1 <= len <= count && len <= |old(pending)| && (len >= 0 ==> !interrupted)
      ensures pending == if len == -1 then old(pending) else old(pending)[len..]
      ensures len >= 0 ==> buffer[from..from + len] == old(pending)[..len]
      ensures buffer[..from] == old(buffer[..from])
      ensures old(Smooth()) ==> Smooth() && len == if count <= |old(pending)| then count else |old(pending)|
    {
      var o := NextOutcome();
      if o == Interrupted || o == Broken { return -1, o == Interrupted; }
      interrupted := false;
      len := if count <= |pending| then count else |pending|;
      if o.Partial? && o.n < len { len := o.n; }
      var i := 0;
      while i < len
        modifies buffer
        invariant 0 <= i <= len && buffer[from..from + i] == pending[..i] && buffer[..from] == old(buffer[..from])
      {
        buffer[from + i] := pending[i];
        i := i + 1;
      }
      pending := pending[len..];
    }
  }

  // ----- sending

  /** message_send_all, for a packed message: the number of bytes sent, 0 for a broken connection, -1 for an
      error. The size of the buffer is what a short makes of the size of the message; a message with another size
      is packed beyond the buffer, and the process breaks down before anything is sent. */
  method SendAll(stream: Stream, content: Block) returns (total: int, crash: bool)
    modifies stream
    ensures crash <==> |content| > 32767
    ensures crash ==> stream.pending == old(stream.pending)
    ensures !crash ==>
              && total in {2 + |content|, 0, -1}
              && (total > 0 ==> stream.pending == old(stream.pending) + Frame(content))
              && (total > 0 ==> stream.pending == old(stream.pending) + [(|content| / 256) as Byte, (|content| % 256) as Byte] + content)
              && (exists m :: 0 <= m <= |Frame(content)| && stream.pending == old(stream.pending) + Frame(content)[..m])
              && (old(stream.Smooth()) ==> total == 2 + |content| && stream.Smooth())
  {
    if ToShort(|content|) != |content| {
      ShortIsExact(|content|);
      return -1, true;
    }
    ShortIsExact(|content|);
    crash := false;
    total := SendFrame(stream, content);
  }

  /** The conversion of a size to a short. */
  function ToShort(n: nat): int {
    var low := n % 65536;
    if low <= MAX_SHORT then low else low - 65536
  }

  lemma ShortIsExact(n: nat)
    ensures ToShort(n) == n <==> n <= MAX_SHORT
    ensures -0x8000 <= ToShort(n) < 0x8000 && (n - ToShort(n)) % 0x1_0000 == 0
  {
  }

  /** The part of message_send_all that writes. */
  method SendFrame(stream: Stream, content: Block) returns (total: int)
    requires |content| <= MAX_SHORT
    modifies stream
    ensures total in {2 + |content|, 0, -1}
    ensures total > 0 ==> stream.pending == old(stream.pending) + Frame(content)
    ensures exists m :: 0 <= m <= |Frame(content)| && stream.pending == old(stream.pending) + Frame(content)[..m]
    ensures old(stream.Smooth()) ==> total == 2 + |content| && stream.Smooth()
  {
    hide Stream.Smooth;
    ghost var before, frame := stream.pending, Frame(content);
    var length := stream.Write(SizeBytes(|content|));
    assert length >= 0 ==> SizeBytes(|content|)[..length] == frame[..length];
    if length == -1 { assert before + frame[..0] == before; return -1; }
    if length < 2 { return 0; }
    total := length;
    var from, size := 0, |content|;
    while size > MAX_MSG
      invariant size == |content| - from && total == 2 + from && 0 <= from <= |content|
      invariant stream.pending == before + frame[..2 + from]
      invariant old(stream.Smooth()) ==> stream.Smooth()
    {
      length := stream.Write(content[from..from + MAX_MSG]);
      FrameGrows(before, content, from, MAX_MSG, length);
      if length == -1 { return -1; }
      if length < MAX_MSG { return 0; }
      from, size, total := from + length, size - length, total + length;
    }
    length := stream.Write(content[from..from + size]);
    FrameGrows(before, content, from, size, length);
    if length == -1 { return -1; }
    if length < size { return 0; }
    total := total + length;
    assert frame[..2 + from + length] == frame;
  }

  lemma FrameGrows(p: seq<Byte>, content: Block, from: nat, size: nat, length: int)
    requires |content| <= MAX_SHORT && from + size <= |content| && -1 <= length <= size
    ensures length >= 0 ==>
              p + Frame(content)[..2 + from] + content[from..from + size][..length] == p + Frame(content)[..2 + from + length]
  {
    if length >= 0 {
      assert Frame(content)[..2 + from] + content[from..from + size][..length] == Frame(content)[..2 + from + length];
      assert p + Frame(content)[..2 + from] + content[from..from + size][..length]
          == p + (Frame(content)[..2 + from] + content[from..from + size][..length]);
    }
  }

  // ----- receiving

  /** message_receive_all, up to the call that unpacks: the bytes it is called with, or nothing. */
  method ReceiveAll(stream: Stream) returns (content: Option<Block>, disconnected: bool)
    modifies stream
    ensures disconnected ==> content == None
    ensures content.Some? ==>
              var p := old(stream.pending);
              && |p| >= 2 && SizeOf(p) == p[0] as int * 256 + p[1] as int <= 32767 && |p| >= 2 + SizeOf(p)
              && content.value == LastChunk(p[2..2 + SizeOf(p)])
              && stream.pending == p[2 + SizeOf(p)..]
    ensures var p := old(stream.pending);
            old(stream.Smooth()) ==>
              && stream.Smooth()
              && (content.Some? <==> |p| >= 2 && SizeOf(p) <= MAX_SHORT && |p| >= 2 + SizeOf(p))
              && (disconnected <==> |p| < 2 || (SizeOf(p) <= MAX_SHORT && |p| < 2 + SizeOf(p)))
  {
    hide Stream.Smooth, LastChunk;
    ghost var p := stream.pending;
    var sizeBuffer := new Byte[2](_ => 0);
    var length, interrupted := stream.Read(sizeBuffer, 0, 2);
    if (length == -1 && interrupted) || (length >= 0 && length < 2) { return None, true; }
    if length == -1 { return None, false; }
    assert sizeBuffer[..] == sizeBuffer[0..2] == p[..2];
    var size := SizeOf(sizeBuffer[..]);
    // as a short the size is negative now, and no buffer can be had
    if size > MAX_SHORT { return None, false; }
    content, disconnected := ReceiveContent(stream, size);
    assert |p| >= 2 + size ==> p[2..][..size] == p[2..2 + size] && p[2..][size..] == p[2 + size..];
  }

  /** The part of message_receive_all behind the size. */
  method ReceiveContent(stream: Stream, size: nat) returns (content: Option<Block>, disconnected: bool)
    modifies stream
    ensures disconnected ==> content == None
    ensures content.Some? ==>
              var p := old(stream.pending);
              |p| >= size && content.value == LastChunk(p[..size]) && stream.pending == p[size..]
    ensures var p := old(stream.pending);
            old(stream.Smooth()) ==> stream.Smooth() && (content.Some? <==> |p| >= size) && (disconnected <==> |p| < size)
  {
    hide Stream.Smooth, LastChunk;
    ghost var p := stream.pending;
    var buffer := new Byte[size](_ => 0);
    var from, rest, length, interrupted := 0, size, 0, false;
    while rest > MAX_MSG
      invariant 0 <= rest && from + rest == size && 0 <= from <= |p|
      invariant stream.pending == p[from..]
      invariant old(stream.Smooth()) ==> stream.Smooth()
      invariant size <= |p| ==> LastChunk(p[from..size]) == LastChunk(p[..size])
    {
      length, interrupted := stream.Read(buffer, from, MAX_MSG);
      if (length == -1 && interrupted) || (length >= 0 && length < MAX_MSG) { return None, true; }
      if length == -1 { return None, false; }
      NextChunk(p, from, rest);
      from, rest := from + MAX_MSG, rest - MAX_MSG;
    }
    length, interrupted := stream.Read(buffer, from, rest);
    if (length == -1 && interrupted) || (length >= 0 && length < rest) { return None, true; }
    if length == -1 { return None, false; }
    content, disconnected := Some(buffer[from..from + rest]), false;
    WholeMessages(content.value);
    assert p[from..][..rest] == p[from..size] && p[from..][rest..] == p[size..];
  }

  lemma NextChunk(body: seq<Byte>, from: nat, size: nat)
    requires size > MAX_MSG && from + MAX_MSG <= |body|
    ensures body[from..][MAX_MSG..] == body[from + MAX_MSG..]
    ensures from + size <= |body| ==> LastChunk(body[from..from + size]) == LastChunk(body[from + MAX_MSG..from + size])
  {
    assert from + size <= |body| ==> body[from..from + size][MAX_MSG..] == body[from + MAX_MSG..from + size];
  }

  // ----- many messages

  function Wire(contents: seq<Block>): seq<Byte>
    requires forall c :: c in contents ==> |c| <= MAX_SHORT
  {
    if contents == [] then [] else Frame(contents[0]) + Wire(contents[1..])
  }

  lemma {:induction false} WireAppend(contents: seq<Block>, c: Block)
    requires |c| <= MAX_SHORT && forall x :: x in contents ==> |x| <= MAX_SHORT
    ensures Wire(contents + [c]) == Wire(contents) + Frame(c)
  {
    if contents == [] {
      assert ([] + [c])[1..] == [];
    } else {
      assert (contents + [c])[1..] == contents[1..] + [c];
      WireAppend(contents[1..], c);
    }
  }

  method SendMany(stream: Stream, contents: seq<Block>)
    requires forall c :: c in contents ==> |c| <= MAX_SHORT
    requires stream.Smooth()
    modifies stream
    ensures stream.Smooth() && stream.pending == old(stream.pending) + Wire(contents)
  {
    hide Stream.Smooth, Frame;
    var i := 0;
    while i < |contents|
      invariant 0 <= i <= |contents| && stream.Smooth() && stream.pending == old(stream.pending) + Wire(contents[..i])
    {
      var _, _ := SendAll(stream, contents[i]);
      WireAppend(contents[..i], contents[i]);
      assert contents[..i + 1] == contents[..i] + [contents[i]];
      i := i + 1;
    }
    assert contents[..i] == contents;
  }

  /** Every receive takes exactly one message off the stream. */
  method ReceiveMany(stream: Stream, ghost contents: seq<Block>, count: nat) returns (received: seq<Block>)
    requires count == |contents| && forall c :: c in contents ==> |c| <= MAX_SHORT
    requires stream.Smooth() && stream.pending == Wire(contents)
    modifies stream
    ensures stream.pending == []
    ensures |received| == count && forall i :: 0 <= i < count ==> received[i] == LastChunk(contents[i])
  {
    hide Stream.Smooth, Frame, LastChunk;
    received := [];
    var i := 0;
    assert contents[0..] == contents;
    while i < count
      invariant 0 <= i <= count && stream.Smooth() && stream.pending == Wire(contents[i..])
      invariant |received| == i && forall j :: 0 <= j < i ==> received[j] == LastChunk(contents[j])
    {
      assert contents[i..][0] == contents[i] && contents[i..][1..] == contents[i + 1..];
      FrameStart(contents[i], Wire(contents[i + 1..]));
      var content, _ := ReceiveAll(stream);
      received := received + [content.value];
      i := i + 1;
    }
  }

  /** Any number of messages, sent one after the other and then received one after the other: in the end nothing
      is left of what was sent, and the messages arrive whole exactly when all of them fit into one chunk. */
  method Exchange(stream: Stream, contents: seq<Block>) returns (received: seq<Block>)
    requires forall c :: c in contents ==> |c| <= MAX_SHORT
    requires stream.Smooth() && stream.pending == []
    modifies stream
    ensures stream.pending == []
    ensures |received| == |contents| && forall i :: 0 <= i < |contents| ==> received[i] == LastChunk(contents[i])
    ensures (forall c :: c in contents ==> |c| <= MAX_MSG) <==> received == contents
  {
    hide LastChunk, Wire;
    SendMany(stream, contents);
    received := ReceiveMany(stream, contents, |contents|);
    forall c | c in contents ensures LastChunk(c) == c <==> |c| <= MAX_MSG { WholeMessages(c); }
  }
}
