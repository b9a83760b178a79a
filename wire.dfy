/** The wire format shared by both transports and both directions:
    a frame is `[length: int32][tag: int32][length payload bytes]`.
    Integers are written as BitConverter writes them; this model fixes
    little-endian byte order. */
module Wire {

  newtype byte = x: int | 0 <= x < 256

  const Int32Min: int := -0x8000_0000
  const Int32Max: int := 0x7FFF_FFFF

  /** The values of a C# `int`. */
  type Int32 = x: int | Int32Min <= x <= Int32Max

  /** Size of the length and tag words that precede every payload. */
  const HeaderSize: nat := 8

  /** Largest payload length the stream reader accepts. */
  const MaxFrameLength: nat := 32768

  /** Size of the buffer a datagram is received into. */
  const ReceiveBufferSize: nat := 32768

  /** Tag 0 marks a notification. */
  const NotificationTag: Int32 := 0

  // ---------------------------------------------------------------------
  // 32-bit words

  /** Two's complement of `x` as an unsigned 32-bit value. */
  function Unsigned(x: Int32): (u: nat)
    ensures u < 0x1_0000_0000
    ensures x >= 0 ==> u == x
    ensures x < 0 ==> u == x + 0x1_0000_0000
  {
    if x < 0 then x + 0x1_0000_0000 else x
  }

  /** BitConverter.GetBytes(int), little-endian. */
  function Le32(x: Int32): (b: seq<byte>)
    ensures |b| == 4
  {
    var u := Unsigned(x);
    var q1 := u / 0x100;
    var q2 := q1 / 0x100;
    [(u % 0x100) as byte, (q1 % 0x100) as byte, (q2 % 0x100) as byte, (q2 / 0x100) as byte]
  }

  /** The unsigned value of four little-endian bytes. */
  function Word(b: seq<byte>): (u: nat)
    requires |b| == 4
    ensures u < 0x1_0000_0000
  {
    b[0] as int + 0x100 * (b[1] as int + 0x100 * (b[2] as int + 0x100 * b[3] as int))
  }

  /** BitConverter.ToInt32 on four bytes, little-endian. */
  function FromLe32(b: seq<byte>): (x: Int32)
    requires |b| == 4
    ensures (x < 0) == (b[3] as int >= 0x80)
  {
    var u := Word(b);
    if u < 0x8000_0000 then u else u - 0x1_0000_0000
  }

  /** Reading back a written word gives the value. */
  lemma Le32RoundTrip(x: Int32)
    ensures FromLe32(Le32(x)) == x
  {
    var u := Unsigned(x);
    var q1 := u / 0x100;
    var q2 := q1 / 0x100;
    assert q2 == q2 % 0x100 + 0x100 * (q2 / 0x100);
    assert q1 == q1 % 0x100 + 0x100 * q2;
    assert u == u % 0x100 + 0x100 * q1;
    assert Word(Le32(x)) == u;
  }

  /** Every four bytes are the image of exactly the value they decode to. */
  lemma FromLe32RoundTrip(b: seq<byte>)
    requires |b| == 4
    ensures Le32(FromLe32(b)) == b
  {
    var u := Word(b);
    assert Unsigned(FromLe32(b)) == u;
    var q2 := b[2] as int + 0x100 * b[3] as int;
    var q1 := b[1] as int + 0x100 * q2;
    assert u == b[0] as int + 0x100 * q1;
    assert u / 0x100 == q1 && u % 0x100 == b[0] as int;
    assert q1 / 0x100 == q2 && q1 % 0x100 == b[1] as int;
    assert q2 / 0x100 == b[3] as int && q2 % 0x100 == b[2] as int;
  }

  /** Different values are written differently. */
  lemma Le32Injective(x: Int32, y: Int32)
    requires Le32(x) == Le32(y)
    ensures x == y
  {
    Le32RoundTrip(x);
    Le32RoundTrip(y);
  }

  // ---------------------------------------------------------------------
  // Frames

  /** The frame every Send* method builds: the payload length, the tag
      (0 for a notification, the allocated tag for a request, the echoed
      tag for a response), then the payload. */
  function EncodeFrame(tag: Int32, payload: seq<byte>): (f: seq<byte>)
    requires |payload| <= Int32Max
    ensures |f| == HeaderSize + |payload|
  {
    Le32(|payload|) + Le32(tag) + payload
  }

  /** Where each part of a frame sits. */
  lemma EncodeFrameLayout(tag: Int32, payload: seq<byte>)
    requires |payload| <= Int32Max
    ensures FromLe32(EncodeFrame(tag, payload)[..4]) == |payload|
    ensures FromLe32(EncodeFrame(tag, payload)[4..8]) == tag
    ensures EncodeFrame(tag, payload)[HeaderSize..] == payload
  {
    var f := EncodeFrame(tag, payload);
    assert f[..4] == Le32(|payload|);
    assert f[4..8] == Le32(tag);
    Le32RoundTrip(|payload|);
    Le32RoundTrip(tag);
  }

  // ---------------------------------------------------------------------
  // Stream decoding

  /** What the stream reader makes of the bytes at the head of a stream. */
  datatype StreamRead =
    | Frame(tag: Int32, payload: seq<byte>, rest: seq<byte>)
    | BadLength(len: Int32)   // the length word is negative or above MaxFrameLength
    | ShortRead               // the stream ends inside the length, the tag or the payload

  /** One frame read off the head of a stream that ends (the peer closes)
      after `input`: the length word, its bound, the tag word, the payload. */
  function ReadFrame(input: seq<byte>): (r: StreamRead)
    ensures r.Frame? ==> |r.payload| <= MaxFrameLength
    ensures r.Frame? ==> |input| == HeaderSize + |r.payload| + |r.rest|
  {
    if |input| < 4 then ShortRead
    else
      var len := FromLe32(input[..4]);
      if len < 0 || len > MaxFrameLength then BadLength(len)
      else if |input| < HeaderSize + len then ShortRead
      else Frame(FromLe32(input[4..8]), input[HeaderSize..HeaderSize + len], input[HeaderSize + len..])
  }

  /** Decoding an encoded frame gives back its tag and payload and leaves
      what follows it untouched. */
  lemma ReadEncodedFrame(tag: Int32, payload: seq<byte>, rest: seq<byte>)
    requires |payload| <= MaxFrameLength
    ensures ReadFrame(EncodeFrame(tag, payload) + rest) == Frame(tag, payload, rest)
  {
    var f := EncodeFrame(tag, payload);
    var input := f + rest;
    EncodeFrameLayout(tag, payload);
    assert input[..4] == f[..4];
    assert input[4..8] == f[4..8];
    assert input[HeaderSize..HeaderSize + |payload|] == payload;
    assert input[HeaderSize + |payload|..] == rest;
  }

  /** A frame whose payload is over the bound is rejected by its receiver,
      although the sender builds it without complaint. */
  lemma ReadOversizeFrame(tag: Int32, payload: seq<byte>, rest: seq<byte>)
    requires MaxFrameLength < |payload| <= Int32Max
    ensures ReadFrame(EncodeFrame(tag, payload) + rest) == BadLength(|payload|)
  {
    var f := EncodeFrame(tag, payload);
    EncodeFrameLayout(tag, payload);
    assert (f + rest)[..4] == f[..4];
  }

  /** Whatever the reader accepts is exactly an encoded frame followed by
      the rest of the stream. */
  lemma ReadFrameSound(input: seq<byte>)
    requires ReadFrame(input).Frame?
    ensures |ReadFrame(input).payload| <= Int32Max
    ensures input == EncodeFrame(ReadFrame(input).tag, ReadFrame(input).payload) + ReadFrame(input).rest
  {
    var r := ReadFrame(input);
    FromLe32RoundTrip(input[..4]);
    FromLe32RoundTrip(input[4..8]);
    assert input == input[..4] + input[4..8] + r.payload + r.rest;
  }

  // ---------------------------------------------------------------------
  // Datagram decoding

  /** What UdpConnection.ProcessPacket makes of one received datagram. */
  datatype PacketParse =
    | Message(tag: Int32, payload: seq<byte>)
    | Discarded            // the length word does not match the datagram size
    | NegativeLength(len: int)   // accepted length word below zero: `new byte[len]` throws

  /** The word at offset 0 of the freshly zeroed receive buffer that holds
      `packet`; a datagram shorter than 4 bytes is padded with zeros. */
  function LengthWord(packet: seq<byte>): Int32
  {
    if |packet| >= 4 then FromLe32(packet[..4])
    else FromLe32(packet + seq(4 - |packet|, _ => 0 as byte))
  }

  /** The datagram check as the source writes it: the length word must equal
      `packetLen - 8`, with no check that it is not negative. */
  function ParsePacketAsWritten(packet: seq<byte>): (r: PacketParse)
    requires |packet| <= ReceiveBufferSize
    ensures r.Discarded? <==> LengthWord(packet) != |packet| - HeaderSize
    ensures r.Message? ==> |packet| >= HeaderSize && |r.payload| == LengthWord(packet)
    ensures r.NegativeLength? ==> r.len < 0 && |packet| < HeaderSize
  {
    var len := LengthWord(packet);
    if len != |packet| - HeaderSize then Discarded
    else if len < 0 then NegativeLength(len)
    else Message(FromLe32(packet[4..8]), packet[HeaderSize..])
  }

  /** The datagram check the receive loop needs: a datagram is a message
      exactly when it holds a whole header and its length word counts the
      bytes after it; everything else is dropped without effect. */
  function ParsePacket(packet: seq<byte>): (r: PacketParse)
    requires |packet| <= ReceiveBufferSize
    ensures !r.NegativeLength?
    ensures r.Message? <==> |packet| >= HeaderSize && FromLe32(packet[..4]) == |packet| - HeaderSize
  {
    if |packet| < HeaderSize then Discarded
    else ParsePacketAsWritten(packet)
  }

  /** The as-written check lets a datagram through with a negative length
      exactly when it is 4 to 7 bytes long and its first word is its size
      minus 8; on every other datagram both checks agree. */
  lemma AsWrittenNegativeLengthExactly(packet: seq<byte>)
    requires |packet| <= ReceiveBufferSize
    ensures ParsePacketAsWritten(packet).NegativeLength? <==>
              4 <= |packet| < HeaderSize && FromLe32(packet[..4]) == |packet| - HeaderSize
    ensures !ParsePacketAsWritten(packet).NegativeLength? ==> ParsePacket(packet) == ParsePacketAsWritten(packet)
  {
    if |packet| < 4 {
      var w := packet + seq(4 - |packet|, _ => 0 as byte);
      assert w[3] == 0;
      assert LengthWord(packet) >= 0;
    }
  }

  /** The four-byte datagram FC FF FF FF: its length word is -4, which is
      its size minus 8, so the as-written check accepts it and the receive
      loop goes on to allocate a negative-size array. */
  lemma AsWrittenAcceptsNegativeLength()
    ensures ParsePacketAsWritten([0xFC, 0xFF, 0xFF, 0xFF]) == NegativeLength(-4)
    ensures ParsePacket([0xFC, 0xFF, 0xFF, 0xFF]) == Discarded
  {
    var p: seq<byte> := [0xFC, 0xFF, 0xFF, 0xFF];
    assert p[..4] == p;
    assert FromLe32(p) == -4;
  }

  /** An encoded frame that fits the receive buffer is parsed back. */
  lemma ParseEncodedPacket(tag: Int32, payload: seq<byte>)
    requires HeaderSize + |payload| <= ReceiveBufferSize
    ensures ParsePacket(EncodeFrame(tag, payload)) == Message(tag, payload)
  {
    EncodeFrameLayout(tag, payload);
  }

  /** Whatever is parsed as a message is exactly an encoded frame. */
  lemma ParsePacketSound(packet: seq<byte>)
    requires |packet| <= ReceiveBufferSize
    requires ParsePacket(packet).Message?
    ensures packet == EncodeFrame(ParsePacket(packet).tag, ParsePacket(packet).payload)
  {
    FromLe32RoundTrip(packet[..4]);
    FromLe32RoundTrip(packet[4..8]);
    assert packet == packet[..4] + packet[4..8] + packet[HeaderSize..];
  }

  /** The zero-byte ping is never taken for a message. */
  lemma PingIsDiscarded()
    ensures ParsePacket([]) == Discarded
    ensures ParsePacketAsWritten([]) == Discarded
  {
    assert LengthWord([]) == 0;
  }
}
