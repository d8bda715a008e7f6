/**
 The packet codec: a 16-byte big-endian header followed by the payload, with
 a checksum that covers everything but itself.
 */
module Codec {
  import opened Words
  import opened Crc

  const MAGIC: bv16 := 0xAA55
  const VERSION: byte := 1
  const MAX_PAYLOAD: nat := 1024
  const HEADER_SIZE: nat := 16

  const DATA: byte := 1
  const ACK: byte := 2
  const HEARTBEAT: byte := 3
  const HEARTBEAT_ACK: byte := 4

  /* Decoding does not check the type, so it is any byte. */
  datatype Packet = Packet(kind: byte, sequence: u32, payload: seq<byte>)

  datatype Error =
    | InvalidHeaderSize
    | InvalidMagic
    | UnsupportedVersion
    | LengthMismatch
    | PayloadTooLarge
    | CrcMismatch
    | DatagramTooSmall
    | DatagramSizeMismatch

  datatype Result<+T> = Ok(value: T) | Err(error: Error)

  predicate Encodable(p: Packet) {
    |p.payload| <= MAX_PAYLOAD
  }

  /* The header without its checksum: 12 bytes. */
  function Prefix(p: Packet): (s: seq<byte>)
    requires Encodable(p)
    ensures |s| == 12
  {
    SplitHalf(MAGIC) + [VERSION, p.kind] + SplitWord(ToWord(p.sequence)) + SplitWord(ToWord(|p.payload|))
  }

  function Checksum(p: Packet): word
    requires Encodable(p)
  {
    Crc32(Prefix(p) + p.payload)
  }

  /* The bytes of p on the wire. */
  function Frame(p: Packet): (s: seq<byte>)
    requires Encodable(p)
    ensures |s| == HEADER_SIZE + |p.payload|
  {
    Prefix(p) + SplitWord(Checksum(p)) + p.payload
  }

  /* What was there stays, and a reader of the two new bytes gets the value. */
  method AppendHalf(buffer: seq<byte>, value: bv16) returns (grown: seq<byte>)
    ensures |grown| == |buffer| + 2 && buffer <= grown && JoinHalf(grown[|buffer|..]) == value
  {
    grown := buffer + [(value >> 8) as byte];
    grown := grown + [(value & 0xFF) as byte];
    JoinOfSplitHalf(value);
    assert grown[|buffer|..] == SplitHalf(value);
  }

  /* What was there stays, and a reader of the four new bytes gets the value. */
  method AppendWord(buffer: seq<byte>, value: word) returns (grown: seq<byte>)
    ensures |grown| == |buffer| + 4 && buffer <= grown && JoinWord(grown[|buffer|..]) == value
  {
    grown := buffer + [(value >> 24) as byte, ((value >> 16) & 0xFF) as byte];
    grown := grown + [((value >> 8) & 0xFF) as byte, (value & 0xFF) as byte];
    JoinOfSplit(value);
    assert grown[|buffer|..] == SplitWord(value);
  }

  /* Reading a value back pins down the bytes that were appended. */
  lemma AppendedHalf(buffer: seq<byte>, grown: seq<byte>)
    requires |grown| == |buffer| + 2 && buffer <= grown
    ensures grown == buffer + SplitHalf(JoinHalf(grown[|buffer|..]))
  {
    SplitOfJoinHalf(grown[|buffer|..]);
  }

  lemma AppendedWord(buffer: seq<byte>, grown: seq<byte>)
    requires |grown| == |buffer| + 4 && buffer <= grown
    ensures grown == buffer + SplitWord(JoinWord(grown[|buffer|..]))
  {
    SplitOfJoin(grown[|buffer|..]);
  }

  method AppendPrefix(p: Packet) returns (buffer: seq<byte>)
    requires Encodable(p)
    ensures buffer == Prefix(p)
  {
    hide SplitHalf, SplitWord, JoinHalf, JoinWord, ToWord;
    buffer := AppendHalf([], MAGIC);
    AppendedHalf([], buffer);
    buffer := buffer + [VERSION];
    buffer := buffer + [p.kind];
    ghost var first := buffer;
    buffer := AppendWord(buffer, ToWord(p.sequence));
    AppendedWord(first, buffer);
    ghost var second := buffer;
    buffer := AppendWord(buffer, ToWord(|p.payload|));
    AppendedWord(second, buffer);
  }

  method MakeCrcInput(p: Packet) returns (buffer: seq<byte>)
    requires Encodable(p)
    ensures buffer == Prefix(p) + p.payload
  {
    buffer := AppendPrefix(p);
    buffer := buffer + p.payload;
  }

  method EncodePacket(p: Packet) returns (r: Result<seq<byte>>)
    ensures r == if |p.payload| <= 1024 then Ok(Frame(p)) else Err(PayloadTooLarge)
  {
    hide SplitWord, JoinWord, Crc32, Prefix;
    if |p.payload| > MAX_PAYLOAD {
      return Err(PayloadTooLarge);
    }
    var input := MakeCrcInput(p);
    var checksum := ComputeCrc32(input);
    var buffer := AppendPrefix(p);
    ghost var prefix := buffer;
    buffer := AppendWord(buffer, checksum);
    AppendedWord(prefix, buffer);
    buffer := buffer + p.payload;
    r := Ok(buffer);
  }

  predicate HasMagic(header: seq<byte>)
    requires |header| == HEADER_SIZE
  {
    JoinHalf(header[0..2]) == MAGIC
  }

  function SequenceField(header: seq<byte>): u32
    requires |header| == HEADER_SIZE
  {
    Value(JoinWord(header[4..8]))
  }

  function LengthField(header: seq<byte>): u32
    requires |header| == HEADER_SIZE
  {
    Value(JoinWord(header[8..12]))
  }

  function ChecksumField(header: seq<byte>): word
    requires |header| == HEADER_SIZE
  {
    JoinWord(header[12..16])
  }

  /* The payload length a header announces. */
  function PayloadLength(header: seq<byte>): (r: Result<nat>)
    ensures r.Ok? ==> |header| == HEADER_SIZE && r.value <= MAX_PAYLOAD
  {
    if |header| != HEADER_SIZE then Err(InvalidHeaderSize)
    else if !HasMagic(header) then Err(InvalidMagic)
    else if header[2] != VERSION then Err(UnsupportedVersion)
    else if LengthField(header) > MAX_PAYLOAD then Err(PayloadTooLarge)
    else Ok(LengthField(header))
  }

  function Decode(header: seq<byte>, payload: seq<byte>): Result<Packet> {
    if |header| != HEADER_SIZE then Err(InvalidHeaderSize)
    else if !HasMagic(header) then Err(InvalidMagic)
    else if header[2] != VERSION then Err(UnsupportedVersion)
    else if LengthField(header) != |payload| then Err(LengthMismatch)
    else if LengthField(header) > MAX_PAYLOAD then Err(PayloadTooLarge)
    else if ChecksumField(header) != Crc32(header[..12] + payload) then Err(CrcMismatch)
    else Ok(Packet(header[3], SequenceField(header), payload))
  }

  // ----- the codec's two inverses -----

  function Header(p: Packet): (h: seq<byte>)
    requires Encodable(p)
    ensures |h| == HEADER_SIZE && h[..12] == Prefix(p)
    ensures Frame(p) == h + p.payload && Frame(p)[..16] == h && Frame(p)[16..] == p.payload
  {
    Prefix(p) + SplitWord(Checksum(p))
  }

  lemma HeaderSlices(p: Packet)
    requires Encodable(p)
    ensures var h := Header(p);
      && h[0..2] == SplitHalf(MAGIC) && h[2] == VERSION && h[3] == p.kind
      && h[4..8] == SplitWord(ToWord(p.sequence)) && h[8..12] == SplitWord(ToWord(|p.payload|))
      && h[12..16] == SplitWord(Checksum(p))
  {
    Slices(SplitHalf(MAGIC), [VERSION, p.kind], SplitWord(ToWord(p.sequence)), SplitWord(ToWord(|p.payload|)),
           SplitWord(Checksum(p)));
  }

  lemma Slices(a: seq<byte>, b: seq<byte>, c: seq<byte>, d: seq<byte>, e: seq<byte>)
    requires |a| == |b| == 2 && |c| == |d| == |e| == 4
    ensures var h := a + b + c + d + e;
      h[0..2] == a && h[2] == b[0] && h[3] == b[1] && h[4..8] == c && h[8..12] == d && h[12..16] == e
  {
  }

  lemma WordField(n: u32)
    ensures Value(JoinWord(SplitWord(ToWord(n)))) == n
  {
    JoinOfSplit(ToWord(n));
    ValueOfToWord(n);
  }

  lemma HeaderFields(p: Packet)
    requires Encodable(p)
    ensures var h := Header(p);
      HasMagic(h) && SequenceField(h) == p.sequence && LengthField(h) == |p.payload| && ChecksumField(h) == Checksum(p)
  {
    HeaderSlices(p);
    JoinOfSplitHalf(MAGIC);
    WordField(p.sequence);
    WordField(|p.payload|);
    JoinOfSplit(Checksum(p));
  }

  /* Decoding an encoded packet gives the packet back. */
  lemma DecodeOfFrame(p: Packet)
    requires Encodable(p)
    ensures PayloadLength(Frame(p)[..16]) == Ok(|p.payload|)
    ensures Decode(Frame(p)[..16], Frame(p)[16..]) == Ok(p)
  {
    HeaderSlices(p);
    HeaderFields(p);
  }

  lemma FieldWord(s: seq<byte>)
    requires |s| == 4
    ensures SplitWord(ToWord(Value(JoinWord(s)))) == s
  {
    ToWordOfValue(JoinWord(s));
    SplitOfJoin(s);
  }

  lemma HeaderPieces(h: seq<byte>)
    requires |h| == 16
    ensures h[..12] == h[0..2] + [h[2], h[3]] + h[4..8] + h[8..12]
    ensures h == h[..12] + h[12..16]
  {
  }

  lemma PrefixOfHeader(h: seq<byte>, p: Packet)
    requires |h| == HEADER_SIZE && Encodable(p)
    requires HasMagic(h) && h[2] == VERSION && h[3] == p.kind
    requires SequenceField(h) == p.sequence && LengthField(h) == |p.payload|
    ensures h[..12] == Prefix(p)
  {
    SplitOfJoinHalf(h[0..2]);
    FieldWord(h[4..8]);
    FieldWord(h[8..12]);
    HeaderPieces(h);
  }

  lemma HeaderOfParts(h: seq<byte>, p: Packet)
    requires |h| == HEADER_SIZE && Encodable(p)
    requires h[..12] == Prefix(p) && ChecksumField(h) == Checksum(p)
    ensures h == Header(p)
  {
    SplitOfJoin(h[12..16]);
    HeaderPieces(h);
  }

  /* A header announces n bytes of payload exactly when magic, version and length field spell it out. */
  lemma PayloadLengthExact(h: seq<byte>, n: nat)
    ensures PayloadLength(h) == Ok(n) <==>
            && |h| == 16 && n <= 1024
            && h[0] == 0xAA && h[1] == 0x55 && h[2] == 1 && BigEndian(h[8], h[9], h[10], h[11]) == n
  {
    hide JoinWord, SplitWord, ToWord, Value, BigEndian;
    MagicBytes();
    if |h| == HEADER_SIZE {
      assert h[0..2] == [h[0], h[1]];
      assert HasMagic(h) <==> h[0..2] == [0xAA, 0x55] by {
        SplitOfJoinHalf(h[0..2]);
      }
      ValueIsBigEndian(h[8..12]);
    }
  }

  /* Every byte of an encoding, as a number: the magic, the version, the type, the sequence number and the length, most
     significant byte first, the checksum of all else, and the payload. */
  lemma FrameBytes(p: Packet)
    requires |p.payload| <= 1024
    ensures var f := Frame(p);
      && |f| == 16 + |p.payload| && f[0] == 0xAA && f[1] == 0x55 && f[2] == 1 && f[3] == p.kind
      && BigEndian(f[4], f[5], f[6], f[7]) == p.sequence
      && BigEndian(f[8], f[9], f[10], f[11]) == |p.payload|
      && (f[12] as word << 24) | (f[13] as word << 16) | (f[14] as word << 8) | (f[15] as word) ==
           Crc32(f[..12] + f[16..])
      && f[16..] == p.payload
  {
    hide SplitHalf, JoinHalf, SplitWord, ToWord, Value, BigEndian, Crc32, Prefix;
    var f, h := Frame(p), Header(p);
    MagicBytes();
    HeaderSlices(p);
    HeaderFields(p);
    assert h[0..2] == [f[0], f[1]];
    ValueIsBigEndian(h[4..8]);
    ValueIsBigEndian(h[8..12]);
    assert f[..12] == h[..12];
  }

  /* The error is that of the first check that fails, in this order. */
  lemma RefusedFor(h: seq<byte>, payload: seq<byte>)
    ensures PayloadLength(h).Err? ==>
              PayloadLength(h).error ==
                if |h| != 16 then InvalidHeaderSize
                else if h[0] != 0xAA || h[1] != 0x55 then InvalidMagic
                else if h[2] != 1 then UnsupportedVersion
                else PayloadTooLarge
    ensures Decode(h, payload).Err? ==>
              Decode(h, payload).error ==
                if |h| != 16 then InvalidHeaderSize
                else if h[0] != 0xAA || h[1] != 0x55 then InvalidMagic
                else if h[2] != 1 then UnsupportedVersion
                else if BigEndian(h[8], h[9], h[10], h[11]) != |payload| then LengthMismatch
                else if |payload| > 1024 then PayloadTooLarge
                else CrcMismatch
  {
    hide JoinWord, SplitWord, ToWord, Value, BigEndian, Crc32;
    MagicBytes();
    if |h| == HEADER_SIZE {
      assert h[0..2] == [h[0], h[1]];
      SplitOfJoinHalf(h[0..2]);
      ValueIsBigEndian(h[8..12]);
    }
  }

  lemma MagicBytes()
    ensures SplitHalf(MAGIC) == [0xAA, 0x55] && JoinHalf([0xAA, 0x55]) == MAGIC
  {
  }

  /* Whatever decoding accepts is, byte for byte, the encoding of its result. */
  lemma FrameOfDecode(header: seq<byte>, payload: seq<byte>)
    requires Decode(header, payload).Ok?
    ensures var p := Decode(header, payload).value;
      Encodable(p) && header + payload == Frame(p)
  {
    var p := Decode(header, payload).value;
    PrefixOfHeader(header, p);
    HeaderOfParts(header, p);
  }

  /* Decoding accepts exactly the encodings. */
  lemma DecodeExact(header: seq<byte>, payload: seq<byte>, p: Packet)
    ensures Decode(header, payload) == Ok(p) <==>
            Encodable(p) && |header| == HEADER_SIZE && header + payload == Frame(p)
  {
    if Decode(header, payload) == Ok(p) {
      FrameOfDecode(header, payload);
    }
    if Encodable(p) && |header| == HEADER_SIZE && header + payload == Frame(p) {
      DecodeOfFrame(p);
      assert header == (header + payload)[..16] && payload == (header + payload)[16..];
    }
  }

  lemma FrameInjective(p: Packet, q: Packet)
    requires Encodable(p) && Encodable(q) && Frame(p) == Frame(q)
    ensures p == q
  {
    DecodeOfFrame(p);
    DecodeOfFrame(q);
  }

  // ----- datagrams -----

  const BUFFER_SIZE: nat := HEADER_SIZE + MAX_PAYLOAD

  /* The bytes recvfrom stores of a datagram: what exceeds the buffer is cut off. */
  function Received(datagram: seq<byte>): (bytes: seq<byte>)
    ensures |bytes| <= BUFFER_SIZE
  {
    if |datagram| <= BUFFER_SIZE then datagram else datagram[..BUFFER_SIZE]
  }

  function ReceiveDatagram(datagram: seq<byte>): Result<Packet> {
    var bytes := Received(datagram);
    if |bytes| < HEADER_SIZE then Err(DatagramTooSmall)
    else match PayloadLength(bytes[..16]) {
      case Err(e) => Err(e)
      case Ok(length) =>
        if |bytes| != HEADER_SIZE + length then Err(DatagramSizeMismatch)
        else Decode(bytes[..16], bytes[16..16 + length])
    }
  }

  /* A datagram is accepted exactly when the stored bytes are an encoding. */
  lemma DatagramExact(datagram: seq<byte>, p: Packet)
    ensures ReceiveDatagram(datagram) == Ok(p) <==>
            Encodable(p) && (if |datagram| <= 1040 then datagram else datagram[..1040]) == Frame(p)
  {
    var bytes := Received(datagram);
    if |bytes| >= HEADER_SIZE {
      assert bytes == bytes[..16] + bytes[16..];
      DecodeExact(bytes[..16], bytes[16..], p);
      DatagramDecodes(datagram);
    }
  }

  lemma DatagramDecodes(datagram: seq<byte>)
    requires |Received(datagram)| >= HEADER_SIZE
    ensures var bytes := Received(datagram);
      var (header, payload) := (bytes[..16], bytes[16..]);
      && (ReceiveDatagram(datagram).Ok? <==> Decode(header, payload).Ok?)
      && (Decode(header, payload).Ok? ==> ReceiveDatagram(datagram) == Decode(header, payload))
  {
    var bytes := Received(datagram);
    assert bytes[16..16 + |bytes[16..]|] == bytes[16..];
  }

  lemma FrameIsAccepted(p: Packet)
    requires Encodable(p)
    ensures ReceiveDatagram(Frame(p)) == Ok(p)
  {
    DatagramExact(Frame(p), p);
  }
}
