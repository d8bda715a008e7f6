/**
 Message boundaries in a byte stream: what the readers of a TCP connection
 make of the bytes that reach them, wherever the stream is cut.
 */
module Framing {
  import opened Words
  import opened Codec

  /* The outcome of reading one frame from the front of a stream. */
  datatype Next =
    | Incomplete                         // the bytes end before the frame does
    | Bad(error: Error)                  // the header or the checksum is refused
    | Got(packet: Packet, size: nat)     // a packet, and how many bytes it took

  function NextFrame(bytes: seq<byte>): (n: Next)
    ensures n.Got? ==> HEADER_SIZE <= n.size <= |bytes|
  {
    if |bytes| < HEADER_SIZE then Incomplete
    else match PayloadLength(bytes[..16]) {
      case Err(e) => Bad(e)
      case Ok(length) =>
        if |bytes| < HEADER_SIZE + length then Incomplete
        else match Decode(bytes[..16], bytes[16..16 + length]) {
          case Err(e) => Bad(e)
          case Ok(p) => Got(p, HEADER_SIZE + length)
        }
    }
  }

  predicate AllEncodable(ps: seq<Packet>) {
    forall i :: 0 <= i < |ps| ==> Encodable(ps[i])
  }

  /* The bytes of ps, one frame after the other. */
  function Frames(ps: seq<Packet>): seq<byte>
    requires AllEncodable(ps)
  {
    if ps == [] then [] else Frame(ps[0]) + Frames(ps[1..])
  }

  lemma {:induction false} FramesConcat(ps: seq<Packet>, qs: seq<Packet>)
    requires AllEncodable(ps) && AllEncodable(qs)
    ensures Frames(ps + qs) == Frames(ps) + Frames(qs)
    decreases |ps|
  {
    hide Frame;
    if ps == [] {
      assert ps + qs == qs;
    } else {
      assert (ps + qs)[1..] == ps[1..] + qs;
      FramesConcat(ps[1..], qs);
    }
  }

  lemma FramesFirst(p: Packet, ps: seq<Packet>)
    requires Encodable(p) && AllEncodable(ps)
    ensures AllEncodable([p] + ps) && Frames([p] + ps) == Frame(p) + Frames(ps)
  {
    hide Frame;
    assert ([p] + ps)[1..] == ps;
  }

  lemma FramesAppend(ps: seq<Packet>, p: Packet)
    requires AllEncodable(ps) && Encodable(p)
    ensures Frames(ps + [p]) == Frames(ps) + Frame(p)
  {
    hide Frame;
    FramesConcat(ps, [p]);
    assert Frames([p]) == Frame(p) + Frames([]);
  }

  lemma NoFrames(ps: seq<Packet>)
    requires ps == []
    ensures AllEncodable(ps) && Frames(ps) == []
  {
  }

  lemma FramesOfOne(p: Packet)
    requires Encodable(p)
    ensures Frames([p]) == Frame(p)
  {
  }

  // ----- one frame -----

  /* A whole frame is read as its packet, whatever follows. */
  lemma NextOfFrame(p: Packet, rest: seq<byte>)
    requires Encodable(p)
    ensures NextFrame(Frame(p) + rest) == Got(p, |Frame(p)|)
  {
    hide Frame, Decode, PayloadLength;
    var f := Frame(p);
    var bytes := f + rest;
    DecodeOfFrame(p);
    assert bytes[..16] == f[..16] && bytes[16..16 + |p.payload|] == f[16..];
  }

  /* A packet is only ever read from its own frame. */
  lemma GotIsFrame(bytes: seq<byte>)
    requires NextFrame(bytes).Got?
    ensures var n := NextFrame(bytes);
      Encodable(n.packet) && n.size == |Frame(n.packet)| && bytes[..n.size] == Frame(n.packet)
  {
    hide Frame, Decode;
    var n := NextFrame(bytes);
    FrameOfDecode(bytes[..16], bytes[16..n.size]);
    assert bytes[..n.size] == bytes[..16] + bytes[16..n.size];
  }

  /* A proper prefix of a frame is an unfinished frame, at whatever byte it is cut. */
  lemma NextOfCutFrame(p: Packet, k: nat)
    requires Encodable(p) && k < |Frame(p)|
    ensures NextFrame(Frame(p)[..k]) == Incomplete
  {
    hide Frame, Decode, PayloadLength;
    if k >= HEADER_SIZE {
      DecodeOfFrame(p);
      assert Frame(p)[..k][..16] == Frame(p)[..16];
    }
  }

  /* More bytes never change a verdict already reached. */
  lemma NextIsFinal(bytes: seq<byte>, more: seq<byte>)
    requires !NextFrame(bytes).Incomplete?
    ensures NextFrame(bytes + more) == NextFrame(bytes)
  {
    hide Decode, PayloadLength;
    var both := bytes + more;
    assert both[..16] == bytes[..16];
    match PayloadLength(bytes[..16]) {
      case Err(e) =>
      case Ok(length) =>
        assert both[16..16 + length] == bytes[16..16 + length];
    }
  }

  lemma NothingLeft()
    ensures NextFrame([]).Incomplete?
  {
  }

  /* No frame is a proper prefix of another. */
  lemma FramesPrefixFree(p: Packet, q: Packet)
    requires Encodable(p) && Encodable(q) && Frame(p) <= Frame(q)
    ensures p == q
  {
    hide Frame, NextFrame;
    NextOfFrame(p, Frame(q)[|Frame(p)|..]);
    NextOfFrame(q, []);
    assert Frame(p) + Frame(q)[|Frame(p)|..] == Frame(q) == Frame(q) + [];
  }

  // ----- a whole stream -----

  /* How a stream ends for its reader. */
  datatype End = EndOfFile(unread: seq<byte>) | Refused(error: Error)

  datatype Parsed = Parsed(packets: seq<Packet>, end: End)

  /* Frame after frame, to the end of the bytes or the first bad frame. */
  function Parse(bytes: seq<byte>): Parsed
    decreases |bytes|
  {
    match NextFrame(bytes)
    case Incomplete => Parsed([], EndOfFile(bytes))
    case Bad(e) => Parsed([], Refused(e))
    case Got(p, size) =>
      var rest := Parse(bytes[size..]);
      Parsed([p] + rest.packets, rest.end)
  }

  lemma ParseStep(bytes: seq<byte>)
    ensures var n := NextFrame(bytes);
      && (n.Incomplete? ==> Parse(bytes) == Parsed([], EndOfFile(bytes)))
      && (n.Bad? ==> Parse(bytes) == Parsed([], Refused(n.error)))
      && (n.Got? ==> Parse(bytes) == Parsed([n.packet] + Parse(bytes[n.size..]).packets, Parse(bytes[n.size..]).end))
  {
  }

  /* Parsing a concatenation of frames, cut short inside the next one, returns exactly those frames. */
  lemma {:induction false} ParseOfFrames(ps: seq<Packet>, tail: seq<byte>)
    requires AllEncodable(ps) && NextFrame(tail).Incomplete?
    ensures Parse(Frames(ps) + tail) == Parsed(ps, EndOfFile(tail))
    decreases |ps|
  {
    hide NextFrame, Frame;
    if ps == [] {
      assert Frames(ps) + tail == tail;
    } else {
      var rest := Frames(ps[1..]) + tail;
      assert Frames(ps) + tail == Frame(ps[0]) + rest;
      NextOfFrame(ps[0], rest);
      ParseOfFrames(ps[1..], tail);
      assert (Frame(ps[0]) + rest)[|Frame(ps[0])|..] == rest;
    }
  }

  /* What was parsed is what the bytes were: nothing is lost, repeated or reordered. */
  lemma {:induction false} FramesOfParse(bytes: seq<byte>)
    ensures AllEncodable(Parse(bytes).packets)
    ensures Frames(Parse(bytes).packets) <= bytes
    ensures Parse(bytes).end.EndOfFile? ==> Frames(Parse(bytes).packets) + Parse(bytes).end.unread == bytes
    decreases |bytes|
  {
    hide NextFrame, Frame;
    var n := NextFrame(bytes);
    if n.Got? {
      var tail := bytes[n.size..];
      GotIsFrame(bytes);
      FramesOfParse(tail);
      FramesFirst(n.packet, Parse(tail).packets);
      assert bytes == Frame(n.packet) + tail;
    }
  }

  /* A stream cut anywhere yields a prefix of its packets, and no error that the whole would not. */
  lemma {:induction false} ParseOfPrefix(bytes: seq<byte>, more: seq<byte>)
    ensures Parse(bytes).packets <= Parse(bytes + more).packets
    ensures Parse(bytes).end.Refused? ==> Parse(bytes + more) == Parse(bytes)
    decreases |bytes|
  {
    hide NextFrame;
    var n := NextFrame(bytes);
    if !n.Incomplete? {
      NextIsFinal(bytes, more);
    }
    if n.Got? {
      assert (bytes + more)[n.size..] == bytes[n.size..] + more;
      ParseOfPrefix(bytes[n.size..], more);
    }
  }

  // ----- a stream in transit -----

  /* bytes stop at a frame boundary. */
  predicate Whole(bytes: seq<byte>) {
    Parse(bytes).end == EndOfFile([])
  }

  lemma WholeIsFrames(bytes: seq<byte>)
    requires Whole(bytes)
    ensures AllEncodable(Parse(bytes).packets) && bytes == Frames(Parse(bytes).packets)
  {
    FramesOfParse(bytes);
  }

  /* Writing a whole frame onto a whole stream keeps it whole. */
  lemma ParseAppend(bytes: seq<byte>, p: Packet)
    requires Whole(bytes) && Encodable(p)
    ensures Parse(bytes + Frame(p)) == Parsed(Parse(bytes).packets + [p], EndOfFile([]))
  {
    hide Parse, Frame, Frames;
    var ps := Parse(bytes).packets;
    WholeIsFrames(bytes);
    FramesAppend(ps, p);
    ParseOfFrames(ps + [p], []);
    assert Frames(ps + [p]) + [] == bytes + Frame(p);
  }

  /* Writing only part of a frame adds no packet. */
  lemma ParseAppendCut(bytes: seq<byte>, p: Packet, k: nat)
    requires Whole(bytes) && Encodable(p) && k < |Frame(p)|
    ensures Parse(bytes + Frame(p)[..k]) == Parsed(Parse(bytes).packets, EndOfFile(Frame(p)[..k]))
  {
    hide Parse, Frame, Frames, NextFrame;
    WholeIsFrames(bytes);
    NextOfCutFrame(p, k);
    ParseOfFrames(Parse(bytes).packets, Frame(p)[..k]);
  }
}
