/**
 Blocking reads and writes on one accepted connection, as the TCP receiver and
 the proxy perform them: bytes arrive in any pieces and may end anywhere.
 */
module Streams {
  import opened Words
  import opened Codec
  import opened Framing

  datatype RecvResult = Bytes(data: seq<byte>) | EndOfStream | RecvInterrupted | RecvError

  datatype SendResult = Sent(count: nat) | SendInterrupted | SendError

  /* What the operating system has reported about a connection. */
  datatype Trouble = EndReached | ReadError | WriteError | PollError | HungUp | Unreachable

  function RecvTrouble(r: RecvResult): set<Trouble> {
    if r.EndOfStream? then {EndReached} else if r.RecvError? then {ReadError} else {}
  }

  function SendTrouble(r: SendResult): set<Trouble> {
    if r.SendError? || r == Sent(0) then {WriteError} else {}
  }

  /** The operating system seen through one connection: incoming holds the bytes the peer gets
      delivered before the connection ends. How they are cut into pieces, how much of a send is taken, and
      when a signal or an error intervenes, is arbitrary; signals bounds the interruptions. */
  class Stream {
    var incoming: seq<byte>
    var signals: nat
    ghost var outgoing: seq<byte>
    ghost var troubles: set<Trouble>  // reported so far
    ghost var pending: bool           // poll has announced input that has not been read

    constructor (incoming: seq<byte>, signals: nat)
      ensures this.incoming == incoming && this.signals == signals && outgoing == [] && troubles == {}
      ensures !pending
    {
      this.incoming := incoming;
      this.signals := signals;
      outgoing, troubles, pending := [], {}, false;
    }

    method Recv(limit: nat) returns (r: RecvResult)
      requires limit > 0
      modifies this`incoming, this`signals, this`troubles, this`pending
      ensures !pending
      ensures troubles == old(troubles) + RecvTrouble(r)
      ensures r.Bytes? ==> 0 < |r.data| <= limit && old(incoming) == r.data + incoming
      ensures r.EndOfStream? ==> old(incoming) == []
      ensures !r.Bytes? ==> incoming == old(incoming)
      ensures signals <= old(signals) && (r.RecvInterrupted? ==> signals < old(signals))
    {
      var interrupted: bool := *;
      if signals > 0 && interrupted {
        signals := signals - 1;
        r := RecvInterrupted;
      } else if * {
        r := RecvError;
      } else if incoming == [] {
        r := EndOfStream;
      } else {
        var n: nat :| 0 < n <= limit && n <= |incoming|;
        r := Bytes(incoming[..n]);
        incoming := incoming[n..];
      }
      troubles, pending := troubles + RecvTrouble(r), false;
    }

    method Send(data: seq<byte>) returns (r: SendResult)
      requires data != []
      modifies this`outgoing, this`signals, this`troubles
      ensures troubles == old(troubles) + SendTrouble(r)
      ensures r.Sent? ==> r.count <= |data| && outgoing == old(outgoing) + data[..r.count]
      ensures !r.Sent? ==> outgoing == old(outgoing)
      ensures signals <= old(signals) && (r.SendInterrupted? ==> signals < old(signals))
    {
      var interrupted: bool := *;
      if signals > 0 && interrupted {
        signals := signals - 1;
        r := SendInterrupted;
      } else if * {
        r := SendError;
      } else {
        var n: nat :| n <= |data|;
        outgoing := outgoing + data[..n];
        r := Sent(n);
      }
      troubles := troubles + SendTrouble(r);
    }
  }

  datatype Reading<+T> = Complete(value: T) | Disconnected | BadFrame(error: Error) | ReadFailed

  function ReadTrouble<T>(r: Reading<T>): set<Trouble> {
    if r.Disconnected? then {EndReached} else if r.ReadFailed? then {ReadError} else {}
  }

  method RecvExact(c: Stream, size: nat) returns (r: Reading<seq<byte>>)
    modifies c`incoming, c`signals, c`troubles, c`pending
    ensures c.troubles == old(c.troubles) + ReadTrouble(r)
    ensures (size > 0 ==> !c.pending) && (c.pending ==> old(c.pending))
    ensures r.Complete? ==> |r.value| == size && old(c.incoming) == r.value + c.incoming
    ensures r.Disconnected? ==> |old(c.incoming)| < size
    ensures !r.BadFrame?
  {
    var buffer: seq<byte> := [];
    while |buffer| < size
      invariant |buffer| <= size && old(c.incoming) == buffer + c.incoming
      invariant c.troubles == old(c.troubles)
      invariant if buffer == [] then c.pending ==> old(c.pending) else !c.pending
      decreases size - |buffer|, c.signals
    {
      var received := c.Recv(size - |buffer|);
      match received {
        case RecvInterrupted => continue;
        case RecvError => return ReadFailed;
        case EndOfStream => return Disconnected;
        case Bytes(data) => buffer := buffer + data;
      }
    }
    r := Complete(buffer);
  }

  /* Reading one packet takes exactly the next frame off the stream, however the bytes arrive. */
  method ReceivePacket(c: Stream) returns (r: Reading<Packet>)
    modifies c`incoming, c`signals, c`troubles, c`pending
    ensures c.troubles == old(c.troubles) + ReadTrouble(r)
    ensures !c.pending
    ensures var n := NextFrame(old(c.incoming));
      && (r.Complete? ==> n.Got? && n.packet == r.value && c.incoming == old(c.incoming)[n.size..])
      && (r.Disconnected? ==> n == Incomplete)
      && (r.BadFrame? ==> n == Bad(r.error))
  {
    hide Decode, PayloadLength;
    var header := RecvExact(c, HEADER_SIZE);
    if !header.Complete? {
      return if header.Disconnected? then Disconnected else ReadFailed;
    }
    assert old(c.incoming)[..16] == header.value;
    var length := PayloadLength(header.value);
    if length.Err? {
      return BadFrame(length.error);
    }
    label payload:
    var payload := RecvExact(c, length.value);
    if !payload.Complete? {
      return if payload.Disconnected? then Disconnected else ReadFailed;
    }
    assert old(c.incoming)[16..16 + length.value] == payload.value;
    var packet := Decode(header.value, payload.value);
    if packet.Err? {
      return BadFrame(packet.error);
    }
    r := Complete(packet.value);
  }

  function WriteTrouble(ok: bool): set<Trouble> {
    if ok then {} else {WriteError}
  }

  /* Everything is sent, or a proper prefix of it. */
  method SendAll(c: Stream, data: seq<byte>) returns (ok: bool, sent: nat)
    modifies c`outgoing, c`signals, c`troubles
    ensures c.troubles == old(c.troubles) + WriteTrouble(ok)
    ensures sent <= |data| && c.outgoing == old(c.outgoing) + data[..sent]
    ensures ok <==> sent == |data|
  {
    sent := 0;
    while sent < |data|
      invariant sent <= |data| && c.outgoing == old(c.outgoing) + data[..sent] && c.troubles == old(c.troubles)
      decreases |data| - sent, c.signals
    {
      var result := c.Send(data[sent..]);
      match result {
        case SendInterrupted => continue;
        case SendError => return false, sent;
        case Sent(n) =>
          if n == 0 {
            return false, sent;
          }
          assert data[..sent + n] == data[..sent] + data[sent..][..n];
          sent := sent + n;
      }
    }
    ok := true;
  }

  method SendPacket(c: Stream, p: Packet) returns (ok: bool)
    requires Encodable(p)
    modifies c`outgoing, c`signals, c`troubles
    ensures c.troubles == old(c.troubles) + WriteTrouble(ok)
    ensures ok ==> c.outgoing == old(c.outgoing) + Frame(p)
    ensures !ok ==> old(c.outgoing) <= c.outgoing && c.outgoing < old(c.outgoing) + Frame(p)
  {
    hide Frame;
    var encoded := EncodePacket(p);
    var sent;
    ok, sent := SendAll(c, encoded.value);
    assert encoded.value[..|encoded.value|] == encoded.value;
  }
}
