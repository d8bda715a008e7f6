/**
 The TCP receiver: one connection after another, each a byte stream that may
 be delivered in any pieces and cut at any byte.
 */
module TcpReceiver {
  import opened Words
  import opened Codec
  import opened Framing
  import opened Streams
  import opened Deliveries
  import opened Options

  datatype Fault = Undecodable(error: Error) | UnexpectedType | ReceiveFailed | SendFailed

  /* The answer to a packet, if its type is one the receiver knows. */
  function Reply(p: Packet): (r: Option<Packet>)
    ensures r.Some? ==> Encodable(r.value)
    ensures r.Some? <==> p.kind in {DATA, HEARTBEAT}
  {
    if p.kind == DATA then Some(Packet(ACK, p.sequence, []))
    else if p.kind == HEARTBEAT then Some(Packet(HEARTBEAT_ACK, p.sequence, []))
    else None
  }

  /* A reply on the wire: 16 bytes with the sequence number of the packet it answers, of type 2 to type 1 and of type 4
     to type 3; there is none to any other type. */
  lemma ReplyBytes(p: Packet)
    requires Encodable(p)
    ensures Reply(p).Some? <==> Frame(p)[3] in {1, 3}
    ensures Reply(p).Some? ==>
              var f, g := Frame(p), Frame(Reply(p).value);
              |g| == 16 && g[3] == (if f[3] == 1 then 2 else 4) && g[4..8] == f[4..8]
  {
    hide Frame, SplitWord, ToWord;
    TypeAndNumber(p);
    if Reply(p).Some? {
      TypeAndNumber(Reply(p).value);
    }
  }

  lemma TypeAndNumber(p: Packet)
    requires Encodable(p)
    ensures Frame(p)[3] == p.kind && Frame(p)[4..8] == SplitWord(ToWord(p.sequence))
  {
    hide Frame, SplitWord, ToWord;
    HeaderSlices(p);
    assert Frame(p)[3] == Header(p)[3] && Frame(p)[4..8] == Header(p)[4..8];
  }

  function Note(log: seq<Item>, p: Packet): seq<Item> {
    if p.kind == DATA then Record(log, p) else log
  }

  predicate Answerable(ps: seq<Packet>) {
    forall i :: 0 <= i < |ps| ==> Reply(ps[i]).Some?
  }

  function Replies(ps: seq<Packet>): (rs: seq<Packet>)
    requires Answerable(ps)
    ensures |rs| == |ps| && AllEncodable(rs)
  {
    seq(|ps|, i requires 0 <= i < |ps| => Reply(ps[i]).value)
  }

  /* The log after packets ps, starting from an empty one. */
  function LogAfter(ps: seq<Packet>): seq<Item> {
    FirstOfEach(DataItems(ps))
  }

  lemma LogAfterAppend(ps: seq<Packet>, p: Packet)
    ensures LogAfter(ps + [p]) == Note(LogAfter(ps), p)
  {
    DataItemsAppend(ps, p);
    if p.kind == DATA {
      RecordFirst(DataItems(ps), p);
    }
  }

  /* Why the receiver left a connection. */
  datatype Stop = PeerClosed | Broken(fault: Fault)

  /* What the operating system must have reported before the receiver leaves a connection. */
  function StopTrouble(stop: Stop): set<Trouble> {
    match stop
    case PeerClosed => {EndReached}
    case Broken(f) => if f == ReceiveFailed then {ReadError} else if f == SendFailed then {WriteError} else {}
  }

  /* Handling just the packets seen and then stopping is what the whole input calls for. */
  ghost predicate Explains(stop: Stop, input: seq<byte>, seen: seq<Packet>)
    ensures Explains(stop, input, seen) ==> Answerable(seen)
  {
    var r := Parse(input);
    && seen <= r.packets && Answerable(seen)
    && (stop == PeerClosed ==> seen == r.packets && r.end.EndOfFile?)
    && (stop.Broken? && stop.fault.Undecodable? ==> seen == r.packets && r.end == Refused(stop.fault.error))
    && (stop == Broken(UnexpectedType) ==> |seen| < |r.packets| && Reply(r.packets[|seen|]) == None)
  }

  /* What was written while packets seen were handled: their replies, only the last cut short if its write failed. */
  ghost predicate Wrote(stop: Stop, before: seq<byte>, after: seq<byte>, seen: seq<Packet>)
    requires Answerable(seen)
  {
    var all := before + Frames(Replies(seen));
    if stop == Broken(SendFailed)
    then seen != [] && before + Frames(Replies(seen)[..|seen| - 1]) <= after && after < all
    else after == all
  }

  class Receiver {
    var processed: set<u32>
    ghost var log: seq<Item>
    ghost var history: seq<Packet>     // every packet handled, on all connections

    ghost predicate Valid()
      reads this
    {
      processed == Sequences(log) && log == LogAfter(history)
    }

    constructor ()
      ensures Valid() && history == []
    {
      processed := {};
      log := [];
      history := [];
    }

    method Handle(p: Packet)
      requires Valid() && Reply(p).Some?
      modifies this
      ensures Valid() && history == old(history) + [p]
    {
      hide FirstOfEach, DataItems, LogAfter;
      LogAfterAppend(history, p);
      if p.kind == DATA {
        var duplicate := p.sequence in processed;
        if !duplicate {
          SequencesAppend(log, Item(p.sequence, p.payload));
          log := log + [Item(p.sequence, p.payload)];
          processed := processed + {p.sequence};
        }
      }
      history := history + [p];
    }

    /* One turn of the inner loop: a packet is read, noted and answered, or the connection is left. */
    method ServePacket(c: Stream) returns (stop: Option<Stop>, ghost seen: seq<Packet>)
      requires Valid()
      modifies this, c
      ensures Valid() && history == old(history) + seen
      ensures var n := NextFrame(old(c.incoming));
        && (seen != [] ==> n.Got? && seen == [n.packet] && Reply(n.packet).Some?)
        && (stop.None? ==> seen != [] && c.incoming == old(c.incoming)[n.size..])
        && (stop == Some(PeerClosed) ==> n == Incomplete)
        && (stop.Some? && stop.value.Broken? && stop.value.fault.Undecodable? ==> n == Bad(stop.value.fault.error))
        && (stop == Some(Broken(UnexpectedType)) ==> n.Got? && Reply(n.packet) == None)
        && (stop.Some? ==> (seen != [] <==> stop == Some(Broken(SendFailed))))
      ensures c.troubles == old(c.troubles) + if stop.Some? then StopTrouble(stop.value) else {}
      ensures Answerable(seen)
      ensures var all := old(c.outgoing) + Frames(Replies(seen));
        if stop == Some(Broken(SendFailed)) then old(c.outgoing) <= c.outgoing && c.outgoing < all
        else c.outgoing == all
      ensures |seen| <= 1
    {
      hide NextFrame, Frame, Frames, LogAfter, Sequences, Reply;
      seen := [];
      NoFrames(Replies([]));
      var received := ReceivePacket(c);
      match received {
        case Disconnected => return Some(PeerClosed), seen;
        case BadFrame(e) => return Some(Broken(Undecodable(e))), seen;
        case ReadFailed => return Some(Broken(ReceiveFailed)), seen;
        case Complete(p) =>
          var reply := Reply(p);
          if reply.None? {
            return Some(Broken(UnexpectedType)), seen;
          }
          Handle(p);
          seen := [p];
          assert Replies(seen) == [reply.value];
          FramesOfOne(reply.value);
          var ok := SendPacket(c, reply.value);
          stop := if ok then None else Some(Broken(SendFailed));
      }
    }

    /* One connection to its end. What is handled is its first complete frames, one by one; the replies are
       theirs, in order, the last possibly cut short by a failing send. */
    method ServeConnection(c: Stream) returns (stop: Stop, ghost seen: seq<Packet>)
      requires Valid()
      modifies this, c
      ensures Valid() && history == old(history) + seen
      ensures Explains(stop, old(c.incoming), seen) && Wrote(stop, old(c.outgoing), c.outgoing, seen)
      ensures c.troubles == old(c.troubles) + StopTrouble(stop)
    {
      hide Parse, NextFrame, Frame, Frames, Reply, LogAfter, Sequences;
      seen := [];
      assert Frames(Replies([])) == [] by {
        NoFrames(Replies([]));
      }
      while true
        invariant Valid() && Answerable(seen)
        invariant history == old(history) + seen
        invariant Parse(old(c.incoming)) == Parsed(seen + Parse(c.incoming).packets, Parse(c.incoming).end)
        invariant c.outgoing == old(c.outgoing) + Frames(Replies(seen)) && c.troubles == old(c.troubles)
        decreases |Parse(c.incoming).packets|
      {
        ParseStep(c.incoming);
        var result, next := ServePacket(c);
        assert Replies(seen + next) == Replies(seen) + Replies(next);
        FramesConcat(Replies(seen), Replies(next));
        assert next != [] ==> Replies(seen + next)[..|seen + next| - 1] == Replies(seen);
        seen := seen + next;
        if result.Some? {
          return result.value, seen;
        }
      }
    }

    /* The accept loop over a list of connections. Every connection before the last one served is handled and
       answered to its end; a fault ends the program on the last one, where ServeConnection says how far it got; the
       later ones are never touched. */
    method Run(conns: seq<Stream>) returns (fault: Option<Fault>, ghost last: nat, ghost seen: seq<Packet>)
      requires Valid()
      requires forall i, j :: 0 <= i < j < |conns| ==> conns[i] != conns[j]
      modifies this, conns
      ensures Valid() && last <= |conns|
      ensures forall i :: 0 <= i < last ==>
                && AllAnswered(old(conns[i].incoming), old(conns[i].outgoing), conns[i].outgoing)
                && conns[i].troubles == old(conns[i].troubles) + {EndReached}
      ensures forall i :: last < i < |conns| ==> unchanged(conns[i])
      ensures fault.None? ==> last == |conns| && history == old(history) + old(PacketsOf(Inputs(conns)))
      ensures fault.Some? ==>
                && last < |conns| && history == old(history) + PacketsOf(old(Inputs(conns))[..last]) + seen
                && Explains(Broken(fault.value), old(conns[last].incoming), seen)
                && Wrote(Broken(fault.value), old(conns[last].outgoing), conns[last].outgoing, seen)
                && conns[last].troubles == old(conns[last].troubles) + StopTrouble(Broken(fault.value))
    {
      hide Parse, LogAfter, Sequences, Explains, PacketsOf, Inputs, Frames, Replies, AllAnswered, Wrote;
      ghost var inputs := Inputs(conns);
      NoPackets(inputs[..0]);
      seen := [];
      for i := 0 to |conns|
        invariant Valid() && history == old(history) + PacketsOf(inputs[..i])
        invariant forall j :: i <= j < |conns| ==> unchanged(conns[j])
        invariant forall j :: 0 <= j < i ==>
                    && AllAnswered(old(conns[j].incoming), old(conns[j].outgoing), conns[j].outgoing)
                    && conns[j].troubles == old(conns[j].troubles) + {EndReached}
      {
        var stop;
        stop, seen := ServeConnection(conns[i]);
        if stop.Broken? {
          return Some(stop.fault), i, seen;
        }
        PacketsOfPrefix(inputs, i);
        AnsweredWhenClosed(inputs[i], seen, old(conns[i].outgoing), conns[i].outgoing);
      }
      assert inputs[..|conns|] == inputs;
      fault, last := None, |conns|;
    }
  }

  /* input ended between two frames or inside one, without a bad frame, and all its packets were answered, in order. */
  ghost predicate AllAnswered(input: seq<byte>, before: seq<byte>, after: seq<byte>) {
    && Parse(input).end.EndOfFile? && Answerable(Parse(input).packets)
    && after == before + Frames(Replies(Parse(input).packets))
  }

  lemma AnsweredWhenClosed(input: seq<byte>, seen: seq<Packet>, before: seq<byte>, after: seq<byte>)
    requires Explains(PeerClosed, input, seen) && Wrote(PeerClosed, before, after, seen)
    ensures AllAnswered(input, before, after) && seen == Parse(input).packets
  {
  }

  function Inputs(conns: seq<Stream>): (inputs: seq<seq<byte>>)
    reads conns
    ensures |inputs| == |conns| && forall i :: 0 <= i < |conns| ==> inputs[i] == conns[i].incoming
  {
    if conns == [] then [] else Inputs(conns[..|conns| - 1]) + [conns[|conns| - 1].incoming]
  }

  /* The packets in the complete frames of a list of connections. */
  function PacketsOf(inputs: seq<seq<byte>>): seq<Packet>
    decreases |inputs|
  {
    if inputs == [] then [] else PacketsOf(inputs[..|inputs| - 1]) + Parse(inputs[|inputs| - 1]).packets
  }

  lemma NoPackets(inputs: seq<seq<byte>>)
    requires inputs == []
    ensures PacketsOf(inputs) == []
  {
  }

  lemma PacketsOfPrefix(inputs: seq<seq<byte>>, n: nat)
    requires n < |inputs|
    ensures PacketsOf(inputs[..n + 1]) == PacketsOf(inputs[..n]) + Parse(inputs[n]).packets
  {
    assert inputs[..n + 1][..n] == inputs[..n];
  }

  // ----- what the replies mean -----

  /* However packets arrive, each sequence number is processed once, with the payload that came first, and
     every acknowledgement is for a processed number. */
  lemma {:induction false} AcknowledgedIsProcessed(ps: seq<Packet>)
    requires Answerable(ps)
    ensures Distinct(LogAfter(ps))
    ensures forall i :: 0 <= i < |LogAfter(ps)| ==> IsFirst(DataItems(ps), LogAfter(ps)[i])
    ensures forall i :: 0 <= i < |ps| && Replies(ps)[i].kind == ACK ==>
              Replies(ps)[i].sequence in Sequences(LogAfter(ps))
    decreases |ps|
  {
    hide FirstOfEach;
    FirstOfEachMeaning(DataItems(ps));
    if ps != [] {
      var before, last := ps[..|ps| - 1], ps[|ps| - 1];
      AcknowledgedIsProcessed(before);
      FirstOfEachMeaning(DataItems(before));
      assert ps == before + [last];
      DataItemsAppend(before, last);
      if last.kind == DATA {
        SequencesAppend(DataItems(before), Item(last.sequence, last.payload));
      }
      forall i | 0 <= i < |ps| && Replies(ps)[i].kind == ACK
        ensures Replies(ps)[i].sequence in Sequences(DataItems(ps))
      {
        if i < |before| {
          assert Replies(before)[i] == Replies(ps)[i];
        }
      }
    }
  }

  /* A frame cut off by the end of its connection, at any byte, leaves no trace, and the same packet sent
     whole on a later connection is handled as if for the first time. */
  lemma CutFrameLeavesNoTrace(inputs: seq<seq<byte>>, ps: seq<Packet>, q: Packet, k: nat)
    requires AllEncodable(ps) && Encodable(q) && k < |Frame(q)|
    ensures var cut := Frames(ps) + Frame(q)[..k];
      && PacketsOf(inputs + [cut]) == PacketsOf(inputs + [Frames(ps)]) == PacketsOf(inputs) + ps
      && LogAfter(PacketsOf(inputs + [cut, Frame(q)])) == Note(LogAfter(PacketsOf(inputs) + ps), q)
  {
    hide Parse, Frame, Frames, NextFrame, LogAfter;
    var cut := Frames(ps) + Frame(q)[..k];
    NextOfCutFrame(q, k);
    ParseOfFrames(ps, Frame(q)[..k]);
    NothingLeft();
    ParseOfFrames(ps, []);
    assert Frames(ps) + [] == Frames(ps);
    PacketsOfAppend(inputs, cut);
    PacketsOfAppend(inputs, Frames(ps));
    ParseOfFrames([q], []);
    FramesOfOne(q);
    assert Frame(q) + [] == Frame(q);
    PacketsOfAppend(inputs + [cut], Frame(q));
    assert inputs + [cut, Frame(q)] == (inputs + [cut]) + [Frame(q)];
    LogAfterAppend(PacketsOf(inputs) + ps, q);
  }

  lemma PacketsOfAppend(inputs: seq<seq<byte>>, input: seq<byte>)
    ensures PacketsOf(inputs + [input]) == PacketsOf(inputs) + Parse(input).packets
  {
    assert (inputs + [input])[..|inputs|] == inputs;
  }
}
