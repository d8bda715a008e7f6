/**
 The loops of the three TCP programs together: whatever the sender's loop hears
 has come from the receiver's loop by way of the proxy's, and so it is never a
 response that the sender has to reject.
 */
module TcpExecutions {
  import opened Words
  import opened Codec
  import opened Framing
  import opened BitErrors
  import opened Options
  import opened TcpMoves
  import Proxy = TcpProxy
  import Receiver = TcpReceiver

  // ----- one connection -----

  /* One connection so far: the sender has written sent; the proxy has relayed x of it and of the replies to seen, the
     packets that the receiver has handled; the sender has read no more than what the proxy wrote to it. */
  ghost predicate Linked(mode: Proxy.FaultMode, sent: seq<byte>, x: Proxy.Passage, seen: seq<Packet>, read: seq<byte>) {
    && Proxy.Follows(mode, x) && Receiver.Answerable(seen)
    && Proxy.Conveys(x, sent, x.toReceiver, Frames(Receiver.Replies(seen)), x.toSender)
    && seen <= Parse(x.toReceiver).packets && read <= x.toSender
  }

  lemma ParseOfAll(ps: seq<Packet>)
    requires AllEncodable(ps)
    ensures Parse(Frames(ps)) == Parsed(ps, EndOfFile([]))
  {
    hide Parse, Frames, NextFrame;
    NothingLeft();
    ParseOfFrames(ps, []);
    assert Frames(ps) + [] == Frames(ps);
  }

  /* A stream that begins with frames begins with their packets. */
  lemma PacketsFirst(ps: seq<Packet>, bytes: seq<byte>)
    requires AllEncodable(ps) && Frames(ps) <= bytes
    ensures ps <= Parse(bytes).packets
  {
    hide Parse, Frames, NextFrame;
    ParseOfAll(ps);
    ParseOfPrefix(Frames(ps), bytes[|Frames(ps)|..]);
    assert Frames(ps) + bytes[|Frames(ps)|..] == bytes;
  }

  lemma FewerPackets(bytes: seq<byte>, more: seq<byte>)
    requires bytes <= more
    ensures Parse(bytes).packets <= Parse(more).packets
    ensures Parse(bytes).end.Refused? ==> Parse(more).end.Refused?
  {
    hide Parse;
    ParseOfPrefix(bytes, more[|bytes|..]);
    assert bytes + more[|bytes|..] == more;
  }

  /* Of what the proxy writes upwards, the receiver reads only packets that the proxy has read. */
  lemma UpReads(mode: Proxy.FaultMode, applied: bool, ps: seq<Packet>)
    requires AllEncodable(ps)
    ensures Parse(Proxy.Up(mode, applied, ps).wire).packets <= ps
  {
    hide Parse, Frame, Frames, Damaged, Proxy.Up, NextFrame;
    var i, h := Proxy.First(ps, DATA), Proxy.First(ps, HEARTBEAT);
    if mode == Proxy.CorruptData && !applied && i < |ps| {
      Proxy.CorruptedUp(ps);
      if ps[i].payload == [] {
        ParseOfAll(ps[..i]);
      } else {
        Proxy.DamageIsRefused(ps[..i], ps[i], Frames(ps[i + 1..]));
      }
    } else if mode == Proxy.Disconnect && !applied && h < |ps| {
      Proxy.DisconnectedUp(ps);
      ParseOfAll(ps[..h]);
    } else {
      Proxy.UpUnchanged(mode, applied, ps);
      ParseOfAll(ps);
    }
  }

  /* What the proxy writes downwards are frames that it has read. */
  lemma DownWrites(mode: Proxy.FaultMode, applied: bool, ps: seq<Packet>) returns (kept: seq<Packet>)
    requires AllEncodable(ps)
    ensures AllEncodable(kept) && Proxy.Down(mode, applied, ps).wire == Frames(kept)
    ensures forall p :: p in kept ==> p in ps
  {
    hide Frame, Frames, Proxy.Down;
    var i := Proxy.First(ps, ACK);
    if (mode == Proxy.DropAck || mode == Proxy.DelayAck) && !applied && i < |ps| {
      Proxy.FaultyDown(mode, ps);
      kept := if mode == Proxy.DropAck then Proxy.Without(ps, i) else ps;
    } else {
      Proxy.DownUnchanged(mode, applied, ps);
      kept := ps;
    }
  }

  /* Everything the sender can read is the reply to a packet that it sent on the same connection and that the receiver
     has handled, and none of it is refused. */
  lemma ReadsReplies(mode: Proxy.FaultMode, sent: seq<byte>, x: Proxy.Passage, seen: seq<Packet>, read: seq<byte>)
    requires Linked(mode, sent, x, seen, read)
    ensures Parse(read).end.EndOfFile?
    ensures forall r :: r in Parse(read).packets ==>
              exists q :: q in Parse(sent).packets && q in seen && Receiver.Reply(q) == Some(r)
  {
    hide Parse, Frame, Frames, NextFrame, Proxy.Up, Proxy.Down, Receiver.Reply;
    UpReads(mode, x.before, x.up);
    FewerPackets(x.toReceiver, Proxy.Up(mode, x.before, x.up).wire);
    PacketsFirst(x.up, sent);
    var kept := DownWrites(mode, x.before, x.down);
    ParseOfAll(kept);
    FewerPackets(read, Frames(kept));
    var replies := Receiver.Replies(seen);
    ParseOfAll(replies);
    PacketsFirst(x.down, Frames(replies));
    forall r | r in Parse(read).packets
      ensures exists q :: q in Parse(sent).packets && q in seen && Receiver.Reply(q) == Some(r)
    {
      assert r in kept && r in x.down && r in replies;
      var k :| 0 <= k < |replies| && replies[k] == r;
      assert seen[k] in Parse(x.toReceiver).packets && seen[k] in x.up && seen[k] in Parse(sent).packets;
    }
  }

  // ----- the sender's loop -----

  /* What has gone over the connection in use. */
  function Newest(plan: Plan, moves: seq<Move>): Traffic
    requires Play(plan, moves).Some?
  {
    var ts := Traffics(plan, moves);
    if ts == [] then Traffic([], [], {}) else ts[|ts| - 1]
  }

  /* A packet that the sender has transmitted by the time it stands at v. */
  predicate Transmitted(plan: Plan, v: View, q: Packet) {
    && q.sequence <= plan.heartbeats + 1 && Encodable(q)
    && 1 <= q.sequence && q == Outgoing(plan, q.sequence)
    && (q.sequence < v.position || (q.sequence == v.position && v.attempts > 0))
  }

  ghost predicate OnlyTransmitted(plan: Plan, v: View, bytes: seq<byte>) {
    forall q :: q in Parse(bytes).packets ==> Transmitted(plan, v, q)
  }

  /* The packets in the newest connection's traffic are the sender's own. */
  lemma {:induction false} SentAreTransmitted(plan: Plan, moves: seq<Move>)
    requires Play(plan, moves).Some?
    ensures OnlyTransmitted(plan, Play(plan, moves).value, Newest(plan, moves).sent)
    decreases |moves|
  {
    hide Enabled, After, Extended, OnlyTransmitted;
    NothingSent(plan, Play(plan, moves).value);
    if moves != [] {
      var before, m := moves[..|moves| - 1], moves[|moves| - 1];
      SentAreTransmitted(plan, before);
      GoesOnAtBoundary(plan, before);
      PlayBounded(plan, before);
      TransmittedNext(plan, Play(plan, before).value, m, Traffics(plan, before));
    }
  }

  lemma NothingSent(plan: Plan, v: View)
    ensures OnlyTransmitted(plan, v, [])
  {
    ParseOfAll([]);
  }

  lemma TransmittedNext(plan: Plan, v: View, m: Move, ts: seq<Traffic>)
    requires Enabled(plan, v, m) && Bounded(plan, v) && AtBoundary(v, ts)
    requires ts != [] ==> OnlyTransmitted(plan, v, ts[|ts| - 1].sent)
    ensures ts != [] ==> OnlyTransmitted(plan, After(plan, v, m), Extended(plan, v, ts[|ts| - 1], m).sent)
  {
    hide Frame, Parse, NextFrame, Judge, Collected, Outgoing, Whole;
    if ts != [] {
      var t := ts[|ts| - 1];
      if m.Send? {
        ParseAppend(t.sent, Outgoing(plan, v.position));
        OutgoingNumber(plan, v.position);
      } else if m.CutSend? {
        ParseAppendCut(t.sent, Outgoing(plan, v.position), |m.written|);
        assert Frame(Outgoing(plan, v.position))[..|m.written|] == m.written;
      }
    }
  }

  lemma OutgoingNumber(plan: Plan, n: nat)
    requires 1 <= n <= plan.heartbeats + 1
    ensures Outgoing(plan, n).sequence == n
  {
  }

  /* Everything the sender's loop has read by move i has reached it over connections as above: x[i] is what the proxy
     has relayed by then on the connection in use, and seen[i] what the receiver has handled of it. */
  ghost predicate Surrounded(mode: Proxy.FaultMode, plan: Plan, moves: seq<Move>, x: seq<Proxy.Passage>,
                             seen: seq<seq<Packet>>)
    requires Play(plan, moves).Some?
  {
    && |x| == |seen| == |moves|
    && forall i :: 0 <= i < |moves| ==> Meets(mode, plan, moves, i, x[i], seen[i])
  }

  ghost predicate Meets(mode: Proxy.FaultMode, plan: Plan, moves: seq<Move>, i: nat, x: Proxy.Passage,
                        seen: seq<Packet>)
    requires i < |moves|
  {
    && Play(plan, moves[..i]).Some? && Play(plan, moves[..i + 1]).Some?
    && (moves[i].Hear? || moves[i].Break? ==>
          Linked(mode, Newest(plan, moves[..i]).sent, x, seen, Newest(plan, moves[..i + 1]).read))
  }

  lemma HearReads(plan: Plan, moves: seq<Move>)
    requires moves != [] && Play(plan, moves).Some? && moves[|moves| - 1].Hear?
    ensures var (before, r) := (moves[..|moves| - 1], moves[|moves| - 1].packet);
      && Play(plan, before).Some? && Awaiting(plan, Play(plan, before).value) && Encodable(r)
      && Whole(Newest(plan, before).read) && Newest(plan, moves).read == Newest(plan, before).read + Frame(r)
  {
    hide Frame, Whole, Enabled, After, Extended, Awaiting;
    var (before, r) := (moves[..|moves| - 1], moves[|moves| - 1].packet);
    GoesOnAtBoundary(plan, before);
    HearPossible(plan, Play(plan, before).value, r, Newest(plan, before));
  }

  lemma HearPossible(plan: Plan, v: View, r: Packet, t: Traffic)
    requires Enabled(plan, v, Hear(r))
    ensures Awaiting(plan, v) && v.fault == None && !v.lost && Encodable(r)
    ensures Extended(plan, v, t, Hear(r)).read == t.read + Frame(r)
  {
    hide Frame;
  }

  /* What is heard is the reply to a packet transmitted before, and handled by the receiver. */
  lemma HeardIsReply(mode: Proxy.FaultMode, plan: Plan, moves: seq<Move>, i: nat, x: Proxy.Passage, seen: seq<Packet>)
    returns (q: Packet)
    requires i < |moves| && Meets(mode, plan, moves, i, x, seen) && moves[i].Hear?
    ensures q in seen && Receiver.Reply(q) == Some(moves[i].packet)
    ensures Transmitted(plan, Play(plan, moves[..i]).value, q)
  {
    hide Frame, Parse, Linked, Transmitted, Play, Newest, Whole, Receiver.Reply;
    var before, r := moves[..i], moves[i].packet;
    SentAreTransmitted(plan, before);
    GoesOnAtBoundary(plan, before);
    HearReads(plan, moves[..i + 1]);
    assert moves[..i + 1][..i] == before;
    ReadsReplies(mode, Newest(plan, before).sent, x, seen, Newest(plan, moves[..i + 1]).read);
    ParseAppend(Newest(plan, before).read, r);
    assert r in Parse(Newest(plan, moves[..i + 1]).read).packets;
    q :| q in Parse(Newest(plan, before).sent).packets && q in seen && Receiver.Reply(q) == Some(r);
  }

  lemma ReplyIsStaleOrAwaited(plan: Plan, v: View, q: Packet, r: Packet)
    requires Awaiting(plan, v) && Bounded(plan, v) && Transmitted(plan, v, q) && Receiver.Reply(q) == Some(r)
    ensures !Judge(ExpectedKind(v.position), v.position, v.completed, r).Reject?
    ensures q.sequence == v.position <==> r == Packet(ExpectedKind(v.position), v.position, [])
  {
    hide HeartbeatResponses;
    if v.position > 1 {
      HeartbeatResponsesMeaning(v.position - 2, r.kind, r.sequence);
    }
  }

  /* The sender's loop, on connections through the proxy's loop to the receiver's, in any fault mode, never meets a
     response that it has to reject or cannot decode. */
  lemma {:induction false} LoopsNeverReject(mode: Proxy.FaultMode, plan: Plan, moves: seq<Move>,
                                            x: seq<Proxy.Passage>, seen: seq<seq<Packet>>)
    requires Play(plan, moves).Some? && Surrounded(mode, plan, moves, x, seen)
    ensures var f := Play(plan, moves).value.fault;
      f !in {Some(InvalidResponse), Some(UnexpectedResponse)} && (f.Some? ==> !f.value.Undecodable?)
    decreases |moves|
  {
    hide Meets, Enabled, After;
    if moves != [] {
      var n := |moves| - 1;
      var before, m := moves[..n], moves[n];
      SurroundedBefore(mode, plan, moves, x, seen);
      LoopsNeverReject(mode, plan, before, x[..n], seen[..n]);
      PlayBounded(plan, before);
      if m.Hear? {
        var q := HeardIsReply(mode, plan, moves, n, x[n], seen[n]);
        HearReads(plan, moves);
        ReplyIsStaleOrAwaited(plan, Play(plan, before).value, q, m.packet);
      } else if m.Break? {
        BreakIsIncomplete(mode, plan, moves, x[n], seen[n]);
      }
      NoReason(plan, Play(plan, before).value, m);
    }
  }

  /* When the sender gets past an exchange, the receiver has handled its request, on the same connection. */
  lemma PassedIsHandled(mode: Proxy.FaultMode, plan: Plan, moves: seq<Move>, x: seq<Proxy.Passage>,
                        seen: seq<seq<Packet>>)
    requires moves != [] && Play(plan, moves).Some? && Surrounded(mode, plan, moves, x, seen)
    requires Play(plan, moves).value.position != Play(plan, moves[..|moves| - 1]).value.position
    ensures Outgoing(plan, Play(plan, moves[..|moves| - 1]).value.position) in seen[|moves| - 1]
  {
    hide Enabled, After;
    var n := |moves| - 1;
    PassedByResponse(plan, moves);
    PlayBounded(plan, moves[..n]);
    var q := HeardIsReply(mode, plan, moves, n, x[n], seen[n]);
    ReplyIsStaleOrAwaited(plan, Play(plan, moves[..n]).value, q, moves[n].packet);
  }

  lemma SurroundedBefore(mode: Proxy.FaultMode, plan: Plan, moves: seq<Move>, x: seq<Proxy.Passage>,
                         seen: seq<seq<Packet>>)
    requires moves != [] && Play(plan, moves).Some? && Surrounded(mode, plan, moves, x, seen)
    ensures var n := |moves| - 1;
      && Play(plan, moves[..n]).Some? && Surrounded(mode, plan, moves[..n], x[..n], seen[..n])
      && Meets(mode, plan, moves, n, x[n], seen[n])
  {
    hide Linked, Newest, Enabled, After;
    var n := |moves| - 1;
    forall i | 0 <= i < n
      ensures Meets(mode, plan, moves[..n], i, x[i], seen[i])
    {
      assert moves[..n][..i] == moves[..i] && moves[..n][..i + 1] == moves[..i + 1];
      assert Meets(mode, plan, moves, i, x[i], seen[i]);
    }
  }

  /* A wait never breaks on bytes that are no frame. */
  lemma BreakIsIncomplete(mode: Proxy.FaultMode, plan: Plan, moves: seq<Move>, x: Proxy.Passage, seen: seq<Packet>)
    requires moves != [] && Play(plan, moves).Some? && moves[|moves| - 1].Break?
    requires Meets(mode, plan, moves, |moves| - 1, x, seen)
    ensures !moves[|moves| - 1].cause.Undecodable?
  {
    hide Frame, Judge, NextFrame, Linked, Whole, Parse;
    var n := |moves| - 1;
    var before, m := moves[..n], moves[n];
    assert moves[..n + 1] == moves;
    ReadsReplies(mode, Newest(plan, before).sent, x, seen, Newest(plan, moves).read);
    GoesOnAtBoundary(plan, before);
    if m.cause.Undecodable? {
      BadAfterWhole(Newest(plan, before).read, m.partial);
    }
  }

  lemma BadAfterWhole(bytes: seq<byte>, more: seq<byte>)
    requires Whole(bytes) && NextFrame(more).Bad?
    ensures Parse(bytes + more).end.Refused?
  {
    hide Frame, NextFrame, Parse, Frames;
    WholeIsFrames(bytes);
    Proxy.ParseThrough(Parse(bytes).packets, more);
    ParseStep(more);
  }

  lemma NoReason(plan: Plan, v: View, m: Move)
    requires Enabled(plan, v, m)
    requires m.Hear? ==> !Judge(ExpectedKind(v.position), v.position, v.completed, m.packet).Reject?
    requires m.Break? ==> !m.cause.Undecodable?
    ensures var f := After(plan, v, m).fault;
      f !in {Some(InvalidResponse), Some(UnexpectedResponse)} && (f.Some? ==> !f.value.Undecodable?)
  {
    hide Frame, Judge, NextFrame;
  }
}
