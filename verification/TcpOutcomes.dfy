/**
 Which configurations of the TCP system can succeed: the sender can finish if
 and only if its payload can be encoded, the proxy does not corrupt, and a
 dropped acknowledgement can be made good by a retry.
 */
module TcpOutcomes {
  import opened Words
  import opened Codec
  import opened Framing
  import opened Options
  import opened BitErrors
  import opened TcpProtocol
  import Proxy = TcpProxy
  import Receiver = TcpReceiver
  import Sender = TcpMoves

  predicate Finished(c: Config, s: State) {
    s.sender.position == c.plan.heartbeats + 2
  }

  ghost predicate CanFinish(c: Config) {
    exists run :: IsRun(c, run) && Finished(c, run[|run| - 1])
  }

  // ----- corruption is fatal -----

  /* While the proxy corrupts, no packet ever gets through to the receiver. */
  ghost predicate Blocked(c: Config, s: State) {
    && s.sender.position == 1 && s.handled == [] && |s.connections| <= 1
    && (s.sender.lost ==> s.connections == []) && (s.connections == [] ==> !s.applied)
    && forall k :: 0 <= k < |s.connections| ==>
         var x := s.connections[k];
         && Queue(x.up2) == []
         && (s.applied ==> Parse(x.up2.bytes).end.Refused?)
         && (x.relaying && !s.applied ==> Sound(x.up2) && !x.up2.closed)
  }

  lemma FromFirstExchange(c: Config, s: State, p: Packet)
    requires Request(c, s, p) && s.sender.position == 1
    ensures p == Sender.DataPacket(c.plan.payload)
  {
  }

  lemma BlockedRelayUp(c: Config, s: State, s': State, k: nat, n: nat)
    requires c.mode == Proxy.CorruptData && Inv(c, s) && Blocked(c, s) && NextStep(c, s, s', RelayUp(k, n))
    ensures Blocked(c, s')
  {
    hide Parse, Whole, Frame, Damaged, NextFrame, Request, Answers, ReceiverInv, Sender.Bounded;
    var x, p := s.connections[k], NextFrame(s.connections[k].up1.bytes).packet;
    TakeFrame(x.up1);
    FromFirstExchange(c, s, p);
    var data := UpEffect(c, s, p).wire;
    if s.applied {
      WriteAfterRefusal(x.up2, data, n);
    } else if p.payload == [] {
      assert Written(x.up2, data, n) == x.up2;
    } else {
      assert data == Damaged(p);
      WriteDamaged(x.up2, p, n);
    }
  }

  lemma NothingAnswered(c: Config, s: State, x: Connection)
    requires ConnectionInv(c, s, x) && s.handled == []
    ensures Queue(x.down1) == [] && Queue(x.down2) == []
  {
    hide Parse;
    FirstIsMember(Queue(x.down1));
    FirstIsMember(Queue(x.down2));
  }

  lemma FirstIsMember(ps: seq<Packet>)
    ensures ps != [] ==> ps[0] in ps
  {
  }

  lemma NothingToRead(l: Link)
    requires Queue(l) == []
    ensures !NextFrame(l.bytes).Got?
    ensures Sound(l) ==> NextFrame(l.bytes).Incomplete?
  {
    hide NextFrame, Parse;
    ParseStep(l.bytes);
  }

  /* No move of the sender unblocks it: there is nothing for it to hear. */
  lemma BlockedMove(c: Config, s: State, s': State, m: Sender.Move)
    requires Blocked(c, s) && NextStep(c, s, s', Acts(m))
    requires forall k :: 0 <= k < |s.connections| ==> !NextFrame(s.connections[k].down2.bytes).Got?
    ensures Blocked(c, s')
  {
    hide Parse, Whole, Frame, NextFrame, Sound, Queue, Sender.Judge;
    NewLink();
  }

  lemma BlockedNext(c: Config, s: State, s': State)
    requires c.mode == Proxy.CorruptData && Inv(c, s) && Blocked(c, s) && TcpProtocol.Next(c, s, s')
    ensures Blocked(c, s')
  {
    hide Parse, Whole, Frame, NextFrame, Sound, Queue, Sender.Bounded, ConnectionInv, ReceiverInv, AfterMove;
    forall k | 0 <= k < |s.connections|
      ensures NextFrame(s.connections[k].down1.bytes).Incomplete? && NextFrame(s.connections[k].down2.bytes).Incomplete?
      ensures !NextFrame(s.connections[k].up2.bytes).Got?
    {
      var x := s.connections[k];
      NothingAnswered(c, s, x);
      ConnectionSound(c, s, x);
      NothingToRead(x.down1);
      NothingToRead(x.down2);
      NothingToRead(x.up2);
    }
    var step :| NextStep(c, s, s', step);
    match step
    case Acts(m) => BlockedMove(c, s, s', m);
    case RelayUp(k, n) => BlockedRelayUp(c, s, s', k, n);
    case _ =>
  }

  lemma ConnectionSound(c: Config, s: State, x: Connection)
    requires ConnectionInv(c, s, x)
    ensures Sound(x.up1) && Sound(x.down1) && Sound(x.down2)
  {
  }

  /* With the proxy corrupting, nothing is ever processed and the sender never gets past its DATA packet. */
  lemma {:induction false} CorruptionIsFatal(c: Config, run: seq<State>, i: nat)
    requires c.mode == Proxy.CorruptData && IsRun(c, run) && i < |run|
    ensures Blocked(c, run[i]) && run[i].handled == [] && !Finished(c, run[i])
    decreases i
  {
    hide Inv, TcpProtocol.Next;
    if i > 0 {
      CorruptionIsFatal(c, run, i - 1);
      RunInv(c, run, i - 1);
      BlockedNext(c, run[i - 1], run[i]);
    }
  }

  // ----- a dropped acknowledgement without a retry -----

  function InTransit(x: Connection): nat {
    |Queue(x.up1)| + |Queue(x.up2)| + |Queue(x.down1)|
  }

  /* Every packet on its way, and the acknowledgement that was dropped, is paid for by a transmission. */
  ghost predicate Starved(c: Config, s: State) {
    && s.sender.position == 1 && |s.connections| <= 1 && (s.sender.lost ==> s.connections == [])
    && (s.connections == [] ==> s.sender.attempts == 0 && !s.applied)
    && forall k :: 0 <= k < |s.connections| ==>
         var x := s.connections[k];
         Queue(x.down2) == [] && InTransit(x) + (if s.applied then 1 else 0) <= s.sender.attempts
  }

  lemma StarvedTransmit(c: Config, s: State, s': State, m: Sender.Move)
    requires Inv(c, s) && Starved(c, s) && NextStep(c, s, s', Acts(m)) && (m.Send? || m.CutSend?)
    ensures Starved(c, s')
  {
    hide Parse, Whole, Frame, NextFrame, Sound, Queue, Sender.Bounded, ReceiverInv, Request, Answers;
    var p := Outgoing(c, 1);
    WriteFrame(Live(s).up1, p, if m.Send? then |Frame(p)| else |m.written|);
  }

  lemma StarvedRelayUp(c: Config, s: State, s': State, k: nat, n: nat)
    requires c.mode == Proxy.DropAck && Inv(c, s) && Starved(c, s) && NextStep(c, s, s', RelayUp(k, n))
    ensures Starved(c, s')
  {
    hide Parse, Whole, Frame, NextFrame, Sound, Queue, Sender.Bounded, ReceiverInv, Request, Answers;
    var x, p := s.connections[k], NextFrame(s.connections[k].up1.bytes).packet;
    TakeFrame(x.up1);
    assert UpEffect(c, s, p).wire == Frame(p);
    WriteFrame(x.up2, p, n);
  }

  lemma StarvedReceive(c: Config, s: State, s': State, k: nat, n: nat)
    requires c.mode == Proxy.DropAck && Inv(c, s) && Starved(c, s) && NextStep(c, s, s', Receive(k, n))
    ensures Starved(c, s')
  {
    hide Parse, Whole, Frame, NextFrame, Sound, Queue, Sender.Bounded, ReceiverInv, Request, Answers, Receiver.Reply;
    var x, next := s.connections[k], NextFrame(s.connections[k].up2.bytes);
    if next.Got? && Receiver.Reply(next.packet).Some? {
      TakeFrame(x.up2);
      WriteFrame(x.down1, Receiver.Reply(next.packet).value, n);
    }
  }

  /* A response during the DATA exchange is an ACK. */
  lemma OnlyAcks(c: Config, s: State, x: Connection, r: Packet)
    requires ConnectionInv(c, s, x) && s.sender.position == 1 && r in Queue(x.down1)
    ensures r.kind == ACK
  {
    hide Queue, Sound, Parse;
    FromFirstExchange(c, s, Answered(c, r));
  }

  lemma StarvedRelayDown(c: Config, s: State, s': State, k: nat, n: nat)
    requires c.mode == Proxy.DropAck && c.plan.retries == 0
    requires Inv(c, s) && Starved(c, s) && NextStep(c, s, s', RelayDown(k, n))
    ensures Starved(c, s')
  {
    hide Parse, Whole, Frame, NextFrame, Sound, Queue, Sender.Collected, ReceiverInv, Request, Answers;
    var x, p := s.connections[k], NextFrame(s.connections[k].down1.bytes).packet;
    TakeFrame(x.down1);
    OnlyAcks(c, s, x, p);
    assert DownEffect(c, s, p).wire == [];
    assert Written(x.down2, [], n) == x.down2;
  }

  lemma StarvedNext(c: Config, s: State, s': State)
    requires c.mode == Proxy.DropAck && c.plan.retries == 0 && Inv(c, s) && Starved(c, s) && TcpProtocol.Next(c, s, s')
    ensures Starved(c, s')
  {
    hide Parse, Whole, Frame, NextFrame, Sound, Queue, Sender.Bounded, ConnectionInv, ReceiverInv, Sender.AfterOutcome,
      Sender.Judge;
    NewLink();
    forall k | 0 <= k < |s.connections|
      ensures NextFrame(s.connections[k].down2.bytes).Incomplete?
    {
      ConnectionSound(c, s, s.connections[k]);
      NothingToRead(s.connections[k].down2);
    }
    var step :| NextStep(c, s, s', step);
    match step
    case Acts(m) =>
      if m.Send? || m.CutSend? {
        StarvedTransmit(c, s, s', m);
      }
    case RelayUp(k, n) => StarvedRelayUp(c, s, s', k, n);
    case RelayDown(k, n) => StarvedRelayDown(c, s, s', k, n);
    case Receive(k, n) => StarvedReceive(c, s, s', k, n);
    case _ =>
  }

  /* If the acknowledgement is dropped and there is no retry, the sender never gets past its DATA packet. */
  lemma {:induction false} DropWithoutRetryIsFatal(c: Config, run: seq<State>, i: nat)
    requires c.mode == Proxy.DropAck && c.plan.retries == 0 && IsRun(c, run) && i < |run|
    ensures Starved(c, run[i]) && !Finished(c, run[i])
    decreases i
  {
    hide Inv, TcpProtocol.Next;
    if i > 0 {
      DropWithoutRetryIsFatal(c, run, i - 1);
      RunInv(c, run, i - 1);
      StarvedNext(c, run[i - 1], run[i]);
    }
  }

  // ----- an undisturbed exchange -----

  /* t can follow s after finitely many steps. */
  ghost predicate Reaches(c: Config, s: State, t: State) {
    exists run :: IsPath(c, run, s, t)
  }

  ghost predicate IsPath(c: Config, run: seq<State>, s: State, t: State) {
    && |run| > 0 && run[0] == s && run[|run| - 1] == t
    && forall i :: 0 <= i < |run| - 1 ==> TcpProtocol.Next(c, run[i], run[i + 1])
  }

  lemma ReachesSelf(c: Config, s: State)
    ensures Reaches(c, s, s)
  {
    assert IsPath(c, [s], s, s);
  }

  lemma ReachesNext(c: Config, s: State, t: State, u: State, step: Step)
    requires Reaches(c, s, t) && NextStep(c, t, u, step)
    ensures Reaches(c, s, u)
  {
    hide NextStep;
    var run :| IsPath(c, run, s, t);
    var longer := run + [u];
    forall i | 0 <= i < |longer| - 1
      ensures TcpProtocol.Next(c, longer[i], longer[i + 1])
    {
      if i == |run| - 1 {
        assert longer[i] == t && longer[i + 1] == u;
      } else {
        assert longer[i] == run[i] && longer[i + 1] == run[i + 1];
      }
    }
    assert IsPath(c, longer, s, u);
  }

  /* The bytes on the four links of the live connection, all still open. */
  predicate Carrying(s: State, up1: seq<byte>, up2: seq<byte>, down1: seq<byte>, down2: seq<byte>) {
    && |s.connections| > 0 && Live(s).relaying
    && Live(s).up1 == Link(up1, false) && Live(s).up2 == Link(up2, false)
    && Live(s).down1 == Link(down1, false) && Live(s).down2 == Link(down2, false)
  }

  lemma WholeFrame(p: Packet)
    requires Encodable(p)
    ensures NextFrame(Frame(p)) == Got(p, |Frame(p)|)
    ensures Written(NEW_LINK, Frame(p), |Frame(p)|) == Link(Frame(p), false)
    ensures Taken(Link(Frame(p), false), |Frame(p)|) == NEW_LINK
    ensures [] + Frame(p) == Frame(p)
  {
    hide Frame, NextFrame;
    NextOfFrame(p, []);
    assert Frame(p) + [] == Frame(p) == Frame(p)[..|Frame(p)|];
  }

  /* The sender may transmit, and nothing is under way. */
  predicate Ready(c: Config, s: State) {
    && Active(c, s) && Sender.CanSend(c.plan, s.sender) && s.receiverFault == None
    && Encodable(Sender.DataPacket(c.plan.payload)) && Carrying(s, [], [], [], [])
  }

  lemma TransmitWhole(c: Config, s: State) returns (t: State)
    requires Ready(c, s)
    ensures Reaches(c, s, t)
    ensures t == s.(connections := t.connections,
                    sender := s.sender.(attempts := s.sender.attempts + 1, waiting := true))
    ensures Carrying(t, Frame(Outgoing(c, s.sender.position)), [], [], [])
  {
    hide Frame, NextFrame, Reaches;
    var p := Outgoing(c, s.sender.position);
    WholeFrame(p);
    t := AfterMove(c, s, Sender.Send);
    ReachesSelf(c, s);
    ReachesNext(c, s, s, t, Acts(Sender.Send));
  }

  lemma RelayUpWhole(c: Config, s0: State, s: State, p: Packet) returns (t: State)
    requires Reaches(c, s0, s) && Encodable(p) && Carrying(s, Frame(p), [], [], [])
    requires Proxy.OnUp(c.mode, s.applied, p) == Proxy.Forward
    ensures Reaches(c, s0, t) && t == s.(connections := t.connections) && Carrying(t, [], Frame(p), [], [])
  {
    hide Frame, NextFrame, Reaches;
    WholeFrame(p);
    var k := |s.connections| - 1;
    t := AfterRelayUp(c, s, k, |Frame(p)|, p, |Frame(p)|);
    ReachesNext(c, s0, s, t, RelayUp(k, |Frame(p)|));
  }

  lemma ReceiveWhole(c: Config, s0: State, s: State, p: Packet) returns (t: State)
    requires Reaches(c, s0, s) && Encodable(p) && Carrying(s, [], Frame(p), [], [])
    requires s.receiverFault == None && Receiver.Reply(p).Some?
    ensures Reaches(c, s0, t) && t == s.(connections := t.connections, handled := s.handled + [p])
    ensures Carrying(t, [], [], Frame(Receiver.Reply(p).value), [])
  {
    hide Frame, NextFrame, Reaches, Receiver.Reply;
    var reply := Receiver.Reply(p).value;
    WholeFrame(p);
    WholeFrame(reply);
    var k := |s.connections| - 1;
    t := AfterReceive(s, k, |Frame(p)|, p, |Frame(reply)|);
    ReachesNext(c, s0, s, t, Receive(k, |Frame(reply)|));
  }

  lemma RelayDownWhole(c: Config, s0: State, s: State, r: Packet) returns (t: State)
    requires Reaches(c, s0, s) && Encodable(r) && Carrying(s, [], [], Frame(r), [])
    ensures Reaches(c, s0, t)
    ensures t == s.(connections := t.connections, applied := DownEffect(c, s, r).applied)
    ensures Carrying(t, [], [], [], if Proxy.OnDown(c.mode, s.applied, r) == Proxy.Drop then [] else Frame(r))
  {
    hide Frame, NextFrame, Reaches;
    WholeFrame(r);
    var k, data := |s.connections| - 1, DownEffect(c, s, r).wire;
    t := AfterRelayDown(c, s, k, |Frame(r)|, r, |data|);
    assert Written(NEW_LINK, data, |data|) == Link(data, false);
    ReachesNext(c, s0, s, t, RelayDown(k, |data|));
  }

  /* The answer to what the sender has just transmitted is the one it waits for. */
  lemma RespondWhole(c: Config, s0: State, s: State, r: Packet) returns (t: State)
    requires Reaches(c, s0, s) && Active(c, s) && s.sender.waiting
    requires r == Packet(Sender.ExpectedKind(s.sender.position), s.sender.position, [])
    requires Carrying(s, [], [], [], Frame(r))
    ensures Reaches(c, s0, t) && Carrying(t, [], [], [], [])
    ensures t == s.(connections := t.connections,
                    sender := s.sender.(position := s.sender.position + 1, attempts := 0, waiting := false,
                                        completed := s.sender.completed + {(r.kind, r.sequence)}))
  {
    hide Frame, NextFrame, Reaches;
    WholeFrame(r);
    t := AfterMove(c, s, Sender.Hear(r));
    ReachesNext(c, s0, s, t, Acts(Sender.Hear(r)));
  }

  /* The request reaches the receiver and its answer sets out. */
  lemma RequestServed(c: Config, s: State) returns (t: State, r: Packet)
    requires Ready(c, s) && Proxy.OnUp(c.mode, s.applied, Outgoing(c, s.sender.position)) == Proxy.Forward
    ensures r == Packet(Sender.ExpectedKind(s.sender.position), s.sender.position, []) && Reaches(c, s, t)
    ensures t == s.(connections := t.connections, handled := s.handled + [Outgoing(c, s.sender.position)],
                    sender := s.sender.(attempts := s.sender.attempts + 1, waiting := true))
    ensures Carrying(t, [], [], Frame(r), [])
  {
    hide Frame, Reaches;
    var p := Outgoing(c, s.sender.position);
    r := Packet(Sender.ExpectedKind(s.sender.position), s.sender.position, []);
    t := TransmitWhole(c, s);
    t := RelayUpWhole(c, s, t, p);
    t := ReceiveWhole(c, s, t, p);
  }

  /* One exchange without interference. */
  lemma Exchange(c: Config, s: State) returns (t: State)
    requires Ready(c, s) && Proxy.OnUp(c.mode, s.applied, Outgoing(c, s.sender.position)) == Proxy.Forward
    requires c.mode == Proxy.DropAck ==> s.applied
    ensures Reaches(c, s, t) && t.sender.position == s.sender.position + 1 && t.sender.attempts == 0
    ensures s.applied ==> t.applied
    ensures if t.sender.position <= c.plan.heartbeats + 1 then Ready(c, t) else Finished(c, t)
    ensures s.applied == t.applied || c.mode == Proxy.DelayAck
  {
    hide Frame, Reaches;
    var r;
    t, r := RequestServed(c, s);
    t := RelayDownWhole(c, s, t, r);
    t := RespondWhole(c, s, t, r);
  }

  lemma ReachesTransitive(c: Config, s: State, t: State, u: State)
    requires Reaches(c, s, t) && Reaches(c, t, u)
    ensures Reaches(c, s, u)
  {
    hide TcpProtocol.Next;
    var a :| IsPath(c, a, s, t);
    var b :| IsPath(c, b, t, u);
    var run := a + b[1..];
    forall i | 0 <= i < |run| - 1
      ensures TcpProtocol.Next(c, run[i], run[i + 1])
    {
      if i < |a| - 1 {
        assert run[i] == a[i] && run[i + 1] == a[i + 1];
      } else {
        var j := i - (|a| - 1);
        assert run[i] == b[j] && run[i + 1] == b[j + 1];
      }
    }
    assert IsPath(c, run, s, u);
  }

  /* The proxy has no fault left for the sender to meet. */
  predicate Calm(c: Config, s: State) {
    s.applied || c.mode == Proxy.NoFault || c.mode == Proxy.DelayAck
  }

  lemma {:induction false} CalmFinishes(c: Config, s: State) returns (t: State)
    requires Ready(c, s) && Calm(c, s)
    ensures Reaches(c, s, t) && Finished(c, t)
    decreases c.plan.heartbeats + 2 - s.sender.position
  {
    hide Reaches, Frame;
    t := Exchange(c, s);
    if !Finished(c, t) {
      var u := CalmFinishes(c, t);
      ReachesTransitive(c, s, t, u);
      t := u;
    }
  }

  lemma FirstConnection(c: Config, s: State) returns (t: State)
    requires Init(c, s) && Encodable(Sender.DataPacket(c.plan.payload))
    ensures Reaches(c, s, t) && Ready(c, t) && t.sender.position == 1 && t.sender.attempts == 0 && !t.applied
  {
    t := AfterMove(c, s, Sender.Connect);
    ReachesSelf(c, s);
    ReachesNext(c, s, s, t, Acts(Sender.Connect));
  }

  /* The dropped acknowledgement is made good by transmitting the DATA packet again. */
  lemma DropIsRetried(c: Config, s: State) returns (t: State)
    requires Ready(c, s) && s.sender.position == 1 && s.sender.attempts == 0 && !s.applied
    requires c.mode == Proxy.DropAck && c.plan.retries >= 1
    ensures Reaches(c, s, t) && Ready(c, t) && t.applied
  {
    hide Frame, Reaches;
    var r, u;
    u, r := RequestServed(c, s);
    u := RelayDownWhole(c, s, u, r);
    t := AfterMove(c, u, Sender.Expire);
    ReachesNext(c, s, u, t, Acts(Sender.Expire));
  }

  /* The forced disconnection is made good by transmitting the heartbeat again on a new connection. */
  lemma DisconnectIsRepaired(c: Config, s: State) returns (t: State)
    requires Ready(c, s) && s.sender.position == 2 && s.sender.attempts == 0 && !s.applied && c.mode == Proxy.Disconnect
    ensures Reaches(c, s, t) && Ready(c, t) && t.applied
  {
    hide Frame, Reaches, NextFrame;
    var p := Outgoing(c, 2);
    var a := TransmitWhole(c, s);
    WholeFrame(p);
    var k := |a.connections| - 1;
    var b := AfterRelayUp(c, a, k, |Frame(p)|, p, 0);
    ReachesNext(c, s, a, b, RelayUp(k, 0));
    NothingLeft();
    var d := AfterMove(c, b, Sender.Break(Sender.ConnectionLost, []));
    ReachesNext(c, s, b, d, Acts(Sender.Break(Sender.ConnectionLost, [])));
    t := AfterMove(c, d, Sender.Connect);
    ReachesNext(c, s, d, t, Acts(Sender.Connect));
  }

  predicate Recoverable(c: Config) {
    && |c.plan.payload| <= MAX_PAYLOAD && c.mode != Proxy.CorruptData
    && (c.mode == Proxy.DropAck ==> c.plan.retries >= 1)
  }

  lemma RecoverableFinishes(c: Config, s: State) returns (t: State)
    requires Recoverable(c) && Init(c, s)
    ensures Reaches(c, s, t) && Finished(c, t)
  {
    hide Reaches, Init;
    var u := FirstConnection(c, s);
    if c.mode == Proxy.DropAck {
      var v := DropIsRetried(c, u);
      ReachesTransitive(c, s, u, v);
      u := v;
    } else if c.mode == Proxy.Disconnect {
      var v := Exchange(c, u);
      ReachesTransitive(c, s, u, v);
      if Finished(c, v) {
        return v;
      }
      var w := DisconnectIsRepaired(c, v);
      ReachesTransitive(c, s, v, w);
      u := w;
    }
    t := CalmFinishes(c, u);
    ReachesTransitive(c, s, u, t);
  }

  /* The sender can succeed exactly when its payload is small enough, the proxy does not corrupt, and a dropped
     acknowledgement leaves it a retry. */
  lemma FinishableExactly(c: Config)
    ensures CanFinish(c) <==> Recoverable(c)
  {
    hide Inv, TcpProtocol.Next, Request;
    if Recoverable(c) {
      var s := State(Sender.START, [], false, [], None);
      var t := RecoverableFinishes(c, s);
      var run :| IsPath(c, run, s, t);
      assert IsRun(c, run) && Finished(c, run[|run| - 1]);
    }
    if CanFinish(c) {
      var run :| IsRun(c, run) && Finished(c, run[|run| - 1]);
      var last := |run| - 1;
      PayloadWasSent(c, run, last);
      if c.mode == Proxy.CorruptData {
        CorruptionIsFatal(c, run, last);
      } else if c.mode == Proxy.DropAck && c.plan.retries == 0 {
        DropWithoutRetryIsFatal(c, run, last);
      }
    }
  }

  lemma PayloadWasSent(c: Config, run: seq<State>, i: nat)
    requires IsRun(c, run) && i < |run| && Finished(c, run[i])
    ensures |c.plan.payload| <= MAX_PAYLOAD
  {
    hide ConnectionInv, Sender.Bounded, IsRun;
    RunInv(c, run, i);
    AcceptedIsProcessed(c, run, i, 1);
    assert Request(c, run[i], Outgoing(c, 1));
  }
}
