/**
 The TCP sender, the proxy and the receiver as one state machine, over streams
 that may be cut at any byte: every interleaving, on any number of connections.
 */
module TcpProtocol {
  import opened Words
  import opened Codec
  import opened Framing
  import opened Deliveries
  import opened Options
  import opened BitErrors
  import Proxy = TcpProxy
  import Receiver = TcpReceiver
  import Sender = TcpMoves

  datatype Config = Config(plan: Sender.Plan, mode: Proxy.FaultMode)

  /* Bytes written and not yet read; after a failed write nothing more is written. */
  datatype Link = Link(bytes: seq<byte>, closed: bool)

  /* One connection of the sender to the proxy and the proxy's own to the receiver: sender to proxy, proxy to
     receiver, receiver to proxy, proxy to sender. asked is every packet transmitted on it. */
  datatype Connection = Connection(asked: set<Packet>, up1: Link, up2: Link, down1: Link, down2: Link, relaying: bool)

  const NEW_LINK := Link([], false)
  const NEW_CONNECTION := Connection({}, NEW_LINK, NEW_LINK, NEW_LINK, NEW_LINK, true)

  datatype State = State(
    sender: Sender.View,
    connections: seq<Connection>,             // the last one is the sender's live one
    applied: bool,                            // the proxy's fault is used up
    handled: seq<Packet>,                     // what the receiver has handled
    receiverFault: Option<Receiver.Fault>)

  datatype Step =
    | Acts(m: Sender.Move)                   // a move of the sender
    | RelayUp(k: nat, written: nat)
    | RelayDown(k: nat, written: nat)
    | ProxyLeaves(k: nat)
    | Receive(k: nat, written: nat)
    | ReceiverFails(breakdown: Receiver.Fault)

  ghost predicate Init(c: Config, s: State) {
    s == State(Sender.START, [], false, [], None)
  }

  // ----- links -----

  function Written(l: Link, data: seq<byte>, n: nat): Link
    requires n <= |data|
  {
    Link(l.bytes + data[..n], l.closed || n < |data|)
  }

  function Taken(l: Link, size: nat): Link
    requires size <= |l.bytes|
  {
    Link(l.bytes[size..], l.closed)
  }

  /* The packets on the way. */
  function Queue(l: Link): seq<Packet> {
    Parse(l.bytes).packets
  }

  /* Nothing refusable is on the way, and what is incomplete stays so. */
  predicate Sound(l: Link) {
    Parse(l.bytes).end.EndOfFile? && (Whole(l.bytes) || l.closed)
  }

  // ----- the sender -----

  predicate Active(c: Config, s: State) {
    Sender.Active(c.plan, s.sender) && |s.connections| > 0
  }

  function Outgoing(c: Config, position: nat): Packet
    requires position <= c.plan.heartbeats + 1
  {
    Sender.Outgoing(c.plan, position)
  }

  function Live(s: State): Connection
    requires |s.connections| > 0
  {
    s.connections[|s.connections| - 1]
  }

  function WithLive(s: State, x: Connection): State
    requires |s.connections| > 0
  {
    s.(connections := s.connections[|s.connections| - 1 := x])
  }

  /* The live connection can take part in the move: what is read on it is what comes next. */
  predicate Fits(s: State, m: Sender.Move) {
    match m
    case Send => |s.connections| > 0
    case CutSend(_, _) => |s.connections| > 0
    case Hear(p) => |s.connections| > 0 && Comes(Live(s), p)
    case HearLate(p) => |s.connections| > 0 && Comes(Live(s), p)
    case Break(_, partial) => |s.connections| > 0 && partial <= Live(s).down2.bytes
    case _ => true
  }

  predicate Comes(x: Connection, p: Packet) {
    NextFrame(x.down2.bytes).Got? && NextFrame(x.down2.bytes).packet == p
  }

  /* n bytes of p's frame are written. */
  function AfterWrite(s: State, p: Packet, n: nat): State
    requires |s.connections| > 0 && Encodable(p) && n <= |Frame(p)|
  {
    var x := Live(s);
    WithLive(s, x.(asked := x.asked + {p}, up1 := Written(x.up1, Frame(p), n)))
  }

  function AfterRead(s: State, size: nat): State
    requires |s.connections| > 0 && size <= |Live(s).down2.bytes|
  {
    WithLive(s, Live(s).(down2 := Taken(Live(s).down2, size)))
  }

  /* What a move does to the connections. A connection on which a wait breaks is not read any more. */
  function AfterTraffic(c: Config, s: State, m: Sender.Move): State
    requires Sender.Enabled(c.plan, s.sender, m) && Fits(s, m)
  {
    match m
    case Connect => s.(connections := s.connections + [NEW_CONNECTION])
    case Send => AfterWrite(s, Outgoing(c, s.sender.position), |Frame(Outgoing(c, s.sender.position))|)
    case CutSend(_, written) => AfterWrite(s, Outgoing(c, s.sender.position), |written|)
    case Hear(_) => AfterRead(s, NextFrame(Live(s).down2.bytes).size)
    case HearLate(_) => AfterRead(s, NextFrame(Live(s).down2.bytes).size)
    case _ => s
  }

  function AfterMove(c: Config, s: State, m: Sender.Move): State
    requires Sender.Enabled(c.plan, s.sender, m) && Fits(s, m)
  {
    AfterTraffic(c, s, m).(sender := Sender.After(c.plan, s.sender, m))
  }

  // ----- the proxy -----

  /* What relaying p makes of the bytes towards the receiver and of the flag. */
  function UpEffect(c: Config, s: State, p: Packet): Proxy.Relayed
    requires Encodable(p)
  {
    Proxy.UpNext(c.mode, Proxy.Relayed([], s.applied, false), p)
  }

  function DownEffect(c: Config, s: State, p: Packet): Proxy.Relayed
    requires Encodable(p)
  {
    Proxy.DownNext(c.mode, Proxy.Relayed([], s.applied, false), p)
  }

  /* n bytes are written of what is due. */
  function AfterRelayUp(c: Config, s: State, k: nat, size: nat, p: Packet, n: nat): State
    requires k < |s.connections| && size <= |s.connections[k].up1.bytes|
    requires Encodable(p) && n <= |UpEffect(c, s, p).wire|
  {
    var x, effect := s.connections[k], UpEffect(c, s, p);
    var full := n == |effect.wire|;
    var x' := x.(up1 := Taken(x.up1, size), up2 := Written(x.up2, effect.wire, n), relaying := full && !effect.ended);
    s.(connections := s.connections[k := x'], applied := if full then effect.applied else s.applied)
  }

  function AfterRelayDown(c: Config, s: State, k: nat, size: nat, p: Packet, n: nat): State
    requires k < |s.connections| && size <= |s.connections[k].down1.bytes|
    requires Encodable(p) && n <= |DownEffect(c, s, p).wire|
  {
    var x, effect := s.connections[k], DownEffect(c, s, p);
    var x' := x.(down1 := Taken(x.down1, size), down2 := Written(x.down2, effect.wire, n),
                 relaying := n == |effect.wire|);
    s.(connections := s.connections[k := x'], applied := effect.applied)
  }

  // ----- the receiver -----

  function AfterReceive(s: State, k: nat, size: nat, p: Packet, n: nat): State
    requires k < |s.connections| && size <= |s.connections[k].up2.bytes|
    requires Receiver.Reply(p).Some? ==> n <= |Frame(Receiver.Reply(p).value)|
  {
    var x := s.connections[k];
    match Receiver.Reply(p)
    case None => s.(receiverFault := Some(Receiver.UnexpectedType))
    case Some(reply) =>
      var x' := x.(up2 := Taken(x.up2, size), down1 := Written(x.down1, Frame(reply), n));
      s.(connections := s.connections[k := x'], handled := s.handled + [p],
         receiverFault := if n == |Frame(reply)| then None else Some(Receiver.SendFailed))
  }

  // ----- steps -----

  ghost predicate NextStep(c: Config, s: State, s': State, step: Step) {
    match step
    case Acts(m) =>
      Sender.Enabled(c.plan, s.sender, m) && Fits(s, m) && s' == AfterMove(c, s, m)
    case RelayUp(k, n) =>
      && k < |s.connections| && s.connections[k].relaying
      && var next := NextFrame(s.connections[k].up1.bytes);
      && next.Got? && Encodable(next.packet) && n <= |UpEffect(c, s, next.packet).wire|
      && s' == AfterRelayUp(c, s, k, next.size, next.packet, n)
    case RelayDown(k, n) =>
      && k < |s.connections| && s.connections[k].relaying
      && var next := NextFrame(s.connections[k].down1.bytes);
      && next.Got? && Encodable(next.packet) && n <= |DownEffect(c, s, next.packet).wire|
      && s' == AfterRelayDown(c, s, k, next.size, next.packet, n)
    case ProxyLeaves(k) =>
      && k < |s.connections|
      && s' == s.(connections := s.connections[k := s.connections[k].(relaying := false)])
    case Receive(k, n) =>
      && s.receiverFault == None && k < |s.connections|
      && var next := NextFrame(s.connections[k].up2.bytes);
      && !next.Incomplete?
      && (next.Got? ==>
            && (Receiver.Reply(next.packet).Some? ==> n <= |Frame(Receiver.Reply(next.packet).value)|)
            && s' == AfterReceive(s, k, next.size, next.packet, n))
      && (next.Bad? ==> s' == s.(receiverFault := Some(Receiver.Undecodable(next.error))))
    case ReceiverFails(f) =>
      && s.receiverFault == None && f == Receiver.ReceiveFailed
      && s' == s.(receiverFault := Some(f))
  }

  ghost predicate Next(c: Config, s: State, s': State) {
    exists step :: NextStep(c, s, s', step)
  }

  ghost predicate IsRun(c: Config, run: seq<State>) {
    && |run| > 0 && Init(c, run[0])
    && forall i :: 0 <= i < |run| - 1 ==> Next(c, run[i], run[i + 1])
  }

  // ----- the invariant -----

  /* The packet with this sequence number has been transmitted. */
  predicate Sent(s: State, position: nat) {
    position < s.sender.position || (position == s.sender.position && s.sender.attempts > 0)
  }

  predicate Request(c: Config, s: State, p: Packet) {
    && Encodable(p)
    && (|| (p == Sender.DataPacket(c.plan.payload) && Sent(s, 1))
        || (2 <= p.sequence <= c.plan.heartbeats + 1 && p == Sender.HeartbeatPacket(p.sequence) && Sent(s, p.sequence)))
  }

  /* The request a response answers. */
  function Answered(c: Config, r: Packet): Packet {
    if r.kind == ACK then Sender.DataPacket(c.plan.payload) else Sender.HeartbeatPacket(r.sequence)
  }

  predicate Answers(c: Config, asked: set<Packet>, handled: seq<Packet>, r: Packet) {
    && Receiver.Reply(Answered(c, r)) == Some(r)
    && Answered(c, r) in asked && Answered(c, r) in handled
  }

  ghost predicate ConnectionInv(c: Config, s: State, x: Connection) {
    // what is on the way
    && Sound(x.up1) && Sound(x.down1) && Sound(x.down2)
    && (Sound(x.up2) || (Parse(x.up2.bytes).end == Refused(CrcMismatch) && c.mode == Proxy.CorruptData && s.applied))
    && (x.relaying ==> !x.up2.closed && !x.down2.closed)
    && (s.receiverFault == None ==> !x.down1.closed)
    // where it comes from
    && (forall p :: p in x.asked ==> Request(c, s, p))
    && (forall p :: p in Queue(x.up1) ==> p in x.asked)
    && (forall p :: p in Queue(x.up2) ==> p in x.asked)
    && (forall r :: r in Queue(x.down1) ==> Answers(c, x.asked, s.handled, r))
    && (forall r :: r in Queue(x.down2) ==> Answers(c, x.asked, s.handled, r))
  }

  predicate Expectable(c: Config, f: Sender.Fault) {
    match f
    case InvalidResponse => false
    case UnexpectedResponse => false
    case Undecodable(_) => false
    case Unencodable => |c.plan.payload| > MAX_PAYLOAD
    case _ => true
  }

  ghost predicate SenderInv(c: Config, s: State) {
    && Sender.Bounded(c.plan, s.sender)
    && (s.sender.fault.Some? ==> Expectable(c, s.sender.fault.value))
    && (s.sender.fault == None && !s.sender.lost ==> |s.connections| > 0 && !Live(s).up1.closed)
  }

  ghost predicate ReceiverInv(c: Config, s: State) {
    && (forall p :: p in s.handled ==> Request(c, s, p))
    && (forall q :: 1 <= q < s.sender.position && q <= c.plan.heartbeats + 1 ==> Outgoing(c, q) in s.handled)
    && (s.receiverFault.Some? ==>
          match s.receiverFault.value
          case UnexpectedType => false
          case Undecodable(e) => e == CrcMismatch && c.mode == Proxy.CorruptData && s.applied
          case _ => true)
  }

  ghost predicate ConnectionsInv(c: Config, s: State) {
    forall k :: 0 <= k < |s.connections| ==> ConnectionInv(c, s, s.connections[k])
  }

  ghost predicate Inv(c: Config, s: State) {
    SenderInv(c, s) && ReceiverInv(c, s) && ConnectionsInv(c, s)
  }

  // ----- links under reading and writing -----

  lemma WriteFrame(l: Link, p: Packet, n: nat)
    requires Sound(l) && !l.closed && Encodable(p) && n <= |Frame(p)|
    ensures Sound(Written(l, Frame(p), n))
    ensures Queue(Written(l, Frame(p), n)) == if n == |Frame(p)| then Queue(l) + [p] else Queue(l)
  {
    hide Frame, Parse;
    if n == |Frame(p)| {
      ParseAppend(l.bytes, p);
      assert Frame(p)[..n] == Frame(p);
    } else {
      ParseAppendCut(l.bytes, p, n);
    }
  }

  lemma WriteDamaged(l: Link, p: Packet, n: nat)
    requires Sound(l) && !l.closed && Encodable(p) && p.payload != [] && n <= |Damaged(p)|
    ensures var l' := Written(l, Damaged(p), n);
      && Queue(l') == Queue(l)
      && if n == |Damaged(p)| then Parse(l'.bytes).end == Refused(CrcMismatch) else Sound(l')
  {
    hide Frame, Frames, Parse, Damaged, NextFrame;
    WholeIsFrames(l.bytes);
    var ps := Queue(l);
    if n == |Damaged(p)| {
      Proxy.DamageIsRefused(ps, p, []);
      assert Frames(ps) + Damaged(p) + [] == l.bytes + Damaged(p)[..n];
    } else {
      Proxy.NextOfCutDamaged(p, n);
      ParseOfFrames(ps, Damaged(p)[..n]);
    }
  }

  lemma WriteAfterRefusal(l: Link, data: seq<byte>, n: nat)
    requires Parse(l.bytes).end.Refused? && n <= |data|
    ensures Parse(Written(l, data, n).bytes) == Parse(l.bytes)
  {
    hide Parse;
    ParseOfPrefix(l.bytes, data[..n]);
  }

  lemma TakeFrame(l: Link)
    requires NextFrame(l.bytes).Got?
    ensures var next := NextFrame(l.bytes);
      && Queue(l) == [next.packet] + Queue(Taken(l, next.size))
      && Parse(Taken(l, next.size).bytes).end == Parse(l.bytes).end
      && (Sound(l) ==> Sound(Taken(l, next.size)))
      && next.packet in Queue(l)
      && (forall p :: p in Queue(Taken(l, next.size)) ==> p in Queue(l))
  {
    hide Parse, NextFrame;
    ParseStep(l.bytes);
  }

  lemma BadIsRefused(l: Link)
    requires NextFrame(l.bytes).Bad?
    ensures Parse(l.bytes).end == Refused(NextFrame(l.bytes).error)
  {
    hide Parse, NextFrame;
    ParseStep(l.bytes);
  }

  lemma NewLink()
    ensures Sound(NEW_LINK) && Queue(NEW_LINK) == []
  {
    hide NextFrame;
    NothingLeft();
    ParseStep([]);
  }

  // ----- the invariant over steps -----

  /* Nothing the invariant of a connection depends on is taken back. */
  predicate Grows(s: State, s': State) {
    && (|| s.sender.position < s'.sender.position
        || (s.sender.position == s'.sender.position && s.sender.attempts <= s'.sender.attempts))
    && s.handled <= s'.handled
    && (s.applied ==> s'.applied)
    && (s'.receiverFault == None ==> s.receiverFault == None)
  }

  lemma ConnectionKept(c: Config, s: State, s': State, x: Connection)
    requires ConnectionInv(c, s, x) && Grows(s, s')
    ensures ConnectionInv(c, s', x)
  {
    hide Parse, Whole, Encodable;
  }

  lemma ConnectionsKept(c: Config, s: State, s': State)
    requires ConnectionsInv(c, s) && Grows(s, s') && s'.connections == s.connections
    ensures ConnectionsInv(c, s')
  {
    hide ConnectionInv, Grows;
    forall k | 0 <= k < |s.connections|
      ensures ConnectionInv(c, s', s.connections[k])
    {
      ConnectionKept(c, s, s', s.connections[k]);
    }
  }

  lemma ConnectionReplaced(c: Config, s: State, s': State, k: nat, x: Connection)
    requires ConnectionsInv(c, s) && Grows(s, s') && k < |s.connections|
    requires s'.connections == s.connections[k := x] && ConnectionInv(c, s', x)
    ensures ConnectionsInv(c, s')
  {
    hide ConnectionInv, Grows;
    forall i | 0 <= i < |s.connections| && i != k
      ensures ConnectionInv(c, s', s.connections[i])
    {
      ConnectionKept(c, s, s', s.connections[i]);
    }
  }

  /* A step of the sender or the proxy leaves the receiver as it was. */
  lemma ReceiverKept(c: Config, s: State, s': State)
    requires ReceiverInv(c, s) && Grows(s, s')
    requires s'.handled == s.handled && s'.receiverFault == s.receiverFault
    requires s'.sender.position == s.sender.position
          || (s'.sender.position == s.sender.position + 1 <= c.plan.heartbeats + 2
              && Outgoing(c, s.sender.position) in s.handled)
    ensures ReceiverInv(c, s')
  {
    hide Encodable;
  }

  lemma InitInv(c: Config, s: State)
    requires Init(c, s)
    ensures Inv(c, s)
  {
  }

  /* A move keeps what is invariant of the sender on its own. */
  lemma SenderKept(c: Config, s: State, s': State, m: Sender.Move)
    requires SenderInv(c, s) && NextStep(c, s, s', Acts(m))
    requires Sender.After(c.plan, s.sender, m).fault.Some? ==>
               Expectable(c, Sender.After(c.plan, s.sender, m).fault.value)
    ensures SenderInv(c, s')
  {
    hide Frame, NextFrame, Sender.Bounded, Sender.Judge, Outgoing;
    Sender.BoundedNext(c.plan, s.sender, m);
  }

  lemma ConnectInv(c: Config, s: State, s': State)
    requires Inv(c, s) && NextStep(c, s, s', Acts(Sender.Connect))
    ensures Inv(c, s')
  {
    hide Parse, Whole, Sound, NextFrame, Sender.Bounded, Queue;
    SenderKept(c, s, s', Sender.Connect);
    NewLink();
    forall k | 0 <= k < |s'.connections|
      ensures ConnectionInv(c, s', s'.connections[k])
    {
      if k < |s.connections| {
        ConnectionKept(c, s, s', s.connections[k]);
      }
    }
  }

  lemma AskedMore(c: Config, s: State, s': State, x: Connection, p: Packet, n: nat)
    requires ConnectionInv(c, s, x) && Grows(s, s') && Request(c, s', p) && !x.up1.closed && n <= |Frame(p)|
    ensures ConnectionInv(c, s', x.(asked := x.asked + {p}, up1 := Written(x.up1, Frame(p), n)))
  {
    hide Parse, Whole, Sound, Frame, Queue;
    ConnectionKept(c, s, s', x);
    WriteFrame(x.up1, p, n);
  }

  lemma TransmitInv(c: Config, s: State, s': State, m: Sender.Move)
    requires Inv(c, s) && NextStep(c, s, s', Acts(m)) && (m.Send? || m.CutSend?)
    ensures Inv(c, s')
  {
    hide Frame, ConnectionInv, NextFrame, Sender.Bounded, ReceiverInv, Outgoing;
    var p := Outgoing(c, s.sender.position);
    SenderKept(c, s, s', m);
    ReceiverKept(c, s, s');
    TransmittedIsRequest(c, s, s', m);
    AskedMore(c, s, s', Live(s), p, if m.Send? then |Frame(p)| else |m.written|);
    ConnectionReplaced(c, s, s', |s.connections| - 1, Live(s'));
  }

  lemma TransmittedIsRequest(c: Config, s: State, s': State, m: Sender.Move)
    requires NextStep(c, s, s', Acts(m)) && (m.Send? || m.CutSend?)
    ensures Request(c, s', Outgoing(c, s.sender.position)) && Grows(s, s')
  {
    hide Frame, NextFrame;
  }

  lemma ReadInv(c: Config, s: State)
    requires Inv(c, s) && |s.connections| > 0 && NextFrame(Live(s).down2.bytes).Got?
    ensures var next := NextFrame(Live(s).down2.bytes);
      && Inv(c, AfterRead(s, next.size))
      && Answers(c, Live(s).asked, s.handled, next.packet) && Answered(c, next.packet) in s.handled
      && Request(c, AfterRead(s, next.size), Answered(c, next.packet))
  {
    hide Parse, Whole, Sound, NextFrame, Queue, Sender.Collected, ReceiverInv, Answers;
    var next := NextFrame(Live(s).down2.bytes);
    var s' := AfterRead(s, next.size);
    TakeFrame(Live(s).down2);
    ReceiverKept(c, s, s');
    ConnectionKept(c, s, s', Live(s));
    AnsweredIsRequest(c, s, Live(s), next.packet);
    ConnectionReplaced(c, s, s', |s.connections| - 1, Live(s'));
  }

  lemma AnsweredIsRequest(c: Config, s: State, x: Connection, r: Packet)
    requires ConnectionInv(c, s, x) && Answers(c, x.asked, s.handled, r)
    ensures Request(c, s, Answered(c, r)) && Answered(c, r) in s.handled
  {
  }

  /* What the receiver replies is accepted in exactly the exchange of the packet it replies to. */
  lemma ReplyIsAwaited(p: Packet, kind: byte, sequence: u32, completed: set<Sender.Response>)
    requires p.kind in {DATA, HEARTBEAT}
    ensures Sender.Judge(kind, sequence, completed, Receiver.Reply(p).value) == Sender.Accept <==>
            sequence == p.sequence && kind == if p.kind == DATA then ACK else HEARTBEAT_ACK
  {
    Sender.AcceptExactly(kind, sequence, completed, Receiver.Reply(p).value);
  }

  /* The response to a transmitted request is the expected one, or one collected before. */
  lemma NeverRejected(c: Config, s: State, asked: set<Packet>, r: Packet)
    requires SenderInv(c, s) && s.sender.position <= c.plan.heartbeats + 1
    requires Answers(c, asked, s.handled, r) && Request(c, s, Answered(c, r))
    ensures Sender.Judge(Sender.ExpectedKind(s.sender.position), s.sender.position, s.sender.completed, r) ==
            if Answered(c, r) == Outgoing(c, s.sender.position) then Sender.Accept else Sender.Stale
  {
    hide Sender.HeartbeatResponses;
    if s.sender.position > 1 {
      Sender.HeartbeatResponsesMeaning(s.sender.position - 2, r.kind, r.sequence);
    }
  }

  lemma HearInv(c: Config, s: State, s': State, p: Packet)
    requires Inv(c, s) && NextStep(c, s, s', Acts(Sender.Hear(p)))
    ensures Inv(c, s')
  {
    hide ConnectionInv, NextFrame, Parse, Sender.Bounded, Answers, Request, ReceiverInv, Sender.Judge;
    ReadInv(c, s);
    var t := AfterRead(s, NextFrame(Live(s).down2.bytes).size);
    NeverRejected(c, t, Live(s).asked, p);
    SenderKept(c, s, s', Sender.Hear(p));
    ConnectionsKept(c, t, s');
    ReceiverKept(c, t, s');
  }

  lemma LiveSound(c: Config, s: State, partial: seq<byte>)
    requires ConnectionsInv(c, s) && |s.connections| > 0 && partial <= Live(s).down2.bytes
    ensures !NextFrame(partial).Bad?
  {
    hide NextFrame, Parse;
    var l := Live(s).down2;
    if NextFrame(partial).Bad? {
      NextIsFinal(partial, l.bytes[|partial|..]);
      assert partial + l.bytes[|partial|..] == l.bytes;
      BadIsRefused(l);
    }
  }

  lemma LateInv(c: Config, s: State, s': State, m: Sender.Move)
    requires Inv(c, s) && NextStep(c, s, s', Acts(m))
    requires m.HearLate? || m.Expire? || m.Break? || m.NoConnection? || m.Refuse?
    ensures Inv(c, s')
  {
    hide ConnectionInv, NextFrame, Parse, Sender.Bounded, Answers, Request, ReceiverInv;
    if m.HearLate? {
      ReadInv(c, s);
      var t := AfterRead(s, NextFrame(Live(s).down2.bytes).size);
      SenderKept(c, s, s', m);
      ConnectionsKept(c, t, s');
      ReceiverKept(c, t, s');
    } else {
      if m.Break? {
        LiveSound(c, s, m.partial);
      }
      SenderKept(c, s, s', m);
      ConnectionsKept(c, s, s');
      ReceiverKept(c, s, s');
    }
  }

  lemma UpLinkKept(c: Config, s: State, s': State, x: Connection, n: nat)
    requires ConnectionInv(c, s, x) && x.relaying && NextFrame(x.up1.bytes).Got?
    requires var p := NextFrame(x.up1.bytes).packet;
      && Encodable(p) && n <= |UpEffect(c, s, p).wire|
      && s' == s.(applied := if n == |UpEffect(c, s, p).wire| then UpEffect(c, s, p).applied else s.applied)
    ensures var p := NextFrame(x.up1.bytes).packet;
      var l := Written(x.up2, UpEffect(c, s, p).wire, n);
      && (Sound(l) || (Parse(l.bytes).end == Refused(CrcMismatch) && c.mode == Proxy.CorruptData && s'.applied))
      && (forall q :: q in Queue(l) ==> q in Queue(x.up2) || q == p)
      && (l.closed <==> n < |UpEffect(c, s, p).wire|)
  {
    hide Parse, Whole, Sound, Frame, Damaged, NextFrame;
    var p := NextFrame(x.up1.bytes).packet;
    var data := UpEffect(c, s, p).wire;
    if Sound(x.up2) {
      match Proxy.OnUp(c.mode, s.applied, p)
      case Forward =>
        assert data == Frame(p);
        WriteFrame(x.up2, p, n);
      case Damage =>
        assert data == Damaged(p);
        WriteDamaged(x.up2, p, n);
      case _ =>
        assert Written(x.up2, data, n) == x.up2;
    } else {
      WriteAfterRefusal(x.up2, data, n);
    }
  }

  lemma RelayUpInv(c: Config, s: State, s': State, k: nat, n: nat)
    requires Inv(c, s) && NextStep(c, s, s', RelayUp(k, n))
    ensures Inv(c, s')
  {
    hide Parse, Whole, Sound, Frame, Damaged, NextFrame, Queue, Proxy.UpNext, Answers, Request, ReceiverInv,
      Sender.Collected;
    var x, next := s.connections[k], NextFrame(s.connections[k].up1.bytes);
    var t := s.(applied := s'.applied);
    TakeFrame(x.up1);
    UpLinkKept(c, s, t, x, n);
    ReceiverKept(c, s, s');
    ConnectionKept(c, s, s', x);
    ConnectionReplaced(c, s, s', k, s'.connections[k]);
  }

  lemma RelayDownInv(c: Config, s: State, s': State, k: nat, n: nat)
    requires Inv(c, s) && NextStep(c, s, s', RelayDown(k, n))
    ensures Inv(c, s')
  {
    hide Parse, Whole, Sound, Frame, NextFrame, Queue, Answers, Request, ReceiverInv, Sender.Collected;
    var x, next := s.connections[k], NextFrame(s.connections[k].down1.bytes);
    var data := DownEffect(c, s, next.packet).wire;
    TakeFrame(x.down1);
    if data == [] {
      assert Written(x.down2, data, n) == x.down2;
    } else {
      assert data == Frame(next.packet);
      WriteFrame(x.down2, next.packet, n);
    }
    ReceiverKept(c, s, s');
    ConnectionKept(c, s, s', x);
    ConnectionReplaced(c, s, s', k, s'.connections[k]);
  }

  lemma RequestIsAnswered(c: Config, s: State, p: Packet)
    requires Request(c, s, p)
    ensures Receiver.Reply(p).Some? && Answered(c, Receiver.Reply(p).value) == p
  {
  }

  lemma Served(c: Config, s: State, s': State, x: Connection, p: Packet, n: nat)
    requires ConnectionInv(c, s, x) && Grows(s, s') && s.receiverFault == None
    requires NextFrame(x.up2.bytes).Got? && p == NextFrame(x.up2.bytes).packet && p in s'.handled
    requires Receiver.Reply(p).Some? && n <= |Frame(Receiver.Reply(p).value)|
    requires s'.receiverFault == None ==> n == |Frame(Receiver.Reply(p).value)|
    ensures Request(c, s, p)
    ensures ConnectionInv(c, s', x.(up2 := Taken(x.up2, NextFrame(x.up2.bytes).size),
                                    down1 := Written(x.down1, Frame(Receiver.Reply(p).value), n)))
  {
    hide Parse, Whole, Sound, Frame, NextFrame, Queue, Request, Receiver.Reply;
    TakeFrame(x.up2);
    WriteFrame(x.down1, Receiver.Reply(p).value, n);
    RequestIsAnswered(c, s, p);
    ConnectionKept(c, s, s', x);
  }

  lemma HandledMore(c: Config, s: State, s': State, p: Packet)
    requires ReceiverInv(c, s) && Grows(s, s') && Request(c, s, p)
    requires s'.handled == s.handled + [p] && s'.sender.position == s.sender.position
    requires s'.receiverFault.Some? ==> s'.receiverFault.value == Receiver.SendFailed
    ensures ReceiverInv(c, s')
  {
    hide Encodable;
  }

  lemma QueuedIsRequest(c: Config, s: State, x: Connection)
    requires ConnectionInv(c, s, x) && NextFrame(x.up2.bytes).Got?
    ensures Request(c, s, NextFrame(x.up2.bytes).packet)
  {
    hide Parse, NextFrame, Request;
    TakeFrame(x.up2);
  }

  lemma ReceiveInv(c: Config, s: State, s': State, k: nat, n: nat)
    requires Inv(c, s) && NextStep(c, s, s', Receive(k, n))
    ensures Inv(c, s')
  {
    hide Frame, NextFrame, Sender.Collected, ConnectionInv, Request, Receiver.Reply, Taken, Written;
    var x, next := s.connections[k], NextFrame(s.connections[k].up2.bytes);
    if next.Got? {
      hide ReceiverInv;
      QueuedIsRequest(c, s, x);
      RequestIsAnswered(c, s, next.packet);
      Served(c, s, s', x, next.packet, n);
      HandledMore(c, s, s', next.packet);
      ConnectionReplaced(c, s, s', k, s'.connections[k]);
    } else {
      RefusalIsDamage(c, s, x);
      ConnectionsKept(c, s, s');
      ReceiverDamaged(c, s, s');
    }
  }

  lemma ReceiverDamaged(c: Config, s: State, s': State)
    requires ReceiverInv(c, s) && c.mode == Proxy.CorruptData && s.applied
    requires s' == s.(receiverFault := Some(Receiver.Undecodable(CrcMismatch)))
    ensures ReceiverInv(c, s')
  {
    hide Encodable;
  }

  lemma RefusalIsDamage(c: Config, s: State, x: Connection)
    requires ConnectionInv(c, s, x) && NextFrame(x.up2.bytes).Bad?
    ensures NextFrame(x.up2.bytes).error == CrcMismatch && c.mode == Proxy.CorruptData && s.applied
  {
    hide Parse, NextFrame;
    BadIsRefused(x.up2);
  }

  lemma NextInv(c: Config, s: State, s': State)
    requires Inv(c, s) && Next(c, s, s')
    ensures Inv(c, s')
  {
    hide NextFrame, ConnectionInv, Frame, Sender.Collected;
    var step :| NextStep(c, s, s', step);
    match step
    case Acts(m) =>
      if m.Connect? {
        ConnectInv(c, s, s');
      } else if m.Send? || m.CutSend? {
        TransmitInv(c, s, s', m);
      } else if m.Hear? {
        HearInv(c, s, s', m.packet);
      } else {
        LateInv(c, s, s', m);
      }
    case RelayUp(k, n) => RelayUpInv(c, s, s', k, n);
    case RelayDown(k, n) => RelayDownInv(c, s, s', k, n);
    case ProxyLeaves(k) => ProxyLeavesInv(c, s, s', k);
    case Receive(k, n) => ReceiveInv(c, s, s', k, n);
    case ReceiverFails(_) => ConnectionsKept(c, s, s');
  }

  lemma ProxyLeavesInv(c: Config, s: State, s': State, k: nat)
    requires Inv(c, s) && NextStep(c, s, s', ProxyLeaves(k))
    ensures Inv(c, s')
  {
    hide Parse, Whole, Sound, Queue, Answers, Request, ReceiverInv, Sender.Collected;
    ReceiverKept(c, s, s');
    ConnectionKept(c, s, s', s.connections[k]);
    ConnectionReplaced(c, s, s', k, s'.connections[k]);
  }

  lemma {:induction false} RunInv(c: Config, run: seq<State>, i: nat)
    requires IsRun(c, run) && i < |run|
    ensures Inv(c, run[i])
    decreases i
  {
    hide Inv, Next, Init;
    if i == 0 {
      InitInv(c, run[0]);
    } else {
      RunInv(c, run, i - 1);
      NextInv(c, run[i - 1], run[i]);
    }
  }

  // ----- what every run guarantees -----

  /* In no run, in no fault mode, does the sender meet a response it has to reject or cannot decode, the proxy a
     frame it cannot decode, or the receiver a packet of unexpected type; and only the corruption mode, once it has
     struck, makes the receiver refuse a frame, for its checksum. */
  lemma NoProtocolErrors(c: Config, run: seq<State>, i: nat)
    requires IsRun(c, run) && i < |run|
    ensures run[i].sender.fault != Some(Sender.UnexpectedResponse)
    ensures run[i].sender.fault != Some(Sender.InvalidResponse)
    ensures run[i].sender.fault.Some? ==> !run[i].sender.fault.value.Undecodable?
    ensures run[i].sender.fault == Some(Sender.Unencodable) ==> |c.plan.payload| > MAX_PAYLOAD
    ensures forall k :: 0 <= k < |run[i].connections| ==>
              && !NextFrame(run[i].connections[k].up1.bytes).Bad?
              && !NextFrame(run[i].connections[k].down1.bytes).Bad?
              && !NextFrame(run[i].connections[k].down2.bytes).Bad?
    ensures run[i].receiverFault != Some(Receiver.UnexpectedType)
    ensures run[i].receiverFault.Some? && run[i].receiverFault.value.Undecodable? ==>
              run[i].receiverFault.value.error == CrcMismatch && c.mode == Proxy.CorruptData && run[i].applied
  {
    hide NextFrame, Parse, ConnectionInv, Sender.Collected, Request;
    RunInv(c, run, i);
    forall k | 0 <= k < |run[i].connections|
      ensures !NextFrame(run[i].connections[k].up1.bytes).Bad?
      ensures !NextFrame(run[i].connections[k].down1.bytes).Bad?
      ensures !NextFrame(run[i].connections[k].down2.bytes).Bad?
    {
      SoundConnection(c, run[i], run[i].connections[k]);
    }
  }

  lemma SoundConnection(c: Config, s: State, x: Connection)
    requires ConnectionInv(c, s, x)
    ensures !NextFrame(x.up1.bytes).Bad? && !NextFrame(x.down1.bytes).Bad? && !NextFrame(x.down2.bytes).Bad?
  {
    hide NextFrame, Parse;
    ParseStep(x.up1.bytes);
    ParseStep(x.down1.bytes);
    ParseStep(x.down2.bytes);
  }

  /* Every response on the way on the live connection answers a request transmitted on that same connection and
     handled by the receiver, and is either the one awaited or one collected before. */
  lemma LiveResponses(c: Config, run: seq<State>, i: nat, r: Packet)
    requires IsRun(c, run) && i < |run| && Active(c, run[i])
    requires r in Queue(Live(run[i]).down1) || r in Queue(Live(run[i]).down2)
    ensures Answered(c, r) in Live(run[i]).asked && Answered(c, r) in run[i].handled
    ensures Receiver.Reply(Answered(c, r)) == Some(r)
    ensures var v := run[i].sender;
      r == Packet(Sender.ExpectedKind(v.position), v.position, []) || (r.kind, r.sequence) in v.completed
  {
    hide Queue, Sound, Parse, Sender.Collected, Sender.HeartbeatResponses, NextFrame;
    var s := run[i];
    RunInv(c, run, i);
    NeverRejected(c, s, Live(s).asked, r);
  }

  /* What the receiver's log comes to when every DATA packet it handles is the same one. */
  lemma {:induction false} LogOfOne(c: Config, s: State, handled: seq<Packet>)
    requires forall p :: p in handled ==> Request(c, s, p)
    ensures Receiver.LogAfter(handled) ==
            if Sender.DataPacket(c.plan.payload) in handled then [Item(1, c.plan.payload)] else []
    decreases |handled|
  {
    hide FirstOfEach, DataItems, Receiver.LogAfter, Encodable;
    if handled == [] {
      EmptyLog();
    } else {
      var before, last := handled[..|handled| - 1], handled[|handled| - 1];
      assert handled == before + [last];
      LogOfOne(c, s, before);
      Receiver.LogAfterAppend(before, last);
      assert [Item(1, c.plan.payload)][0].sequence in Sequences([Item(1, c.plan.payload)]);
      assert Request(c, s, last);
    }
  }

  lemma EmptyLog()
    ensures Receiver.LogAfter([]) == []
  {
  }

  /* Across all connections, retries, faults and cuts, the DATA packet is processed at most once and with the payload
     the sender gave it, and nothing else ever is. */
  lemma ProcessedAtMostOnce(c: Config, run: seq<State>, i: nat)
    requires IsRun(c, run) && i < |run|
    ensures Receiver.LogAfter(run[i].handled) == [] || Receiver.LogAfter(run[i].handled) == [Item(1, c.plan.payload)]
  {
    hide Receiver.LogAfter, Request;
    RunInv(c, run, i);
    LogOfOne(c, run[i], run[i].handled);
  }

  /* An accepted response means its request was handled: once the sender is past the DATA exchange, the receiver has
     processed the payload, exactly once; past heartbeat n, it has handled heartbeat n. */
  lemma AcceptedIsProcessed(c: Config, run: seq<State>, i: nat, n: nat)
    requires IsRun(c, run) && i < |run| && 1 <= n < run[i].sender.position && n <= c.plan.heartbeats + 1
    ensures Receiver.LogAfter(run[i].handled) == [Item(1, c.plan.payload)]
    ensures Outgoing(c, n) in run[i].handled
  {
    hide Receiver.LogAfter, Request;
    RunInv(c, run, i);
    LogOfOne(c, run[i], run[i].handled);
    assert Outgoing(c, 1) in run[i].handled;
  }

  /* A sender that has finished has collected exactly the expected responses. */
  lemma FinishedRun(c: Config, run: seq<State>, i: nat)
    requires IsRun(c, run) && i < |run| && run[i].sender.position == c.plan.heartbeats + 2
    ensures run[i].sender.completed == {(ACK, 1)} + Sender.HeartbeatResponses(c.plan.heartbeats)
    ensures Receiver.LogAfter(run[i].handled) == [Item(1, c.plan.payload)]
    ensures forall n :: 2 <= n <= c.plan.heartbeats + 1 ==> Sender.HeartbeatPacket(n) in run[i].handled
  {
    hide Receiver.LogAfter, Sender.HeartbeatResponses;
    RunInv(c, run, i);
    AcceptedIsProcessed(c, run, i, 1);
    forall n | 2 <= n <= c.plan.heartbeats + 1
      ensures Sender.HeartbeatPacket(n) in run[i].handled
    {
      AcceptedIsProcessed(c, run, i, n);
    }
  }
}
