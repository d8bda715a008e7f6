/**
 The fault-injecting proxy: it relays frames both ways between a sender and the
 receiver, one connection after another, and injects at most one fault.
 */
module TcpProxy {
  import opened Words
  import opened Codec
  import opened Framing
  import opened BitErrors
  import opened Streams

  datatype FaultMode = NoFault | DropAck | DelayAck | CorruptData | Disconnect

  // ----- one packet -----

  datatype Upward = Forward | Damage | CutOff | CannotDamage

  /* What becomes of a packet from the sender. applied tells whether the fault has been used up. */
  function OnUp(mode: FaultMode, applied: bool, p: Packet): (u: Upward)
    ensures u == Damage ==> p.payload != []
  {
    if p.kind == DATA && mode == CorruptData && !applied then (if p.payload == [] then CannotDamage else Damage)
    else if p.kind == HEARTBEAT && mode == Disconnect && !applied then CutOff
    else Forward
  }

  datatype Downward = Pass | Drop | Delay

  /* What becomes of a packet from the receiver. */
  function OnDown(mode: FaultMode, applied: bool, p: Packet): Downward {
    if p.kind == ACK && !applied && mode == DropAck then Drop
    else if p.kind == ACK && !applied && mode == DelayAck then Delay
    else Pass
  }

  // ----- one direction of one connection -----

  /* The bytes written, whether the fault is used up, and whether the proxy has left the connection. */
  datatype Relayed = Relayed(wire: seq<byte>, applied: bool, ended: bool)

  function UpNext(mode: FaultMode, before: Relayed, p: Packet): (r: Relayed)
    requires Encodable(p)
    ensures before.applied ==> r.applied
  {
    if before.ended then before
    else match OnUp(mode, before.applied, p) {
      case Forward => Relayed(before.wire + Frame(p), before.applied, false)
      case Damage => Relayed(before.wire + Damaged(p), true, false)
      case CutOff => Relayed(before.wire, true, true)
      case CannotDamage => Relayed(before.wire, before.applied, true)
    }
  }

  function Up(mode: FaultMode, applied: bool, ps: seq<Packet>): (r: Relayed)
    requires AllEncodable(ps)
    ensures applied ==> r.applied
    ensures r.applied && !applied ==> mode == CorruptData || mode == Disconnect
    decreases |ps|
  {
    if ps == [] then Relayed([], applied, false)
    else UpNext(mode, Up(mode, applied, ps[..|ps| - 1]), ps[|ps| - 1])
  }

  function DownNext(mode: FaultMode, before: Relayed, p: Packet): (r: Relayed)
    requires Encodable(p)
  {
    match OnDown(mode, before.applied, p)
    case Pass => Relayed(before.wire + Frame(p), before.applied, false)
    case Drop => Relayed(before.wire, true, false)
    case Delay => Relayed(before.wire + Frame(p), true, false)
  }

  function Down(mode: FaultMode, applied: bool, ps: seq<Packet>): (r: Relayed)
    requires AllEncodable(ps)
    ensures applied ==> r.applied
    ensures r.applied && !applied ==> mode == DropAck || mode == DelayAck
    ensures !r.ended
    decreases |ps|
  {
    if ps == [] then Relayed([], applied, false)
    else DownNext(mode, Down(mode, applied, ps[..|ps| - 1]), ps[|ps| - 1])
  }

  lemma UpAppend(mode: FaultMode, applied: bool, ps: seq<Packet>, p: Packet)
    requires AllEncodable(ps) && Encodable(p)
    ensures Up(mode, applied, ps + [p]) == UpNext(mode, Up(mode, applied, ps), p)
  {
    hide Frame, Damaged;
    assert (ps + [p])[..|ps|] == ps;
  }

  lemma DownAppend(mode: FaultMode, applied: bool, ps: seq<Packet>, p: Packet)
    requires AllEncodable(ps) && Encodable(p)
    ensures Down(mode, applied, ps + [p]) == DownNext(mode, Down(mode, applied, ps), p)
  {
    hide Frame;
    assert (ps + [p])[..|ps|] == ps;
  }

  // ----- one connection -----

  datatype Cut = NoCut | UpCut | DownCut

  /* What went through one connection: the packets read on each side, the bytes written on each side, which
     side's last write failed, and whether the fault was used up before and after. */
  datatype Passage = Passage(up: seq<Packet>, toReceiver: seq<byte>, down: seq<Packet>, toSender: seq<byte>,
                             cut: Cut, before: bool, after: bool)

  /* The packets that were dealt with in full. */
  function Done(ps: seq<Packet>, cut: bool): (done: seq<Packet>)
    ensures AllEncodable(ps) ==> AllEncodable(done)
  {
    if cut && ps != [] then ps[..|ps| - 1] else ps
  }

  /* wire has all of full, or, if cut, a proper prefix of it that includes done. */
  predicate Written(wire: seq<byte>, done: seq<byte>, full: seq<byte>, cut: bool) {
    if cut then done <= wire && wire < full else wire == full
  }

  /* One connection was relayed as the fault mode demands. Damage counts as applied only once it is written in
     full; the other faults count from the moment the packet is read. Once the connection is left, nothing more
     is read. */
  ghost predicate Follows(mode: FaultMode, x: Passage) {
    AllEncodable(x.up) && AllEncodable(x.down) &&
    var upDone := Up(mode, x.before, Done(x.up, x.cut == UpCut));
    var down := Down(mode, x.before, x.down);
    && Written(x.toReceiver, upDone.wire, Up(mode, x.before, x.up).wire, x.cut == UpCut)
    && Written(x.toSender, Down(mode, x.before, Done(x.down, x.cut == DownCut)).wire, down.wire, x.cut == DownCut)
    && x.after == (upDone.applied || down.applied)
    && !Up(mode, x.before, Done(x.up, true)).ended
  }

  /* The two directions never use up each other's fault. */
  lemma DirectionsIndependent(mode: FaultMode, applied: bool, ups: seq<Packet>, downs: seq<Packet>, p: Packet)
    requires AllEncodable(ups) && AllEncodable(downs)
    ensures var (u, d) := (Up(mode, applied, ups).applied, Down(mode, applied, downs).applied);
      OnUp(mode, u || d, p) == OnUp(mode, u, p) && OnDown(mode, u || d, p) == OnDown(mode, d, p)
  {
    hide Up, Down;
  }

  datatype PollResult = PollFailed | Events(fromSender: bool, fromReceiver: bool, senderGone: bool, receiverGone: bool)

  /* Blocks until there is something to tell; interruptions are repeated. */
  method Poll(s: Stream, r: Stream) returns (e: PollResult)
    requires s != r
    modifies s`signals, s`troubles, s`pending, r`troubles, r`pending
    ensures e.Events? ==> s.pending == e.fromSender && r.pending == e.fromReceiver
    ensures e.Events? ==> e.fromSender || e.fromReceiver || e.senderGone || e.receiverGone
    ensures s.signals <= old(s.signals)
    ensures s.troubles == old(s.troubles) + (if e.PollFailed? then {PollError} else Gone(e.senderGone))
    ensures r.troubles == old(r.troubles) + (if e.PollFailed? then {} else Gone(e.receiverGone))
  {
    var interrupted: bool := *;
    while interrupted && s.signals > 0
      invariant s.signals <= old(s.signals)
      modifies s`signals
      decreases s.signals
    {
      s.signals := s.signals - 1;
      interrupted := *;
    }
    var a: bool, b: bool, g: bool, h: bool := *, *, *, *;
    e := if a || b || g || h then Events(a, b, g, h) else PollFailed;
    s.troubles := s.troubles + if e.PollFailed? then {PollError} else Gone(g);
    r.troubles := r.troubles + if e.PollFailed? then {} else Gone(h);
    s.pending, r.pending := a, b;
  }

  function Gone(gone: bool): set<Trouble> {
    if gone then {HungUp} else {}
  }

  /* The frame with the first payload byte inverted; a packet without payload is an error. */
  method SendCorruptedPacket(c: Stream, p: Packet) returns (ok: bool)
    requires Encodable(p)
    modifies c`outgoing, c`signals, c`troubles
    ensures p.payload == [] ==> !ok && c.outgoing == old(c.outgoing) && c.troubles == old(c.troubles)
    ensures p.payload != [] ==>
              c.troubles == old(c.troubles) + WriteTrouble(ok)
    ensures ok ==> c.outgoing == old(c.outgoing) + Damaged(p)
    ensures !ok && p.payload != [] ==>
              old(c.outgoing) <= c.outgoing && c.outgoing < old(c.outgoing) + Damaged(p)
  {
    hide Frame, Damaged;
    var packet := EncodePacket(p);
    var encoded := packet.value;
    if |encoded| <= HEADER_SIZE {
      return false;
    }
    encoded := encoded[HEADER_SIZE := encoded[HEADER_SIZE] ^ 0xFF];
    DamagedBytes(p, encoded);
    var sent;
    ok, sent := SendAll(c, encoded);
    assert encoded[..|encoded|] == encoded;
  }

  lemma DamagedBytes(p: Packet, encoded: seq<byte>)
    requires Encodable(p) && p.payload != []
    requires encoded == Frame(p)[HEADER_SIZE := Frame(p)[HEADER_SIZE] ^ 0xFF]
    ensures encoded == Damaged(p)
  {
  }

  /* Why no packet could be read of these bytes. */
  predicate ReadsNothing(bytes: seq<byte>, troubles: set<Trouble>) {
    || ReadError in troubles
    || (EndReached in troubles && NextFrame(bytes) == Incomplete)
    || NextFrame(bytes).Bad?
  }

  /* Everything that could be read of one side's bytes has been, and its end or a bad frame been met; or reading
     failed. */
  ghost predicate Exhausted(input: seq<byte>, got: seq<Packet>, troubles: set<Trouble>) {
    || ReadError in troubles
    || (got == Parse(input).packets && (Parse(input).end.Refused? || EndReached in troubles))
  }

  lemma ExhaustedWhen(input: seq<byte>, got: seq<Packet>, rest: seq<byte>, troubles: set<Trouble>)
    requires AllEncodable(got) && input == Frames(got) + rest && ReadsNothing(rest, troubles)
    ensures Exhausted(input, got, troubles)
  {
    hide Parse, Frames, NextFrame;
    ParseThrough(got, rest);
    ParseStep(rest);
    assert got + [] == got;
  }

  /* The mode's own fault has just ended the connection: the first heartbeat was to be withheld, or the first DATA
     packet to be damaged had no payload. */
  predicate FaultEnds(mode: FaultMode, x: Passage) {
    && !x.before && x.up != []
    && var i := |x.up| - 1;
      || (mode == Disconnect && First(x.up, 3) == i)
      || (mode == CorruptData && First(x.up, 1) == i && x.up[i].payload == [])
  }

  lemma FaultEndsWhen(mode: FaultMode, x: Passage)
    requires AllEncodable(x.up) && x.up != []
    requires Up(mode, x.before, x.up).ended && !Up(mode, x.before, x.up[..|x.up| - 1]).ended
    ensures FaultEnds(mode, x)
  {
    hide Frame, Frames, Damaged, Up;
    var i, h, before := First(x.up, DATA), First(x.up, HEARTBEAT), x.up[..|x.up| - 1];
    if !x.before && mode == CorruptData && i < |x.up| {
      CorruptedUp(x.up);
      if i < |before| {
        CorruptedUp(before);
      }
    } else if !x.before && mode == Disconnect && h < |x.up| {
      if h < |before| {
        DisconnectedUp(before);
      }
    } else {
      UpUnchanged(mode, x.before, x.up);
    }
  }

  /* The proxy does not leave a connection without a reason: one side has nothing more to read, a call has failed, a
     side has hung up and no input that poll announced is left unread, or the mode's own fault demands it. */
  ghost predicate Excused(mode: FaultMode, x: Passage, fromSender: seq<byte>, fromReceiver: seq<byte>,
                          st: set<Trouble>, rt: set<Trouble>, pending: bool)
  {
    || PollError in st || ((HungUp in st || HungUp in rt) && !pending) || Unreachable in rt
    || Exhausted(fromSender, x.up, st) || Exhausted(fromReceiver, x.down, rt)
    || (x.cut == UpCut && WriteError in rt) || (x.cut == DownCut && WriteError in st)
    || FaultEnds(mode, x)
  }

  lemma ExcusedByPoll(mode: FaultMode, x: Passage, fromSender: seq<byte>, fromReceiver: seq<byte>,
                      st: set<Trouble>, rt: set<Trouble>, pending: bool)
    ensures PollError in st || ((HungUp in st || HungUp in rt) && !pending) ==>
              Excused(mode, x, fromSender, fromReceiver, st, rt, pending)
  {
    hide Exhausted, FaultEnds;
  }

  /* Whether relaying goes on. */
  datatype Turn = GoOn | Skip | Leave(cut: Cut)

  class Proxy {
    const mode: FaultMode
    var faultApplied: bool

    constructor (mode: FaultMode)
      ensures this.mode == mode && !faultApplied
    {
      this.mode := mode;
      faultApplied := false;
    }

    /* Something arrived from the sender: one frame is read and dealt with. */
    method RelayUp(s: Stream, r: Stream) returns (turn: Turn, ghost got: seq<Packet>)
      requires s != r
      modifies this`faultApplied, s`incoming, s`signals, s`troubles, s`pending, r`outgoing, r`signals, r`troubles
      ensures got == [] ==> turn == Leave(NoCut) && r.outgoing == old(r.outgoing) && faultApplied == old(faultApplied)
      ensures got != [] ==>
                && |got| == 1 && Encodable(got[0]) && old(s.incoming) == Frame(got[0]) + s.incoming
                && var next := UpNext(mode, Relayed(old(r.outgoing), old(faultApplied), false), got[0]);
                && Written(r.outgoing, old(r.outgoing), next.wire, turn == Leave(UpCut))
                && faultApplied == (if turn == Leave(UpCut) then old(faultApplied) else next.applied)
                && (next.ended <==> turn == Leave(NoCut))
      ensures turn != Leave(DownCut)
      ensures old(s.troubles) <= s.troubles && old(r.troubles) <= r.troubles
      ensures got == [] ==> ReadsNothing(old(s.incoming), s.troubles)
      ensures !s.pending
      ensures turn == Leave(UpCut) ==> WriteError in r.troubles
    {
      hide Frame, Damaged, NextFrame;
      got := [];
      var received := ReceivePacket(s);
      if !received.Complete? {
        return Leave(NoCut), got;
      }
      var p := received.value;
      FrameTaken(old(s.incoming), p);
      got := [p];
      if p.kind == DATA && mode == CorruptData && !faultApplied {
        var ok := SendCorruptedPacket(r, p);
        if !ok {
          return Leave(if p.payload == [] then NoCut else UpCut), got;
        }
        faultApplied := true;
        return Skip, got;
      }
      if p.kind == HEARTBEAT && mode == Disconnect && !faultApplied {
        faultApplied := true;
        return Leave(NoCut), got;
      }
      var ok := SendPacket(r, p);
      turn := if ok then GoOn else Leave(UpCut);
    }

    /* Something arrived from the receiver. */
    method RelayDown(s: Stream, r: Stream) returns (turn: Turn, ghost got: seq<Packet>)
      requires s != r
      modifies this`faultApplied, r`incoming, r`signals, r`troubles, r`pending, s`outgoing, s`signals, s`troubles
      ensures got == [] ==> turn == Leave(NoCut) && s.outgoing == old(s.outgoing) && faultApplied == old(faultApplied)
      ensures got != [] ==>
                && |got| == 1 && Encodable(got[0]) && old(r.incoming) == Frame(got[0]) + r.incoming
                && var next := DownNext(mode, Relayed(old(s.outgoing), old(faultApplied), false), got[0]);
                && Written(s.outgoing, old(s.outgoing), next.wire, turn == Leave(DownCut))
                && faultApplied == next.applied && turn != Leave(NoCut)
      ensures turn != Leave(UpCut)
      ensures old(s.troubles) <= s.troubles && old(r.troubles) <= r.troubles
      ensures got == [] ==> ReadsNothing(old(r.incoming), r.troubles)
      ensures !r.pending
      ensures turn == Leave(DownCut) ==> WriteError in s.troubles
    {
      hide Frame, NextFrame;
      got := [];
      var received := ReceivePacket(r);
      if !received.Complete? {
        return Leave(NoCut), got;
      }
      var p := received.value;
      FrameTaken(old(r.incoming), p);
      got := [p];
      if p.kind == ACK && !faultApplied {
        if mode == DropAck {
          faultApplied := true;
          return Skip, got;
        }
        if mode == DelayAck {
          faultApplied := true;
        }
      }
      var ok := SendPacket(s, p);
      turn := if ok then GoOn else Leave(DownCut);
    }

    /* x describes the connection so far, given everything its two ends were going to send. */
    ghost predicate Left(x: Passage, s: Stream, r: Stream, fromSender: seq<byte>, fromReceiver: seq<byte>)
      reads this, s, r
    {
      && Follows(mode, x) && x.after == faultApplied && x.toReceiver == r.outgoing && x.toSender == s.outgoing
      && Frames(x.up) <= fromSender && Frames(x.down) <= fromReceiver
    }

    ghost predicate Relaying(x: Passage, s: Stream, r: Stream, fromSender: seq<byte>, fromReceiver: seq<byte>)
      reads this, s, r
    {
      && Left(x, s, r, fromSender, fromReceiver) && x.cut == NoCut && !Up(mode, x.before, x.up).ended
      && fromSender == Frames(x.up) + s.incoming && fromReceiver == Frames(x.down) + r.incoming
    }

    method TurnUp(s: Stream, r: Stream, ghost x: Passage, ghost fromSender: seq<byte>, ghost fromReceiver: seq<byte>)
      returns (turn: Turn, ghost x': Passage)
      requires s != r && Relaying(x, s, r, fromSender, fromReceiver)
      modifies this`faultApplied, s`incoming, s`signals, s`troubles, s`pending, r`outgoing, r`signals, r`troubles
      ensures x'.before == x.before && Left(x', s, r, fromSender, fromReceiver)
      ensures !turn.Leave? ==> Relaying(x', s, r, fromSender, fromReceiver) && |s.incoming| < |old(s.incoming)|
      ensures old(s.troubles) <= s.troubles && old(r.troubles) <= r.troubles && !s.pending
      ensures turn.Leave? ==>
                Excused(mode, x', fromSender, fromReceiver, s.troubles, r.troubles, s.pending || r.pending)
    {
      hide Frame, Frames, Up, UpNext, Down, DownNext, Exhausted, ReadsNothing, FaultEnds, Follows, Done;
      FollowsEncodable(mode, x);
      ghost var got;
      turn, got := RelayUp(s, r);
      x' := x;
      if got == [] {
        ExhaustedWhen(fromSender, x.up, old(s.incoming), s.troubles);
      }
      if got != [] {
        FramesAppend(x.up, got[0]);
        FollowsUp(mode, x, got[0], r.outgoing, faultApplied, turn == Leave(UpCut));
        x' := x.(up := x.up + [got[0]], toReceiver := r.outgoing, after := faultApplied,
                 cut := if turn == Leave(UpCut) then UpCut else NoCut);
        assert x'.up[..|x'.up| - 1] == x.up;
        if turn == Leave(NoCut) {
          FaultEndsWhen(mode, x');
        }
      }
    }

    method TurnDown(s: Stream, r: Stream, ghost x: Passage, ghost fromSender: seq<byte>, ghost fromReceiver: seq<byte>)
      returns (turn: Turn, ghost x': Passage)
      requires s != r && Relaying(x, s, r, fromSender, fromReceiver)
      modifies this`faultApplied, r`incoming, r`signals, r`troubles, r`pending, s`outgoing, s`signals, s`troubles
      ensures x'.before == x.before && Left(x', s, r, fromSender, fromReceiver)
      ensures !turn.Leave? ==> Relaying(x', s, r, fromSender, fromReceiver) && |r.incoming| < |old(r.incoming)|
      ensures old(s.troubles) <= s.troubles && old(r.troubles) <= r.troubles && !r.pending
      ensures turn.Leave? ==>
                Excused(mode, x', fromSender, fromReceiver, s.troubles, r.troubles, s.pending || r.pending)
    {
      hide Frame, Frames, Up, UpNext, Down, DownNext, Exhausted, ReadsNothing, FaultEnds, Follows, Done;
      FollowsEncodable(mode, x);
      ghost var got;
      turn, got := RelayDown(s, r);
      x' := x;
      if got == [] {
        ExhaustedWhen(fromReceiver, x.down, old(r.incoming), r.troubles);
      }
      if got != [] {
        FramesAppend(x.down, got[0]);
        FollowsDown(mode, x, got[0], s.outgoing, faultApplied, turn == Leave(DownCut));
        x' := x.(down := x.down + [got[0]], toSender := s.outgoing, after := faultApplied,
                 cut := if turn == Leave(DownCut) then DownCut else NoCut);
      }
    }

    /* One round of the loop: poll, and deal with what it tells. */
    method Round(s: Stream, r: Stream, ghost x: Passage, ghost fromSender: seq<byte>, ghost fromReceiver: seq<byte>)
      returns (left: bool, ghost x': Passage)
      requires s != r && Relaying(x, s, r, fromSender, fromReceiver)
      modifies this`faultApplied, s, r
      ensures x'.before == x.before && Left(x', s, r, fromSender, fromReceiver)
      ensures left ==> Excused(mode, x', fromSender, fromReceiver, s.troubles, r.troubles, s.pending || r.pending)
      ensures !left ==> Relaying(x', s, r, fromSender, fromReceiver)
      ensures !left ==> |s.incoming| + |r.incoming| < old(|s.incoming| + |r.incoming|)
    {
      hide Frames, Up, Down, Follows, AllEncodable, Excused;
      x' := x;
      var turn;
      var events := Poll(s, r);
      if events.PollFailed? {
        ExcusedByPoll(mode, x', fromSender, fromReceiver, s.troubles, r.troubles, s.pending || r.pending);
        return true, x';
      }
      if events.fromSender {
        turn, x' := TurnUp(s, r, x', fromSender, fromReceiver);
        if !turn.GoOn? {
          return turn.Leave?, x';
        }
      }
      if events.fromReceiver {
        turn, x' := TurnDown(s, r, x', fromSender, fromReceiver);
        if !turn.GoOn? {
          return turn.Leave?, x';
        }
      }
      left := events.senderGone || events.receiverGone;
      if left {
        ExcusedByPoll(mode, x', fromSender, fromReceiver, s.troubles, r.troubles, s.pending || r.pending);
      }
    }

    /* One connection, from both sides being connected to both being closed. */
    method Relay(s: Stream, r: Stream) returns (ghost x: Passage)
      requires s != r && New(s) && New(r)
      modifies this`faultApplied, s, r
      ensures Follows(mode, x) && x.before == old(faultApplied) && x.after == faultApplied
      ensures Frames(x.up) <= old(s.incoming) && Frames(x.down) <= old(r.incoming)
      ensures x.toReceiver == r.outgoing && x.toSender == s.outgoing
      ensures Excused(mode, x, old(s.incoming), old(r.incoming), s.troubles, r.troubles, s.pending || r.pending)
    {
      hide Frames, Up, Down, Follows, AllEncodable, Excused;
      x := Passage([], [], [], [], NoCut, faultApplied, faultApplied);
      NothingRelayed(mode, faultApplied);
      var left := false;
      while !left
        invariant x.before == old(faultApplied) && Left(x, s, r, old(s.incoming), old(r.incoming))
        invariant !left ==> Relaying(x, s, r, old(s.incoming), old(r.incoming))
        invariant left ==> Excused(mode, x, old(s.incoming), old(r.incoming), s.troubles, r.troubles,
                                   s.pending || r.pending)
        decreases if left then 0 else 1 + |s.incoming| + |r.incoming|
      {
        left, x := Round(s, r, x, old(s.incoming), old(r.incoming));
      }
    }
  }

  lemma FrameTaken(bytes: seq<byte>, p: Packet)
    requires NextFrame(bytes).Got? && NextFrame(bytes).packet == p
    ensures Encodable(p) && bytes == Frame(p) + bytes[NextFrame(bytes).size..]
  {
    GotIsFrame(bytes);
  }

  lemma NothingRelayed(mode: FaultMode, before: bool)
    ensures AllEncodable([]) && Frames([]) == []
    ensures Follows(mode, Passage([], [], [], [], NoCut, before, before)) && !Up(mode, before, []).ended
  {
  }

  lemma FollowsUp(mode: FaultMode, x: Passage, p: Packet, wire: seq<byte>, after: bool, failed: bool)
    requires Follows(mode, x) && x.cut == NoCut && Encodable(p) && !Up(mode, x.before, x.up).ended
    requires var next := UpNext(mode, Relayed(x.toReceiver, x.after, false), p);
      && Written(wire, x.toReceiver, next.wire, failed)
      && after == if failed then x.after else next.applied
    ensures AllEncodable(x.up + [p])
    ensures Follows(mode, x.(up := x.up + [p], toReceiver := wire, after := after,
                             cut := if failed then UpCut else NoCut))
    ensures Up(mode, x.before, x.up + [p]).ended == UpNext(mode, Relayed(x.toReceiver, x.after, false), p).ended
  {
    hide Frame, Damaged, Up, Down;
    UpAppend(mode, x.before, x.up, p);
    DirectionsIndependent(mode, x.before, x.up, x.down, p);
    assert (x.up + [p])[..|x.up|] == x.up;
  }

  lemma FollowsDown(mode: FaultMode, x: Passage, p: Packet, wire: seq<byte>, after: bool, failed: bool)
    requires Follows(mode, x) && x.cut == NoCut && Encodable(p)
    requires var next := DownNext(mode, Relayed(x.toSender, x.after, false), p);
      && Written(wire, x.toSender, next.wire, failed)
      && after == next.applied
    ensures AllEncodable(x.down + [p])
    ensures Follows(mode, x.(down := x.down + [p], toSender := wire, after := after,
                             cut := if failed then DownCut else NoCut))
  {
    hide Frame, Up, Down;
    DownAppend(mode, x.before, x.down, p);
    DirectionsIndependent(mode, x.before, x.up, x.down, p);
    assert (x.down + [p])[..|x.down|] == x.down;
  }

  // ----- what relaying means -----

  /* The position of the first packet of a kind, or the length if there is none. */
  function First(ps: seq<Packet>, kind: byte): (i: nat)
    ensures i <= |ps| && forall j :: 0 <= j < i ==> ps[j].kind != kind
    ensures i < |ps| ==> ps[i].kind == kind
    decreases |ps|
  {
    if ps == [] then 0
    else
      var i := First(ps[..|ps| - 1], kind);
      if i < |ps| - 1 || ps[i].kind == kind then i else |ps|
  }

  function Without(ps: seq<Packet>, i: nat): (qs: seq<Packet>)
    requires i < |ps|
    ensures AllEncodable(ps) ==> AllEncodable(qs)
  {
    ps[..i] + ps[i + 1..]
  }

  /* After the fault, and in the modes that do not concern a direction, it carries frames unchanged. */
  lemma {:induction false} UpUnchanged(mode: FaultMode, applied: bool, ps: seq<Packet>)
    requires AllEncodable(ps)
    requires applied || (mode != CorruptData && mode != Disconnect)
          || (mode == CorruptData && First(ps, DATA) == |ps|) || (mode == Disconnect && First(ps, HEARTBEAT) == |ps|)
    ensures Up(mode, applied, ps) == Relayed(Frames(ps), applied, false)
    decreases |ps|
  {
    hide Frame;
    if ps != [] {
      var before, p := ps[..|ps| - 1], ps[|ps| - 1];
      assert ps == before + [p];
      UpUnchanged(mode, applied, before);
      FramesAppend(before, p);
    }
  }

  lemma {:induction false} DownUnchanged(mode: FaultMode, applied: bool, ps: seq<Packet>)
    requires AllEncodable(ps)
    requires applied || (mode != DropAck && mode != DelayAck) || First(ps, ACK) == |ps|
    ensures Down(mode, applied, ps) == Relayed(Frames(ps), applied, false)
    decreases |ps|
  {
    hide Frame;
    if ps != [] {
      var before, p := ps[..|ps| - 1], ps[|ps| - 1];
      assert ps == before + [p];
      DownUnchanged(mode, applied, before);
      FramesAppend(before, p);
    }
  }

  /* The first DATA packet is damaged and everything else is forwarded; but if it has no payload, the connection
     is left there with the fault still unused. */
  lemma {:induction false} CorruptedUp(ps: seq<Packet>)
    requires AllEncodable(ps) && First(ps, DATA) < |ps|
    ensures var i := First(ps, DATA);
      Up(CorruptData, false, ps) ==
      if ps[i].payload == [] then Relayed(Frames(ps[..i]), false, true)
      else Relayed(Frames(ps[..i]) + Damaged(ps[i]) + Frames(ps[i + 1..]), true, false)
    decreases |ps|
  {
    hide Frame, Damaged, Frames;
    var i := First(ps, DATA);
    var before, p := ps[..|ps| - 1], ps[|ps| - 1];
    if i < |ps| - 1 {
      CorruptedUp(before);
      assert before[..i] == ps[..i];
      assert before[i + 1..] + [p] == ps[i + 1..];
      FramesAppend(before[i + 1..], p);
    } else {
      UpUnchanged(CorruptData, false, before);
      NoFrames(ps[i + 1..]);
    }
  }

  /* The first heartbeat is withheld and the connection left. */
  lemma {:induction false} DisconnectedUp(ps: seq<Packet>)
    requires AllEncodable(ps) && First(ps, HEARTBEAT) < |ps|
    ensures Up(Disconnect, false, ps) == Relayed(Frames(ps[..First(ps, HEARTBEAT)]), true, true)
    decreases |ps|
  {
    hide Frame, Frames;
    var i := First(ps, HEARTBEAT);
    var before := ps[..|ps| - 1];
    if i < |ps| - 1 {
      DisconnectedUp(before);
      assert before[..i] == ps[..i];
    } else {
      UpUnchanged(Disconnect, false, before);
    }
  }

  /* The first ACK is dropped and everything else is passed on; a delay changes neither content nor order. */
  lemma {:induction false} FaultyDown(mode: FaultMode, ps: seq<Packet>)
    requires AllEncodable(ps) && First(ps, ACK) < |ps|
    ensures mode == DropAck ==> Down(mode, false, ps) == Relayed(Frames(Without(ps, First(ps, ACK))), true, false)
    ensures mode == DelayAck ==> Down(mode, false, ps) == Relayed(Frames(ps), true, false)
    decreases |ps|
  {
    hide Frame, Frames;
    var i := First(ps, ACK);
    var before, p := ps[..|ps| - 1], ps[|ps| - 1];
    assert ps == before + [p];
    FramesAppend(before, p);
    if i < |ps| - 1 {
      FaultyDown(mode, before);
      assert Without(before, i) + [p] == Without(ps, i);
      FramesAppend(Without(before, i), p);
    } else {
      DownUnchanged(mode, false, before);
      assert Without(ps, i) == before;
    }
  }

  /* wire carries ps byte for byte, except perhaps (part of) the last frame. */
  ghost predicate Faithful(wire: seq<byte>, ps: seq<Packet>)
    requires AllEncodable(ps)
  {
    wire <= Frames(ps) && Frames(Done(ps, true)) <= wire
  }

  lemma LastEncodable(ps: seq<Packet>)
    requires AllEncodable(ps) && ps != []
    ensures AllEncodable(ps[..|ps| - 1]) && Encodable(ps[|ps| - 1])
  {
  }

  lemma FaithfulWhole(ps: seq<Packet>)
    requires AllEncodable(ps)
    ensures Faithful(Frames(ps), ps)
  {
    hide Frame;
    hide Frames, AllEncodable;
    if ps != [] {
      var init := ps[..|ps| - 1];
      assert ps == init + [ps[|ps| - 1]];
      LastEncodable(ps);
      FramesAppend(init, ps[|ps| - 1]);
    }
  }

  /* The connection failed while the damaged frame was being written, too late: the inverted byte is out, and yet the
     fault counts as unused. */
  ghost predicate LeaksDamage(mode: FaultMode, x: Passage)
    requires AllEncodable(x.up)
  {
    var n := |x.up| - 1;
    && mode == CorruptData && !x.before && x.cut == UpCut && 0 <= n && First(x.up, DATA) == n
    && |x.toReceiver| > |Frames(x.up[..n])| + HEADER_SIZE
  }

  /* Both directions are carried byte for byte, except perhaps (part of) their last frames. */
  ghost predicate Transparent(x: Passage)
    requires AllEncodable(x.up) && AllEncodable(x.down)
  {
    Faithful(x.toReceiver, x.up) && Faithful(x.toSender, x.down)
  }

  /* The first DATA packet is damaged, and nothing else. */
  ghost predicate DamageShows(x: Passage)
    requires AllEncodable(x.up)
  {
    var i := First(x.up, DATA);
    && i < |x.up| && x.up[i].payload != []
    && Frames(x.up[..i]) + Damaged(x.up[i]) <= x.toReceiver
    && Faithful(x.toReceiver[|Frames(x.up[..i])| + |Damaged(x.up[i])|..], x.up[i + 1..])
  }

  /* Exactly the one fault of the mode shows. */
  ghost predicate ShowsFault(mode: FaultMode, x: Passage)
    requires AllEncodable(x.up) && AllEncodable(x.down)
  {
    match mode
    case NoFault => false
    case DropAck =>
      var i := First(x.down, ACK);
      i < |x.down| && Faithful(x.toSender, Without(x.down, i)) && Faithful(x.toReceiver, x.up)
    case DelayAck =>
      First(x.down, ACK) < |x.down| && Faithful(x.toSender, x.down) && Faithful(x.toReceiver, x.up)
    case CorruptData =>
      DamageShows(x) && Faithful(x.toSender, x.down)
    case Disconnect =>
      && 0 < |x.up| && First(x.up, HEARTBEAT) == |x.up| - 1
      && x.toReceiver == Frames(x.up[..|x.up| - 1]) && Faithful(x.toSender, x.down)
  }

  lemma UpSideUnchanged(mode: FaultMode, x: Passage)
    requires Follows(mode, x)
    requires x.before || (mode != CorruptData && mode != Disconnect)
          || (mode == CorruptData && First(x.up, DATA) == |x.up|)
          || (mode == Disconnect && First(x.up, HEARTBEAT) == |x.up|)
    ensures Faithful(x.toReceiver, x.up)
    ensures Up(mode, x.before, Done(x.up, x.cut == UpCut)).applied == x.before
  {
    hide Frame, Frames, Up, Down;
    UpUnchanged(mode, x.before, x.up);
    UpUnchanged(mode, x.before, Done(x.up, x.cut == UpCut));
    FaithfulWhole(x.up);
  }

  lemma UpSideCorrupted(x: Passage)
    requires Follows(CorruptData, x) && !x.before && First(x.up, DATA) < |x.up|
    ensures if Up(CorruptData, x.before, Done(x.up, x.cut == UpCut)).applied then DamageShows(x)
            else Faithful(x.toReceiver, x.up) <==> !LeaksDamage(CorruptData, x)
  {
    hide Frame, Frames, Up, Down, Damaged;
    var n := |x.up| - 1;
    if First(x.up, DATA) < n {
      UpSideCorruptedBefore(x);
    } else {
      var init, p := x.up[..n], x.up[n];
      CorruptedUp(x.up);
      UpUnchanged(CorruptData, false, init);
      FaithfulWhole(x.up);
      NoFrames(x.up[|x.up|..]);
      if x.cut == UpCut {
        assert x.up == init + [p];
        FramesAppend(init, p);
        DamagedPrefix(Frames(init), p, x.toReceiver);
      }
    }
  }

  /* Up to its header a damaged frame is the frame itself; from there on it never is. */
  lemma DamagedPrefix(before: seq<byte>, p: Packet, wire: seq<byte>)
    requires Encodable(p) && p.payload != [] && before <= wire && wire <= before + Damaged(p)
    ensures wire <= before + Frame(p) <==> |wire| <= |before| + HEADER_SIZE
  {
    var f, g := Frame(p), Damaged(p);
    hide Frame;
    Inverted(f[HEADER_SIZE]);
    if |wire| > |before| + HEADER_SIZE {
      assert wire[|before| + HEADER_SIZE] == g[HEADER_SIZE];
    }
  }

  lemma UpSideCorruptedBefore(x: Passage)
    requires Follows(CorruptData, x) && !x.before && First(x.up, DATA) < |x.up| - 1
    ensures Up(CorruptData, x.before, Done(x.up, x.cut == UpCut)).applied && DamageShows(x)
  {
    hide Frame, Frames, Up, Down, Damaged;
    var i, init := First(x.up, DATA), x.up[..|x.up| - 1];
    CorruptedUp(x.up);
    CorruptedUp(init);
    FaithfulWhole(x.up[i + 1..]);
    assert init[..i] == x.up[..i] && Done(x.up[i + 1..], true) == init[i + 1..];
  }

  lemma UpSideDisconnected(x: Passage)
    requires Follows(Disconnect, x) && !x.before && First(x.up, HEARTBEAT) < |x.up|
    ensures First(x.up, HEARTBEAT) == |x.up| - 1 && x.toReceiver == Frames(x.up[..|x.up| - 1]) && x.after
  {
    hide Frame, Frames, Down;
    DisconnectedUp(x.up);
    if First(x.up, HEARTBEAT) < |x.up| - 1 {
      assert x.up[..|x.up| - 1][First(x.up, HEARTBEAT)].kind == HEARTBEAT;
      DisconnectedUp(x.up[..|x.up| - 1]);
    } else {
      UpUnchanged(Disconnect, false, x.up[..|x.up| - 1]);
    }
  }

  lemma DownSide(mode: FaultMode, x: Passage)
    requires Follows(mode, x)
    ensures var down := Down(mode, x.before, x.down);
      if mode == DropAck && !x.before && down.applied
      then First(x.down, ACK) < |x.down| && Faithful(x.toSender, Without(x.down, First(x.down, ACK)))
      else Faithful(x.toSender, x.down)
    ensures mode == DelayAck && !x.before && Down(mode, x.before, x.down).applied ==> First(x.down, ACK) < |x.down|
  {
    hide Frame, Frames, Up, Down;
    var init := Done(x.down, x.cut == DownCut);
    FaithfulWhole(x.down);
    var i := First(x.down, ACK);
    if x.before || (mode != DropAck && mode != DelayAck) || i == |x.down| {
      DownUnchanged(mode, x.before, x.down);
      DownUnchanged(mode, x.before, init);
    } else {
      FaultyDown(mode, x.down);
      FaithfulWhole(Without(x.down, i));
      if i < |init| {
        FaultyDown(mode, init);
        if x.cut == DownCut {
          assert Done(Without(x.down, i), true) == Without(init, i);
        }
      } else {
        DownUnchanged(mode, false, init);
        assert Without(x.down, i) == x.down[..i];
      }
    }
  }

  /* One connection that uses up the fault shows exactly that fault. One that does not is transparent if and only if
     it did not fail in the middle of a damaged frame with the inverted byte already written. */
  lemma PassageMeaning(mode: FaultMode, x: Passage)
    requires Follows(mode, x)
    ensures x.before ==> x.after
    ensures x.after && !x.before ==> ShowsFault(mode, x)
    ensures x.after == x.before ==> (Transparent(x) <==> !LeaksDamage(mode, x))
  {
    hide Frame, Frames, Up, Down, Faithful, DamageShows, Written;
    DownSide(mode, x);
    if mode == CorruptData && !x.before && First(x.up, DATA) < |x.up| {
      UpSideCorrupted(x);
    } else if mode == Disconnect && !x.before && First(x.up, HEARTBEAT) < |x.up| {
      UpSideDisconnected(x);
    } else {
      UpSideUnchanged(mode, x);
    }
  }

  // ----- the whole lifetime -----

  /* One passage per connection; the flag is handed on from each to the next. */
  ghost predicate Lifetime(mode: FaultMode, xs: seq<Passage>, applied: bool) {
    && (forall i :: 0 <= i < |xs| ==> Follows(mode, xs[i]))
    && (forall i :: 0 <= i < |xs| ==> xs[i].before == Before(xs, i))
    && applied == Before(xs, |xs|)
  }

  predicate Before(xs: seq<Passage>, i: nat)
    requires i <= |xs|
  {
    i > 0 && xs[i - 1].after
  }

  lemma {:induction false} FlagStays(mode: FaultMode, xs: seq<Passage>, applied: bool, i: nat, j: nat)
    requires Lifetime(mode, xs, applied) && i < j < |xs| && xs[i].after
    ensures xs[j].before
    decreases j
  {
    hide Follows, Transparent, ShowsFault, LeaksDamage;
    if i < j - 1 {
      FlagStays(mode, xs, applied, i, j - 1);
      PassageMeaning(mode, xs[j - 1]);
    }
  }

  ghost predicate AllRelayed(xs: seq<Passage>) {
    forall i :: 0 <= i < |xs| ==> AllEncodable(xs[i].up) && AllEncodable(xs[i].down)
  }

  /* No two connections of the proxy's life are other than transparent. */
  ghost predicate AtMostOneDeviates(xs: seq<Passage>)
    requires AllRelayed(xs)
  {
    forall i, j :: 0 <= i < j < |xs| ==> Transparent(xs[i]) || Transparent(xs[j])
  }

  /* The fault was used up on this connection. */
  predicate UsesFault(x: Passage) {
    x.after && !x.before
  }

  /* Damage leaked on one connection, and on a later one it leaked again or was applied. */
  ghost predicate DamageRepeats(mode: FaultMode, xs: seq<Passage>)
    requires AllRelayed(xs)
  {
    exists i, j :: 0 <= i < j < |xs| && LeaksDamage(mode, xs[i]) && (LeaksDamage(mode, xs[j]) || UsesFault(xs[j]))
  }

  lemma LifetimeEncodable(mode: FaultMode, xs: seq<Passage>, applied: bool)
    requires Lifetime(mode, xs, applied)
    ensures AllRelayed(xs)
  {
  }

  /* Once the fault is used up, every later connection is transparent. */
  lemma TransparentAfterFault(mode: FaultMode, xs: seq<Passage>, applied: bool, i: nat, j: nat)
    requires Lifetime(mode, xs, applied) && i < j < |xs| && xs[i].after
    ensures AllRelayed(xs) && xs[j].before && Transparent(xs[j])
  {
    hide Transparent, ShowsFault, Follows;
    LifetimeEncodable(mode, xs, applied);
    FlagStays(mode, xs, applied, i, j);
    PassageMeaning(mode, xs[j]);
  }

  /* A connection on which the damaged frame went out whole is not transparent. */
  lemma DamageIsNotFaithful(x: Passage)
    requires AllEncodable(x.up) && DamageShows(x)
    ensures !Faithful(x.toReceiver, x.up)
  {
    hide Frame, Frames, Damaged;
    var i := First(x.up, DATA);
    var before, p, rest := x.up[..i], x.up[i], x.up[i + 1..];
    assert x.up == before + ([p] + rest);
    FramesFirst(p, rest);
    FramesConcat(before, [p] + rest);
    DamagedPrefix(Frames(before), p, Frames(before) + Damaged(p));
    PrefixesDiffer(x.toReceiver, Frames(before) + Damaged(p), Frames(before), Frame(p), Frames(rest));
  }

  lemma PrefixesDiffer(wire: seq<byte>, start: seq<byte>, a: seq<byte>, b: seq<byte>, c: seq<byte>)
    requires start <= wire && |start| == |a + b| && !(start <= a + b)
    ensures !(wire <= a + (b + c))
  {
    var other := a + b;
    var k :| 0 <= k < |start| && start[k] != other[k];
    assert (a + (b + c))[k] == other[k];
  }

  /* In corruption mode a connection deviates exactly when damage leaked on it or was applied on it. */
  lemma DeviatesExactly(x: Passage)
    requires Follows(CorruptData, x)
    ensures Transparent(x) <==> !LeaksDamage(CorruptData, x) && !UsesFault(x)
  {
    hide Follows, Faithful, LeaksDamage, DamageShows, Frame, Frames, Damaged;
    FollowsEncodable(CorruptData, x);
    PassageMeaning(CorruptData, x);
    if UsesFault(x) {
      DamageIsNotFaithful(x);
    }
  }

  /* Over the whole life of the proxy the fault is used up on at most one connection. In corruption mode at most one
     connection deviates from transparency exactly when damage does not repeat; in every other mode at most one does. */
  lemma AtMostOneFault(mode: FaultMode, xs: seq<Passage>, applied: bool)
    requires Lifetime(mode, xs, applied)
    ensures AllRelayed(xs)
    ensures forall i, j :: 0 <= i < j < |xs| && xs[i].after ==> xs[j].before
    ensures AtMostOneDeviates(xs) <==> !DamageRepeats(mode, xs)
    ensures mode != CorruptData ==> AtMostOneDeviates(xs)
  {
    hide Transparent, ShowsFault, Follows, LeaksDamage;
    LifetimeEncodable(mode, xs, applied);
    forall i, j | 0 <= i < j < |xs| && xs[i].after
      ensures xs[j].before && Transparent(xs[j])
    {
      TransparentAfterFault(mode, xs, applied, i, j);
    }
    forall i | 0 <= i < |xs| && xs[i].after == xs[i].before
      ensures Transparent(xs[i]) <==> !LeaksDamage(mode, xs[i])
    {
      PassageMeaning(mode, xs[i]);
    }
    forall i | 0 <= i < |xs| && LeaksDamage(mode, xs[i])
      ensures mode == CorruptData && !Transparent(xs[i]) && !xs[i].after
    {
      LeakIsUnused(mode, xs[i]);
    }
    if mode == CorruptData {
      forall i | 0 <= i < |xs|
        ensures Transparent(xs[i]) <==> !LeaksDamage(mode, xs[i]) && !UsesFault(xs[i])
      {
        DeviatesExactly(xs[i]);
      }
    }
    BeforeStays(mode, xs, applied);
  }

  lemma BeforeStays(mode: FaultMode, xs: seq<Passage>, applied: bool)
    requires Lifetime(mode, xs, applied)
    ensures forall i :: 0 <= i < |xs| && xs[i].before ==> xs[i].after
  {
    hide Transparent, ShowsFault, Follows, LeaksDamage;
    forall i | 0 <= i < |xs| && xs[i].before
      ensures xs[i].after
    {
      PassageMeaning(mode, xs[i]);
    }
  }

  lemma LeakIsUnused(mode: FaultMode, x: Passage)
    requires Follows(mode, x) && LeaksDamage(mode, x)
    ensures mode == CorruptData && !x.before && !x.after && !Transparent(x)
  {
    hide Frame, Frames, Up, Down, Transparent;
    var init := x.up[..|x.up| - 1];
    UpUnchanged(mode, false, init);
    DownUnchanged(mode, false, x.down);
    PassageMeaning(mode, x);
  }

  /* One connection fails 17 bytes into a damaged frame, and the next carries a whole damaged frame: the same DATA
     packet is damaged twice in one life of the proxy. */
  lemma DamagedTwice(p: Packet)
    requires Encodable(p) && p.kind == DATA && |p.payload| > 1
    ensures var a := Passage([p], Damaged(p)[..17], [], [], UpCut, false, false);
      var b := Passage([p], Damaged(p), [], [], NoCut, false, true);
      && Lifetime(CorruptData, [a, b], true)
      && LeaksDamage(CorruptData, a) && !Transparent(a) && ShowsFault(CorruptData, b) && !Transparent(b)
  {
    hide Frame, Damaged, Transparent;
    var a := Passage([p], Damaged(p)[..17], [], [], UpCut, false, false);
    var b := Passage([p], Damaged(p), [], [], NoCut, false, true);
    assert [p][..0] == [];
    assert Up(CorruptData, false, []) == Relayed([], false, false);
    assert [] + Damaged(p) == Damaged(p);
    assert Up(CorruptData, false, [p]) == Relayed(Damaged(p), true, false);
    assert Follows(CorruptData, a) && Follows(CorruptData, b);
    assert First([p], DATA) == 0;
    PassageMeaning(CorruptData, a);
    PassageMeaning(CorruptData, b);
    WholeDamageShows(p, b);
  }

  lemma WholeDamageShows(p: Packet, x: Passage)
    requires Encodable(p) && p.payload != [] && x.up == [p] && x.toReceiver == Damaged(p) && x.down == []
    ensures !Transparent(x)
  {
    hide Frame, Damaged;
    FramesOfOne(p);
    DamagedPrefix([], p, Damaged(p));
    assert [] + Damaged(p) == Damaged(p) && [] + Frame(p) == Frame(p);
  }

  /* x is what was read and written on one pair of connections. */
  ghost predicate Conveys(x: Passage, fromSender: seq<byte>, toReceiver: seq<byte>, fromReceiver: seq<byte>,
                          toSender: seq<byte>)
  {
    && AllEncodable(x.up) && Frames(x.up) <= fromSender && x.toReceiver == toReceiver
    && AllEncodable(x.down) && Frames(x.down) <= fromReceiver && x.toSender == toSender
  }

  ghost predicate New(s: Stream)
    reads s
  {
    s.outgoing == [] && s.troubles == {}
  }

  /* Making the connection to the receiver. */
  method Connect(r: Stream) returns (ok: bool)
    modifies r`troubles
    ensures r.troubles == old(r.troubles) + if ok then {} else {Unreachable}
  {
    ok := *;
    if !ok {
      r.troubles := r.troubles + {Unreachable};
    }
  }

  /* One accepted sender; it is turned away if no connection to the receiver can be made. */
  method ServeSender(proxy: Proxy, s: Stream, r: Stream) returns (ghost x: Passage)
    requires s != r && New(s) && New(r)
    modifies proxy`faultApplied, s, r
    ensures Follows(proxy.mode, x) && x.before == old(proxy.faultApplied) && x.after == proxy.faultApplied
    ensures Conveys(x, old(s.incoming), r.outgoing, old(r.incoming), s.outgoing)
    ensures Excused(proxy.mode, x, old(s.incoming), old(r.incoming), s.troubles, r.troubles, s.pending || r.pending)
  {
    hide Follows, Frames, Frame, Exhausted, FaultEnds;
    var connected := Connect(r);
    if connected {
      x := proxy.Relay(s, r);
      FollowsEncodable(proxy.mode, x);
    } else {
      NothingRelayed(proxy.mode, proxy.faultApplied);
      x := Passage([], [], [], [], NoCut, proxy.faultApplied, proxy.faultApplied);
    }
  }

  lemma FollowsEncodable(mode: FaultMode, x: Passage)
    requires Follows(mode, x)
    ensures AllEncodable(x.up) && AllEncodable(x.down)
  {
  }

  /* The accept loop, over the connections made while the proxy runs. */
  method Serve(proxy: Proxy, senders: seq<Stream>, receivers: seq<Stream>) returns (ghost xs: seq<Passage>)
    requires !proxy.faultApplied && Unused(senders, receivers)
    modifies proxy, senders, receivers
    ensures |xs| == |senders| && Lifetime(proxy.mode, xs, proxy.faultApplied)
    ensures forall i :: 0 <= i < |xs| ==>
              && Conveys(xs[i], old(senders[i].incoming), receivers[i].outgoing, old(receivers[i].incoming),
                         senders[i].outgoing)
              && Excused(proxy.mode, xs[i], old(senders[i].incoming), old(receivers[i].incoming),
                         senders[i].troubles, receivers[i].troubles, senders[i].pending || receivers[i].pending)
  {
    hide Follows, Conveys, Lifetime, Unused, Excused;
    UnusedMeans(senders, receivers);
    xs := [];
    LifetimeBegins(proxy.mode);
    for i := 0 to |senders|
      invariant |xs| == i && Lifetime(proxy.mode, xs, proxy.faultApplied)
      invariant forall k :: i <= k < |senders| ==> unchanged(senders[k]) && unchanged(receivers[k])
      invariant forall k :: 0 <= k < i ==>
                  && Conveys(xs[k], old(senders[k].incoming), receivers[k].outgoing, old(receivers[k].incoming),
                             senders[k].outgoing)
                  && Excused(proxy.mode, xs[k], old(senders[k].incoming), old(receivers[k].incoming),
                             senders[k].troubles, receivers[k].troubles,
                             senders[k].pending || receivers[k].pending)
    {
      ghost var x := ServeSender(proxy, senders[i], receivers[i]);
      LifetimeAppend(proxy.mode, xs, x);
      xs := xs + [x];
    }
  }

  lemma LifetimeBegins(mode: FaultMode)
    ensures Lifetime(mode, [], false)
  {
  }

  lemma LifetimeAppend(mode: FaultMode, xs: seq<Passage>, x: Passage)
    requires Lifetime(mode, xs, x.before) && Follows(mode, x)
    ensures Lifetime(mode, xs + [x], x.after)
  {
    hide Follows;
    var longer := xs + [x];
    forall i | 0 <= i < |longer|
      ensures Follows(mode, longer[i]) && longer[i].before == Before(longer, i)
    {
      if i < |xs| {
        assert longer[i] == xs[i] && Before(longer, i) == Before(xs, i);
      }
    }
  }

  lemma UnusedMeans(senders: seq<Stream>, receivers: seq<Stream>)
    requires Unused(senders, receivers)
    ensures |senders| == |receivers|
    ensures forall i, j :: 0 <= i < j < |senders| ==> senders[i] != senders[j] && receivers[i] != receivers[j]
    ensures forall i, j :: 0 <= i < |senders| && 0 <= j < |receivers| ==> senders[i] != receivers[j]
    ensures forall i :: 0 <= i < |senders| ==> New(senders[i]) && New(receivers[i])
  {
  }

  /* All connections are new, and no two are the same. */
  ghost predicate Unused(senders: seq<Stream>, receivers: seq<Stream>)
    reads senders, receivers
  {
    && |senders| == |receivers|
    && (forall i, j :: 0 <= i < j < |senders| ==> senders[i] != senders[j] && receivers[i] != receivers[j])
    && (forall i, j :: 0 <= i < |senders| && 0 <= j < |receivers| ==> senders[i] != receivers[j])
    && (forall i :: 0 <= i < |senders| ==> New(senders[i]) && New(receivers[i]))
  }

  // ----- what the receiver makes of damage -----

  /* A damaged frame is refused for its checksum, wherever it stands in the stream; nothing before it is lost and
     nothing after it is read. */
  lemma DamageIsRefused(ps: seq<Packet>, p: Packet, more: seq<byte>)
    requires AllEncodable(ps) && Encodable(p) && p.payload != []
    ensures Parse(Frames(ps) + Damaged(p) + more) == Parsed(ps, Refused(CrcMismatch))
  {
    hide Frame, Frames, Damaged, NextFrame;
    NextOfDamaged(p, more);
    ParseThrough(ps, Damaged(p) + more);
    assert Frames(ps) + Damaged(p) + more == Frames(ps) + (Damaged(p) + more);
  }

  lemma NextOfDamaged(p: Packet, more: seq<byte>)
    requires Encodable(p) && p.payload != []
    ensures NextFrame(Damaged(p) + more) == Bad(CrcMismatch)
  {
    hide Frame, Damaged, Decode, PayloadLength;
    var g := Damaged(p);
    DamagedRejected(p);
    DecodeOfFrame(p);
    var bytes := g + more;
    assert bytes[..16] == g[..16] && bytes[16..16 + |p.payload|] == g[16..];
  }

  /* A damaged frame that is cut short is not yet anything. */
  lemma NextOfCutDamaged(p: Packet, k: nat)
    requires Encodable(p) && p.payload != [] && k < |Damaged(p)|
    ensures NextFrame(Damaged(p)[..k]) == Incomplete
  {
    hide Frame, Damaged, Decode, PayloadLength;
    if k >= HEADER_SIZE {
      DamagedRejected(p);
      DecodeOfFrame(p);
      assert Damaged(p)[..k][..16] == Damaged(p)[..16];
    }
  }

  lemma {:induction false} ParseThrough(ps: seq<Packet>, rest: seq<byte>)
    requires AllEncodable(ps)
    ensures Parse(Frames(ps) + rest) == Parsed(ps + Parse(rest).packets, Parse(rest).end)
    decreases |ps|
  {
    hide NextFrame, Frame;
    if ps == [] {
      assert Frames(ps) + rest == rest;
    } else {
      var tail := Frames(ps[1..]) + rest;
      assert Frames(ps) + rest == Frame(ps[0]) + tail;
      NextOfFrame(ps[0], tail);
      ParseThrough(ps[1..], rest);
      assert (Frame(ps[0]) + tail)[|Frame(ps[0])|..] == tail;
    }
  }
}
