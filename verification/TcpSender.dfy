/**
 The TCP sender: frame-aligned reading under one absolute deadline, stale
 responses skipped by completion history, DATA retries, heartbeats, and one
 reconnection for each heartbeat that fails.
 */
module TcpSender {
  import opened Words
  import opened Codec
  import opened Deadlines
  import opened Framing
  import opened Options
  import opened Repetition
  import opened TcpMoves

  const MAX_RECONNECT_ATTEMPTS: nat := 3

  /* Time, in nanoseconds. No call overruns its own limit by more than slack. */
  class Clock {
    const slack: nat
    var now: nat
    ghost var refusals: nat            // attempts to connect that have failed

    constructor (slack: nat, now: nat)
      ensures this.slack == slack && this.now == now && refusals == 0
    {
      this.slack := slack;
      this.now := now;
      refusals := 0;
    }
  }

  datatype PollResult = Ready | NoInput | HangUp | ErrorEvent | PollInterrupted | PollError | Elapsed

  datatype RecvResult = Bytes(data: seq<byte>) | EndOfStream | TryAgain | Reset | RecvError

  datatype SendResult = Sent(count: nat) | SendInterrupted | PeerGone | SendError

  /* The fault that each bad result of a call amounts to. */
  function PollTrouble(r: PollResult): set<Fault> {
    if r.HangUp? || r.ErrorEvent? then {ConnectionLost} else if r.PollError? then {PollFailed} else {}
  }

  function RecvTrouble(r: RecvResult): set<Fault> {
    if r.Reset? || r.EndOfStream? then {ConnectionLost} else if r.RecvError? then {RecvFailed} else {}
  }

  function SendTrouble(r: SendResult): set<Fault> {
    if r.PeerGone? || r == Sent(0) then {ConnectionLost} else if r.SendError? then {SendFailed} else {}
  }

  /** The operating system seen through one connection. incoming holds the bytes the peer gets delivered;
      when, in which pieces, and after which interruptions they arrive is arbitrary. */
  class Connection {
    const clock: Clock
    var incoming: seq<byte>
    var signals: nat
    var open: bool
    ghost var consumed: seq<byte>      // everything read
    ghost var outgoing: seq<byte>      // everything written
    ghost var troubles: set<Fault>     // the failures reported
    ghost var pending: bool            // poll has announced input that has not been read

    constructor (clock: Clock, incoming: seq<byte>, signals: nat)
      ensures this.clock == clock && this.incoming == incoming && open
      ensures consumed == outgoing == [] && troubles == {} && !pending
    {
      this.clock := clock;
      this.incoming := incoming;
      this.signals := signals;
      open := true;
      consumed, outgoing, troubles, pending := [], [], {}, false;
    }

    method Poll(timeoutMs: nat) returns (r: PollResult)
      requires open && timeoutMs > 0
      modifies clock`now, this`troubles, this`pending
      ensures pending == r.Ready?
      ensures old(clock.now) < clock.now <= old(clock.now) + timeoutMs * MS + clock.slack
      ensures r.Elapsed? ==> clock.now >= old(clock.now) + timeoutMs * MS
      ensures troubles == old(troubles) + PollTrouble(r)
      ensures r in {Ready, NoInput, PollInterrupted, Elapsed} ==> troubles == old(troubles)
    {
      var elapsed: nat :| 0 < elapsed <= timeoutMs * MS + clock.slack;
      clock.now := clock.now + elapsed;
      if elapsed >= timeoutMs * MS {
        r := Elapsed;
      } else if * {
        r := Ready;
      } else if * {
        r := NoInput;
      } else if * {
        r := HangUp;
      } else if * {
        r := ErrorEvent;
      } else if * {
        r := PollInterrupted;
      } else {
        r := PollError;
      }
      troubles, pending := troubles + PollTrouble(r), r.Ready?;
    }

    /* A non-blocking read. */
    method Recv(limit: nat) returns (r: RecvResult)
      requires open && limit > 0
      modifies clock`now, this`incoming, this`consumed, this`troubles, this`pending
      ensures !pending
      ensures old(clock.now) <= clock.now <= old(clock.now) + clock.slack
      ensures r.Bytes? ==> 0 < |r.data| <= limit && old(incoming) == r.data + incoming
      ensures r.Bytes? ==> consumed == old(consumed) + r.data
      ensures !r.Bytes? ==> incoming == old(incoming) && consumed == old(consumed)
      ensures troubles == old(troubles) + RecvTrouble(r)
      ensures r.Bytes? || r.TryAgain? ==> troubles == old(troubles)
    {
      var elapsed: nat :| elapsed <= clock.slack;
      clock.now := clock.now + elapsed;
      var delivered: bool := *;
      var ended: bool := *;
      if incoming != [] && delivered {
        var n: nat :| 0 < n <= limit && n <= |incoming|;
        r := Bytes(incoming[..n]);
        incoming, consumed := incoming[n..], consumed + incoming[..n];
      } else if incoming == [] && ended {
        r := EndOfStream;
      } else if * {
        r := TryAgain;
      } else if * {
        r := Reset;
      } else {
        r := RecvError;
      }
      troubles, pending := troubles + RecvTrouble(r), false;
    }

    method Send(data: seq<byte>) returns (r: SendResult)
      requires open && data != []
      modifies clock`now, this`outgoing, this`signals, this`troubles
      ensures clock.now >= old(clock.now)
      ensures r.Sent? ==> r.count <= |data| && outgoing == old(outgoing) + data[..r.count]
      ensures !r.Sent? ==> outgoing == old(outgoing)
      ensures signals <= old(signals) && (r.SendInterrupted? ==> signals < old(signals))
      ensures troubles == old(troubles) + SendTrouble(r)
    {
      var elapsed: nat :| elapsed >= 0;
      clock.now := clock.now + elapsed;
      var interrupted: bool := *;
      if signals > 0 && interrupted {
        signals := signals - 1;
        r := SendInterrupted;
      } else if * {
        r := PeerGone;
      } else if * {
        r := SendError;
      } else {
        var n: nat :| n <= |data|;
        outgoing := outgoing + data[..n];
        r := Sent(n);
      }
      troubles := troubles + SendTrouble(r);
    }

    method Close()
      requires open
      modifies this`open
      ensures !open
    {
      open := false;
    }
  }

  // ----- reading -----

  datatype Read<+T> = Complete(value: T) | ResponseTimeout | Lost | Broke(fault: Fault)

  /* The failures reported once a read has ended like this. */
  function TroublesAfter<T>(before: set<Fault>, r: Read<T>): set<Fault> {
    match r
    case Lost => before + {ConnectionLost}
    case Broke(f) => if f.Undecodable? then before else before + {f}
    case _ => before
  }

  function Limit(c: Connection, deadline: nat): nat
    reads c
  {
    deadline + MS + 2 * c.clock.slack
  }

  /* Exactly size bytes, unless the deadline or the connection's end comes first. taken is what came off the
     stream, and is counted in frameBytes. */
  method RecvExact(c: Connection, size: nat, deadline: nat, frameBytes: nat)
    returns (r: Read<seq<byte>>, frameBytes': nat, ghost taken: seq<byte>)
    requires c.open && c.clock.now < Limit(c, deadline)
    modifies c.clock`now, c`incoming, c`consumed, c`troubles, c`pending
    ensures c.pending ==> old(c.pending)
    ensures old(c.incoming) == taken + c.incoming && c.consumed == old(c.consumed) + taken
    ensures frameBytes' == frameBytes + |taken|
    ensures old(c.clock.now) <= c.clock.now < Limit(c, deadline)
    ensures r.Complete? ==> r.value == taken && |taken| == size
    ensures r.Complete? && size > 0 ==> c.clock.now > old(c.clock.now)
    ensures !r.Complete? ==> |taken| < size
    ensures r.ResponseTimeout? ==> c.clock.now >= deadline
    ensures r.Broke? ==> r.fault in {PollFailed, RecvFailed}
    ensures c.troubles == TroublesAfter(old(c.troubles), r)
  {
    hide CeilMs;
    var buffer: seq<byte> := [];
    taken := [];
    frameBytes' := frameBytes;
    while |buffer| < size
      invariant buffer == taken && |buffer| <= size && c.troubles == old(c.troubles)
      invariant old(c.incoming) == taken + c.incoming && c.consumed == old(c.consumed) + taken
      invariant frameBytes' == frameBytes + |taken|
      invariant old(c.clock.now) <= c.clock.now < Limit(c, deadline)
      invariant |buffer| > 0 ==> c.clock.now > old(c.clock.now)
      invariant c.pending ==> old(c.pending)
      decreases deadline - c.clock.now
    {
      if c.clock.now >= deadline {
        return ResponseTimeout, frameBytes', taken;
      }
      var result := c.Poll(CeilMs(deadline - c.clock.now));
      match result {
        case PollInterrupted => continue;
        case PollError => return Broke(PollFailed), frameBytes', taken;
        case Elapsed => return ResponseTimeout, frameBytes', taken;
        case ErrorEvent => return Lost, frameBytes', taken;
        case HangUp => return Lost, frameBytes', taken;
        case NoInput => continue;
        case Ready =>
      }
      var received := c.Recv(size - |buffer|);
      match received {
        case TryAgain => continue;
        case Reset => return Lost, frameBytes', taken;
        case RecvError => return Broke(RecvFailed), frameBytes', taken;
        case EndOfStream => return Lost, frameBytes', taken;
        case Bytes(data) =>
          Regrouped(taken, data, c.incoming);
          Regrouped(old(c.consumed), taken, data);
          buffer, taken := buffer + data, taken + data;
          frameBytes' := frameBytes' + |data|;
      }
    }
    r := Complete(buffer);
  }

  lemma Regrouped(a: seq<byte>, b: seq<byte>, c: seq<byte>)
    ensures a + (b + c) == (a + b) + c
  {
  }

  /* One packet: exactly the next frame comes off the stream. If it does not come, what came off is the beginning of a
     frame, or already tells that no packet can come of it. frameBytes counts what came off. */
  method ReceivePacket(c: Connection, deadline: nat)
    returns (r: Read<Packet>, frameBytes: nat, ghost taken: seq<byte>)
    requires c.open && c.clock.now < Limit(c, deadline)
    modifies c.clock`now, c`incoming, c`consumed, c`troubles, c`pending
    ensures c.pending ==> old(c.pending)
    ensures old(c.incoming) == taken + c.incoming && c.consumed == old(c.consumed) + taken && frameBytes == |taken|
    ensures old(c.clock.now) <= c.clock.now < Limit(c, deadline)
    ensures r.Complete? ==> NextFrame(old(c.incoming)) == Got(r.value, |taken|) && c.clock.now > old(c.clock.now)
    ensures r.ResponseTimeout? ==> NextFrame(taken) == Incomplete && c.clock.now >= deadline
    ensures r.Lost? ==> BreaksWith(ConnectionLost, taken)
    ensures r.Broke? ==>
              BreaksWith(r.fault, taken) && (r.fault in {PollFailed, RecvFailed} || r.fault.Undecodable?)
    ensures c.troubles == TroublesAfter(old(c.troubles), r)
  {
    hide Decode, PayloadLength;
    var header, bytes, first := RecvExact(c, HEADER_SIZE, deadline, 0);
    frameBytes, taken := bytes, first;
    match header {
      case ResponseTimeout => return ResponseTimeout, frameBytes, taken;
      case Lost => return Lost, frameBytes, taken;
      case Broke(f) => return Broke(f), frameBytes, taken;
      case Complete(_) =>
    }
    assert taken[..16] == header.value;
    var length := PayloadLength(header.value);
    if length.Err? {
      return Broke(Undecodable(length.error)), frameBytes, taken;
    }
    var payload, total, second := RecvExact(c, length.value, deadline, frameBytes);
    frameBytes, taken := total, first + second;
    assert taken[..16] == header.value;
    match payload {
      case ResponseTimeout => return ResponseTimeout, frameBytes, taken;
      case Lost => return Lost, frameBytes, taken;
      case Broke(f) => return Broke(f), frameBytes, taken;
      case Complete(_) =>
    }
    assert taken[16..16 + length.value] == second == payload.value;
    var packet := Decode(header.value, payload.value);
    if packet.Err? {
      return Broke(Undecodable(packet.error)), frameBytes, taken;
    }
    r := Complete(packet.value);
    NextIsFinal(taken, c.incoming);
  }

  predicate OnlyCompleted(ps: seq<Packet>, completed: set<Response>) {
    forall i :: 0 <= i < |ps| ==>
      ps[i].kind in {2, 4} && ps[i].payload == [] && (ps[i].kind, ps[i].sequence) in completed
  }

  /* One wait for a response. What it reads are whole frames, and after them, only if the wait breaks, partial. Only
     when the deadline falls inside a frame is the connection closed. */
  method WaitForResponse(c: Connection, kind: byte, sequence: u32, timeoutMs: nat, completed: set<Response>)
    returns (r: Outcome, completed': set<Response>, ghost stale: seq<Packet>, ghost last: Option<Packet>,
             ghost partial: seq<byte>)
    requires c.open
    modifies c.clock`now, c`incoming, c`consumed, c`troubles, c`pending, c`open
    // which responses are skipped, and which are refused
    ensures OnlyCompleted(stale, completed)
    ensures r == Failed(InvalidResponse) ==>
              last.Some? && (last.value.kind !in {2, 4} || last.value.payload != [])
    ensures r == Failed(UnexpectedResponse) ==>
              && last.Some? && last.value.kind in {2, 4} && last.value.payload == []
              && (last.value.kind, last.value.sequence) !in completed + {(kind, sequence)}
    ensures c.pending ==> old(c.pending)
    ensures Waited(kind, sequence, completed, r, stale, last, partial)
    ensures c.consumed == old(c.consumed) + Consumed(stale, last, partial)
    ensures c.consumed + c.incoming == old(c.consumed) + old(c.incoming)
    ensures c.troubles == old(c.troubles) + Reported(r)
    ensures c.open <==> r != Failed(PartialDeadline)
    ensures completed' == completed + if r.Accepted? then {(kind, sequence)} else {}
    // one absolute deadline
    ensures r in {Accepted, Failed(InvalidResponse), Failed(UnexpectedResponse)} ==>
              c.clock.now < old(c.clock.now) + timeoutMs * MS
    ensures r.TimedOut? || r == Failed(PartialDeadline) ==> c.clock.now >= old(c.clock.now) + timeoutMs * MS
    ensures old(c.clock.now) <= c.clock.now
    ensures c.clock.now < old(c.clock.now) + timeoutMs * MS + MS + 2 * c.clock.slack
    ensures r.Failed? ==>
              r.fault !in {Unencodable, SendFailed, ConnectFailed, RetryLimitExceeded, HeartbeatFailed}
  {
    hide NextFrame, Frame, Frames, AllEncodable, AllStale, OnlyCompleted, BreaksWith;
    var deadline := c.clock.now + timeoutMs * MS;
    stale, last, completed', partial := [], None, completed, [];
    NoFrames(stale);
    NothingStale(kind, sequence, completed);
    while c.clock.now < deadline
      invariant c.open && completed' == completed && last.None? && partial == [] && c.troubles == old(c.troubles)
      invariant AllStale(kind, sequence, completed, stale) && AllEncodable(stale)
      invariant c.consumed == old(c.consumed) + Frames(stale)
      invariant c.consumed + c.incoming == old(c.consumed) + old(c.incoming)
      invariant old(c.clock.now) <= c.clock.now < Limit(c, deadline)
      invariant c.pending ==> old(c.pending)
      invariant OnlyCompleted(stale, completed)
      decreases deadline - c.clock.now
    {
      assert Consumed(stale, None, []) == Frames(stale);
      ghost var consumed := c.consumed;
      var response, frameBytes, taken := ReceivePacket(c, deadline);
      Regrouped(consumed, taken, c.incoming);
      ConsumedMore(old(c.consumed), stale, taken);
      match response {
        case ResponseTimeout =>
          if frameBytes != 0 {
            c.Close();
            CutShort(taken);
            return Failed(PartialDeadline), completed', stale, last, taken;
          }
          return TimedOut, completed', stale, last, partial;
        case Lost => return Failed(ConnectionLost), completed', stale, last, taken;
        case Broke(f) => return Failed(f), completed', stale, last, taken;
        case Complete(p) =>
          FrameTaken(taken + c.incoming, taken, p);
          FramesAppend(stale, p);
          last := Some(p);
          if c.clock.now >= deadline {
            return TimedOut, completed', stale, last, partial;
          }
          if (p.kind != ACK && p.kind != HEARTBEAT_ACK) || p.payload != [] {
            return Failed(InvalidResponse), completed', stale, last, partial;
          }
          if p.kind == kind && p.sequence == sequence {
            completed' := completed' + {(p.kind, p.sequence)};
            return Accepted, completed', stale, last, partial;
          }
          if (p.kind, p.sequence) !in completed' {
            return Failed(UnexpectedResponse), completed', stale, last, partial;
          }
          StaleNext(kind, sequence, completed, stale, p);
          stale, last := stale + [p], None;
      }
    }
    assert Consumed(stale, None, []) == Frames(stale);
    r := TimedOut;
  }

  lemma CutShort(taken: seq<byte>)
    requires taken != [] && NextFrame(taken) == Incomplete
    ensures BreaksWith(PartialDeadline, taken)
  {
    hide NextFrame;
  }

  lemma StaleNext(kind: byte, sequence: u32, completed: set<Response>, stale: seq<Packet>, p: Packet)
    requires AllStale(kind, sequence, completed, stale) && Encodable(p)
    requires Judge(kind, sequence, completed, p) == Stale
    ensures AllStale(kind, sequence, completed, stale + [p]) && AllEncodable(stale + [p])
    ensures OnlyCompleted(stale, completed) ==> OnlyCompleted(stale + [p], completed)
  {
  }

  lemma ConsumedMore(before: seq<byte>, stale: seq<Packet>, taken: seq<byte>)
    requires AllEncodable(stale)
    ensures (before + Frames(stale)) + taken == before + Consumed(stale, None, taken)
    ensures forall p :: Encodable(p) && taken == Frame(p) ==>
              && (before + Frames(stale)) + taken == before + Consumed(stale, Some(p), [])
              && (before + Frames(stale)) + taken == before + (Frames(stale) + taken)
    ensures taken == [] ==> (before + Frames(stale)) + taken == before + Frames(stale)
  {
    hide Frames, Frame, AllEncodable;
  }

  lemma NothingStale(kind: byte, sequence: u32, completed: set<Response>)
    ensures AllStale(kind, sequence, completed, []) && AllEncodable([]) && OnlyCompleted([], completed)
  {
  }

  lemma FrameTaken(bytes: seq<byte>, taken: seq<byte>, p: Packet)
    requires taken <= bytes && NextFrame(bytes) == Got(p, |taken|)
    ensures Encodable(p) && taken == Frame(p)
  {
    GotIsFrame(bytes);
  }

  // ----- writing -----

  method SendAll(c: Connection, data: seq<byte>) returns (r: Option<Fault>)
    requires c.open
    modifies c.clock`now, c`outgoing, c`signals, c`troubles
    ensures r.None? ==> c.outgoing == old(c.outgoing) + data && c.troubles == old(c.troubles)
    ensures r.Some? ==> old(c.outgoing) <= c.outgoing && c.outgoing < old(c.outgoing) + data
    ensures r.Some? ==> r.value in {ConnectionLost, SendFailed} && c.troubles == old(c.troubles) + {r.value}
    ensures c.clock.now >= old(c.clock.now)
  {
    var sent := 0;
    while sent < |data|
      invariant sent <= |data| && c.outgoing == old(c.outgoing) + data[..sent] && c.troubles == old(c.troubles)
      invariant c.clock.now >= old(c.clock.now)
      decreases |data| - sent, c.signals
    {
      var result := c.Send(data[sent..]);
      match result {
        case SendInterrupted => continue;
        case PeerGone => return Some(ConnectionLost);
        case SendError => return Some(SendFailed);
        case Sent(n) =>
          if n == 0 {
            return Some(ConnectionLost);
          }
          assert data[..sent + n] == data[..sent] + data[sent..][..n];
          sent := sent + n;
      }
    }
    r := None;
  }

  method SendPacket(c: Connection, p: Packet) returns (r: Option<Fault>)
    requires c.open
    modifies c.clock`now, c`outgoing, c`signals, c`troubles
    ensures r.None? ==> Encodable(p) && c.outgoing == old(c.outgoing) + Frame(p) && c.troubles == old(c.troubles)
    ensures r.Some? && Encodable(p) ==>
              && old(c.outgoing) <= c.outgoing && c.outgoing < old(c.outgoing) + Frame(p)
              && r.value in {ConnectionLost, SendFailed} && c.troubles == old(c.troubles) + {r.value}
    ensures !Encodable(p) ==>
              r == Some(Unencodable) && c.outgoing == old(c.outgoing) && c.troubles == old(c.troubles)
    ensures c.clock.now >= old(c.clock.now)
  {
    hide Frame;
    var encoded := EncodePacket(p);
    if encoded.Err? {
      return Some(Unencodable);
    }
    r := SendAll(c, encoded.value);
  }

  method ConnectWithRetry(clock: Clock) returns (c: Option<Connection>)
    modifies clock
    ensures c.Some? ==> fresh(c.value) && c.value.clock == clock && c.value.open
    ensures c.Some? ==> TrafficOf(c.value) == Traffic([], [], {}) && !c.value.pending
    ensures if c.None? then clock.refusals == old(clock.refusals) + 3
            else old(clock.refusals) <= clock.refusals < old(clock.refusals) + 3
    ensures clock.now >= old(clock.now)
  {
    var attempt := 1;
    while attempt <= MAX_RECONNECT_ATTEMPTS
      invariant 1 <= attempt <= MAX_RECONNECT_ATTEMPTS + 1
      invariant clock.refusals == old(clock.refusals) + attempt - 1 && clock.now >= old(clock.now)
    {
      var elapsed: nat :| elapsed >= 0;
      clock.now := clock.now + elapsed;
      if * {
        var incoming: seq<byte> := *;
        var signals: nat :| signals >= 0;
        var connection := new Connection(clock, incoming, signals);
        return Some(connection);
      }
      clock.refusals := clock.refusals + 1;
      attempt := attempt + 1;
    }
    c := None;
  }

  // ----- the sender's main loop, told as moves -----

  /* What went over a connection. */
  ghost function TrafficOf(c: Connection): Traffic
    reads c`outgoing, c`consumed, c`troubles
  {
    Traffic(c.outgoing, c.consumed, c.troubles)
  }

  /* A moment: the time, and how many attempts to connect have failed by then. */
  datatype Moment = Moment(now: nat, refusals: nat)

  ghost function Now(clock: Clock): Moment
    reads clock
  {
    Moment(clock.now, clock.refusals)
  }

  /* moves lead to v between the two moments: their waits take their time, and giving up connecting its attempts. */
  ghost predicate Told(plan: Plan, moves: seq<Move>, v: View, began: Moment, m: Moment) {
    && Play(plan, moves) == Some(v) && m.now >= began.now + WaitTime(plan, moves) && m.refusals >= began.refusals
    && (NoConnection in moves ==> m.refusals >= began.refusals + 3)
  }

  /* moves tell exactly what went over c, after what went over the connections before it. */
  ghost predicate Carried(plan: Plan, moves: seq<Move>, past: seq<Traffic>, c: Connection)
    reads c`outgoing, c`consumed, c`troubles
  {
    Play(plan, moves).Some? && Traffics(plan, moves) == past + [TrafficOf(c)]
  }

  /* The move that sending comes to; more is what was written. */
  function SendMove(failure: Option<Fault>, more: seq<byte>): Move {
    match failure
    case None => Send
    case Some(Unencodable) => Refuse
    case Some(f) => CutSend(f, more)
  }

  /* One transmission of the packet of the exchange in progress, and the wait for its response. */
  method Attempt(c: Connection, p: Packet, kind: byte, timeoutMs: nat, completed: set<Response>,
                 ghost plan: Plan, ghost moves: seq<Move>, ghost v: View, ghost past: seq<Traffic>, ghost began: Moment)
    returns (r: Outcome, completed': set<Response>, ghost moves': seq<Move>, ghost v': View)
    requires c.open && Told(plan, moves, v, began, Now(c.clock)) && Carried(plan, moves, past, c)
    requires CanSend(plan, v) && p == Outgoing(plan, v.position) && completed == v.completed
    requires kind == ExpectedKind(v.position) && timeoutMs * MS == Timeout(v.position)
    modifies c.clock`now, c
    ensures Told(plan, moves', v', began, Now(c.clock)) && Carried(plan, moves', past, c) && moves <= moves'
    ensures v' == AfterOutcome(plan, v.(attempts := v.attempts + 1), r) && completed' == v'.completed
    ensures c.open <==> r != Failed(PartialDeadline)
    ensures r.TimedOut? ==>
              && Encodable(p) && c.outgoing == old(c.outgoing) + Frame(p)
              && c.clock.now >= old(c.clock.now) + timeoutMs * MS
    ensures c.clock.now >= old(c.clock.now) && (c.pending ==> old(c.pending))
    ensures r == Failed(ConnectionLost) ==> ConnectionLost in c.troubles
    ensures r.Failed? ==> r.fault !in {RetryLimitExceeded, HeartbeatFailed, ConnectFailed}
  {
    hide Frame, Frames, Play, Traffics, WaitTime, Timeout, Waited, Consumed, Enabled, After, Extended;
    ghost var wire, t := c.outgoing, TrafficOf(c);
    var failure := SendPacket(c, p);
    ghost var m := SendMove(failure, c.outgoing[|wire|..]);
    Sending(plan, v, t, failure, c.outgoing, c.troubles);
    PlayNext(plan, moves, m);
    TrafficsNext(plan, moves, m, past, t);
    moves', v' := moves + [m], After(plan, v, m);
    if failure.Some? {
      return Failed(failure.value), completed, moves', v';
    }
    t := TrafficOf(c);
    ghost var stale, last, partial;
    r, completed', stale, last, partial := WaitForResponse(c, kind, p.sequence, timeoutMs, completed);
    WaitPlayed(plan, moves', v', past, t, r, stale, last, partial);
    moves' := moves' + Hears(stale) + [EndMove(r, last, partial)];
    v' := AfterOutcome(plan, v', r);
  }

  /* What sending makes of the view and the traffic. */
  lemma Sending(plan: Plan, v: View, t: Traffic, failure: Option<Fault>, sent: seq<byte>, troubles: set<Fault>)
    requires CanSend(plan, v) && t.sent <= sent
    requires var p := Outgoing(plan, v.position);
      && (if !Encodable(p) then failure == Some(Unencodable) && sent == t.sent && troubles == t.troubles
          else if failure.None? then sent == t.sent + Frame(p) && troubles == t.troubles
          else && sent < t.sent + Frame(p) && failure.value in {ConnectionLost, SendFailed}
               && troubles == t.troubles + {failure.value})
    ensures var m := SendMove(failure, sent[|t.sent|..]);
      && Enabled(plan, v, m) && !DeadlineComes(m) && m !in {Connect, NoConnection}
      && Extended(plan, v, t, m) == Traffic(sent, t.read, troubles)
      && After(plan, v, m) == if failure.None? then v.(attempts := v.attempts + 1, waiting := true)
                              else AfterOutcome(plan, v.(attempts := v.attempts + 1), Failed(failure.value))
  {
    hide Frame, Outgoing, AfterOutcome;
    assert sent == t.sent + sent[|t.sent|..];
  }

  /* The DATA packet, up to retries + 1 times on one connection. */
  method SendData(c: Connection, payload: seq<byte>, retries: nat,
                  ghost plan: Plan, ghost moves: seq<Move>, ghost past: seq<Traffic>, ghost began: Moment)
    returns (r: Option<Fault>, completed: set<Response>, ghost moves': seq<Move>, ghost v: View)
    requires payload == plan.payload && retries == plan.retries
    requires c.open && Told(plan, moves, START.(lost := false), began, Now(c.clock)) && Carried(plan, moves, past, c)
    modifies c.clock`now, c
    ensures Told(plan, moves', v, began, Now(c.clock)) && Carried(plan, moves', past, c) && moves <= moves'
    ensures v.fault == r && v.completed == completed
    ensures r.None? ==> c.open && v == View(2, 0, false, false, None, completed)
    ensures r.Some? ==> v.position == 1
    ensures c.pending ==> old(c.pending)
    // giving up takes all the copies and all their timeouts
    ensures r == Some(RetryLimitExceeded) ==>
              && AllEncodable(Copies(Packet(1, 1, payload), retries + 1))
              && c.outgoing == old(c.outgoing) + Frames(Copies(Packet(1, 1, payload), retries + 1))
              && c.clock.now >= old(c.clock.now) + (retries + 1) * 1_000_000_000
  {
    hide Frame, Frames, Told, Carried, TrafficOf, Encodable;
    ghost var p := DataPacket(payload);
    completed := {};
    moves', v := moves, START.(lost := false);
    var attempts := 0;
    NoFrames(Copies(p, 0));
    while attempts < retries + 1
      invariant attempts <= retries + 1 && c.open && completed == {}
      invariant v == View(1, attempts, false, false, if attempts <= retries then None else Some(RetryLimitExceeded), {})
      invariant Told(plan, moves', v, began, Now(c.clock)) && Carried(plan, moves', past, c) && moves <= moves'
      invariant c.pending ==> old(c.pending)
      invariant c.clock.now >= old(c.clock.now) + attempts * 1_000_000_000
      invariant AllEncodable(Copies(p, attempts)) && c.outgoing == old(c.outgoing) + Frames(Copies(p, attempts))
    {
      attempts := attempts + 1;
      CopiesNext(p, attempts - 1);
      if Encodable(p) {
        FramesAppend(Copies(p, attempts - 1), p);
      }
      var outcome;
      outcome, completed, moves', v :=
        Attempt(c, DataPacket(payload), ACK, ACK_TIMEOUT_MS, completed, plan, moves', v, past, began);
      match outcome {
        case Accepted => return None, completed, moves', v;
        case Failed(f) => return Some(f), completed, moves', v;
        case TimedOut =>
      }
    }
    r := Some(RetryLimitExceeded);
  }

  /* One heartbeat, with the reconnection it may need. */
  method Heartbeat(c: Connection, sequence: u32, completed: set<Response>,
                   ghost plan: Plan, ghost moves: seq<Move>, ghost past: seq<Traffic>, ghost began: Moment)
    returns (r: Option<Fault>, c': Connection, completed': set<Response>, again: bool,
             ghost moves': seq<Move>, ghost v: View, ghost past': seq<Traffic>)
    requires 2 <= sequence <= plan.heartbeats + 1
    requires c.open && Told(plan, moves, View(sequence, 0, false, false, None, completed), began, Now(c.clock))
    requires Carried(plan, moves, past, c)
    modifies c.clock, c
    ensures Told(plan, moves', v, began, Now(c.clock)) && Carried(plan, moves', past', c') && moves <= moves'
    ensures v.fault == r && v.completed == completed'
    ensures r.None? ==> c'.open && v == View(sequence + 1, 0, false, false, None, completed')
    ensures r.Some? ==> v.position == sequence
    // connections
    ensures c'.clock == c.clock
    ensures if again then fresh(c') && past' == past + [TrafficOf(c)] else c' == c && past' == past
    ensures (c.pending ==> old(c.pending)) && (again ==> !c'.pending)
    // a new connection takes a timeout or a loss
    ensures again || r == Some(ConnectFailed) ==>
              ConnectionLost in c.troubles || c.clock.now >= old(c.clock.now) + 1_000_000_000
    // giving up takes a second copy, on the new connection, and a whole timeout
    ensures r in {Some(HeartbeatFailed), Some(ConnectionLost)} ==> again
    ensures r == Some(HeartbeatFailed) ==>
              && c'.outgoing == Frame(Packet(3, sequence, []))
              && c.clock.now >= old(c.clock.now) + 1_000_000_000
    ensures r == Some(ConnectFailed) ==> c.clock.refusals == old(c.clock.refusals) + 3
    ensures r != Some(RetryLimitExceeded)
  {
    hide Frame, Told, Carried, TrafficOf, AfterOutcome;
    c', again, past' := c, false, past;
    v := View(sequence, 0, false, false, None, completed);
    var p := HeartbeatPacket(sequence);
    assert Encodable(p);
    var outcome;
    Beats(plan, v);
    outcome, completed', moves', v :=
      Attempt(c, p, HEARTBEAT_ACK, HEARTBEAT_TIMEOUT_MS, completed, plan, moves, v, past, began);
    if outcome.Failed? && outcome.fault != ConnectionLost {
      return Some(outcome.fault), c', completed', again, moves', v, past';
    }
    if outcome.Accepted? {
      return None, c', completed', again, moves', v, past';
    }
    c.Close();
    ghost var t, before := TrafficOf(c), Now(c.clock);
    var connected := ConnectWithRetry(c.clock);
    if connected.None? {
      NotConnected(plan, moves', v, began, before, Now(c.clock));
      StillCarried(plan, moves', v, past, c, began, before);
      moves', v := moves' + [NoConnection], v.(fault := Some(ConnectFailed));
      return Some(ConnectFailed), c', completed', again, moves', v, past';
    }
    c', again, past' := connected.value, true, past + [t];
    NothingWritten(c');
    LastCarried(plan, moves', past, c);
    Connected(plan, moves', v, past', c', began, before, Now(c.clock));
    moves', v := moves' + [Connect], v.(lost := false);
    outcome, completed', moves', v :=
      Attempt(c', p, HEARTBEAT_ACK, HEARTBEAT_TIMEOUT_MS, completed', plan, moves', v, past', began);
    match outcome {
      case Failed(f) => r := Some(f);
      case TimedOut =>
        r := Some(HeartbeatFailed);
        assert [] + Frame(p) == Frame(p);
      case Accepted => r := None;
    }
  }

  lemma NothingWritten(c: Connection)
    requires TrafficOf(c) == Traffic([], [], {})
    ensures c.outgoing == []
  {
  }

  /* What becomes of a heartbeat sent once, and of one sent twice. */
  lemma Beats(plan: Plan, v: View)
    requires 2 <= v.position <= plan.heartbeats + 1 && v == View(v.position, 0, false, false, None, v.completed)
    ensures forall r: Outcome :: AfterOutcome(plan, v.(attempts := 1), r) ==
              if r.Accepted? then Passed(v)
              else if r.TimedOut? || r.fault == ConnectionLost then v.(attempts := 1, lost := true)
              else v.(attempts := 1, fault := Some(r.fault))
    ensures forall r: Outcome :: AfterOutcome(plan, v.(attempts := 2), r) ==
              if r.Accepted? then Passed(v)
              else v.(attempts := 2, fault := Some(if r.TimedOut? then HeartbeatFailed else r.fault))
  {
  }

  function Passed(v: View): View
    requires v.position < 0x1_0000_0000
  {
    View(v.position + 1, 0, false, false, None, v.completed + {(ExpectedKind(v.position), v.position)})
  }

  lemma NotConnected(plan: Plan, moves: seq<Move>, v: View, began: Moment, m: Moment, m': Moment)
    requires Told(plan, moves, v, began, m) && InProgress(plan, v) && v.lost
    requires m'.now >= m.now && m'.refusals == m.refusals + 3
    ensures Enabled(plan, v, NoConnection)
    ensures Told(plan, moves + [NoConnection], v.(fault := Some(ConnectFailed)), began, m')
  {
    hide Play, WaitTime;
    PlayNext(plan, moves, NoConnection);
  }

  lemma StillCarried(plan: Plan, moves: seq<Move>, v: View, past: seq<Traffic>, c: Connection, began: Moment,
                     m: Moment)
    requires Told(plan, moves, v, began, m) && Carried(plan, moves, past, c) && InProgress(plan, v) && v.lost
    ensures Carried(plan, moves + [NoConnection], past, c)
  {
    hide Play, WaitTime, Traffics;
    TrafficsNext(plan, moves, NoConnection, past, TrafficOf(c));
  }

  lemma Connected(plan: Plan, moves: seq<Move>, v: View, past: seq<Traffic>, c: Connection, began: Moment, m: Moment,
                  m': Moment)
    requires Told(plan, moves, v, began, m) && InProgress(plan, v) && v.lost
    requires m'.now >= m.now && m'.refusals >= m.refusals
    requires Play(plan, moves).Some? && Traffics(plan, moves) == past && TrafficOf(c) == Traffic([], [], {})
    ensures Told(plan, moves + [Connect], v.(lost := false), began, m')
    ensures Carried(plan, moves + [Connect], past, c)
  {
    hide Play, WaitTime, Traffics;
    PlayNext(plan, moves, Connect);
    TrafficsConnect(plan, moves);
  }

  /* The whole program. moves tell everything it did, and the traffic on its connections is theirs, connection by
     connection. A run that ends without a fault has got past every exchange. */
  method Run(clock: Clock, payload: seq<byte>, retries: nat, heartbeats: nat)
    returns (r: Option<Fault>, completed: set<Response>, ghost moves: seq<Move>, ghost v: View,
             ghost connections: seq<Connection>)
    requires heartbeats + FIRST_HEARTBEAT <= 0x1_0000_0000
    modifies clock
    ensures var plan := Plan(payload, retries, heartbeats);
      && Told(plan, moves, v, old(Now(clock)), Now(clock))
      && |connections| == |Traffics(plan, moves)|
      && forall k :: 0 <= k < |connections| ==>
           fresh(connections[k]) && TrafficOf(connections[k]) == Traffics(plan, moves)[k] && !connections[k].pending
    ensures v.fault == r && v.completed == completed
    ensures r.None? ==> v.position == heartbeats + 2 && completed == {(ACK, 1)} + HeartbeatResponses(heartbeats)
  {
    hide Frame, Told, Carried, TrafficOf, Play, Traffics, HeartbeatResponses;
    ghost var plan, began := Plan(payload, retries, heartbeats), Now(clock);
    moves, v, completed, connections := [], START, {}, [];
    Begun(plan, began);
    var connected := ConnectWithRetry(clock);
    if connected.None? {
      NotConnected(plan, moves, v, began, began, Now(clock));
      NothingCarried(plan);
      moves, v := moves + [NoConnection], v.(fault := Some(ConnectFailed));
      return Some(ConnectFailed), completed, moves, v, connections;
    }
    var c := connected.value;
    ghost var past: seq<Traffic> := [];
    Connected(plan, moves, v, past, c, began, began, Now(clock));
    moves := moves + [Connect];
    r, completed, moves, v := SendData(c, payload, retries, plan, moves, past, began);
    if r.Some? {
      LastCarried(plan, moves, past, c);
      return r, completed, moves, v, [c];
    }
    var count, heartbeatSequence: u32 := 0, FIRST_HEARTBEAT;
    while count < heartbeats
      invariant count <= heartbeats
      invariant count < heartbeats ==> heartbeatSequence == FIRST_HEARTBEAT + count
      invariant c.clock == clock && fresh(c) && c.open && !c.pending
      invariant Told(plan, moves, v, began, Now(clock)) && Carried(plan, moves, past, c)
      invariant v == View(count + 2, 0, false, false, None, completed)
      invariant |connections| == |past| && forall k :: 0 <= k < |past| ==>
                  && connections[k] != c && fresh(connections[k]) && TrafficOf(connections[k]) == past[k]
                  && !connections[k].pending
    {
      var next, again;
      ghost var past';
      r, next, completed, again, moves, v, past' :=
        Heartbeat(c, heartbeatSequence, completed, plan, moves, past, began);
      if again {
        connections := connections + [c];
      }
      c, past := next, past';
      if r.Some? {
        LastCarried(plan, moves, past, c);
        return r, completed, moves, v, connections + [c];
      }
      count := count + 1;
      heartbeatSequence := if heartbeatSequence == 0xFFFF_FFFF then 0 else heartbeatSequence + 1;
    }
    r := None;
    LastCarried(plan, moves, past, c);
    CompleteAtTheEnd(plan, moves, v, began, Now(clock));
    connections := connections + [c];
  }

  lemma Begun(plan: Plan, began: Moment)
    ensures Told(plan, [], START, began, began) && Play(plan, []).Some? && Traffics(plan, []) == []
  {
    NoMoves(plan);
  }

  lemma NothingCarried(plan: Plan)
    ensures Play(plan, [] + [NoConnection]).Some? && Traffics(plan, [] + [NoConnection]) == []
  {
    NoMoves(plan);
    PlayNext(plan, [], NoConnection);
    assert ([] + [NoConnection])[..0] == [];
  }

  lemma LastCarried(plan: Plan, moves: seq<Move>, past: seq<Traffic>, c: Connection)
    requires Carried(plan, moves, past, c)
    ensures Play(plan, moves).Some? && Traffics(plan, moves) == past + [TrafficOf(c)]
  {
  }

  lemma CompleteAtTheEnd(plan: Plan, moves: seq<Move>, v: View, began: Moment, m: Moment)
    requires Told(plan, moves, v, began, m) && v.position == plan.heartbeats + 2
    ensures v.completed == {(ACK, 1)} + HeartbeatResponses(plan.heartbeats)
  {
    hide HeartbeatResponses, Play;
    FinishedPlay(plan, moves);
  }
}
