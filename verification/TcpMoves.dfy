/**
 The TCP sender's decisions: what it makes of a response, of the end of a wait
 and of a lost connection, and where sequences of its moves lead.
 */
module TcpMoves {
  import opened Words
  import opened Codec
  import opened Deadlines
  import opened Framing
  import opened Options
  import opened Repetition

  const ACK_TIMEOUT_MS: nat := 1000
  const HEARTBEAT_TIMEOUT_MS: nat := 1000
  const FIRST_HEARTBEAT: nat := 2

  type Response = (byte, u32)

  datatype Fault =
    | ConnectionLost
    | PartialDeadline
    | InvalidResponse
    | UnexpectedResponse
    | Undecodable(error: Error)
    | Unencodable
    | PollFailed
    | RecvFailed
    | SendFailed
    | ConnectFailed
    | RetryLimitExceeded
    | HeartbeatFailed

  datatype Verdict = Accept | Stale | Reject(fault: Fault)

  /* What the sender makes of a response that arrives in time. */
  function Judge(kind: byte, sequence: u32, completed: set<Response>, p: Packet): (v: Verdict)
    ensures v.Reject? ==> v.fault in {InvalidResponse, UnexpectedResponse}
  {
    if (p.kind != ACK && p.kind != HEARTBEAT_ACK) || p.payload != [] then Reject(InvalidResponse)
    else if p.kind == kind && p.sequence == sequence then Accept
    else if (p.kind, p.sequence) in completed then Stale
    else Reject(UnexpectedResponse)
  }

  /* The only response that is accepted is the one waited for. */
  lemma AcceptExactly(kind: byte, sequence: u32, completed: set<Response>, p: Packet)
    ensures Judge(kind, sequence, completed, p) == Accept <==>
            kind in {ACK, HEARTBEAT_ACK} && p == Packet(kind, sequence, [])
  {
  }

  /* How one transmission and the wait after it end. */
  datatype Outcome = Accepted | TimedOut | Failed(fault: Fault)

  /* What the main loop does next. */
  datatype Decision = Proceed | Again | Reconnect | GiveUp(fault: Fault)

  /* The decision after the given number of attempts at one exchange: DATA is repeated on the same connection as
     long as there are retries, a heartbeat once, on a new connection. */
  function Decide(heartbeat: bool, attempts: nat, retries: nat, outcome: Outcome): Decision {
    match outcome
    case Accepted => Proceed
    case TimedOut =>
      if !heartbeat then (if attempts <= retries then Again else GiveUp(RetryLimitExceeded))
      else if attempts < 2 then Reconnect
      else GiveUp(HeartbeatFailed)
    case Failed(f) =>
      if heartbeat && f == ConnectionLost && attempts < 2 then Reconnect else GiveUp(f)
  }

  // ----- where the sender stands -----

  /* As many heartbeats as there are sequence numbers for them. */
  type HeartbeatCount = n: nat | n + FIRST_HEARTBEAT <= 0x1_0000_0000

  /* What the sender sets out to do. */
  datatype Plan = Plan(payload: seq<byte>, retries: nat, heartbeats: HeartbeatCount)

  /* position is the sequence number of the exchange in progress: 1 for DATA, from 2 on the heartbeats; attempts counts
     its transmissions; lost says that a connection has to be made. */
  datatype View = View(position: nat, attempts: nat, waiting: bool, lost: bool, fault: Option<Fault>,
                       completed: set<Response>)

  const START := View(1, 0, false, true, None, {})

  function DataPacket(payload: seq<byte>): Packet {
    Packet(DATA, 1, payload)
  }

  function HeartbeatPacket(sequence: u32): Packet {
    Packet(HEARTBEAT, sequence, [])
  }

  predicate InProgress(plan: Plan, v: View) {
    v.fault == None && 1 <= v.position <= plan.heartbeats + 1
  }

  predicate Active(plan: Plan, v: View) {
    InProgress(plan, v) && !v.lost
  }

  /* How often the packet of an exchange may be transmitted. */
  function AttemptLimit(plan: Plan, position: nat): nat {
    if position == 1 then plan.retries + 1 else 2
  }

  function Outgoing(plan: Plan, position: nat): Packet
    requires position <= plan.heartbeats + 1
  {
    if position == 1 then DataPacket(plan.payload) else HeartbeatPacket(position)
  }

  function ExpectedKind(position: nat): byte {
    if position == 1 then ACK else HEARTBEAT_ACK
  }

  function Timeout(position: nat): nat {
    (if position == 1 then ACK_TIMEOUT_MS else HEARTBEAT_TIMEOUT_MS) * MS
  }

  predicate CanSend(plan: Plan, v: View) {
    Active(plan, v) && !v.waiting && v.attempts < AttemptLimit(plan, v.position)
  }

  predicate Awaiting(plan: Plan, v: View) {
    Active(plan, v) && v.waiting
  }

  function AfterOutcome(plan: Plan, v: View, outcome: Outcome): (w: View)
    requires v.position <= plan.heartbeats + 1
    ensures !outcome.Accepted? ==> w == v.(waiting := false, lost := w.lost, fault := w.fault)
    ensures w.lost ==> v.lost || v.position > 1
    ensures w.completed == v.completed + if outcome.Accepted? then {(ExpectedKind(v.position), v.position)} else {}
  {
    match Decide(v.position > 1, v.attempts, plan.retries, outcome)
    case Proceed => v.(position := v.position + 1, attempts := 0, waiting := false,
                       completed := v.completed + {(ExpectedKind(v.position), v.position)})
    case Again => v.(waiting := false)
    case Reconnect => v.(waiting := false, lost := true)
    case GiveUp(f) => v.(waiting := false, fault := Some(f))
  }

  function AfterResponse(plan: Plan, v: View, p: Packet): View
    requires Active(plan, v)
  {
    match Judge(ExpectedKind(v.position), v.position, v.completed, p)
    case Accept => AfterOutcome(plan, v, Accepted)
    case Stale => v
    case Reject(f) => AfterOutcome(plan, v, Failed(f))
  }

  // ----- moves -----

  datatype Move =
    | Connect
    | NoConnection
    | Send
    | Refuse                                          // the packet cannot be encoded
    | CutSend(cause: Fault, written: seq<byte>)       // only part of the frame is written
    | Hear(packet: Packet)                            // a response is read in time
    | HearLate(packet: Packet)                        // a response is read, but the deadline has come
    | Expire                                          // the deadline comes between two frames
    | Break(cause: Fault, partial: seq<byte>)         // the wait fails, after these bytes of a frame

  /* The faults that the operating system reports on a connection. */
  function Blame(f: Fault): set<Fault> {
    if f in {ConnectionLost, PollFailed, RecvFailed, SendFailed} then {f} else {}
  }

  /* A wait can fail like this, having read partial. */
  predicate BreaksWith(f: Fault, partial: seq<byte>) {
    if f.Undecodable? then NextFrame(partial) == Bad(f.error)
    else
      && f in {ConnectionLost, PollFailed, RecvFailed, PartialDeadline} && NextFrame(partial) == Incomplete
      && (f == PartialDeadline ==> partial != [])
  }

  predicate Enabled(plan: Plan, v: View, m: Move) {
    match m
    case Connect => InProgress(plan, v) && v.lost
    case NoConnection => InProgress(plan, v) && v.lost
    case Send => CanSend(plan, v) && Encodable(Outgoing(plan, v.position))
    case Refuse => CanSend(plan, v) && !Encodable(Outgoing(plan, v.position))
    case CutSend(f, written) =>
      && CanSend(plan, v) && Encodable(Outgoing(plan, v.position)) && f in {ConnectionLost, SendFailed}
      && written < Frame(Outgoing(plan, v.position))
    case Hear(p) => Awaiting(plan, v) && Encodable(p)
    case HearLate(p) => Awaiting(plan, v) && Encodable(p)
    case Expire => Awaiting(plan, v)
    case Break(f, partial) => Awaiting(plan, v) && BreaksWith(f, partial)
  }

  function After(plan: Plan, v: View, m: Move): View
    requires InProgress(plan, v)
  {
    match m
    case Connect => v.(lost := false)
    case NoConnection => v.(fault := Some(ConnectFailed))
    case Send => v.(attempts := v.attempts + 1, waiting := true)
    case Refuse => AfterOutcome(plan, v.(attempts := v.attempts + 1), Failed(Unencodable))
    case CutSend(f, _) => AfterOutcome(plan, v.(attempts := v.attempts + 1), Failed(f))
    case Hear(p) => if v.lost then v else AfterResponse(plan, v, p)
    case HearLate(_) => AfterOutcome(plan, v, TimedOut)
    case Expire => AfterOutcome(plan, v, TimedOut)
    case Break(f, _) => AfterOutcome(plan, v, Failed(f))
  }

  /* Where moves lead from the start, if each is possible where it is made. */
  function Play(plan: Plan, moves: seq<Move>): Option<View>
    decreases |moves|
  {
    if moves == [] then Some(START)
    else
      var (before, m) := (Play(plan, moves[..|moves| - 1]), moves[|moves| - 1]);
      if before.Some? && Enabled(plan, before.value, m) then Some(After(plan, before.value, m)) else None
  }

  /* What goes over a connection: bytes written, bytes read, and the failures reported. */
  datatype Traffic = Traffic(sent: seq<byte>, read: seq<byte>, troubles: set<Fault>)

  function Extended(plan: Plan, v: View, t: Traffic, m: Move): Traffic
    requires Enabled(plan, v, m)
  {
    match m
    case Send => t.(sent := t.sent + Frame(Outgoing(plan, v.position)))
    case CutSend(f, written) => t.(sent := t.sent + written, troubles := t.troubles + Blame(f))
    case Hear(p) => t.(read := t.read + Frame(p))
    case HearLate(p) => t.(read := t.read + Frame(p))
    case Break(f, partial) => t.(read := t.read + partial, troubles := t.troubles + Blame(f))
    case _ => t
  }

  /* The traffic of moves, connection by connection; each goes over the newest. */
  function Traffics(plan: Plan, moves: seq<Move>): (ts: seq<Traffic>)
    requires Play(plan, moves).Some?
    ensures !Play(plan, moves).value.lost ==> ts != []
    decreases |moves|
  {
    if moves == [] then []
    else
      var (before, m) := (moves[..|moves| - 1], moves[|moves| - 1]);
      var ts := Traffics(plan, before);
      if m == Connect then ts + [Traffic([], [], {})]
      else if ts == [] then ts
      else ts[|ts| - 1 := Extended(plan, Play(plan, before).value, ts[|ts| - 1], m)]
  }

  /* The time that moves have waited for the deadline to come. */
  function WaitTime(plan: Plan, moves: seq<Move>): nat
    requires Play(plan, moves).Some?
    decreases |moves|
  {
    if moves == [] then 0
    else
      var (before, m) := (moves[..|moves| - 1], moves[|moves| - 1]);
      WaitTime(plan, before) + if DeadlineComes(m) then Timeout(Play(plan, before).value.position) else 0
  }

  predicate DeadlineComes(m: Move) {
    m == Expire || m.HearLate? || (m.Break? && m.cause == PartialDeadline)
  }

  lemma NoMoves(plan: Plan)
    ensures Play(plan, []) == Some(START) && Traffics(plan, []) == [] && WaitTime(plan, []) == 0
  {
  }

  lemma PlayNext(plan: Plan, moves: seq<Move>, m: Move)
    requires Play(plan, moves).Some? && Enabled(plan, Play(plan, moves).value, m)
    ensures var v := Play(plan, moves).value;
      && Play(plan, moves + [m]) == Some(After(plan, v, m))
      && WaitTime(plan, moves + [m]) == WaitTime(plan, moves) + if DeadlineComes(m) then Timeout(v.position) else 0
  {
    hide After, Enabled, Timeout;
    assert (moves + [m])[..|moves|] == moves;
  }

  lemma TrafficsNext(plan: Plan, moves: seq<Move>, m: Move, past: seq<Traffic>, t: Traffic)
    requires Play(plan, moves).Some? && Enabled(plan, Play(plan, moves).value, m)
    requires Traffics(plan, moves) == past + [t] && m != Connect
    ensures Play(plan, moves + [m]).Some?
    ensures Traffics(plan, moves + [m]) == past + [Extended(plan, Play(plan, moves).value, t, m)]
  {
    hide After, Enabled, Extended;
    assert (moves + [m])[..|moves|] == moves;
    assert past + [t] == (past + [t])[|past| := t];
  }

  lemma TrafficsConnect(plan: Plan, moves: seq<Move>)
    requires Play(plan, moves).Some? && Enabled(plan, Play(plan, moves).value, Connect)
    ensures Play(plan, moves + [Connect]).Some?
    ensures Traffics(plan, moves + [Connect]) == Traffics(plan, moves) + [Traffic([], [], {})]
  {
    hide After, Enabled, Extended;
    assert (moves + [Connect])[..|moves|] == moves;
  }

  // ----- one wait -----

  ghost predicate AllStale(kind: byte, sequence: u32, completed: set<Response>, ps: seq<Packet>) {
    AllEncodable(ps) && forall i :: 0 <= i < |ps| ==> Judge(kind, sequence, completed, ps[i]) == Stale
  }

  /* A wait fails without a response that decides. */
  predicate Broken(r: Outcome) {
    r.Failed? && r.fault !in {InvalidResponse, UnexpectedResponse}
  }

  /* How a wait ends: the stale responses are skipped, then last decides or comes too late, or the wait fails after the
     bytes in partial. */
  ghost predicate Waited(kind: byte, sequence: u32, completed: set<Response>, r: Outcome, stale: seq<Packet>,
                         last: Option<Packet>, partial: seq<byte>) {
    && AllStale(kind, sequence, completed, stale) && (last.Some? ==> Encodable(last.value))
    && (last.None? ==> r.TimedOut? || Broken(r))
    && (r.Accepted? ==> last.Some? && Judge(kind, sequence, completed, last.value) == Accept)
    && (r.Failed? && last.Some? ==> Judge(kind, sequence, completed, last.value) == Reject(r.fault))
    && (if Broken(r) then last.None? && BreaksWith(r.fault, partial) else partial == [])
  }

  /* The bytes that such a wait reads. */
  function Consumed(stale: seq<Packet>, last: Option<Packet>, partial: seq<byte>): seq<byte>
    requires AllEncodable(stale) && (last.Some? ==> Encodable(last.value))
  {
    Frames(stale) + (if last.Some? then Frame(last.value) else []) + partial
  }

  /* The faults reported meanwhile. */
  function Reported(r: Outcome): set<Fault> {
    if r.Failed? then Blame(r.fault) else {}
  }

  /* One move for each of these responses. */
  function Hears(ps: seq<Packet>): seq<Move> {
    seq(|ps|, i requires 0 <= i < |ps| => Hear(ps[i]))
  }

  /* The move that ends a wait. */
  function EndMove(r: Outcome, last: Option<Packet>, partial: seq<byte>): Move {
    match r
    case Accepted => if last.Some? then Hear(last.value) else Expire
    case TimedOut => if last.Some? then HearLate(last.value) else Expire
    case Failed(f) => if last.Some? then Hear(last.value) else Break(f, partial)
  }

  /* Hearing stale responses leads nowhere. */
  lemma {:induction false} HearStale(plan: Plan, moves: seq<Move>, v: View, past: seq<Traffic>, t: Traffic,
                                     stale: seq<Packet>)
    requires Play(plan, moves) == Some(v) && Awaiting(plan, v) && Traffics(plan, moves) == past + [t]
    requires AllStale(ExpectedKind(v.position), v.position, v.completed, stale)
    ensures var all := moves + Hears(stale);
      && Play(plan, all) == Some(v) && WaitTime(plan, all) == WaitTime(plan, moves)
      && Traffics(plan, all) == past + [t.(read := t.read + Frames(stale))]
    decreases |stale|
  {
    hide Frame, Frames, Encodable, Play, Traffics, WaitTime, Judge, ExpectedKind;
    if stale == [] {
      NoFrames(stale);
      assert moves + Hears(stale) == moves;
      assert t.read + [] == t.read;
    } else {
      var before, p := stale[..|stale| - 1], stale[|stale| - 1];
      HearStale(plan, moves, v, past, t, before);
      var heard, t' := moves + Hears(before), t.(read := t.read + Frames(before));
      StaleLeadsNowhere(plan, v, p);
      PlayNext(plan, heard, Hear(p));
      TrafficsNext(plan, heard, Hear(p), past, t');
      FramesAppend(before, p);
      assert stale == before + [p];
      assert moves + Hears(stale) == heard + [Hear(p)];
      assert Extended(plan, v, t', Hear(p)) == t.(read := t.read + Frames(stale));
    }
  }

  lemma StaleLeadsNowhere(plan: Plan, v: View, p: Packet)
    requires Awaiting(plan, v) && Encodable(p)
    requires Judge(ExpectedKind(v.position), v.position, v.completed, p) == Stale
    ensures Enabled(plan, v, Hear(p)) && After(plan, v, Hear(p)) == v
  {
    hide Judge, ExpectedKind;
  }

  /* The moves of one wait, from its start to its end. */
  lemma WaitPlayed(plan: Plan, moves: seq<Move>, v: View, past: seq<Traffic>, t: Traffic, r: Outcome,
                   stale: seq<Packet>, last: Option<Packet>, partial: seq<byte>)
    requires Play(plan, moves) == Some(v) && Awaiting(plan, v) && Traffics(plan, moves) == past + [t]
    requires Waited(ExpectedKind(v.position), v.position, v.completed, r, stale, last, partial)
    ensures var all := moves + Hears(stale) + [EndMove(r, last, partial)];
      && Play(plan, all) == Some(AfterOutcome(plan, v, r))
      && WaitTime(plan, all) == WaitTime(plan, moves) +
           (if r.TimedOut? || r == Failed(PartialDeadline) then Timeout(v.position) else 0)
      && Traffics(plan, all) ==
           past + [Traffic(t.sent, t.read + Consumed(stale, last, partial), t.troubles + Reported(r))]
      && (NoConnection in all ==> NoConnection in moves)
  {
    hide Frame, Frames, Encodable, Play, Traffics, WaitTime, Timeout, Judge, ExpectedKind, AfterOutcome, NextFrame;
    HearStale(plan, moves, v, past, t, stale);
    var m, t' := EndMove(r, last, partial), t.(read := t.read + Frames(stale));
    PlayNext(plan, moves + Hears(stale), m);
    TrafficsNext(plan, moves + Hears(stale), m, past, t');
    assert Extended(plan, v, t', m) ==
           Traffic(t.sent, t.read + Consumed(stale, last, partial), t.troubles + Reported(r));
  }

  // ----- what every play keeps -----

  function HeartbeatResponses(count: nat): set<Response>
    requires count + FIRST_HEARTBEAT <= 0x1_0000_0000
  {
    if count == 0 then {} else HeartbeatResponses(count - 1) + {(HEARTBEAT_ACK, count + 1)}
  }

  /* The responses to heartbeats 2 through count + 1. */
  lemma {:induction false} HeartbeatResponsesMeaning(count: nat, kind: byte, n: u32)
    requires count + FIRST_HEARTBEAT <= 0x1_0000_0000
    ensures (kind, n) in HeartbeatResponses(count) <==> kind == HEARTBEAT_ACK && 2 <= n <= count + 1
    decreases count
  {
    if count > 0 {
      HeartbeatResponsesMeaning(count - 1, kind, n);
    }
  }

  lemma NoHeartbeats()
    ensures HeartbeatResponses(0) == {}
  {
  }

  lemma HeartbeatResponsesNext(count: nat)
    requires count + 1 + FIRST_HEARTBEAT <= 0x1_0000_0000
    ensures HeartbeatResponses(count + 1) == HeartbeatResponses(count) + {(HEARTBEAT_ACK, FIRST_HEARTBEAT + count)}
  {
  }

  /* The responses collected when the exchanges before position have succeeded. */
  function Collected(plan: Plan, position: nat): set<Response>
    requires position <= plan.heartbeats + 2
  {
    if position <= 1 then {} else {(ACK, 1)} + HeartbeatResponses(position - 2)
  }

  lemma CollectedNext(plan: Plan, position: nat)
    requires 1 <= position <= plan.heartbeats + 1
    ensures Collected(plan, position + 1) == Collected(plan, position) + {(ExpectedKind(position), position)}
  {
    if position > 1 {
      HeartbeatResponsesNext(position - 2);
    } else {
      NoHeartbeats();
    }
  }

  /* No packet is transmitted more often than its limit, and the responses collected are exactly those of the exchanges
     got past. */
  ghost predicate Bounded(plan: Plan, v: View) {
    && 1 <= v.position <= plan.heartbeats + 2
    && v.attempts <= (if v.position == 1 then plan.retries + 1 else 2)
    && (v.position == plan.heartbeats + 2 ==> v.attempts == 0 && !v.lost)
    && v.completed == Collected(plan, v.position) && (v.lost ==> !v.waiting)
    && (v.waiting ==> v.attempts > 0)
  }

  lemma BoundedNext(plan: Plan, v: View, m: Move)
    requires Bounded(plan, v) && Enabled(plan, v, m)
    ensures Bounded(plan, After(plan, v, m))
  {
    hide Collected, Judge, NextFrame, Frame;
    CollectedNext(plan, v.position);
  }

  lemma {:induction false} PlayBounded(plan: Plan, moves: seq<Move>)
    requires Play(plan, moves).Some?
    ensures Bounded(plan, Play(plan, moves).value)
    decreases |moves|
  {
    hide Bounded, Enabled, After;
    if moves == [] {
      StartBounded(plan);
    } else {
      var before := moves[..|moves| - 1];
      PlayBounded(plan, before);
      BoundedNext(plan, Play(plan, before).value, moves[|moves| - 1]);
    }
  }

  lemma StartBounded(plan: Plan)
    ensures Bounded(plan, START)
  {
  }

  /* What hearing a response makes of v, by the response's type, its payload and the exchanges got past. */
  predicate HeardAs(v: View, p: Packet, after: View)
    requires v.position < 0x1_0000_0000
  {
    if p.kind !in {2, 4} || p.payload != [] then after == v.(waiting := false, fault := Some(InvalidResponse))
    else if p.kind == (if v.position == 1 then 2 else 4) && p.sequence == v.position
    then after == View(v.position + 1, 0, false, false, None, v.completed + {(p.kind, p.sequence)})
    else if (if p.kind == 2 then p.sequence == 1 < v.position else 2 <= p.sequence < v.position) then after == v
    else after == v.(waiting := false, fault := Some(UnexpectedResponse))
  }

  lemma HeardMeaning(plan: Plan, moves: seq<Move>)
    requires moves != [] && Play(plan, moves).Some? && moves[|moves| - 1].Hear?
    ensures var before := Play(plan, moves[..|moves| - 1]);
      && before.Some? && before.value.position < 0x1_0000_0000
      && HeardAs(before.value, moves[|moves| - 1].packet, Play(plan, moves).value)
  {
    hide Enabled, After, Bounded, HeardAs;
    PlayBounded(plan, moves[..|moves| - 1]);
    HeardInPlace(plan, Play(plan, moves[..|moves| - 1]).value, moves[|moves| - 1].packet);
  }

  lemma HeardInPlace(plan: Plan, v: View, p: Packet)
    requires Bounded(plan, v) && Enabled(plan, v, Hear(p))
    ensures v.position < 0x1_0000_0000 && HeardAs(v, p, After(plan, v, Hear(p)))
  {
    hide NextFrame, Frame, HeartbeatResponses;
    if 1 < v.position {
      HeartbeatResponsesMeaning(v.position - 2, p.kind, p.sequence);
    }
  }

  /* What a failure makes of v, the packet having been transmitted n times: only a heartbeat's first transmission
     survives it, if it is the loss of the connection. */
  predicate FailedAs(v: View, n: nat, f: Fault, after: View) {
    if v.position >= 2 && n == 1 && f == ConnectionLost then after == v.(attempts := n, waiting := false, lost := true)
    else after == v.(attempts := n, waiting := false, fault := Some(f))
  }

  /* What the end of the wait makes of v. */
  predicate ExpiredAs(plan: Plan, v: View, after: View) {
    if v.position == 1 then
      after == v.(waiting := false, fault := if v.attempts <= plan.retries then None else Some(RetryLimitExceeded))
    else if v.attempts == 1 then after == v.(waiting := false, lost := true)
    else after == v.(waiting := false, fault := Some(HeartbeatFailed))
  }

  /* What a move that is neither Connect, Send nor Hear makes of v. */
  predicate EndsAs(plan: Plan, v: View, m: Move, after: View) {
    match m
    case Refuse => FailedAs(v, v.attempts + 1, Unencodable, after)
    case CutSend(f, _) => FailedAs(v, v.attempts + 1, f, after)
    case Break(f, _) => FailedAs(v, v.attempts, f, after)
    case NoConnection => after == v.(fault := Some(ConnectFailed))
    case Expire => ExpiredAs(plan, v, after)
    case HearLate(_) => ExpiredAs(plan, v, after)
    case _ => true
  }

  lemma FailureMeaning(plan: Plan, moves: seq<Move>)
    requires moves != [] && Play(plan, moves).Some?
    ensures var before := Play(plan, moves[..|moves| - 1]);
      before.Some? && EndsAs(plan, before.value, moves[|moves| - 1], Play(plan, moves).value)
  {
    hide Enabled, After, Bounded, EndsAs;
    PlayBounded(plan, moves[..|moves| - 1]);
    FailedInPlace(plan, Play(plan, moves[..|moves| - 1]).value, moves[|moves| - 1]);
  }

  lemma FailedInPlace(plan: Plan, v: View, m: Move)
    requires Bounded(plan, v) && Enabled(plan, v, m)
    ensures EndsAs(plan, v, m, After(plan, v, m))
  {
    hide NextFrame, Frame, Collected;
  }

  // ----- giving up -----

  /* The account of the DATA exchange, on the one connection there has been: its frame has been written as often as the
     attempts say, and each copy but the one being waited for has taken a second. */
  ghost predicate DataAccounted(plan: Plan, v: View, ts: seq<Traffic>, time: int) {
    var p := DataPacket(plan.payload);
    v.position == 1 && (v.fault == None || v.fault == Some(RetryLimitExceeded)) ==>
      && (v.attempts > 0 ==> Encodable(p))
      && (if v.lost then v.attempts == 0 && !v.waiting && ts == []
          else |ts| == 1 && (Encodable(p) ==> ts[0].sent == Frames(Copies(p, v.attempts))))
      && time == (v.attempts - if v.waiting then 1 else 0) * 1_000_000_000
      && (v.fault == Some(RetryLimitExceeded) ==> v.attempts == plan.retries + 1 && !v.waiting)
  }

  lemma {:induction false} DataSoFar(plan: Plan, moves: seq<Move>)
    requires Play(plan, moves).Some?
    ensures DataAccounted(plan, Play(plan, moves).value, Traffics(plan, moves), WaitTime(plan, moves))
    decreases |moves|
  {
    hide Enabled, After, Extended, DataAccounted, Timeout;
    if moves == [] {
      DataBegins(plan);
    } else {
      var before, m := moves[..|moves| - 1], moves[|moves| - 1];
      var v, ts := Play(plan, before).value, Traffics(plan, before);
      DataSoFar(plan, before);
      OnlyInProgress(plan, v, m);
      PlayBounded(plan, before);
      DataNext(plan, v, m, ts, WaitTime(plan, before));
    }
  }

  lemma DataBegins(plan: Plan)
    ensures DataAccounted(plan, START, [], 0)
  {
  }

  /* How one move changes the connections' traffic. */
  function TrafficsAfter(plan: Plan, v: View, m: Move, ts: seq<Traffic>): seq<Traffic>
    requires Enabled(plan, v, m)
  {
    if m == Connect then ts + [Traffic([], [], {})]
    else if ts == [] then ts
    else ts[|ts| - 1 := Extended(plan, v, ts[|ts| - 1], m)]
  }

  lemma DataNext(plan: Plan, v: View, m: Move, ts: seq<Traffic>, time: int)
    requires Enabled(plan, v, m) && Bounded(plan, v) && DataAccounted(plan, v, ts, time)
    ensures DataAccounted(plan, After(plan, v, m), TrafficsAfter(plan, v, m, ts),
                          time + if DeadlineComes(m) then Timeout(v.position) else 0)
  {
    hide NextFrame, Frame, Frames, Judge, Encodable, Collected, Copies;
    var p := DataPacket(plan.payload);
    if v.position == 1 {
      CopiesNext(p, v.attempts);
      if m == Connect {
        NoFrames(Copies(p, 0));
      } else if m == Send {
        CopiesEncodable(p, v.attempts);
        FramesAppend(Copies(p, v.attempts), p);
      }
    }
  }

  lemma CopiesEncodable(p: Packet, n: nat)
    requires Encodable(p)
    ensures AllEncodable(Copies(p, n))
  {
  }

  /* The account of a heartbeat: its second copy goes out whole on a new connection, and only then is it given up for a
     missing response or a lost connection. */
  ghost predicate BeatAccounted(v: View, ts: seq<Traffic>) {
    && (v.position == 1 ==> v.fault != Some(HeartbeatFailed))
    && (2 <= v.position < 0x1_0000_0000 ==>
          && v.fault != Some(RetryLimitExceeded) && ts != []
          && (v.fault in {Some(HeartbeatFailed), Some(ConnectionLost)} ==> v.attempts == 2)
          && (v.attempts == 2 ==> |ts| >= 2 && (v.fault == None ==> v.waiting))
          && (v.attempts == 1 && v.fault == None && !v.waiting && !v.lost ==> |ts| >= 2 && ts[|ts| - 1].sent == [])
          && (v.attempts == 2 && (v.waiting || v.fault == Some(HeartbeatFailed)) ==>
                ts[|ts| - 1].sent == Frame(HeartbeatPacket(v.position))))
  }

  lemma {:induction false} BeatSoFar(plan: Plan, moves: seq<Move>)
    requires Play(plan, moves).Some?
    ensures BeatAccounted(Play(plan, moves).value, Traffics(plan, moves))
    decreases |moves|
  {
    hide Enabled, After, Extended, BeatAccounted, AtBoundary;
    if moves == [] {
      BeatBegins();
    } else {
      var before, m := moves[..|moves| - 1], moves[|moves| - 1];
      BeatSoFar(plan, before);
      OnlyInProgress(plan, Play(plan, before).value, m);
      PlayBounded(plan, before);
      GoesOnAtBoundary(plan, before);
      BeatNext(plan, Play(plan, before).value, m, Traffics(plan, before));
    }
  }

  lemma BeatBegins()
    ensures BeatAccounted(START, [])
  {
  }

  lemma BeatNext(plan: Plan, v: View, m: Move, ts: seq<Traffic>)
    requires Enabled(plan, v, m) && Bounded(plan, v) && BeatAccounted(v, ts) && AtBoundary(v, ts)
    ensures BeatAccounted(After(plan, v, m), TrafficsAfter(plan, v, m, ts))
  {
    hide NextFrame, Frame, Frames, Judge, Collected, Whole;
    if m == Send && ts != [] {
      assert [] + Frame(Outgoing(plan, v.position)) == Frame(Outgoing(plan, v.position));
    }
  }

  /* DATA is given up only after retries + 1 whole copies and a second's wait for each; a heartbeat only after a second
     copy on a new connection. */
  lemma GivesUpOnlyAfter(plan: Plan, moves: seq<Move>)
    requires Play(plan, moves).Some?
    ensures var (v, ts) := (Play(plan, moves).value, Traffics(plan, moves));
      && (v.fault == Some(RetryLimitExceeded) ==>
            && v.position == 1 && |ts| == 1 && |plan.payload| <= 1024
            && ts[0].sent == Frames(Copies(Packet(1, 1, plan.payload), plan.retries + 1))
            && WaitTime(plan, moves) == (plan.retries + 1) * 1_000_000_000)
      && (v.fault == Some(HeartbeatFailed) ==>
            2 <= v.position <= plan.heartbeats + 1 && |ts| >= 2
            && ts[|ts| - 1].sent == Frame(Packet(3, v.position, [])))
      && (v.fault == Some(ConnectionLost) && v.position >= 2 ==> v.attempts == 2 && |ts| >= 2)
  {
    hide Enabled, After, Extended, Frame, Frames, Collected;
    PlayBounded(plan, moves);
    DataSoFar(plan, moves);
    BeatSoFar(plan, moves);
    if moves != [] {
      FaultInProgress(plan, Play(plan, moves[..|moves| - 1]).value, moves[|moves| - 1]);
    }
  }

  lemma FaultInProgress(plan: Plan, v: View, m: Move)
    requires Enabled(plan, v, m)
    ensures After(plan, v, m).fault.Some? ==> 1 <= After(plan, v, m).position <= plan.heartbeats + 1
  {
    hide NextFrame, Frame;
  }

  /* A heartbeat can be sent a second time only right after a new connection was made. */
  lemma SecondOnNewConnection(plan: Plan, moves: seq<Move>)
    requires Play(plan, moves).Some?
    requires var v := Play(plan, moves).value; CanSend(plan, v) && v.position > 1 && v.attempts > 0
    ensures moves != [] && moves[|moves| - 1] == Connect
  {
    hide Judge, NextFrame, Frame;
  }

  /* An exchange is got past only by hearing its response. */
  lemma PassedByResponse(plan: Plan, moves: seq<Move>)
    requires moves != [] && Play(plan, moves).Some?
    ensures var (before, after) := (Play(plan, moves[..|moves| - 1]), Play(plan, moves));
      && before.Some?
      && (after.value.position != before.value.position <==>
            && Awaiting(plan, before.value)
            && moves[|moves| - 1] == Hear(Packet(ExpectedKind(before.value.position), before.value.position, [])))
  {
    hide NextFrame, Frame;
    var v, m := Play(plan, moves[..|moves| - 1]).value, moves[|moves| - 1];
    if m.Hear? {
      AcceptExactly(ExpectedKind(v.position), v.position, v.completed, m.packet);
    }
  }

  /* A response is awaited on the connection that its request was sent on. */
  lemma {:induction false} AskedHere(plan: Plan, moves: seq<Move>) returns (j: nat)
    requires Play(plan, moves).Some? && Awaiting(plan, Play(plan, moves).value)
    ensures j < |moves| && moves[j] == Send && Connect !in moves[j..]
    ensures Play(plan, moves[..j]).Some? && Play(plan, moves[..j]).value.position == Play(plan, moves).value.position
    decreases |moves|
  {
    hide Enabled, After, Awaiting, Bounded;
    NotAwaitingYet(plan);
    var before, m := moves[..|moves| - 1], moves[|moves| - 1];
    PlayBounded(plan, before);
    StillAwaiting(plan, Play(plan, before).value, m);
    if m == Send {
      j := |moves| - 1;
    } else {
      j := AskedHere(plan, before);
      assert moves[..j] == before[..j] && moves[j..] == before[j..] + [m];
    }
  }

  lemma NotAwaitingYet(plan: Plan)
    ensures !Awaiting(plan, START)
  {
  }

  lemma StillAwaiting(plan: Plan, v: View, m: Move)
    requires Bounded(plan, v) && Enabled(plan, v, m) && Awaiting(plan, After(plan, v, m))
    ensures m == Send || (m.Hear? && Awaiting(plan, v))
    ensures After(plan, v, m).position == v.position
  {
    hide NextFrame, Frame, Judge, Collected;
  }

  /* As long as the sender goes on with a connection, whole frames have been written to it and read from it. */
  ghost predicate AtBoundary(v: View, ts: seq<Traffic>) {
    v.fault == None && !v.lost ==> ts != [] && Whole(ts[|ts| - 1].sent) && Whole(ts[|ts| - 1].read)
  }

  lemma {:induction false} GoesOnAtBoundary(plan: Plan, moves: seq<Move>)
    requires Play(plan, moves).Some?
    ensures AtBoundary(Play(plan, moves).value, Traffics(plan, moves))
    decreases |moves|
  {
    hide Enabled, After, Extended, Whole;
    if moves != [] {
      var before, m := moves[..|moves| - 1], moves[|moves| - 1];
      var v, ts := Play(plan, before).value, Traffics(plan, before);
      GoesOnAtBoundary(plan, before);
      OnlyInProgress(plan, v, m);
      if m == Connect {
        NewBoundary();
      } else if ts != [] {
        BoundaryNext(plan, v, m, ts[|ts| - 1]);
      }
    }
  }

  lemma OnlyInProgress(plan: Plan, v: View, m: Move)
    requires Enabled(plan, v, m)
    ensures InProgress(plan, v)
  {
    hide NextFrame, Frame, Judge;
  }

  lemma NewBoundary()
    ensures Whole([])
  {
    NothingLeft();
  }

  lemma BoundaryNext(plan: Plan, v: View, m: Move, t: Traffic)
    requires Enabled(plan, v, m) && m != Connect && (!v.lost ==> Whole(t.sent) && Whole(t.read))
    ensures var w, t' := After(plan, v, m), Extended(plan, v, t, m);
      w.fault == None && !w.lost ==> Whole(t'.sent) && Whole(t'.read)
  {
    hide NextFrame, Frame, Judge, Whole, Outgoing, Parse;
    if m.Send? {
      WholeNext(t.sent, Outgoing(plan, v.position));
    } else if m.Hear? || m.HearLate? {
      WholeNext(t.read, m.packet);
    }
  }

  lemma WholeNext(bytes: seq<byte>, p: Packet)
    requires Whole(bytes) && Encodable(p)
    ensures Whole(bytes + Frame(p))
  {
    hide Frame, Parse;
    ParseAppend(bytes, p);
  }

  /* A play without fault that has got past every exchange has collected exactly the expected responses. */
  lemma FinishedPlay(plan: Plan, moves: seq<Move>)
    requires Play(plan, moves).Some? && Play(plan, moves).value.position == plan.heartbeats + 2
    ensures Play(plan, moves).value.completed == {(ACK, 1)} + HeartbeatResponses(plan.heartbeats)
    ensures forall n :: 1 <= n <= plan.heartbeats + 1 ==> Hear(Packet(ExpectedKind(n), n, [])) in moves
  {
    PlayBounded(plan, moves);
    forall n | 1 <= n <= plan.heartbeats + 1
      ensures Hear(Packet(ExpectedKind(n), n, [])) in moves
    {
      ResponseHeard(plan, moves, n);
    }
  }

  lemma {:induction false} ResponseHeard(plan: Plan, moves: seq<Move>, n: nat)
    requires Play(plan, moves).Some? && 1 <= n < Play(plan, moves).value.position && n <= plan.heartbeats + 1
    ensures Hear(Packet(ExpectedKind(n), n, [])) in moves
    decreases |moves|
  {
    hide Enabled, After, Awaiting;
    if moves != [] {
      var before := moves[..|moves| - 1];
      PassedByResponse(plan, moves);
      PositionGrows(plan, moves);
      if n < Play(plan, before).value.position {
        ResponseHeard(plan, before, n);
      }
    }
  }

  lemma PositionGrows(plan: Plan, moves: seq<Move>)
    requires moves != [] && Play(plan, moves).Some?
    ensures Play(plan, moves).value.position <= Play(plan, moves[..|moves| - 1]).value.position + 1
  {
    hide NextFrame, Frame, Judge;
  }
}
