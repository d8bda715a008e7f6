/**
 The UDP sender: stop and wait, one absolute deadline for each attempt, and a
 history of completed sequence numbers that tells stale acknowledgements from
 wrong ones.
 */
module UdpSender {
  import opened Words
  import opened Codec
  import opened Deadlines
  import opened Deliveries
  import opened Options
  import opened Repetition

  const ACK_TIMEOUT: nat := 1000 * MS

  datatype Failure =
    | PollFailed
    | SocketError
    | ReceiveFailed
    | SendFailed
    | PartialSend
    | Uncodable(error: Error)
    | ExpectedEmptyAck
    | SequenceMismatch
    | RetryLimitExceeded

  datatype Verdict = Accept | Stale | Reject(failure: Failure)

  /* What the sender makes of a datagram that arrives in time. */
  function Judge(expected: u32, completed: set<u32>, arrival: Result<Packet>): Verdict {
    match arrival
    case Err(e) => Reject(Uncodable(e))
    case Ok(p) =>
      if p.kind != ACK || p.payload != [] then Reject(ExpectedEmptyAck)
      else if p.sequence == expected then Accept
      else if p.sequence in completed then Stale
      else Reject(SequenceMismatch)
  }

  datatype PollResult = Ready | NoInput | Elapsed | Interrupted | PollError | ErrorEvent

  /** The operating system seen through one UDP socket. Its choices are arbitrary; every call takes time,
      and none overruns by more than slack. */
  class Socket {
    const slack: nat
    var now: nat
    ghost var sent: seq<seq<byte>>
    ghost var received: seq<seq<byte>>
    ghost var troubles: set<Failure>       // the failures reported so far
    ghost var pending: bool                // poll has announced a datagram that has not been read

    constructor (slack: nat, now: nat)
      ensures this.slack == slack && this.now == now && sent == [] && received == [] && troubles == {}
      ensures !pending
    {
      this.slack := slack;
      this.now := now;
      sent, received, troubles, pending := [], [], {}, false;
    }

    method Poll(timeoutMs: nat) returns (r: PollResult)
      requires timeoutMs > 0
      modifies this`now, this`troubles, this`pending
      ensures pending == r.Ready?
      ensures old(now) < now <= old(now) + timeoutMs * MS + slack
      ensures r.Elapsed? ==> now >= old(now) + timeoutMs * MS
      ensures r.PollError? ==> troubles == old(troubles) + {PollFailed}
      ensures r.ErrorEvent? ==> troubles == old(troubles) + {SocketError}
      ensures !r.PollError? && !r.ErrorEvent? ==> troubles == old(troubles)
    {
      var elapsed: nat :| 0 < elapsed <= timeoutMs * MS + slack;
      now := now + elapsed;
      if elapsed >= timeoutMs * MS {
        r := Elapsed;
      } else if * {
        r := Ready;
      } else if * {
        r := NoInput;
      } else if * {
        r := Interrupted;
      } else if * {
        r := PollError;
        troubles := troubles + {PollFailed};
      } else {
        r := ErrorEvent;
        troubles := troubles + {SocketError};
      }
      pending := r.Ready?;
    }

    method ReceiveFrom() returns (datagram: Option<seq<byte>>)
      modifies this`now, this`received, this`troubles, this`pending
      ensures !pending
      ensures old(now) <= now <= old(now) + slack
      ensures datagram.None? ==> received == old(received) && troubles == old(troubles) + {ReceiveFailed}
      ensures datagram.Some? ==> received == old(received) + [datagram.value] && troubles == old(troubles)
    {
      var elapsed: nat :| elapsed <= slack;
      now := now + elapsed;
      pending := false;
      if * {
        datagram := None;
        troubles := troubles + {ReceiveFailed};
      } else {
        var d: seq<byte> := *;
        received := received + [d];
        datagram := Some(d);
      }
    }

    /* The number of bytes sent, or nothing on an error. */
    method SendTo(datagram: seq<byte>) returns (count: Option<nat>)
      modifies this`now, this`sent, this`troubles
      ensures now >= old(now)
      ensures count == Some(|datagram|) ==> sent == old(sent) + [datagram] && troubles == old(troubles)
      ensures count != Some(|datagram|) ==> sent == old(sent)
      ensures count.None? ==> troubles == old(troubles) + {SendFailed}
      ensures count.Some? && count.value != |datagram| ==> troubles == old(troubles) + {PartialSend}
    {
      var elapsed: nat :| elapsed >= 0;
      now := now + elapsed;
      if * {
        count := None;
        troubles := troubles + {SendFailed};
      } else {
        var n: nat :| n >= 0;
        count := Some(n);
        if n == |datagram| {
          sent := sent + [datagram];
        } else {
          troubles := troubles + {PartialSend};
        }
      }
    }
  }

  datatype Outcome = Accepted | TimedOut | Failed(failure: Failure)

  /* Stale acknowledgements only. */
  ghost predicate AllStale(expected: u32, completed: set<u32>, datagrams: seq<seq<byte>>) {
    forall i :: 0 <= i < |datagrams| ==> Judge(expected, completed, ReceiveDatagram(datagrams[i])) == Stale
  }

  function DataPacket(item: Item): Packet {
    Packet(DATA, item.sequence, item.payload)
  }

  // ----- the sender's moves -----

  /* Where the main loop stands: the item being sent, how often it has been sent, whether its acknowledgement is
     awaited, how the program has failed, and the numbers acknowledged. */
  datatype View = View(index: nat, attempts: nat, waiting: bool, failure: Option<Failure>, completed: set<u32>)

  datatype Move =
    | Send
    | Hear(datagram: seq<byte>)            // a datagram is read and judged
    | Expire(late: Option<seq<byte>>)      // the deadline comes, perhaps with a datagram read too late
    | GiveUp
    | Break(failure: Failure)              // a call fails

  predicate Sending(items: seq<Item>, v: View) {
    v.failure == None && v.index < |items|
  }

  predicate Enabled(items: seq<Item>, retries: nat, v: View, m: Move) {
    Sending(items, v) &&
    match m
    case Send => !v.waiting && v.attempts <= retries
    case Hear(d) => v.waiting
    case Expire(late) => v.waiting && (late.Some? ==> ReceiveDatagram(late.value).Ok?)
    case GiveUp => !v.waiting && v.attempts == retries + 1
    case Break(f) =>
      if v.waiting then f in {PollFailed, SocketError, ReceiveFailed}
      else v.attempts <= retries && f in {SendFailed, PartialSend}
  }

  function After(items: seq<Item>, v: View, m: Move): View
    requires Sending(items, v)
  {
    match m
    case Send =>
      if Encodable(DataPacket(items[v.index])) then v.(waiting := true, attempts := v.attempts + 1)
      else v.(failure := Some(Uncodable(PayloadTooLarge)))
    case Hear(d) => AfterDatagram(items, v, d)
    case Expire(_) => v.(waiting := false)
    case GiveUp => v.(failure := Some(RetryLimitExceeded))
    case Break(f) => v.(failure := Some(f))
  }

  function AfterDatagram(items: seq<Item>, v: View, d: seq<byte>): View
    requires Sending(items, v)
  {
    match Judge(items[v.index].sequence, v.completed, ReceiveDatagram(d))
    case Accept => View(v.index + 1, 0, false, None, v.completed + {items[v.index].sequence})
    case Stale => v
    case Reject(f) => v.(failure := Some(f))
  }

  /* Where moves lead from start, if each is possible where it is made. */
  function Play(items: seq<Item>, retries: nat, start: View, moves: seq<Move>): Option<View>
    decreases |moves|
  {
    if moves == [] then Some(start)
    else
      var (before, m) := (Play(items, retries, start, moves[..|moves| - 1]), moves[|moves| - 1]);
      if before.Some? && Enabled(items, retries, before.value, m) then Some(After(items, before.value, m)) else None
  }

  /* What a move puts on the wire. */
  function Emitted(items: seq<Item>, v: View, m: Move): seq<seq<byte>>
    requires Sending(items, v)
  {
    if m == Send && Encodable(DataPacket(items[v.index])) then [Frame(DataPacket(items[v.index]))] else []
  }

  /* What moves put on the wire. */
  function Sent(items: seq<Item>, retries: nat, start: View, moves: seq<Move>): seq<seq<byte>>
    requires Play(items, retries, start, moves).Some?
    decreases |moves|
  {
    if moves == [] then []
    else
      var (before, m) := (moves[..|moves| - 1], moves[|moves| - 1]);
      var v := Play(items, retries, start, before).value;
      Sent(items, retries, start, before) + Emitted(items, v, m)
  }

  /* What came in. */
  function Heard(moves: seq<Move>): seq<seq<byte>>
    decreases |moves|
  {
    if moves == [] then []
    else
      var m := moves[|moves| - 1];
      Heard(moves[..|moves| - 1]) +
        if m.Hear? then [m.datagram] else if m.Expire? && m.late.Some? then [m.late.value] else []
  }

  /* How often the deadline came. */
  function Timeouts(moves: seq<Move>): nat
    decreases |moves|
  {
    if moves == [] then 0 else Timeouts(moves[..|moves| - 1]) + if moves[|moves| - 1].Expire? then 1 else 0
  }

  /* The failed calls. */
  function Troubles(moves: seq<Move>): set<Failure>
    decreases |moves|
  {
    if moves == [] then {}
    else
      var before := Troubles(moves[..|moves| - 1]);
      if moves[|moves| - 1].Break? then before + {moves[|moves| - 1].failure} else before
  }

  lemma PlayNext(items: seq<Item>, retries: nat, start: View, moves: seq<Move>, m: Move)
    requires Play(items, retries, start, moves).Some?
    requires Enabled(items, retries, Play(items, retries, start, moves).value, m)
    ensures var v := Play(items, retries, start, moves).value;
      && Play(items, retries, start, moves + [m]) == Some(After(items, v, m))
      && Sent(items, retries, start, moves + [m]) == Sent(items, retries, start, moves) + Emitted(items, v, m)
    ensures Heard(moves + [m]) == Heard(moves) +
            if m.Hear? then [m.datagram] else if m.Expire? && m.late.Some? then [m.late.value] else []
    ensures Timeouts(moves + [m]) == Timeouts(moves) + if m.Expire? then 1 else 0
    ensures Troubles(moves + [m]) == if m.Break? then Troubles(moves) + {m.failure} else Troubles(moves)
  {
    hide Frame, After, Enabled;
    assert (moves + [m])[..|moves|] == moves;
  }

  lemma NoMoves(items: seq<Item>, retries: nat, start: View)
    ensures Play(items, retries, start, []) == Some(start) && Sent(items, retries, start, []) == []
    ensures Heard([]) == [] && Timeouts([]) == 0 && Troubles([]) == {}
  {
  }

  /* Whatever the moves, no item is sent more than retries + 1 times, only encodable items are got past, and the history
     is what it was and the numbers of the items got past. */
  lemma {:induction false} PlayBounds(items: seq<Item>, retries: nat, start: View, moves: seq<Move>)
    requires start.index == start.attempts == 0 && !start.waiting && Play(items, retries, start, moves).Some?
    ensures var v := Play(items, retries, start, moves).value;
      && v.index <= |items| && v.attempts <= retries + 1
      && v.completed == start.completed + Sequences(items[..v.index])
      && (forall i :: 0 <= i < v.index ==> Encodable(DataPacket(items[i])))
      && (v.waiting && v.index < |items| ==> Encodable(DataPacket(items[v.index])) && v.attempts > 0)
    decreases |moves|
  {
    hide Sequences, Encodable, ReceiveDatagram;
    if moves == [] {
      NoSequences(items[..0]);
    } else {
      var before := moves[..|moves| - 1];
      PlayBounds(items, retries, start, before);
      var v := Play(items, retries, start, before).value;
      SequencesAppend(items[..v.index], items[v.index]);
      assert items[..v.index + 1] == items[..v.index] + [items[v.index]];
    }
  }

  /* An item is got past only by hearing its acknowledgement. */
  lemma PassedByAck(items: seq<Item>, retries: nat, start: View, moves: seq<Move>)
    requires moves != [] && Play(items, retries, start, moves).Some?
    ensures var before := Play(items, retries, start, moves[..|moves| - 1]);
      var after := Play(items, retries, start, moves);
      && before.Some? && before.value.index < |items|
      && (after.value.index != before.value.index <==>
            && moves[|moves| - 1].Hear?
            && ReceiveDatagram(moves[|moves| - 1].datagram) == Ok(Packet(ACK, items[before.value.index].sequence, [])))
  {
    hide ReceiveDatagram, Frame;
    var v := Play(items, retries, start, moves[..|moves| - 1]).value;
    if moves[|moves| - 1].Hear? {
      AcceptExactly(items[v.index].sequence, v.completed, ReceiveDatagram(moves[|moves| - 1].datagram));
    }
  }

  /* What hearing a datagram leads to, by its type, its payload and the numbers acknowledged before. */
  lemma HeardMeaning(items: seq<Item>, retries: nat, start: View, moves: seq<Move>)
    requires start.index == start.attempts == 0 && !start.waiting && Play(items, retries, start, moves).Some?
    requires moves != [] && moves[|moves| - 1].Hear?
    ensures var arrival := ReceiveDatagram(moves[|moves| - 1].datagram);
      var before := Play(items, retries, start, moves[..|moves| - 1]);
      var after := Play(items, retries, start, moves).value;
      before.Some? && before.value.index < |items| && var v := before.value;
      if arrival.Err? then after == v.(failure := Some(Uncodable(arrival.error)))
      else
        var p := arrival.value;
        if p.kind != 2 || p.payload != [] then after == v.(failure := Some(ExpectedEmptyAck))
        else if p.sequence == items[v.index].sequence
        then after == View(v.index + 1, 0, false, None, v.completed + {p.sequence})
        else if p.sequence in start.completed || p.sequence in Sequences(items[..v.index]) then after == v
        else after == v.(failure := Some(SequenceMismatch))
  {
    hide ReceiveDatagram, Frame, Sequences;
    PlayBounds(items, retries, start, moves[..|moves| - 1]);
  }

  /* What sending, the deadline and a failed call lead to. */
  lemma OtherwiseMeaning(items: seq<Item>, retries: nat, start: View, moves: seq<Move>)
    requires moves != [] && Play(items, retries, start, moves).Some?
    ensures var (before, m) := (Play(items, retries, start, moves[..|moves| - 1]), moves[|moves| - 1]);
      var after := Play(items, retries, start, moves).value;
      before.Some? && before.value.index < |items| && var v := before.value;
      && (m.Send? ==>
            after == if |items[v.index].payload| <= 1024 then v.(attempts := v.attempts + 1, waiting := true)
                     else v.(failure := Some(Uncodable(PayloadTooLarge))))
      && (m.Expire? ==> after == v.(waiting := false))
      && (m.Break? ==> after == v.(failure := Some(m.failure)))
  {
    hide ReceiveDatagram, Frame;
  }

  /* The account of one item: its frame has been sent as often as the attempts say, and each copy but the one being
     waited for has taken a whole timeout. */
  predicate Accounted(items: seq<Item>, v: View, began: seq<seq<byte>>, sent: seq<seq<byte>>, timeouts: int)
    requires v.index < |items|
  {
    && (v.attempts > 0 ==> Encodable(DataPacket(items[v.index])))
    && (Encodable(DataPacket(items[v.index])) ==>
          sent == began + Copies(Frame(DataPacket(items[v.index])), v.attempts))
    && timeouts == v.attempts - (if v.waiting then 1 else 0)
  }

  lemma AccountBegins(items: seq<Item>, v: View, sent: seq<seq<byte>>)
    requires v.index < |items| && v.attempts == 0 && !v.waiting
    ensures Accounted(items, v, sent, sent, 0)
  {
    hide Frame, Encodable;
    assert sent + [] == sent;
  }

  lemma AccountNext(items: seq<Item>, retries: nat, v: View, m: Move, began: seq<seq<byte>>, sent: seq<seq<byte>>,
                    timeouts: int)
    requires Enabled(items, retries, v, m) && Accounted(items, v, began, sent, timeouts)
    ensures var w := After(items, v, m);
      if w.index == v.index
      then Accounted(items, w, began, sent + Emitted(items, v, m), timeouts + if m.Expire? then 1 else 0)
      else w == View(v.index + 1, 0, false, None, w.completed)
  {
    hide ReceiveDatagram, Frame, Encodable, Judge, Copies;
    if Encodable(DataPacket(items[v.index])) {
      CopiesNext(Frame(DataPacket(items[v.index])), v.attempts);
    }
    assert sent + [] == sent;
  }

  /* The play of the item in progress began after the first n moves, and accounts for all since. */
  lemma {:induction false} ItemSoFar(items: seq<Item>, retries: nat, start: View, moves: seq<Move>) returns (n: nat)
    requires start.index == start.attempts == 0 && !start.waiting && start.failure == None
    requires Play(items, retries, start, moves).Some? && Play(items, retries, start, moves).value.index < |items|
    ensures n <= |moves|
    ensures var v := Play(items, retries, start, moves).value;
      && Play(items, retries, start, moves[..n]) == Some(View(v.index, 0, false, None, v.completed))
      && Accounted(items, v, Sent(items, retries, start, moves[..n]), Sent(items, retries, start, moves),
                   Timeouts(moves) - Timeouts(moves[..n]))
    decreases |moves|
  {
    hide Enabled, After, Accounted, Emitted;
    if moves == [] {
      n := 0;
      assert moves[..0] == [];
      AccountBegins(items, start, []);
    } else {
      var before, m := moves[..|moves| - 1], moves[|moves| - 1];
      var u, v := Play(items, retries, start, before).value, Play(items, retries, start, moves).value;
      OnlySending(items, retries, u, m);
      n := ItemSoFar(items, retries, start, before);
      assert before[..n] == moves[..n];
      AccountNext(items, retries, u, m, Sent(items, retries, start, moves[..n]), Sent(items, retries, start, before),
                  Timeouts(before) - Timeouts(moves[..n]));
      if u.index == v.index {
        HistoryStays(items, retries, u, m);
      } else {
        n := |moves|;
        assert moves[..n] == moves;
        AccountBegins(items, v, Sent(items, retries, start, moves));
      }
    }
  }

  lemma OnlySending(items: seq<Item>, retries: nat, v: View, m: Move)
    requires Enabled(items, retries, v, m)
    ensures Sending(items, v)
  {
    hide ReceiveDatagram;
  }

  lemma HistoryStays(items: seq<Item>, retries: nat, v: View, m: Move)
    requires Enabled(items, retries, v, m) && After(items, v, m).index == v.index
    ensures After(items, v, m).completed == v.completed
  {
    hide ReceiveDatagram, Frame, Judge;
  }

  /* Only retries + 1 copies of the current item's frame, each followed by a whole timeout, end in giving up. */
  lemma GiveUpNeeds(items: seq<Item>, retries: nat, start: View, moves: seq<Move>) returns (n: nat)
    requires start.index == start.attempts == 0 && !start.waiting && start.failure == None
    requires Play(items, retries, start, moves).Some?
    requires Play(items, retries, start, moves).value.failure == Some(RetryLimitExceeded)
    ensures var v := Play(items, retries, start, moves).value;
      && v.index < |items| && Encodable(DataPacket(items[v.index]))
      && n <= |moves| && Play(items, retries, start, moves[..n]) == Some(View(v.index, 0, false, None, v.completed))
      && Sent(items, retries, start, moves) ==
           Sent(items, retries, start, moves[..n]) + Copies(Frame(DataPacket(items[v.index])), retries + 1)
      && Timeouts(moves) == Timeouts(moves[..n]) + retries + 1
  {
    hide Enabled, After, Emitted, Frame, Encodable, Copies;
    GivenUp(items, retries, Play(items, retries, start, moves[..|moves| - 1]).value, moves[|moves| - 1]);
    n := ItemSoFar(items, retries, start, moves);
  }

  lemma GivenUp(items: seq<Item>, retries: nat, v: View, m: Move)
    requires Enabled(items, retries, v, m) && After(items, v, m).failure == Some(RetryLimitExceeded)
    ensures After(items, v, m) == v.(failure := Some(RetryLimitExceeded))
    ensures v.index < |items| && v.attempts == retries + 1 && !v.waiting
  {
    hide ReceiveDatagram, Frame;
  }

  // ----- the sender -----

  /* The state of the sender and its socket when a play begins. */
  datatype Origin = Origin(view: View, sent: seq<seq<byte>>, received: seq<seq<byte>>, now: nat, troubles: set<Failure>)

  /* The datagram is an empty ACK with one of these numbers. */
  predicate IsEmptyAck(datagram: seq<byte>, numbers: set<u32>) {
    var arrival := ReceiveDatagram(datagram);
    arrival.Ok? && arrival.value.kind == 2 && arrival.value.payload == [] && arrival.value.sequence in numbers
  }

  class Sender {
    const socket: Socket
    var completed: set<u32>

    constructor (socket: Socket)
      ensures this.socket == socket && completed == {}
    {
      this.socket := socket;
      completed := {};
    }

    /* One wait for the acknowledgement of expected. The stale datagrams that arrive first are skipped under
       the same deadline; last is the datagram that decided, if one did. */
    method WaitForAck(expected: u32) returns (r: Outcome, ghost stale: seq<seq<byte>>, ghost last: Option<seq<byte>>)
      modifies this`completed, socket`now, socket`received, socket`troubles, socket`pending
      ensures socket.received == old(socket.received) + stale + (if last.Some? then [last.value] else [])
      ensures AllStale(expected, old(completed), stale)
      ensures forall i :: 0 <= i < |stale| ==> IsEmptyAck(stale[i], old(completed) - {expected})
      ensures !socket.pending
      ensures completed == old(completed) + if r.Accepted? then {expected} else {}
      // the deadline is never renewed
      ensures old(socket.now) <= socket.now < old(socket.now) + ACK_TIMEOUT + MS + 2 * socket.slack
      ensures r.Accepted? ==> socket.now < old(socket.now) + ACK_TIMEOUT
      ensures r.Accepted? ==> last.Some? && Judge(expected, old(completed), ReceiveDatagram(last.value)) == Accept
      ensures r.TimedOut? ==> socket.now >= old(socket.now) + ACK_TIMEOUT
      ensures r.TimedOut? && last.Some? ==> ReceiveDatagram(last.value).Ok?
      ensures r.Failed? && last.Some? ==>
              Judge(expected, old(completed), ReceiveDatagram(last.value)) == Reject(r.failure)
      ensures r in {Failed(ExpectedEmptyAck), Failed(SequenceMismatch)} ==> socket.now < old(socket.now) + ACK_TIMEOUT
      ensures r.Failed? && last.None? ==>
                r.failure in {PollFailed, SocketError, ReceiveFailed}
      ensures r != Failed(RetryLimitExceeded)
      // a failed call ends the wait
      ensures socket.troubles ==
              if r.Failed? && last.None? then old(socket.troubles) + {r.failure} else old(socket.troubles)
    {
      hide ReceiveDatagram;
      stale, last := [], None;
      var deadline := socket.now + ACK_TIMEOUT;
      while true
        invariant completed == old(completed) && last.None?
        invariant socket.received == old(socket.received) + stale
        invariant AllStale(expected, completed, stale)
        invariant socket.troubles == old(socket.troubles)
        invariant old(socket.now) <= socket.now < deadline + MS + 2 * socket.slack
        invariant socket.now > old(socket.now) ==> !socket.pending
        invariant forall i :: 0 <= i < |stale| ==> IsEmptyAck(stale[i], completed - {expected})
        decreases deadline - socket.now
      {
        if socket.now >= deadline {
          return TimedOut, stale, last;
        }
        var result := socket.Poll(CeilMs(deadline - socket.now));
        match result {
          case Interrupted => continue;
          case NoInput => continue;
          case PollError => return Failed(PollFailed), stale, last;
          case Elapsed => return TimedOut, stale, last;
          case ErrorEvent => return Failed(SocketError), stale, last;
          case Ready =>
        }
        var datagram := socket.ReceiveFrom();
        if datagram.None? {
          return Failed(ReceiveFailed), stale, last;
        }
        last := datagram;
        var arrival := ReceiveDatagram(datagram.value);
        if arrival.Err? {
          return Failed(Uncodable(arrival.error)), stale, last;
        }
        if socket.now >= deadline {
          return TimedOut, stale, last;
        }
        var ack := arrival.value;
        if ack.kind != ACK || ack.payload != [] {
          return Failed(ExpectedEmptyAck), stale, last;
        }
        if ack.sequence == expected {
          completed := completed + {ack.sequence};
          return Accepted, stale, last;
        }
        if ack.sequence !in completed {
          return Failed(SequenceMismatch), stale, last;
        }
        stale, last := stale + [datagram.value], None;
      }
    }

    method SendPacket(p: Packet) returns (r: Option<Failure>)
      modifies socket`now, socket`sent, socket`troubles
      ensures socket.troubles ==
              if r in {Some(SendFailed), Some(PartialSend)} then old(socket.troubles) + {r.value}
              else old(socket.troubles)
      ensures r.None? ==> Encodable(p) && socket.sent == old(socket.sent) + [Frame(p)]
      ensures r.Some? ==> socket.sent == old(socket.sent)
      ensures !Encodable(p) ==> r == Some(Uncodable(PayloadTooLarge))
      ensures Encodable(p) ==> r in {None, Some(SendFailed), Some(PartialSend)}
      ensures socket.now >= old(socket.now)
    {
      var encoded := EncodePacket(p);
      if encoded.Err? {
        return Some(Uncodable(encoded.error));
      }
      var count := socket.SendTo(encoded.value);
      if count.None? {
        return Some(SendFailed);
      }
      if count.value != |encoded.value| {
        return Some(PartialSend);
      }
      r := None;
    }

    /* moves tells everything that happened since o: they lead to v, and what they send and hear is what went over the
       socket; each time out took its time, and each failed call was reported. */
    ghost predicate Told(items: seq<Item>, retries: nat, o: Origin, moves: seq<Move>, v: View)
      reads this, socket
    {
      && Play(items, retries, o.view, moves) == Some(v) && completed == v.completed
      && socket.sent == o.sent + Sent(items, retries, o.view, moves)
      && socket.received == o.received + Heard(moves)
      && socket.now >= o.now + Waits(Timeouts(moves), ACK_TIMEOUT)
      && socket.troubles == o.troubles + Troubles(moves)
    }

    /* One item: sent, awaited, and sent again after each time out, as long as there are retries. */
    method SendDataWithRetry(item: Item, retries: nat, ghost items: seq<Item>, ghost o: Origin, ghost moves: seq<Move>,
                             ghost v: View)
      returns (r: Option<Failure>, ghost moves': seq<Move>, ghost v': View)
      requires Told(items, retries, o, moves, v)
      requires Sending(items, v) && items[v.index] == item && v.attempts == 0 && !v.waiting
      modifies this`completed, socket`now, socket`received, socket`sent, socket`troubles, socket`pending
      ensures Told(items, retries, o, moves', v') && moves <= moves'
      ensures v'.failure == r
      ensures r.None? ==> v'.index == v.index + 1 && v'.attempts == 0 && !v'.waiting
      ensures r.Some? ==> v'.index == v.index
      ensures socket.now >= old(socket.now)
      ensures socket.pending ==> old(socket.pending)
      // giving up takes all the copies and all their timeouts
      ensures r == Some(RetryLimitExceeded) ==>
                && |item.payload| <= 1024
                && socket.sent == old(socket.sent) + Copies(Frame(Packet(1, item.sequence, item.payload)), retries + 1)
                && socket.now >= old(socket.now) + (retries + 1) * 1_000_000_000
    {
      hide Frame, AllStale, Judge, Waits, ReceiveDatagram, Told, Play, Sent, Heard, Timeouts, Troubles;
      var p := DataPacket(item);
      moves', v' := moves, v;
      var attempts := 0;
      while attempts < retries + 1
        invariant attempts <= retries + 1
        invariant Told(items, retries, o, moves', v') && moves <= moves'
        invariant v' == v.(attempts := attempts)
        invariant attempts > 0 ==> Encodable(p)
        invariant socket.pending ==> old(socket.pending)
        invariant Encodable(p) ==> socket.sent == old(socket.sent) + Copies(Frame(p), attempts)
        invariant socket.now >= old(socket.now) + attempts * 1_000_000_000
      {
        attempts := attempts + 1;
        if Encodable(p) {
          CopiesNext(Frame(p), attempts - 1);
        }
        var failure := Transmit(p, retries, items, o, moves', v');
        ghost var m := SendMove(failure);
        moves', v' := moves' + [m], After(items, v', m);
        if failure.Some? {
          return failure, moves', v';
        }
        var outcome;
        outcome, moves', v' := Await(item.sequence, retries, items, o, moves', v');
        match outcome {
          case Accepted => return None, moves', v';
          case Failed(f) =>
            return Some(f), moves', v';
          case TimedOut =>
        }
      }
      Exhausted(retries, items, o, moves', v');
      moves', v' := moves' + [GiveUp], After(items, v', GiveUp);
      r := Some(RetryLimitExceeded);
    }

    /* Sending, told as a move. */
    method Transmit(p: Packet, retries: nat, ghost items: seq<Item>, ghost o: Origin, ghost moves: seq<Move>,
                    ghost v: View)
      returns (r: Option<Failure>)
      requires Told(items, retries, o, moves, v) && Enabled(items, retries, v, Send) && p == DataPacket(items[v.index])
      modifies socket`now, socket`sent, socket`troubles
      ensures Told(items, retries, o, moves + [SendMove(r)], After(items, v, SendMove(r)))
      ensures After(items, v, SendMove(r)).failure == r && r != Some(RetryLimitExceeded)
      ensures r.None? ==> Encodable(p) && socket.sent == old(socket.sent) + [Frame(p)]
      ensures socket.now >= old(socket.now)
    {
      hide Frame, Waits, Play, Sent, Heard, Timeouts, Troubles;
      r := SendPacket(p);
      PlayNext(items, retries, o.view, moves, SendMove(r));
    }

    /* Waiting, told as moves: one for each stale datagram, and one for the end. */
    method Await(expected: u32, retries: nat, ghost items: seq<Item>, ghost o: Origin, ghost moves: seq<Move>,
                 ghost v: View)
      returns (r: Outcome, ghost moves': seq<Move>, ghost v': View)
      requires Told(items, retries, o, moves, v)
      requires Sending(items, v) && v.waiting && items[v.index].sequence == expected
      modifies this`completed, socket`now, socket`received, socket`troubles, socket`pending
      ensures Told(items, retries, o, moves', v') && moves <= moves'
      ensures r.Accepted? ==> v' == View(v.index + 1, 0, false, None, v.completed + {expected})
      ensures !socket.pending && socket.now >= old(socket.now)
      ensures r.TimedOut? ==> v' == v.(waiting := false) && socket.now >= old(socket.now) + ACK_TIMEOUT
      ensures r.Failed? ==> v' == v.(failure := Some(r.failure)) && r.failure != RetryLimitExceeded
    {
      hide Frame, Judge, ReceiveDatagram, Play, Sent, Heard, Timeouts, Troubles, Waits;
      ghost var stale, last;
      r, stale, last := WaitForAck(expected);
      HearStale(items, retries, o.view, moves, v, stale);
      ghost var all := moves + Hears(stale);
      ghost var m :=
        if r.TimedOut? then Expire(last) else if last.Some? then Hear(last.value)
        else if r.Failed? then Break(r.failure) else GiveUp;
      PlayNext(items, retries, o.view, all, m);
      WaitsNext(Timeouts(moves), ACK_TIMEOUT);
      moves', v' := all + [m], After(items, v, m);
    }

    lemma Exhausted(retries: nat, items: seq<Item>, o: Origin, moves: seq<Move>, v: View)
      requires Told(items, retries, o, moves, v) && Enabled(items, retries, v, GiveUp)
      ensures Told(items, retries, o, moves + [GiveUp], After(items, v, GiveUp))
    {
      hide Play, Sent, Heard, Timeouts, Troubles, Waits;
      PlayNext(items, retries, o.view, moves, GiveUp);
    }

    lemma Begin(items: seq<Item>, retries: nat, o: Origin)
      requires completed == o.view.completed && socket.sent == o.sent && socket.received == o.received
      requires socket.now >= o.now && socket.troubles == o.troubles
      ensures Told(items, retries, o, [], o.view)
    {
      NoMoves(items, retries, o.view);
      WaitsNext(0, ACK_TIMEOUT);
    }

    /* The whole workload, item by item; it stops at the first failure. moves tells what it did. */
    method SendAll(items: seq<Item>, retries: nat) returns (r: Option<Failure>, ghost moves: seq<Move>, ghost v: View)
      modifies this`completed, socket`now, socket`received, socket`sent, socket`troubles, socket`pending
      ensures var start := View(0, 0, false, None, old(completed));
        var o := Origin(start, old(socket.sent), old(socket.received), old(socket.now), old(socket.troubles));
        Told(items, retries, o, moves, v)
      ensures v.failure == r && (r.None? <==> v.index == |items|)
      ensures socket.pending ==> old(socket.pending)
      // giving up takes retries + 1 copies of the item's frame and as many timeouts
      ensures r == Some(RetryLimitExceeded) ==>
                && v.index < |items| && Encodable(DataPacket(items[v.index])) && |socket.sent| >= retries + 1
                && socket.sent[|socket.sent| - (retries + 1)..] ==
                     Copies(Frame(DataPacket(items[v.index])), retries + 1)
                && socket.now >= old(socket.now) + (retries + 1) * 1_000_000_000
    {
      hide Told, Play;
      ghost var o :=
        Origin(View(0, 0, false, None, completed), socket.sent, socket.received, socket.now, socket.troubles);
      moves, v := [], o.view;
      Begin(items, retries, o);
      var done := 0;
      while done < |items|
        invariant done <= |items|
        invariant Told(items, retries, o, moves, v) && v == View(done, 0, false, None, v.completed)
        invariant socket.now >= old(socket.now) && (socket.pending ==> old(socket.pending))
      {
        var failure;
        failure, moves, v := SendDataWithRetry(items[done], retries, items, o, moves, v);
        if failure.Some? {
          return failure, moves, v;
        }
        done := done + 1;
      }
      r := None;
    }
  }

  /* Only an empty ACK with the expected number is accepted. */
  lemma AcceptExactly(expected: u32, completed: set<u32>, arrival: Result<Packet>)
    ensures Judge(expected, completed, arrival) == Accept <==> arrival == Ok(Packet(ACK, expected, []))
  {
  }

  /* The move that sending comes to. */
  function SendMove(failure: Option<Failure>): Move {
    if failure.Some? && failure.value in {SendFailed, PartialSend} then Break(failure.value) else Send
  }

  /* One move for each of these datagrams. */
  function Hears(datagrams: seq<seq<byte>>): seq<Move> {
    seq(|datagrams|, i requires 0 <= i < |datagrams| => Hear(datagrams[i]))
  }

  /* Hearing stale datagrams leads nowhere. */
  lemma {:induction false} HearStale(items: seq<Item>, retries: nat, start: View, moves: seq<Move>, v: View,
                                     stale: seq<seq<byte>>)
    requires Play(items, retries, start, moves) == Some(v) && Sending(items, v) && v.waiting
    requires AllStale(items[v.index].sequence, v.completed, stale)
    ensures var all := moves + Hears(stale);
      && Play(items, retries, start, all) == Some(v)
      && Sent(items, retries, start, all) == Sent(items, retries, start, moves)
      && Heard(all) == Heard(moves) + stale && Timeouts(all) == Timeouts(moves) && Troubles(all) == Troubles(moves)
    decreases |stale|
  {
    hide Frame, ReceiveDatagram, Play, Sent, Heard, Timeouts, Troubles, Judge;
    if stale == [] {
      assert moves + Hears(stale) == moves;
    } else {
      var before, d := stale[..|stale| - 1], stale[|stale| - 1];
      HearStale(items, retries, start, moves, v, before);
      PlayNext(items, retries, start, moves + Hears(before), Hear(d));
      assert moves + Hears(stale) == (moves + Hears(before)) + [Hear(d)];
    }
  }

  lemma NoSequences(items: seq<Item>)
    requires items == []
    ensures Sequences(items) == {}
  {
  }
}
