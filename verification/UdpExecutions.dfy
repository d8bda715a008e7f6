/**
 The programs as loops and the state machine are the same thing: what the
 sender's and the receiver's loops do, when each hears only what the other
 sent, is a run of the machine.
 */
module UdpExecutions {
  import opened Words
  import opened Codec
  import Deliveries
  import opened Options
  import opened UdpReceiver
  import opened UdpProtocol
  import Sender = UdpSender

  /* The datagrams that carry the acknowledgements of a receiver that has read these datagrams. */
  function AckFrames(mode: Mode, datagrams: seq<seq<byte>>): set<seq<byte>> {
    Encodings(Acks(mode, datagrams))
  }

  function Encodings(ps: seq<Packet>): set<seq<byte>>
    decreases |ps|
  {
    if ps == [] then {}
    else
      var (before, p) := (Encodings(ps[..|ps| - 1]), ps[|ps| - 1]);
      if Encodable(p) then before + {Frame(p)} else before
  }

  lemma EncodingsNext(ps: seq<Packet>, p: Packet)
    ensures Encodings(ps + [p]) == Encodings(ps) + if Encodable(p) then {Frame(p)} else {}
  {
    hide Frame;
    assert (ps + [p])[..|ps|] == ps;
  }

  function SentBy(c: Config, moves: seq<Sender.Move>): set<seq<byte>>
    requires Sender.Play(c.workload, c.retries, START, moves).Some?
  {
    set d | d in Sender.Sent(c.workload, c.retries, START, moves)
  }

  /* The machine's state when the sender has made these moves and the receiver has read these datagrams. */
  function StateOf(c: Config, moves: seq<Sender.Move>, datagrams: seq<seq<byte>>): State
    requires Sender.Play(c.workload, c.retries, START, moves).Some?
  {
    State(Sender.Play(c.workload, c.retries, START, moves).value, Run(c.mode, datagrams), SentBy(c, moves),
          AckFrames(c.mode, datagrams))
  }

  /* Each loop hears only what the other has sent: arrivals[i] is what the receiver has read before move i. */
  ghost predicate Closed(c: Config, moves: seq<Sender.Move>, arrivals: seq<seq<seq<byte>>>)
    requires Sender.Play(c.workload, c.retries, START, moves).Some?
  {
    && |arrivals| == |moves| + 1 && arrivals[0] == []
    && (forall i :: 0 <= i < |moves| ==> arrivals[i] <= arrivals[i + 1])
    && (forall i :: 0 <= i < |moves| ==> HearsAcks(c, moves[i], arrivals[i]))
    && (forall i :: 0 <= i <= |moves| ==> ReadsSent(c, moves, i, arrivals[i]))
  }

  predicate HearsAcks(c: Config, m: Sender.Move, read: seq<seq<byte>>) {
    m.Hear? ==> m.datagram in AckFrames(c.mode, read)
  }

  ghost predicate ReadsSent(c: Config, moves: seq<Sender.Move>, i: nat, read: seq<seq<byte>>)
    requires i <= |moves|
  {
    && Sender.Play(c.workload, c.retries, START, moves[..i]).Some?
    && forall d :: d in read ==> d in SentBy(c, moves[..i])
  }

  lemma AckFramesNext(mode: Mode, datagrams: seq<seq<byte>>, d: seq<byte>)
    requires Run(mode, datagrams).status == Running
    ensures var reply := Handle(mode, Run(mode, datagrams), ReceiveDatagram(d)).1;
      AckFrames(mode, datagrams + [d]) == AckFrames(mode, datagrams) +
        if reply.Some? && Encodable(reply.value) then {Frame(reply.value)} else {}
  {
    hide Frame, Handle, ReceiveDatagram, Run, Acks, Encodings;
    RunNext(mode, datagrams, d);
    var reply := Handle(mode, Run(mode, datagrams), ReceiveDatagram(d)).1;
    if reply.Some? {
      EncodingsNext(Acks(mode, datagrams), reply.value);
    } else {
      assert Acks(mode, datagrams) + [] == Acks(mode, datagrams);
    }
  }

  /* The receiver reads one more datagram. */
  lemma ReadOne(c: Config, run: seq<State>, moves: seq<Sender.Move>, read: seq<seq<byte>>, d: seq<byte>)
    returns (longer: seq<State>)
    requires Sender.Play(c.workload, c.retries, START, moves).Some? && d in SentBy(c, moves)
    requires Reached(c, run, StateOf(c, moves, read))
    ensures Reached(c, longer, StateOf(c, moves, read + [d]))
  {
    hide Frame, Handle, ReceiveDatagram, Run, Acks, Reached, Encodings, SentBy, Sender.Play;
    var s, t := StateOf(c, moves, read), StateOf(c, moves, read + [d]);
    if s.receiver.status == Running {
      RunNext(c.mode, read, d);
      AckFramesNext(c.mode, read, d);
      Extend(c, run, s, t, DataArrives(d));
      longer := run + [t];
    } else {
      assert (read + [d])[..|read|] == read;
      RunStops(c.mode, read + [d], |read|);
      longer := run;
    }
  }

  lemma {:induction false} ReadAll(c: Config, run: seq<State>, moves: seq<Sender.Move>, read: seq<seq<byte>>,
                                   more: seq<seq<byte>>)
    returns (longer: seq<State>)
    requires Sender.Play(c.workload, c.retries, START, moves).Some?
    requires Reached(c, run, StateOf(c, moves, read)) && read <= more && forall d :: d in more ==> d in SentBy(c, moves)
    ensures Reached(c, longer, StateOf(c, moves, more))
    decreases |more| - |read|
  {
    hide Reached, StateOf, SentBy, Sender.Play;
    if |read| == |more| {
      assert read == more;
      longer := run;
    } else {
      var d := more[|read|];
      longer := ReadOne(c, run, moves, read, d);
      assert read + [d] <= more;
      longer := ReadAll(c, longer, moves, read + [d], more);
    }
  }

  lemma LastIsEnabled(c: Config, moves: seq<Sender.Move>, m: Sender.Move)
    requires Sender.Play(c.workload, c.retries, START, moves).Some?
    requires Sender.Play(c.workload, c.retries, START, moves + [m]).Some?
    ensures Sender.Enabled(c.workload, c.retries, Sender.Play(c.workload, c.retries, START, moves).value, m)
  {
    assert (moves + [m])[..|moves|] == moves;
  }

  /* The sender makes one more move. */
  lemma MoveOne(c: Config, run: seq<State>, moves: seq<Sender.Move>, read: seq<seq<byte>>, m: Sender.Move)
    returns (longer: seq<State>)
    requires Sender.Play(c.workload, c.retries, START, moves).Some?
    requires Sender.Play(c.workload, c.retries, START, moves + [m]).Some?
    requires Reached(c, run, StateOf(c, moves, read)) && HearsAcks(c, m, read)
    ensures Reached(c, longer, StateOf(c, moves + [m], read))
  {
    hide Frame, Handle, ReceiveDatagram, Run, Reached, AckFrames, Sender.Sent, Sender.Judge, Sender.Play,
      Sender.Heard, Sender.Timeouts, Sender.Troubles, Sender.AfterDatagram;
    LastIsEnabled(c, moves, m);
    Sender.PlayNext(c.workload, c.retries, START, moves, m);
    var s, t := StateOf(c, moves, read), StateOf(c, moves + [m], read);
    var step := match m
      case Send => Transmit
      case Hear(d) => AckArrives(d)
      case Expire(_) => Timeout
      case GiveUp => Step.GiveUp
      case Break(f) => SenderBreaks(f);
    Extend(c, run, s, t, step);
    longer := run + [t];
  }

  /* What the loops do is a run of the machine. */
  lemma {:induction false} LoopsAreRun(c: Config, moves: seq<Sender.Move>, arrivals: seq<seq<seq<byte>>>)
    returns (run: seq<State>)
    requires Sender.Play(c.workload, c.retries, START, moves).Some? && Closed(c, moves, arrivals)
    ensures Reached(c, run, StateOf(c, moves, arrivals[|moves|]))
    decreases |moves|
  {
    hide Reached, HearsAcks, SentBy, StateOf, Sender.Play, Closed;
    if moves == [] {
      ClosedEmpty(c, arrivals);
      StartReached(c);
      run := [StateOf(c, [], [])];
    } else {
      var n := |moves| - 1;
      assert moves == moves[..n] + [moves[n]];
      ClosedBefore(c, moves, arrivals);
      ClosedAt(c, moves, arrivals);
      run := LoopsAreRun(c, moves[..n], arrivals[..n + 1]);
      run := MoveOne(c, run, moves[..n], arrivals[n], moves[n]);
      run := ReadAll(c, run, moves, arrivals[n], arrivals[n + 1]);
    }
  }

  lemma StartReached(c: Config)
    ensures Reached(c, [StateOf(c, [], [])], StateOf(c, [], []))
  {
    Sender.NoMoves(c.workload, c.retries, START);
  }

  lemma ClosedEmpty(c: Config, arrivals: seq<seq<seq<byte>>>)
    requires Sender.Play(c.workload, c.retries, START, []).Some? && Closed(c, [], arrivals)
    ensures |arrivals| == 1 && arrivals[0] == []
  {
  }

  lemma ClosedAt(c: Config, moves: seq<Sender.Move>, arrivals: seq<seq<seq<byte>>>)
    requires moves != [] && Sender.Play(c.workload, c.retries, START, moves).Some? && Closed(c, moves, arrivals)
    ensures var n := |moves| - 1;
      && |arrivals| == n + 2 && arrivals[n] <= arrivals[n + 1] && HearsAcks(c, moves[n], arrivals[n])
      && forall d :: d in arrivals[n + 1] ==> d in SentBy(c, moves)
  {
    hide HearsAcks, SentBy, Sender.Play;
    assert moves[..|moves|] == moves;
    assert ReadsSent(c, moves, |moves|, arrivals[|moves|]);
  }

  lemma ClosedBefore(c: Config, moves: seq<Sender.Move>, arrivals: seq<seq<seq<byte>>>)
    requires moves != [] && Sender.Play(c.workload, c.retries, START, moves).Some? && Closed(c, moves, arrivals)
    ensures Sender.Play(c.workload, c.retries, START, moves[..|moves| - 1]).Some?
    ensures Closed(c, moves[..|moves| - 1], arrivals[..|moves|])
  {
    hide HearsAcks, SentBy, Sender.Enabled, Sender.After;
    var n := |moves| - 1;
    forall i | 0 <= i <= n
      ensures ReadsSent(c, moves[..n], i, arrivals[i])
    {
      assert moves[..n][..i] == moves[..i];
      assert ReadsSent(c, moves, i, arrivals[i]);
    }
  }

  /* The sender's loop, hearing only a receiver that reads only what the loop has sent, never ends in a mismatch or in
     an undecodable acknowledgement; and what it has got acknowledged is what that receiver has processed. */
  lemma LoopsNeverMismatch(c: Config, moves: seq<Sender.Move>, arrivals: seq<seq<seq<byte>>>, v: Sender.View)
    requires !c.noisy && Sender.Play(c.workload, c.retries, START, moves) == Some(v) && Closed(c, moves, arrivals)
    ensures v.failure !in {Some(Sender.SequenceMismatch), Some(Sender.ExpectedEmptyAck)}
    ensures v.failure.Some? && v.failure.value.Uncodable? ==> v.failure.value.error == PayloadTooLarge
    ensures v.index == |c.workload| ==>
              Run(c.mode, arrivals[|moves|]).log == Deliveries.FirstOfEach(c.workload)
  {
    hide Run, SentBy, AckFrames, Next, Init;
    var run := LoopsAreRun(c, moves, arrivals);
    NoProtocolErrors(c, run, |run| - 1);
    if v.index == |c.workload| {
      FinishedRun(c, run, |run| - 1);
    }
  }
}
