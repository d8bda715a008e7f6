/**
 The UDP endpoints and the network between them, as one state machine. The
 network loses, duplicates and reorders datagrams, and may flip bits in them.
 */
module UdpProtocol {
  import opened Words
  import opened Codec
  import opened Deliveries
  import opened Options
  import opened BitErrors
  import opened UdpReceiver
  import Sender = UdpSender

  /* The items to send, the retry limit, the receiver's mode, and whether the network damages datagrams. */
  datatype Config = Config(workload: seq<Item>, retries: nat, mode: Mode, noisy: bool)

  datatype State = State(
    sender: Sender.View,
    receiver: Memory,
    dataSent: set<seq<byte>>,                // datagrams ever put on the wire to the receiver
    acksSent: set<seq<byte>>)                // and to the sender

  /* A datagram once on the wire may arrive at any time, any number of times, or never. */
  datatype Step =
    | Transmit
    | Timeout
    | GiveUp
    | AckArrives(datagram: seq<byte>)
    | DataArrives(datagram: seq<byte>)
    | DamageData(sequence: u32, payload: seq<byte>, damaged: seq<byte>)
    | DamageAck(sequence: u32, damaged: seq<byte>)
    | SenderBreaks(cause: Sender.Failure)
    | ReceiverStops

  const START := Sender.View(0, 0, false, None, {})

  ghost predicate Init(c: Config, s: State) {
    s == State(START, FRESH, {}, {})
  }

  predicate Sending(c: Config, s: State) {
    Sender.Sending(c.workload, s.sender)
  }

  function Current(c: Config, s: State): Packet
    requires s.sender.index < |c.workload|
  {
    Sender.DataPacket(c.workload[s.sender.index])
  }

  predicate CanMove(c: Config, s: State, m: Sender.Move) {
    Sender.Enabled(c.workload, c.retries, s.sender, m)
  }

  /* The sender makes a move of its own. */
  function Moved(c: Config, s: State, m: Sender.Move): State
    requires Sending(c, s)
  {
    s.(sender := Sender.After(c.workload, s.sender, m))
  }

  function AfterData(c: Config, s: State, datagram: seq<byte>): State {
    var (memory, reply) := Handle(c.mode, s.receiver, ReceiveDatagram(datagram));
    s.(receiver := memory,
       acksSent := s.acksSent + if reply.Some? && Encodable(reply.value) then {Frame(reply.value)} else {})
  }

  ghost predicate NextStep(c: Config, s: State, s': State, step: Step) {
    match step
    case Transmit =>
      && CanMove(c, s, Sender.Send)
      && s' == Moved(c, s, Sender.Send).(
                 dataSent := s.dataSent + if Encodable(Current(c, s)) then {Frame(Current(c, s))} else {})
    case Timeout =>
      CanMove(c, s, Sender.Expire(None)) && s' == Moved(c, s, Sender.Expire(None))
    case GiveUp =>
      CanMove(c, s, Sender.GiveUp) && s' == Moved(c, s, Sender.GiveUp)
    case AckArrives(d) =>
      CanMove(c, s, Sender.Hear(d)) && d in s.acksSent && s' == Moved(c, s, Sender.Hear(d))
    case DataArrives(d) =>
      s.receiver.status == Running && d in s.dataSent && s' == AfterData(c, s, d)
    case DamageData(q, payload, g) =>
      var p := Packet(DATA, q, payload);
      && c.noisy && Encodable(p) && Frame(p) in s.dataSent && OneOrTwoBitsFlipped(Frame(p), g)
      && s' == s.(dataSent := s.dataSent + {g})
    case DamageAck(q, g) =>
      && c.noisy && Frame(AckFor(q)) in s.acksSent && OneOrTwoBitsFlipped(Frame(AckFor(q)), g)
      && s' == s.(acksSent := s.acksSent + {g})
    case SenderBreaks(f) =>
      CanMove(c, s, Sender.Break(f)) && s' == Moved(c, s, Sender.Break(f))
    case ReceiverStops =>
      s.receiver.status == Running && s' == s.(receiver := s.receiver.(status := Finished))
  }

  ghost predicate Next(c: Config, s: State, s': State) {
    exists step :: NextStep(c, s, s', step)
  }

  /* A run of the system: its successive states. */
  ghost predicate IsRun(c: Config, run: seq<State>) {
    && |run| > 0 && Init(c, run[0])
    && forall i :: 0 <= i < |run| - 1 ==> Next(c, run[i], run[i + 1])
  }

  /* A run that has come to s. */
  ghost predicate Reached(c: Config, run: seq<State>, s: State) {
    IsRun(c, run) && run[|run| - 1] == s
  }

  lemma Extend(c: Config, run: seq<State>, s: State, t: State, step: Step)
    requires Reached(c, run, s) && NextStep(c, s, t, step)
    ensures Reached(c, run + [t], t)
  {
    hide NextStep, Init;
    var longer := run + [t];
    forall i | 0 <= i < |longer| - 1
      ensures Next(c, longer[i], longer[i + 1])
    {
      if i < |run| - 1 {
        assert longer[i] == run[i] && longer[i + 1] == run[i + 1];
      } else {
        assert longer[i] == s && longer[i + 1] == t;
      }
    }
  }

  // ----- the invariant -----

  /* d is the frame of one of the first n items. */
  ghost predicate SentWithin(c: Config, n: nat, d: seq<byte>) {
    exists i :: 0 <= i < n && i < |c.workload| && IsFrameOf(c.workload[i], d)
  }

  predicate IsFrameOf(item: Item, d: seq<byte>) {
    Encodable(Sender.DataPacket(item)) && d == Frame(Sender.DataPacket(item))
  }

  ghost predicate AckWithin(log: seq<Item>, d: seq<byte>) {
    exists q :: q in Sequences(log) && d == Frame(AckFor(q))
  }

  ghost predicate Noise(c: Config, d: seq<byte>) {
    c.noisy && ReceiveDatagram(d).Err?
  }

  function Started(s: State): nat {
    if s.sender.attempts > 0 then s.sender.index + 1 else s.sender.index
  }

  ghost predicate WireInv(c: Config, s: State) {
    && (forall d :: d in s.dataSent ==> SentWithin(c, Started(s), d) || Noise(c, d))
    && (forall d :: d in s.acksSent ==> AckWithin(s.receiver.log, d) || Noise(c, d))
  }

  /* The receiver has processed the items before the current one, and perhaps the current one. */
  ghost predicate LogInv(c: Config, s: State) {
    && s.sender.index <= |c.workload|
    && s.sender.completed == Sequences(c.workload[..s.sender.index])
    && (|| s.receiver.log == FirstOfEach(c.workload[..s.sender.index])
        || (&& s.sender.attempts > 0 && s.sender.index < |c.workload|
            && s.receiver.log == FirstOfEach(c.workload[..s.sender.index + 1])))
  }

  /* The failures the sender can come to. */
  predicate Expectable(c: Config, f: Sender.Failure) {
    match f
    case Uncodable(e) => e == PayloadTooLarge || c.noisy
    case ExpectedEmptyAck => false
    case SequenceMismatch => false
    case _ => true
  }

  ghost predicate StatusInv(c: Config, s: State) {
    && s.sender.attempts <= c.retries + 1
    && (s.sender.index == |c.workload| ==> s.sender.attempts == 0)
    && (s.sender.failure.Some? ==> Expectable(c, s.sender.failure.value))
    && (s.receiver.status.Failed? ==> c.noisy && s.receiver.status.failure.Undecodable?)
  }

  ghost predicate Inv(c: Config, s: State) {
    WireInv(c, s) && LogInv(c, s) && StatusInv(c, s)
  }

  lemma InitInv(c: Config, s: State)
    requires Init(c, s)
    ensures Inv(c, s)
  {
    assert c.workload[..0] == [];
  }

  lemma PrefixStep(items: seq<Item>, n: nat)
    requires n < |items|
    ensures Sequences(items[..n + 1]) == Sequences(items[..n]) + {items[n].sequence}
    ensures FirstOfEach(items[..n + 1]) ==
            if items[n].sequence in Sequences(items[..n]) then FirstOfEach(items[..n])
            else FirstOfEach(items[..n]) + [items[n]]
  {
    assert items[..n + 1] == items[..n] + [items[n]];
    SequencesAppend(items[..n], items[n]);
    FirstOfEachAppend(items[..n], items[n]);
  }

  lemma PrefixMember(items: seq<Item>, i: nat, n: nat)
    requires i < n <= |items|
    ensures items[i].sequence in Sequences(items[..n])
  {
    assert items[..n][i] == items[i];
  }

  lemma RecordKeepsLog(c: Config, s: State, i: nat)
    requires LogInv(c, s) && i < Started(s) && i < |c.workload|
    ensures LogInv(c, s.(receiver := s.receiver.(log := Record(s.receiver.log, Sender.DataPacket(c.workload[i])))))
  {
    hide FirstOfEach, Sequences;
    FirstOfEachMeaning(c.workload[..s.sender.index]);
    if i < s.sender.index {
      PrefixMember(c.workload, i, s.sender.index);
    }
    if s.sender.index < |c.workload| {
      FirstOfEachMeaning(c.workload[..s.sender.index + 1]);
      PrefixStep(c.workload, s.sender.index);
    }
  }

  /* What the receiver makes of a datagram that is on the wire. */
  lemma ArrivalLog(c: Config, s: State, d: seq<byte>)
    requires Inv(c, s) && d in s.dataSent && ReceiveDatagram(d).Ok?
    ensures ReceiveDatagram(d).value.kind == DATA
    ensures LogInv(c, s.(receiver := s.receiver.(log := Record(s.receiver.log, ReceiveDatagram(d).value))))
  {
    hide Frame, ReceiveDatagram, FirstOfEach, Sequences, LogInv;
    var i :| 0 <= i < Started(s) && i < |c.workload| && IsFrameOf(c.workload[i], d);
    FrameIsAccepted(Sender.DataPacket(c.workload[i]));
    RecordKeepsLog(c, s, i);
  }

  lemma DataArrivesInv(c: Config, s: State, s': State, d: seq<byte>)
    requires Inv(c, s) && NextStep(c, s, s', DataArrives(d))
    ensures Inv(c, s')
  {
    hide Frame, ReceiveDatagram, FirstOfEach, LogInv;
    var arrival := ReceiveDatagram(d);
    if arrival.Ok? {
      ArrivalLog(c, s, d);
      var p := arrival.value;
      LogInvIgnores(c, s.(receiver := s.receiver.(log := Record(s.receiver.log, p))), s');
      SequencesAppend(s.receiver.log, Item(p.sequence, p.payload));
      forall a | a in s'.acksSent
        ensures AckWithin(s'.receiver.log, a) || Noise(c, a)
      {
        if a in s.acksSent {
          if AckWithin(s.receiver.log, a) {
            var q :| q in Sequences(s.receiver.log) && a == Frame(AckFor(q));
            assert q in Sequences(s'.receiver.log);
          }
        } else {
          assert p.sequence in Sequences(s'.receiver.log);
        }
      }
    } else {
      if SentWithin(c, Started(s), d) {
        var i :| 0 <= i < Started(s) && i < |c.workload| && IsFrameOf(c.workload[i], d);
        FrameIsAccepted(Sender.DataPacket(c.workload[i]));
      }
      LogInvIgnores(c, s, s');
    }
  }

  /* LogInv reads nothing of the receiver but its log. */
  lemma LogInvIgnores(c: Config, s: State, s': State)
    requires LogInv(c, s)
    requires s'.sender.index == s.sender.index && s'.sender.attempts == s.sender.attempts
    requires s'.sender.completed == s.sender.completed
    requires s'.receiver.log == s.receiver.log
    ensures LogInv(c, s')
  {
  }

  /* An acknowledgement on the wire is for the current item or a completed one, unless the network damaged it. */
  lemma AckExpected(c: Config, s: State, d: seq<byte>)
    requires Inv(c, s) && Sending(c, s) && d in s.acksSent
    ensures var verdict := Sender.Judge(c.workload[s.sender.index].sequence, s.sender.completed, ReceiveDatagram(d));
      && (verdict.Reject? ==> c.noisy && verdict.failure.Uncodable?)
      && (verdict.Accept? ==> c.workload[s.sender.index].sequence in Sequences(s.receiver.log))
  {
    hide Frame, ReceiveDatagram, FirstOfEach, Sequences, IsFrameOf;
    FirstOfEachMeaning(c.workload[..s.sender.index]);
    FirstOfEachMeaning(c.workload[..s.sender.index + 1]);
    PrefixStep(c.workload, s.sender.index);
    if AckWithin(s.receiver.log, d) {
      var q :| q in Sequences(s.receiver.log) && d == Frame(AckFor(q));
      FrameIsAccepted(AckFor(q));
      assert q in s.sender.completed || q == c.workload[s.sender.index].sequence;
    }
  }

  lemma SentMore(c: Config, n: nat, m: nat, d: seq<byte>)
    requires SentWithin(c, n, d) && n <= m
    ensures SentWithin(c, m, d)
  {
    hide IsFrameOf;
    var i :| 0 <= i < n && i < |c.workload| && IsFrameOf(c.workload[i], d);
    assert i < m;
  }

  lemma AckArrivesInv(c: Config, s: State, s': State, d: seq<byte>)
    requires Inv(c, s) && NextStep(c, s, s', AckArrives(d))
    ensures Inv(c, s')
  {
    hide Frame, ReceiveDatagram, FirstOfEach, Sequences, SentWithin, AckWithin, Sender.Judge;
    AckExpected(c, s, d);
    FirstOfEachMeaning(c.workload[..s.sender.index]);
    PrefixStep(c.workload, s.sender.index);
    forall g | g in s.dataSent && SentWithin(c, Started(s), g)
      ensures SentWithin(c, Started(s'), g)
    {
      SentMore(c, Started(s), Started(s'), g);
    }
  }

  lemma TransmitInv(c: Config, s: State, s': State)
    requires Inv(c, s) && NextStep(c, s, s', Transmit)
    ensures Inv(c, s')
  {
    hide Frame, ReceiveDatagram, FirstOfEach, Sequences;
    if s'.sender.attempts > s.sender.attempts {
      assert IsFrameOf(c.workload[s.sender.index], Frame(Current(c, s)));
      forall d | d in s'.dataSent
        ensures SentWithin(c, Started(s'), d) || Noise(c, d)
      {
        if d in s.dataSent && SentWithin(c, Started(s), d) {
          var i :| 0 <= i < Started(s) && i < |c.workload| && IsFrameOf(c.workload[i], d);
          assert i < Started(s');
        }
      }
    }
  }

  lemma DamageInv(c: Config, s: State, s': State, step: Step)
    requires Inv(c, s) && NextStep(c, s, s', step) && (step.DamageData? || step.DamageAck?)
    ensures Inv(c, s')
  {
    hide Frame, ReceiveDatagram, FirstOfEach, Sequences, OneOrTwoBitsFlipped, SentWithin, AckWithin;
    match step
    case DamageData(q, payload, g) => BitErrorsRejected(Packet(DATA, q, payload), g);
    case DamageAck(q, g) => BitErrorsRejected(AckFor(q), g);
  }

  lemma NextInv(c: Config, s: State, s': State)
    requires Inv(c, s) && Next(c, s, s')
    ensures Inv(c, s')
  {
    hide Frame, ReceiveDatagram, FirstOfEach, Sequences, OneOrTwoBitsFlipped, SentWithin, AckWithin;
    var step :| NextStep(c, s, s', step);
    match step
    case Transmit => TransmitInv(c, s, s');
    case AckArrives(d) => AckArrivesInv(c, s, s', d);
    case DataArrives(d) => DataArrivesInv(c, s, s', d);
    case DamageData(_, _, _) => DamageInv(c, s, s', step);
    case DamageAck(_, _) => DamageInv(c, s, s', step);
    case _ =>
  }

  lemma {:induction false} RunInv(c: Config, run: seq<State>, i: nat)
    requires IsRun(c, run) && i < |run|
    ensures Inv(c, run[i])
    decreases i
  {
    if i == 0 {
      InitInv(c, run[0]);
    } else {
      RunInv(c, run, i - 1);
      NextInv(c, run[i - 1], run[i]);
    }
  }

  // ----- what every run guarantees -----

  /* No run makes the sender report a wrong acknowledgement, nor the receiver an unexpected packet type;
     on a network that damages nothing, no endpoint ever meets an undecodable datagram. */
  lemma NoProtocolErrors(c: Config, run: seq<State>, i: nat)
    requires IsRun(c, run) && i < |run|
    ensures run[i].sender.failure != Some(Sender.SequenceMismatch)
    ensures run[i].sender.failure != Some(Sender.ExpectedEmptyAck)
    ensures run[i].receiver.status != Failed(ExpectedData)
    ensures !c.noisy ==> !run[i].receiver.status.Failed?
    ensures !c.noisy && run[i].sender.failure.Some? && run[i].sender.failure.value.Uncodable? ==>
            run[i].sender.failure.value.error == PayloadTooLarge
  {
    RunInv(c, run, i);
  }

  /* At every moment the receiver has processed, in order and once each, the items whose acknowledgement
     the sender has accepted and at most the one it is sending; only repeated numbers are left out. */
  lemma ProcessedInOrder(c: Config, run: seq<State>, i: nat)
    requires IsRun(c, run) && i < |run|
    ensures run[i].sender.index <= |c.workload|
    ensures var n := run[i].sender.index;
      || run[i].receiver.log == FirstOfEach(c.workload[..n])
      || (n < |c.workload| && run[i].receiver.log == FirstOfEach(c.workload[..n + 1]))
    ensures Distinct(run[i].receiver.log)
  {
    RunInv(c, run, i);
    FirstOfEachMeaning(c.workload[..run[i].sender.index]);
    if run[i].sender.index < |c.workload| {
      FirstOfEachMeaning(c.workload[..run[i].sender.index + 1]);
    }
  }

  /* An accepted acknowledgement means the item is processed: for each accepted item the log holds exactly
     one entry with its number, and that entry is the first item of the workload with that number. */
  lemma AcceptedIsProcessed(c: Config, run: seq<State>, i: nat, k: nat)
    requires IsRun(c, run) && i < |run| && k < run[i].sender.index <= |c.workload|
    ensures exists j :: 0 <= j < |run[i].receiver.log|
                     && run[i].receiver.log[j].sequence == c.workload[k].sequence
                     && IsFirst(c.workload, run[i].receiver.log[j])
    ensures Distinct(run[i].receiver.log)
  {
    hide FirstOfEach;
    var s := run[i];
    ProcessedInOrder(c, run, i);
    var n := if s.receiver.log == FirstOfEach(c.workload[..s.sender.index]) then s.sender.index else s.sender.index + 1;
    FirstOfEachMeaning(c.workload[..n]);
    PrefixMember(c.workload, k, n);
    var j :| 0 <= j < |s.receiver.log| && s.receiver.log[j].sequence == c.workload[k].sequence;
    FirstOfPrefix(c.workload, n, s.receiver.log[j]);
  }

  lemma FirstOfPrefix(items: seq<Item>, n: nat, x: Item)
    requires n <= |items| && IsFirst(items[..n], x)
    ensures IsFirst(items, x)
  {
    var k :| IsFirstAt(items[..n], x, k);
    assert IsFirstAt(items, x, k);
  }

  /* When the sender has finished, the receiver has processed the whole workload, in order, exactly once;
     its log is the workload itself exactly when no sequence number was used twice. */
  lemma FinishedRun(c: Config, run: seq<State>, i: nat)
    requires IsRun(c, run) && i < |run| && run[i].sender.index == |c.workload|
    ensures run[i].receiver.log == FirstOfEach(c.workload)
    ensures run[i].receiver.log == c.workload <==> Distinct(c.workload)
    ensures run[i].sender.completed == Sequences(c.workload)
  {
    RunInv(c, run, i);
    assert c.workload[..|c.workload|] == c.workload;
    FirstOfEachIdentity(c.workload);
  }
}
