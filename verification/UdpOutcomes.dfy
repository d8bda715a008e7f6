/**
 Which UDP configurations can succeed: the sender can finish if and only if
 every payload is small enough and the workload has no more different numbers
 than the receiver stays for in its mode.
 */
module UdpOutcomes {
  import opened Words
  import opened Codec
  import opened Deliveries
  import opened Options
  import opened UdpReceiver
  import opened UdpProtocol
  import Sender = UdpSender

  predicate Done(c: Config, s: State) {
    s.sender.index == |c.workload| && s.sender.failure == None
  }

  ghost predicate CanFinish(c: Config) {
    exists run :: IsRun(c, run) && Done(c, run[|run| - 1])
  }

  /* How many different numbers the receiver processes before it leaves its loop. */
  function Capacity(mode: Mode): nat {
    if mode == OutOfOrder then 3 else 1
  }

  predicate AllEncodable(items: seq<Item>) {
    forall i :: 0 <= i < |items| ==> Encodable(Sender.DataPacket(items[i]))
  }

  predicate Feasible(c: Config) {
    AllEncodable(c.workload) && |Sequences(c.workload)| <= Capacity(c.mode)
  }

  // ----- what a finished run needs -----

  ghost predicate Contained(c: Config, s: State) {
    && s.sender.index <= |c.workload| && AllEncodable(c.workload[..s.sender.index])
    && (s.sender.waiting && s.sender.index < |c.workload| ==> Encodable(Current(c, s)))
    && |s.receiver.log| <= Capacity(c.mode)
    && (s.receiver.status == Running ==>
          if c.mode == DropFirstAck
          then s.sender.index == 0 && s.acksSent == {} && s.receiver.ackDropped == (s.receiver.log != [])
          else |s.receiver.log| < Capacity(c.mode))
  }

  lemma RecordGrows(log: seq<Item>, p: Packet)
    ensures if p.sequence in Sequences(log) then Record(log, p) == log else |Record(log, p)| == |log| + 1
  {
  }

  /* As long as the first item has not been acknowledged, nothing but it can have been processed. */
  lemma OnlyFirstItem(c: Config, s: State)
    requires LogInv(c, s) && s.sender.index == 0
    ensures |s.receiver.log| <= 1
  {
    FirstOfEachLength(c.workload[..0]);
    if |c.workload| > 0 {
      FirstOfEachLength(c.workload[..1]);
    }
  }

  lemma ContainedData(c: Config, s: State, s': State, d: seq<byte>)
    requires Inv(c, s) && Contained(c, s) && NextStep(c, s, s', DataArrives(d))
    ensures Contained(c, s')
  {
    hide Frame, ReceiveDatagram, FirstOfEach, Sequences, WireInv, LogInv, Record;
    if ReceiveDatagram(d).Ok? {
      var p := ReceiveDatagram(d).value;
      ArrivalLog(c, s, d);
      RecordGrows(s.receiver.log, p);
      if s.sender.index == 0 {
        OnlyFirstItem(c, s.(receiver := s.receiver.(log := Record(s.receiver.log, p))));
      }
      if s.receiver.log == [] {
        RecordedFirst(p);
      }
    }
  }

  lemma RecordedFirst(p: Packet)
    ensures Record([], p) == [Item(p.sequence, p.payload)]
  {
  }

  lemma ContainedNext(c: Config, s: State, s': State)
    requires Inv(c, s) && Contained(c, s) && Next(c, s, s')
    ensures Contained(c, s')
  {
    hide Frame, ReceiveDatagram, FirstOfEach, Sequences, LogInv, WireInv, Handle, Sender.Judge;
    var step :| NextStep(c, s, s', step);
    match step
    case DataArrives(d) => ContainedData(c, s, s', d);
    case AckArrives(d) => PrefixEncodable(c, s);
    case _ =>
  }

  lemma PrefixEncodable(c: Config, s: State)
    requires s.sender.index < |c.workload| && AllEncodable(c.workload[..s.sender.index]) && Encodable(Current(c, s))
    ensures AllEncodable(c.workload[..s.sender.index + 1])
  {
    assert c.workload[..s.sender.index + 1] == c.workload[..s.sender.index] + [c.workload[s.sender.index]];
  }

  lemma {:induction false} RunContained(c: Config, run: seq<State>, i: nat)
    requires IsRun(c, run) && i < |run|
    ensures Contained(c, run[i])
    decreases i
  {
    hide Inv, Next;
    if i == 0 {
      assert c.workload[..0] == [];
    } else {
      RunContained(c, run, i - 1);
      RunInv(c, run, i - 1);
      ContainedNext(c, run[i - 1], run[i]);
    }
  }

  lemma DistinctNumbers(items: seq<Item>)
    ensures |Sequences(items)| == |FirstOfEach(items)|
  {
    FirstOfEachMeaning(items);
    DistinctCount(FirstOfEach(items));
  }

  lemma FinishNeeds(c: Config, run: seq<State>)
    requires IsRun(c, run) && Done(c, run[|run| - 1])
    ensures Feasible(c)
  {
    hide Next, FirstOfEach, Sequences;
    var last := |run| - 1;
    RunContained(c, run, last);
    FinishedRun(c, run, last);
    DistinctNumbers(c.workload);
    assert c.workload[..|c.workload|] == c.workload;
  }

  // ----- a run that finishes -----

  /* Between two items: everything so far is processed and acknowledged, and the receiver stays if it can. */
  ghost predicate Settled(c: Config, s: State) {
    && s.sender.failure == None && !s.sender.waiting && s.sender.attempts == 0 && s.sender.index <= |c.workload|
    && s.receiver.log == FirstOfEach(c.workload[..s.sender.index])
    && (forall q :: q in Sequences(c.workload[..s.sender.index]) ==> Frame(AckFor(q)) in s.acksSent)
    && (s.receiver.status == Running || |s.receiver.log| == Capacity(c.mode))
    && (c.mode == DropFirstAck && s.receiver.status == Running ==> s.receiver.log == [] && !s.receiver.ackDropped)
  }

  lemma MoreNumbers(small: set<u32>, large: set<u32>)
    requires small <= large
    ensures |small| <= |large|
  {
    assert large == small + (large - small);
  }

  lemma PrefixNumbers(items: seq<Item>, n: nat)
    requires n <= |items|
    ensures Sequences(items[..n]) <= Sequences(items)
  {
    forall q | q in Sequences(items[..n])
      ensures q in Sequences(items)
    {
      var i :| 0 <= i < n && items[..n][i].sequence == q;
      assert items[i].sequence == q;
    }
  }

  /* A number not seen before finds the receiver still there. */
  lemma StillRunning(c: Config, s: State)
    requires Feasible(c) && Settled(c, s) && s.sender.index < |c.workload|
    requires c.workload[s.sender.index].sequence !in Sequences(c.workload[..s.sender.index])
    ensures s.receiver.status == Running && |s.receiver.log| < Capacity(c.mode)
  {
    hide FirstOfEach, Sequences, Frame;
    var n := s.sender.index;
    PrefixStep(c.workload, n);
    DistinctNumbers(c.workload[..n]);
    DistinctNumbers(c.workload[..n + 1]);
    PrefixNumbers(c.workload, n + 1);
    MoreNumbers(Sequences(c.workload[..n + 1]), Sequences(c.workload));
  }

  /* The acknowledgement, already on the wire, is accepted. */
  lemma Acknowledge(c: Config, run: seq<State>, s: State) returns (longer: seq<State>, t: State)
    requires Reached(c, run, s) && Sending(c, s) && s.sender.waiting
    requires Frame(AckFor(c.workload[s.sender.index].sequence)) in s.acksSent
    ensures Reached(c, longer, t)
    ensures t == s.(sender := Sender.View(s.sender.index + 1, 0, false, None,
                                          s.sender.completed + {c.workload[s.sender.index].sequence}))
  {
    hide Frame, ReceiveDatagram, Reached;
    var ack := AckFor(c.workload[s.sender.index].sequence);
    FrameIsAccepted(ack);
    t := Moved(c, s, Sender.Hear(Frame(ack)));
    Extend(c, run, s, t, AckArrives(Frame(ack)));
    longer := run + [t];
  }

  /* The DATA packet arrives. */
  lemma Deliver(c: Config, run: seq<State>, s: State) returns (longer: seq<State>, t: State)
    requires Reached(c, run, s) && Sending(c, s) && s.receiver.status == Running
    requires Encodable(Current(c, s)) && Frame(Current(c, s)) in s.dataSent
    ensures Reached(c, longer, t)
    ensures var (memory, reply) := Handle(c.mode, s.receiver, Ok(Current(c, s)));
      t == s.(receiver := memory, acksSent := s.acksSent + if reply.Some? then {Frame(reply.value)} else {})
  {
    hide Frame, ReceiveDatagram, Reached;
    var p := Current(c, s);
    FrameIsAccepted(p);
    t := AfterData(c, s, Frame(p));
    Extend(c, run, s, t, DataArrives(Frame(p)));
    longer := run + [t];
  }

  /* A number not seen before is processed and its acknowledgement sent; in drop-first-ack mode that takes a second
     copy of the datagram. */
  lemma DeliverNew(c: Config, run: seq<State>, s: State) returns (longer: seq<State>, t: State)
    requires Reached(c, run, s) && Sending(c, s) && s.receiver.status == Running
    requires Encodable(Current(c, s)) && Frame(Current(c, s)) in s.dataSent
    requires c.workload[s.sender.index].sequence !in Sequences(s.receiver.log) && |s.receiver.log| < Capacity(c.mode)
    requires c.mode == DropFirstAck ==> s.receiver.log == [] && !s.receiver.ackDropped
    ensures Reached(c, longer, t)
    ensures t == s.(receiver := t.receiver, acksSent := t.acksSent)
    ensures t.receiver.log == s.receiver.log + [c.workload[s.sender.index]]
    ensures t.acksSent == s.acksSent + {Frame(AckFor(c.workload[s.sender.index].sequence))}
    ensures t.receiver.status == Running || |t.receiver.log| == Capacity(c.mode)
    ensures c.mode == DropFirstAck ==> t.receiver.status != Running
  {
    hide Frame, Reached;
    longer, t := Deliver(c, run, s);
    if c.mode == DropFirstAck {
      SequencesAppend(s.receiver.log, c.workload[s.sender.index]);
      longer, t := Deliver(c, longer, t);
    }
  }

  lemma NextItem(c: Config, run: seq<State>, s: State) returns (longer: seq<State>, t: State)
    requires Feasible(c) && Reached(c, run, s) && Settled(c, s) && s.sender.index < |c.workload|
    ensures Reached(c, longer, t) && Settled(c, t) && t.sender.index == s.sender.index + 1
  {
    hide Frame, Reached, FirstOfEach, Sequences, Handle;
    var item := c.workload[s.sender.index];
    PrefixStep(c.workload, s.sender.index);
    FirstOfEachMeaning(c.workload[..s.sender.index]);
    t := Moved(c, s, Sender.Send).(dataSent := s.dataSent + {Frame(Current(c, s))});
    Extend(c, run, s, t, Transmit);
    longer := run + [t];
    if item.sequence !in Sequences(c.workload[..s.sender.index]) {
      StillRunning(c, s);
      longer, t := DeliverNew(c, longer, t);
    }
    longer, t := Acknowledge(c, longer, t);
  }

  lemma {:induction false} FinishFrom(c: Config, run: seq<State>, s: State) returns (longer: seq<State>)
    requires Feasible(c) && Reached(c, run, s) && Settled(c, s)
    ensures IsRun(c, longer) && Done(c, longer[|longer| - 1])
    decreases |c.workload| - s.sender.index
  {
    hide Feasible, IsRun;
    if s.sender.index == |c.workload| {
      longer := run;
    } else {
      var t;
      longer, t := NextItem(c, run, s);
      longer := FinishFrom(c, longer, t);
    }
  }

  /* The sender can succeed exactly when every payload fits and the receiver stays for all the numbers. */
  lemma FinishableExactly(c: Config)
    ensures CanFinish(c) <==> Feasible(c)
  {
    hide Feasible, Frame;
    if Feasible(c) {
      var s := State(START, FRESH, {}, {});
      assert c.workload[..0] == [];
      var run := FinishFrom(c, [s], s);
    }
    if CanFinish(c) {
      var run :| IsRun(c, run) && Done(c, run[|run| - 1]);
      FinishNeeds(c, run);
    }
  }

  /* A workload that uses number 7 twice: a run of the programs acknowledges both items and processes only one. */
  lemma RepeatedNumberIsLost(mode: Mode) returns (c: Config, run: seq<State>)
    ensures c.workload == [Item(7, [1]), Item(7, [2])] && c.mode == mode
    ensures IsRun(c, run) && Done(c, run[|run| - 1])
    ensures run[|run| - 1].receiver.log == [Item(7, [1])]
  {
    hide Next, Init, Feasible;
    var w := [Item(7, [1]), Item(7, [2])];
    c := Config(w, 0, mode, false);
    RepeatedNumbers();
    SmallWorkload(c);
    FinishableExactly(c);
    run :| IsRun(c, run) && Done(c, run[|run| - 1]);
    FinishedRun(c, run, |run| - 1);
  }

  lemma SmallWorkload(c: Config)
    requires c.workload == [Item(7, [1]), Item(7, [2])]
    ensures Feasible(c)
  {
    RepeatedNumbers();
  }

  lemma RepeatedNumbers()
    ensures var w := [Item(7, [1]), Item(7, [2])];
      Sequences(w) == {7} && FirstOfEach(w) == [Item(7, [1])]
  {
    var w := [Item(7, [1]), Item(7, [2])];
    assert w[..1] == [Item(7, [1])] && w[..1][..0] == [];
    assert w[..1][0].sequence in Sequences(w[..1]);
    assert w[0].sequence == w[1].sequence == 7;
    assert FirstOfEach(w[..1]) == [Item(7, [1])];
  }
}
