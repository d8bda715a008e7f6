/**
 The UDP receiver: it processes each sequence number once, acknowledges every
 DATA packet, and tracks the first sequence number still missing.
 */
module UdpReceiver {
  import opened Words
  import opened Codec
  import opened Deliveries
  import opened Options
  import opened GapTracker

  datatype Mode = Normal | DropFirstAck | OutOfOrder

  datatype Failure = Undecodable(error: Error) | ExpectedData

  datatype Status = Running | Finished | Failed(failure: Failure)

  /* What outlives one datagram: the items processed, in order, and how far the test mode has come. */
  datatype Memory = Memory(log: seq<Item>, ackDropped: bool, status: Status)

  const FRESH: Memory := Memory([], false, Running)

  function AckFor(sequence: u32): (p: Packet)
    ensures Encodable(p)
  {
    Packet(ACK, sequence, [])
  }

  /* One turn of the receiver's loop: the new memory and the acknowledgement sent, if any. */
  function Handle(mode: Mode, m: Memory, arrival: Result<Packet>): (Memory, Option<Packet>) {
    match arrival
    case Err(e) => (m.(status := Failed(Undecodable(e))), None)
    case Ok(p) =>
      if p.kind != DATA then (m.(status := Failed(ExpectedData)), None)
      else
        var log := Record(m.log, p);
        if mode == DropFirstAck && !m.ackDropped then (Memory(log, true, m.status), None)
        else
          var done := match mode
            case Normal => true
            case DropFirstAck => p.sequence in Sequences(m.log)
            case OutOfOrder => |log| >= 3;
          (Memory(log, m.ackDropped, if done then Finished else m.status), Some(AckFor(p.sequence)))
  }

  /* The out-of-order report of one turn: a DATA packet, arriving for the first time, ahead of a gap. */
  ghost function Report(log: seq<Item>, arrival: Result<Packet>): seq<u32> {
    if arrival.Ok? && arrival.value.kind == DATA && arrival.value.sequence !in Sequences(log)
       && GapBelow(arrival.value.sequence, Sequences(log))
    then [arrival.value.sequence] else []
  }

  class Receiver {
    const mode: Mode
    var processed: set<u32>
    var expected: u32
    var uniqueReceived: nat
    var ackDropped: bool
    var status: Status
    ghost var log: seq<Item>
    ghost var reports: seq<u32>

    ghost predicate Valid()
      reads this
    {
      && Distinct(log)
      && processed == Sequences(log)
      && uniqueReceived == |log|
      && FirstMissing(expected, processed)
    }

    ghost function Abstract(): Memory
      reads this
    {
      Memory(log, ackDropped, status)
    }

    constructor (mode: Mode)
      ensures Valid() && Abstract() == FRESH && this.mode == mode && reports == []
    {
      this.mode := mode;
      processed := {};
      expected := 1;
      uniqueReceived := 0;
      ackDropped := false;
      status := Running;
      log := [];
      reports := [];
    }

    /* Processing a new DATA packet: the log grows, and the first missing number is found again. */
    method Process(p: Packet)
      requires Valid() && p.sequence !in processed
      requires |log| + 1 < VALUES
      modifies this
      ensures Valid() && unchanged(this`ackDropped) && unchanged(this`status)
      ensures log == old(log) + [Item(p.sequence, p.payload)]
      ensures reports == old(reports) + if GapBelow(p.sequence, old(processed)) then [p.sequence] else []
    {
      hide GapBelow, AllBefore, Distinct, Sequences;
      ReportExact(p.sequence, expected, processed);
      if p.sequence > expected {
        reports := reports + [p.sequence];
      }
      ghost var item := Item(p.sequence, p.payload);
      DistinctAppend(log, item);
      log := log + [item];
      AllBeforeStays(expected, processed, processed + {p.sequence});
      processed := processed + {p.sequence};
      uniqueReceived := uniqueReceived + 1;
      expected := Advance(expected, processed);
    }

    method ReceivePacket(p: Packet) returns (reply: Option<Packet>)
      requires Valid() && status == Running && |log| + 1 < VALUES
      modifies this
      ensures Valid()
      ensures (Abstract(), reply) == Handle(mode, old(Abstract()), Ok(p))
      ensures reports == old(reports) + Report(old(log), Ok(p))
    {
      hide GapBelow, FirstMissing;
      reply := None;
      if p.kind != DATA {
        status := Failed(ExpectedData);
        return;
      }
      var duplicate := p.sequence in processed;
      if !duplicate {
        Process(p);
      }
      if mode == DropFirstAck && !ackDropped {
        ackDropped := true;
        return;
      }
      reply := Some(AckFor(p.sequence));
      if mode == OutOfOrder && uniqueReceived >= 3 {
        status := Finished;
      } else if mode == DropFirstAck && duplicate {
        status := Finished;
      } else if mode == Normal {
        status := Finished;
      }
    }

    method Receive(datagram: seq<byte>) returns (reply: Option<Packet>)
      requires Valid() && status == Running && |log| + 1 < VALUES
      modifies this
      ensures Valid()
      ensures (Abstract(), reply) == Handle(mode, old(Abstract()), ReceiveDatagram(datagram))
      ensures reports == old(reports) + Report(old(log), ReceiveDatagram(datagram))
    {
      hide Handle, GapBelow, FirstMissing;
      var arrival := ReceiveDatagram(datagram);
      match arrival {
        case Err(e) =>
          HandleUndecodable(mode, Abstract(), e);
          status := Failed(Undecodable(e));
          reply := None;
        case Ok(p) =>
          reply := ReceivePacket(p);
      }
    }

    /* The main loop, from a fresh start, over the datagrams that arrive. */
    method Serve(datagrams: seq<seq<byte>>) returns (acks: seq<Packet>)
      requires Valid() && Abstract() == FRESH && reports == [] && |datagrams| < VALUES
      modifies this
      ensures Valid()
      ensures Abstract() == Run(mode, datagrams) && acks == Acks(mode, datagrams)
      ensures reports == Reports(mode, datagrams)
    {
      hide Handle, ReceiveDatagram, Report, FirstMissing;
      acks := [];
      var i := 0;
      while i < |datagrams| && status == Running
        invariant i <= |datagrams| && Valid() && |log| <= i
        invariant Abstract() == Run(mode, datagrams[..i]) && acks == Acks(mode, datagrams[..i])
        invariant reports == Reports(mode, datagrams[..i])
      {
        RunNext(mode, datagrams[..i], datagrams[i]);
        assert datagrams[..i + 1] == datagrams[..i] + [datagrams[i]];
        HandleLength(mode, Abstract(), ReceiveDatagram(datagrams[i]));
        var reply := Receive(datagrams[i]);
        if reply.Some? {
          acks := acks + [reply.value];
        }
        i := i + 1;
      }
      if i < |datagrams| {
        RunStops(mode, datagrams, i);
      } else {
        assert datagrams[..i] == datagrams;
      }
    }
  }

  lemma HandleLength(mode: Mode, m: Memory, arrival: Result<Packet>)
    ensures |Handle(mode, m, arrival).0.log| <= |m.log| + 1
  {
    hide FirstMissing, Distinct, Frame, Sequences;
  }

  lemma HandleUndecodable(mode: Mode, m: Memory, e: Error)
    ensures Handle(mode, m, Err(e)) == (m.(status := Failed(Undecodable(e))), None)
  {
    hide FirstMissing, Distinct, Frame;
  }

  // ----- whole runs -----

  /* The receiver's loop over the datagrams that arrive; it stops for good when it finishes or fails. */
  function Run(mode: Mode, datagrams: seq<seq<byte>>): Memory
    decreases |datagrams|
  {
    if datagrams == [] then FRESH
    else
      var m := Run(mode, datagrams[..|datagrams| - 1]);
      if m.status == Running then Handle(mode, m, ReceiveDatagram(datagrams[|datagrams| - 1])).0 else m
  }

  /* The acknowledgements sent on the way. */
  function Acks(mode: Mode, datagrams: seq<seq<byte>>): seq<Packet>
    decreases |datagrams|
  {
    if datagrams == [] then []
    else
      var (before, last) := (datagrams[..|datagrams| - 1], datagrams[|datagrams| - 1]);
      var reply := Handle(mode, Run(mode, before), ReceiveDatagram(last)).1;
      if Run(mode, before).status == Running && reply.Some? then Acks(mode, before) + [reply.value]
      else Acks(mode, before)
  }

  /* The out-of-order reports on the way. */
  ghost function Reports(mode: Mode, datagrams: seq<seq<byte>>): seq<u32>
    decreases |datagrams|
  {
    if datagrams == [] then []
    else
      var (before, last) := (datagrams[..|datagrams| - 1], datagrams[|datagrams| - 1]);
      var m := Run(mode, before);
      Reports(mode, before) + if m.status == Running then Report(m.log, ReceiveDatagram(last)) else []
  }

  /* The DATA packets a run accepts before it stops. */
  function Handled(mode: Mode, datagrams: seq<seq<byte>>): seq<Packet>
    decreases |datagrams|
  {
    if datagrams == [] then []
    else
      var (before, last) := (datagrams[..|datagrams| - 1], datagrams[|datagrams| - 1]);
      var arrival := ReceiveDatagram(last);
      if Run(mode, before).status == Running && arrival.Ok? && arrival.value.kind == DATA
      then Handled(mode, before) + [arrival.value]
      else Handled(mode, before)
  }

  lemma RunNext(mode: Mode, datagrams: seq<seq<byte>>, d: seq<byte>)
    requires Run(mode, datagrams).status == Running
    ensures var (m, reply) := Handle(mode, Run(mode, datagrams), ReceiveDatagram(d));
      && Run(mode, datagrams + [d]) == m
      && Acks(mode, datagrams + [d]) == Acks(mode, datagrams) + (if reply.Some? then [reply.value] else [])
      && Reports(mode, datagrams + [d]) ==
           Reports(mode, datagrams) + Report(Run(mode, datagrams).log, ReceiveDatagram(d))
  {
    hide Handle, ReceiveDatagram, Report;
    assert (datagrams + [d])[..|datagrams|] == datagrams;
  }

  /* Nothing that arrives after the end makes a difference. */
  lemma {:induction false} RunStops(mode: Mode, datagrams: seq<seq<byte>>, n: nat)
    requires n <= |datagrams| && Run(mode, datagrams[..n]).status != Running
    ensures Run(mode, datagrams) == Run(mode, datagrams[..n]) && Acks(mode, datagrams) == Acks(mode, datagrams[..n])
    ensures Reports(mode, datagrams) == Reports(mode, datagrams[..n])
    decreases |datagrams|
  {
    hide Handle, ReceiveDatagram, Report;
    if n == |datagrams| {
      assert datagrams[..n] == datagrams;
    } else {
      assert datagrams[..|datagrams| - 1][..n] == datagrams[..n];
      RunStops(mode, datagrams[..|datagrams| - 1], n);
    }
  }

  lemma HandleRecords(mode: Mode, m: Memory, p: Packet)
    ensures Handle(mode, m, Ok(p)).0.log == if p.kind == DATA then Record(m.log, p) else m.log
  {
  }

  /* Whatever arrives, in whatever order and however often: each DATA item accepted is processed exactly
     once, at its first arrival, with the payload that arrived then. */
  lemma {:induction false} ProcessedOnce(mode: Mode, datagrams: seq<seq<byte>>)
    ensures Run(mode, datagrams).log == FirstOfEach(DataItems(Handled(mode, datagrams)))
    decreases |datagrams|
  {
    hide Handle, ReceiveDatagram, FirstOfEach, DataItems;
    if datagrams == [] {
      NothingProcessed();
    } else {
      var before, last := datagrams[..|datagrams| - 1], datagrams[|datagrams| - 1];
      ProcessedOnce(mode, before);
      var m, arrival := Run(mode, before), ReceiveDatagram(last);
      if m.status == Running {
        if arrival.Ok? {
          HandleRecords(mode, m, arrival.value);
          DataItemsAppend(Handled(mode, before), arrival.value);
          RecordFirst(DataItems(Handled(mode, before)), arrival.value);
        } else {
          HandleUndecodable(mode, m, arrival.error);
        }
      }
    }
  }

  lemma NothingProcessed()
    ensures FirstOfEach(DataItems([])) == []
  {
  }

  function AcksFor(ps: seq<Packet>): seq<Packet> {
    seq(|ps|, i requires 0 <= i < |ps| => Packet(2, ps[i].sequence, []))
  }

  /* Every DATA packet accepted is acknowledged, duplicates too, in order; only drop-first-ack leaves out the very
     first acknowledgement. */
  lemma {:induction false} AcksExact(mode: Mode, datagrams: seq<seq<byte>>)
    ensures var handled := Handled(mode, datagrams);
      && Run(mode, datagrams).ackDropped == (mode == DropFirstAck && handled != [])
      && Acks(mode, datagrams) == AcksFor(if mode == DropFirstAck && handled != [] then handled[1..] else handled)
    decreases |datagrams|
  {
    hide ReceiveDatagram, FirstOfEach, DataItems, Record, Sequences;
    if datagrams != [] {
      var before := datagrams[..|datagrams| - 1];
      AcksExact(mode, before);
      var earlier, now := Handled(mode, before), Handled(mode, datagrams);
      if mode == DropFirstAck && earlier != [] && now != earlier {
        assert now[1..] == earlier[1..] + [now[|earlier|]];
      }
    }
  }

  /* Two runs, in whatever modes, that accept the same packets, in any order and however often, come to expect the
     same number next. */
  lemma FirstMissingIgnoresOrder(a: Receiver, b: Receiver, da: seq<seq<byte>>, db: seq<seq<byte>>)
    requires a.Valid() && a.Abstract() == Run(a.mode, da)
    requires b.Valid() && b.Abstract() == Run(b.mode, db)
    requires forall p :: p in Handled(a.mode, da) <==> p in Handled(b.mode, db)
    ensures a.expected == b.expected
  {
    hide FirstMissing, Run, Handled;
    SameNumbers(Handled(a.mode, da), Handled(b.mode, db));
    ProcessedOnce(a.mode, da);
    ProcessedOnce(b.mode, db);
    FirstOfEachMeaning(DataItems(Handled(a.mode, da)));
    FirstOfEachMeaning(DataItems(Handled(b.mode, db)));
    FirstMissingUnique(a.expected, b.expected, a.processed);
  }

  lemma SameNumbers(a: seq<Packet>, b: seq<Packet>)
    requires forall p :: p in a <==> p in b
    ensures Sequences(DataItems(a)) == Sequences(DataItems(b))
  {
    hide DataItems, Sequences;
    forall n: u32
      ensures n in Sequences(DataItems(a)) <==> n in Sequences(DataItems(b))
    {
      NumberOfPacket(a, n);
      NumberOfPacket(b, n);
    }
  }

  /* A number is among the items exactly when some DATA packet has it. */
  lemma {:induction false} NumberOfPacket(ps: seq<Packet>, n: u32)
    ensures n in Sequences(DataItems(ps)) <==> exists p :: p in ps && p.kind == DATA && p.sequence == n
    decreases |ps|
  {
    if ps != [] {
      var before, last := ps[..|ps| - 1], ps[|ps| - 1];
      NumberOfPacket(before, n);
      assert ps == before + [last];
      DataItemsAppend(before, last);
      SequencesAppend(DataItems(before), Item(last.sequence, last.payload));
    }
  }

  // ----- when the loop ends -----

  /* A datagram that the receiver cannot take: it is no packet, or no DATA packet. */
  function Objection(arrival: Result<Packet>): Option<Failure> {
    match arrival
    case Err(e) => Some(Undecodable(e))
    case Ok(p) => if p.kind == 1 then None else Some(ExpectedData)
  }

  /* While running, the receiver reads a datagram that it objects to. */
  predicate Objects(mode: Mode, datagrams: seq<seq<byte>>, i: nat, f: Failure)
    requires i < |datagrams|
  {
    Run(mode, datagrams[..i]).status == Running && Objection(ReceiveDatagram(datagrams[i])) == Some(f)
  }

  /* The receiver fails exactly when that happens, and for that reason. */
  lemma {:induction false} FailsExactly(mode: Mode, datagrams: seq<seq<byte>>, f: Failure)
    ensures Run(mode, datagrams).status == Failed(f) <==>
            exists i :: 0 <= i < |datagrams| && Objects(mode, datagrams, i, f)
    decreases |datagrams|
  {
    hide ReceiveDatagram, Handle, Objection;
    if datagrams != [] {
      var n := |datagrams| - 1;
      var before := datagrams[..n];
      FailsExactly(mode, before, f);
      forall i | 0 <= i < n
        ensures Objects(mode, before, i, f) <==> Objects(mode, datagrams, i, f)
      {
        assert before[..i] == datagrams[..i];
      }
      if Run(mode, before).status == Running {
        TurnFails(mode, Run(mode, before), ReceiveDatagram(datagrams[n]), f);
      }
      assert Run(mode, before).status == Running ==>
               (Objects(mode, datagrams, n, f) <==> Run(mode, datagrams).status == Failed(f));
    }
  }

  lemma TurnFails(mode: Mode, m: Memory, arrival: Result<Packet>, f: Failure)
    requires m.status == Running
    ensures Handle(mode, m, arrival).0.status == Failed(f) <==> Objection(arrival) == Some(f)
  {
    hide Record, Sequences;
  }

  /* The same number twice. */
  ghost predicate Repeats(ps: seq<Packet>) {
    exists i, j :: 0 <= i < j < |ps| && ps[i].sequence == ps[j].sequence
  }

  /* Apart from failures, the receiver leaves its loop exactly after the first DATA packet, in drop-first-ack mode after
     the first repetition, and in out-of-order mode after the third different number. */
  lemma {:induction false} FinishesExactly(mode: Mode, datagrams: seq<seq<byte>>)
    ensures var handled := Handled(mode, datagrams);
      Run(mode, datagrams).status == Finished <==>
        match mode
        case Normal => handled != []
        case DropFirstAck => Repeats(handled)
        case OutOfOrder => |FirstOfEach(DataItems(handled))| >= 3
    decreases |datagrams|
  {
    hide ReceiveDatagram, Record, Sequences, FirstOfEach, DataItems, Repeats, Handle;
    NeverRepeats([]);
    NothingProcessed();
    ProcessedOnce(mode, datagrams);
    if datagrams != [] {
      var before, d := datagrams[..|datagrams| - 1], datagrams[|datagrams| - 1];
      FinishesExactly(mode, before);
      ProcessedOnce(mode, before);
      AcksExact(mode, before);
      if Run(mode, before).status == Running {
        HandledAreData(mode, before);
        TurnEnds(mode, Run(mode, before), Handled(mode, before), ReceiveDatagram(d));
      }
    }
  }

  lemma NeverRepeats(ps: seq<Packet>)
    requires |ps| <= 1
    ensures !Repeats(ps)
  {
  }

  lemma {:induction false} HandledAreData(mode: Mode, datagrams: seq<seq<byte>>)
    ensures forall p :: p in Handled(mode, datagrams) ==> p.kind == DATA
    decreases |datagrams|
  {
    hide ReceiveDatagram, Handle;
    if datagrams != [] {
      HandledAreData(mode, datagrams[..|datagrams| - 1]);
    }
  }

  /* How one turn of a running receiver ends it. */
  lemma TurnEnds(mode: Mode, m: Memory, handled: seq<Packet>, arrival: Result<Packet>)
    requires m.status == Running && m.log == FirstOfEach(DataItems(handled))
    requires m.ackDropped == (mode == DropFirstAck && handled != [])
    requires mode == Normal ==> handled == []
    requires mode == DropFirstAck ==> !Repeats(handled)
    requires forall p :: p in handled ==> p.kind == DATA
    ensures var after := Handle(mode, m, arrival).0;
      if arrival.Ok? && arrival.value.kind == DATA
      then var more := handled + [arrival.value];
        after.status == Finished <==>
          match mode
          case Normal => true
          case DropFirstAck => Repeats(more)
          case OutOfOrder => |after.log| >= 3
      else after.status.Failed?
  {
    hide FirstOfEach, DataItems, Record, Sequences, Repeats;
    if arrival.Ok? {
      var p := arrival.value;
      NumbersHandled(handled, p.sequence);
      FirstOfEachMeaning(DataItems(handled));
      RepeatsNext(handled, p);
      if handled == [] {
        NeverRepeats([] + [p]);
      }
    }
  }

  lemma NumbersHandled(ps: seq<Packet>, n: u32)
    requires forall p :: p in ps ==> p.kind == DATA
    ensures n in Sequences(DataItems(ps)) <==> exists i :: 0 <= i < |ps| && ps[i].sequence == n
  {
    hide DataItems, Sequences;
    NumberOfPacket(ps, n);
    if i :| 0 <= i < |ps| && ps[i].sequence == n {
      assert ps[i] in ps;
    }
  }

  lemma RepeatsNext(ps: seq<Packet>, p: Packet)
    ensures Repeats(ps + [p]) <==> Repeats(ps) || exists i :: 0 <= i < |ps| && ps[i].sequence == p.sequence
  {
    var more := ps + [p];
    if Repeats(ps) {
      var i, j :| 0 <= i < j < |ps| && ps[i].sequence == ps[j].sequence;
      assert more[i].sequence == more[j].sequence;
    }
    if i :| 0 <= i < |ps| && ps[i].sequence == p.sequence {
      assert more[i].sequence == more[|ps|].sequence;
    }
  }
}
