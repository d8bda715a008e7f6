/**
 What a receiver has processed: items in order of processing, and the
 deduplicated form of a list of arrivals.
 */
module Deliveries {
  import opened Words
  import opened Codec

  /* The sequence number and payload of one DATA packet. */
  datatype Item = Item(sequence: u32, payload: seq<byte>)

  function Sequences(items: seq<Item>): set<u32> {
    set i | 0 <= i < |items| :: items[i].sequence
  }

  ghost predicate Distinct(items: seq<Item>) {
    forall i, j :: 0 <= i < j < |items| ==> items[i].sequence != items[j].sequence
  }

  /* items with every repetition of a sequence number left out. */
  function FirstOfEach(items: seq<Item>): seq<Item>
    decreases |items|
  {
    if items == [] then []
    else
      var (before, last) := (items[..|items| - 1], items[|items| - 1]);
      if last.sequence in Sequences(before) then FirstOfEach(before) else FirstOfEach(before) + [last]
  }

  lemma SequencesAppend(items: seq<Item>, x: Item)
    ensures Sequences(items + [x]) == Sequences(items) + {x.sequence}
  {
    var longer := items + [x];
    forall s | s in Sequences(items)
      ensures s in Sequences(longer)
    {
      var i :| 0 <= i < |items| && items[i].sequence == s;
      assert longer[i].sequence == s;
    }
    assert longer[|items|].sequence == x.sequence;
  }

  lemma FirstOfEachAppend(items: seq<Item>, x: Item)
    ensures FirstOfEach(items + [x]) ==
            if x.sequence in Sequences(items) then FirstOfEach(items) else FirstOfEach(items) + [x]
  {
    assert (items + [x])[..|items|] == items;
  }

  /* Deduplication keeps the sequence numbers, one item each, and each item is the first with its number. */
  lemma {:induction false} FirstOfEachMeaning(items: seq<Item>)
    ensures Sequences(FirstOfEach(items)) == Sequences(items)
    ensures Distinct(FirstOfEach(items))
    ensures forall i :: 0 <= i < |FirstOfEach(items)| ==> IsFirst(items, FirstOfEach(items)[i])
    decreases |items|
  {
    if items != [] {
      var before, last := items[..|items| - 1], items[|items| - 1];
      FirstOfEachMeaning(before);
      assert items == before + [last];
      SequencesAppend(before, last);
      var kept := FirstOfEach(before);
      forall i | 0 <= i < |kept|
        ensures IsFirst(items, kept[i])
      {
        var k :| IsFirstAt(before, kept[i], k);
        assert IsFirstAt(items, kept[i], k);
      }
      if last.sequence !in Sequences(before) {
        SequencesAppend(kept, last);
        assert IsFirstAt(items, last, |before|);
        assert Distinct(kept + [last]) by {
          assert forall i :: 0 <= i < |kept| ==> kept[i].sequence in Sequences(kept);
        }
      }
    }
  }

  ghost predicate IsFirstAt(items: seq<Item>, x: Item, k: int) {
    0 <= k < |items| && items[k] == x && forall j :: 0 <= j < k ==> items[j].sequence != x.sequence
  }

  /* x is the earliest of items with its sequence number. */
  ghost predicate IsFirst(items: seq<Item>, x: Item) {
    exists k :: IsFirstAt(items, x, k)
  }

  lemma {:induction false} FirstOfEachLength(items: seq<Item>)
    ensures |FirstOfEach(items)| <= |items|
    ensures |FirstOfEach(items)| == |items| ==> Distinct(items) && FirstOfEach(items) == items
    decreases |items|
  {
    hide Sequences, Distinct;
    if items == [] {
      NoneRepeated(items);
    } else {
      var before, last := items[..|items| - 1], items[|items| - 1];
      FirstOfEachLength(before);
      assert items == before + [last];
      if |FirstOfEach(items)| == |items| {
        DistinctAppend(before, last);
      }
    }
  }

  lemma NoneRepeated(items: seq<Item>)
    requires items == []
    ensures Distinct(items)
  {
  }

  /* Deduplication changes nothing exactly when the sequence numbers are distinct. */
  lemma {:induction false} FirstOfEachIdentity(items: seq<Item>)
    ensures FirstOfEach(items) == items <==> Distinct(items)
    decreases |items|
  {
    FirstOfEachLength(items);
    if items != [] && Distinct(items) {
      var before, last := items[..|items| - 1], items[|items| - 1];
      FirstOfEachIdentity(before);
      assert items == before + [last];
      assert forall i :: 0 <= i < |before| ==> items[i].sequence != last.sequence;
    }
  }

  lemma {:induction false} DistinctCount(items: seq<Item>)
    requires Distinct(items)
    ensures |Sequences(items)| == |items|
    decreases |items|
  {
    if items != [] {
      var before, last := items[..|items| - 1], items[|items| - 1];
      DistinctCount(before);
      assert items == before + [last];
      SequencesAppend(before, last);
    }
  }

  lemma DistinctAppend(items: seq<Item>, x: Item)
    requires Distinct(items) && x.sequence !in Sequences(items)
    ensures Distinct(items + [x])
    ensures Sequences(items + [x]) == Sequences(items) + {x.sequence}
    ensures |Sequences(items + [x])| == |items| + 1
  {
    SequencesAppend(items, x);
    assert forall i :: 0 <= i < |items| ==> items[i].sequence in Sequences(items);
    DistinctCount(items + [x]);
  }

  // ----- arrivals -----

  /* Processing a DATA packet: only the first with its number counts. */
  function Record(log: seq<Item>, p: Packet): seq<Item> {
    if p.sequence in Sequences(log) then log else log + [Item(p.sequence, p.payload)]
  }

  /* The items that DATA packets among arrivals carry. */
  function DataItems(arrivals: seq<Packet>): seq<Item>
    decreases |arrivals|
  {
    if arrivals == [] then []
    else
      var (before, last) := (DataItems(arrivals[..|arrivals| - 1]), arrivals[|arrivals| - 1]);
      if last.kind == DATA then before + [Item(last.sequence, last.payload)] else before
  }

  lemma DataItemsAppend(arrivals: seq<Packet>, p: Packet)
    ensures DataItems(arrivals + [p]) ==
            if p.kind == DATA then DataItems(arrivals) + [Item(p.sequence, p.payload)] else DataItems(arrivals)
  {
    assert (arrivals + [p])[..|arrivals|] == arrivals;
  }

  lemma {:induction false} DataItemsConcat(a: seq<Packet>, b: seq<Packet>)
    ensures DataItems(a + b) == DataItems(a) + DataItems(b)
    decreases |b|
  {
    if b == [] {
      assert a + b == a;
    } else {
      var n := |b| - 1;
      DataItemsConcat(a, b[..n]);
      assert a + b == (a + b[..n]) + [b[n]] && b == b[..n] + [b[n]];
      DataItemsAppend(a + b[..n], b[n]);
      DataItemsAppend(b[..n], b[n]);
    }
  }

  /* Recording one more DATA packet on top of deduplicated arrivals. */
  lemma RecordFirst(items: seq<Item>, p: Packet)
    ensures Record(FirstOfEach(items), p) == FirstOfEach(items + [Item(p.sequence, p.payload)])
  {
    FirstOfEachMeaning(items);
    FirstOfEachAppend(items, Item(p.sequence, p.payload));
  }
}
