// The transform consumer's loop: raw deliveries in, clean ones or dead letters out.

module Transform {
  import opened Ordering
  import opened Domain
  import opened Ledgers
  import opened Markers
  import opened Deliveries

  /** What the consumer has published and recorded. */
  datatype Effects = Effects(ledger: Ledger, clean: seq<Delivery>, dlq: seq<Delivery>)

  function CleanMarkers(run: Run, partitions: nat): (ms: seq<Delivery>)
    ensures |ms| == partitions
    ensures forall n :: 0 <= n < |ms| ==> ms[n] == PartitionMarker(MarkerRow(run, CleanBooks, n))
  {
    seq(partitions, n requires 0 <= n < partitions => PartitionMarker(MarkerRow(run, CleanBooks, n)))
  }

  /** One delivery: forwarded, parked, or recorded and passed on once every partition has reported. */
  function After(x: Effects, e: Delivery, partitions: nat): Effects {
    match e
    case BookEvent(_, Some(_)) => x.(clean := x.clean + [e])
    case BookEvent(_, None) => x.(dlq := x.dlq + [e])
    case PartitionMarker(row) =>
      var ledger := RecordMarker(x.ledger, row);
      var closing := Complete(ledger, ledger.markers, row.run, row.topic);
      x.(ledger := ledger, clean := if closing then x.clean + CleanMarkers(row.run, partitions) else x.clean)
  }

  function AfterAll(x: Effects, events: seq<Delivery>, partitions: nat): Effects {
    if events == [] then x else After(AfterAll(x, events[..|events|-1], partitions), events[|events|-1], partitions)
  }

  lemma AfterAllStep(x: Effects, init: seq<Delivery>, e: Delivery, partitions: nat)
    ensures AfterAll(x, init + [e], partitions) == After(AfterAll(x, init, partitions), e, partitions)
  {
    assert (init + [e])[..|init|] == init;
  }

  function Books(events: seq<Delivery>): seq<Delivery> {
    if events == [] then [] else
      Books(events[..|events|-1]) +
        if events[|events|-1].BookEvent? then [events[|events|-1]] else []
  }

  function Usables(events: seq<Delivery>): seq<Delivery> {
    if events == [] then [] else
      var e := events[|events|-1];
      Usables(events[..|events|-1]) + if e.BookEvent? && e.record.Some? then [e] else []
  }

  lemma {:induction false} BooksJoin(xs: seq<Delivery>, ys: seq<Delivery>)
    ensures Books(xs + ys) == Books(xs) + Books(ys)
  {
    if ys == [] {
      assert xs + ys == xs;
    } else {
      assert (xs + ys)[..|xs + ys|-1] == xs + ys[..|ys|-1];
      BooksJoin(xs, ys[..|ys|-1]);
    }
  }

  lemma {:induction false} NoBooks(ms: seq<Delivery>)
    requires forall m :: m in ms ==> m.PartitionMarker?
    ensures Books(ms) == []
  {
    if ms != [] {
      assert ms[|ms|-1] in ms;
      NoBooks(ms[..|ms|-1]);
    }
  }

  /**
   * Every record read comes out once: the usable ones on the clean topic and the rest parked,
   * each in the order they were read, and nothing else is published as a record.
   */
  lemma {:induction false} EveryRecordComesOut(x: Effects, events: seq<Delivery>, partitions: nat)
    ensures Books(AfterAll(x, events, partitions).clean) == Books(x.clean) + Usables(events)
    ensures AfterAll(x, events, partitions).dlq == x.dlq + Rejects(events)
  {
    if events != [] {
      var init, e := events[..|events|-1], events[|events|-1];
      EveryRecordComesOut(x, init, partitions);
      RecordComesOut(AfterAll(x, init, partitions), e, partitions);
    }
  }

  lemma RecordComesOut(x: Effects, e: Delivery, partitions: nat)
    ensures Books(After(x, e, partitions).clean) == Books(x.clean) + if e.BookEvent? && e.record.Some? then [e] else []
    ensures After(x, e, partitions).dlq == x.dlq + if Unusable(e) then [e] else []
  {
    if e.BookEvent? && e.record.Some? {
      BooksJoin(x.clean, [e]);
      assert Books([e]) == [e] by { assert [e][..0] == []; }
    } else if e.PartitionMarker? {
      NoBooks(CleanMarkers(e.row.run, partitions));
      BooksJoin(x.clean, CleanMarkers(e.row.run, partitions));
    }
  }

  /** Markers published so far, past those that were already there. */
  predicate Published(before: seq<Delivery>, after: seq<Delivery>, row: MarkerRow) {
    && |before| <= |after|
    && PartitionMarker(row) in after[|before|..]
  }

  lemma {:induction false} OnlyAppends(x: Effects, events: seq<Delivery>, partitions: nat)
    ensures x.clean <= AfterAll(x, events, partitions).clean
    ensures x.ledger.markers <= AfterAll(x, events, partitions).ledger.markers
    ensures x.ledger.expected == AfterAll(x, events, partitions).ledger.expected
  {
    if events != [] {
      OnlyAppends(x, events[..|events|-1], partitions);
    }
  }

  lemma ObservedGrows(a: set<MarkerRow>, b: set<MarkerRow>, l: Ledger, m: Ledger, run: Run, topic: Topic)
    requires a <= b && l.expected == m.expected
    requires Complete(l, a, run, topic)
    ensures Complete(m, b, run, topic)
  {
    SubsetSize(Observed(a, run, topic), Observed(b, run, topic));
  }

  /** A clean boundary is published only for a run whose topic has fully reported. */
  lemma {:induction false} BoundariesWaitForEveryPartition(x: Effects, events: seq<Delivery>, partitions: nat, row: MarkerRow)
    requires Published(x.clean, AfterAll(x, events, partitions).clean, row)
    ensures row.topic == CleanBooks && row.partition < partitions
    ensures var l := AfterAll(x, events, partitions).ledger;
      exists e :: (e in events && e.PartitionMarker? && e.row.run == row.run
                   && Complete(l, l.markers, row.run, e.row.topic))
  {
    if events != [] {
      var init, e := events[..|events|-1], events[|events|-1];
      var before, after := AfterAll(x, init, partitions), AfterAll(x, events, partitions);
      assert events == init + [e];
      OnlyAppends(x, init, partitions);
      if Published(x.clean, before.clean, row) {
        BoundariesWaitForEveryPartition(x, init, partitions, row);
        var d :| d in init && d.PartitionMarker? && d.row.run == row.run
          && Complete(before.ledger, before.ledger.markers, row.run, d.row.topic);
        ObservedGrows(before.ledger.markers, after.ledger.markers, before.ledger, after.ledger, row.run, d.row.topic);
        assert d in events;
      } else {
        NewlyPublished(x.clean, before.clean, after.clean, row);
      }
    }
  }

  lemma NewlyPublished(first: seq<Delivery>, before: seq<Delivery>, after: seq<Delivery>, row: MarkerRow)
    requires first <= before <= after
    requires Published(first, after, row) && !Published(first, before, row)
    ensures PartitionMarker(row) in after[|before|..]
  {
    assert after[|first|..] == before[|first|..] + after[|before|..];
  }

  /** The rows whose markers have been read. */
  function RowsOf(events: seq<Delivery>): set<MarkerRow> {
    set e | e in events && e.PartitionMarker? :: e.row
  }

  /**
   * A marker of the topic has been read, its topology is frozen, and the rows there were and the
   * rows read make up as many as it expects.
   */
  ghost predicate Reported(l: Ledger, events: seq<Delivery>, run: Run, topic: Topic) {
    && (exists p :: PartitionMarker(MarkerRow(run, topic, p)) in events)
    && TopicKey(run, topic) in l.expected
    && |set m | m in l.markers + RowsOf(events) && m.run == run && m.topic == topic| >= l.expected[TopicKey(run, topic)]
  }

  lemma {:induction false} RowsRecorded(x: Effects, events: seq<Delivery>, partitions: nat, run: Run, topic: Topic)
    requires TopicKey(run, topic) in x.ledger.expected
    ensures Observed(AfterAll(x, events, partitions).ledger.markers, run, topic) ==
      set m | m in x.ledger.markers + RowsOf(events) && m.run == run && m.topic == topic
  {
    if events != [] {
      var init, e := events[..|events|-1], events[|events|-1];
      RowsRecorded(x, init, partitions, run, topic);
      OnlyAppends(x, init, partitions);
      MoreRows(init, e);
      assert events == init + [e];
      RowsAfter(AfterAll(x, init, partitions), e, partitions, run, topic);
    } else {
      assert RowsOf(events) == {};
    }
  }

  lemma MoreRows(init: seq<Delivery>, e: Delivery)
    ensures RowsOf(init + [e]) == RowsOf(init) + if e.PartitionMarker? then {e.row} else {}
  {
  }

  lemma RowsAfter(x: Effects, e: Delivery, partitions: nat, run: Run, topic: Topic)
    requires TopicKey(run, topic) in x.ledger.expected
    ensures var now, was := Observed(After(x, e, partitions).ledger.markers, run, topic), Observed(x.ledger.markers, run, topic);
      now == was + if e.PartitionMarker? && e.row.run == run && e.row.topic == topic then {e.row} else {}
  {
  }

  /** Whenever the last marker of a topic that has reported is read, every clean marker of the run is published. */
  lemma {:induction false} ReportedIsAnnounced(x: Effects, events: seq<Delivery>, partitions: nat, run: Run, topic: Topic,
                                               p: Partition)
    requires Reported(x.ledger, events, run, topic) && p < partitions
    ensures Published(x.clean, AfterAll(x, events, partitions).clean, MarkerRow(run, CleanBooks, p))
  {
    var init, e := events[..|events|-1], events[|events|-1];
    var before, after := AfterAll(x, init, partitions), AfterAll(x, events, partitions);
    assert events == init + [e];
    OnlyAppends(x, init, partitions);
    if e.PartitionMarker? && e.row.run == run && e.row.topic == topic {
      RowsRecorded(x, events, partitions, run, topic);
      assert CleanMarkers(run, partitions)[p] == PartitionMarker(MarkerRow(run, CleanBooks, p));
      StillPublished(x.clean, before.clean, CleanMarkers(run, partitions), MarkerRow(run, CleanBooks, p));
    } else {
      NotThis(x.ledger, init, e, run, topic);
      ReportedIsAnnounced(x, init, partitions, run, topic, p);
      assert after.clean == before.clean + after.clean[|before.clean|..];
      StillPublished(x.clean, before.clean, after.clean[|before.clean|..], MarkerRow(run, CleanBooks, p));
    }
  }

  lemma NotThis(l: Ledger, init: seq<Delivery>, e: Delivery, run: Run, topic: Topic)
    requires Reported(l, init + [e], run, topic)
    requires !(e.PartitionMarker? && e.row.run == run && e.row.topic == topic)
    ensures Reported(l, init, run, topic)
  {
    var p :| PartitionMarker(MarkerRow(run, topic, p)) in init + [e];
    assert PartitionMarker(MarkerRow(run, topic, p)) in init;
    assert (set m | m in l.markers + RowsOf(init + [e]) && m.run == run && m.topic == topic) ==
      (set m | m in l.markers + RowsOf(init) && m.run == run && m.topic == topic);
  }

  lemma StillPublished(first: seq<Delivery>, before: seq<Delivery>, more: seq<Delivery>, row: MarkerRow)
    requires first <= before
    requires Published(first, before, row) || PartitionMarker(row) in more
    ensures Published(first, before + more, row)
  {
    assert (before + more)[|first|..] == before[|first|..] + more;
  }

  /**
   * The clean markers published are exactly those of the runs one of whose topics has reported:
   * every partition's, and no other.
   */
  lemma BoundariesExactlyWhen(x: Effects, events: seq<Delivery>, partitions: nat, row: MarkerRow)
    ensures Published(x.clean, AfterAll(x, events, partitions).clean, row) <==>
      && row.topic == CleanBooks && row.partition < partitions
      && exists topic :: Reported(x.ledger, events, row.run, topic)
  {
    if Published(x.clean, AfterAll(x, events, partitions).clean, row) {
      BoundariesWaitForEveryPartition(x, events, partitions, row);
      var l := AfterAll(x, events, partitions).ledger;
      var e :| e in events && e.PartitionMarker? && e.row.run == row.run && Complete(l, l.markers, row.run, e.row.topic);
      OnlyAppends(x, events, partitions);
      RowsRecorded(x, events, partitions, row.run, e.row.topic);
      assert PartitionMarker(MarkerRow(row.run, e.row.topic, e.row.partition)) in events;
      assert Reported(x.ledger, events, row.run, e.row.topic);
    }
    if topic :| row.topic == CleanBooks && row.partition < partitions && Reported(x.ledger, events, row.run, topic) {
      ReportedIsAnnounced(x, events, partitions, row.run, topic, row.partition);
    }
  }

  /** What a run of the consumer leaves: every record forwarded or parked, and every boundary due announced. */
  ghost predicate Served(x: Effects, events: seq<Delivery>, partitions: nat, y: Effects) {
    && Books(y.clean) == Books(x.clean) + Usables(events)
    && y.dlq == x.dlq + Rejects(events)
    && (forall row :: Published(x.clean, y.clean, row) <==>
          && row.topic == CleanBooks && row.partition < partitions
          && exists topic :: Reported(x.ledger, events, row.run, topic))
    && y.ledger.runs == x.ledger.runs && y.ledger.expected == x.ledger.expected
    && (forall m :: m in y.ledger.markers <==>
          m in x.ledger.markers || (m in RowsOf(events) && TopicKey(m.run, m.topic) in x.ledger.expected))
  }

  lemma AfterAllServes(x: Effects, events: seq<Delivery>, partitions: nat)
    ensures Served(x, events, partitions, AfterAll(x, events, partitions))
  {
    hide AfterAll, Published, Reported, Books, Usables, Rejects;
    EveryRecordComesOut(x, events, partitions);
    forall row ensures Published(x.clean, AfterAll(x, events, partitions).clean, row) <==>
      && row.topic == CleanBooks && row.partition < partitions
      && exists topic :: Reported(x.ledger, events, row.run, topic)
    {
      BoundariesExactlyWhen(x, events, partitions, row);
    }
    RowsAndRuns(x, events, partitions);
  }

  lemma {:induction false} RowsAndRuns(x: Effects, events: seq<Delivery>, partitions: nat)
    ensures var l := AfterAll(x, events, partitions).ledger;
      && l.runs == x.ledger.runs && l.expected == x.ledger.expected
      && (forall m :: m in l.markers <==>
            m in x.ledger.markers || (m in RowsOf(events) && TopicKey(m.run, m.topic) in x.ledger.expected))
  {
    if events != [] {
      var init, e := events[..|events|-1], events[|events|-1];
      RowsAndRuns(x, init, partitions);
      MoreRows(init, e);
      assert events == init + [e];
    }
  }

  class TransformConsumer {
    const ledger: RunTables
    const cleanPartitions: nat
    var clean: seq<Delivery>
    var dlq: seq<Delivery>
    var committed: nat

    constructor (ledger: RunTables, partitions: nat)
      ensures this.ledger == ledger && cleanPartitions == partitions
      ensures clean == [] && dlq == [] && committed == 0
    {
      this.ledger, cleanPartitions := ledger, partitions;
      clean, dlq, committed := [], [], 0;
    }

    ghost function State(): Effects
      reads this`clean, this`dlq, ledger
    {
      Effects(ledger.State(), clean, dlq)
    }

    method HandleBook(e: Delivery)
      requires e.BookEvent?
      modifies this`clean, this`dlq
      ensures State() == After(old(State()), e, cleanPartitions)
    {
      if e.record.None? {
        dlq := dlq + [e];
      } else {
        clean := clean + [e];
      }
    }

    method EmitCleanMarkers(run: Run)
      modifies this`clean
      ensures clean == old(clean) + CleanMarkers(run, cleanPartitions)
    {
      clean := clean + CleanMarkers(run, cleanPartitions);
    }

    method HandleMarker(e: Delivery)
      requires e.PartitionMarker?
      modifies this`clean, ledger
      ensures State() == After(old(State()), e, cleanPartitions)
      ensures ledger.State() == RecordMarker(old(ledger.State()), e.row)
      ensures forall row :: Published(old(clean), clean, row) <==>
        && row.topic == CleanBooks && row.partition < cleanPartitions && row.run == e.row.run
        && Complete(ledger.State(), ledger.observations, e.row.run, e.row.topic)
    {
      PublishedMore(clean, clean, e.row.run, cleanPartitions);
      assert clean[|clean|..] == [];
      var known := ledger.RecordMarker(e.row);
      var complete := ledger.IsTopicComplete(e.row.run, e.row.topic);
      if complete {
        EmitCleanMarkers(e.row.run);
      }
    }

    /** Forward the boundary of every run whose raw topic had fully reported before a restart. */
    method Sweep()
      modifies this`clean
      ensures old(clean) <= clean
      ensures Books(clean) == Books(old(clean))
      ensures forall row :: Published(old(clean), clean, row) <==>
        && row.topic == CleanBooks && row.partition < cleanPartitions
        && row.run in ledger.runs && ledger.runs[row.run].status == Processing
        && Complete(ledger.State(), ledger.observations, row.run, RawBooks)
    {
      ghost var before := clean;
      var waiting := ledger.RunsAwaiting(RawBooks);
      ghost var all := waiting;
      assert clean[|before|..] == [];
      while waiting != {}
        invariant waiting <= all && before <= clean
        invariant Books(clean) == Books(before)
        invariant forall row :: Published(before, clean, row) <==>
          && row.topic == CleanBooks && row.partition < cleanPartitions && row.run in all - waiting
          && Complete(ledger.State(), ledger.observations, row.run, RawBooks)
        decreases |waiting|
      {
        var run :| run in waiting;
        var complete := ledger.IsTopicComplete(run, RawBooks);
        if complete {
          ghost var sent := clean;
          EmitCleanMarkers(run);
          NoBooks(CleanMarkers(run, cleanPartitions));
          BooksJoin(sent, CleanMarkers(run, cleanPartitions));
          PublishedMore(before, sent, run, cleanPartitions);
        }
        waiting := waiting - {run};
      }
    }

    /** May be called only once everything yielded so far has had its effect. */
    method Commit(n: nat, ghost seen: seq<Delivery>, ghost start: Effects)
      requires n == |seen| && State() == AfterAll(start, seen, cleanPartitions)
      modifies this`committed
      ensures committed == n
    {
      committed := n;
    }

    /** Consume until the source stops, committing after every delivery. */
    method Run(events: seq<Delivery>) returns (ghost resumed: Effects)
      modifies this, ledger
      ensures Served(resumed, events, cleanPartitions, State())
      ensures resumed.ledger == old(ledger.State()) && resumed.dlq == old(dlq)
      ensures old(clean) <= resumed.clean && Books(resumed.clean) == Books(old(clean))
      ensures forall row :: Published(old(clean), resumed.clean, row) <==>
        && row.topic == CleanBooks && row.partition < cleanPartitions
        && row.run in old(ledger.runs) && old(ledger.runs)[row.run].status == Processing
        && Complete(old(ledger.State()), old(ledger.observations), row.run, RawBooks)
      ensures committed == |events|
    {
      Sweep();
      committed := 0;
      resumed := State();
      for i := 0 to |events|
        invariant State() == AfterAll(resumed, events[..i], cleanPartitions)
        invariant committed == i
      {
        assert events[..i + 1] == events[..i] + [events[i]];
        AfterAllStep(resumed, events[..i], events[i], cleanPartitions);
        if events[i].PartitionMarker? {
          HandleMarker(events[i]);
        } else {
          HandleBook(events[i]);
        }
        Commit(i + 1, events[..i + 1], resumed);
      }
      assert events[..|events|] == events;
      AfterAllServes(resumed, events, cleanPartitions);
    }
  }

  lemma PublishedMore(before: seq<Delivery>, sent: seq<Delivery>, run: Run, partitions: nat)
    requires before <= sent
    ensures forall row :: Published(before, sent + CleanMarkers(run, partitions), row) <==>
      Published(before, sent, row) || (row.topic == CleanBooks && row.partition < partitions && row.run == run)
  {
    var more := CleanMarkers(run, partitions);
    assert (sent + more)[|before|..] == sent[|before|..] + more;
    forall row: MarkerRow | row.topic == CleanBooks && row.partition < partitions && row.run == run
      ensures PartitionMarker(row) in more
    {
      assert more[row.partition] == PartitionMarker(row);
    }
  }
}
