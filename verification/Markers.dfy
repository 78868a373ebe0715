// Run status and run boundaries, as rows: observation is a row and completion is a query.

module Ledgers {
  import opened Ordering

  type Run = nat
  type Partition = nat

  datatype Topic = RawBooks | CleanBooks

  datatype Status = Running | Processing | Success | Failed

  datatype RunRow = RunRow(
    status: Status, extracted: Option<nat>, loaded: nat, rejected: nat,
    closed: nat)  // how many times processing_ended_at has been written

  datatype TopicKey = TopicKey(run: Run, topic: Topic)

  datatype MarkerRow = MarkerRow(run: Run, topic: Topic, partition: Partition)

  /** Runs, the partition count frozen for each of their topics, and the markers observed. */
  datatype Ledger = Ledger(
    runs: map<Run, RunRow>, expected: map<TopicKey, nat>, markers: set<MarkerRow>)

  /** The schema's references: a topology belongs to a run, a marker to a topology. */
  ghost predicate Referenced(l: Ledger) {
    && (forall k :: k in l.expected ==> k.run in l.runs)
    && (forall m :: m in l.markers ==> TopicKey(m.run, m.topic) in l.expected)
  }

  // ----- what each statement does to the rows

  /** The first expectation written for a topic stands. */
  function FreezeTopology(l: Ledger, run: Run, topic: Topic, partitions: nat): Ledger {
    var k := TopicKey(run, topic);
    if k in l.expected then l else l.(expected := l.expected[k := partitions])
  }

  /** A marker with no frozen topology is skipped; one already observed changes nothing. */
  function RecordMarker(l: Ledger, m: MarkerRow): Ledger {
    if TopicKey(m.run, m.topic) in l.expected then l.(markers := l.markers + {m}) else l
  }

  function Observed(seen: set<MarkerRow>, run: Run, topic: Topic): set<MarkerRow> {
    set m | m in seen && m.run == run && m.topic == topic
  }

  /** The completion query, over the marker rows a transaction can see. */
  predicate Complete(l: Ledger, seen: set<MarkerRow>, run: Run, topic: Topic) {
    var k := TopicKey(run, topic);
    k in l.expected && |Observed(seen, run, topic)| >= l.expected[k]
  }

  predicate HasStatus(l: Ledger, run: Run, status: Status) {
    run in l.runs && l.runs[run].status == status
  }

  function Awaiting(l: Ledger, topic: Topic): set<Run> {
    set k | k in l.expected && k.topic == topic && HasStatus(l, k.run, Processing) :: k.run
  }

  function MarkProcessing(l: Ledger, run: Run, extracted: Option<nat>): Ledger {
    if !HasStatus(l, run, Running) then l
    else l.(runs := l.runs[run := l.runs[run].(
           status := Processing,
           extracted := if extracted.Some? then extracted else l.runs[run].extracted)])
  }

  /** The barrier's one transaction: both topologies, then the handover. */
  function Handover(l: Ledger, run: Run, raw: nat, clean: nat, extracted: Option<nat>): Ledger {
    MarkProcessing(FreezeTopology(FreezeTopology(l, run, RawBooks, raw), run, CleanBooks, clean), run, extracted)
  }

  function Finalise(l: Ledger, seen: set<MarkerRow>, run: Run, topic: Topic): Ledger {
    if Complete(l, seen, run, topic) && HasStatus(l, run, Processing) then
      l.(runs := l.runs[run := l.runs[run].(status := Success, closed := l.runs[run].closed + 1)])
    else l
  }

  function RecordLoaded(l: Ledger, run: Run, loaded: nat, rejected: nat): Ledger {
    if run !in l.runs then l
    else l.(runs := l.runs[run := l.runs[run].(
           loaded := l.runs[run].loaded + loaded, rejected := l.runs[run].rejected + rejected)])
  }

  /** Runs a kill left running are closed; those the consumers carry are not touched. */
  function Abandon(l: Ledger, run: Run): Ledger {
    if !HasStatus(l, run, Running) then l
    else l.(runs := l.runs[run := l.runs[run].(status := Failed, closed := l.runs[run].closed + 1)])
  }

  /**
   * What the barrier leaves: both topologies frozen at the first count given, a running run
   * handed over with its extraction tally, every other run and every marker as it was.
   */
  lemma HandoverIs(l: Ledger, run: Run, raw: nat, clean: nat, extracted: Option<nat>)
    ensures var m := Handover(l, run, raw, clean, extracted);
      && m.markers == l.markers
      && (forall k :: k in m.expected <==> k in l.expected || k.run == run)
      && (forall k :: k in m.expected ==>
            (m.expected[k] == if k in l.expected then l.expected[k] else if k.topic == RawBooks then raw else clean))
      && (forall r :: r in m.runs <==> r in l.runs)
      && (forall r :: r in m.runs && (r != run || l.runs[r].status != Running) ==> m.runs[r] == l.runs[r])
      && (run in l.runs && l.runs[run].status == Running ==>
            && m.runs[run].status == Processing && m.runs[run].loaded == l.runs[run].loaded
            && m.runs[run].rejected == l.runs[run].rejected && m.runs[run].closed == l.runs[run].closed
            && m.runs[run].extracted == if extracted == None then l.runs[run].extracted else extracted)
  {
    forall k: TopicKey ensures k.run == run <==> k == TopicKey(run, RawBooks) || k == TopicKey(run, CleanBooks) {
      assert k.topic.RawBooks? || k.topic.CleanBooks?;
    }
  }

  // ----- what the query means

  lemma {:induction false} PartitionsBelow(rows: set<MarkerRow>, run: Run, topic: Topic, n: nat)
    requires forall m :: m in rows ==> m.run == run && m.topic == topic && m.partition < n
    ensures |rows| <= n
    ensures |rows| == n ==> forall p: nat :: p < n ==> MarkerRow(run, topic, p) in rows
  {
    if n == 0 {
      if m :| m in rows { }
    } else {
      var last := MarkerRow(run, topic, n - 1);
      var rest := rows - {last};
      assert last !in rows ==> rest == rows;
      assert last in rows ==> rows == rest + {last};
      PartitionsBelow(rest, run, topic, n - 1);
    }
  }

  lemma {:induction false} EveryPartition(run: Run, topic: Topic, n: nat) returns (rows: set<MarkerRow>)
    ensures |rows| == n
    ensures forall m :: m in rows <==> m.run == run && m.topic == topic && m.partition < n
  {
    if n == 0 {
      rows := {};
    } else {
      var fewer := EveryPartition(run, topic, n - 1);
      rows := fewer + {MarkerRow(run, topic, n - 1)};
    }
  }

  /**
   * Counting rows is enough: when no marker names a partition outside the frozen range, the
   * count reaches the expectation exactly when every partition has reported.
   */
  lemma CompleteMeansEveryPartition(l: Ledger, seen: set<MarkerRow>, run: Run, topic: Topic)
    requires TopicKey(run, topic) in l.expected
    requires forall m :: m in Observed(seen, run, topic) ==> m.partition < l.expected[TopicKey(run, topic)]
    ensures Complete(l, seen, run, topic) <==>
      forall p: nat :: p < l.expected[TopicKey(run, topic)] ==> MarkerRow(run, topic, p) in seen
  {
    var n := l.expected[TopicKey(run, topic)];
    var rows := Observed(seen, run, topic);
    PartitionsBelow(rows, run, topic, n);
    if forall p: nat :: p < n ==> MarkerRow(run, topic, p) in seen {
      var all := EveryPartition(run, topic, n);
      forall m | m in all ensures m in rows {
        assert m == MarkerRow(run, topic, m.partition);
      }
      SubsetSize(all, rows);
    }
  }

  /** One row outside the range is enough to make the count lie: the assumption is needed. */
  lemma StrayMarkerMisleads()
    ensures var l := Ledger(map[0 := RunRow(Processing, None, 0, 0, 0)], map[TopicKey(0, CleanBooks) := 1],
                            {MarkerRow(0, CleanBooks, 7)});
      Referenced(l) && Complete(l, l.markers, 0, CleanBooks) && MarkerRow(0, CleanBooks, 0) !in l.markers
  {
    assert Observed({MarkerRow(0, CleanBooks, 7)}, 0, CleanBooks) == {MarkerRow(0, CleanBooks, 7)};
  }
}

/** The tables, and the statements issued against them. */
module Markers {
  import opened Ordering
  import opened Ledgers

  class RunTables {
    var runs: map<Run, RunRow>
    var topologies: map<TopicKey, nat>
    var observations: set<MarkerRow>

    constructor (runs: map<Run, RunRow>)
      ensures State() == Ledger(runs, map[], {})
    {
      this.runs, topologies, observations := runs, map[], {};
    }

    ghost function State(): Ledger
      reads this
    {
      Ledger(runs, topologies, observations)
    }

    method FreezeTopology(run: Run, topic: Topic, partitions: nat)
      modifies this
      ensures State() == Ledgers.FreezeTopology(old(State()), run, topic, partitions)
      ensures topologies == if TopicKey(run, topic) in old(topologies) then old(topologies)
                            else old(topologies)[TopicKey(run, topic) := partitions]
      ensures runs == old(runs) && observations == old(observations)
    {
      if TopicKey(run, topic) !in topologies {
        topologies := topologies[TopicKey(run, topic) := partitions];
      }
    }

    method RecordMarker(m: MarkerRow) returns (known: bool)
      modifies this
      ensures State() == Ledgers.RecordMarker(old(State()), m)
      ensures known <==> TopicKey(m.run, m.topic) in old(topologies)
      ensures known ==> m in observations
      ensures observations == if known then old(observations) + {m} else old(observations)
      ensures runs == old(runs) && topologies == old(topologies)
    {
      known := TopicKey(m.run, m.topic) in topologies;
      if known {
        observations := observations + {m};
      }
    }

    method IsTopicComplete(run: Run, topic: Topic) returns (complete: bool)
      ensures complete == Complete(State(), observations, run, topic)
    {
      var k := TopicKey(run, topic);
      if k !in topologies {
        return false;
      }
      var observed := set m | m in observations && m.run == run && m.topic == topic;
      assert observed == Observed(observations, run, topic);
      complete := |observed| >= topologies[k];
    }

    method RunsAwaiting(topic: Topic) returns (waiting: set<Run>)
      ensures waiting == Awaiting(State(), topic)
      ensures forall run :: run in waiting <==>
        run in runs && runs[run].status == Processing && TopicKey(run, topic) in topologies
    {
      assert forall k: TopicKey :: k == TopicKey(k.run, k.topic);
      waiting := set k | k in topologies && k.topic == topic && k.run in runs && runs[k.run].status == Processing
                 :: k.run;
    }

    method MarkProcessing(run: Run, extracted: Option<nat>)
      modifies this
      ensures State() == Ledgers.MarkProcessing(old(State()), run, extracted)
      ensures topologies == old(topologies) && observations == old(observations) && runs.Keys == old(runs).Keys
      ensures forall r :: r in runs && (r != run || old(runs)[r].status != Running) ==> runs[r] == old(runs)[r]
      ensures run in runs && old(runs)[run].status == Running ==> runs[run].status == Processing
      ensures run in runs && old(runs)[run].status == Running ==>
        runs[run].extracted == (if extracted.Some? then extracted else old(runs)[run].extracted)
      ensures run in runs ==> runs[run].loaded == old(runs)[run].loaded && runs[run].rejected == old(runs)[run].rejected
      ensures run in runs ==> runs[run].closed == old(runs)[run].closed
    {
      if run in runs && runs[run].status == Running {
        var row := runs[run].(status := Processing);
        if extracted.Some? {
          row := row.(extracted := extracted);
        }
        runs := runs[run := row];
      }
    }

    method RecordLoaded(run: Run, loaded: nat, rejected: nat)
      modifies this
      ensures State() == Ledgers.RecordLoaded(old(State()), run, loaded, rejected)
      ensures runs.Keys == old(runs).Keys && topologies == old(topologies) && observations == old(observations)
      ensures forall r :: r in runs && r != run ==> runs[r] == old(runs)[r]
      ensures run in runs ==> runs[run] == old(runs)[run].(loaded := old(runs)[run].loaded + loaded,
                                                           rejected := old(runs)[run].rejected + rejected)
    {
      if loaded == 0 && rejected == 0 {
        assert run in runs ==> runs[run := runs[run]] == runs;
        return;
      }
      if run in runs {
        runs := runs[run := runs[run].(loaded := runs[run].loaded + loaded,
                                       rejected := runs[run].rejected + rejected)];
      }
    }

    method FinaliseIfComplete(run: Run, topic: Topic) returns (finalised: bool)
      modifies this
      ensures State() == Finalise(old(State()), old(observations), run, topic)
      ensures finalised <==> HasStatus(old(State()), run, Processing) && HasStatus(State(), run, Success)
      ensures runs == if !finalised then old(runs)
                      else old(runs)[run := old(runs)[run].(status := Success, closed := old(runs)[run].closed + 1)]
      ensures topologies == old(topologies) && observations == old(observations)
    {
      var complete := IsTopicComplete(run, topic);
      finalised := complete && run in runs && runs[run].status == Processing;
      if finalised {
        runs := runs[run := runs[run].(status := Success, closed := runs[run].closed + 1)];
      }
    }

    /** Close a run's raw topic: freeze both topologies, hand over, then emit a marker each. */
    method EmitRunBoundary(run: Run, partitions: nat, extracted: Option<nat>) returns (sent: seq<MarkerRow>)
      modifies this
      ensures State() == Handover(old(State()), run, partitions, partitions, extracted)
      ensures |sent| == partitions
      ensures forall p: nat :: p < partitions ==> sent[p] == MarkerRow(run, RawBooks, p)
      ensures TopicKey(run, RawBooks) in topologies && TopicKey(run, CleanBooks) in topologies
    {
      FreezeTopology(run, RawBooks, partitions);
      FreezeTopology(run, CleanBooks, partitions);
      MarkProcessing(run, extracted);
      sent := seq(partitions, p requires 0 <= p < partitions => MarkerRow(run, RawBooks, p));
    }
  }
}
