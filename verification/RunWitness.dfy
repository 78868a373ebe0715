// One run from start to success, through a crash of either consumer, an unusable record and duplicates.

module RunWitness {
  import opened Ordering
  import opened Ledgers
  import opened RunProtocol
  import opened RunRecovery

  const RAW_ROW := MarkerRow(7, RawBooks, 0)
  const CLEAN_ROW := MarkerRow(7, CleanBooks, 0)

  ghost predicate Reaches(s: System, t: System) {
    exists steps :: Runs(s, steps, t)
  }

  lemma Nowhere(s: System)
    ensures Reaches(s, s)
  {
    assert Runs(s, [], s);
  }

  lemma On(s: System, t: System, step: Step)
    requires Reaches(s, t) && Enabled(t, step)
    ensures Reaches(s, Apply(t, step))
  {
    var steps :| Runs(s, steps, t);
    var u := Apply(t, step);
    assert [step][1..] == [] && Runs(u, [], u);
    assert Runs(t, [step], u);
    hide Apply, Enabled;
    RunsJoin(s, steps, t, [step], u);
  }

  function Begun(): System {
    System([[]], [0], map[], [[]], [0], map[], Ledger(map[], map[], {}), {}, {})
  }

  /** Two records extracted, the run handed over, and its boundary on the one partition. */
  function Extracted(): System {
    Begun().(raw := [[Book(7, 0), Book(7, 1), Marker(7)]],
             ledger := Ledger(map[7 := RunRow(Processing, Some(2), 0, 0, 0)],
                              map[TopicKey(7, RawBooks) := 1, TopicKey(7, CleanBooks) := 1], {}))
  }

  /** The first record forwarded, and nobody to say so. */
  function Crashed(): System {
    Extracted().(clean := [[Book(7, 0)]])
  }

  /** Read again from the start: the first forwarded twice, the second parked, the boundary passed on. */
  function Transformed(): System {
    Crashed().(transformers := map[0 := Transformer(map[0 := 3], {})], rawCommitted := [3],
               clean := [[Book(7, 0), Book(7, 0), Marker(7)]], parked := {Book(7, 1)},
               ledger := Extracted().ledger.(markers := {RAW_ROW}))
  }

  /** The first copy loaded, and nobody to say so. */
  function Written(): System {
    Transformed().(loaded := {Book(7, 0)})
  }

  function Finished(): System {
    Written().(loaders := map[0 := Loader(map[0 := 3], [])], cleanCommitted := [3],
               ledger := Extracted().ledger.(runs := map[7 := RunRow(Success, Some(2), 0, 0, 1)],
                                             markers := {RAW_ROW, CLEAN_ROW}))
  }

  lemma Grows(log: Log, e: Event, more: Log)
    requires log + [e] == more
    ensures Append([log], 0, e) == [more]
  {
  }

  lemma Overwritten<V>(v: V, w: V)
    ensures (map[0 := v])[0 := w] == map[0 := w]
  {
  }

  lemma Extracts()
    ensures Reaches(Begun(), Extracted())
  {
    hide Reaches;
    var s := Begun();
    Nowhere(s);
    var s1 := Apply(s, StartRun(7));
    On(s, s, StartRun(7));
    var s2 := Apply(s1, Produce(0, 7, 0));
    On(s, s1, Produce(0, 7, 0));
    Grows([], Book(7, 0), [Book(7, 0)]);
    assert s2.raw == [[Book(7, 0)]];
    var s3 := Apply(s2, Produce(0, 7, 1));
    On(s, s2, Produce(0, 7, 1));
    Grows([Book(7, 0)], Book(7, 1), [Book(7, 0), Book(7, 1)]);
    assert s3.raw == [[Book(7, 0), Book(7, 1)]];
    var s4 := Apply(s3, CloseExtraction(7, Some(2)));
    On(s, s3, CloseExtraction(7, Some(2)));
    On(s, s4, EmitBoundary(7, 0));
    Grows([Book(7, 0), Book(7, 1)], Marker(7), [Book(7, 0), Book(7, 1), Marker(7)]);
    assert Apply(s4, EmitBoundary(7, 0)) == Extracted();
  }

  lemma CrashesOnce(s: System)
    requires Reaches(s, Extracted())
    ensures Reaches(s, Crashed())
  {
    hide Reaches;
    var t := Extracted();
    var t1 := Apply(t, StartTransformer(0));
    On(s, t, StartTransformer(0));
    var t2 := Apply(t1, AssignRaw(0, 0));
    On(s, t1, AssignRaw(0, 0));
    assert t2.transformers[0] == Transformer(map[0 := 0], {});
    assert t2.transformers == map[0 := Transformer(map[0 := 0], {})];
    var t3 := Apply(t2, Forward(0, 0, 0));
    On(s, t2, Forward(0, 0, 0));
    Grows([], Book(7, 0), [Book(7, 0)]);
    On(s, t3, CrashTransformer(0));
    assert Apply(t3, CrashTransformer(0)) == Crashed();
  }

  lemma Transforms(s: System)
    requires Reaches(s, Crashed())
    ensures Reaches(s, Transformed())
  {
    hide Reaches, Complete;
    var t := Crashed();
    var t1 := Apply(t, StartTransformer(0));
    On(s, t, StartTransformer(0));
    var t2 := Apply(t1, AssignRaw(0, 0));
    On(s, t1, AssignRaw(0, 0));
    assert t2.transformers[0] == Transformer(map[0 := 0], {});
    assert t2.transformers == map[0 := Transformer(map[0 := 0], {})];
    var t3 := Apply(t2, Forward(0, 0, 0));
    On(s, t2, Forward(0, 0, 0));
    Overwritten(0, 1);
    assert t3.transformers[0] == Transformer(map[0 := 1], {});
    Grows([Book(7, 0)], Book(7, 0), [Book(7, 0), Book(7, 0)]);
    assert t3.transformers == map[0 := Transformer(map[0 := 1], {})] && t3.clean == [[Book(7, 0), Book(7, 0)]];
    var t4 := Apply(t3, ParkRaw(0, 0));
    On(s, t3, ParkRaw(0, 0));
    Overwritten(1, 2);
    assert t4.transformers[0] == Transformer(map[0 := 2], {});
    assert t4.transformers == map[0 := Transformer(map[0 := 2], {})];
    PassesOn(s, t4);
  }

  lemma TheOnlyMarker(s: System)
    requires |s.clean| == 1
    ensures CleanMarkers(s, 7) == {CLEAN_ROW}
  {
    assert CLEAN_ROW in CleanMarkers(s, 7);
  }

  lemma AllReported(l: Ledger)
    requires l.expected == Extracted().ledger.expected && l.markers == {}
    ensures RecordMarker(l, RAW_ROW).markers == {RAW_ROW}
    ensures Complete(RecordMarker(l, RAW_ROW), {RAW_ROW}, 7, RawBooks)
  {
    assert Observed({RAW_ROW}, 7, RawBooks) == {RAW_ROW};
  }

  lemma PassesOn(s: System, t: System)
    requires Reaches(s, t)
    requires t == Crashed().(transformers := map[0 := Transformer(map[0 := 2], {})],
                             clean := [[Book(7, 0), Book(7, 0)]], parked := {Book(7, 1)})
    ensures Reaches(s, Transformed())
  {
    AllReported(t.ledger);
    TheOnlyMarker(t);
    hide Reaches, Complete, CleanMarkers;
    assert t.raw[0][2] == Marker(7);
    var t1 := Apply(t, ObserveRaw(0, 0, {RAW_ROW}));
    On(s, t, ObserveRaw(0, 0, {RAW_ROW}));
    Overwritten(2, 3);
    assert t1.transformers[0] == Transformer(map[0 := 3], {CLEAN_ROW});
    assert t1.transformers == map[0 := Transformer(map[0 := 3], {CLEAN_ROW})];
    assert t1 == t.(transformers := map[0 := Transformer(map[0 := 3], {CLEAN_ROW})], ledger := Transformed().ledger);
    EmitsAndCommits(s, t1);
  }

  lemma EmitsAndCommits(s: System, t: System)
    requires Reaches(s, t)
    requires t == Crashed().(transformers := map[0 := Transformer(map[0 := 3], {CLEAN_ROW})],
                             clean := [[Book(7, 0), Book(7, 0)]], parked := {Book(7, 1)}, ledger := Transformed().ledger)
    ensures Reaches(s, Transformed())
  {
    hide Reaches;
    var t1 := Apply(t, EmitClean(0, CLEAN_ROW));
    On(s, t, EmitClean(0, CLEAN_ROW));
    Grows([Book(7, 0), Book(7, 0)], Marker(7), [Book(7, 0), Book(7, 0), Marker(7)]);
    assert t1.clean == [[Book(7, 0), Book(7, 0), Marker(7)]];
    assert t1.transformers[0] == Transformer(map[0 := 3], {});
    assert t1.transformers == map[0 := Transformer(map[0 := 3], {})];
    On(s, t1, CommitRaw(0));
    assert Apply(t1, CommitRaw(0)) == Transformed();
  }

  /** A load consumer starts, is given the partition, and reads the first record. */
  lemma TakesFirst(s: System, t: System)
    requires Reaches(s, t) && t.loaders == map[] && t.cleanCommitted == [0]
    requires t.clean == [[Book(7, 0), Book(7, 0), Marker(7)]]
    ensures Reaches(s, t.(loaders := map[0 := Loader(map[0 := 1], [Book(7, 0)])]))
  {
    hide Reaches, Complete, Handover, Finalise, CleanMarkers, Abandon, Append, Commit, Events;
    var t1 := Apply(t, StartLoader(0));
    On(s, t, StartLoader(0));
    var t2 := Apply(t1, AssignClean(0, 0));
    On(s, t1, AssignClean(0, 0));
    assert t2.loaders[0] == Loader(map[0 := 0], []);
    assert t2.loaders == map[0 := Loader(map[0 := 0], [])];
    var t3 := Apply(t2, Take(0, 0));
    On(s, t2, Take(0, 0));
    Overwritten(0, 1);
    assert t3.loaders[0] == Loader(map[0 := 1], [Book(7, 0)]);
    assert t3.loaders == map[0 := Loader(map[0 := 1], [Book(7, 0)])];
    assert t3 == t.(loaders := map[0 := Loader(map[0 := 1], [Book(7, 0)])]);
  }

  lemma WritesOnce(s: System)
    requires Reaches(s, Transformed())
    ensures Reaches(s, Written())
  {
    hide Reaches;
    var t := Transformed();
    TakesFirst(s, t);
    var t3 := t.(loaders := map[0 := Loader(map[0 := 1], [Book(7, 0)])]);
    var t4 := Apply(t3, Write(0, 1));
    On(s, t3, Write(0, 1));
    assert Events([Book(7, 0)]) == {Book(7, 0)} && [Book(7, 0)][..1] == [Book(7, 0)];
    On(s, t4, CrashLoader(0));
    assert Apply(t4, CrashLoader(0)) == Written();
  }

  lemma Finishes(s: System)
    requires Reaches(s, Written())
    ensures Reaches(s, Finished())
  {
    hide Reaches;
    var t := Written();
    TakesFirst(s, t);
    TakesSecond(s, t.(loaders := map[0 := Loader(map[0 := 1], [Book(7, 0)])]));
    var t4 := t.(loaders := map[0 := Loader(map[0 := 2], [Book(7, 0), Book(7, 0)])]);
    var t5 := Apply(t4, Write(0, 2));
    On(s, t4, Write(0, 2));
    var batch := [Book(7, 0), Book(7, 0)];
    assert batch[..2] == batch && batch[2..] == [] && Events(batch) == {Book(7, 0)};
    assert t5.loaders[0] == Loader(map[0 := 2], []);
    assert t5.loaders == map[0 := Loader(map[0 := 2], [])];
    assert t5.loaded == {Book(7, 0)};
    Closes(s, t5);
  }

  lemma TakesSecond(s: System, t: System)
    requires Reaches(s, t) && t.loaders == map[0 := Loader(map[0 := 1], [Book(7, 0)])]
    requires t.clean == [[Book(7, 0), Book(7, 0), Marker(7)]]
    ensures Reaches(s, t.(loaders := map[0 := Loader(map[0 := 2], [Book(7, 0), Book(7, 0)])]))
  {
    hide Reaches;
    var t1 := Apply(t, Take(0, 0));
    On(s, t, Take(0, 0));
    Overwritten(1, 2);
    assert t1.loaders[0] == Loader(map[0 := 2], [Book(7, 0), Book(7, 0)]);
    assert t1.loaders == map[0 := Loader(map[0 := 2], [Book(7, 0), Book(7, 0)])];
    assert t1 == t.(loaders := t1.loaders);
  }

  lemma Closes(s: System, t: System)
    requires Reaches(s, t) && t == Written().(loaders := map[0 := Loader(map[0 := 2], [])])
    ensures Reaches(s, Finished())
  {
    hide Reaches, Handover, CleanMarkers, Abandon, Append, Events;
    assert t.clean[0][2] == Marker(7);
    var seen := {RAW_ROW, CLEAN_ROW};
    var ledger := RecordMarker(t.ledger, CLEAN_ROW);
    assert ledger.markers == seen && Observed(seen, 7, CleanBooks) == {CLEAN_ROW};
    var t1 := Apply(t, ObserveClean(0, 0, seen));
    On(s, t, ObserveClean(0, 0, seen));
    Overwritten(2, 3);
    assert t1.loaders[0] == Loader(map[0 := 3], []);
    assert t1.loaders == map[0 := Loader(map[0 := 3], [])];
    assert t1.ledger == Finished().ledger;
    On(s, t1, CommitClean(0));
    assert Apply(t1, CommitClean(0)) == Finished();
  }

  /**
   * Success is reached, and not for want of anything to load: a run of two records in which each
   * consumer crashes once with its work done and uncommitted. The usable record is published
   * twice and loaded, the other is parked, and the run is closed once.
   */
  lemma ACrashedRunSucceeds()
    ensures Initial(Begun()) && Reachable(Finished())
    ensures HasStatus(Finished().ledger, 7, Success) && Finished().ledger.runs[7].closed == 1
    ensures Finished().raw == [[Book(7, 0), Book(7, 1), Marker(7)]]
    ensures Finished().clean == [[Book(7, 0), Book(7, 0), Marker(7)]]
    ensures Finished().loaded == {Book(7, 0)} && Finished().parked == {Book(7, 1)}
  {
    Extracts();
    CrashesOnce(Begun());
    Transforms(Begun());
    WritesOnce(Begun());
    Finishes(Begun());
  }
}
