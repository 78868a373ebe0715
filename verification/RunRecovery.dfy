// From anywhere a crash can leave it, a handed-over run can still be brought to its close.

module RunRecovery {
  import opened Ordering
  import opened Ledgers
  import opened RunProtocol
  import opened RunSafety

  /** Steps the consumers take, without any help from the producer or the barrier. */
  predicate ConsumersOwn(step: Step) {
    !(step.StartRun? || step.AbandonRun? || step.Produce? || step.CloseExtraction? || step.EmitBoundary?)
  }

  ghost predicate Leads(s: System, t: System) {
    exists steps :: Runs(s, steps, t) && forall i :: 0 <= i < |steps| ==> ConsumersOwn(steps[i])
  }

  lemma LeadsNowhere(s: System)
    ensures Leads(s, s)
  {
    assert Runs(s, [], s);
  }

  lemma LeadsOne(s: System, step: Step)
    requires Enabled(s, step) && ConsumersOwn(step)
    ensures Leads(s, Apply(s, step))
  {
    var t := Apply(s, step);
    assert Runs(t, [], t);
    assert [step][1..] == [];
    assert Runs(s, [step], t);
  }

  lemma {:induction false} RunsJoin(s: System, xs: seq<Step>, t: System, ys: seq<Step>, u: System)
    requires Runs(s, xs, t) && Runs(t, ys, u)
    ensures Runs(s, xs + ys, u)
    decreases |xs|
  {
    if xs == [] {
      assert xs + ys == ys;
    } else {
      RunsJoin(Apply(s, xs[0]), xs[1..], t, ys, u);
      assert (xs + ys)[1..] == xs[1..] + ys;
    }
  }

  lemma LeadsOn(s: System, t: System, u: System)
    requires Leads(s, t) && Leads(t, u)
    ensures Leads(s, u)
  {
    var xs :| Runs(s, xs, t) && forall i :: 0 <= i < |xs| ==> ConsumersOwn(xs[i]);
    var ys :| Runs(t, ys, u) && forall i :: 0 <= i < |ys| ==> ConsumersOwn(ys[i]);
    RunsJoin(s, xs, t, ys, u);
  }

  /** A run the barrier has finished with: handed over, and a boundary on every raw partition. */
  ghost predicate HandedOver(s: System, run: Run) {
    && (HasStatus(s.ledger, run, Processing) || HasStatus(s.ledger, run, Success))
    && Frozen(s, run, RawBooks)
    && forall p :: 0 <= p < |s.raw| ==> Marker(run) in s.raw[p]
  }

  /** What recovery keeps while it works. */
  ghost predicate Onward(s: System, t: System, run: Run) {
    Leads(s, t) && Inv(t) && HandedOver(t, run) && s.raw == t.raw && Later(s, t)
  }

  lemma OnwardStart(s: System, run: Run)
    requires Inv(s) && HandedOver(s, run)
    ensures Onward(s, s, run)
  {
    LeadsNowhere(s);
  }

  lemma OnwardOn(s: System, t: System, u: System, run: Run)
    requires Onward(s, t, run) && Onward(t, u, run)
    ensures Onward(s, u, run)
  {
    hide Leads, Inv, HandedOver;
    LeadsOn(s, t, u);
    LaterOn(s, t, u);
  }

  lemma OnwardParts(s: System, t: System, run: Run)
    requires Onward(s, t, run)
    ensures Inv(t) && HandedOver(t, run) && s.raw == t.raw && Later(s, t)
    ensures |s.clean| == |t.clean|
  {
    hide Inv, HandedOver, Leads;
  }

  lemma OnwardThrough(s: System, t: System, u: System, run: Run)
    requires Onward(s, t, run) && Onward(t, u, run)
    ensures Onward(s, u, run)
    ensures Inv(u) && HandedOver(u, run) && s.raw == t.raw == u.raw
    ensures |s.clean| == |t.clean| == |u.clean|
  {
    OnwardOn(s, t, u, run);
    OnwardParts(s, u, run);
    OnwardParts(s, t, run);
  }

  lemma LaterOn(s: System, t: System, u: System)
    requires Later(s, t) && Later(t, u)
    ensures Later(s, u)
  {
    forall p | 0 <= p < |s.raw| ensures s.raw[p] <= u.raw[p] {
      assert s.raw[p] <= t.raw[p] && t.raw[p] <= u.raw[p];
    }
    forall q | 0 <= q < |s.clean| ensures s.clean[q] <= u.clean[q] {
      assert s.clean[q] <= t.clean[q] && t.clean[q] <= u.clean[q];
    }
  }

  lemma OnwardOne(s: System, step: Step, run: Run)
    requires Inv(s) && HandedOver(s, run) && Enabled(s, step) && ConsumersOwn(step)
    ensures Onward(s, Apply(s, step), run)
  {
    LeadsOne(s, step);
    StepKeepsInv(s, step);
    hide Leads, Inv;
    StepIsLater(s, step);
    StatusOnward(s, step, run);
  }

  lemma TakeStep(s: System, step: Step, run: Run) returns (t: System)
    requires Inv(s) && HandedOver(s, run) && Enabled(s, step) && ConsumersOwn(step)
    ensures t == Apply(s, step) && Onward(s, t, run) && Inv(t) && HandedOver(t, run)
  {
    hide *;
    OnwardOne(s, step, run);
    t := Apply(s, step);
    OnwardParts(s, t, run);
  }

  /** No step of theirs takes anything back. */
  lemma StepIsLater(s: System, step: Step)
    requires Enabled(s, step) && ConsumersOwn(step)
    ensures Later(s, Apply(s, step))
    ensures Apply(s, step).raw == s.raw
  {
    hide Complete;
    match step
    case Forward(c, p, q) => AppendGrows(s.clean, q, RawEvent(s, c, p));
    case EmitClean(c, m) => AppendGrows(s.clean, m.partition, Marker(m.run));
    case _ =>
  }

  lemma StatusOnward(s: System, step: Step, run: Run)
    requires Enabled(s, step) && ConsumersOwn(step)
    ensures HasStatus(s.ledger, run, Processing) ==>
      HasStatus(Apply(s, step).ledger, run, Processing) || HasStatus(Apply(s, step).ledger, run, Success)
    ensures HasStatus(s.ledger, run, Success) ==> HasStatus(Apply(s, step).ledger, run, Success)
  {
    hide Complete;
  }

  // ----- the transform side

  predicate Owes(s: System, c: ConsumerId, owed: set<MarkerRow>) {
    && c in s.transformers && s.transformers[c].owed == owed
    && forall m :: m in owed ==> m.partition < |s.clean|
  }

  lemma EmitShape(s: System, c: ConsumerId, m: MarkerRow)
    requires c in s.transformers && Owes(s, c, s.transformers[c].owed) && m in s.transformers[c].owed
    ensures Enabled(s, EmitClean(c, m)) && ConsumersOwn(EmitClean(c, m))
    ensures var t := Apply(s, EmitClean(c, m));
      && Owes(t, c, s.transformers[c].owed - {m})
      && t.transformers[c].at == s.transformers[c].at
      && m.partition < |t.clean| && Marker(m.run) in t.clean[m.partition]
  {
    var t := Apply(s, EmitClean(c, m));
    assert t.clean[m.partition][|s.clean[m.partition]|] == Marker(m.run);
  }

  lemma EmitOne(s: System, c: ConsumerId, m: MarkerRow, run: Run) returns (t: System)
    requires Inv(s) && HandedOver(s, run) && c in s.transformers && Owes(s, c, s.transformers[c].owed)
    requires m in s.transformers[c].owed
    ensures Onward(s, t, run) && Inv(t) && HandedOver(t, run)
    ensures Owes(t, c, s.transformers[c].owed - {m})
    ensures t.transformers[c].at == s.transformers[c].at
    ensures m.partition < |t.clean| && Marker(m.run) in t.clean[m.partition]
  {
    hide *;
    EmitShape(s, c, m);
    t := TakeStep(s, EmitClean(c, m), run);
  }

  lemma ReachedStays(s: System, t: System, run: Run, q: Partition, e: Event)
    requires Onward(s, t, run) && q < |s.clean| && e in s.clean[q]
    ensures q < |t.clean| && e in t.clean[q]
  {
    OnwardParts(s, t, run);
    assert s.clean[q] <= t.clean[q];
    var i :| 0 <= i < |s.clean[q]| && s.clean[q][i] == e;
    assert t.clean[q][i] == e;
  }

  /** Emit every clean marker a transform consumer owes. */
  lemma {:induction false} EmitAll(s: System, c: ConsumerId, run: Run, owed: set<MarkerRow>) returns (t: System)
    requires Inv(s) && HandedOver(s, run) && Owes(s, c, owed)
    ensures Onward(s, t, run) && Inv(t) && HandedOver(t, run)
    ensures c in t.transformers && t.transformers[c] == s.transformers[c].(owed := {})
    ensures forall m :: m in owed ==> m.partition < |t.clean| && Marker(m.run) in t.clean[m.partition]
    decreases owed
  {
    hide Inv, HandedOver, Onward;
    if owed == {} {
      OnwardStart(s, run);
      t := s;
    } else {
      var m :| m in owed;
      var u := EmitOne(s, c, m, run);
      t := EmitAll(u, c, run, owed - {m});
      OnwardOn(s, u, t, run);
      ReachedStays(u, t, run, m.partition, Marker(m.run));
    }
  }

  lemma HasPartitions(s: System)
    requires Inv(s)
    ensures s.raw != [] && s.clean != []
  {
  }

  lemma ForwardShape(s: System, c: ConsumerId, p: Partition)
    requires TransformerAt(s, c, p) && RawEvent(s, c, p).Book? && s.clean != []
    ensures Enabled(s, Forward(c, p, 0)) && ConsumersOwn(Forward(c, p, 0))
    ensures var t := Apply(s, Forward(c, p, 0));
      && c in t.transformers
      && t.transformers[c] == Transformer(s.transformers[c].at[p := s.transformers[c].at[p] + 1], {})
  {
  }

  lemma ForwardOne(s: System, c: ConsumerId, p: Partition, run: Run) returns (t: System)
    requires Inv(s) && HandedOver(s, run) && TransformerAt(s, c, p) && RawEvent(s, c, p).Book?
    ensures Onward(s, t, run) && c in t.transformers
    ensures t.transformers[c] == Transformer(s.transformers[c].at[p := s.transformers[c].at[p] + 1], {})
  {
    hide *;
    HasPartitions(s);
    ForwardShape(s, c, p);
    t := TakeStep(s, Forward(c, p, 0), run);
  }

  /** Observing moves the consumer past the boundary, and leaves it owing markers for real partitions. */
  lemma ObserveShape(s: System, c: ConsumerId, p: Partition, seen: set<MarkerRow>)
    requires TransformerAt(s, c, p) && RawEvent(s, c, p).Marker?
    requires seen == RecordMarker(s.ledger, MarkerRow(RawEvent(s, c, p).run, RawBooks, p)).markers
    ensures Enabled(s, ObserveRaw(c, p, seen)) && ConsumersOwn(ObserveRaw(c, p, seen))
    ensures var t := Apply(s, ObserveRaw(c, p, seen));
      && c in t.transformers && Owes(t, c, t.transformers[c].owed)
      && t.transformers[c].at == s.transformers[c].at[p := s.transformers[c].at[p] + 1]
  {
    hide RecordMarker, Complete;
  }

  lemma ObserveOne(s: System, c: ConsumerId, p: Partition, run: Run) returns (t: System)
    requires Inv(s) && HandedOver(s, run) && TransformerAt(s, c, p) && RawEvent(s, c, p).Marker?
    ensures Onward(s, t, run) && Inv(t) && HandedOver(t, run)
    ensures c in t.transformers && Owes(t, c, t.transformers[c].owed)
    ensures t.transformers[c].at == s.transformers[c].at[p := s.transformers[c].at[p] + 1]
  {
    hide *;
    var own := MarkerRow(RawEvent(s, c, p).run, RawBooks, p);
    var seen := RecordMarker(s.ledger, own).markers;
    ObserveShape(s, c, p, seen);
    t := TakeStep(s, ObserveRaw(c, p, seen), run);
  }

  /** Deal with one event: forward a record, observe a boundary and emit what it completes. */
  lemma StepRaw(s: System, c: ConsumerId, p: Partition, run: Run) returns (t: System)
    requires Inv(s) && HandedOver(s, run) && TransformerAt(s, c, p)
    ensures Onward(s, t, run) && c in t.transformers
    ensures t.transformers[c] == Transformer(s.transformers[c].at[p := s.transformers[c].at[p] + 1], {})
  {
    hide Inv, HandedOver, Onward;
    if RawEvent(s, c, p).Book? {
      t := ForwardOne(s, c, p, run);
    } else {
      var u := ObserveOne(s, c, p, run);
      t := EmitAll(u, c, run, u.transformers[c].owed);
      OnwardOn(s, u, t, run);
    }
  }

  lemma {:induction false} ReadRaw(s: System, c: ConsumerId, p: Partition, run: Run) returns (t: System)
    requires Inv(s) && HandedOver(s, run) && c in s.transformers && s.transformers[c].owed == {}
    requires p < |s.raw| && p in s.transformers[c].at && s.transformers[c].at[p] <= |s.raw[p]|
    ensures Onward(s, t, run) && t.raw == s.raw
    ensures c in t.transformers
    ensures t.transformers[c] == Transformer(s.transformers[c].at[p := |s.raw[p]|], {})
    decreases |s.raw[p]| - s.transformers[c].at[p]
  {
    hide Inv, HandedOver, Onward;
    if s.transformers[c].at[p] == |s.raw[p]| {
      OnwardStart(s, run);
      t := s;
    } else {
      var u := StepRaw(s, c, p, run);
      OnwardParts(s, u, run);
      t := ReadRaw(u, c, p, run);
      OnwardOn(s, u, t, run);
    }
  }

  ghost predicate RawReported(s: System, run: Run, n: nat) {
    forall p: Partition :: p < n ==> MarkerRow(run, RawBooks, p) in s.ledger.markers
  }

  lemma ReadToTheEnd(s: System, c: ConsumerId, p: Partition, run: Run)
    requires Inv(s) && HandedOver(s, run) && c in s.transformers && p < |s.raw|
    requires p in s.transformers[c].at && s.transformers[c].at[p] == |s.raw[p]|
    ensures MarkerRow(run, RawBooks, p) in s.ledger.markers
  {
    assert TransformerReady(s, s.transformers[c]);
    var i :| 0 <= i < |s.raw[p]| && s.raw[p][i] == Marker(run);
  }

  lemma AssignRawShape(s: System, c: ConsumerId, p: Partition)
    requires c in s.transformers && p < |s.raw| && p < |s.rawCommitted| && HandedUpTo(s, p, s.rawCommitted[p])
    ensures Enabled(s, AssignRaw(c, p)) && ConsumersOwn(AssignRaw(c, p))
    ensures var t := Apply(s, AssignRaw(c, p));
      && t.raw == s.raw && c in t.transformers && t.transformers[c].owed == s.transformers[c].owed
      && p in t.transformers[c].at && t.transformers[c].at[p] <= |t.raw[p]|
  {
    hide Handed;
  }

  lemma AssignRawOne(s: System, c: ConsumerId, p: Partition, run: Run) returns (t: System)
    requires Inv(s) && HandedOver(s, run) && c in s.transformers && s.transformers[c].owed == {} && p < |s.raw|
    ensures Onward(s, t, run) && Inv(t) && HandedOver(t, run) && t.raw == s.raw
    ensures c in t.transformers && t.transformers[c].owed == {}
    ensures p in t.transformers[c].at && t.transformers[c].at[p] <= |t.raw[p]|
  {
    hide *;
    NthOffset(s, p);
    AssignRawShape(s, c, p);
    t := TakeStep(s, AssignRaw(c, p), run);
  }

  lemma ReportedStays(s: System, t: System, run: Run, n: nat)
    requires Onward(s, t, run)
    ensures RawReported(s, run, n) ==> RawReported(t, run, n)
    ensures CleanReported(s, run, n) ==> CleanReported(t, run, n)
  {
    OnwardParts(s, t, run);
  }

  lemma ReadRawPartition(s: System, c: ConsumerId, run: Run, p: Partition) returns (t: System)
    requires Inv(s) && HandedOver(s, run) && c in s.transformers && s.transformers[c].owed == {}
    requires p < |s.raw|
    ensures Onward(s, t, run) && c in t.transformers && t.transformers[c].owed == {}
    ensures RawReported(s, run, p) ==> RawReported(t, run, p + 1)
  {
    hide Inv, HandedOver, Onward, RawReported;
    var v := AssignRawOne(s, c, p, run);
    t := ReadRaw(v, c, p, run);
    OnwardThrough(s, v, t, run);
    ReportedStays(s, t, run, p);
    ReadToTheEnd(t, c, p, run);
    OneMoreReported(t, run, p);
  }

  /** One consumer reads every partition from where it was committed. */
  lemma {:induction false} ReadRawPartitions(s: System, c: ConsumerId, run: Run, n: nat) returns (t: System)
    requires Inv(s) && HandedOver(s, run) && c in s.transformers && s.transformers[c].owed == {}
    requires n <= |s.raw|
    ensures Onward(s, t, run) && Inv(t) && HandedOver(t, run) && t.raw == s.raw
    ensures c in t.transformers && t.transformers[c].owed == {}
    ensures RawReported(t, run, n)
  {
    if n == 0 {
      OnwardStart(s, run);
      t := s;
    } else {
      hide Inv, HandedOver, Onward, RawReported;
      var u := ReadRawPartitions(s, c, run, n - 1);
      t := ReadRawPartition(u, c, run, n - 1);
      OnwardThrough(s, u, t, run);
    }
  }

  lemma OneMoreReported(s: System, run: Run, n: nat)
    ensures RawReported(s, run, n) && MarkerRow(run, RawBooks, n) in s.ledger.markers ==> RawReported(s, run, n + 1)
    ensures CleanReported(s, run, n) && MarkerRow(run, CleanBooks, n) in s.ledger.markers ==> CleanReported(s, run, n + 1)
  {
  }

  lemma NthOffset(s: System, p: Partition)
    requires Inv(s) && p < |s.raw|
    ensures p < |s.rawCommitted| && HandedUpTo(s, p, s.rawCommitted[p])
  {
  }

  lemma NthCleanOffset(s: System, q: Partition)
    requires Inv(s) && q < |s.clean|
    ensures q < |s.cleanCommitted| && SettledUpTo(s, q, s.cleanCommitted[q], [])
  {
  }

  lemma Unused<T>(m: map<nat, T>) returns (c: nat)
    ensures c !in m
  {
    c := BeyondAll(m.Keys);
  }

  lemma {:induction false} BeyondAll(s: set<nat>) returns (n: nat)
    ensures forall x :: x in s ==> x < n
  {
    if s == {} {
      n := 0;
    } else {
      var x :| x in s;
      var rest := BeyondAll(s - {x});
      n := if rest <= x then x + 1 else rest;
      assert forall y :: y in s ==> y == x || y in s - {x};
    }
  }

  lemma StartOne(s: System, run: Run) returns (t: System, c: ConsumerId, d: ConsumerId)
    requires Inv(s) && HandedOver(s, run)
    ensures Onward(s, t, run) && Inv(t) && HandedOver(t, run) && t.raw == s.raw && t.clean == s.clean
    ensures c in t.transformers && t.transformers[c].owed == {}
    ensures d in t.loaders && t.loaders[d].batch == []
  {
    hide Inv, HandedOver, Onward;
    c := Unused(s.transformers);
    OnwardOne(s, StartTransformer(c), run);
    var u := Apply(s, StartTransformer(c));
    OnwardParts(s, u, run);
    d := Unused(u.loaders);
    OnwardOne(u, StartLoader(d), run);
    t := Apply(u, StartLoader(d));
    OnwardThrough(s, u, t, run);
  }

  lemma SweepShape(s: System, c: ConsumerId, run: Run)
    requires c in s.transformers && s.transformers[c].owed == {}
    requires HandedOver(s, run) && Complete(s.ledger, s.ledger.markers, run, RawBooks)
    ensures Enabled(s, SweepRaw(c, run, s.ledger.markers)) && ConsumersOwn(SweepRaw(c, run, s.ledger.markers))
    ensures var t := Apply(s, SweepRaw(c, run, s.ledger.markers)); Owes(t, c, CleanMarkers(t, run))
  {
    hide Complete;
    assert CleanMarkers(Apply(s, SweepRaw(c, run, s.ledger.markers)), run) == CleanMarkers(s, run);
  }

  lemma SweepOne(s: System, c: ConsumerId, run: Run) returns (t: System)
    requires Inv(s) && HandedOver(s, run) && RawReported(s, run, |s.raw|)
    requires c in s.transformers && s.transformers[c].owed == {}
    ensures Onward(s, t, run) && Inv(t) && HandedOver(t, run)
    ensures Owes(t, c, CleanMarkers(t, run))
  {
    hide *;
    SweepReady(s, run);
    SweepShape(s, c, run);
    t := TakeStep(s, SweepRaw(c, run, s.ledger.markers), run);
  }

  /** A transform consumer started afresh gets a boundary of the run onto every clean partition. */
  lemma CloseCleanTopic(s: System, run: Run, c: ConsumerId) returns (t: System)
    requires Inv(s) && HandedOver(s, run) && c in s.transformers && s.transformers[c].owed == {}
    ensures Onward(s, t, run) && Inv(t) && HandedOver(t, run) && CleanClosed(t, run)
  {
    hide Inv, HandedOver, Onward, RawReported;
    var b := ReadRawPartitions(s, c, run, |s.raw|);
    var d := SweepOne(b, c, run);
    t := EmitAll(d, c, run, CleanMarkers(d, run));
    OnwardThrough(s, b, d, run);
    OnwardThrough(s, d, t, run);
    forall q: Partition | q < |t.clean| ensures Marker(run) in t.clean[q] {
      assert MarkerRow(run, CleanBooks, q) in CleanMarkers(d, run);
    }
  }

  lemma SweepReady(s: System, run: Run)
    requires Inv(s) && HandedOver(s, run) && RawReported(s, run, |s.raw|)
    ensures Complete(s.ledger, s.ledger.markers, run, RawBooks)
  {
    CompleteMeansEveryPartition(s.ledger, s.ledger.markers, run, RawBooks);
  }

  // ----- the load side

  ghost predicate CleanClosed(s: System, run: Run) {
    forall q :: 0 <= q < |s.clean| ==> Marker(run) in s.clean[q]
  }

  lemma WriteOne(s: System, c: ConsumerId, q: Partition, run: Run) returns (t: System)
    requires Inv(s) && HandedOver(s, run) && LoaderAt(s, c, q) && s.loaders[c].batch == [] && CleanEvent(s, c, q).Book?
    ensures Onward(s, t, run) && c in t.loaders && t.clean == s.clean
    ensures t.loaders[c] == Loader(s.loaders[c].at[q := s.loaders[c].at[q] + 1], [])
  {
    hide Inv, HandedOver, Onward;
    OnwardOne(s, Take(c, q), run);
    var u := Apply(s, Take(c, q));
    OnwardParts(s, u, run);
    OnwardOne(u, Write(c, 1), run);
    t := Apply(u, Write(c, 1));
    OnwardOn(s, u, t, run);
  }

  lemma CloseOne(s: System, c: ConsumerId, q: Partition, run: Run) returns (t: System)
    requires Inv(s) && HandedOver(s, run) && LoaderAt(s, c, q) && s.loaders[c].batch == [] && CleanEvent(s, c, q).Marker?
    ensures Onward(s, t, run) && c in t.loaders && t.clean == s.clean
    ensures t.loaders[c] == Loader(s.loaders[c].at[q := s.loaders[c].at[q] + 1], [])
  {
    hide Inv, HandedOver, Onward;
    var own := MarkerRow(CleanEvent(s, c, q).run, CleanBooks, q);
    var seen := RecordMarker(s.ledger, own).markers;
    OnwardOne(s, ObserveClean(c, q, seen), run);
    t := Apply(s, ObserveClean(c, q, seen));
  }

  lemma {:induction false} ReadClean(s: System, c: ConsumerId, q: Partition, run: Run) returns (t: System)
    requires Inv(s) && HandedOver(s, run) && c in s.loaders && s.loaders[c].batch == []
    requires q < |s.clean| && q in s.loaders[c].at && s.loaders[c].at[q] <= |s.clean[q]|
    ensures Onward(s, t, run) && c in t.loaders && t.clean == s.clean
    ensures t.loaders[c] == Loader(s.loaders[c].at[q := |s.clean[q]|], [])
    decreases |s.clean[q]| - s.loaders[c].at[q]
  {
    hide Inv, HandedOver, Onward;
    if s.loaders[c].at[q] == |s.clean[q]| {
      OnwardStart(s, run);
      t := s;
    } else {
      var u: System;
      if CleanEvent(s, c, q).Book? {
        u := WriteOne(s, c, q, run);
      } else {
        u := CloseOne(s, c, q, run);
      }
      OnwardParts(s, u, run);
      t := ReadClean(u, c, q, run);
      OnwardOn(s, u, t, run);
    }
  }

  ghost predicate CleanReported(s: System, run: Run, n: nat) {
    forall q: Partition :: q < n ==> MarkerRow(run, CleanBooks, q) in s.ledger.markers
  }

  lemma ReadCleanToTheEnd(s: System, c: ConsumerId, q: Partition, run: Run)
    requires Inv(s) && CleanClosed(s, run) && c in s.loaders && q < |s.clean|
    requires q in s.loaders[c].at && s.loaders[c].at[q] == |s.clean[q]|
    ensures MarkerRow(run, CleanBooks, q) in s.ledger.markers
  {
    assert LoaderReady(s, s.loaders[c]);
    var i :| 0 <= i < |s.clean[q]| && s.clean[q][i] == Marker(run);
  }

  lemma AssignCleanShape(s: System, c: ConsumerId, q: Partition)
    requires c in s.loaders && q < |s.clean| && q < |s.cleanCommitted| && SettledUpTo(s, q, s.cleanCommitted[q], [])
    ensures Enabled(s, AssignClean(c, q)) && ConsumersOwn(AssignClean(c, q))
    ensures var t := Apply(s, AssignClean(c, q));
      && t.clean == s.clean && c in t.loaders && t.loaders[c].batch == s.loaders[c].batch
      && q in t.loaders[c].at && t.loaders[c].at[q] <= |t.clean[q]|
  {
    hide Settled;
  }

  lemma AssignCleanOne(s: System, c: ConsumerId, q: Partition, run: Run) returns (t: System)
    requires Inv(s) && HandedOver(s, run) && c in s.loaders && s.loaders[c].batch == [] && q < |s.clean|
    ensures Onward(s, t, run) && Inv(t) && HandedOver(t, run) && t.clean == s.clean
    ensures c in t.loaders && t.loaders[c].batch == []
    ensures q in t.loaders[c].at && t.loaders[c].at[q] <= |t.clean[q]|
  {
    hide *;
    NthCleanOffset(s, q);
    AssignCleanShape(s, c, q);
    t := TakeStep(s, AssignClean(c, q), run);
  }

  lemma ReadCleanPartition(s: System, c: ConsumerId, run: Run, q: Partition) returns (t: System)
    requires Inv(s) && HandedOver(s, run) && CleanClosed(s, run) && c in s.loaders && s.loaders[c].batch == []
    requires q < |s.clean|
    ensures Onward(s, t, run) && c in t.loaders && t.loaders[c].batch == [] && t.clean == s.clean
    ensures CleanReported(s, run, q) ==> CleanReported(t, run, q + 1)
  {
    hide Inv, HandedOver, Onward, CleanReported, CleanClosed;
    var v := AssignCleanOne(s, c, q, run);
    t := ReadClean(v, c, q, run);
    OnwardThrough(s, v, t, run);
    ReportedStays(s, t, run, q);
    ClosedAlike(s, t, run);
    ReadCleanToTheEnd(t, c, q, run);
    OneMoreReported(t, run, q);
  }

  lemma {:induction false} ReadCleanPartitions(s: System, c: ConsumerId, run: Run, n: nat) returns (t: System)
    requires Inv(s) && HandedOver(s, run) && CleanClosed(s, run) && c in s.loaders && s.loaders[c].batch == []
    requires n <= |s.clean|
    ensures Onward(s, t, run) && Inv(t) && HandedOver(t, run) && t.clean == s.clean
    ensures c in t.loaders && t.loaders[c].batch == []
    ensures CleanReported(t, run, n)
  {
    if n == 0 {
      OnwardStart(s, run);
      t := s;
    } else {
      hide Inv, HandedOver, Onward, CleanReported, CleanClosed;
      var u := ReadCleanPartitions(s, c, run, n - 1);
      ClosedAlike(s, u, run);
      t := ReadCleanPartition(u, c, run, n - 1);
      OnwardThrough(s, u, t, run);
    }
  }

  /** With every row there, the startup sweep closes the run. */
  lemma SweepCloses(s: System, run: Run)
    requires Inv(s) && HandedOver(s, run) && CleanReported(s, run, |s.clean|)
    ensures Enabled(s, SweepClean(run, s.ledger.markers))
    ensures HasStatus(Apply(s, SweepClean(run, s.ledger.markers)).ledger, run, Success)
  {
    assert Frozen(s, run, RawBooks) <==> Frozen(s, run, CleanBooks);
    CompleteMeansEveryPartition(s.ledger, s.ledger.markers, run, CleanBooks);
  }

  /**
   * Nothing the consumers can do, and no crash, makes a handed-over run impossible to finish:
   * from every reachable state some steps of theirs alone bring it to success.
   */
  lemma RunsCanAlwaysFinish(s: System, run: Run)
    requires Reachable(s) && HandedOver(s, run)
    ensures exists t :: Leads(s, t) && HasStatus(t.ledger, run, Success)
  {
    ReachableInv(s);
    hide Inv, HandedOver, Onward, CleanReported, CleanClosed, Reachable;
    var a, c, d := StartOne(s, run);
    var b := CloseCleanTopic(a, run, c);
    var e, _, f := StartOne(b, run);
    assert CleanClosed(e, run) by { ClosedAlike(b, e, run); }
    var g := ReadCleanPartitions(e, f, run, |e.clean|);
    SweepCloses(g, run);
    OnwardOne(g, SweepClean(run, g.ledger.markers), run);
    var t := Apply(g, SweepClean(run, g.ledger.markers));
    OnwardOn(s, a, b, run);
    OnwardOn(s, b, e, run);
    OnwardOn(s, e, g, run);
    OnwardOn(s, g, t, run);
    OnwardLeads(s, t, run);
  }

  lemma ClosedAlike(s: System, t: System, run: Run)
    requires s.clean == t.clean && CleanClosed(s, run)
    ensures CleanClosed(t, run)
  {
  }

  lemma OnwardLeads(s: System, t: System, run: Run)
    requires Onward(s, t, run)
    ensures Leads(s, t)
  {
  }

  /** A closed run stays closed, and its closing time is written once. */
  lemma {:induction false} ClosedOnce(s: System, steps: seq<Step>, t: System, run: Run)
    requires Inv(s) && Runs(s, steps, t) && HasStatus(s.ledger, run, Success)
    ensures HasStatus(t.ledger, run, Success)
    ensures t.ledger.runs[run] == s.ledger.runs[run]
    decreases |steps|
  {
    if steps != [] {
      var u := Apply(s, steps[0]);
      SuccessStays(s, steps[0], run);
      StepKeepsInv(s, steps[0]);
      ClosedOnce(u, steps[1..], t, run);
    }
  }

  lemma SuccessStays(s: System, step: Step, run: Run)
    requires Enabled(s, step) && HasStatus(s.ledger, run, Success)
    ensures var u := Apply(s, step); HasStatus(u.ledger, run, Success) && u.ledger.runs[run] == s.ledger.runs[run]
  {
    hide Complete, Sees, CleanMarkers, Append, Commit;
  }

  /** A run a kill left running is closed once, and no step hands it over or closes it again. */
  lemma {:induction false} AbandonedForGood(s: System, run: Run, steps: seq<Step>, t: System)
    requires Inv(s) && HasStatus(s.ledger, run, Running) && Runs(Apply(s, AbandonRun(run)), steps, t)
    ensures HasStatus(t.ledger, run, Failed) && t.ledger.runs[run].closed == 1
    ensures t.ledger.runs[run].extracted == s.ledger.runs[run].extracted
    ensures t.ledger.runs[run].loaded == s.ledger.runs[run].loaded
  {
    assert s.ledger.runs[run].closed == 0;
    var u := Apply(s, AbandonRun(run));
    assert HasStatus(u.ledger, run, Failed) && u.ledger.runs[run].closed == 1;
    hide Inv, Apply;
    FailedStays(u, steps, t, run);
  }

  lemma {:induction false} FailedStays(s: System, steps: seq<Step>, t: System, run: Run)
    requires Runs(s, steps, t) && HasStatus(s.ledger, run, Failed)
    ensures HasStatus(t.ledger, run, Failed) && t.ledger.runs[run] == s.ledger.runs[run]
    decreases |steps|
  {
    hide Apply, Enabled;
    if steps != [] {
      FailureStays(s, steps[0], run);
      FailedStays(Apply(s, steps[0]), steps[1..], t, run);
    }
  }

  lemma FailureStays(s: System, step: Step, run: Run)
    requires Enabled(s, step) && HasStatus(s.ledger, run, Failed)
    ensures var u := Apply(s, step); HasStatus(u.ledger, run, Failed) && u.ledger.runs[run] == s.ledger.runs[run]
  {
    hide Complete, Sees, CleanMarkers, Append, Commit;
  }
}
