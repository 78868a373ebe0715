// A run is closed only when every record published for it is in the catalogue or parked.

module RunSafety {
  import opened Ordering
  import opened Ledgers
  import opened RunProtocol

  // ----- dealt with

  /** A copy sits on the clean topic ahead of every boundary of its run there. */
  ghost predicate ForwardedEarly(clean: seq<Log>, e: Event) {
    exists q, i :: 0 <= q < |clean| && 0 <= i < |clean[q]| && clean[q][i] == e && Marker(e.run) !in clean[q][..i]
  }

  ghost predicate Handed(s: System, e: Event) {
    e in s.parked || ForwardedEarly(s.clean, e)
  }

  predicate Settled(s: System, e: Event) {
    e in s.parked || e in s.loaded
  }

  /** Every event before the offset has had its durable effect: a copy, a parking, or a row. */
  ghost predicate HandedUpTo(s: System, p: Partition, n: nat) {
    && p < |s.raw| && n <= |s.raw[p]|
    && (forall i :: 0 <= i < n && s.raw[p][i].Book? ==> Handed(s, s.raw[p][i]))
    && (forall i :: 0 <= i < n && s.raw[p][i].Marker? ==>
          MarkerRow(s.raw[p][i].run, RawBooks, p) in s.ledger.markers)
  }

  predicate SettledUpTo(s: System, q: Partition, n: nat, batch: seq<Event>) {
    && q < |s.clean| && n <= |s.clean[q]|
    && (forall i :: 0 <= i < n && s.clean[q][i].Book? ==> Settled(s, s.clean[q][i]) || s.clean[q][i] in batch)
    && (forall i :: 0 <= i < n && s.clean[q][i].Marker? ==>
          MarkerRow(s.clean[q][i].run, CleanBooks, q) in s.ledger.markers)
  }

  predicate Frozen(s: System, run: Run, topic: Topic) {
    TopicKey(run, topic) in s.ledger.expected
  }

  predicate RawDone(s: System, run: Run) {
    Frozen(s, run, RawBooks) && forall p: Partition :: p < |s.raw| ==> MarkerRow(run, RawBooks, p) in s.ledger.markers
  }

  predicate CleanDone(s: System, run: Run) {
    Frozen(s, run, CleanBooks) && forall q: Partition :: q < |s.clean| ==> MarkerRow(run, CleanBooks, q) in s.ledger.markers
  }

  // ----- what holds in every reachable state

  ghost predicate Shape(s: System) {
    && s.raw != [] && s.clean != []
    && |s.rawCommitted| == |s.raw| && |s.cleanCommitted| == |s.clean|
  }

  ghost predicate Topologies(s: System) {
    && (forall k :: k in s.ledger.expected ==>
          s.ledger.expected[k] == if k.topic == RawBooks then |s.raw| else |s.clean|)
    && (forall run :: Frozen(s, run, RawBooks) <==> Frozen(s, run, CleanBooks))
    && (forall m :: m in s.ledger.markers ==>
          Frozen(s, m.run, m.topic) && m.partition < if m.topic == RawBooks then |s.raw| else |s.clean|)
  }

  /** On a raw partition a run's boundary comes after all of its records. */
  ghost predicate Boundaries(s: System) {
    && (forall p, i :: 0 <= p < |s.raw| && 0 <= i < |s.raw[p]| && s.raw[p][i].Marker? ==>
          Frozen(s, s.raw[p][i].run, RawBooks))
    && (forall p, i, j :: 0 <= p < |s.raw| && 0 <= i < j < |s.raw[p]| && s.raw[p][i].Marker? && s.raw[p][j].Book? ==>
          s.raw[p][i].run != s.raw[p][j].run)
  }

  ghost predicate TransformerReady(s: System, x: Transformer) {
    && (forall p :: p in x.at ==> HandedUpTo(s, p, x.at[p]))
    && (forall m :: m in x.owed ==> m.topic == CleanBooks && RawDone(s, m.run))
  }

  predicate LoaderReady(s: System, x: Loader) {
    forall q :: q in x.at ==> SettledUpTo(s, q, x.at[q], x.batch)
  }

  ghost predicate Consumers(s: System) {
    && (forall c :: c in s.transformers ==> TransformerReady(s, s.transformers[c]))
    && (forall c :: c in s.loaders ==> LoaderReady(s, s.loaders[c]))
  }

  ghost predicate Offsets(s: System) {
    && (forall p :: 0 <= p < |s.raw| && p < |s.rawCommitted| ==> HandedUpTo(s, p, s.rawCommitted[p]))
    && (forall q :: 0 <= q < |s.clean| && q < |s.cleanCommitted| ==> SettledUpTo(s, q, s.cleanCommitted[q], []))
  }

  /** An observed raw boundary: everything of that run on that partition has been dealt with. */
  ghost predicate RawRows(s: System) {
    forall p, i :: 0 <= p < |s.raw| && 0 <= i < |s.raw[p]| && s.raw[p][i].Book?
        && MarkerRow(s.raw[p][i].run, RawBooks, p) in s.ledger.markers
      ==> Handed(s, s.raw[p][i])
  }

  ghost predicate CleanBoundaries(s: System) {
    forall q, i :: 0 <= q < |s.clean| && 0 <= i < |s.clean[q]| && s.clean[q][i].Marker? ==>
      RawDone(s, s.clean[q][i].run)
  }

  ghost predicate ClosedAt(s: System, run: Run, q: Partition) {
    exists j :: 0 <= j && q < |s.clean| && j < |s.clean[q]| && s.clean[q][j] == Marker(run) && SettledUpTo(s, q, j, [])
  }

  /** An observed clean boundary: everything ahead of it on that partition is settled. */
  ghost predicate CleanRows(s: System) {
    forall m :: m in s.ledger.markers && m.topic == CleanBooks ==> ClosedAt(s, m.run, m.partition)
  }

  ghost predicate Statuses(s: System) {
    forall run :: run in s.ledger.runs ==>
      && (s.ledger.runs[run].status == Success ==> CleanDone(s, run))
      && s.ledger.runs[run].closed == if s.ledger.runs[run].status in {Success, Failed} then 1 else 0
  }

  ghost predicate Inv(s: System) {
    && Shape(s) && Topologies(s) && Boundaries(s)
    && Consumers(s) && Offsets(s)
    && RawRows(s) && CleanBoundaries(s) && CleanRows(s) && Statuses(s)
  }

  // ----- durable things only grow

  ghost predicate Grown(before: seq<Log>, after: seq<Log>) {
    |before| == |after| && forall p :: 0 <= p < |before| ==> before[p] <= after[p]
  }

  ghost predicate Later(s: System, t: System) {
    && Grown(s.raw, t.raw) && Grown(s.clean, t.clean)
    && s.parked <= t.parked && s.loaded <= t.loaded
    && s.ledger.markers <= t.ledger.markers
    && (forall k :: k in s.ledger.expected ==> k in t.ledger.expected)
  }

  lemma HandedStays(s: System, t: System, e: Event)
    requires Later(s, t) && Handed(s, e)
    ensures Handed(t, e)
  {
    if e !in s.parked {
      var q, i :| 0 <= q < |s.clean| && 0 <= i < |s.clean[q]| && s.clean[q][i] == e && Marker(e.run) !in s.clean[q][..i];
      assert s.clean[q] <= t.clean[q];
      assert t.clean[q][..i] == s.clean[q][..i] && t.clean[q][i] == e;
    }
  }

  lemma HandedUpToStays(s: System, t: System, p: Partition, n: nat)
    requires Later(s, t) && HandedUpTo(s, p, n)
    ensures HandedUpTo(t, p, n)
  {
    assert s.raw[p] <= t.raw[p];
    forall i | 0 <= i < n && t.raw[p][i].Book? ensures Handed(t, t.raw[p][i]) {
      assert t.raw[p][i] == s.raw[p][i];
      HandedStays(s, t, s.raw[p][i]);
    }
  }

  lemma SettledUpToStays(s: System, t: System, q: Partition, n: nat, batch: seq<Event>)
    requires Later(s, t) && SettledUpTo(s, q, n, batch)
    ensures SettledUpTo(t, q, n, batch)
  {
    assert s.clean[q] <= t.clean[q];
    forall i | 0 <= i < n && t.clean[q][i].Book? ensures Settled(t, t.clean[q][i]) || t.clean[q][i] in batch {
      assert t.clean[q][i] == s.clean[q][i];
    }
  }

  lemma DoneStays(s: System, t: System, run: Run)
    requires Later(s, t)
    ensures RawDone(s, run) ==> RawDone(t, run)
    ensures CleanDone(s, run) ==> CleanDone(t, run)
  {
  }

  lemma TransformerStays(s: System, t: System, x: Transformer)
    requires Later(s, t) && TransformerReady(s, x)
    ensures TransformerReady(t, x)
  {
    forall p | p in x.at ensures HandedUpTo(t, p, x.at[p]) {
      HandedUpToStays(s, t, p, x.at[p]);
    }
    forall m | m in x.owed ensures RawDone(t, m.run) {
      DoneStays(s, t, m.run);
    }
  }

  lemma LoaderStays(s: System, t: System, x: Loader)
    requires Later(s, t) && LoaderReady(s, x)
    ensures LoaderReady(t, x)
  {
    forall q | q in x.at ensures SettledUpTo(t, q, x.at[q], x.batch) {
      SettledUpToStays(s, t, q, x.at[q], x.batch);
    }
  }

  lemma OffsetsStay(s: System, t: System)
    requires Later(s, t) && Offsets(s)
    requires s.rawCommitted == t.rawCommitted && s.cleanCommitted == t.cleanCommitted
    ensures Offsets(t)
  {
    forall p | 0 <= p < |t.raw| && p < |t.rawCommitted| ensures HandedUpTo(t, p, t.rawCommitted[p]) {
      HandedUpToStays(s, t, p, s.rawCommitted[p]);
    }
    forall q | 0 <= q < |t.clean| && q < |t.cleanCommitted| ensures SettledUpTo(t, q, t.cleanCommitted[q], []) {
      SettledUpToStays(s, t, q, s.cleanCommitted[q], []);
    }
  }

  lemma ClosedAtStays(s: System, t: System, run: Run, q: Partition)
    requires Later(s, t) && ClosedAt(s, run, q)
    ensures ClosedAt(t, run, q)
  {
    var j :| 0 <= j && q < |s.clean| && j < |s.clean[q]| && s.clean[q][j] == Marker(run) && SettledUpTo(s, q, j, []);
    assert s.clean[q] <= t.clean[q];
    SettledUpToStays(s, t, q, j, []);
    assert t.clean[q][j] == Marker(run);
  }

  /** Every consumer but one is as it was; that one still knows what it has dealt with. */
  lemma ConsumersStay(s: System, t: System, c: ConsumerId)
    requires Later(s, t) && Consumers(s)
    requires forall d :: d in t.transformers && d != c ==> d in s.transformers && t.transformers[d] == s.transformers[d]
    requires forall d :: d in t.loaders && d != c ==> d in s.loaders && t.loaders[d] == s.loaders[d]
    requires c in t.transformers ==>
      TransformerReady(t, t.transformers[c]) || (c in s.transformers && t.transformers[c] == s.transformers[c])
    requires c in t.loaders ==>
      LoaderReady(t, t.loaders[c]) || (c in s.loaders && t.loaders[c] == s.loaders[c])
    ensures Consumers(t)
  {
    forall d | d in t.transformers ensures TransformerReady(t, t.transformers[d]) {
      if d in s.transformers && t.transformers[d] == s.transformers[d] {
        TransformerStays(s, t, s.transformers[d]);
      }
    }
    forall d | d in t.loaders ensures LoaderReady(t, t.loaders[d]) {
      if d in s.loaders && t.loaders[d] == s.loaders[d] {
        LoaderStays(s, t, s.loaders[d]);
      }
    }
  }

  // ----- what a step leaves alone stays true

  lemma TopologiesStay(s: System, t: System)
    requires Topologies(s) && Later(s, t)
    requires s.ledger.expected == t.ledger.expected && s.ledger.markers == t.ledger.markers
    ensures Topologies(t)
  {
    forall run ensures Frozen(t, run, RawBooks) <==> Frozen(t, run, CleanBooks) {
      assert Frozen(s, run, RawBooks) <==> Frozen(s, run, CleanBooks);
    }
    forall m | m in t.ledger.markers ensures Frozen(t, m.run, m.topic) {
      assert Frozen(s, m.run, m.topic);
    }
  }

  lemma BoundariesStay(s: System, t: System)
    requires Boundaries(s) && Later(s, t) && s.raw == t.raw
    ensures Boundaries(t)
  {
    forall p, i | 0 <= p < |t.raw| && 0 <= i < |t.raw[p]| && t.raw[p][i].Marker?
      ensures Frozen(t, t.raw[p][i].run, RawBooks)
    {
      assert Frozen(s, s.raw[p][i].run, RawBooks);
    }
  }

  lemma RawRowsStay(s: System, t: System)
    requires RawRows(s) && Later(s, t) && s.raw == t.raw && s.ledger.markers == t.ledger.markers
    ensures RawRows(t)
  {
    forall p, i | 0 <= p < |t.raw| && 0 <= i < |t.raw[p]| && t.raw[p][i].Book?
        && MarkerRow(t.raw[p][i].run, RawBooks, p) in t.ledger.markers
      ensures Handed(t, t.raw[p][i])
    {
      HandedStays(s, t, s.raw[p][i]);
    }
  }

  lemma CleanBoundariesStay(s: System, t: System)
    requires CleanBoundaries(s) && Later(s, t) && s.clean == t.clean
    ensures CleanBoundaries(t)
  {
    forall q, i | 0 <= q < |t.clean| && 0 <= i < |t.clean[q]| && t.clean[q][i].Marker?
      ensures RawDone(t, t.clean[q][i].run)
    {
      DoneStays(s, t, s.clean[q][i].run);
    }
  }

  lemma CleanRowsStay(s: System, t: System)
    requires CleanRows(s) && Later(s, t) && s.ledger.markers == t.ledger.markers
    ensures CleanRows(t)
  {
    forall m | m in t.ledger.markers && m.topic == CleanBooks ensures ClosedAt(t, m.run, m.partition) {
      ClosedAtStays(s, t, m.run, m.partition);
    }
  }

  lemma StatusesStay(s: System, t: System)
    requires Statuses(s) && Later(s, t) && s.ledger.runs == t.ledger.runs
    ensures Statuses(t)
  {
    forall run | run in t.ledger.runs && t.ledger.runs[run].status == Success ensures CleanDone(t, run) {
      DoneStays(s, t, run);
    }
  }

  /** A step that appends nothing and writes no row keeps all that is not about consumers. */
  lemma QuietStep(s: System, t: System)
    requires Inv(s) && Later(s, t)
    requires s.raw == t.raw && s.clean == t.clean && s.ledger == t.ledger
    requires Shape(t) && Consumers(t) && Offsets(t)
    ensures Inv(t)
  {
    hide Later, Topologies, Boundaries, RawRows, CleanBoundaries, CleanRows, Statuses, Consumers, Offsets;
    TopologiesStay(s, t);
    BoundariesStay(s, t);
    RawRowsStay(s, t);
    CleanBoundariesStay(s, t);
    CleanRowsStay(s, t);
    StatusesStay(s, t);
  }

  // ----- consumers coming and going

  lemma StartingKeepsInv(s: System, c: ConsumerId)
    requires Inv(s)
    ensures c !in s.transformers ==> Inv(Apply(s, StartTransformer(c)))
    ensures c !in s.loaders ==> Inv(Apply(s, StartLoader(c)))
    ensures c in s.transformers ==> Inv(Apply(s, CrashTransformer(c)))
    ensures c in s.loaders ==> Inv(Apply(s, CrashLoader(c)))
  {
    if c !in s.transformers {
      ConsumerStep(s, Apply(s, StartTransformer(c)), c);
    } else {
      ConsumerStep(s, Apply(s, CrashTransformer(c)), c);
    }
    if c !in s.loaders {
      ConsumerStep(s, Apply(s, StartLoader(c)), c);
    } else {
      ConsumerStep(s, Apply(s, CrashLoader(c)), c);
    }
  }

  /** A step in which one consumer only changes its own memory, or dead-letters or writes records. */
  lemma ConsumerStep(s: System, t: System, c: ConsumerId)
    requires Inv(s)
    requires s.raw == t.raw && s.clean == t.clean && s.ledger == t.ledger
    requires s.parked <= t.parked && s.loaded <= t.loaded
    requires s.rawCommitted == t.rawCommitted && s.cleanCommitted == t.cleanCommitted
    requires forall d :: d in t.transformers && d != c ==> d in s.transformers && t.transformers[d] == s.transformers[d]
    requires forall d :: d in t.loaders && d != c ==> d in s.loaders && t.loaders[d] == s.loaders[d]
    requires c in t.transformers ==>
      TransformerReady(t, t.transformers[c]) || (c in s.transformers && t.transformers[c] == s.transformers[c])
    requires c in t.loaders ==>
      LoaderReady(t, t.loaders[c]) || (c in s.loaders && t.loaders[c] == s.loaders[c])
    ensures Inv(t)
  {
    hide Topologies, Boundaries, RawRows, CleanBoundaries, CleanRows, Statuses, Consumers, Offsets,
      TransformerReady, LoaderReady;
    ConsumersStay(s, t, c);
    OffsetsStay(s, t);
    QuietStep(s, t);
  }

  /** Assignment starts from the committed offset: everything before it is dealt with already. */
  lemma AssigningKeepsInv(s: System, c: ConsumerId, p: Partition)
    requires Inv(s)
    ensures Enabled(s, AssignRaw(c, p)) ==> Inv(Apply(s, AssignRaw(c, p)))
    ensures Enabled(s, AssignClean(c, p)) ==> Inv(Apply(s, AssignClean(c, p)))
    ensures Enabled(s, RevokeRaw(c, p)) ==> Inv(Apply(s, RevokeRaw(c, p)))
    ensures Enabled(s, RevokeClean(c, p)) ==> Inv(Apply(s, RevokeClean(c, p)))
  {
    if c in s.transformers {
      AssignRawKeepsInv(s, c, p);
    }
    if c in s.loaders {
      AssignCleanKeepsInv(s, c, p);
    }
  }

  lemma RevokeRawKeepsInv(s: System, c: ConsumerId, p: Partition)
    requires Inv(s) && c in s.transformers
    ensures Inv(Apply(s, RevokeRaw(c, p)))
  {
    var t := Apply(s, RevokeRaw(c, p));
    TransformerStays(s, t, s.transformers[c]);
    hide HandedUpTo, RawDone, LoaderReady;
    ConsumerStep(s, t, c);
  }

  lemma AssignRawKeepsInv(s: System, c: ConsumerId, p: Partition)
    requires Inv(s) && c in s.transformers
    ensures Enabled(s, AssignRaw(c, p)) ==> Inv(Apply(s, AssignRaw(c, p)))
    ensures Inv(Apply(s, RevokeRaw(c, p)))
  {
    RevokeRawKeepsInv(s, c, p);
    if Enabled(s, AssignRaw(c, p)) {
      var t := Apply(s, AssignRaw(c, p));
      TransformerStays(s, t, s.transformers[c]);
      HandedUpToStays(s, t, p, s.rawCommitted[p]);
      hide HandedUpTo, RawDone, LoaderReady;
      ConsumerStep(s, t, c);
    }
  }

  lemma AssignCleanKeepsInv(s: System, c: ConsumerId, q: Partition)
    requires Inv(s) && c in s.loaders
    ensures Enabled(s, AssignClean(c, q)) ==> Inv(Apply(s, AssignClean(c, q)))
    ensures Inv(Apply(s, RevokeClean(c, q)))
  {
    var x := s.loaders[c];
    LoaderStays(s, Apply(s, RevokeClean(c, q)), x);
    ConsumerStep(s, Apply(s, RevokeClean(c, q)), c);
    if Enabled(s, AssignClean(c, q)) {
      var t := Apply(s, AssignClean(c, q));
      LoaderStays(s, t, x);
      SettledUpToStays(s, t, q, s.cleanCommitted[q], []);
      ConsumerStep(s, t, c);
    }
  }

  // ----- committing

  /** The offset is written down only after the effect: nothing before it is outstanding. */
  lemma CommittingKeepsInv(s: System, c: ConsumerId)
    requires Inv(s)
    ensures Enabled(s, CommitRaw(c)) ==> Inv(Apply(s, CommitRaw(c)))
    ensures Enabled(s, CommitClean(c)) ==> Inv(Apply(s, CommitClean(c)))
  {
    if Enabled(s, CommitRaw(c)) {
      CommittedRaw(s, c, Apply(s, CommitRaw(c)));
    }
    if Enabled(s, CommitClean(c)) {
      CommittedClean(s, c, Apply(s, CommitClean(c)));
    }
  }

  lemma CommittedRaw(s: System, c: ConsumerId, t: System)
    requires Inv(s) && c in s.transformers
    requires t == s.(rawCommitted := Commit(s.rawCommitted, s.transformers[c].at))
    ensures Inv(t)
  {
    var x := s.transformers[c];
    assert TransformerReady(s, x);
    forall p | 0 <= p < |t.raw| ensures HandedUpTo(t, p, t.rawCommitted[p]) {
      HandedUpToStays(s, t, p, if p in x.at then x.at[p] else s.rawCommitted[p]);
    }
    forall q | 0 <= q < |t.clean| ensures SettledUpTo(t, q, t.cleanCommitted[q], []) {
      SettledUpToStays(s, t, q, s.cleanCommitted[q], []);
    }
    hide Topologies, Boundaries, RawRows, CleanBoundaries, CleanRows, Statuses, TransformerReady, LoaderReady,
      HandedUpTo, SettledUpTo;
    ConsumersStay(s, t, c);
    QuietStep(s, t);
  }

  lemma CommittedClean(s: System, c: ConsumerId, t: System)
    requires Inv(s) && c in s.loaders && s.loaders[c].batch == []
    requires t == s.(cleanCommitted := Commit(s.cleanCommitted, s.loaders[c].at))
    ensures Inv(t)
  {
    var x := s.loaders[c];
    assert LoaderReady(s, x);
    forall p | 0 <= p < |t.raw| ensures HandedUpTo(t, p, t.rawCommitted[p]) {
      HandedUpToStays(s, t, p, s.rawCommitted[p]);
    }
    forall q | 0 <= q < |t.clean| ensures SettledUpTo(t, q, t.cleanCommitted[q], []) {
      SettledUpToStays(s, t, q, if q in x.at then x.at[q] else s.cleanCommitted[q], []);
    }
    hide Topologies, Boundaries, RawRows, CleanBoundaries, CleanRows, Statuses, TransformerReady, LoaderReady,
      HandedUpTo, SettledUpTo;
    ConsumersStay(s, t, c);
    QuietStep(s, t);
  }

  // ----- dealing with a record

  lemma ParkingKeepsInv(s: System, c: ConsumerId, p: Partition)
    requires Inv(s)
    ensures Enabled(s, ParkRaw(c, p)) ==> Inv(Apply(s, ParkRaw(c, p)))
    ensures Enabled(s, ParkClean(c, p)) ==> Inv(Apply(s, ParkClean(c, p)))
  {
    if Enabled(s, ParkRaw(c, p)) {
      var t := Apply(s, ParkRaw(c, p));
      PastHanded(s, t, c, p);
      ConsumerStep(s, t, c);
    }
    if Enabled(s, ParkClean(c, p)) {
      var t := Apply(s, ParkClean(c, p));
      PastSettled(s, t, c, p, s.loaders[c].batch);
      ConsumerStep(s, t, c);
    }
  }

  lemma PastHanded(s: System, t: System, c: ConsumerId, p: Partition)
    requires Inv(s) && Later(s, t) && s.raw == t.raw
    requires TransformerAt(s, c, p)
    requires RawEvent(s, c, p).Book? ==> Handed(t, RawEvent(s, c, p))
    requires RawEvent(s, c, p).Marker? ==> MarkerRow(RawEvent(s, c, p).run, RawBooks, p) in t.ledger.markers
    ensures TransformerReady(t, PastRaw(s, c, p).transformers[c])
  {
    var x := s.transformers[c];
    TransformerStays(s, t, x);
  }

  lemma PastSettled(s: System, t: System, c: ConsumerId, q: Partition, batch: seq<Event>)
    requires Inv(s) && Later(s, t) && s.clean == t.clean
    requires LoaderAt(s, c, q)
    requires forall e :: e in s.loaders[c].batch ==> e in batch
    requires CleanEvent(s, c, q).Book? ==> Settled(t, CleanEvent(s, c, q)) || CleanEvent(s, c, q) in batch
    requires CleanEvent(s, c, q).Marker? ==> MarkerRow(CleanEvent(s, c, q).run, CleanBooks, q) in t.ledger.markers
    ensures LoaderReady(t, PastClean(s, c, q, batch).loaders[c])
  {
    var x := s.loaders[c];
    LoaderStays(s, t, x);
    assert forall r :: r in x.at ==> SettledUpTo(t, r, x.at[r], batch);
  }

  lemma TakingKeepsInv(s: System, c: ConsumerId, q: Partition)
    requires Inv(s) && Enabled(s, Take(c, q))
    ensures Inv(Apply(s, Take(c, q)))
  {
    var t := Apply(s, Take(c, q));
    PastSettled(s, t, c, q, s.loaders[c].batch + [CleanEvent(s, c, q)]);
    ConsumerStep(s, t, c);
  }

  lemma WritingKeepsInv(s: System, c: ConsumerId, n: nat)
    requires Inv(s) && Enabled(s, Write(c, n))
    ensures Inv(Apply(s, Write(c, n)))
  {
    var t := Apply(s, Write(c, n));
    var x := s.loaders[c];
    LoaderStays(s, t, x);
    assert x.batch == x.batch[..n] + x.batch[n..];
    forall q | q in x.at ensures SettledUpTo(t, q, x.at[q], x.batch[n..]) {
      assert SettledUpTo(t, q, x.at[q], x.batch);
      forall i | 0 <= i < x.at[q] && t.clean[q][i].Book?
        ensures Settled(t, t.clean[q][i]) || t.clean[q][i] in x.batch[n..]
      {
        assert t.clean[q][i] in x.batch ==> t.clean[q][i] in x.batch[..n] || t.clean[q][i] in x.batch[n..];
      }
    }
    ConsumerStep(s, t, c);
  }

  // ----- appending to a topic

  lemma AppendGrows(logs: seq<Log>, p: Partition, e: Event)
    requires p < |logs|
    ensures Grown(logs, Append(logs, p, e))
  {
  }

  /** A step that appends to the raw topic and does nothing else. */
  lemma RawGrows(s: System, t: System, p: Partition, e: Event)
    requires Inv(s) && p < |s.raw|
    requires t == s.(raw := Append(s.raw, p, e))
    requires Boundaries(t)
    requires e.Book? ==> !Frozen(s, e.run, RawBooks)
    ensures Inv(t)
  {
    AppendGrows(s.raw, p, e);
    assert Topologies(t) by { TopologiesStay(s, t); }
    forall q, i | 0 <= q < |t.raw| && 0 <= i < |t.raw[q]| && t.raw[q][i].Book?
        && MarkerRow(t.raw[q][i].run, RawBooks, q) in t.ledger.markers
      ensures Handed(t, t.raw[q][i])
    {
      assert Frozen(t, t.raw[q][i].run, RawBooks);
      assert i < |s.raw[q]|;
      HandedStays(s, t, s.raw[q][i]);
    }
    hide Topologies, Boundaries, RawRows, CleanBoundaries, CleanRows, Statuses, TransformerReady, LoaderReady,
      HandedUpTo, SettledUpTo, Consumers, Offsets;
    ConsumersStay(s, t, 0);
    OffsetsStay(s, t);
    CleanBoundariesStay(s, t);
    CleanRowsStay(s, t);
    StatusesStay(s, t);
  }

  lemma ProducingKeepsInv(s: System, p: Partition, run: Run, id: nat)
    requires Inv(s) && Enabled(s, Produce(p, run, id))
    ensures Inv(Apply(s, Produce(p, run, id)))
  {
    var t := Apply(s, Produce(p, run, id));
    assert Boundaries(t);
    RawGrows(s, t, p, Book(run, id));
  }

  lemma BoundaryKeepsInv(s: System, run: Run, p: Partition)
    requires Inv(s) && Enabled(s, EmitBoundary(run, p))
    ensures Inv(Apply(s, EmitBoundary(run, p)))
  {
    var t := Apply(s, EmitBoundary(run, p));
    assert Frozen(s, run, RawBooks) && Frozen(t, run, RawBooks);
    assert Boundaries(t);
    RawGrows(s, t, p, Marker(run));
  }

  /** Appending to the clean topic, with whatever the consumer that did so remembers of it. */
  lemma CleanGrows(s: System, t: System, c: ConsumerId, q: Partition, e: Event, x: Transformer)
    requires Inv(s) && q < |s.clean| && c in s.transformers
    requires t == WithTransformer(s, c, x).(clean := Append(s.clean, q, e))
    requires TransformerReady(t, x)
    requires e.Marker? ==> RawDone(s, e.run)
    ensures Inv(t)
  {
    AppendGrows(s.clean, q, e);
    forall r, i | 0 <= r < |t.clean| && 0 <= i < |t.clean[r]| && t.clean[r][i].Marker?
      ensures RawDone(t, t.clean[r][i].run)
    {
      assert RawDone(s, t.clean[r][i].run) by {
        if r == q && i == |s.clean[q]| { } else { assert t.clean[r][i] == s.clean[r][i]; }
      }
      DoneStays(s, t, t.clean[r][i].run);
    }
    hide Topologies, Boundaries, RawRows, CleanBoundaries, CleanRows, Statuses, TransformerReady, LoaderReady,
      HandedUpTo, SettledUpTo, Consumers, Offsets;
    TopologiesStay(s, t);
    BoundariesStay(s, t);
    ConsumersStay(s, t, c);
    OffsetsStay(s, t);
    RawRowsStay(s, t);
    CleanRowsStay(s, t);
    StatusesStay(s, t);
  }

  /**
   * The copy just appended is ahead of its run's boundary there, or the boundary was already
   * written, every raw partition had reported, and an earlier copy exists.
   */
  lemma ForwardedIsHanded(s: System, t: System, c: ConsumerId, p: Partition, q: Partition)
    requires Inv(s) && Enabled(s, Forward(c, p, q)) && t == Apply(s, Forward(c, p, q))
    ensures Handed(t, RawEvent(s, c, p))
  {
    var e := RawEvent(s, c, p);
    AppendGrows(s.clean, q, e);
    if Marker(e.run) in s.clean[q] {
      var i :| 0 <= i < |s.clean[q]| && s.clean[q][i] == Marker(e.run);
      assert RawDone(s, e.run);
      assert MarkerRow(e.run, RawBooks, p) in s.ledger.markers;
      HandedStays(s, t, e);
    } else {
      var n := |s.clean[q]|;
      assert t.clean[q][n] == e && t.clean[q][..n] == s.clean[q];
      assert ForwardedEarly(t.clean, e);
    }
  }

  lemma ForwardingKeepsInv(s: System, c: ConsumerId, p: Partition, q: Partition)
    requires Inv(s) && Enabled(s, Forward(c, p, q))
    ensures Inv(Apply(s, Forward(c, p, q)))
  {
    var t := Apply(s, Forward(c, p, q));
    var e := RawEvent(s, c, p);
    AppendGrows(s.clean, q, e);
    ForwardedIsHanded(s, t, c, p, q);
    PastHanded(s, t, c, p);
    CleanGrows(s, t, c, q, e, PastRaw(s, c, p).transformers[c]);
  }

  lemma EmittingKeepsInv(s: System, c: ConsumerId, m: MarkerRow)
    requires Inv(s) && Enabled(s, EmitClean(c, m))
    ensures Inv(Apply(s, EmitClean(c, m)))
  {
    var t := Apply(s, EmitClean(c, m));
    var x := s.transformers[c].(owed := s.transformers[c].owed - {m});
    AppendGrows(s.clean, m.partition, Marker(m.run));
    TransformerStays(s, t, s.transformers[c]);
    CleanGrows(s, t, c, m.partition, Marker(m.run), x);
  }

  // ----- writing rows

  /** A step that touches only run rows. */
  lemma RunsStep(s: System, t: System)
    requires Inv(s)
    requires t == s.(ledger := s.ledger.(runs := t.ledger.runs))
    requires Statuses(t)
    ensures Inv(t)
  {
    hide Topologies, Boundaries, RawRows, CleanBoundaries, CleanRows, Statuses, TransformerReady, LoaderReady,
      HandedUpTo, SettledUpTo, Consumers, Offsets;
    TopologiesStay(s, t);
    BoundariesStay(s, t);
    ConsumersStay(s, t, 0);
    OffsetsStay(s, t);
    RawRowsStay(s, t);
    CleanBoundariesStay(s, t);
    CleanRowsStay(s, t);
  }

  lemma StatusesAfter(s: System, t: System, run: Run)
    requires Statuses(s) && run in t.ledger.runs
    requires t == s.(ledger := s.ledger.(runs := s.ledger.runs[run := t.ledger.runs[run]]))
    requires t.ledger.runs[run].status == Success ==> CleanDone(s, run)
    requires t.ledger.runs[run].closed == if t.ledger.runs[run].status in {Success, Failed} then 1 else 0
    ensures Statuses(t)
  {
    forall r | r in t.ledger.runs && t.ledger.runs[r].status == Success ensures CleanDone(t, r) {
      assert CleanDone(s, r);
    }
  }

  lemma RunRowsKeepInv(s: System, run: Run)
    requires Inv(s)
    ensures Enabled(s, StartRun(run)) ==> Inv(Apply(s, StartRun(run)))
    ensures Inv(Apply(s, AbandonRun(run)))
  {
    if run !in s.ledger.runs {
      var t := Apply(s, StartRun(run));
      StatusesAfter(s, t, run);
      RunsStep(s, t);
    } else if s.ledger.runs[run].status == Running {
      var t := Apply(s, AbandonRun(run));
      StatusesAfter(s, t, run);
      RunsStep(s, t);
    }
  }

  lemma CompleteIsDone(s: System, l: Ledger, seen: set<MarkerRow>, run: Run)
    requires Topologies(s.(ledger := l)) && seen <= l.markers
    ensures Complete(l, seen, run, RawBooks) ==> RawDone(s.(ledger := l), run)
    ensures Complete(l, seen, run, CleanBooks) ==> CleanDone(s.(ledger := l), run)
  {
    if TopicKey(run, RawBooks) in l.expected {
      CompleteMeansEveryPartition(l, seen, run, RawBooks);
    }
    if TopicKey(run, CleanBooks) in l.expected {
      CompleteMeansEveryPartition(l, seen, run, CleanBooks);
    }
  }

  lemma FinalisingKeepsInv(s: System, t: System, seen: set<MarkerRow>, run: Run)
    requires Inv(s) && seen <= s.ledger.markers
    requires t == s.(ledger := Finalise(s.ledger, seen, run, CleanBooks))
    ensures Inv(t)
  {
    if t != s {
      CompleteIsDone(s, s.ledger, seen, run);
      assert s.(ledger := s.ledger) == s;
      assert Statuses(s);
      StatusesAfter(s, t, run);
      RunsStep(s, t);
    }
  }

  lemma ClosedExtraction(s: System, t: System, run: Run, extracted: Option<nat>)
    requires run in s.ledger.runs && t == Apply(s, CloseExtraction(run, extracted))
    ensures t == s.(ledger := t.ledger) && t.ledger.markers == s.ledger.markers
    ensures forall k :: k in t.ledger.expected <==> k in s.ledger.expected || k.run == run
    ensures forall k :: k in t.ledger.expected ==>
      (t.ledger.expected[k] ==
        if k in s.ledger.expected then s.ledger.expected[k] else if k.topic == RawBooks then |s.raw| else |s.clean|)
  {
    assert t == s.(ledger := Handover(s.ledger, run, |s.raw|, |s.clean|, extracted));
    HandoverIs(s.ledger, run, |s.raw|, |s.clean|, extracted);
  }

  lemma FrozenTogether(s: System, t: System, run: Run, extracted: Option<nat>)
    requires Topologies(s) && run in s.ledger.runs && t == Apply(s, CloseExtraction(run, extracted))
    ensures Topologies(t) && Later(s, t)
    ensures t.ledger.markers == s.ledger.markers
    ensures t == s.(ledger := t.ledger)
  {
    ClosedExtraction(s, t, run, extracted);
    hide Apply, Handover;
    forall r ensures Frozen(t, r, RawBooks) <==> Frozen(t, r, CleanBooks) {
      assert Frozen(s, r, RawBooks) <==> Frozen(s, r, CleanBooks);
    }
    forall m | m in t.ledger.markers ensures Frozen(t, m.run, m.topic) {
      assert Frozen(s, m.run, m.topic);
    }
  }

  lemma HandoverStatuses(s: System, t: System, run: Run, extracted: Option<nat>)
    requires Statuses(s) && run in s.ledger.runs && t == Apply(s, CloseExtraction(run, extracted)) && Later(s, t)
    ensures Statuses(t)
  {
    forall r | r in t.ledger.runs
      ensures t.ledger.runs[r].status == Success ==> CleanDone(t, r)
      ensures t.ledger.runs[r].closed == if t.ledger.runs[r].status in {Success, Failed} then 1 else 0
    {
      DoneStays(s, t, r);
    }
  }

  lemma ClosingExtractionKeepsInv(s: System, run: Run, extracted: Option<nat>)
    requires Inv(s) && Enabled(s, CloseExtraction(run, extracted))
    ensures Inv(Apply(s, CloseExtraction(run, extracted)))
  {
    var t := Apply(s, CloseExtraction(run, extracted));
    FrozenTogether(s, t, run, extracted);
    HandoverStatuses(s, t, run, extracted);
    hide Topologies, Boundaries, RawRows, CleanBoundaries, CleanRows, Statuses, TransformerReady, LoaderReady,
      HandedUpTo, SettledUpTo, Consumers, Offsets, Handover;
    BoundariesStay(s, t);
    ConsumersStay(s, t, 0);
    OffsetsStay(s, t);
    RawRowsStay(s, t);
    CleanBoundariesStay(s, t);
    CleanRowsStay(s, t);
  }

  // ----- observing a boundary

  lemma RecordedTopologies(s: System, m: MarkerRow, u: System)
    requires Topologies(s) && m.partition < if m.topic == RawBooks then |s.raw| else |s.clean|
    requires u == s.(ledger := RecordMarker(s.ledger, m))
    ensures Topologies(u) && Later(s, u)
  {
    forall r ensures Frozen(u, r, RawBooks) <==> Frozen(u, r, CleanBooks) {
      assert Frozen(s, r, RawBooks) <==> Frozen(s, r, CleanBooks);
    }
    forall x | x in u.ledger.markers ensures Frozen(u, x.run, x.topic) {
      assert x == m || Frozen(s, x.run, x.topic);
    }
  }

  /** Everything of the run on the raw partition comes before the boundary, and is dealt with. */
  lemma RawRowHolds(s: System, c: ConsumerId, p: Partition, run: Run, u: System)
    requires Inv(s) && TransformerAt(s, c, p) && RawEvent(s, c, p) == Marker(run)
    requires u == s.(ledger := RecordMarker(s.ledger, MarkerRow(run, RawBooks, p)))
    requires Later(s, u)
    ensures RawRows(u)
  {
    var n := s.transformers[c].at[p];
    assert HandedUpTo(s, p, n);
    forall q, i | 0 <= q < |u.raw| && 0 <= i < |u.raw[q]| && u.raw[q][i].Book?
        && MarkerRow(u.raw[q][i].run, RawBooks, q) in u.ledger.markers
      ensures Handed(u, u.raw[q][i])
    {
      assert Handed(s, s.raw[q][i]) by {
        if MarkerRow(s.raw[q][i].run, RawBooks, q) !in s.ledger.markers {
          assert q == p && s.raw[p][i].run == run;
          assert s.raw[p][n].Marker?;
          assert i < n;
        }
      }
      HandedStays(s, u, s.raw[q][i]);
    }
  }

  lemma CleanRowHolds(s: System, c: ConsumerId, q: Partition, run: Run, u: System)
    requires Inv(s) && LoaderAt(s, c, q) && CleanEvent(s, c, q) == Marker(run) && s.loaders[c].batch == []
    requires u == s.(ledger := RecordMarker(s.ledger, MarkerRow(run, CleanBooks, q)))
    requires Later(s, u)
    ensures CleanRows(u)
  {
    var n := s.loaders[c].at[q];
    assert SettledUpTo(s, q, n, []);
    assert ClosedAt(s, run, q);
    forall m | m in u.ledger.markers && m.topic == CleanBooks ensures ClosedAt(u, m.run, m.partition) {
      ClosedAtStays(s, u, m.run, m.partition);
    }
  }

  /** A step that only adds a marker row, after what it stands for holds. */
  lemma RecordedKeepsInv(s: System, u: System, m: MarkerRow)
    requires Inv(s) && m.partition < if m.topic == RawBooks then |s.raw| else |s.clean|
    requires u == s.(ledger := RecordMarker(s.ledger, m))
    requires RawRows(u) && CleanRows(u)
    ensures Inv(u)
  {
    RecordedTopologies(s, m, u);
    hide Topologies, Boundaries, RawRows, CleanBoundaries, CleanRows, Statuses, TransformerReady, LoaderReady,
      HandedUpTo, SettledUpTo, Consumers, Offsets;
    BoundariesStay(s, u);
    ConsumersStay(s, u, 0);
    OffsetsStay(s, u);
    CleanBoundariesStay(s, u);
    StatusesStay(s, u);
  }

  lemma RawRecorded(s: System, c: ConsumerId, p: Partition, run: Run) returns (u: System)
    requires Inv(s) && TransformerAt(s, c, p) && RawEvent(s, c, p) == Marker(run)
    ensures u == s.(ledger := RecordMarker(s.ledger, MarkerRow(run, RawBooks, p)))
    ensures Inv(u)
  {
    u := s.(ledger := RecordMarker(s.ledger, MarkerRow(run, RawBooks, p)));
    RecordedTopologies(s, MarkerRow(run, RawBooks, p), u);
    RawRowHolds(s, c, p, run, u);
    assert CleanRows(u) by {
      forall m | m in u.ledger.markers && m.topic == CleanBooks ensures ClosedAt(u, m.run, m.partition) {
        ClosedAtStays(s, u, m.run, m.partition);
      }
    }
    RecordedKeepsInv(s, u, MarkerRow(run, RawBooks, p));
  }

  lemma CleanRecorded(s: System, c: ConsumerId, q: Partition, run: Run) returns (u: System)
    requires Inv(s) && LoaderAt(s, c, q) && CleanEvent(s, c, q) == Marker(run) && s.loaders[c].batch == []
    ensures u == s.(ledger := RecordMarker(s.ledger, MarkerRow(run, CleanBooks, q)))
    ensures Inv(u)
  {
    u := s.(ledger := RecordMarker(s.ledger, MarkerRow(run, CleanBooks, q)));
    RecordedTopologies(s, MarkerRow(run, CleanBooks, q), u);
    CleanRowHolds(s, c, q, run, u);
    assert RawRows(u) by {
      forall p, i | 0 <= p < |u.raw| && 0 <= i < |u.raw[p]| && u.raw[p][i].Book?
          && MarkerRow(u.raw[p][i].run, RawBooks, p) in u.ledger.markers
        ensures Handed(u, u.raw[p][i])
      {
        HandedStays(s, u, s.raw[p][i]);
      }
    }
    RecordedKeepsInv(s, u, MarkerRow(run, CleanBooks, q));
  }

  lemma ObservingRawKeepsInv(s: System, c: ConsumerId, p: Partition, seen: set<MarkerRow>)
    requires Inv(s) && Enabled(s, ObserveRaw(c, p, seen))
    ensures Inv(Apply(s, ObserveRaw(c, p, seen)))
  {
    var t := Apply(s, ObserveRaw(c, p, seen));
    var run := RawEvent(s, c, p).run;
    var u := RawRecorded(s, c, p, run);
    PastBoundary(u, c, p, run, seen, t.transformers[c]);
    TransformerStays(u, t, t.transformers[c]);
    hide Inv, TransformerReady, LoaderReady, Complete;
    ConsumerStep(u, t, c);
  }

  /** The row is there; what is now owed, if anything, every raw partition has reported for. */
  lemma PastBoundary(u: System, c: ConsumerId, p: Partition, run: Run, seen: set<MarkerRow>, x: Transformer)
    requires Inv(u) && TransformerAt(u, c, p) && RawEvent(u, c, p) == Marker(run)
    requires MarkerRow(run, RawBooks, p) in u.ledger.markers && seen <= u.ledger.markers
    requires x.at == u.transformers[c].at[p := u.transformers[c].at[p] + 1]
    requires x.owed == if Complete(u.ledger, seen, run, RawBooks) then CleanMarkers(u, run) else {}
    ensures TransformerReady(u, x)
  {
    PastHanded(u, u, c, p);
    if Complete(u.ledger, seen, run, RawBooks) {
      CompleteIsDone(u, u.ledger, seen, run);
      assert u.(ledger := u.ledger) == u;
    }
  }

  lemma SweepingRawKeepsInv(s: System, c: ConsumerId, run: Run, seen: set<MarkerRow>)
    requires Inv(s) && Enabled(s, SweepRaw(c, run, seen))
    ensures Inv(Apply(s, SweepRaw(c, run, seen)))
  {
    var t := Apply(s, SweepRaw(c, run, seen));
    CompleteIsDone(s, s.ledger, seen, run);
    assert s.(ledger := s.ledger) == s;
    TransformerStays(s, t, s.transformers[c]);
    DoneStays(s, t, run);
    ConsumerStep(s, t, c);
  }

  /** Past the boundary just recorded. */
  lemma PastCleanBoundary(u: System, c: ConsumerId, q: Partition, run: Run)
    requires Inv(u) && LoaderAt(u, c, q) && CleanEvent(u, c, q) == Marker(run) && u.loaders[c].batch == []
    requires MarkerRow(run, CleanBooks, q) in u.ledger.markers
    ensures Inv(PastClean(u, c, q, []))
  {
    var v := PastClean(u, c, q, []);
    PastSettled(u, u, c, q, []);
    LoaderStays(u, v, v.loaders[c]);
    hide Inv, TransformerReady, LoaderReady;
    ConsumerStep(u, v, c);
  }

  lemma CleanRowIsThere(s: System, c: ConsumerId, q: Partition, run: Run, u: System)
    requires Inv(s) && LoaderAt(s, c, q) && CleanEvent(s, c, q) == Marker(run)
    requires u == s.(ledger := RecordMarker(s.ledger, MarkerRow(run, CleanBooks, q)))
    ensures MarkerRow(run, CleanBooks, q) in u.ledger.markers
    ensures LoaderAt(u, c, q) && CleanEvent(u, c, q) == Marker(run)
  {
    hide Consumers, Offsets, RawRows, CleanRows, Statuses, Boundaries;
    assert RawDone(s, run);
    assert Frozen(s, run, RawBooks) <==> Frozen(s, run, CleanBooks);
  }

  lemma ObservingCleanKeepsInv(s: System, c: ConsumerId, q: Partition, seen: set<MarkerRow>)
    requires Inv(s) && Enabled(s, ObserveClean(c, q, seen))
    ensures Inv(Apply(s, ObserveClean(c, q, seen)))
  {
    hide Inv, Finalise, RecordMarker;
    var t := Apply(s, ObserveClean(c, q, seen));
    var run := CleanEvent(s, c, q).run;
    var u := CleanRecorded(s, c, q, run);
    CleanRowIsThere(s, c, q, run, u);
    PastCleanBoundary(u, c, q, run);
    FinalisingKeepsInv(PastClean(u, c, q, []), t, seen, run);
  }

  // ----- every step, every run

  lemma StepKeepsInv(s: System, step: Step)
    requires Inv(s) && Enabled(s, step)
    ensures Inv(Apply(s, step))
  {
    hide Inv;
    match step
    case StartRun(run) => RunRowsKeepInv(s, run);
    case AbandonRun(run) => RunRowsKeepInv(s, run);
    case Produce(p, run, id) => ProducingKeepsInv(s, p, run, id);
    case CloseExtraction(run, extracted) => ClosingExtractionKeepsInv(s, run, extracted);
    case EmitBoundary(run, p) => BoundaryKeepsInv(s, run, p);
    case StartTransformer(c) => StartingKeepsInv(s, c);
    case CrashTransformer(c) => StartingKeepsInv(s, c);
    case AssignRaw(c, p) => AssigningKeepsInv(s, c, p);
    case RevokeRaw(c, p) => AssigningKeepsInv(s, c, p);
    case Forward(c, p, q) => ForwardingKeepsInv(s, c, p, q);
    case ParkRaw(c, p) => ParkingKeepsInv(s, c, p);
    case ObserveRaw(c, p, seen) => ObservingRawKeepsInv(s, c, p, seen);
    case SweepRaw(c, run, seen) => SweepingRawKeepsInv(s, c, run, seen);
    case EmitClean(c, m) => EmittingKeepsInv(s, c, m);
    case CommitRaw(c) => CommittingKeepsInv(s, c);
    case StartLoader(c) => StartingKeepsInv(s, c);
    case CrashLoader(c) => StartingKeepsInv(s, c);
    case AssignClean(c, p) => AssigningKeepsInv(s, c, p);
    case RevokeClean(c, p) => AssigningKeepsInv(s, c, p);
    case Take(c, p) => TakingKeepsInv(s, c, p);
    case ParkClean(c, p) => ParkingKeepsInv(s, c, p);
    case Write(c, n) => WritingKeepsInv(s, c, n);
    case ObserveClean(c, p, seen) => ObservingCleanKeepsInv(s, c, p, seen);
    case SweepClean(run, seen) => FinalisingKeepsInv(s, Apply(s, step), seen, run);
    case CommitClean(c) => CommittingKeepsInv(s, c);
  }

  lemma InitialInv(s: System)
    requires Initial(s)
    ensures Inv(s)
  {
    assert forall run :: !Frozen(s, run, RawBooks) && !Frozen(s, run, CleanBooks);
  }

  lemma {:induction false} RunsKeepInv(s: System, steps: seq<Step>, t: System)
    requires Inv(s) && Runs(s, steps, t)
    ensures Inv(t)
    decreases |steps|
  {
    if steps != [] {
      StepKeepsInv(s, steps[0]);
      RunsKeepInv(Apply(s, steps[0]), steps[1..], t);
    }
  }

  lemma ReachableInv(t: System)
    requires Reachable(t)
    ensures Inv(t)
  {
    var s, steps :| Initial(s) && Runs(s, steps, t);
    InitialInv(s);
    RunsKeepInv(s, steps, t);
  }

  lemma EarlyCopyIsSettled(s: System, e: Event)
    requires Inv(s) && CleanDone(s, e.run) && ForwardedEarly(s.clean, e) && e.Book?
    ensures Settled(s, e)
  {
    var q, i :| 0 <= q < |s.clean| && 0 <= i < |s.clean[q]| && s.clean[q][i] == e && Marker(e.run) !in s.clean[q][..i];
    assert MarkerRow(e.run, CleanBooks, q) in s.ledger.markers;
    assert ClosedAt(s, e.run, q);
    var j :| 0 <= j < |s.clean[q]| && s.clean[q][j] == Marker(e.run) && SettledUpTo(s, q, j, []);
  }

  lemma DoneIsHanded(s: System, p: Partition, i: nat)
    requires Inv(s) && p < |s.raw| && i < |s.raw[p]| && s.raw[p][i].Book?
    requires CleanDone(s, s.raw[p][i].run)
    ensures Handed(s, s.raw[p][i])
  {
    var run := s.raw[p][i].run;
    assert 0 < |s.clean|;
    assert MarkerRow(run, CleanBooks, 0) in s.ledger.markers;
    assert ClosedAt(s, run, 0);
    var j :| 0 <= j < |s.clean[0]| && s.clean[0][j] == Marker(run) && SettledUpTo(s, 0, j, []);
    assert RawDone(s, run);
  }

  /**
   * Over every interleaving of producers, barriers, consumers, crashes, reassignments and
   * redeliveries: once a run is marked success, every record ever published for it is in the
   * catalogue or parked, no more can be published, and it was closed exactly once.
   */
  lemma SuccessMeansHandled(s: System, run: Run)
    requires Reachable(s)
    requires HasStatus(s.ledger, run, Success)
    ensures forall p, i :: 0 <= p < |s.raw| && 0 <= i < |s.raw[p]| && s.raw[p][i].Book? && s.raw[p][i].run == run ==>
      s.raw[p][i] in s.loaded || s.raw[p][i] in s.parked
    ensures forall p, id :: !Enabled(s, Produce(p, run, id))
    ensures s.ledger.runs[run].closed == 1
  {
    ReachableInv(s);
    assert CleanDone(s, run);
    forall p, i | 0 <= p < |s.raw| && 0 <= i < |s.raw[p]| && s.raw[p][i].Book? && s.raw[p][i].run == run
      ensures Settled(s, s.raw[p][i])
    {
      DoneIsHanded(s, p, i);
      if s.raw[p][i] !in s.parked {
        EarlyCopyIsSettled(s, s.raw[p][i]);
      }
    }
    assert Frozen(s, run, RawBooks) <==> Frozen(s, run, CleanBooks);
  }
}
