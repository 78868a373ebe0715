// The two consumers' loops, against one-at-a-time loading and a commit that may only follow effects.

module Deliveries {
  import opened Ordering
  import opened Domain
  import opened Catalogue
  import opened CatalogueProofs
  import opened History
  import opened Redelivery
  import opened Ledgers

  /**
   * What a source yields. Whether a book event maps to a usable record is a pure function of its
   * payload, so the answer travels with the event.
   */
  datatype Delivery = BookEvent(run: Run, record: Option<Record>) | PartitionMarker(row: MarkerRow)

  /** A usable record, and the run it is loaded for. */
  datatype Tagged = Tagged(run: Run, record: Record)

  function Loads(events: seq<Delivery>): seq<Tagged> {
    if events == [] then [] else
      var e := events[|events|-1];
      Loads(events[..|events|-1]) +
        if e.BookEvent? && e.record.Some? then [Tagged(e.run, e.record.value)] else []
  }

  predicate Unusable(e: Delivery) {
    e.BookEvent? && e.record.None?
  }

  function Rejects(events: seq<Delivery>): seq<Delivery> {
    if events == [] then [] else
      var e := events[|events|-1];
      Rejects(events[..|events|-1]) + if Unusable(e) then [e] else []
  }

  function RejectsOf(events: seq<Delivery>, run: Run): nat {
    if events == [] then 0 else
      var e := events[|events|-1];
      RejectsOf(events[..|events|-1], run) + if Unusable(e) && e.run == run then 1 else 0
  }

  function RecordsOf(loads: seq<Tagged>): (rs: seq<Record>)
    ensures |rs| == |loads|
    ensures forall i :: 0 <= i < |rs| ==> rs[i] == loads[i].record
  {
    seq(|loads|, i requires 0 <= i < |loads| => loads[i].record)
  }

  function Tag(batch: seq<Record>, run: Run): (loads: seq<Tagged>)
    ensures |loads| == |batch|
    ensures forall i :: 0 <= i < |loads| ==> loads[i] == Tagged(run, batch[i])
  {
    seq(|batch|, i requires 0 <= i < |batch| => Tagged(run, batch[i]))
  }

  /** Whether loading one more record inserts or updates a book, and how many. */
  ghost function Changes(t: Tables, init: seq<Record>, r: Record): nat
    requires Sound(t)
  {
    match LoadAll(t, init)
    case Err(_) => 0
    case Ok(before) =>
      match LoadOne(before.tables, r)
      case Err(_) => 0
      case Ok(last) => last.counts.Changed()
  }

  /** How many of a run's records changed the catalogue, loading everything one at a time. */
  ghost function ChangedBy(t: Tables, loads: seq<Tagged>, run: Run): nat
    requires Sound(t)
  {
    if loads == [] then 0 else
      var init, last := loads[..|loads|-1], loads[|loads|-1];
      ChangedBy(t, init, run) + if last.run == run then Changes(t, RecordsOf(init), last.record) else 0
  }

  lemma LoadsStep(init: seq<Delivery>, e: Delivery)
    ensures Loads(init + [e]) ==
      Loads(init) + if e.BookEvent? && e.record.Some? then [Tagged(e.run, e.record.value)] else []
    ensures Rejects(init + [e]) == Rejects(init) + if Unusable(e) then [e] else []
    ensures forall run ::
      RejectsOf(init + [e], run) == RejectsOf(init, run) + (if Unusable(e) && e.run == run then 1 else 0)
  {
    assert (init + [e])[..|init|] == init;
  }

  /** A batch of one run's records changes what its members change one at a time. */
  lemma {:induction false} BatchChanges(t: Tables, loads: seq<Tagged>, batch: seq<Record>, tag: Run, run: Run)
    requires Sound(t) && LoadAll(t, RecordsOf(loads) + batch).Ok?
    ensures LoadAll(t, RecordsOf(loads)).Ok?
    ensures LoadAll(t, RecordsOf(loads)).value.counts.Changed() <= LoadAll(t, RecordsOf(loads) + batch).value.counts.Changed()
    ensures ChangedBy(t, loads + Tag(batch, tag), run) == ChangedBy(t, loads, run) +
      if run == tag then LoadAll(t, RecordsOf(loads) + batch).value.counts.Changed()
                         - LoadAll(t, RecordsOf(loads)).value.counts.Changed()
      else 0
  {
    hide LoadAll, Sound;
    if batch == [] {
      assert loads + Tag(batch, tag) == loads && RecordsOf(loads) + batch == RecordsOf(loads);
    } else {
      var init, r := batch[..|batch|-1], batch[|batch|-1];
      var whole, prefix := loads + Tag(batch, tag), loads + Tag(init, tag);
      assert whole[..|whole|-1] == prefix && whole == prefix + [Tagged(tag, r)];
      assert RecordsOf(prefix) == RecordsOf(loads) + init;
      assert RecordsOf(whole) == RecordsOf(loads) + batch;
      assert RecordsOf(prefix) + [r] == RecordsOf(whole);
      LastChanges(t, RecordsOf(prefix), r);
      BatchChanges(t, loads, init, tag, run);
    }
  }

  lemma LastChanges(t: Tables, init: seq<Record>, r: Record)
    requires Sound(t) && LoadAll(t, init + [r]).Ok?
    ensures LoadAll(t, init).Ok?
    ensures LoadAll(t, init + [r]).value.counts.Changed() == LoadAll(t, init).value.counts.Changed() + Changes(t, init, r)
  {
    hide LoadOne, Sound, LoadAll;
    LoadAllStep(t, init, r);
  }

  /** One record changes one book at most. */
  lemma OneChangeAtMost(t: Tables, r: Record)
    requires Sound(t) && LoadOne(t, r).Ok?
    ensures LoadOne(t, r).value.counts.Changed() <= 1
  {
    FindHomeIsRight(t, r);
    hide FindHome, Sound, Candidates, MergedUnder, SyncSeries;
  }

  lemma {:induction false} ChangedGrows(t: Tables, loads: seq<Tagged>, batch: seq<Record>, tag: Run, run: Run)
    requires Sound(t)
    ensures ChangedBy(t, loads, run) <= ChangedBy(t, loads + Tag(batch, tag), run) <= ChangedBy(t, loads, run) + |batch|
  {
    hide Changes, Sound;
    if batch == [] {
      assert loads + Tag(batch, tag) == loads;
    } else {
      var init, r := batch[..|batch|-1], batch[|batch|-1];
      var whole, prefix := loads + Tag(batch, tag), loads + Tag(init, tag);
      assert whole[..|whole|-1] == prefix && whole == prefix + [Tagged(tag, r)];
      ChangedGrows(t, loads, init, tag, run);
      ChangesAtMostOne(t, RecordsOf(prefix), r);
    }
  }

  lemma ChangesAtMostOne(t: Tables, init: seq<Record>, r: Record)
    requires Sound(t)
    ensures Changes(t, init, r) <= 1
  {
    hide LoadAll, LoadOne;
    if LoadAll(t, init).Ok? && LoadOne(LoadAll(t, init).value.tables, r).Ok? {
      OneChangeAtMost(LoadAll(t, init).value.tables, r);
    }
  }

  /** A run is never credited with more than loading did. */
  lemma {:induction false} ChangedAtMost(t: Tables, loads: seq<Tagged>, run: Run)
    requires Sound(t) && LoadAll(t, RecordsOf(loads)).Ok?
    ensures ChangedBy(t, loads, run) <= LoadAll(t, RecordsOf(loads)).value.counts.Changed()
  {
    hide LoadAll, Sound, Changes;
    if loads != [] {
      var init, last := loads[..|loads|-1], loads[|loads|-1];
      assert RecordsOf(loads) == RecordsOf(init) + [last.record];
      LastChanges(t, RecordsOf(init), last.record);
      ChangedAtMost(t, init, run);
    }
  }

  /** What loading changed, some run is credited with. */
  lemma {:induction false} ChangeIsCredited(t: Tables, loads: seq<Tagged>) returns (run: Run)
    requires Sound(t) && LoadAll(t, RecordsOf(loads)).Ok? && LoadAll(t, RecordsOf(loads)).value.counts.Changed() > 0
    ensures ChangedBy(t, loads, run) > 0
  {
    hide LoadAll, Sound, Changes;
    if loads == [] {
      assert RecordsOf(loads) == [];
      NothingLoaded(t);
    } else {
      var init, last := loads[..|loads|-1], loads[|loads|-1];
      assert RecordsOf(loads) == RecordsOf(init) + [last.record];
      LastChanges(t, RecordsOf(init), last.record);
      if Changes(t, RecordsOf(init), last.record) > 0 {
        run := last.run;
      } else {
        run := ChangeIsCredited(t, init);
      }
    }
  }

  /**
   * A crash before the commit redelivers the end of what was written. Whatever was in the
   * catalogue before, and however often a key comes back, no run is credited with anything more
   * exactly when no two redelivered records left on one book carry different ISBNs and no
   * redelivered payload, at its turn, alters what its book says. One payload a key never does.
   */
  lemma RedeliveryAddsNothingExactlyWhen(t: Tables, before: seq<Tagged>, again: seq<Tagged>)
    requires Inv(t) && AllRecordsMapped(RecordsOf(before)) && AllRecordsMapped(RecordsOf(again))
    ensures Sound(t) && LoadAll(t, RecordsOf(before + again)).Ok?
    ensures var written := LoadAll(t, RecordsOf(before + again)).value.tables; var rs := RecordsOf(again);
      && ((forall run :: ChangedBy(written, again, run) == 0) <==> OneIsbnABook(written, rs) && Alterations(written, rs) == 0)
      && (OnePayloadAKey(rs) ==> ((forall run :: ChangedBy(written, again, run) == 0) <==> OneIsbnABook(written, rs)))
  {
    hide *;
    assert RecordsOf(before + again) == RecordsOf(before) + RecordsOf(again);
    RedeliveryIsHarmlessExactlyWhen(t, RecordsOf(before), RecordsOf(again));
    CreditedExactlyWhen(LoadAll(t, RecordsOf(before + again)).value.tables, again);
  }

  lemma CreditedExactlyWhen(t: Tables, loads: seq<Tagged>)
    requires Sound(t) && LoadAll(t, RecordsOf(loads)).Ok?
    ensures (forall run :: ChangedBy(t, loads, run) == 0) <==> LoadAll(t, RecordsOf(loads)).value.counts.Changed() == 0
  {
    hide *;
    if LoadAll(t, RecordsOf(loads)).value.counts.Changed() > 0 {
      var run := ChangeIsCredited(t, loads);
    } else {
      forall run ensures ChangedBy(t, loads, run) == 0 {
        ChangedAtMost(t, loads, run);
      }
    }
  }
}

module Consumers {
  import opened Ordering
  import opened Domain
  import opened Catalogue
  import opened CatalogueProofs
  import opened History
  import opened Ledgers
  import opened Markers
  import opened Loader
  import opened Deliveries
  import opened Confluence
  import opened Redelivery

  const ACCOUNTING_FLUSH: nat := 25

  /** What a run has loaded and rejected. */
  datatype Tally = Tally(loaded: nat, rejected: nat)

  type Pending = map<Run, Tally>

  function Entry(pending: Pending, run: Run): Tally {
    if run in pending then pending[run] else Tally(0, 0)
  }

  /** What each run's row says, plus what is waiting to be added to it. */
  function Totals(l: Ledger, pending: Pending): map<Run, Tally> {
    map run | run in l.runs ::
      Tally(l.runs[run].loaded + Entry(pending, run).loaded, l.runs[run].rejected + Entry(pending, run).rejected)
  }

  function Raised(totals: map<Run, Tally>, run: Run, loaded: nat, rejected: nat): map<Run, Tally> {
    if run in totals then totals[run := Tally(totals[run].loaded + loaded, totals[run].rejected + rejected)] else totals
  }

  /** No run has more waiting than is worth a round trip. */
  ghost predicate Small(pending: Pending) {
    forall run :: Entry(pending, run).loaded + Entry(pending, run).rejected < 25
  }

  /** What each run's row itself says. */
  function Rows(l: Ledger): map<Run, Tally> {
    map run | run in l.runs :: Tally(l.runs[run].loaded, l.runs[run].rejected)
  }

  /** A row that has moved has moved by enough to be worth a round trip. */
  predicate Lags(before: map<Run, Tally>, after: map<Run, Tally>) {
    && after.Keys == before.Keys
    && forall run :: run in before ==>
         || after[run] == before[run]
         || after[run].loaded + after[run].rejected >= before[run].loaded + before[run].rejected + 25
  }

  predicate NoMarker(seen: seq<Delivery>) {
    forall e :: e in seen ==> !e.PartitionMarker?
  }

  /** Until a boundary comes, rows lag. */
  predicate Waits(rows: map<Run, Tally>, seen: seq<Delivery>, l: Ledger) {
    NoMarker(seen) ==> Lags(rows, Rows(l))
  }

  /** Two ledgers that differ in tallies at most. */
  predicate SameBoundaries(a: Ledger, b: Ledger) {
    a.expected == b.expected && a.markers == b.markers
  }

  /** Every boundary seen whose topology is frozen is a row. */
  predicate Recorded(l: Ledger, seen: seq<Delivery>) {
    forall e :: e in seen && e.PartitionMarker? && TopicKey(e.row.run, e.row.topic) in l.expected ==> e.row in l.markers
  }

  /** The catalogue holds these records loaded one at a time into `start`. */
  ghost predicate Wrote(start: Tables, loads: seq<Tagged>, now: Tables) {
    Sound(start) && LoadAll(start, RecordsOf(loads)).Ok? && LoadAll(start, RecordsOf(loads)).value.tables == now
  }

  /** Run totals have moved by exactly what one-at-a-time loading and parking would have moved them. */
  ghost predicate Conserves(start: Tables, before: map<Run, Tally>, loads: seq<Tagged>, seen: seq<Delivery>, now: map<Run, Tally>)
    requires Sound(start)
  {
    && now.Keys == before.Keys
    && forall run :: run in now ==>
      now[run] == Tally(before[run].loaded + ChangedBy(start, loads, run), before[run].rejected + RejectsOf(seen, run))
  }

  /** Where a process can be killed: between any two effects of one delivery, parking a record and counting it being one. */
  datatype Point = AtDelivery | AfterParking | AfterLoading | AfterCounting | AfterTallies | AfterBoundary | AfterCommit

  /** What befalls one delivery: the deadlocks its loads meet, and where the process dies, if it does. */
  datatype Fate = Fate(deadlocks: seq<seq<Option<nat>>>, killed: Option<Point>)

  predicate Calm(fate: Fate) {
    fate.killed.None? && forall d :: d in fate.deadlocks ==> Spared(d)
  }

  /** Loading these one at a time does not commit them all. */
  ghost predicate Refused(start: Tables, loads: seq<Tagged>) {
    Sound(start) && LoadAll(start, RecordsOf(loads)).Err?
  }

  /** What has been written and what of it has been counted, `size` records apart at most. */
  predicate Apart(counted: seq<Tagged>, written: seq<Tagged>, size: nat) {
    counted <= written && |written| <= |counted| + size
  }

  class LoadConsumer {
    const batchSize: nat
    const loader: CatalogueLoader
    const ledger: RunTables
    var dlq: seq<Delivery>
    var pending: Pending
    var committed: nat  // deliveries the group will not be given again

    constructor (loader: CatalogueLoader, ledger: RunTables, size: nat)
      ensures this.loader == loader && this.ledger == ledger
      ensures batchSize == if size > 1 then size else 1
      ensures dlq == [] && pending == map[] && committed == 0
    {
      this.loader, this.ledger := loader, ledger;
      batchSize := if size > 1 then size else 1;
      dlq, pending, committed := [], map[], 0;
    }

    // -- accounting

    method WriteTally(run: Run)
      modifies this`pending, ledger
      ensures run !in pending
      ensures pending == old(pending) - {run}
      ensures ledger.State() ==
        RecordLoaded(old(ledger.State()), run, Entry(old(pending), run).loaded, Entry(old(pending), run).rejected)
      ensures Totals(ledger.State(), pending) == Totals(old(ledger.State()), old(pending))
      ensures SameBoundaries(ledger.State(), old(ledger.State()))
    {
      if run in pending {
        var entry := pending[run];
        pending := pending - {run};
        ledger.RecordLoaded(run, entry.loaded, entry.rejected);
      } else {
        assert pending - {run} == pending;
        NothingAdded(ledger.State(), run);
      }
    }

    method WriteEveryTally()
      modifies this`pending, ledger
      ensures pending == map[]
      ensures Totals(ledger.State(), pending) == Totals(old(ledger.State()), old(pending))
      ensures SameBoundaries(ledger.State(), old(ledger.State()))
    {
      while pending != map[]
        invariant Totals(ledger.State(), pending) == Totals(old(ledger.State()), old(pending))
        invariant SameBoundaries(ledger.State(), old(ledger.State()))
        decreases |pending|
      {
        var run :| run in pending;
        WriteTally(run);
      }
    }

    /** Counted in memory, and written once it is worth a round trip. */
    method Count(run: Run, loaded: nat, rejected: nat)
      modifies this`pending, ledger
      ensures Totals(ledger.State(), pending) == Raised(Totals(old(ledger.State()), old(pending)), run, loaded, rejected)
      ensures SameBoundaries(ledger.State(), old(ledger.State()))
      ensures run in pending ==> pending[run].loaded + pending[run].rejected < ACCOUNTING_FLUSH
      ensures forall r :: r != run ==> Entry(pending, r) == Entry(old(pending), r)
      ensures Small(old(pending)) ==> Small(pending)
      ensures Lags(Rows(old(ledger.State())), Rows(ledger.State()))
    {
      ghost var l := ledger.State();
      BumpedTotals(l, pending, run, loaded, rejected);
      hide Totals, Raised, Lags, Rows, RecordLoaded;
      pending := Bumped(pending, run, loaded, rejected);
      if pending[run].loaded + pending[run].rejected >= ACCOUNTING_FLUSH {
        AddedLags(l, run, pending[run].loaded, pending[run].rejected);
        WriteTally(run);
      } else {
        LagsNot(l);
      }
    }

    // -- effects

    /** Dead-letter an unusable record and count it against its run. */
    method Park(e: Delivery)
      requires Unusable(e)
      modifies this`dlq, this`pending, ledger
      ensures dlq == old(dlq) + [e]
      ensures Totals(ledger.State(), pending) == Raised(Totals(old(ledger.State()), old(pending)), e.run, 0, 1)
      ensures SameBoundaries(ledger.State(), old(ledger.State()))
      ensures Small(old(pending)) ==> Small(pending)
      ensures Lags(Rows(old(ledger.State())), Rows(ledger.State()))
    {
      dlq := dlq + [e];
      Count(e.run, 0, 1);
    }

    /** Write a batch. Only what changed the catalogue is counted; a kill in between counts nothing. */
    method Flush(batch: seq<Record>, run: Run, fate: Fate) returns (failed: bool, written: nat)
      requires Sound(loader.State()) && 0 < loader.batchSize
      modifies this`pending, ledger, loader, loader.shelf
      ensures written <= |batch| && Sound(loader.State())
      ensures LoadAll(old(loader.State()), batch[..written]).Ok?
      ensures LoadAll(old(loader.State()), batch[..written]).value.tables == loader.State()
      ensures !failed ==> written == |batch| && batch[..written] == batch
      ensures !failed ==> Totals(ledger.State(), pending) == Raised(Totals(old(ledger.State()), old(pending)), run,
        LoadAll(old(loader.State()), batch).value.counts.Changed(), 0)
      ensures failed ==> ledger.State() == old(ledger.State()) && pending == old(pending)
      ensures failed && Calm(fate) ==> LoadAll(old(loader.State()), batch).Err?
      ensures fate.killed == Some(AfterLoading) ==> failed
      ensures SameBoundaries(ledger.State(), old(ledger.State()))
      ensures Small(old(pending)) ==> Small(pending)
      ensures Lags(Rows(old(ledger.State())), Rows(ledger.State()))
    {
      hide LoadAll, Sound, Totals, Raised, SameBoundaries, Small, Lags, Rows, Spared;
      ghost var l, totals, start := ledger.State(), Totals(ledger.State(), pending), loader.State();
      var changed: nat;
      failed, written, changed := WriteBatch(batch, fate.deadlocks);
      ghost var now := loader.State();
      assert ledger.State() == l;
      if !failed && fate.killed == Some(AfterLoading) {
        failed := true;
      }
      if !failed {
        assert changed == LoadAll(start, batch).value.counts.Changed();
        assert Totals(ledger.State(), pending) == totals;
        Count(run, changed, 0);
        assert loader.State() == now;
        assert Totals(ledger.State(), pending) == Raised(totals, run, changed, 0);
      } else {
        BoundariesAlike(l);
        LagsNot(l);
      }
    }

    method WriteBatch(batch: seq<Record>, deadlocks: seq<seq<Option<nat>>>) returns (failed: bool, written: nat, changed: nat)
      requires Sound(loader.State()) && 0 < loader.batchSize
      modifies loader, loader.shelf
      ensures written <= |batch| && Sound(loader.State())
      ensures LoadAll(old(loader.State()), batch[..written]).Ok?
      ensures LoadAll(old(loader.State()), batch[..written]).value.tables == loader.State()
      ensures !failed ==> written == |batch| && batch[..written] == batch
      ensures !failed ==> changed == LoadAll(old(loader.State()), batch).value.counts.Changed()
      ensures failed && (forall d :: d in deadlocks ==> Spared(d)) ==> LoadAll(old(loader.State()), batch).Err?
    {
      hide LoadAll, Sound, Spared;
      var total, loaded, failure := loader.Load(batch, deadlocks);
      failed, written, changed := failure.Some?, loaded, total.inserted + total.updated;
      if !failed {
        assert batch[..|batch|] == batch;
      }
    }

    /**
     * Record a clean boundary, and close the run once every partition has reported. Nothing may
     * be waiting to be counted: this may be what closes the run.
     */
    method HandleMarker(row: MarkerRow)
      requires pending == map[]
      modifies ledger
      ensures var l := RecordMarker(old(ledger.State()), row);
        ledger.State() == Finalise(l, l.markers, row.run, row.topic)
    {
      var known := ledger.RecordMarker(row);
      var finalised := ledger.FinaliseIfComplete(row.run, row.topic);
    }

    /**
     * Commit the offset. It may follow only when every delivery up to it has had its effect: the
     * usable ones are in the catalogue, the others parked, the boundaries recorded.
     */
    method Commit(ghost seen: seq<Delivery>, n: nat, ghost start: Tables, ghost parked: seq<Delivery>)
      requires n == |seen|
      requires Wrote(start, Loads(seen), loader.State())
      requires dlq == parked + Rejects(seen)
      requires Recorded(ledger.State(), seen)
      modifies this`committed
      ensures committed == n
    {
      committed := n;
    }

    // -- the loop

    /** Everything seen is parked, recorded and counted; what has been written is `done`. */
    ghost predicate Progress(o: Origin, seen: seq<Delivery>, done: seq<Tagged>)
      reads this`dlq, this`pending, loader, loader.shelf, ledger
    {
      && Wrote(o.start, done, loader.State())
      && dlq == o.parked + Rejects(seen)
      && Recorded(ledger.State(), seen)
      && Conserves(o.start, o.totals, done, seen, Totals(ledger.State(), pending))
      && Small(pending)
      && Waits(o.rows, seen, ledger.State())
    }

    /** How the process leaves things when it dies: rows and memory account for what was counted. */
    ghost predicate Stopped(o: Origin, seen: seq<Delivery>, counted: seq<Tagged>, written: seq<Tagged>)
      reads this`pending, loader, loader.shelf, ledger
    {
      && Wrote(o.start, written, loader.State())
      && Apart(counted, written, batchSize)
      && Conserves(o.start, o.totals, counted, seen, Totals(ledger.State(), pending))
      && Small(pending)
      && Waits(o.rows, seen, ledger.State())
    }

    lemma ProgressStops(o: Origin, seen: seq<Delivery>, done: seq<Tagged>)
      requires Progress(o, seen, done)
      ensures Stopped(o, seen, done, done)
    {
      hide Wrote, Conserves, Small, Waits;
    }

    method FlushBatch(batch: seq<Record>, run: Run, fate: Fate,
                      ghost o: Origin, ghost seen: seq<Delivery>, ghost done: seq<Tagged>)
      returns (failed: bool, ghost written: seq<Tagged>, ghost counted: seq<Tagged>)
      requires 0 < loader.batchSize && Progress(o, seen, done) && |batch| <= batchSize
      modifies this`pending, ledger, loader, loader.shelf
      ensures !failed ==> Progress(o, seen, written) && counted == written == done + Tag(batch, run)
      ensures failed ==> Stopped(o, seen, counted, written)
      ensures failed && Calm(fate) ==> Refused(o.start, done + Tag(batch, run))
      ensures written <= done + Tag(batch, run)
      ensures done <= counted && done <= written && Wrote(o.start, written, loader.State())
      ensures batch == [] ==> !failed
    {
      hide Progress, Stopped, Calm, Refused, Wrote;
      if batch == [] {
        assert done + Tag(batch, run) == done;
        ProgressParts(o, seen, done);
        return false, done, done;
      }
      failed, written, counted := FlushSome(batch, run, fate, o, seen, done);
      if !failed && fate.killed == Some(AfterCounting) {
        ProgressStops(o, seen, written);
        NotCalm(fate);
        failed := true;
      }
    }

    method FlushSome(batch: seq<Record>, run: Run, fate: Fate,
                     ghost o: Origin, ghost seen: seq<Delivery>, ghost done: seq<Tagged>)
      returns (failed: bool, ghost written: seq<Tagged>, ghost counted: seq<Tagged>)
      requires 0 < loader.batchSize && Progress(o, seen, done) && |batch| <= batchSize
      modifies this`pending, ledger, loader, loader.shelf
      ensures !failed ==> Progress(o, seen, written) && counted == written == done + Tag(batch, run)
      ensures failed ==> Stopped(o, seen, counted, written)
      ensures failed && Calm(fate) ==> Refused(o.start, done + Tag(batch, run))
      ensures written <= done + Tag(batch, run)
      ensures done <= counted && done <= written && Wrote(o.start, written, loader.State())
    {
      ghost var start, l, totals := loader.State(), ledger.State(), Totals(ledger.State(), pending);
      WroteIsSound(o.start, done, start);
      hide Wrote, Conserves, LoadAll, Sound, Totals, Raised, Small, Waits, Recorded, Calm, Refused, Lags, Rows;
      var n: nat;
      failed, n := Flush(batch, run, fate);
      written := done + Tag(batch[..n], run);
      counted := if failed then done else written;
      WroteMore(o.start, done, start, batch[..n], run);
      WaitsOn(o.rows, seen, l, ledger.State());
      if failed {
        if Calm(fate) {
          RefusedBatch(o.start, done, start, batch, run);
        }
      } else {
        ConservesWritten(o.start, o.totals, done, start, batch, run, seen, totals);
        RecordedAlike(l, ledger.State(), seen);
      }
    }

    /** A batch is written, and every count with it, before the boundary that follows it. */
    method TakeMarker(e: Delivery, batch: seq<Record>, run: Run, fate: Fate, n: nat,
                      ghost o: Origin, ghost seen: seq<Delivery>, ghost done: seq<Tagged>)
      returns (failed: bool, ghost written: seq<Tagged>, ghost counted: seq<Tagged>)
      requires 0 < loader.batchSize && Progress(o, seen, done) && Loads(seen) == done + Tag(batch, run)
      requires |batch| <= batchSize
      requires e.PartitionMarker? && n == |seen| + 1
      modifies this`pending, this`committed, ledger, loader, loader.shelf
      ensures !failed ==> Progress(o, seen + [e], Loads(seen + [e])) && written == Loads(seen + [e]) && committed == n
      ensures failed ==> committed == old(committed)
      ensures failed ==> Stopped(o, seen + [e], counted, written)
      ensures failed && Calm(fate) ==> Refused(o.start, Loads(seen + [e]))
      ensures written <= Loads(seen + [e])
      ensures done <= counted && done <= written && Wrote(o.start, written, loader.State())
    {
      hide Progress, Loads, Wrote, Stopped, Calm, Refused;
      failed, written, counted := FlushBatch(batch, run, fate, o, seen, done);
      MarkerLoads(seen, e);
      if failed {
        StoppedAtMarker(o, seen, e, counted, written);
        return;
      }
      failed := RecordBoundary(e, fate, o, seen, written);
      if failed {
        return;
      }
      ProgressParts(o, seen + [e], written);
      Commit(seen + [e], n, o.start, o.parked);
      assert Progress(o, seen + [e], written);
    }

    lemma StoppedAtMarker(o: Origin, seen: seq<Delivery>, e: Delivery, counted: seq<Tagged>, written: seq<Tagged>)
      requires Stopped(o, seen, counted, written) && !Unusable(e)
      ensures Stopped(o, seen + [e], counted, written)
    {
      WroteIsSound(o.start, written, loader.State());
      hide Wrote, Conserves, Sound, Totals, Small, Lags, Rows;
      ConservesParked(o.start, o.totals, counted, seen, e, Totals(ledger.State(), pending));
      WaitsLonger(o.rows, seen, e, ledger.State());
    }

    /** The tallies, then the boundary. */
    method RecordBoundary(e: Delivery, fate: Fate, ghost o: Origin, ghost seen: seq<Delivery>, ghost done: seq<Tagged>)
      returns (killed: bool)
      requires Progress(o, seen, done) && e.PartitionMarker?
      modifies this`pending, ledger
      ensures Loads(seen + [e]) == Loads(seen) && (killed ==> !Calm(fate))
      ensures !killed ==> Progress(o, seen + [e], done)
      ensures killed ==> Stopped(o, seen + [e], done, done) && Wrote(o.start, done, loader.State())
    {
      WroteIsSound(o.start, done, loader.State());
      hide Wrote, Conserves, Loads, Rejects, Recorded, Totals, Raised, Sound, RecordMarker, Finalise, Lags, Rows, Small;
      ghost var now := loader.State();
      WriteEveryTally();
      ghost var l := ledger.State();
      assert loader.State() == now;
      MarkerLoads(seen, e);
      BoundaryWaits(o.rows, seen, e, l);
      NothingPending();
      if fate.killed == Some(AfterTallies) {
        ConservesParked(o.start, o.totals, done, seen, e, Totals(l, pending));
        return true;
      }
      HandleMarker(e.row);
      assert loader.State() == now;
      MarkerTaken(o, seen, done, e, l, ledger.State());
      BoundaryWaits(o.rows, seen, e, ledger.State());
      killed := fate.killed == Some(AfterBoundary);
    }

    /** Parked. Everything ahead of it is written before the offset moves past it. */
    method TakeUnusable(e: Delivery, batch: seq<Record>, run: Run, fate: Fate, n: nat,
                        ghost o: Origin, ghost seen: seq<Delivery>, ghost done: seq<Tagged>)
      returns (failed: bool, ghost written: seq<Tagged>, ghost counted: seq<Tagged>)
      requires 0 < loader.batchSize && Progress(o, seen, done) && Loads(seen) == done + Tag(batch, run)
      requires |batch| <= batchSize
      requires Unusable(e) && n == |seen| + 1
      modifies this`dlq, this`pending, this`committed, ledger, loader, loader.shelf
      ensures !failed ==> Progress(o, seen + [e], Loads(seen + [e])) && written == Loads(seen + [e]) && committed == n
      ensures failed ==> committed == old(committed)
      ensures failed ==> Stopped(o, seen + [e], counted, written)
      ensures failed && Calm(fate) ==> Refused(o.start, Loads(seen + [e]))
      ensures written <= Loads(seen + [e])
      ensures done <= counted && done <= written && Wrote(o.start, written, loader.State())
      ensures dlq == old(dlq) + [e]
    {
      hide Progress, Loads, Wrote, Stopped, Refused, Calm;
      ParkUnusable(e, o, seen, done);
      if fate.killed == Some(AfterParking) {
        NotCalm(fate);
        ProgressStops(o, seen + [e], done);
        ProgressParts(o, seen + [e], done);
        return true, done, done;
      }
      failed, written, counted := FlushBatch(batch, run, fate, o, seen + [e], done);
      if !failed {
        ProgressParts(o, seen + [e], written);
        LoadsStep(seen, e);
        Commit(seen + [e], n, o.start, o.parked);
        assert Progress(o, seen + [e], written);
      }
    }

    lemma ProgressParts(o: Origin, seen: seq<Delivery>, done: seq<Tagged>)
      requires Progress(o, seen, done)
      ensures Wrote(o.start, done, loader.State())
      ensures dlq == o.parked + Rejects(seen)
      ensures Recorded(ledger.State(), seen)
    {
      hide Wrote, Conserves, Small, Waits;
    }

    method ParkUnusable(e: Delivery, ghost o: Origin, ghost seen: seq<Delivery>, ghost done: seq<Tagged>)
      requires Progress(o, seen, done) && Unusable(e)
      modifies this`dlq, this`pending, ledger
      ensures Progress(o, seen + [e], done) && Loads(seen + [e]) == Loads(seen)
      ensures dlq == old(dlq) + [e]
    {
      WroteIsSound(o.start, done, loader.State());
      hide Wrote, Conserves, Loads, Rejects, Recorded, Totals, Raised, Sound, Lags, Rows, Small, Waits;
      ghost var now, l, totals := loader.State(), ledger.State(), Totals(ledger.State(), pending);
      Park(e);
      assert loader.State() == now;
      WaitsOn(o.rows, seen, l, ledger.State());
      WaitsLonger(o.rows, seen, e, ledger.State());
      UnusableTaken(o, seen, done, e, l, ledger.State(), totals, now);
    }

    /** A change of run is a batch boundary; a full batch is written and its offset committed. */
    method TakeRecord(e: Delivery, batch: seq<Record>, run: Run, fate: Fate, n: nat,
                      ghost o: Origin, ghost seen: seq<Delivery>, ghost done: seq<Tagged>)
      returns (failed: bool, batch': seq<Record>, ghost written: seq<Tagged>, ghost counted: seq<Tagged>)
      requires 0 < loader.batchSize && Progress(o, seen, done) && Loads(seen) == done + Tag(batch, run)
      requires e.BookEvent? && e.record.Some? && n == |seen| + 1
      requires |batch| < batchSize
      modifies this`pending, this`committed, ledger, loader, loader.shelf
      ensures !failed ==> Progress(o, seen + [e], written) && Loads(seen + [e]) == written + Tag(batch', e.run)
      ensures !failed ==> |batch'| < batchSize
      ensures !failed && batch' == [] ==> committed == n
      ensures committed == old(committed) || (!failed && committed == n && batch' == [])
      ensures failed ==> Stopped(o, seen + [e], counted, written)
      ensures failed && Calm(fate) ==> Refused(o.start, Loads(seen + [e]))
      ensures written <= Loads(seen + [e])
      ensures done <= counted && done <= written && Wrote(o.start, written, loader.State())
    {
      hide Progress, Loads, Wrote, Stopped, Refused, Calm;
      failed, batch', written, counted := EndRun(e, batch, run, fate, o, seen, done);
      if failed {
        return;
      }
      batch' := batch' + [e.record.value];
      if |batch'| >= batchSize {
        failed, written, counted := FlushBatch(batch', e.run, fate, o, seen + [e], written);
        if failed {
          return;
        }
        batch' := [];
        assert written + Tag([], e.run) == written;
        ProgressParts(o, seen + [e], written);
        Commit(seen + [e], n, o.start, o.parked);
        assert Progress(o, seen + [e], written);
      }
    }

    /** load() takes one run for the whole call. */
    method EndRun(e: Delivery, batch: seq<Record>, run: Run, fate: Fate,
                  ghost o: Origin, ghost seen: seq<Delivery>, ghost done: seq<Tagged>)
      returns (failed: bool, batch': seq<Record>, ghost written: seq<Tagged>, ghost counted: seq<Tagged>)
      requires 0 < loader.batchSize && Progress(o, seen, done) && Loads(seen) == done + Tag(batch, run)
      requires |batch| <= batchSize
      requires e.BookEvent? && e.record.Some?
      modifies this`pending, ledger, loader, loader.shelf
      ensures !failed ==> Progress(o, seen + [e], written) && counted == written
      ensures !failed ==> Loads(seen + [e]) == written + Tag(batch' + [e.record.value], e.run)
      ensures |batch'| <= |batch|
      ensures failed ==> Stopped(o, seen + [e], counted, written)
      ensures failed && Calm(fate) ==> Refused(o.start, Loads(seen + [e]))
      ensures written <= Loads(seen + [e])
      ensures done <= counted && done <= written && Wrote(o.start, written, loader.State())
    {
      hide Progress, Wrote, Loads, Stopped, Refused, Calm;
      ProgressParts(o, seen, done);
      failed, batch', written, counted := false, batch, done, done;
      if batch != [] && e.run != run {
        failed, written, counted := FlushBatch(batch, run, fate, o, seen, done);
        if failed {
          StoppedAtMarker(o, seen, e, counted, written);
          LoadsStep(seen, e);
          if Calm(fate) {
            RefusedLonger(o.start, seen, e);
          }
          return;
        }
        batch' := [];
        assert written + Tag([], e.run) == written;
      }
      RecordAhead(o, seen, written, e, batch', if batch' == [] then e.run else run);
    }

    lemma RecordAhead(o: Origin, seen: seq<Delivery>, done: seq<Tagged>, e: Delivery, batch: seq<Record>, run: Run)
      requires Progress(o, seen, done) && Loads(seen) == done + Tag(batch, run)
      requires e.BookEvent? && e.record.Some? && (batch != [] ==> e.run == run)
      ensures Progress(o, seen + [e], done) && Loads(seen + [e]) == done + Tag(batch + [e.record.value], e.run)
    {
      WroteIsSound(o.start, done, loader.State());
      hide Wrote, Conserves, Loads, Rejects, Recorded, Totals, Sound, Small, Lags, Rows, Waits;
      RecordTaken(o, seen, done, e, batch, run, ledger.State(), Totals(ledger.State(), pending));
      WaitsLonger(o.rows, seen, e, ledger.State());
    }

    /** Close any run whose boundaries all arrived before a previous restart. */
    method Sweep()
      modifies ledger
      ensures ledger.State() == Swept(old(ledger.State()))
      ensures ledger.runs.Keys == old(ledger.runs).Keys && SameBoundaries(ledger.State(), old(ledger.State()))
      ensures forall run :: run in ledger.runs ==>
        var was := old(ledger.runs)[run];
        ledger.runs[run] ==
          if was.status == Processing && Complete(old(ledger.State()), old(ledger.observations), run, CleanBooks)
          then was.(status := Success, closed := was.closed + 1) else was
    {
      AwaitedAre(ledger.State());
      ghost var before := ledger.State();
      var waiting := ledger.RunsAwaiting(CleanBooks);
      while waiting != {}
        invariant waiting <= Awaiting(before, CleanBooks)
        invariant SameBoundaries(ledger.State(), before)
        invariant ledger.runs.Keys == before.runs.Keys
        invariant forall run :: run in before.runs ==>
          ledger.runs[run] == if run in waiting then before.runs[run] else Swept(before).runs[run]
        decreases |waiting|
      {
        var run :| run in waiting;
        var closed := ledger.FinaliseIfComplete(run, CleanBooks);
        waiting := waiting - {run};
      }
      assert ledger.runs == Swept(before).runs;
    }

    /**
     * Consume until the source stops or the process dies, at whatever point. While it lives, the
     * catalogue is as if every usable record had been loaded by itself, whatever the batch size,
     * and nothing is left uncounted at the end. When it dies, rows and memory together account
     * exactly for what was counted, the batch in hand is all that was written besides, and the
     * committed offset is behind what was written. It dies only of a kill, a lost deadlock or a
     * record the loader refuses.
     */
    method Run(events: seq<Delivery>, weather: nat -> Fate)
      returns (failed: bool, ghost end: Ending)
      requires 0 < loader.batchSize && 0 < batchSize && Sound(loader.State()) && Small(pending)
      modifies this`dlq, this`pending, this`committed, ledger, loader, loader.shelf
      ensures committed <= |events| && Small(pending)
      ensures Wrote(old(loader.State()), end.written, loader.State()) && Apart(end.counted, end.written, batchSize)
      ensures Loads(events[..committed]) <= end.written <= Loads(events)
      ensures end.died <= end.reached <= |events|
      ensures Conserves(old(loader.State()), Totals(old(ledger.State()), old(pending)), end.counted, events[..end.reached],
                        Totals(ledger.State(), pending))
      ensures failed ==> Waits(Rows(old(ledger.State())), events[..end.reached], ledger.State())
      ensures failed ==> Ahead(Loads(events[..end.died]), end.counted, batchSize)
      ensures failed && Calm(weather(end.died)) ==> Refused(old(loader.State()), Loads(events))
      ensures !failed ==> end == Ending(Loads(events), Loads(events), |events|, |events|)
      ensures !failed ==> committed == |events| && pending == map[]
      ensures !failed ==> dlq == old(dlq) + Rejects(events)
      ensures !failed ==> Recorded(ledger.State(), events)
      ensures !failed ==> forall i :: 0 <= i < |events| ==> weather(i).killed != Some(AtDelivery)
    {
      ghost var o := Begin();
      hide *;
      failed, end := Consume(events, weather, o);
      assert events[..|events|] == events;
      if failed {
        StoppedParts(o, events[..end.reached], end.counted, end.written);
      } else {
        EndedParts(o, events, end.written);
        NothingPending();
      }
    }

    lemma StoppedParts(o: Origin, seen: seq<Delivery>, counted: seq<Tagged>, written: seq<Tagged>)
      requires Stopped(o, seen, counted, written)
      ensures Wrote(o.start, written, loader.State()) && Apart(counted, written, batchSize) && Small(pending)
      ensures Conserves(o.start, o.totals, counted, seen, Totals(ledger.State(), pending))
      ensures Waits(o.rows, seen, ledger.State())
    {
    }

    method Begin() returns (ghost o: Origin)
      requires Sound(loader.State()) && Small(pending)
      modifies this`committed, ledger
      ensures o == Origin(old(loader.State()), old(dlq), Totals(old(ledger.State()), old(pending)), Rows(old(ledger.State())))
      ensures committed == 0 && Progress(o, [], [])
    {
      hide *;
      ghost var now, l := loader.State(), ledger.State();
      o := Origin(now, dlq, Totals(l, pending), Rows(l));
      committed := 0;
      Sweep();
      assert loader.State() == now;
      SweptTotals(l, pending);
      Started(o, ledger.State(), pending, now);
      ProgressStarts(o);
    }

    lemma ProgressStarts(o: Origin)
      requires Wrote(o.start, [], loader.State()) && dlq == o.parked && Rejects([]) == []
      requires Recorded(ledger.State(), []) && Small(pending) && Waits(o.rows, [], ledger.State())
      requires Conserves(o.start, o.totals, [], [], Totals(ledger.State(), pending))
      ensures Progress(o, [], [])
    {
      hide Conserves, LoadAll, Sound, Waits;
    }

    method Consume(events: seq<Delivery>, weather: nat -> Fate, ghost o: Origin)
      returns (failed: bool, ghost end: Ending)
      requires 0 < loader.batchSize && 0 < batchSize && Progress(o, [], []) && committed == 0
      modifies this`dlq, this`pending, this`committed, ledger, loader, loader.shelf
      ensures committed <= |events| && end.died <= end.reached <= |events|
      ensures Loads(events[..committed]) <= end.written
      ensures end.written <= Loads(events)
      ensures failed ==> Stopped(o, events[..end.reached], end.counted, end.written)
      ensures failed ==> Ahead(Loads(events[..end.died]), end.counted, batchSize)
      ensures failed && Calm(weather(end.died)) ==> Refused(o.start, Loads(events))
      ensures !failed ==> Ended(o, events, end.written)
      ensures !failed ==> end == Ending(Loads(events), Loads(events), |events|, |events|)
      ensures !failed ==> committed == |events| && pending == map[]
      ensures !failed ==> forall i :: 0 <= i < |events| ==> weather(i).killed != Some(AtDelivery)
    {
      hide *;
      ghost var written, counted: seq<Tagged> := [], [];
      assert events[..0] == [] && [] + Tag([], 0) == [];
      LoadsOfNothing();
      ProgressParts(o, [], []);
      var batch: seq<Record>, run: Run := [], 0;
      var i := 0;
      while i < |events|
        invariant i <= |events| && committed <= i
        invariant Progress(o, events[..i], written)
        invariant Loads(events[..i]) == written + Tag(batch, run)
        invariant |batch| < batchSize
        invariant Loads(events[..committed]) <= written
        invariant batch == [] ==> committed == i
        invariant forall j :: 0 <= j < i ==> weather(j).killed != Some(AtDelivery)
        decreases |events| - i
      {
        if weather(i).killed == Some(AtDelivery) {
          ProgressStops(o, events[..i], written);
          NotCalm(weather(i));
          AheadOf(written, batch, run, written, batchSize);
          LoadsOfPrefix(events, i);
          return true, Ending(written, written, i, i);
        }
        assert events[..i + 1] == events[..i] + [events[i]];
        LoadsGrow(events, committed, i);
        ghost var done, held, tag := written, batch, run;
        failed, batch, written, counted := TakeOne(events[i], batch, run, weather(i), i + 1, o, events[..i], written);
        run := if events[i].BookEvent? then events[i].run else run;
        if failed {
          AheadOf(done, held, tag, counted, batchSize);
          LoadsOfPrefix(events, i + 1);
          if Calm(weather(i)) {
            RefusedPrefix(o.start, events, i + 1);
          }
          return true, Ending(written, counted, i + 1, i);
        }
        i := i + 1;
      }
      assert events[..|events|] == events;
      ghost var done, held, tag := written, batch, run;
      failed, written, counted := Finish(batch, run, weather(i), |events|, o, events, written);
      end := Ending(written, counted, |events|, |events|);
      if failed {
        AheadOf(done, held, tag, counted, batchSize);
      }
    }

    method TakeOne(e: Delivery, batch: seq<Record>, run: Run, fate: Fate, n: nat,
                   ghost o: Origin, ghost seen: seq<Delivery>, ghost done: seq<Tagged>)
      returns (failed: bool, batch': seq<Record>, ghost written: seq<Tagged>, ghost counted: seq<Tagged>)
      requires 0 < loader.batchSize && Progress(o, seen, done) && Loads(seen) == done + Tag(batch, run)
      requires n == |seen| + 1 && |batch| < batchSize
      modifies this`dlq, this`pending, this`committed, ledger, loader, loader.shelf
      ensures !failed ==> Progress(o, seen + [e], written)
      ensures !failed ==> Loads(seen + [e]) == written + Tag(batch', if e.BookEvent? then e.run else run)
      ensures !failed ==> |batch'| < batchSize && (batch' == [] ==> committed == n)
      ensures committed == old(committed) || (!failed && committed == n && batch' == [])
      ensures failed ==> Stopped(o, seen + [e], counted, written)
      ensures failed && Calm(fate) ==> Refused(o.start, Loads(seen + [e]))
      ensures written <= Loads(seen + [e])
      ensures done <= counted && done <= written && Wrote(o.start, written, loader.State())
    {
      hide Progress, Loads, Wrote, Stopped, Refused, Calm;
      if e.PartitionMarker? {
        failed, written, counted := TakeMarker(e, batch, run, fate, n, o, seen, done);
        batch' := [];
        assert written + Tag([], run) == written;
      } else if e.record.None? {
        failed, written, counted := TakeUnusable(e, batch, run, fate, n, o, seen, done);
        batch' := [];
        assert written + Tag([], e.run) == written;
      } else {
        failed, batch', written, counted := TakeRecord(e, batch, run, fate, n, o, seen, done);
      }
    }

    method Finish(batch: seq<Record>, run: Run, fate: Fate, n: nat,
                  ghost o: Origin, ghost seen: seq<Delivery>, ghost done: seq<Tagged>)
      returns (failed: bool, ghost written: seq<Tagged>, ghost counted: seq<Tagged>)
      requires 0 < loader.batchSize && Progress(o, seen, done) && Loads(seen) == done + Tag(batch, run) && n == |seen|
      requires |batch| <= batchSize
      requires batch == [] ==> committed == n
      modifies this`pending, this`committed, ledger, loader, loader.shelf
      ensures !failed ==> written == counted == Loads(seen) && pending == map[] && committed == n && Ended(o, seen, written)
      ensures committed == old(committed) || (committed == n && written == Loads(seen))
      ensures failed ==> Stopped(o, seen, counted, written)
      ensures failed && Calm(fate) ==> Refused(o.start, Loads(seen))
      ensures written <= Loads(seen)
      ensures done <= counted && done <= written && Wrote(o.start, written, loader.State())
    {
      hide Progress, Loads, Wrote, Stopped, Refused, Calm;
      failed, written, counted := FlushBatch(batch, run, fate, o, seen, done);
      if failed {
        return;
      }
      ProgressParts(o, seen, written);
      if batch != [] {
        Commit(seen, n, o.start, o.parked);
        assert Progress(o, seen, written);
      }
      if fate.killed == Some(AfterCommit) {
        NotCalm(fate);
        ProgressStops(o, seen, written);
        return true, written, counted;
      }
      WriteLast(o, seen, written);
    }

    method WriteLast(ghost o: Origin, ghost seen: seq<Delivery>, ghost done: seq<Tagged>)
      requires Progress(o, seen, done)
      modifies this`pending, ledger
      ensures Ended(o, seen, done) && pending == map[]
    {
      hide Wrote, Conserves, Rejects, Totals, Lags, Rows, Small, Waits;
      ghost var now, l := loader.State(), ledger.State();
      WriteEveryTally();
      assert loader.State() == now;
      RecordedAlike(l, ledger.State(), seen);
    }

    /** Everything is written, parked and recorded, and counted in the rows or in memory. */
    ghost predicate Ended(o: Origin, seen: seq<Delivery>, done: seq<Tagged>)
      reads this`dlq, this`pending, loader, loader.shelf, ledger
    {
      && Wrote(o.start, done, loader.State())
      && dlq == o.parked + Rejects(seen)
      && Recorded(ledger.State(), seen)
      && Conserves(o.start, o.totals, done, seen, Totals(ledger.State(), pending))
    }

    lemma EndedParts(o: Origin, seen: seq<Delivery>, done: seq<Tagged>)
      requires Ended(o, seen, done)
      ensures Wrote(o.start, done, loader.State()) && dlq == o.parked + Rejects(seen) && Recorded(ledger.State(), seen)
      ensures Conserves(o.start, o.totals, done, seen, Totals(ledger.State(), pending))
      ensures Apart(done, done, batchSize)
    {
      hide Wrote, Conserves;
    }
  }

  lemma LoadsOfNothing()
    ensures Loads([]) == []
  {
  }

  // ----- rows that lag

  lemma NothingAdded(l: Ledger, run: Run)
    ensures RecordLoaded(l, run, 0, 0) == l
  {
    assert run in l.runs ==> l.runs[run := l.runs[run]] == l.runs;
  }

  lemma LagsNot(l: Ledger)
    ensures Lags(Rows(l), Rows(l))
  {
  }

  lemma AddedLags(l: Ledger, run: Run, loaded: nat, rejected: nat)
    requires loaded + rejected >= ACCOUNTING_FLUSH
    ensures Lags(Rows(l), Rows(RecordLoaded(l, run, loaded, rejected)))
  {
  }

  lemma WaitsOn(rows: map<Run, Tally>, seen: seq<Delivery>, l: Ledger, m: Ledger)
    requires Waits(rows, seen, l) && Lags(Rows(l), Rows(m))
    ensures Waits(rows, seen, m)
  {
    hide Rows;
  }

  lemma WaitsLonger(rows: map<Run, Tally>, seen: seq<Delivery>, e: Delivery, l: Ledger)
    requires Waits(rows, seen, l)
    ensures Waits(rows, seen + [e], l)
  {
    hide Rows, Lags;
    assert forall d :: d in seen ==> d in seen + [e];
  }

  lemma BoundaryWaits(rows: map<Run, Tally>, seen: seq<Delivery>, e: Delivery, l: Ledger)
    requires e.PartitionMarker?
    ensures Waits(rows, seen + [e], l)
  {
    assert e in seen + [e];
  }

  lemma NothingPending()
    ensures Small(map[])
  {
  }

  lemma NotCalm(fate: Fate)
    requires fate.killed.Some?
    ensures !Calm(fate)
  {
  }

  lemma MarkerLoads(seen: seq<Delivery>, e: Delivery)
    requires e.PartitionMarker?
    ensures Loads(seen + [e]) == Loads(seen)
  {
    LoadsStep(seen, e);
  }

  // ----- loads that are refused

  lemma RefusedBatch(start: Tables, done: seq<Tagged>, now: Tables, batch: seq<Record>, run: Run)
    requires Wrote(start, done, now) && Sound(now) && LoadAll(now, batch).Err?
    ensures Refused(start, done + Tag(batch, run))
  {
    hide LoadAll, Sound;
    LoadAllInParts(start, RecordsOf(done), batch);
    assert RecordsOf(done + Tag(batch, run)) == RecordsOf(done) + batch;
  }

  lemma RefusedMore(start: Tables, loads: seq<Tagged>, more: seq<Tagged>)
    requires Refused(start, loads) && loads <= more
    ensures Refused(start, more)
  {
    hide LoadAll, Sound;
    assert RecordsOf(more)[..|loads|] == RecordsOf(loads);
    ErrorSpreads(start, RecordsOf(more), |loads|);
  }

  lemma RefusedLonger(start: Tables, seen: seq<Delivery>, e: Delivery)
    requires Refused(start, Loads(seen))
    ensures Refused(start, Loads(seen + [e]))
  {
    hide Refused;
    LoadsStep(seen, e);
    RefusedMore(start, Loads(seen), Loads(seen + [e]));
  }

  lemma RefusedPrefix(start: Tables, events: seq<Delivery>, i: nat)
    requires i <= |events| && Refused(start, Loads(events[..i]))
    ensures Refused(start, Loads(events))
  {
    hide Refused;
    LoadsGrow(events, i, |events|);
    assert events[..|events|] == events;
    RefusedMore(start, Loads(events[..i]), Loads(events));
  }

  // ----- how a process ends

  /** What was written and what of it was counted, how many deliveries were begun, and at which it died. */
  datatype Ending = Ending(written: seq<Tagged>, counted: seq<Tagged>, reached: nat, died: nat)

  /** All of these were counted but those in hand, which are fewer than a batch. */
  ghost predicate Ahead(loads: seq<Tagged>, counted: seq<Tagged>, size: nat) {
    exists m: nat :: m <= |loads| < m + size && loads[..m] <= counted
  }

  lemma AheadOf(done: seq<Tagged>, batch: seq<Record>, run: Run, counted: seq<Tagged>, size: nat)
    requires done <= counted && |batch| < size
    ensures Ahead(done + Tag(batch, run), counted, size)
  {
    var loads, m := done + Tag(batch, run), |done|;
    assert loads[..m] == done;
    assert m <= |loads| < m + size && loads[..m] <= counted;
  }

  /** How far a run's row falls short when a process dies: what waits in memory, and what the batch in hand changed. */
  ghost function Short(start: Tables, pending: Pending, counted: seq<Tagged>, written: seq<Tagged>, run: Run): int
    requires Sound(start)
  {
    Entry(pending, run).loaded + ChangedBy(start, written, run) - ChangedBy(start, counted, run)
  }

  /**
   * A dead process leaves a run's row short by exactly what it had not yet added and what the
   * batch in hand had changed. So the row is exact if and only if there was neither; and it is
   * never more than 24 and a batch short, nor ever claims too much.
   */
  lemma RowIsExactExactlyWhen(start: Tables, before: map<Run, Tally>, seen: seq<Delivery>, end: Ending, l: Ledger,
                              pending: Pending, size: nat, run: Run)
    requires Sound(start) && Conserves(start, before, end.counted, seen, Totals(l, pending)) && Small(pending)
    requires Apart(end.counted, end.written, size) && run in l.runs
    ensures run in before
    ensures l.runs[run].loaded + Short(start, pending, end.counted, end.written, run) ==
      before[run].loaded + ChangedBy(start, end.written, run)
    ensures 0 <= Short(start, pending, end.counted, end.written, run) <= 24 + size
    ensures l.runs[run].loaded == before[run].loaded + ChangedBy(start, end.written, run) <==>
      && Entry(pending, run).loaded == 0
      && ChangedBy(start, end.written, run) == ChangedBy(start, end.counted, run)
    ensures l.runs[run].rejected + Entry(pending, run).rejected == before[run].rejected + RejectsOf(seen, run)
  {
    hide Sound, ChangedBy, RejectsOf;
    ChangedApart(start, end.counted, end.written, size, run);
    assert run in Totals(l, pending);
    assert Entry(pending, run).loaded + Entry(pending, run).rejected < ACCOUNTING_FLUSH;
  }

  lemma {:induction false} ChangedApart(t: Tables, counted: seq<Tagged>, written: seq<Tagged>, size: nat, run: Run)
    requires Sound(t) && Apart(counted, written, size)
    ensures ChangedBy(t, counted, run) <= ChangedBy(t, written, run) <= ChangedBy(t, counted, run) + size
    decreases |written|
  {
    hide Sound, Changes;
    if |counted| < |written| {
      var init, last := written[..|written|-1], written[|written|-1];
      ChangedApart(t, counted, init, |init| - |counted|, run);
      ChangesAtMostOne(t, RecordsOf(init), last.record);
    } else {
      assert counted == written;
    }
  }

  lemma {:induction false} LoadsGrow(events: seq<Delivery>, i: nat, j: nat)
    requires i <= j <= |events|
    ensures Loads(events[..i]) <= Loads(events[..j])
    decreases j - i
  {
    if i < j {
      LoadsGrow(events, i, j - 1);
      assert events[..j] == events[..j - 1] + [events[j - 1]];
      LoadsStep(events[..j - 1], events[j - 1]);
    }
  }

  lemma LoadsOfPrefix(events: seq<Delivery>, i: nat)
    requires i <= |events|
    ensures Loads(events[..i]) <= Loads(events)
  {
    LoadsGrow(events, i, |events|);
    assert events[..|events|] == events;
  }

  /** Every run that was waiting with all its boundaries in is closed; nothing else changes. */
  lemma AwaitedAre(l: Ledger)
    ensures forall run :: run in Awaiting(l, CleanBooks) <==>
      run in l.runs && l.runs[run].status == Processing && TopicKey(run, CleanBooks) in l.expected
  {
    assert forall k: TopicKey :: k == TopicKey(k.run, k.topic);
  }

  function Swept(l: Ledger): Ledger {
    l.(runs := map run | run in l.runs ::
         if run in Awaiting(l, CleanBooks) && Complete(l, l.markers, run, CleanBooks) then
           l.runs[run].(status := Success, closed := l.runs[run].closed + 1)
         else l.runs[run])
  }

  lemma SweptTotals(l: Ledger, pending: Pending)
    ensures Totals(Swept(l), pending) == Totals(l, pending) && Rows(Swept(l)) == Rows(l)
  {
    hide Complete;
  }

  lemma Started(o: Origin, l: Ledger, pending: Pending, now: Tables)
    requires Sound(now) && o.start == now && Totals(l, pending) == o.totals && Rows(l) == o.rows
    ensures Wrote(o.start, [], now) && Conserves(o.start, o.totals, [], [], Totals(l, pending))
    ensures Loads([]) == [] && Rejects([]) == [] && Recorded(l, []) && Waits(o.rows, [], l)
  {
    NothingLoaded(now);
    assert RecordsOf([]) == [];
  }

  lemma TotalsStay(before: Ledger, after: Ledger, row: MarkerRow)
    requires var l := RecordMarker(before, row); after == Finalise(l, l.markers, row.run, row.topic)
    ensures Totals(after, map[]) == Totals(before, map[])
  {
    hide Complete;
  }

  lemma MarkerTaken(o: Origin, seen: seq<Delivery>, done: seq<Tagged>, e: Delivery, before: Ledger, after: Ledger)
    requires e.PartitionMarker? && Sound(o.start)
    requires Recorded(before, seen) && Conserves(o.start, o.totals, done, seen, Totals(before, map[]))
    requires var l := RecordMarker(before, e.row); after == Finalise(l, l.markers, e.row.run, e.row.topic)
    ensures Recorded(after, seen + [e]) && Conserves(o.start, o.totals, done, seen + [e], Totals(after, map[]))
    ensures Rejects(seen + [e]) == Rejects(seen) && Loads(seen + [e]) == Loads(seen)
  {
    LoadsStep(seen, e);
    TotalsStay(before, after, e.row);
    hide Conserves, Sound, Totals, Observed;
    ConservesParked(o.start, o.totals, done, seen, e, Totals(before, map[]));
  }

  lemma UnusableTaken(o: Origin, seen: seq<Delivery>, done: seq<Tagged>, e: Delivery, before: Ledger, after: Ledger,
                      totals: map<Run, Tally>, now: Tables)
    requires Unusable(e) && Wrote(o.start, done, now)
    requires Recorded(before, seen) && SameBoundaries(after, before)
    requires Conserves(o.start, o.totals, done, seen, totals)
    ensures Recorded(after, seen + [e])
    ensures Conserves(o.start, o.totals, done, seen + [e], Raised(totals, e.run, 0, 1))
    ensures Rejects(seen + [e]) == Rejects(seen) + [e] && Loads(seen + [e]) == Loads(seen)
  {
    LoadsStep(seen, e);
    ConservesParked(o.start, o.totals, done, seen, e, totals);
  }

  lemma RecordTaken(o: Origin, seen: seq<Delivery>, done: seq<Tagged>, e: Delivery, batch: seq<Record>, run: Run,
                    l: Ledger, totals: map<Run, Tally>)
    requires e.BookEvent? && e.record.Some? && Sound(o.start) && (batch != [] ==> e.run == run)
    requires Loads(seen) == done + Tag(batch, run)
    requires Recorded(l, seen) && Conserves(o.start, o.totals, done, seen, totals)
    ensures Recorded(l, seen + [e]) && Conserves(o.start, o.totals, done, seen + [e], totals)
    ensures Rejects(seen + [e]) == Rejects(seen)
    ensures Loads(seen + [e]) == done + Tag(batch + [e.record.value], e.run)
  {
    LoadsStep(seen, e);
    ConservesParked(o.start, o.totals, done, seen, e, totals);
    assert Tag(batch + [e.record.value], e.run) == Tag(batch, run) + [Tagged(e.run, e.record.value)];
  }

  /** Where a consumer started from. */
  datatype Origin = Origin(start: Tables, parked: seq<Delivery>, totals: map<Run, Tally>, rows: map<Run, Tally>)

  lemma WroteIsSound(start: Tables, done: seq<Tagged>, now: Tables)
    requires Wrote(start, done, now)
    ensures Sound(start) && Sound(now)
  {
  }

  lemma RecordedAlike(a: Ledger, b: Ledger, seen: seq<Delivery>)
    requires SameBoundaries(a, b)
    ensures Recorded(a, seen) <==> Recorded(b, seen)
  {
  }

  lemma WroteMore(start: Tables, done: seq<Tagged>, now: Tables, batch: seq<Record>, run: Run)
    requires Wrote(start, done, now) && Sound(now) && LoadAll(now, batch).Ok?
    ensures Wrote(start, done + Tag(batch, run), LoadAll(now, batch).value.tables)
  {
    hide LoadAll, Sound;
    LoadAllInParts(start, RecordsOf(done), batch);
    assert RecordsOf(done + Tag(batch, run)) == RecordsOf(done) + batch;
  }

  /** Counting a batch by what it changed counts its records one at a time. */
  lemma ConservesWritten(start: Tables, before: map<Run, Tally>, done: seq<Tagged>, now: Tables, batch: seq<Record>,
                         run: Run, seen: seq<Delivery>, totals: map<Run, Tally>)
    requires Wrote(start, done, now) && Sound(now) && LoadAll(now, batch).Ok?
    requires Conserves(start, before, done, seen, totals)
    ensures Conserves(start, before, done + Tag(batch, run), seen,
                      Raised(totals, run, LoadAll(now, batch).value.counts.Changed(), 0))
  {
    hide LoadAll, Sound, ChangedBy, RejectsOf;
    LoadAllInParts(start, RecordsOf(done), batch);
    forall r ensures ChangedBy(start, done + Tag(batch, run), r) ==
      ChangedBy(start, done, r) + if r == run then LoadAll(now, batch).value.counts.Changed() else 0
    {
      BatchChanges(start, done, batch, run, r);
    }
  }

  lemma ConservesParked(start: Tables, before: map<Run, Tally>, done: seq<Tagged>, seen: seq<Delivery>, e: Delivery,
                        totals: map<Run, Tally>)
    requires Sound(start) && Conserves(start, before, done, seen, totals)
    ensures Unusable(e) ==> Conserves(start, before, done, seen + [e], Raised(totals, e.run, 0, 1))
    ensures !Unusable(e) ==> Conserves(start, before, done, seen + [e], totals)
  {
    hide ChangedBy, RejectsOf, Sound;
    LoadsStep(seen, e);
  }

  lemma BoundariesAlike(l: Ledger)
    ensures SameBoundaries(l, l)
  {
  }

  function Bumped(pending: Pending, run: Run, loaded: nat, rejected: nat): Pending {
    var entry := Entry(pending, run);
    pending[run := Tally(entry.loaded + loaded, entry.rejected + rejected)]
  }

  lemma BumpedTotals(l: Ledger, pending: Pending, run: Run, loaded: nat, rejected: nat)
    ensures Totals(l, Bumped(pending, run, loaded, rejected)) == Raised(Totals(l, pending), run, loaded, rejected)
  {
  }

  // ----- one process after another

  /** One process: the catalogue it found, how it ended, and what was waiting in its memory. */
  datatype Life = Life(start: Tables, end: Ending, pending: Pending)

  /** What the processes changed for a run, and what of it its row never heard of. */
  ghost function Wrought(lives: seq<Life>, run: Run): nat
    requires Lived(lives)
  {
    if lives == [] then 0 else
      var last := lives[|lives|-1];
      Wrought(lives[..|lives|-1], run) + ChangedBy(last.start, last.end.written, run)
  }

  ghost function Lost(lives: seq<Life>, run: Run): int
    requires Lived(lives)
  {
    if lives == [] then 0 else
      var last := lives[|lives|-1];
      Lost(lives[..|lives|-1], run) + Short(last.start, last.pending, last.end.counted, last.end.written, run)
  }

  ghost predicate Lived(lives: seq<Life>) {
    forall i :: 0 <= i < |lives| ==> Sound(lives[i].start)
  }

  /** Each process found what the one before it left, wrote no more than a batch it had not counted, and kept little waiting. */
  ghost predicate Chained(first: Tables, lives: seq<Life>, last: Tables, size: nat)
    requires Lived(lives)
  {
    if lives == [] then first == last else
      var l := lives[|lives|-1];
      && Chained(first, lives[..|lives|-1], l.start, size)
      && Wrote(l.start, l.end.written, last)
      && Apart(l.end.counted, l.end.written, size) && Small(l.pending)
  }

  lemma {:induction false} LostAtMost(first: Tables, lives: seq<Life>, last: Tables, size: nat, run: Run)
    requires Lived(lives) && Chained(first, lives, last, size)
    ensures 0 <= Lost(lives, run) <= |lives| * (24 + size)
  {
    if lives != [] {
      var init, l := lives[..|lives|-1], lives[|lives|-1];
      hide Short, Wrote, Apart, Small;
      LostAtMost(first, init, l.start, size, run);
      LostOnce(l, size, run);
      OneMoreLife(|init|, 24 + size);
    }
  }

  lemma LostOnce(l: Life, size: nat, run: Run)
    requires Sound(l.start) && Apart(l.end.counted, l.end.written, size) && Small(l.pending)
    ensures 0 <= Short(l.start, l.pending, l.end.counted, l.end.written, run) <= 24 + size
  {
    hide Sound, ChangedBy;
    ChangedApart(l.start, l.end.counted, l.end.written, size, run);
    assert Entry(l.pending, run).loaded + Entry(l.pending, run).rejected < ACCOUNTING_FLUSH;
  }

  lemma OneMoreLife(n: nat, each: nat)
    ensures (n + 1) * each == n * each + each
  {
  }

  /** A run's row, whatever lives were lived: with what was lost it is exactly what was changed. */
  ghost predicate Accounts(before: map<Run, RunRow>, now: map<Run, RunRow>, lives: seq<Life>)
    requires Lived(lives)
  {
    && now.Keys == before.Keys
    && forall run :: run in now ==> now[run].loaded + Lost(lives, run) == before[run].loaded + Wrought(lives, run)
  }

  lemma AccountsStep(before: map<Run, RunRow>, mid: Ledger, now: Ledger, lives: seq<Life>, last: Life, seen: seq<Delivery>,
                     size: nat)
    requires Lived(lives) && Accounts(before, mid.runs, lives) && Sound(last.start)
    requires Conserves(last.start, Totals(mid, map[]), last.end.counted, seen, Totals(now, last.pending))
    requires Apart(last.end.counted, last.end.written, size) && Small(last.pending)
    ensures Lived(lives + [last]) && Accounts(before, now.runs, lives + [last])
  {
    hide Sound, ChangedBy, RejectsOf, Short, Small;
    assert (lives + [last])[..|lives|] == lives;
    assert now.runs.Keys == Totals(now, last.pending).Keys == Totals(mid, map[]).Keys == mid.runs.Keys;
    forall run | run in now.runs
      ensures now.runs[run].loaded + Lost(lives + [last], run) == before[run].loaded + Wrought(lives + [last], run)
    {
      RowIsExactExactlyWhen(last.start, Totals(mid, map[]), seen, last.end, now, last.pending, size, run);
      assert Totals(mid, map[])[run].loaded == mid.runs[run].loaded;
    }
  }

  /**
   * Serve with one process after another, each killed or not wherever it may be. What a run's
   * row says falls short of what was changed for it by exactly what each process lost, and each
   * loses at most 24 and a batch.
   */
  method Serve(loader: CatalogueLoader, ledger: RunTables, size: nat, lives: seq<(seq<Delivery>, nat -> Fate)>)
    returns (ghost log: seq<Life>)
    requires Sound(loader.State()) && 0 < loader.batchSize && 0 < size
    modifies loader, loader.shelf, ledger
    ensures |log| == |lives| && Lived(log) && Sound(loader.State())
    ensures Chained(old(loader.State()), log, loader.State(), size)
    ensures Accounts(old(ledger.runs), ledger.runs, log)
    ensures forall run :: 0 <= Lost(log, run) <= |log| * (24 + size)
  {
    log := [];
    NothingLived(loader.State(), ledger.runs, size);
    ghost var first, before := loader.State(), ledger.runs;
    for i := 0 to |lives|
      invariant |log| == i && Lived(log) && Sound(loader.State())
      invariant Chained(first, log, loader.State(), size)
      invariant Accounts(before, ledger.runs, log)
    {
      ghost var life := LiveOnce(loader, ledger, size, lives[i].0, lives[i].1, first, before, log);
      log := log + [life];
    }
    forall run ensures 0 <= Lost(log, run) <= |log| * (24 + size) {
      LostAtMost(first, log, loader.State(), size, run);
    }
  }

  lemma NothingLived(t: Tables, runs: map<Run, RunRow>, size: nat)
    ensures Lived([]) && Chained(t, [], t, size) && Accounts(runs, runs, [])
  {
  }

  method LiveOnce(loader: CatalogueLoader, ledger: RunTables, size: nat, events: seq<Delivery>, weather: nat -> Fate,
                  ghost first: Tables, ghost before: map<Run, RunRow>, ghost log: seq<Life>)
    returns (ghost life: Life)
    requires Sound(loader.State()) && 0 < loader.batchSize && 0 < size && Lived(log)
    requires Chained(first, log, loader.State(), size) && Accounts(before, ledger.runs, log)
    modifies loader, loader.shelf, ledger
    ensures Sound(loader.State()) && Lived(log + [life])
    ensures Chained(first, log + [life], loader.State(), size) && Accounts(before, ledger.runs, log + [life])
  {
    hide *;
    ghost var start, mid := loader.State(), ledger.State();
    NothingPending();
    RunsOf(ledger);
    var consumer := new LoadConsumer(loader, ledger, size);
    var failed; ghost var end;
    failed, end := consumer.Run(events, weather);
    life := Life(start, end, consumer.pending);
    RunsOf(ledger);
    WroteIsSound(start, end.written, loader.State());
    AccountsStep(before, mid, ledger.State(), log, life, events[..end.reached], size);
    ChainedStep(first, log, life, loader.State(), size);
  }

  lemma RunsOf(ledger: RunTables)
    ensures ledger.State().runs == ledger.runs
  {
  }

  lemma ChainedStep(first: Tables, lives: seq<Life>, life: Life, now: Tables, size: nat)
    requires Lived(lives) && Chained(first, lives, life.start, size) && Wrote(life.start, life.end.written, now)
    requires Apart(life.end.counted, life.end.written, size) && Small(life.pending)
    ensures Lived(lives + [life]) && Chained(first, lives + [life], now, size)
  {
    WroteIsSound(life.start, life.end.written, now);
    hide Wrote, Sound, Small;
    assert (lives + [life])[..|lives|] == lives;
  }

  // ----- a row that falls short

  /** A first delivery dealt with, and a kill before the second. */
  function KilledBetween(i: nat): Fate {
    Fate([], if i == 1 then Some(AtDelivery) else None)
  }

  lemma FirstIsInserted(p: Record)
    requires Mapped(p)
    ensures Sound(EMPTY_TABLES) && ChangedBy(EMPTY_TABLES, [Tagged(0, p)], 0) == 1
  {
    EmptyIsInv();
    SoundParts(EMPTY_TABLES);
    NothingLoaded(EMPTY_TABLES);
    LoadOneKeepsEverything(EMPTY_TABLES, p);
    CountedOnce(EMPTY_TABLES, p);
    hide LoadOne, LoadAll, Sound, Inv, Mapped;
    assert FindHome(EMPTY_TABLES, p).inserted == 1;
    var one := [Tagged(0, p)];
    assert one[..0] == [] && RecordsOf([]) == [];
    assert ChangedBy(EMPTY_TABLES, [], 0) == 0;
    assert Changes(EMPTY_TABLES, [], p) == 1;
  }

  function Two(p: Record, q: Record): seq<Delivery> {
    [BookEvent(0, Some(p)), BookEvent(0, Some(q))]
  }

  lemma LoadsOfTwo(p: Record, q: Record)
    ensures var events := Two(p, q);
      && Loads(events[..0]) == [] && Loads(events[..1]) == [Tagged(0, p)]
      && Loads(events[..2]) == Loads(events) == [Tagged(0, p), Tagged(0, q)]
  {
    hide Loads;
    var a, b := BookEvent(0, Some(p)), BookEvent(0, Some(q));
    TwoSlices(a, b);
    LoadsOfNothing();
    LoadsStep([], a);
    LoadsStep([a], b);
  }

  lemma TwoSlices(a: Delivery, b: Delivery)
    ensures [a, b][..0] == [] && [a, b][..1] == [] + [a] == [a] && [a, b][..2] == [a, b] == [a] + [b]
  {
  }

  lemma RecordsOfTwo(p: Record, q: Record)
    ensures RecordsOf([Tagged(0, p), Tagged(0, q)]) == [p, q]
  {
  }

  lemma NoneRejected(seen: seq<Delivery>, run: Run)
    requires forall e :: e in seen ==> e.BookEvent? && e.record.Some?
    ensures RejectsOf(seen, run) == 0
  {
    if seen != [] {
      assert seen[|seen|-1] in seen;
      NoneRejected(seen[..|seen|-1], run);
    }
  }

  /** It cannot have died at the first delivery, so the first is counted. */
  lemma FirstIsCounted(p: Record, q: Record, died: nat, counted: seq<Tagged>)
    requires Mapped(p) && Mapped(q) && died <= 2 && Ahead(Loads(Two(p, q)[..died]), counted, 1)
    requires Calm(KilledBetween(died)) ==> Refused(EMPTY_TABLES, Loads(Two(p, q)))
    ensures [Tagged(0, p)] <= counted
  {
    LoadsOfTwo(p, q);
    if died == 0 {
      EmptyIsInv();
      hide Inv, Sound, LoadAll, Mapped;
      PairMapped(p, q);
      RecordsOfTwo(p, q);
      LoadAllKeepsEverything(EMPTY_TABLES, [p, q]);
    } else {
      var m: nat :| m <= |Loads(Two(p, q)[..died])| < m + 1 && Loads(Two(p, q)[..died])[..m] <= counted;
    }
  }

  lemma OneChanged(p: Record, counted: seq<Tagged>, written: seq<Tagged>)
    requires Mapped(p) && [Tagged(0, p)] <= counted && |written| <= 2 && Apart(counted, written, 1)
    ensures Sound(EMPTY_TABLES) && 1 <= ChangedBy(EMPTY_TABLES, counted, 0) <= 2
    ensures ChangedBy(EMPTY_TABLES, written, 0) >= 1
  {
    hide *;
    FirstIsInserted(p);
    NothingChanged(0);
    AllApart(p, counted, written);
    ChangedApart(EMPTY_TABLES, [Tagged(0, p)], counted, |counted|, 0);
    ChangedApart(EMPTY_TABLES, counted, written, 1, 0);
    ChangedApart(EMPTY_TABLES, [], counted, 2, 0);
  }

  lemma AllApart(p: Record, counted: seq<Tagged>, written: seq<Tagged>)
    requires [Tagged(0, p)] <= counted && |written| <= 2 && Apart(counted, written, 1)
    ensures Apart([Tagged(0, p)], counted, |counted|) && Apart([], counted, 2)
  {
  }

  /** A total of one or two is too little for the row to have moved. */
  lemma RowHasNotMoved(p: Record, q: Record, n: nat, counted: seq<Tagged>, l: Ledger, pending: Pending)
    requires n <= 2 && l.runs.Keys == {0} && Waits(map[0 := Tally(0, 0)], Two(p, q)[..n], l)
    requires Sound(EMPTY_TABLES) && ChangedBy(EMPTY_TABLES, counted, 0) <= 2
    requires Conserves(EMPTY_TABLES, map[0 := Tally(0, 0)], counted, Two(p, q)[..n], Totals(l, pending))
    ensures l.runs[0].loaded == 0
  {
    hide Sound, ChangedBy, RejectsOf;
    NoneRejected(Two(p, q)[..n], 0);
    assert 0 in Totals(l, pending) && 0 in map[0 := Tally(0, 0)];
    assert Rows(l)[0] == Tally(l.runs[0].loaded, l.runs[0].rejected);
    assert NoMarker(Two(p, q)[..n]);
  }

  lemma NothingChanged(run: Run)
    requires Sound(EMPTY_TABLES)
    ensures ChangedBy(EMPTY_TABLES, [], run) == 0
  {
  }

  /**
   * Two new records, a batch of one, and a kill between the two deliveries: the first is in the
   * catalogue and its offset committed, and the run's row says nothing was loaded.
   */
  method ARowFallsShort(p: Record, q: Record) returns (ledger: RunTables, failed: bool, ghost end: Ending)
    requires Mapped(p) && Mapped(q)
    ensures failed && 0 in ledger.runs && ledger.runs[0].loaded == 0
    ensures Sound(EMPTY_TABLES) && ChangedBy(EMPTY_TABLES, end.written, 0) >= 1
  {
    var loader := new CatalogueLoader(1);
    ledger := new RunTables(map[0 := RunRow(Processing, None, 0, 0, 0)]);
    var consumer := new LoadConsumer(loader, ledger, 1);
    var events := Two(p, q);
    FreshLedger(ledger.State());
    NothingPending();
    assert |events| == 2;
    hide *;
    failed, end := consumer.Run(events, KilledBetween);
    KilledAtTheSecond();
    WroteIsSound(EMPTY_TABLES, end.written, loader.State());
    ConservedKeys(EMPTY_TABLES, end.counted, events[..end.reached], ledger.State(), consumer.pending);
    RunsOf(ledger);
    FirstIsCounted(p, q, end.died, end.counted);
    WrittenIsTwo(p, q, end.written);
    OneChanged(p, end.counted, end.written);
    RowHasNotMoved(p, q, end.reached, end.counted, ledger.State(), consumer.pending);
  }

  lemma WrittenIsTwo(p: Record, q: Record, written: seq<Tagged>)
    requires written <= Loads(Two(p, q))
    ensures |written| <= 2
  {
    LoadsOfTwo(p, q);
  }

  lemma FreshLedger(l: Ledger)
    requires l == Ledger(map[0 := RunRow(Processing, None, 0, 0, 0)], map[], {})
    ensures Totals(l, map[]) == map[0 := Tally(0, 0)] && Rows(l) == map[0 := Tally(0, 0)]
  {
  }

  lemma KilledAtTheSecond()
    ensures KilledBetween(1).killed == Some(AtDelivery)
  {
  }

  lemma ConservedKeys(start: Tables, counted: seq<Tagged>, seen: seq<Delivery>, l: Ledger, pending: Pending)
    requires Sound(start) && Conserves(start, map[0 := Tally(0, 0)], counted, seen, Totals(l, pending))
    ensures l.runs.Keys == {0}
  {
    hide Sound;
    assert Totals(l, pending).Keys == l.runs.Keys;
  }
}
