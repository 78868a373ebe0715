// A run from its raw events to its closing, over partitioned logs, any number of consumers,
// crashes and redelivery.

module RunProtocol {
  import opened Ordering
  import opened Ledgers

  /** Events on a topic: one source's record in a run, or the run's boundary on a partition. */
  datatype Event = Book(run: Run, id: nat) | Marker(run: Run)

  type Log = seq<Event>

  type ConsumerId = nat

  /** Offsets read so far on each partition assigned, and the clean markers still to be emitted. */
  datatype Transformer = Transformer(at: map<Partition, nat>, owed: set<MarkerRow>)

  /** Offsets read so far on each partition assigned, and the records read but not yet written. */
  datatype Loader = Loader(at: map<Partition, nat>, batch: seq<Event>)

  /** Topics, committed offsets and tables are durable; consumers are not. */
  datatype System = System(
    raw: seq<Log>, rawCommitted: seq<nat>, transformers: map<ConsumerId, Transformer>,
    clean: seq<Log>, cleanCommitted: seq<nat>, loaders: map<ConsumerId, Loader>,
    ledger: Ledger, parked: set<Event>, loaded: set<Event>)

  function Append(logs: seq<Log>, p: Partition, e: Event): seq<Log>
    requires p < |logs|
  {
    logs[p := logs[p] + [e]]
  }

  /** Committing writes down the offset reached on every partition the consumer reads. */
  function Commit(committed: seq<nat>, at: map<Partition, nat>): seq<nat> {
    seq(|committed|, p requires 0 <= p < |committed| => if p in at then at[p] else committed[p])
  }

  /**
   * What a transaction that has just written `own` may count: its own row, and of the others
   * those whose transactions have committed.
   */
  predicate Sees(l: Ledger, seen: set<MarkerRow>, own: set<MarkerRow>) {
    own * l.markers <= seen <= l.markers
  }

  datatype Step =
    // the producer and the barrier
    | StartRun(run: Run)
    | AbandonRun(run: Run)
    | Produce(p: Partition, run: Run, id: nat)
    | CloseExtraction(run: Run, extracted: Option<nat>)
    | EmitBoundary(run: Run, p: Partition)
    // transform consumers
    | StartTransformer(c: ConsumerId)
    | CrashTransformer(c: ConsumerId)
    | AssignRaw(c: ConsumerId, p: Partition)
    | RevokeRaw(c: ConsumerId, p: Partition)
    | Forward(c: ConsumerId, p: Partition, q: Partition)
    | ParkRaw(c: ConsumerId, p: Partition)
    | ObserveRaw(c: ConsumerId, p: Partition, seen: set<MarkerRow>)
    | SweepRaw(c: ConsumerId, run: Run, seen: set<MarkerRow>)
    | EmitClean(c: ConsumerId, m: MarkerRow)
    | CommitRaw(c: ConsumerId)
    // load consumers
    | StartLoader(c: ConsumerId)
    | CrashLoader(c: ConsumerId)
    | AssignClean(c: ConsumerId, p: Partition)
    | RevokeClean(c: ConsumerId, p: Partition)
    | Take(c: ConsumerId, p: Partition)
    | ParkClean(c: ConsumerId, p: Partition)
    | Write(c: ConsumerId, n: nat)
    | ObserveClean(c: ConsumerId, p: Partition, seen: set<MarkerRow>)
    | SweepClean(run: Run, seen: set<MarkerRow>)
    | CommitClean(c: ConsumerId)

  /** A transform consumer is at an event of partition `p`, with its last marker dealt with. */
  predicate TransformerAt(s: System, c: ConsumerId, p: Partition) {
    && c in s.transformers && s.transformers[c].owed == {}
    && p in s.transformers[c].at && p < |s.raw| && s.transformers[c].at[p] < |s.raw[p]|
  }

  predicate LoaderAt(s: System, c: ConsumerId, p: Partition) {
    && c in s.loaders
    && p in s.loaders[c].at && p < |s.clean| && s.loaders[c].at[p] < |s.clean[p]|
  }

  function RawEvent(s: System, c: ConsumerId, p: Partition): Event
    requires TransformerAt(s, c, p)
  {
    s.raw[p][s.transformers[c].at[p]]
  }

  function CleanEvent(s: System, c: ConsumerId, p: Partition): Event
    requires LoaderAt(s, c, p)
  {
    s.clean[p][s.loaders[c].at[p]]
  }

  /** The markers that close the clean topic for a run, one for each partition. */
  function CleanMarkers(s: System, run: Run): set<MarkerRow> {
    set p: Partition | p < |s.clean| :: MarkerRow(run, CleanBooks, p)
  }

  predicate Enabled(s: System, step: Step) {
    match step
    case StartRun(run) => run !in s.ledger.runs
    case AbandonRun(_) => true
    // every raw event of a run is flushed before its boundary is written
    case Produce(p, run, _) => p < |s.raw| && run in s.ledger.runs && TopicKey(run, RawBooks) !in s.ledger.expected
    case CloseExtraction(run, _) => run in s.ledger.runs
    case EmitBoundary(run, p) => p < |s.raw| && TopicKey(run, RawBooks) in s.ledger.expected

    case StartTransformer(c) => c !in s.transformers
    case CrashTransformer(c) => c in s.transformers
    case AssignRaw(c, p) => c in s.transformers && p < |s.raw| && p < |s.rawCommitted|
    case RevokeRaw(c, p) => c in s.transformers
    case Forward(c, p, q) => TransformerAt(s, c, p) && RawEvent(s, c, p).Book? && q < |s.clean|
    case ParkRaw(c, p) => TransformerAt(s, c, p) && RawEvent(s, c, p).Book?
    case ObserveRaw(c, p, seen) =>
      && TransformerAt(s, c, p) && RawEvent(s, c, p).Marker?
      && var own := MarkerRow(RawEvent(s, c, p).run, RawBooks, p);
      Sees(RecordMarker(s.ledger, own), seen, {own})
    case SweepRaw(c, run, seen) =>
      // the run was awaiting when it was listed; it may have closed since
      && c in s.transformers && s.transformers[c].owed == {}
      && (HasStatus(s.ledger, run, Processing) || HasStatus(s.ledger, run, Success))
      && Sees(s.ledger, seen, {}) && Complete(s.ledger, seen, run, RawBooks)
    case EmitClean(c, m) => c in s.transformers && m in s.transformers[c].owed && m.partition < |s.clean|
    case CommitRaw(c) => c in s.transformers && s.transformers[c].owed == {}

    case StartLoader(c) => c !in s.loaders
    case CrashLoader(c) => c in s.loaders
    case AssignClean(c, p) => c in s.loaders && p < |s.clean| && p < |s.cleanCommitted|
    case RevokeClean(c, p) => c in s.loaders
    case Take(c, p) => LoaderAt(s, c, p) && CleanEvent(s, c, p).Book?
    case ParkClean(c, p) => LoaderAt(s, c, p) && CleanEvent(s, c, p).Book?
    case Write(c, n) => c in s.loaders && n <= |s.loaders[c].batch|
    case ObserveClean(c, p, seen) =>
      && LoaderAt(s, c, p) && CleanEvent(s, c, p).Marker? && s.loaders[c].batch == []
      && var own := MarkerRow(CleanEvent(s, c, p).run, CleanBooks, p);
      Sees(RecordMarker(s.ledger, own), seen, {own})
    case SweepClean(run, seen) => Sees(s.ledger, seen, {})
    case CommitClean(c) => c in s.loaders && s.loaders[c].batch == []
  }

  function WithTransformer(s: System, c: ConsumerId, t: Transformer): System {
    s.(transformers := s.transformers[c := t])
  }

  function WithLoader(s: System, c: ConsumerId, l: Loader): System {
    s.(loaders := s.loaders[c := l])
  }

  /** The consumer has dealt with the event it is at. */
  function PastRaw(s: System, c: ConsumerId, p: Partition): System
    requires TransformerAt(s, c, p)
  {
    var t := s.transformers[c];
    WithTransformer(s, c, t.(at := t.at[p := t.at[p] + 1]))
  }

  function PastClean(s: System, c: ConsumerId, p: Partition, batch: seq<Event>): System
    requires LoaderAt(s, c, p)
  {
    var l := s.loaders[c];
    WithLoader(s, c, Loader(l.at[p := l.at[p] + 1], batch))
  }

  function Apply(s: System, step: Step): System
    requires Enabled(s, step)
  {
    match step
    case StartRun(run) => s.(ledger := s.ledger.(runs := s.ledger.runs[run := RunRow(Running, None, 0, 0, 0)]))
    case AbandonRun(run) => s.(ledger := Abandon(s.ledger, run))
    case Produce(p, run, id) => s.(raw := Append(s.raw, p, Book(run, id)))
    case CloseExtraction(run, extracted) =>
      s.(ledger := Handover(s.ledger, run, |s.raw|, |s.clean|, extracted))
    case EmitBoundary(run, p) => s.(raw := Append(s.raw, p, Marker(run)))

    case StartTransformer(c) => WithTransformer(s, c, Transformer(map[], {}))
    case CrashTransformer(c) => s.(transformers := s.transformers - {c})
    case AssignRaw(c, p) =>
      WithTransformer(s, c, s.transformers[c].(at := s.transformers[c].at[p := s.rawCommitted[p]]))
    case RevokeRaw(c, p) => WithTransformer(s, c, s.transformers[c].(at := s.transformers[c].at - {p}))
    case Forward(c, p, q) => PastRaw(s, c, p).(clean := Append(s.clean, q, RawEvent(s, c, p)))
    case ParkRaw(c, p) => PastRaw(s, c, p).(parked := s.parked + {RawEvent(s, c, p)})
    case ObserveRaw(c, p, seen) =>
      var run := RawEvent(s, c, p).run;
      var ledger := RecordMarker(s.ledger, MarkerRow(run, RawBooks, p));
      var owed := if Complete(ledger, seen, run, RawBooks) then CleanMarkers(s, run) else {};
      var t := PastRaw(s, c, p);
      WithTransformer(t, c, t.transformers[c].(owed := owed)).(ledger := ledger)
    case SweepRaw(c, run, _) => WithTransformer(s, c, s.transformers[c].(owed := CleanMarkers(s, run)))
    case EmitClean(c, m) =>
      WithTransformer(s, c, s.transformers[c].(owed := s.transformers[c].owed - {m}))
        .(clean := Append(s.clean, m.partition, Marker(m.run)))
    case CommitRaw(c) => s.(rawCommitted := Commit(s.rawCommitted, s.transformers[c].at))

    case StartLoader(c) => WithLoader(s, c, Loader(map[], []))
    case CrashLoader(c) => s.(loaders := s.loaders - {c})
    case AssignClean(c, p) => WithLoader(s, c, s.loaders[c].(at := s.loaders[c].at[p := s.cleanCommitted[p]]))
    case RevokeClean(c, p) => WithLoader(s, c, s.loaders[c].(at := s.loaders[c].at - {p}))
    case Take(c, p) => PastClean(s, c, p, s.loaders[c].batch + [CleanEvent(s, c, p)])
    case ParkClean(c, p) => PastClean(s, c, p, s.loaders[c].batch).(parked := s.parked + {CleanEvent(s, c, p)})
    case Write(c, n) =>
      var l := s.loaders[c];
      WithLoader(s, c, l.(batch := l.batch[n..])).(loaded := s.loaded + Events(l.batch[..n]))
    case ObserveClean(c, p, seen) =>
      var run := CleanEvent(s, c, p).run;
      var ledger := RecordMarker(s.ledger, MarkerRow(run, CleanBooks, p));
      PastClean(s, c, p, []).(ledger := Finalise(ledger, seen, run, CleanBooks))
    case SweepClean(run, seen) => s.(ledger := Finalise(s.ledger, seen, run, CleanBooks))
    case CommitClean(c) => s.(cleanCommitted := Commit(s.cleanCommitted, s.loaders[c].at))
  }

  function Events(q: seq<Event>): set<Event> {
    set e | e in q
  }

  /** Empty topics, each with at least one partition, and no run or consumer yet. */
  predicate Initial(s: System) {
    && s.raw != [] && s.clean != []
    && (forall p :: 0 <= p < |s.raw| ==> s.raw[p] == [])
    && (forall p :: 0 <= p < |s.clean| ==> s.clean[p] == [])
    && |s.rawCommitted| == |s.raw| && (forall p :: 0 <= p < |s.raw| ==> s.rawCommitted[p] == 0)
    && |s.cleanCommitted| == |s.clean| && (forall p :: 0 <= p < |s.clean| ==> s.cleanCommitted[p] == 0)
    && s.transformers == map[] && s.loaders == map[]
    && s.ledger == Ledger(map[], map[], {}) && s.parked == {} && s.loaded == {}
  }

  /** The state a list of steps leads to, when each is enabled where it is taken. */
  predicate Runs(s: System, steps: seq<Step>, t: System)
    decreases |steps|
  {
    if steps == [] then s == t
    else Enabled(s, steps[0]) && Runs(Apply(s, steps[0]), steps[1..], t)
  }

  ghost predicate Reachable(t: System) {
    exists s, steps :: Initial(s) && Runs(s, steps, t)
  }
}
