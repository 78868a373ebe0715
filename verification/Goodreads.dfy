// One rate-limited request, retried within two budgets behind a circuit that never closes.

module Goodreads {
  import opened Ordering

  // ----- the circuit

  datatype Circuit = Circuit(threshold: nat, failures: nat, isOpen: bool, refused: bool)

  datatype Event = Failed(refusal: bool) | Succeeded | Tripped

  function Next(c: Circuit, e: Event): Circuit {
    match e
    case Failed(refusal) =>
      var n := c.failures + 1;
      if n >= c.threshold && !c.isOpen then c.(failures := n, isOpen := true, refused := refusal) else c.(failures := n)
    case Succeeded => c.(failures := 0)
    case Tripped => c.(isOpen := true, refused := true)
  }

  function History(threshold: nat, events: seq<Event>): Circuit {
    if events == [] then Circuit(threshold, 0, false, false)
    else Next(History(threshold, events[..|events|-1]), events[|events|-1])
  }

  /** Failures since the last success. */
  function Streak(events: seq<Event>): nat {
    if events == [] || events[|events|-1] == Succeeded then 0
    else Streak(events[..|events|-1]) + if events[|events|-1].Failed? then 1 else 0
  }

  /** The circuit had reason to open at the `i`th event. */
  predicate Provoked(threshold: nat, events: seq<Event>, i: nat)
    requires i < |events|
  {
    events[i] == Tripped || (events[i].Failed? && Streak(events[..i + 1]) >= threshold)
  }

  lemma {:induction false} CountsTheStreak(threshold: nat, events: seq<Event>)
    ensures History(threshold, events).failures == Streak(events)
    ensures History(threshold, events).threshold == threshold
  {
    if events != [] {
      CountsTheStreak(threshold, events[..|events|-1]);
    }
  }

  /**
   * The circuit is open exactly when, at some point, access was refused outright or the failures
   * since the last success reached the threshold; nothing afterwards closes it.
   */
  lemma {:induction false} OpensExactlyWhen(threshold: nat, events: seq<Event>)
    ensures History(threshold, events).isOpen <==> exists i :: 0 <= i < |events| && Provoked(threshold, events, i)
  {
    if events != [] {
      var n := |events| - 1;
      var init := events[..n];
      OpensExactlyWhen(threshold, init);
      CountsTheStreak(threshold, init);
      forall i | 0 <= i < n ensures Provoked(threshold, init, i) <==> Provoked(threshold, events, i) {
        assert init[..i + 1] == events[..i + 1];
      }
      assert events[..n + 1] == events;
      if exists i :: 0 <= i < n && Provoked(threshold, init, i) {
        var i :| 0 <= i < n && Provoked(threshold, init, i);
        assert Provoked(threshold, events, i);
      }
      if Provoked(threshold, events, n) {
        assert History(threshold, events).isOpen;
      }
    }
  }

  /** A failure that counts as a refusal reaches the threshold first, while the circuit is closed. */
  predicate OpensByRefusal(threshold: nat, events: seq<Event>, i: nat)
    requires i < |events|
  {
    && events[i] == Failed(true) && Streak(events[..i + 1]) >= threshold
    && forall j :: 0 <= j < i ==> !Provoked(threshold, events, j)
  }

  /** The source refused us exactly when access was refused outright, or a refusal is what opened the circuit. */
  lemma {:induction false} RefusedExactlyWhen(threshold: nat, events: seq<Event>)
    ensures History(threshold, events).refused <==>
      exists i :: 0 <= i < |events| && (events[i] == Tripped || OpensByRefusal(threshold, events, i))
  {
    if events != [] {
      var n := |events| - 1;
      var init := events[..n];
      RefusedExactlyWhen(threshold, init);
      OpensExactlyWhen(threshold, init);
      CountsTheStreak(threshold, init);
      CountsTheStreak(threshold, events);
      assert events[..n + 1] == events;
      forall i | 0 <= i < n
        ensures init[i] == events[i]
        ensures Provoked(threshold, init, i) <==> Provoked(threshold, events, i)
      {
        assert init[..i + 1] == events[..i + 1];
      }
      forall i | 0 <= i < n
        ensures OpensByRefusal(threshold, init, i) <==> OpensByRefusal(threshold, events, i)
      {
        assert init[..i + 1] == events[..i + 1];
      }
      if i :| 0 <= i < n && (init[i] == Tripped || OpensByRefusal(threshold, init, i)) {
        assert events[i] == Tripped || OpensByRefusal(threshold, events, i);
      }
      if events[n] == Tripped || OpensByRefusal(threshold, events, n) {
        assert History(threshold, events).refused;
      }
    }
  }

  class CircuitBreaker {
    const threshold: nat
    var failures: nat
    var isOpen: bool
    var refused: bool

    constructor (threshold: nat)
      ensures State() == History(threshold, [])
    {
      this.threshold := threshold;
      failures, isOpen, refused := 0, false, false;
    }

    function State(): Circuit
      reads this
    {
      Circuit(threshold, failures, isOpen, refused)
    }

    method RecordFailure(refusal: bool)
      modifies this
      ensures State() == Next(old(State()), Failed(refusal))
    {
      failures := failures + 1;
      if failures >= threshold && !isOpen {
        isOpen := true;
        refused := refusal;
      }
    }

    /** Open at once, for a failure that will not fix itself. */
    method Trip()
      modifies this
      ensures State() == Next(old(State()), Tripped)
    {
      isOpen := true;
      refused := true;
    }

    method RecordSuccess()
      modifies this
      ensures State() == Next(old(State()), Succeeded)
    {
      failures := 0;
    }
  }

  // ----- one answer

  datatype Reply = TransportError | Response(status: nat, challenge: bool, empty: bool, text: string)

  datatype Verdict = Fine | Transient | Blocked | Denied | Final

  const ACCESS_DENIED_STATUS: set<nat> := {401, 403, 429}
  const SERVER_ERROR_THRESHOLD: nat := 500
  const CLIENT_ERROR_THRESHOLD: nat := 400

  function Judge(r: Reply): Verdict {
    if r.TransportError? then Transient
    else if r.status in ACCESS_DENIED_STATUS then Denied
    else if r.status >= SERVER_ERROR_THRESHOLD then Transient
    else if r.status >= CLIENT_ERROR_THRESHOLD then Final
    else if r.challenge then Denied
    else if r.empty then Blocked
    else Fine
  }

  // ----- a call

  datatype Outcome = Body(text: string) | Unavailable

  function Tally(answers: nat -> Reply, n: nat, verdict: Verdict): nat {
    if n == 0 then 0 else Tally(answers, n - 1, verdict) + if Judge(answers(n - 1)) == verdict then 1 else 0
  }

  /** Every one of the first `n` answers was worth another try. */
  predicate Retried(answers: nat -> Reply, n: nat) {
    forall i :: 0 <= i < n ==> Judge(answers(i)) in {Transient, Blocked}
  }

  lemma {:induction false} RetriesAreTallied(answers: nat -> Reply, n: nat)
    requires Retried(answers, n)
    ensures n == Tally(answers, n, Transient) + Tally(answers, n, Blocked)
  {
    if n > 0 {
      RetriesAreTallied(answers, n - 1);
    }
  }

  /** A call that stops after `sent` requests has this reason to. */
  predicate Stops(answers: nat -> Reply, sent: nat, transientRetries: nat, blockRetries: nat)
    requires sent > 0
  {
    match Judge(answers(sent - 1))
    case Transient => Tally(answers, sent - 1, Transient) == transientRetries
    case Blocked => Tally(answers, sent - 1, Blocked) == blockRetries
    case _ => true
  }

  /** The answers among the first `n` that were given this verdict. */
  ghost function Given(answers: nat -> Reply, n: nat, verdict: Verdict): set<nat> {
    set i: nat | i < n && Judge(answers(i)) == verdict
  }

  lemma {:induction false} TallyCounts(answers: nat -> Reply, n: nat, verdict: Verdict)
    ensures Tally(answers, n, verdict) == |Given(answers, n, verdict)|
  {
    hide Judge, Given;
    if n > 0 {
      TallyCounts(answers, n - 1, verdict);
      OneMoreGiven(answers, n - 1, verdict);
    } else {
      NoneGiven(answers, verdict);
    }
  }

  lemma NoneGiven(answers: nat -> Reply, verdict: Verdict)
    ensures Given(answers, 0, verdict) == {}
  {
  }

  lemma OneMoreGiven(answers: nat -> Reply, n: nat, verdict: Verdict)
    ensures |Given(answers, n + 1, verdict)| ==
      |Given(answers, n, verdict)| + if Judge(answers(n)) == verdict then 1 else 0
  {
    hide Judge;
    var before, now := Given(answers, n, verdict), Given(answers, n + 1, verdict);
    assert n !in before;
    assert now == before + if Judge(answers(n)) == verdict then {n} else {};
  }

  /** A call stops at an answer that settles it, or at the first of its kind past that kind's budget. */
  lemma StopsExactlyWhen(answers: nat -> Reply, sent: nat, transientRetries: nat, blockRetries: nat)
    requires sent > 0
    ensures Stops(answers, sent, transientRetries, blockRetries) <==>
      || Judge(answers(sent - 1)) in {Fine, Denied, Final}
      || (Judge(answers(sent - 1)) == Transient && |Given(answers, sent, Transient)| == transientRetries + 1)
      || (Judge(answers(sent - 1)) == Blocked && |Given(answers, sent, Blocked)| == blockRetries + 1)
  {
    hide Judge;
    TallyCounts(answers, sent, Transient);
    TallyCounts(answers, sent, Blocked);
    hide Given;
  }

  function Consequence(r: Reply): seq<Event> {
    match Judge(r)
    case Fine => [Succeeded]
    case Transient => [Failed(false)]
    case Blocked => [Failed(true)]
    case Denied => [Tripped]
    case Final => []
  }

  /** Which answers are worth another try, which open the circuit, and which settle the call. */
  lemma AnswersMean(r: Reply)
    ensures Judge(r) == Transient <==> r == TransportError || (r.Response? && r.status >= 500)
    ensures Judge(r) == Denied <==>
      && r.Response?
      && (r.status == 401 || r.status == 403 || r.status == 429 || (r.status < 400 && r.challenge))
    ensures Judge(r) == Final <==>
      && r.Response?
      && 400 <= r.status < 500 && r.status != 401 && r.status != 403 && r.status != 429
    ensures Judge(r) == Blocked <==> r.Response? && r.status < 400 && !r.challenge && r.empty
    ensures Judge(r) == Fine <==> r.Response? && r.status < 400 && !r.challenge && !r.empty
  {
  }

  /** What the answer a call ends with does to the circuit. */
  lemma AnswersMove(c: Circuit, r: Reply)
    ensures var d := Follow(c, Consequence(r));
      && d.threshold == c.threshold
      && (Judge(r) == Fine ==> d == c.(failures := 0))
      && (Judge(r) == Final ==> d == c)
      && (Judge(r) == Denied ==> d == c.(isOpen := true, refused := true))
      && (Judge(r) in {Transient, Blocked} ==>
            && d.failures == c.failures + 1
            && (d.isOpen <==> c.isOpen || c.failures + 1 >= c.threshold)
            && d.refused == if d.isOpen && !c.isOpen then Judge(r) == Blocked else c.refused)
  {
    hide Judge;
    OneEvent(c, r);
    assert Consequence(r) != [] ==> Consequence(r)[..0] == [];
  }

  function Follow(c: Circuit, events: seq<Event>): Circuit {
    if events == [] then c else Next(Follow(c, events[..|events|-1]), events[|events|-1])
  }

  // ----- how long to wait

  const TRANSIENT_BACKOFF_SECONDS: real := 1.0
  const BLOCK_BACKOFF_SECONDS: real := 10.0
  const BLOCK_BACKOFF_FACTOR: real := 6.0

  function Power(base: real, n: nat): real {
    if n == 0 then 1.0 else base * Power(base, n - 1)
  }

  function BlockWait(pause: real, attempt: nat): real
    requires attempt > 0
  {
    var escalated := BLOCK_BACKOFF_SECONDS * Power(BLOCK_BACKOFF_FACTOR, attempt - 1);
    if pause <= escalated then pause else escalated
  }

  function Backoff(attempt: nat): real
    requires attempt > 0
  {
    TRANSIENT_BACKOFF_SECONDS * Power(2.0, attempt - 1)
  }

  lemma {:induction false} PowerGrows(base: real, n: nat)
    requires base >= 1.0
    ensures 1.0 <= Power(base, n) <= Power(base, n + 1)
  {
    if n > 0 {
      PowerGrows(base, n - 1);
    }
  }

  /** A block is waited out longer each time, and never longer than the configured pause. */
  lemma WaitsEscalate(pause: real, attempt: nat)
    requires attempt > 0
    ensures BlockWait(pause, attempt) <= BlockWait(pause, attempt + 1) <= pause
    ensures Backoff(attempt + 1) == 2.0 * Backoff(attempt)
  {
    PowerGrows(BLOCK_BACKOFF_FACTOR, attempt - 1);
  }

  /** The pauses themselves: ten seconds and sixfold from there, one second and double from there. */
  lemma WaitsAre(pause: real, attempt: nat)
    requires attempt > 0
    ensures BlockWait(pause, 1) == if pause <= 10.0 then pause else 10.0
    ensures BlockWait(pause, attempt) < pause && pause <= 6.0 * BlockWait(pause, attempt) ==>
      BlockWait(pause, attempt + 1) == pause
    ensures BlockWait(pause, attempt) < pause && 6.0 * BlockWait(pause, attempt) < pause ==>
      BlockWait(pause, attempt + 1) == 6.0 * BlockWait(pause, attempt)
    ensures BlockWait(pause, attempt) == pause ==> BlockWait(pause, attempt + 1) == pause
    ensures Backoff(1) == 1.0 && Backoff(attempt + 1) == 2.0 * Backoff(attempt)
  {
    WaitsEscalate(pause, attempt);
  }

  /** The pause that follows the `i`th answer, when it is one to retry. */
  function WaitAfter(answers: nat -> Reply, i: nat, pause: real): real {
    if Judge(answers(i)) == Blocked then BlockWait(pause, Tally(answers, i, Blocked) + 1)
    else Backoff(Tally(answers, i, Transient) + 1)
  }

  class GoodreadsExtractor {
    const circuit: CircuitBreaker
    const transientRetries: nat
    const blockRetries: nat
    const blockPause: real

    constructor (threshold: nat, transientRetries: nat, blockRetries: nat, blockPause: real)
      ensures fresh(circuit) && circuit.State() == History(threshold, [])
      ensures this.transientRetries == transientRetries && this.blockRetries == blockRetries
    {
      circuit := new CircuitBreaker(threshold);
      this.transientRetries, this.blockRetries, this.blockPause := transientRetries, blockRetries, blockPause;
    }

    /**
     * The call ends at the first answer that settles it, or at the first that exhausts its
     * budget, within one request and both budgets; an open circuit sends nothing.
     */
    method Get(answers: nat -> Reply) returns (outcome: Outcome, sent: nat, waits: seq<real>)
      modifies circuit
      ensures old(circuit.isOpen) ==> sent == 0 && outcome == Unavailable && circuit.State() == old(circuit.State())
      ensures !old(circuit.isOpen) ==>
        && 1 <= sent <= 1 + transientRetries + blockRetries
        && Retried(answers, sent - 1)
        && (forall n :: 0 < n < sent ==> !Stops(answers, n, transientRetries, blockRetries))
        && Stops(answers, sent, transientRetries, blockRetries)
        && outcome == (if Judge(answers(sent - 1)) == Fine then Body(answers(sent - 1).text) else Unavailable)
        && circuit.State() == Follow(old(circuit.State()), Consequence(answers(sent - 1)))
      ensures old(circuit.isOpen) ==> circuit.isOpen
      ensures |waits| == if sent == 0 then 0 else sent - 1
      ensures forall i :: 0 <= i < |waits| ==> waits[i] == WaitAfter(answers, i, blockPause)
    {
      sent, waits := 0, [];
      if circuit.isOpen {
        return Unavailable, 0, [];
      }
      ghost var before := circuit.State();
      var transient, blocked := 0, 0;
      hide Next, Follow, Power, Tally, Stops, Retried, Judge, WaitAfter, BlockWait, Backoff;
      NothingSent(answers);
      while true
        invariant transient <= transientRetries && blocked <= blockRetries
        invariant transient == Tally(answers, sent, Transient) && blocked == Tally(answers, sent, Blocked)
        invariant Retried(answers, sent) && sent == transient + blocked
        invariant forall n :: 0 < n <= sent ==> !Stops(answers, n, transientRetries, blockRetries)
        invariant circuit.State() == before && !before.isOpen
        invariant |waits| == sent && forall i :: 0 <= i < sent ==> waits[i] == WaitAfter(answers, i, blockPause)
        decreases transientRetries + blockRetries - transient - blocked
      {
        var reply := answers(sent);
        sent := sent + 1;
        OneMoreAnswer(answers, sent - 1, transientRetries, blockRetries);
        WaitIs(answers, sent - 1, blockPause);
        var verdict := Judge(reply);
        if verdict == Blocked && blocked < blockRetries {
          blocked := blocked + 1;
          waits := waits + [BlockWait(blockPause, blocked)];
        } else if verdict == Transient && transient < transientRetries {
          transient := transient + 1;
          waits := waits + [Backoff(transient)];
        } else {
          outcome := Conclude(reply);
          return;
        }
      }
    }

    /** What the last answer of a call does to the circuit, and what the call returns. */
    method Conclude(reply: Reply) returns (outcome: Outcome)
      modifies circuit
      ensures outcome == if Judge(reply) == Fine then Body(reply.text) else Unavailable
      ensures circuit.State() == Follow(old(circuit.State()), Consequence(reply))
    {
      OneEvent(circuit.State(), reply);
      outcome := Unavailable;
      match Judge(reply)
      case Fine =>
        circuit.RecordSuccess();
        outcome := Body(reply.text);
      case Denied => circuit.Trip();
      case Final =>
      case Blocked => circuit.RecordFailure(true);
      case Transient => circuit.RecordFailure(false);
    }
  }

  lemma WaitIs(answers: nat -> Reply, i: nat, pause: real)
    ensures Judge(answers(i)) == Blocked ==> WaitAfter(answers, i, pause) == BlockWait(pause, Tally(answers, i, Blocked) + 1)
    ensures Judge(answers(i)) != Blocked ==> WaitAfter(answers, i, pause) == Backoff(Tally(answers, i, Transient) + 1)
  {
    hide Tally, BlockWait, Backoff, Power, Judge;
  }

  lemma NothingSent(answers: nat -> Reply)
    ensures Retried(answers, 0) && forall v :: Tally(answers, 0, v) == 0
  {
  }

  /** An answer is another to retry, or the one the call stops at. */
  lemma OneMoreAnswer(answers: nat -> Reply, n: nat, transientRetries: nat, blockRetries: nat)
    requires Retried(answers, n)
    requires Tally(answers, n, Transient) <= transientRetries && Tally(answers, n, Blocked) <= blockRetries
    ensures forall v :: Tally(answers, n + 1, v) == Tally(answers, n, v) + if Judge(answers(n)) == v then 1 else 0
    ensures Judge(answers(n)) in {Transient, Blocked} ==> Retried(answers, n + 1)
    ensures Stops(answers, n + 1, transientRetries, blockRetries) <==>
      match Judge(answers(n))
      case Transient => Tally(answers, n, Transient) >= transientRetries
      case Blocked => Tally(answers, n, Blocked) >= blockRetries
      case _ => true
  {
  }

  lemma OneEvent(c: Circuit, r: Reply)
    ensures Consequence(r) == [] ==> Follow(c, Consequence(r)) == c
    ensures Consequence(r) != [] ==> Follow(c, Consequence(r)) == Next(c, Consequence(r)[0])
  {
    if Consequence(r) != [] {
      assert Consequence(r)[..0] == [];
    }
  }

  // ----- spacing requests

  /** One acquisition: the clock as it was read, and as it was read again if there was a wait. */
  datatype Reading = Reading(now: real, woke: real)

  function Waits(next: Option<real>, r: Reading): bool {
    next.Some? && r.now < next.value
  }

  function Grant(next: Option<real>, r: Reading): real {
    if Waits(next, r) then r.woke else r.now
  }

  /** When each acquisition is granted. */
  function Grants(interval: real, readings: seq<Reading>): (gs: seq<real>)
    ensures |gs| == |readings|
  {
    if readings == [] then [] else
      var gs := Grants(interval, readings[..|readings|-1]);
      gs + [Grant(NextAllowed(interval, gs), readings[|readings|-1])]
  }

  function NextAllowed(interval: real, grants: seq<real>): Option<real> {
    if grants == [] then None else Some(grants[|grants|-1] + interval)
  }

  /** The sleep before the `i`th grant did not return early. */
  predicate Slept(interval: real, readings: seq<Reading>, i: nat)
    requires i < |readings|
  {
    var next := NextAllowed(interval, Grants(interval, readings[..i]));
    Waits(next, readings[i]) ==> readings[i].woke >= next.value
  }

  class TokenBucket {
    const interval: real
    var nextAllowed: Option<real>

    constructor (ratePerSecond: real)
      requires ratePerSecond > 0.0
      ensures interval == 1.0 / ratePerSecond && nextAllowed == None
    {
      interval := 1.0 / ratePerSecond;
      nextAllowed := None;
    }

    method Acquire(r: Reading, ghost readings: seq<Reading>) returns (granted: real)
      requires nextAllowed == NextAllowed(interval, Grants(interval, readings))
      modifies this
      ensures Grants(interval, readings + [r]) == Grants(interval, readings) + [granted]
      ensures nextAllowed == NextAllowed(interval, Grants(interval, readings + [r]))
      ensures granted == if old(nextAllowed).Some? && r.now < old(nextAllowed).value then r.woke else r.now
      ensures nextAllowed == Some(granted + interval)
    {
      assert (readings + [r])[..|readings|] == readings;
      var now := r.now;
      if nextAllowed.Some? && now < nextAllowed.value {
        now := r.woke;
      }
      nextAllowed := Some(now + interval);
      granted := now;
    }
  }

  lemma {:induction false} GrantOf(interval: real, readings: seq<Reading>, i: nat)
    requires i < |readings|
    ensures Grants(interval, readings)[i] == Grant(NextAllowed(interval, Grants(interval, readings[..i])), readings[i])
    ensures Grants(interval, readings[..i]) == Grants(interval, readings)[..i]
    decreases |readings|
  {
    var n := |readings| - 1;
    if i < n {
      GrantOf(interval, readings[..n], i);
      assert readings[..n][..i] == readings[..i];
    }
  }

  predicate Spaced(interval: real, readings: seq<Reading>, i: nat)
    requires 0 < i < |readings|
  {
    Grants(interval, readings)[i] - Grants(interval, readings)[i - 1] >= interval
  }

  lemma SpacedOnce(interval: real, readings: seq<Reading>, i: nat)
    requires i < |readings|
    ensures i == 0 ==> Slept(interval, readings, i)
    ensures i > 0 ==> (Spaced(interval, readings, i) <==> Slept(interval, readings, i))
  {
    GrantOf(interval, readings, i);
  }

  /** Consecutive grants are at least an interval apart exactly when no sleep returned early. */
  lemma SpacedExactlyWhen(interval: real, readings: seq<Reading>)
    ensures (forall i :: 0 < i < |readings| ==> Spaced(interval, readings, i))
      <==> (forall i :: 0 <= i < |readings| ==> Slept(interval, readings, i))
  {
    hide Spaced, Slept;
    forall i | 0 <= i < |readings|
      ensures i == 0 ==> Slept(interval, readings, i)
      ensures i > 0 ==> (Spaced(interval, readings, i) <==> Slept(interval, readings, i))
    {
      SpacedOnce(interval, readings, i);
    }
  }

  /** So no stretch of time holds more requests than the rate allows. */
  lemma {:induction false} RateIsKept(interval: real, readings: seq<Reading>, i: nat, j: nat)
    requires i <= j < |readings|
    requires forall k :: 0 <= k < |readings| ==> Slept(interval, readings, k)
    ensures Grants(interval, readings)[j] - Grants(interval, readings)[i] >= (j - i) as real * interval
    decreases j
  {
    if i < j {
      RateIsKept(interval, readings, i, j - 1);
      SpacedOnce(interval, readings, j);
      assert (j - i) as real * interval == (j - 1 - i) as real * interval + interval;
    }
  }

  /** A sleep of sixty that returns after one: the second grant comes one after the first. */
  lemma EarlySleepGrantsEarly()
    ensures var readings := [Reading(0.0, 0.0), Reading(0.0, 1.0)];
      Grants(60.0, readings) == [0.0, 1.0] && !Spaced(60.0, readings, 1)
  {
    var first, second := Reading(0.0, 0.0), Reading(0.0, 1.0);
    assert [first, second][..1] == [first] && [first][..0] == [];
    assert Grants(60.0, []) == [];
    assert Grants(60.0, [first]) == [0.0];
  }
}
