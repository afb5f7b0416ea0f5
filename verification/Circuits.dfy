/** The backend circuit breaker over every sequence of failures, successes and probes.

    Source: `record_backend_failure`, `record_backend_success`, `circuit_allows`,
    `circuit_probe_allowed` of `tools/saipal_analyst/budgets.py`. */
module Circuits {
  import opened Options
  import opened Jobs
  import opened Ledger

  datatype Signal = Fail(failure: FailureClass, at: real, config: string) | Success | Probe(at: real)

  function Hear(c: Circuit, e: Signal): Circuit {
    match e
    case Fail(f, now, config) => Failed(c, f, now, config)
    case Success => Succeeded(c)
    case Probe(now) => Probed(c, now)
  }

  function HearAll(signals: seq<Signal>): Circuit {
    if signals == [] then FRESH_CIRCUIT else Hear(HearAll(signals[..|signals| - 1]), signals[|signals| - 1])
  }

  class BackendCircuit {
    var circuit: Circuit

    constructor ()
      ensures circuit == FRESH_CIRCUIT
    {
      circuit := FRESH_CIRCUIT;
    }

    method RecordFailure(failure: FailureClass, now: real, config: string)
      modifies this
      ensures circuit == Failed(old(circuit), failure, now, config)
      ensures circuit.consecutive == old(circuit).consecutive + 1 && circuit.cause == BackendCause(failure)
      ensures failure == Auth ==>
                && circuit.state == OPEN && circuit.openedAt == Some(now) && circuit.openUntil == None
                && circuit.openSeconds == old(circuit).openSeconds && circuit.configDigest == Some(config)
      ensures failure == Retryable && old(circuit).consecutive >= 4 ==>
                var seconds := Min(if old(circuit).openSeconds == 0.0 then 300.0 else old(circuit).openSeconds, 1800.0);
                && circuit.state == OPEN && circuit.openedAt == Some(now)
                && circuit.openUntil == Some(now + seconds) && circuit.openSeconds == Min(2.0 * seconds, 1800.0)
                && circuit.configDigest == old(circuit).configDigest
      ensures failure != Auth && (failure == Retryable ==> old(circuit).consecutive < 4) ==>
                circuit == old(circuit).(consecutive := circuit.consecutive, cause := circuit.cause)
    {
      circuit := circuit.(consecutive := circuit.consecutive + 1, cause := BackendCause(failure));
      if failure == Auth {
        circuit := circuit.(state := OPEN, openedAt := Some(now), openUntil := None, configDigest := Some(config));
      } else if failure == Retryable && circuit.consecutive >= CIRCUIT_TRIP_THRESHOLD {
        var openSeconds := Min(if circuit.openSeconds != 0.0 then circuit.openSeconds else CIRCUIT_BASE_OPEN_SECONDS,
                               CIRCUIT_MAX_OPEN_SECONDS);
        circuit := circuit.(state := OPEN, openedAt := Some(now), openUntil := Some(now + openSeconds),
                            openSeconds := Min(openSeconds * 2.0, CIRCUIT_MAX_OPEN_SECONDS));
      }
    }

    method RecordSuccess()
      modifies this
      ensures circuit == Succeeded(old(circuit))
      ensures circuit.state == CLOSED && circuit.consecutive == 0
      ensures circuit.openUntil == None && circuit.cause == NoCause
      ensures && circuit.openSeconds == old(circuit).openSeconds && circuit.openedAt == old(circuit).openedAt
              && circuit.configDigest == old(circuit).configDigest
    {
      circuit := circuit.(state := CLOSED, consecutive := 0, openUntil := None, cause := NoCause);
    }

    /** A due timed OPEN becomes HALF_OPEN, and then the call may go. */
    method MayCall(now: real, config: string) returns (allowed: bool)
      modifies this
      ensures circuit == Probed(old(circuit), now)
      ensures allowed == CircuitAllows(circuit, now, config)
      ensures allowed == CircuitAllows(old(circuit), now, config)
      ensures old(circuit).state != OPEN ==> allowed && circuit == old(circuit)
      ensures old(circuit).state == OPEN && old(circuit).openUntil.None? ==>
                (allowed <==> old(circuit).configDigest != Some(config)) && circuit == old(circuit)
      ensures old(circuit).state == OPEN && old(circuit).openUntil.Some? ==>
                && (allowed <==> now >= old(circuit).openUntil.value)
                && circuit == if allowed then old(circuit).(state := HALF_OPEN) else old(circuit)
    {
      if circuit.state == OPEN && circuit.openUntil.Some? && circuit.openUntil.value <= now {
        circuit := circuit.(state := HALF_OPEN);
      }
      if circuit.state != OPEN {
        return true;
      }
      if circuit.openUntil.None? {
        return circuit.configDigest != Some(config);
      }
      return !(circuit.openUntil.value > now);
    }
  }

  // ---------------------------------------------------------------------------
  // Counting what was heard
  // ---------------------------------------------------------------------------

  /** Failures of any class since the last success. */
  function Streak(signals: seq<Signal>): nat {
    if signals == [] then 0
    else match signals[|signals| - 1]
         case Success => 0
         case Fail(_, _, _) => Streak(signals[..|signals| - 1]) + 1
         case Probe(_) => Streak(signals[..|signals| - 1])
  }

  /** The failure trips the timed circuit: it is retryable, and at least the fifth in a row. */
  predicate Trips(before: seq<Signal>, e: Signal) {
    e.Fail? && e.failure == Retryable && Streak(before) + 1 >= CIRCUIT_TRIP_THRESHOLD
  }

  function TripCount(signals: seq<Signal>): nat {
    if signals == [] then 0
    else TripCount(signals[..|signals| - 1]) + if Trips(signals[..|signals| - 1], signals[|signals| - 1]) then 1 else 0
  }

  function Pow2(k: nat): real { if k == 0 then 1.0 else 2.0 * Pow2(k - 1) }

  /** The length of the k-th timed trip, from 1. */
  function TripSeconds(k: nat): real
    requires k >= 1
  {
    Min(300.0 * Pow2(k - 1), 1800.0)
  }

  lemma {:induction false} Pow2AtLeastOne(k: nat)
    ensures Pow2(k) >= 1.0
  {
    if k > 0 {
      Pow2AtLeastOne(k - 1);
    }
  }

  predicate Timed(c: Circuit) { c.state == OPEN && c.openUntil.Some? }

  /** The state is a function of what was heard: the streak, and the trips so far, which no success
      takes back. */
  predicate Tracks(c: Circuit, signals: seq<Signal>) {
    && c.consecutive == Streak(signals)
    && c.openSeconds == TripSeconds(TripCount(signals) + 1)
    && (c.state == HALF_OPEN || Timed(c) ==> Streak(signals) >= CIRCUIT_TRIP_THRESHOLD && TripCount(signals) >= 1)
    && (c.state == HALF_OPEN || Timed(c) ==>
          && c.openedAt.Some? && c.openUntil.Some?
          && c.openUntil.value == c.openedAt.value + TripSeconds(TripCount(signals)))
  }

  lemma TripTracks(before: seq<Signal>, e: Signal, c: Circuit)
    requires Tracks(c, before) && Trips(before, e)
    ensures var t := Hear(c, e);
            && Timed(t) && t.openedAt == Some(e.at)
            && t.openUntil == Some(e.at + TripSeconds(TripCount(before) + 1))
            && t.openSeconds == TripSeconds(TripCount(before) + 2)
  {
    Pow2AtLeastOne(TripCount(before));
    assert Pow2(TripCount(before) + 1) == 2.0 * Pow2(TripCount(before));
  }

  lemma {:induction false} CircuitTracks(signals: seq<Signal>)
    ensures Tracks(HearAll(signals), signals)
  {
    if signals == [] {
      assert Pow2(0) == 1.0;
    } else {
      var before, e := signals[..|signals| - 1], signals[|signals| - 1];
      CircuitTracks(before);
      if Trips(before, e) {
        TripTracks(before, e, HearAll(before));
      }
      assert HearAll(signals) == Hear(HearAll(before), e);
    }
  }

  // ---------------------------------------------------------------------------
  // What follows for every run
  // ---------------------------------------------------------------------------

  /** The k-th timed trip of a run lasts exactly min(300 * 2^(k-1), 1800) seconds; successes in
      between do not shorten it. */
  lemma KthTripLasts(before: seq<Signal>, e: Signal)
    requires Trips(before, e)
    ensures var k := TripCount(before + [e]);
            && k == TripCount(before) + 1
            && Timed(HearAll(before + [e]))
            && HearAll(before + [e]).openUntil == Some(e.at + Min(300.0 * Pow2(k - 1), 1800.0))
  {
    assert (before + [e])[..|before|] == before;
    CircuitTracks(before);
    TripTracks(before, e, HearAll(before));
  }

  /** A retryable failure opens a circuit that is not already timed exactly when it is at least the fifth
      failure of any class since the last success; so in every reachable HALF_OPEN one retryable
      failed probe reopens it. */
  lemma TripsExactly(before: seq<Signal>, now: real, config: string)
    requires !Timed(HearAll(before))
    ensures Timed(Hear(HearAll(before), Fail(Retryable, now, config))) <==> Streak(before) >= 4
    ensures HearAll(before).state == HALF_OPEN ==> Timed(Hear(HearAll(before), Fail(Retryable, now, config)))
  {
    CircuitTracks(before);
    var e := Fail(Retryable, now, config);
    if Trips(before, e) {
      TripTracks(before, e, HearAll(before));
    }
  }

  /** No timed OPEN refuses later than 1800 seconds after it opened. */
  lemma NoLongRefusal(signals: seq<Signal>, now: real, config: string)
    requires Timed(HearAll(signals))
    ensures var c := HearAll(signals);
            c.openedAt.Some? && (now >= c.openedAt.value + 1800.0 ==> CircuitAllows(c, now, config))
  {
    CircuitTracks(signals);
  }

  predicate JobScoped(e: Signal) { e.Fail? ==> e.failure == Permanent || e.failure == Limit }

  /** Failures that are the job's own, successes and probes never leave CLOSED. */
  lemma {:induction false} JobScopedStaysClosed(before: seq<Signal>, more: seq<Signal>)
    requires HearAll(before).state == CLOSED && forall e :: e in more ==> JobScoped(e)
    ensures HearAll(before + more).state == CLOSED
  {
    hide HearAll, Hear, Streak, TripCount;
    if more == [] {
      assert before + more == before;
    } else {
      var rest, e := more[..|more| - 1], more[|more| - 1];
      assert before + more == before + rest + [e] && e in more;
      forall x | x in rest ensures JobScoped(x) { assert x in more; }
      JobScopedStaysClosed(before, rest);
      Heard(before + rest, e);
      JobScopedKeepsClosed(HearAll(before + rest), e);
    }
  }

  lemma Heard(before: seq<Signal>, e: Signal)
    ensures HearAll(before + [e]) == Hear(HearAll(before), e)
  {
    assert (before + [e])[..|before|] == before;
  }

  lemma JobScopedKeepsClosed(c: Circuit, e: Signal)
    requires c.state == CLOSED && JobScoped(e)
    ensures Hear(c, e).state == CLOSED
  {
  }

  // ---------------------------------------------------------------------------
  // Who is refused
  // ---------------------------------------------------------------------------

  /** The failure opens the circuit: AUTH always, a retryable one from the fifth failure in a row on. */
  predicate Opens(before: seq<Signal>, e: Signal) {
    e.Fail? && (e.failure == Auth || (e.failure == Retryable && Streak(before) >= 4))
  }

  /** When such an opening is over by itself; an AUTH opening never is. */
  function Until(before: seq<Signal>, e: Signal): Option<real>
    requires e.Fail?
  {
    if e.failure == Auth then None else Some(e.at + Min(300.0 * Pow2(TripCount(before)), 1800.0))
  }

  /** A success ends an opening, and so does a probe once it is due. */
  predicate Ends(e: Signal, until: Option<real>) {
    match e
    case Success => true
    case Probe(at) => until.Some? && at >= until.value
    case Fail(_, _, _) => false
  }

  /** The n-th signal opened the circuit, and nothing since has ended that opening or begun another. */
  predicate OpenSince(signals: seq<Signal>, n: nat) {
    && 0 < n <= |signals| && Opens(signals[..n - 1], signals[n - 1])
    && forall i :: n <= i < |signals| ==>
         !Opens(signals[..i], signals[i]) && !Ends(signals[i], Until(signals[..n - 1], signals[n - 1]))
  }

  /** What an opening says to a call made now: an AUTH one refuses the configuration that failed, a
      timed one refuses until its time. */
  predicate Refuses(before: seq<Signal>, e: Signal, now: real, config: string)
    requires e.Fail?
  {
    if e.failure == Auth then e.config == config
    else now < e.at + Min(300.0 * Pow2(TripCount(before)), 1800.0)
  }

  lemma OpenedBefore(before: seq<Signal>, e: Signal, n: nat)
    requires 0 < n <= |before|
    ensures (before + [e])[..n - 1] == before[..n - 1] && (before + [e])[n - 1] == before[n - 1]
    ensures OpenSince(before + [e], n) <==>
              && OpenSince(before, n) && !Opens(before, e)
              && !Ends(e, Until(before[..n - 1], before[n - 1]))
  {
    hide Opens, Ends, Until;
    var all := before + [e];
    assert all[..n - 1] == before[..n - 1] && all[n - 1] == before[n - 1];
    assert all[..|before|] == before && all[|before|] == e;
    assert forall i :: n <= i < |before| ==> all[..i] == before[..i] && all[i] == before[i];
    if Opens(before[..n - 1], before[n - 1]) {
      FailureOpens(before[..n - 1], before[n - 1]);
    }
  }

  lemma FailureOpens(before: seq<Signal>, e: Signal)
    requires Opens(before, e)
    ensures e.Fail?
  {
  }

  lemma OpenedNow(before: seq<Signal>, e: Signal)
    ensures OpenSince(before + [e], |before| + 1) <==> Opens(before, e)
  {
    assert (before + [e])[..|before|] == before && (before + [e])[|before|] == e;
  }

  /** One signal: the circuit is open afterwards exactly when the signal opened it, or it was open and
      the signal did not end that. */
  lemma OpenStep(before: seq<Signal>, e: Signal)
    ensures var c, d := HearAll(before), HearAll(before + [e]);
            && (Opens(before, e) ==>
                  d.state == OPEN && d.openUntil == Until(before, e)
                  && (e.failure == Auth ==> d.configDigest == Some(e.config)))
            && (!Opens(before, e) ==>
                  && (d.state == OPEN <==> c.state == OPEN && !Ends(e, c.openUntil))
                  && (d.state == OPEN ==> d.openUntil == c.openUntil && d.configDigest == c.configDigest))
  {
    hide HearAll, Streak, TripCount;
    CircuitTracks(before);
    Heard(before, e);
    if Trips(before, e) {
      TripTracks(before, e, HearAll(before));
    }
  }

  /** An opening that nothing has ended is what the circuit shows. */
  lemma {:induction false} OpenShows(signals: seq<Signal>, n: nat)
    requires OpenSince(signals, n)
    ensures var c, e := HearAll(signals), signals[n - 1];
            && c.state == OPEN && c.openUntil == Until(signals[..n - 1], e)
            && (e.failure == Auth ==> c.configDigest == Some(e.config))
  {
    hide HearAll, Streak, TripCount, Opens, Ends, Until;
    var before, e := signals[..|signals| - 1], signals[|signals| - 1];
    assert signals == before + [e];
    OpenStep(before, e);
    if n <= |before| {
      OpenedBefore(before, e, n);
      OpenShows(before, n);
    }
  }

  /** A circuit that is open was opened by a signal that nothing has ended. */
  lemma {:induction false} OpenHasReason(signals: seq<Signal>)
    requires HearAll(signals).state == OPEN
    ensures exists n: nat :: OpenSince(signals, n)
  {
    hide HearAll, Streak, TripCount, Opens, Ends, Until, OpenSince;
    if signals == [] {
      Silence();
    } else {
      var before, e := signals[..|signals| - 1], signals[|signals| - 1];
      assert signals == before + [e];
      OpenStep(before, e);
      OpenedNow(before, e);
      if !Opens(before, e) {
        OpenHasReason(before);
        var n: nat :| OpenSince(before, n);
        OpenBounds(before, n);
        OpenShows(before, n);
        OpenedBefore(before, e, n);
      }
    }
  }

  lemma OpenBounds(signals: seq<Signal>, n: nat)
    requires OpenSince(signals, n)
    ensures 0 < n <= |signals| && signals[n - 1].Fail?
  {
  }

  lemma Silence()
    ensures HearAll([]) == FRESH_CIRCUIT
  {
  }

  /** Over every sequence of signals: a call is refused exactly when some failure opened the circuit,
      nothing since has ended that or opened it anew, and the failure was an AUTH one under this very
      configuration, or a timed trip, its k-th, less than min(300 * 2^(k-1), 1800) seconds ago. */
  lemma RefusedExactly(signals: seq<Signal>, now: real, config: string)
    ensures !CircuitAllows(HearAll(signals), now, config) <==>
            exists n: nat :: OpenSince(signals, n) && Refuses(signals[..n - 1], signals[n - 1], now, config)
  {
    hide HearAll, Streak, TripCount, Opens, Ends, OpenSince;
    if n: nat :| OpenSince(signals, n) {
      OpenBounds(signals, n);
      OpenShows(signals, n);
      forall m: nat | OpenSince(signals, m)
        ensures m == n
      {
        OneOpening(signals, m, n);
      }
    } else if !CircuitAllows(HearAll(signals), now, config) {
      OpenHasReason(signals);
    }
  }

  lemma NoneLater(signals: seq<Signal>, n: nat, m: nat)
    requires OpenSince(signals, n) && n < m <= |signals|
    ensures !OpenSince(signals, m)
  {
    hide Opens, Ends, Until;
    var later := m - 1;
    assert n <= later < |signals|;
  }

  lemma OneOpening(signals: seq<Signal>, m: nat, n: nat)
    requires OpenSince(signals, m) && OpenSince(signals, n)
    ensures m == n
  {
    hide OpenSince;
    OpenBounds(signals, m);
    OpenBounds(signals, n);
    if m < n {
      NoneLater(signals, m, n);
    } else if n < m {
      NoneLater(signals, n, m);
    }
  }

  /** Failures of the job's own, and probes that come before the time. */
  predicate Idle(e: Signal, until: Option<real>) {
    match e
    case Success => false
    case Probe(at) => until.Some? ==> at < until.value
    case Fail(f, _, _) => f == Permanent || f == Limit
  }

  lemma IdleKeepsOpen(before: seq<Signal>, e: Signal, more: seq<Signal>)
    requires Opens(before, e) && forall x :: x in more ==> Idle(x, Until(before, e))
    ensures OpenSince(before + [e] + more, |before| + 1)
    ensures (before + [e] + more)[..|before|] == before && (before + [e] + more)[|before|] == e
  {
    hide Streak, Until;
    var all, n := before + [e] + more, |before| + 1;
    assert all[..n - 1] == before && all[n - 1] == e;
    forall i | n <= i < |all|
      ensures !Opens(all[..i], all[i]) && !Ends(all[i], Until(before, e))
    {
      assert all[i] == more[i - n] && all[i] in more;
    }
  }

  /** After its k-th timed trip, with nothing but the job's own failures and early probes since, the
      circuit refuses every call, whatever its configuration, for exactly min(300 * 2^(k-1), 1800)
      seconds. */
  lemma TimedTripRefusesExactly(before: seq<Signal>, e: Signal, more: seq<Signal>, now: real, config: string)
    requires Trips(before, e)
    requires var over := e.at + Min(300.0 * Pow2(TripCount(before)), 1800.0);
             forall x :: x in more ==> Idle(x, Some(over))
    ensures var k := TripCount(before + [e]);
            && k == TripCount(before) + 1
            && (!CircuitAllows(HearAll(before + [e] + more), now, config) <==>
                now < e.at + Min(300.0 * Pow2(k - 1), 1800.0))
  {
    hide HearAll, Streak, Idle;
    KthTripLasts(before, e);
    IdleKeepsOpen(before, e, more);
    OpenShows(before + [e] + more, |before| + 1);
  }

  /** An AUTH failure latches: with nothing but probes and the job's own failures since, a call is
      allowed exactly under another configuration, at whatever time. */
  lemma AuthLatches(before: seq<Signal>, at: real, config: string, more: seq<Signal>, now: real, asked: string)
    requires forall e :: e in more ==> e.Probe? || (e.Fail? && JobScoped(e))
    ensures var c := HearAll(before + [Fail(Auth, at, config)] + more);
            && c.state == OPEN && c.openUntil.None? && c.configDigest == Some(config)
            && (CircuitAllows(c, now, asked) <==> asked != config)
  {
    hide HearAll, Streak;
    var e := Fail(Auth, at, config);
    IdleKeepsOpen(before, e, more);
    OpenShows(before + [e] + more, |before| + 1);
  }

  /** Four failures in a row that are each the job's own do not open the circuit, yet they leave it
      one retryable failure from opening. */
  lemma JobScopedStillCounts(at: real, config: string)
    ensures var p, l := Fail(Permanent, at, config), Fail(Limit, at, config);
            && HearAll([p, l, p, l]).state == CLOSED
            && Timed(HearAll([p, l, p, l] + [Fail(Retryable, at, config)]))
  {
    var p, l := Fail(Permanent, at, config), Fail(Limit, at, config);
    var four := [p, l, p, l];
    assert four[..3] == [p, l, p] && [p, l, p][..2] == [p, l] && [p, l][..1] == [p] && [p][..0] == [];
    assert Streak([p]) == 1 && Streak([p, l]) == 2 && Streak([p, l, p]) == 3;
    assert Streak(four) == 4;
    CircuitTracks(four);
    JobScopedStaysClosed([], four);
    assert [] + four == four;
    KthTripLasts(four, Fail(Retryable, at, config));
  }
}
