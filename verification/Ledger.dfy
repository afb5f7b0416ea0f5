/** The analyst budget ledger: hourly windows, the rollback freeze, and the circuits.

    Source: `tools/saipal_analyst/budgets.py`. Every mutator is a function of the ledger here; the
    class at the end runs them on the file as the source does. */
module Ledger {
  import opened Options
  import opened Jobs

  datatype Counts = Counts(attempts: nat, units: nat, inputTokens: nat, outputTokens: nat)

  const ZERO := Counts(0, 0, 0, 0)

  function Plus(a: Counts, b: Counts): Counts {
    Counts(a.attempts + b.attempts, a.units + b.units, a.inputTokens + b.inputTokens, a.outputTokens + b.outputTokens)
  }

  datatype CircuitState = CLOSED | OPEN | HALF_OPEN

  datatype SourceKind = TRANSIENT | CONFIGURATION

  datatype Cause = NoCause | BackendCause(failure: FailureClass) | SourceCause(kind: SourceKind)

  datatype Circuit = Circuit(
    state: CircuitState, consecutive: nat, openedAt: Option<real>, openUntil: Option<real>,
    openSeconds: real, cause: Cause, configDigest: Option<string>)

  datatype Ledger = Ledger(
    windows: map<int, Counts>, lastSeen: Option<real>, freeze: bool,
    backend: Circuit, sources: map<string, Circuit>)

  const CIRCUIT_TRIP_THRESHOLD := 5
  const CIRCUIT_BASE_OPEN_SECONDS := 300.0
  const CIRCUIT_MAX_OPEN_SECONDS := 1800.0
  const CLOCK_SKEW_SECONDS := 5.0

  const FRESH_CIRCUIT := Circuit(CLOSED, 0, None, None, CIRCUIT_BASE_OPEN_SECONDS, NoCause, None)
  const FRESH_LEDGER := Ledger(map[], None, false, FRESH_CIRCUIT, map[])

  function Min(a: real, b: real): real { if a <= b then a else b }
  function Max(a: real, b: real): real { if a >= b then a else b }

  // ---------------------------------------------------------------------------
  // Hourly windows
  // ---------------------------------------------------------------------------

  function Hour(now: real): int { (now / 3600.0).Floor }

  /** The windows that survive a charge at `now`: the current and the previous hour. */
  function Recent(windows: map<int, Counts>, now: real): map<int, Counts> {
    map h | h in windows && (h == Hour(now) || h == Hour(now) - 1) :: windows[h]
  }

  function WindowOf(l: Ledger, hour: int): Counts { if hour in l.windows then l.windows[hour] else ZERO }

  /** Trusted time is strictly past the high-water mark. */
  predicate Recovered(l: Ledger, now: real) { l.lastSeen.None? || now > l.lastSeen.value }

  function Charged(l: Ledger, now: real, c: Counts): Ledger {
    var rolledBack := l.lastSeen.Some? && now < l.lastSeen.value - CLOCK_SKEW_SECONDS;
    var freeze := if rolledBack then true else if l.freeze && Recovered(l, now) then false else l.freeze;
    // A mark of exactly zero reads as absent.
    var seen := if l.lastSeen.None? || l.lastSeen.value == 0.0 then now else Max(now, l.lastSeen.value);
    var kept := Recent(l.windows, now);
    var current := if Hour(now) in kept then kept[Hour(now)] else ZERO;
    l.(windows := kept[Hour(now) := Plus(current, c)], lastSeen := Some(seen), freeze := freeze)
  }

  datatype Limits = Limits(maxAttempts: Option<int>, maxUnits: Option<int>)

  /** The hourly gate before every transport. */
  predicate BudgetAllows(l: Ledger, limits: Limits, now: real) {
    (limits.maxAttempts.None? && limits.maxUnits.None?) ||
    (&& (l.freeze ==> Recovered(l, now))
     && (limits.maxAttempts.Some? ==> WindowOf(l, Hour(now)).attempts < limits.maxAttempts.value)
     && (limits.maxUnits.Some? ==> WindowOf(l, Hour(now)).units < limits.maxUnits.value))
  }

  // ---------------------------------------------------------------------------
  // The backend circuit
  // ---------------------------------------------------------------------------

  /** A timed trip: open for the current window, and double the next one. */
  function Tripped(c: Circuit, now: real): Circuit {
    var window := Min(if c.openSeconds == 0.0 then CIRCUIT_BASE_OPEN_SECONDS else c.openSeconds,
                      CIRCUIT_MAX_OPEN_SECONDS);
    c.(state := OPEN, openedAt := Some(now), openUntil := Some(now + window),
       openSeconds := Min(window * 2.0, CIRCUIT_MAX_OPEN_SECONDS))
  }

  /** AUTH opens until the configuration changes; RETRYABLE trips at the threshold; PERMANENT and
      LIMIT are the job's own trouble, though they count as failures. */
  function Failed(c0: Circuit, failure: FailureClass, now: real, configDigest: string): Circuit {
    var c := c0.(consecutive := c0.consecutive + 1, cause := BackendCause(failure));
    match failure
    case Auth => c.(state := OPEN, openedAt := Some(now), openUntil := None, configDigest := Some(configDigest))
    case Retryable => if c.consecutive >= CIRCUIT_TRIP_THRESHOLD then Tripped(c, now) else c
    case _ => c
  }

  function Succeeded(c: Circuit): Circuit { c.(state := CLOSED, consecutive := 0, openUntil := None, cause := NoCause) }

  predicate ProbeDue(c: Circuit, now: real) { c.state == OPEN && c.openUntil.Some? && c.openUntil.value <= now }

  function Probed(c: Circuit, now: real): Circuit { if ProbeDue(c, now) then c.(state := HALF_OPEN) else c }

  predicate CircuitAllows(c: Circuit, now: real, configDigest: string) {
    c.state == OPEN ==>
      if c.openUntil.None? then c.configDigest != Some(configDigest) else c.openUntil.value <= now
  }

  // ---------------------------------------------------------------------------
  // The source circuits
  // ---------------------------------------------------------------------------

  predicate Reconfigured(c: Circuit, digest: Option<string>) {
    digest.Some? && c.configDigest.Some? && c.configDigest != digest
  }

  function SourceFailed(prior: Option<Circuit>, failure: SourceKind, digest: Option<string>, now: real): Circuit {
    var c0 := if prior.Some? then prior.value
              else FRESH_CIRCUIT.(cause := SourceCause(failure), configDigest := digest);
    var c1 := if Reconfigured(c0, digest) then c0.(state := CLOSED, consecutive := 0, openUntil := None) else c0;
    var c := c1.(consecutive := c1.consecutive + 1, cause := SourceCause(failure),
                 configDigest := if digest.Some? then digest else c1.configDigest);
    if failure == CONFIGURATION then c.(state := OPEN, openedAt := Some(now), openUntil := None)
    else if c.consecutive >= CIRCUIT_TRIP_THRESHOLD then Tripped(c, now)
    else c
  }

  function SourceSucceeded(c: Circuit, digest: Option<string>): Circuit {
    Succeeded(c).(configDigest := if digest.Some? then digest else c.configDigest)
  }

  /** The re-check under the fence before a source is half-opened. */
  function SourceDemoted(c: Circuit, digest: string): Circuit {
    if c.state == OPEN && (c.configDigest.None? || c.configDigest == Some(digest)) then c.(state := HALF_OPEN) else c
  }

  // ---------------------------------------------------------------------------
  // One mutation of the ledger file
  // ---------------------------------------------------------------------------

  datatype Mutation =
    | Charge(at: real, counts: Counts)
    | BackendFailure(failure: FailureClass, at: real, config: string)
    | BackendSuccess
    | BackendProbe(at: real)
    | SourceFailure(id: string, kind: SourceKind, digest: Option<string>, at: real)
    | SourceSuccess(id: string, digest: Option<string>)
    | SourceDemote(id: string, config: string)

  function Apply(l: Ledger, m: Mutation): Ledger {
    match m
    case Charge(now, c) => Charged(l, now, c)
    case BackendFailure(f, now, config) => l.(backend := Failed(l.backend, f, now, config))
    case BackendSuccess => l.(backend := Succeeded(l.backend))
    case BackendProbe(now) => l.(backend := Probed(l.backend, now))
    case SourceFailure(id, kind, digest, now) =>
      var prior := if id in l.sources then Some(l.sources[id]) else None;
      l.(sources := l.sources[id := SourceFailed(prior, kind, digest, now)])
    case SourceSuccess(id, digest) =>
      if id in l.sources then l.(sources := l.sources[id := SourceSucceeded(l.sources[id], digest)]) else l
    case SourceDemote(id, config) =>
      if id in l.sources then l.(sources := l.sources[id := SourceDemoted(l.sources[id], config)]) else l
  }

  function ApplyAll(l: Ledger, ms: seq<Mutation>): Ledger {
    if ms == [] then l else Apply(ApplyAll(l, ms[..|ms| - 1]), ms[|ms| - 1])
  }
}
