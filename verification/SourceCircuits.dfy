/** The circuit of one source: transient failures trip it for a time, a dead configuration until it
    changes or its path is back.

    Source: `record_source_failure`, `record_source_success`, `source_circuit_allows`,
    `_demote_source_half_open` of `tools/saipal_analyst/budgets.py`. */
module SourceCircuits {
  import opened Options
  import opened Ledger
  import opened Circuits

  class SourceBoard {
    var circuits: map<string, Circuit>

    constructor ()
      ensures circuits == map[]
    {
      circuits := map[];
    }

    method RecordFailure(id: string, kind: SourceKind, digest: Option<string>, now: real)
      modifies this
      ensures var prior := if id in old(circuits) then Some(old(circuits)[id]) else None;
              circuits == old(circuits)[id := SourceFailed(prior, kind, digest, now)]
      ensures id in circuits && circuits[id].cause == SourceCause(kind)
      ensures var c, c0 := circuits[id], if id in old(circuits) then old(circuits)[id] else FRESH_CIRCUIT;
              var changed := digest.Some? && c0.configDigest.Some? && digest != c0.configDigest;
              var seconds := Min(if c0.openSeconds == 0.0 then 300.0 else c0.openSeconds, 1800.0);
              && c.consecutive == (if changed then 1 else c0.consecutive + 1)
              && c.configDigest == (if digest.None? then c0.configDigest else digest)
              && (kind == CONFIGURATION ==>
                    && c.state == OPEN && c.openedAt == Some(now) && c.openUntil == None
                    && c.openSeconds == c0.openSeconds)
              && (kind == TRANSIENT && c.consecutive >= 5 ==>
                    && c.state == OPEN && c.openedAt == Some(now) && c.openUntil == Some(now + seconds)
                    && c.openSeconds == Min(2.0 * seconds, 1800.0))
              && (kind == TRANSIENT && c.consecutive < 5 ==>
                    && c.state == (if changed then CLOSED else c0.state)
                    && c.openUntil == (if changed then None else c0.openUntil)
                    && c.openedAt == c0.openedAt && c.openSeconds == c0.openSeconds)
      ensures forall k :: k != id ==> (k in circuits <==> k in old(circuits)) &&
                                      (k in circuits ==> circuits[k] == old(circuits)[k])
    {
      var c := if id in circuits then circuits[id]
               else FRESH_CIRCUIT.(cause := SourceCause(kind), configDigest := digest);
      if digest.Some? && c.configDigest.Some? && c.configDigest != digest {
        c := c.(state := CLOSED, consecutive := 0, openUntil := None);
      }
      c := c.(consecutive := c.consecutive + 1, cause := SourceCause(kind));
      if digest.Some? {
        c := c.(configDigest := digest);
      }
      if kind == CONFIGURATION {
        c := c.(state := OPEN, openedAt := Some(now), openUntil := None);
      } else if c.consecutive >= CIRCUIT_TRIP_THRESHOLD {
        var openSeconds := Min(if c.openSeconds != 0.0 then c.openSeconds else CIRCUIT_BASE_OPEN_SECONDS,
                               CIRCUIT_MAX_OPEN_SECONDS);
        c := c.(state := OPEN, openedAt := Some(now), openUntil := Some(now + openSeconds),
                openSeconds := Min(openSeconds * 2.0, CIRCUIT_MAX_OPEN_SECONDS));
      }
      circuits := circuits[id := c];
    }

    method RecordSuccess(id: string, digest: Option<string>)
      modifies this
      ensures id !in old(circuits) ==> circuits == old(circuits)
      ensures id in old(circuits) ==>
                circuits == old(circuits)[id := SourceSucceeded(old(circuits)[id], digest)]
      ensures id in old(circuits) ==>
                var c, c0 := circuits[id], old(circuits)[id];
                && c.state == CLOSED && c.consecutive == 0 && c.openUntil == None && c.cause == NoCause
                && c.openSeconds == c0.openSeconds && c.openedAt == c0.openedAt
                && c.configDigest == if digest.None? then c0.configDigest else digest
    {
      if id in circuits {
        var c := circuits[id].(state := CLOSED, consecutive := 0, openUntil := None, cause := NoCause);
        if digest.Some? {
          c := c.(configDigest := digest);
        }
        circuits := circuits[id := c];
      }
    }

    /** May this source dispatch? A refusal changes nothing; a due or recovered OPEN is demoted for one
        probe. */
    method MayDispatch(id: string, digest: string, now: real, pathExists: bool) returns (allowed: bool)
      modifies this
      ensures var prior := if id in old(circuits) then Some(old(circuits)[id]) else None;
              allowed == SourceAllows(prior, digest, now, pathExists)
      ensures circuits == if id !in old(circuits) then old(circuits)
                          else old(circuits)[id := Asked(old(circuits)[id], digest, now, pathExists)]
      ensures id !in old(circuits) ==> allowed && circuits == old(circuits)
      ensures id in old(circuits) ==>
                var c := old(circuits)[id];
                var free := c.state != OPEN || (c.configDigest.Some? && c.configDigest != Some(digest));
                var back := if c.openUntil.None? then pathExists else now >= c.openUntil.value;
                && (allowed <==> free || back)
                && circuits == if !free && back then old(circuits)[id := c.(state := HALF_OPEN)] else old(circuits)
    {
      if id !in circuits {
        return true;
      }
      var c := circuits[id];
      if c.state != OPEN || (c.configDigest.Some? && c.configDigest != Some(digest)) {
        return true;
      }
      if c.openUntil.None? {
        if !pathExists {
          return false;
        }
      } else if c.openUntil.value > now {
        return false;
      }
      circuits := circuits[id := SourceDemoted(c, digest)];
      return true;
    }
  }

  /** An OPEN that this configuration is still held to. */
  predicate Held(c: Circuit, digest: string) {
    c.state == OPEN && (c.configDigest.None? || c.configDigest == Some(digest))
  }

  predicate ComesBack(c: Circuit, now: real, pathExists: bool) {
    if c.openUntil.None? then pathExists else c.openUntil.value <= now
  }

  predicate SourceAllows(c: Option<Circuit>, digest: string, now: real, pathExists: bool) {
    c.None? || !Held(c.value, digest) || ComesBack(c.value, now, pathExists)
  }

  function Asked(c: Circuit, digest: string, now: real, pathExists: bool): Circuit {
    if Held(c, digest) && ComesBack(c, now, pathExists) then SourceDemoted(c, digest) else c
  }

  // ---------------------------------------------------------------------------
  // Every sequence of dispatches
  // ---------------------------------------------------------------------------

  datatype Report =
    | Failure(kind: SourceKind, digest: Option<string>, at: real)
    | Success(digest: Option<string>)
    | Ask(config: string, at: real, pathExists: bool)

  function Hear(c: Option<Circuit>, e: Report): Option<Circuit> {
    match e
    case Failure(kind, digest, now) => Some(SourceFailed(c, kind, digest, now))
    case Success(digest) => if c.Some? then Some(SourceSucceeded(c.value, digest)) else None
    case Ask(digest, now, exist) => if c.Some? then Some(Asked(c.value, digest, now, exist)) else None
  }

  function HearAll(reports: seq<Report>): Option<Circuit> {
    if reports == [] then None else Hear(HearAll(reports[..|reports| - 1]), reports[|reports| - 1])
  }

  /** A failure has been reported: there is a circuit. */
  predicate Known(reports: seq<Report>) { exists e :: e in reports && e.Failure? }

  /** The configuration the circuit is pinned to: the last that was named with a failure, or with a
      success after one. */
  function Pinned(reports: seq<Report>): Option<string> {
    if reports == [] then None
    else
      var before, e := reports[..|reports| - 1], reports[|reports| - 1];
      if e.Failure? && e.digest.Some? then e.digest
      else if e.Success? && e.digest.Some? && Known(before) then e.digest
      else Pinned(before)
  }

  /** The failures since the last success or change of configuration. */
  function Streak(reports: seq<Report>): nat {
    if reports == [] then 0
    else
      var before, e := reports[..|reports| - 1], reports[|reports| - 1];
      match e
      case Success(_) => 0
      case Ask(_, _, _) => Streak(before)
      case Failure(_, digest, _) => if digest.Some? && Pinned(before).Some? && Pinned(before) != digest then 1
                                    else Streak(before) + 1
  }

  /** The failure trips the circuit for a time. */
  predicate Trips(before: seq<Report>, e: Report) {
    e.Failure? && e.kind == TRANSIENT && Streak(before + [e]) >= CIRCUIT_TRIP_THRESHOLD
  }

  function TripCount(reports: seq<Report>): nat {
    if reports == [] then 0
    else TripCount(reports[..|reports| - 1]) + if Trips(reports[..|reports| - 1], reports[|reports| - 1]) then 1 else 0
  }

  predicate Tracks(c: Option<Circuit>, reports: seq<Report>) {
    && (c.Some? <==> Known(reports))
    && (c.None? ==> Streak(reports) == 0 && TripCount(reports) == 0 && Pinned(reports) == None)
    && (c.Some? ==> c.value.configDigest == Pinned(reports))
    && (c.Some? ==>
          c.value.consecutive == Streak(reports) && c.value.openSeconds == TripSeconds(TripCount(reports) + 1))
  }

  lemma OneMore(before: seq<Report>, e: Report)
    ensures HearAll(before + [e]) == Hear(HearAll(before), e)
    ensures Known(before + [e]) <==> Known(before) || e.Failure?
    ensures Pinned(before + [e]) == if e.Failure? && e.digest.Some? then e.digest
                                    else if e.Success? && e.digest.Some? && Known(before) then e.digest
                                    else Pinned(before)
    ensures TripCount(before + [e]) == TripCount(before) + if Trips(before, e) then 1 else 0
    ensures e.Success? ==> Streak(before + [e]) == 0
    ensures e.Ask? ==> Streak(before + [e]) == Streak(before)
    ensures e.Failure? ==>
              Streak(before + [e]) == if e.digest.Some? && Pinned(before).Some? && Pinned(before) != e.digest then 1
                                      else Streak(before) + 1
  {
    hide Hear;
    assert (before + [e])[..|before|] == before;
    assert forall x :: x in before + [e] <==> x in before || x == e;
  }

  lemma TrackStep(before: seq<Report>, e: Report)
    requires Tracks(HearAll(before), before)
    ensures Tracks(HearAll(before + [e]), before + [e])
    ensures Trips(before, e) ==>
              && HearAll(before + [e]).Some? && Timed(HearAll(before + [e]).value)
              && HearAll(before + [e]).value.openUntil == Some(e.at + TripSeconds(TripCount(before) + 1))
  {
    hide HearAll, Streak, TripCount;
    OneMore(before, e);
    NextTrip(TripCount(before));
    assert TripSeconds(1) == 300.0;
  }

  /** How one trip's length follows from the last. */
  lemma NextTrip(n: nat)
    ensures 300.0 <= TripSeconds(n + 1) <= 1800.0
    ensures TripSeconds(n + 2) == Min(TripSeconds(n + 1) * 2.0, 1800.0)
  {
    Pow2AtLeastOne(n);
    assert Pow2(n + 1) == 2.0 * Pow2(n);
  }

  lemma {:induction false} SourceTracks(reports: seq<Report>)
    ensures Tracks(HearAll(reports), reports)
  {
    hide HearAll, Streak, TripCount;
    if reports == [] {
      NothingYet();
    } else {
      var before := reports[..|reports| - 1];
      SourceTracks(before);
      TrackStep(before, reports[|reports| - 1]);
      assert reports == before + [reports[|reports| - 1]];
    }
  }

  lemma NothingYet()
    ensures Tracks(HearAll([]), [])
  {
  }

  /** The k-th timed trip of a source lasts min(300 * 2^(k-1), 1800) seconds, counted over its whole
      life: neither a success nor a new configuration starts the doubling over. */
  lemma KthSourceTripLasts(before: seq<Report>, e: Report)
    requires Trips(before, e)
    ensures var c := HearAll(before + [e]);
            c.Some? && Timed(c.value) && c.value.openUntil == Some(e.at + TripSeconds(TripCount(before + [e])))
  {
    hide HearAll, Streak, Tracks, TripSeconds;
    SourceTracks(before);
    TrackStep(before, e);
    assert (before + [e])[..|before|] == before;
  }

  /** Old poison never blocks a new configuration: whatever happened, another digest is admitted at
      once, and its first transient failure finds a closed circuit with nothing counted against it. */
  lemma NewConfigurationIsAdmitted(reports: seq<Report>, digest: string, now: real, pathExists: bool)
    requires Pinned(reports).Some? && Pinned(reports) != Some(digest)
    ensures SourceAllows(HearAll(reports), digest, now, pathExists)
    ensures HearAll(reports + [Ask(digest, now, pathExists)]) == HearAll(reports)
    ensures var c := HearAll(reports + [Failure(TRANSIENT, Some(digest), now)]);
            c.Some? && c.value.state == CLOSED && c.value.consecutive == 1 && c.value.configDigest == Some(digest)
  {
    hide HearAll, Streak, TripCount, Pinned, Known;
    SourceTracks(reports);
    OneMore(reports, Ask(digest, now, pathExists));
    OneMore(reports, Failure(TRANSIENT, Some(digest), now));
  }

  predicate Quiet(e: Report, digest: string) { e.Ask? && (e.config == digest ==> !e.pathExists) }

  /** A dead configuration is never polled: after its failure no time and no number of asks admits it
      while its path is gone, and an ask that is refused changes nothing; once the path is back it is
      admitted and half open. */
  lemma {:induction false} DeadConfigurationStaysOpen(reports: seq<Report>, digest: string, at: real,
          asks: seq<Report>, now: real)
    requires forall e :: e in asks ==> Quiet(e, digest)
    ensures var c := HearAll(reports + [Failure(CONFIGURATION, Some(digest), at)] + asks);
            && c == HearAll(reports + [Failure(CONFIGURATION, Some(digest), at)])
            && !SourceAllows(c, digest, now, false)
            && SourceAllows(c, digest, now, true) && Hear(c, Ask(digest, now, true)).value.state == HALF_OPEN
  {
    hide Streak, TripCount, HearAll;
    var first := reports + [Failure(CONFIGURATION, Some(digest), at)];
    OneMore(reports, Failure(CONFIGURATION, Some(digest), at));
    if asks == [] {
      assert first + asks == first;
    } else {
      var rest, e := asks[..|asks| - 1], asks[|asks| - 1];
      assert e in asks;
      DeadConfigurationStaysOpen(reports, digest, at, rest, now);
      OneMore(first + rest, e);
      assert first + asks == first + rest + [e];
    }
  }

  // ---------------------------------------------------------------------------
  // Which asks are refused
  // ---------------------------------------------------------------------------

  /** The change of configuration a failure brings, as the reports show it. */
  predicate Reconfigures(before: seq<Report>, e: Report) {
    e.Failure? && e.digest.Some? && Pinned(before).Some? && Pinned(before) != e.digest
  }

  /** The failure opens the circuit: a configuration failure always, a transient one when it trips. */
  predicate Opens(before: seq<Report>, e: Report) {
    e.Failure? && (e.kind == CONFIGURATION || Trips(before, e))
  }

  /** When such an opening is over by itself; a configuration failure's never is. */
  function Until(before: seq<Report>, e: Report): Option<real>
    requires e.Failure?
  {
    if e.kind == CONFIGURATION then None else Some(e.at + Min(300.0 * Pow2(TripCount(before)), 1800.0))
  }

  /** The question is put under the configuration the circuit is pinned to. */
  predicate SameConfiguration(reports: seq<Report>, digest: string) {
    Pinned(reports) == None || Pinned(reports) == Some(digest)
  }

  /** A success ends an opening, and so does a failure under a new configuration; an ask under the
      pinned one does when the time is up, or the path is back. */
  predicate Ends(before: seq<Report>, e: Report, until: Option<real>) {
    match e
    case Success(_) => true
    case Failure(_, _, _) => Reconfigures(before, e)
    case Ask(digest, at, pathExists) =>
      SameConfiguration(before, digest) && if until.None? then pathExists else at >= until.value
  }

  /** The n-th report opened the circuit, and nothing since has ended that opening or begun another. */
  predicate OpenSince(reports: seq<Report>, n: nat) {
    && 0 < n <= |reports| && Opens(reports[..n - 1], reports[n - 1])
    && forall i :: n <= i < |reports| ==>
         && !Opens(reports[..i], reports[i])
         && !Ends(reports[..i], reports[i], Until(reports[..n - 1], reports[n - 1]))
  }

  lemma OpeningFails(before: seq<Report>, e: Report)
    requires Opens(before, e)
    ensures e.Failure?
  {
  }

  lemma OpenedBefore(before: seq<Report>, e: Report, n: nat)
    requires 0 < n <= |before|
    ensures (before + [e])[..n - 1] == before[..n - 1] && (before + [e])[n - 1] == before[n - 1]
    ensures OpenSince(before + [e], n) <==>
              && OpenSince(before, n) && !Opens(before, e)
              && !Ends(before, e, Until(before[..n - 1], before[n - 1]))
  {
    hide Opens, Ends, Until;
    var all := before + [e];
    assert all[..n - 1] == before[..n - 1] && all[n - 1] == before[n - 1];
    assert all[..|before|] == before && all[|before|] == e;
    assert forall i :: n <= i < |before| ==> all[..i] == before[..i] && all[i] == before[i];
    if Opens(before[..n - 1], before[n - 1]) {
      OpeningFails(before[..n - 1], before[n - 1]);
    }
  }

  lemma OpenedNow(before: seq<Report>, e: Report)
    ensures OpenSince(before + [e], |before| + 1) <==> Opens(before, e)
  {
    assert (before + [e])[..|before|] == before && (before + [e])[|before|] == e;
  }

  predicate IsOpen(c: Option<Circuit>) { c.Some? && c.value.state == OPEN }

  /** One report: the source is open afterwards exactly when the report opened it, or it was open and
      the report did not end that. */
  lemma OpenStep(before: seq<Report>, e: Report)
    ensures var c, d := HearAll(before), HearAll(before + [e]);
            && (Opens(before, e) ==> IsOpen(d) && d.value.openUntil == Until(before, e))
            && (!Opens(before, e) ==>
                  && (IsOpen(d) <==> IsOpen(c) && !Ends(before, e, c.value.openUntil))
                  && (IsOpen(d) ==> d.value.openUntil == c.value.openUntil))
  {
    hide HearAll, Streak, TripCount, Pinned, Known;
    SourceTracks(before);
    OneMore(before, e);
    TrackStep(before, e);
  }

  lemma OpenBounds(reports: seq<Report>, n: nat)
    requires OpenSince(reports, n)
    ensures 0 < n <= |reports| && reports[n - 1].Failure?
  {
  }

  /** An opening that nothing has ended is what the circuit shows. */
  lemma {:induction false} OpenShows(reports: seq<Report>, n: nat)
    requires OpenSince(reports, n)
    ensures IsOpen(HearAll(reports))
    ensures HearAll(reports).value.openUntil == Until(reports[..n - 1], reports[n - 1])
  {
    hide HearAll, Streak, TripCount, Opens, Ends, Until;
    var before, e := reports[..|reports| - 1], reports[|reports| - 1];
    assert reports == before + [e];
    OpenStep(before, e);
    if n <= |before| {
      OpenedBefore(before, e, n);
      OpenShows(before, n);
    }
  }

  /** A source that is open was opened by a report that nothing has ended. */
  lemma {:induction false} OpenHasReason(reports: seq<Report>)
    requires IsOpen(HearAll(reports))
    ensures exists n: nat :: OpenSince(reports, n)
  {
    hide HearAll, Streak, TripCount, Opens, Ends, Until, OpenSince;
    if reports == [] {
      Silence();
    } else {
      var before, e := reports[..|reports| - 1], reports[|reports| - 1];
      assert reports == before + [e];
      OpenStep(before, e);
      OpenedNow(before, e);
      if !Opens(before, e) {
        OpenHasReason(before);
        var n: nat :| OpenSince(before, n);
        OpenBounds(before, n);
        OpenShows(before, n);
        OpenedBefore(before, e, n);
      }
    }
  }

  lemma NoneLater(reports: seq<Report>, n: nat, m: nat)
    requires OpenSince(reports, n) && n < m <= |reports|
    ensures !OpenSince(reports, m)
  {
    hide Opens, Ends, Until;
    var later := m - 1;
    assert n <= later < |reports|;
  }

  lemma OneOpening(reports: seq<Report>, m: nat, n: nat)
    requires OpenSince(reports, m) && OpenSince(reports, n)
    ensures m == n
  {
    hide OpenSince;
    OpenBounds(reports, m);
    OpenBounds(reports, n);
    if m < n {
      NoneLater(reports, m, n);
    } else if n < m {
      NoneLater(reports, n, m);
    }
  }

  /** Over every sequence of reports: a source is refused exactly when a failure opened it, nothing
      since has ended that or opened it anew, the question is put under the pinned configuration, and
      the failure was a configuration one whose path is still gone, or a timed trip, its k-th, less
      than min(300 * 2^(k-1), 1800) seconds ago. */
  lemma RefusedExactly(reports: seq<Report>, digest: string, now: real, pathExists: bool)
    ensures !SourceAllows(HearAll(reports), digest, now, pathExists) <==>
            && SameConfiguration(reports, digest)
            && exists n: nat :: OpenSince(reports, n) &&
                 match reports[n - 1].kind
                 case CONFIGURATION => !pathExists
                 case TRANSIENT =>
                   now < reports[n - 1].at + Min(300.0 * Pow2(TripCount(reports[..n - 1])), 1800.0)
  {
    hide HearAll, Streak, TripCount, Opens, Ends, OpenSince, Pinned, Known;
    SourceTracks(reports);
    if n: nat :| OpenSince(reports, n) {
      OpenBounds(reports, n);
      OpenShows(reports, n);
      forall m: nat | OpenSince(reports, m)
        ensures m == n
      {
        OneOpening(reports, m, n);
      }
    } else if IsOpen(HearAll(reports)) {
      OpenHasReason(reports);
    }
  }

  /** An ask that is refused changes nothing; one that is admitted under the pinned configuration while
      the source is open half-opens it; no other ask changes anything. */
  lemma AskedExactly(reports: seq<Report>, digest: string, now: real, pathExists: bool)
    ensures var c, d := HearAll(reports), HearAll(reports + [Ask(digest, now, pathExists)]);
            var allowed := SourceAllows(c, digest, now, pathExists);
            && (d.Some? <==> c.Some?)
            && (allowed && SameConfiguration(reports, digest) && (exists n: nat :: OpenSince(reports, n)) ==>
                  c.Some? && d == Some(c.value.(state := HALF_OPEN)))
            && (!(allowed && SameConfiguration(reports, digest) && exists n: nat :: OpenSince(reports, n)) ==>
                  d == c)
  {
    hide HearAll, Streak, TripCount, Opens, Ends, OpenSince, Pinned, Known;
    SourceTracks(reports);
    OneMore(reports, Ask(digest, now, pathExists));
    if n: nat :| OpenSince(reports, n) {
      OpenShows(reports, n);
    } else if IsOpen(HearAll(reports)) {
      OpenHasReason(reports);
    }
  }

  /** After the k-th timed trip of a source, with nothing since but asks that came too early or were of
      another configuration: an ask under the pinned configuration is refused and changes nothing for
      exactly min(300 * 2^(k-1), 1800) seconds, and from then on is admitted and finds it half open. */
  lemma TimedTripRefusesExactly(before: seq<Report>, e: Report, more: seq<Report>, digest: string, now: real,
          pathExists: bool)
    requires Trips(before, e) && SameConfiguration(before + [e], digest)
    requires var over := e.at + Min(300.0 * Pow2(TripCount(before)), 1800.0);
             forall x :: x in more ==> x.Ask? && (x.at < over || !SameConfiguration(before + [e], x.config))
    ensures var k := TripCount(before + [e]);
            var over := e.at + Min(300.0 * Pow2(TripCount(before)), 1800.0);
            var c := HearAll(before + [e] + more);
            var d := HearAll(before + [e] + more + [Ask(digest, now, pathExists)]);
            && k == TripCount(before) + 1
            && (SourceAllows(c, digest, now, pathExists) <==> now >= over)
            && (now < over ==> d == c)
            && (now >= over ==> d.Some? && d.value.state == HALF_OPEN)
  {
    hide HearAll, Streak, TripCount, Pinned, Known, OpenSince, Opens, Ends, Trips;
    OneMore(before, e);
    EarlyKeepsOpen(before, e, more);
    var reports := before + [e] + more;
    OpenShows(reports, |before| + 1);
    SourceTracks(reports);
    OneMore(reports, Ask(digest, now, pathExists));
  }

  lemma {:induction false} EarlyKeepsOpen(before: seq<Report>, e: Report, more: seq<Report>)
    requires Trips(before, e)
    requires var over := e.at + Min(300.0 * Pow2(TripCount(before)), 1800.0);
             forall x :: x in more ==> x.Ask? && (x.at < over || !SameConfiguration(before + [e], x.config))
    ensures OpenSince(before + [e] + more, |before| + 1)
    ensures Pinned(before + [e] + more) == Pinned(before + [e])
    ensures (before + [e] + more)[..|before|] == before && (before + [e] + more)[|before|] == e
    ensures e.kind == TRANSIENT
  {
    hide Streak, TripCount, Pinned, Known, OpenSince;
    var all, n := before + [e] + more, |before| + 1;
    assert all[..|before|] == before && all[|before|] == e;
    if more == [] {
      assert all == before + [e];
      OpenedNow(before, e);
    } else {
      var rest, x := more[..|more| - 1], more[|more| - 1];
      assert x in more && all == before + [e] + rest + [x];
      EarlyKeepsOpen(before, e, rest);
      OneMore(before + [e] + rest, x);
      OpenedBefore(before + [e] + rest, x, n);
    }
  }

  // ---------------------------------------------------------------------------
  // Half open
  // ---------------------------------------------------------------------------

  /** Whatever was reported: a transient failure opens a source that is not timed already for a time
      exactly when it is at least the fifth failure since the last success or new configuration. */
  lemma SourceTripsExactly(before: seq<Report>, digest: Option<string>, at: real)
    requires HearAll(before).Some? ==> !Timed(HearAll(before).value)
    ensures var e := Failure(TRANSIENT, digest, at);
            && HearAll(before + [e]).Some?
            && (Timed(HearAll(before + [e]).value) <==> Streak(before + [e]) >= CIRCUIT_TRIP_THRESHOLD)
  {
    hide HearAll, Streak, TripCount, TripSeconds;
    SourceTracks(before);
    OneMore(before, Failure(TRANSIENT, digest, at));
  }

  /** A failed probe reopens the source exactly when it is at least the fifth failure of its streak;
      otherwise the source stays half open, or is closed when the failure is of a new configuration. */
  lemma FailedProbe(before: seq<Report>, digest: Option<string>, at: real)
    requires HearAll(before).Some? && HearAll(before).value.state == HALF_OPEN
    ensures var e := Failure(TRANSIENT, digest, at);
            var after := HearAll(before + [e]);
            && after.Some?
            && (after.value.state == OPEN <==> Streak(before + [e]) >= CIRCUIT_TRIP_THRESHOLD)
            && (after.value.state == OPEN <==> Timed(after.value))
            && (after.value.state == CLOSED <==> Reconfigures(before, e))
            && (after.value.state == HALF_OPEN <==>
                  Streak(before) + 1 < CIRCUIT_TRIP_THRESHOLD && !Reconfigures(before, e))
  {
    hide HearAll, Streak, TripCount, TripSeconds;
    SourceTracks(before);
    OneMore(before, Failure(TRANSIENT, digest, at));
  }

  /** How many reports there were up to and with the last that opened the circuit. */
  function LastOpening(reports: seq<Report>): (n: nat)
    ensures n <= |reports|
  {
    if reports == [] then 0
    else if Opens(reports[..|reports| - 1], reports[|reports| - 1]) then |reports|
    else LastOpening(reports[..|reports| - 1])
  }

  /** The last opening was a timed trip, or a configuration failure that was itself at least the fifth
      of its streak. */
  predicate OpenedByFive(reports: seq<Report>) {
    var n := LastOpening(reports);
    n > 0 && reports[n - 1].Failure? &&
    match reports[n - 1].kind
    case TRANSIENT => Trips(reports[..n - 1], reports[n - 1])
    case CONFIGURATION => Streak(reports[..n]) >= CIRCUIT_TRIP_THRESHOLD
  }

  lemma MoreReports(before: seq<Report>, e: Report)
    ensures var all := before + [e];
            && LastOpening(all) == (if Opens(before, e) then |all| else LastOpening(before))
            && (!Opens(before, e) ==> (OpenedByFive(all) <==> OpenedByFive(before)))
            && (Opens(before, e) ==> (OpenedByFive(all) <==> Streak(all) >= CIRCUIT_TRIP_THRESHOLD))
  {
    hide Streak, Trips;
    var all := before + [e];
    assert all[..|before|] == before;
    if Opens(before, e) {
      assert all[..|all|] == all;
      TripsMeans(before, e);
    } else {
      var n := LastOpening(before);
      if n > 0 {
        assert all[..n] == before[..n] && all[..n - 1] == before[..n - 1];
      }
    }
  }

  lemma TripsMeans(before: seq<Report>, e: Report)
    ensures Trips(before, e) ==> e.Failure? && e.kind == TRANSIENT && Streak(before + [e]) >= CIRCUIT_TRIP_THRESHOLD
  {
  }

  /** Over every sequence of reports: a source that is open or half open has been opened, and has five
      failures behind it exactly when its last opening was a timed trip, or a configuration failure
      that was itself at least the fifth of its streak. */
  lemma {:induction false} HalfOpenHasFiveExactly(reports: seq<Report>)
    requires HearAll(reports).Some? && HearAll(reports).value.state != CLOSED
    ensures LastOpening(reports) > 0
    ensures HearAll(reports).value.consecutive == Streak(reports)
    ensures HearAll(reports).value.consecutive >= CIRCUIT_TRIP_THRESHOLD <==> OpenedByFive(reports)
  {
    hide HearAll, Streak, TripCount, LastOpening, OpenedByFive, TripSeconds;
    if reports == [] {
      Silence();
    } else {
      var before, e := reports[..|reports| - 1], reports[|reports| - 1];
      assert reports == before + [e];
      SourceTracks(reports);
      SourceTracks(before);
      OneMore(before, e);
      MoreReports(before, e);
      StaysOpen(before, e);
      if !Opens(before, e) {
        HalfOpenHasFiveExactly(before);
      }
    }
  }

  /** A report that opens nothing and leaves the circuit open or half open found it so, and keeps which
      side of five the streak is on. */
  lemma StaysOpen(before: seq<Report>, e: Report)
    ensures HearAll(before + [e]).Some? && HearAll(before + [e]).value.state != CLOSED && !Opens(before, e) ==>
              && HearAll(before).Some? && HearAll(before).value.state != CLOSED
              && (Streak(before + [e]) >= CIRCUIT_TRIP_THRESHOLD <==> Streak(before) >= CIRCUIT_TRIP_THRESHOLD)
  {
    hide HearAll, Streak, TripCount, TripSeconds;
    SourceTracks(before);
    OneMore(before, e);
  }

  /** Unlike the backend's, a source can be half open with fewer than five failures behind it, and a
      failed probe then leaves it half open. */
  lemma HalfOpenWithoutStreak(at: real, digest: string)
    ensures var reports := [Failure(CONFIGURATION, Some(digest), at), Ask(digest, at, true)];
            && HearAll(reports).Some? && HearAll(reports).value.state == HALF_OPEN
            && HearAll(reports).value.consecutive == 1
            && HearAll(reports + [Failure(TRANSIENT, Some(digest), at)]).value.state == HALF_OPEN
  {
    hide Streak, TripCount, HearAll;
    var dead, ask := Failure(CONFIGURATION, Some(digest), at), Ask(digest, at, true);
    var probe := Failure(TRANSIENT, Some(digest), at);
    Silence();
    OneMore([], dead);
    assert [] + [dead] == [dead];
    OneMore([dead], ask);
    assert [dead] + [ask] == [dead, ask];
    OneMore([dead, ask], probe);
  }

  lemma Silence()
    ensures HearAll([]) == None
  {
  }
}
