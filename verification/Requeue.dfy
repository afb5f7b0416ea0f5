/** Reactivation of refused units: one bounded pass over the journal, whose dry run predicts the
    real one.

    Source: `_decide`, `_apply`, `_plan` of `tools/saipal_analyst/requeue.py`. */
module Requeue {
  import opened Options
  import Deliberation
  import opened Jobs
  import Driver

  const MAX_HISTORY := 8

  /** What has to change for another attempt to be worth paying for. */
  datatype Material = Material(configDigest: string, backendType: string, model: string)

  datatype Entry = Entry(
    cause: ErrorClass, forced: bool, material: Material, transportAttempts: nat,
    responseDigest: Option<string>, criticDigest: Option<string>, finalizerDigest: Option<string>)

  /** A journal entry, with the session it belongs to and its requeue history. */
  datatype Unit = Unit(id: string, session: string, job: Job, requeues: seq<Entry>)

  datatype Reason = OwnPath(stage: Stage) | NotIndexed | BudgetSpent | SameMaterial

  datatype Decision = Requeued | Refused(why: Reason) | NotApplicable

  /** BLOCKED_BINDING, REMOTE_OUTCOME_UNKNOWN and STALE have their own canonical path. */
  predicate OtherStage(s: Stage) { s.BLOCKED_BINDING? || s.REMOTE_OUTCOME_UNKNOWN? || s.STALE? }

  function Decide(u: Unit, material: Material, maxRequeues: nat, force: bool): Decision {
    if u.job.stage != BLOCKED then
      if OtherStage(u.job.stage) then Refused(OwnPath(u.job.stage)) else NotApplicable
    else if |u.requeues| >= maxRequeues && !force then Refused(BudgetSpent)
    else if u.requeues != [] && !force && u.requeues[|u.requeues| - 1].material == material then Refused(SameMaterial)
    else Requeued
  }

  function Bounded(history: seq<Entry>): seq<Entry> {
    if |history| <= MAX_HISTORY then history else history[|history| - MAX_HISTORY..]
  }

  function Apply(u: Unit, material: Material, forced: bool): Unit {
    var entry := Entry(u.job.error, forced, material, u.job.transportAttempts,
                       u.job.responseDigest, u.job.criticDigest, u.job.finalizerDigest);
    u.(job := Cleared(u.job), requeues := Bounded(u.requeues + [entry]))
  }

  /** A requeue does to the journal entry what the `Requeue` step of the driver's step system does
      to its disk: the unit is READY, empty, and its next action is a fresh call. */
  lemma ApplyIsDriverStep(u: Unit, material: Material, forced: bool, s: Driver.Sys, packet: Deliberation.Packet,
          maxRetries: nat, due: bool)
    requires s.pc.Down? && s.disk == u.job && u.job.stage == BLOCKED
    ensures var t := Driver.Step(s, Driver.Event.Requeue, packet, maxRetries);
            && t.disk == Apply(u, material, forced).job && t.requeues == s.requeues + 1
            && NextAction(t.disk, due) == DoCall && Tombstone(t.disk)
            && t.disk.transportAttempts == s.disk.transportAttempts
  {
    ClearedCallsAfresh(u.job, due);
  }

  /** A requeue adds one entry to the unit's history, for the refusal it clears, and keeps the seven before
      it; nothing else of the unit but its job changes. */
  lemma RequeueIsRecorded(u: Unit, material: Material, forced: bool)
    ensures var a := Apply(u, material, forced);
            var n := |a.requeues| - 1;
            && a.id == u.id && a.session == u.session && 0 <= n < 8
            && a.requeues[n].cause == u.job.error && a.requeues[n].forced == forced
            && a.requeues[n].material == material
            && a.requeues[n].transportAttempts == u.job.transportAttempts
            && a.requeues[n].responseDigest == u.job.responseDigest
            && a.requeues[n].criticDigest == u.job.criticDigest
            && a.requeues[n].finalizerDigest == u.job.finalizerDigest
            && a.requeues[..n] == if |u.requeues| < 8 then u.requeues else u.requeues[|u.requeues| - 7..]
  {
    hide Cleared;
  }

  // ---------------------------------------------------------------------------
  // One pass
  // ---------------------------------------------------------------------------

  datatype Line = Line(id: string, session: string, cause: ErrorClass, spent: nat)

  datatype Refusal = Refusal(id: string, session: string, why: Reason, spent: nat)

  /** Why a job is none of the requeue's business: its stage, or its class was not asked for. */
  datatype SkipKey = ByStage(stage: Stage) | ByClass(cause: ErrorClass)

  datatype Report = Report(
    scanned: nat, eligible: nat, requeued: seq<Line>, refused: seq<Refusal>,
    notApplicable: multiset<SkipKey>, byClass: multiset<ErrorClass>, remaining: nat)

  const BLANK := Report(0, 0, [], [], multiset{}, multiset{}, 0)

  datatype Order = Order(
    indexed: Option<set<string>>, material: Material, maxRequeues: nat,
    wanted: Option<set<ErrorClass>>, limit: Option<int>, force: bool)

  /** What the pass finds of one unit, before any limit. */
  datatype Finding = Skipped(key: SkipKey) | Turned(why: Reason) | Admitted

  function Find(u: Unit, o: Order): Finding {
    if u.job.stage != BLOCKED then
      if OtherStage(u.job.stage) then Turned(OwnPath(u.job.stage)) else Skipped(ByStage(u.job.stage))
    else if o.wanted.Some? && u.job.error !in o.wanted.value then Skipped(ByClass(u.job.error))
    else if o.indexed.Some? && u.session !in o.indexed.value then Turned(NotIndexed)
    else match Decide(u, o.material, o.maxRequeues, o.force)
         case Refused(why) => Turned(why)
         case _ => Admitted
  }

  predicate AtLimit(r: Report, o: Order) { o.limit.Some? && |r.requeued| >= o.limit.value }

  function LineOf(u: Unit): Line { Line(u.id, u.session, u.job.error, |u.requeues|) }

  /** The line of a unit that was cleared names the class it was refused for. */
  function ClearedLine(u: Unit, o: Order): Line {
    LineOf(u).(spent := |Apply(u, o.material, o.force).requeues|)
  }

  function Noted(r: Report, u: Unit, o: Order, apply: bool): Report {
    var seen := r.(scanned := r.scanned + 1);
    var counted :=
      if u.job.stage == BLOCKED && !Find(u, o).Skipped?
      then seen.(eligible := seen.eligible + 1, byClass := seen.byClass + multiset{u.job.error}) else seen;
    match Find(u, o)
    case Skipped(key) => counted.(notApplicable := counted.notApplicable + multiset{key})
    case Turned(why) => counted.(refused := counted.refused + [Refusal(u.id, u.session, why, |u.requeues|)])
    case Admitted =>
      if AtLimit(r, o) then counted.(remaining := counted.remaining + 1)
      else counted.(requeued := counted.requeued + [if apply then ClearedLine(u, o) else LineOf(u)])
  }

  function ReportOf(units: seq<Unit>, o: Order, apply: bool): Report {
    if units == [] then BLANK else Noted(ReportOf(units[..|units| - 1], o, apply), units[|units| - 1], o, apply)
  }

  /** The unit is one the pass requeues: admitted, and the limit not yet reached. */
  predicate Taken(units: seq<Unit>, o: Order, i: nat)
    requires i < |units|
  {
    Find(units[i], o).Admitted? && !AtLimit(ReportOf(units[..i], o, true), o)
  }

  function After(units: seq<Unit>, o: Order, i: nat): Unit
    requires i < |units|
  {
    if Taken(units, o, i) then Apply(units[i], o.material, o.force) else units[i]
  }

  // ---------------------------------------------------------------------------
  // Which units a pass requeues, and why it leaves the others
  // ---------------------------------------------------------------------------

  /** A refusal of a class that was asked for, or of any when none was named. */
  predicate Asked(u: Unit, o: Order) { u.job.stage == BLOCKED && (o.wanted.None? || u.job.error in o.wanted.value) }

  /** Such a unit is owed a requeue when it can be served and is forced, or has allowance left and new
      material. */
  predicate Owed(u: Unit, o: Order) {
    && Asked(u, o)
    && (o.indexed.None? || u.session in o.indexed.value)
    && (o.force || (&& |u.requeues| < o.maxRequeues
                    && (u.requeues == [] || u.requeues[|u.requeues| - 1].material != o.material)))
  }

  function Owing(units: seq<Unit>, o: Order): seq<Unit> {
    if units == [] then []
    else
      var n := |units| - 1;
      Owing(units[..n], o) + if Owed(units[n], o) then [units[n]] else []
  }

  /** The refusal reported of a unit, with its reason. */
  function RefusalOf(u: Unit, o: Order): seq<Refusal> {
    if u.job.stage in {BLOCKED_BINDING, REMOTE_OUTCOME_UNKNOWN, STALE}
    then [Refusal(u.id, u.session, OwnPath(u.job.stage), |u.requeues|)]
    else if !Asked(u, o) || Owed(u, o) then []
    else if o.indexed.Some? && u.session !in o.indexed.value
    then [Refusal(u.id, u.session, NotIndexed, |u.requeues|)]
    else if |u.requeues| >= o.maxRequeues then [Refusal(u.id, u.session, BudgetSpent, |u.requeues|)]
    else [Refusal(u.id, u.session, SameMaterial, |u.requeues|)]
  }

  /** What makes a unit none of the requeue's business. */
  function SkipOf(u: Unit, o: Order): multiset<SkipKey> {
    if u.job.stage == BLOCKED then if Asked(u, o) then multiset{} else multiset{ByClass(u.job.error)}
    else if u.job.stage in {BLOCKED_BINDING, REMOTE_OUTCOME_UNKNOWN, STALE} then multiset{}
    else multiset{ByStage(u.job.stage)}
  }

  function Refusals(units: seq<Unit>, o: Order): seq<Refusal> {
    if units == [] then [] else Refusals(units[..|units| - 1], o) + RefusalOf(units[|units| - 1], o)
  }

  function Skips(units: seq<Unit>, o: Order): multiset<SkipKey> {
    if units == [] then multiset{} else Skips(units[..|units| - 1], o) + SkipOf(units[|units| - 1], o)
  }

  /** The classes asked for that were found. */
  function Classes(units: seq<Unit>, o: Order): multiset<ErrorClass> {
    if units == [] then multiset{}
    else
      var n := |units| - 1;
      Classes(units[..n], o) + if Asked(units[n], o) then multiset{units[n].job.error} else multiset{}
  }

  /** How many of so many owed units a limit lets through. */
  function Let(owed: nat, limit: Option<int>): nat {
    if limit.None? || limit.value >= owed then owed else if limit.value < 0 then 0 else limit.value
  }

  /** The line reports the unit, with the requeues it has had: one more when it was made, up to eight. */
  predicate Reports(line: Line, u: Unit, apply: bool) {
    && line.id == u.id && line.session == u.session && line.cause == u.job.error
    && line.spent == if !apply then |u.requeues| else if |u.requeues| < 8 then |u.requeues| + 1 else 8
  }

  /** When a unit is owed a requeue: it is blocked for a class that was asked for, or any; its session is
      indexed, or no index was given; and it is forced, or has allowance left and its material is not
      that of its last requeue. */
  lemma OwedExactly(u: Unit, o: Order)
    ensures Asked(u, o) <==> u.job.stage == BLOCKED && (o.wanted.Some? ==> u.job.error in o.wanted.value)
    ensures Owed(u, o) <==>
              && u.job.stage == BLOCKED && (o.wanted.Some? ==> u.job.error in o.wanted.value)
              && (o.indexed.Some? ==> u.session in o.indexed.value)
              && (o.force || (|u.requeues| < o.maxRequeues
                              && (|u.requeues| > 0 ==> u.requeues[|u.requeues| - 1].material != o.material)))
  {
  }

  /** Why a unit that is not owed one is refused, or passed over. */
  lemma LeftExactly(u: Unit, o: Order)
    ensures var own := u.job.stage in {BLOCKED_BINDING, REMOTE_OUTCOME_UNKNOWN, STALE};
            var asked := u.job.stage == BLOCKED && (o.wanted.Some? ==> u.job.error in o.wanted.value);
            var indexed := o.indexed.Some? ==> u.session in o.indexed.value;
            && (own ==> RefusalOf(u, o) == [Refusal(u.id, u.session, OwnPath(u.job.stage), |u.requeues|)])
            && (asked && !indexed ==> RefusalOf(u, o) == [Refusal(u.id, u.session, NotIndexed, |u.requeues|)])
            && (asked && indexed && !o.force && |u.requeues| >= o.maxRequeues ==>
                  RefusalOf(u, o) == [Refusal(u.id, u.session, BudgetSpent, |u.requeues|)])
            && (asked && indexed && !o.force && 0 < |u.requeues| < o.maxRequeues
                && u.requeues[|u.requeues| - 1].material == o.material ==>
                  RefusalOf(u, o) == [Refusal(u.id, u.session, SameMaterial, |u.requeues|)])
            && (RefusalOf(u, o) != [] <==> own || (asked && !Owed(u, o)))
            && SkipOf(u, o) == if own || asked then multiset{}
                               else if u.job.stage == BLOCKED then multiset{ByClass(u.job.error)}
                               else multiset{ByStage(u.job.stage)}
  {
  }

  /** Of the owed units a pass takes as many as the limit lets through, from the first on. */
  lemma OwingExactly(units: seq<Unit>, o: Order, n: nat)
    requires n < |units|
    ensures Owing(units[..n + 1], o) == Owing(units[..n], o) + if Owed(units[n], o) then [units[n]] else []
    ensures Owing([], o) == []
    ensures forall owed: nat :: Let(owed, None) == owed
    ensures forall owed: nat, limit: int ::
              Let(owed, Some(limit)) == if limit <= 0 then 0 else if limit <= owed then limit else owed
  {
    hide Owed;
    assert units[..n + 1][..n] == units[..n];
  }

  lemma ReportsMeans(line: Line, u: Unit, apply: bool)
    requires Reports(line, u, apply)
    ensures line.id == u.id && line.session == u.session && line.cause == u.job.error
    ensures !apply ==> line.spent == |u.requeues|
    ensures apply ==> line.spent == if |u.requeues| >= 8 then 8 else |u.requeues| + 1
  {
  }

  /** The whole report: the first owed units up to the limit are requeued, the other owed ones remain, and
      every unit that is neither is refused or skipped for its own reason. */
  lemma {:induction false} ReportExactly(units: seq<Unit>, o: Order, apply: bool)
    ensures var r, owed := ReportOf(units, o, apply), Owing(units, o);
            && r.scanned == |units|
            && |r.requeued| == Let(|owed|, o.limit) && r.remaining == |owed| - |r.requeued|
            && (forall k :: 0 <= k < |r.requeued| ==> Reports(r.requeued[k], owed[k], apply))
            && r.refused == Refusals(units, o) && r.notApplicable == Skips(units, o)
            && r.byClass == Classes(units, o)
  {
    hide Noted, Owed, Asked, Find, Reports, RefusalOf, SkipOf;
    if units != [] {
      var n := |units| - 1;
      ReportExactly(units[..n], o, apply);
      NoteExactly(ReportOf(units[..n], o, apply), units[n], o, apply);
      NoteKind(units[n], o);
    }
  }

  lemma NoteKind(u: Unit, o: Order)
    ensures Find(u, o).Admitted? <==> Owed(u, o)
  {
  }

  lemma NoteExactly(r: Report, u: Unit, o: Order, apply: bool)
    ensures var t := Noted(r, u, o, apply);
            && t.scanned == r.scanned + 1
            && t.requeued == r.requeued + (if Owed(u, o) && !AtLimit(r, o) then [t.requeued[|t.requeued| - 1]] else [])
            && (Owed(u, o) && !AtLimit(r, o) ==> Reports(t.requeued[|t.requeued| - 1], u, apply))
            && t.remaining == r.remaining + (if Owed(u, o) && AtLimit(r, o) then 1 else 0)
            && t.refused == r.refused + RefusalOf(u, o)
            && t.notApplicable == r.notApplicable + SkipOf(u, o)
            && t.byClass == r.byClass + (if Asked(u, o) then multiset{u.job.error} else multiset{})
  {
    hide Apply, AtLimit, Find, Owed, Asked, RefusalOf, SkipOf, ClearedLine, LineOf, Reports;
    FindMeans(u, o);
    LinesReport(u, o);
    assert r.notApplicable + multiset{} == r.notApplicable && r.byClass + multiset{} == r.byClass;
    assert r.refused + [] == r.refused && r.requeued + [] == r.requeued;
  }

  lemma LinesReport(u: Unit, o: Order)
    ensures Reports(ClearedLine(u, o), u, true) && Reports(LineOf(u), u, false)
  {
    hide Apply;
    ClearedSpends(u, o.material, o.force);
  }

  /** What the pass finds of a unit, and what is owed it. */
  lemma FindMeans(u: Unit, o: Order)
    ensures match Find(u, o)
            case Skipped(key) => !Owed(u, o) && !Asked(u, o) && RefusalOf(u, o) == [] && SkipOf(u, o) == multiset{key}
            case Turned(why) =>
              && !Owed(u, o) && (Asked(u, o) <==> u.job.stage == BLOCKED)
              && RefusalOf(u, o) == [Refusal(u.id, u.session, why, |u.requeues|)] && SkipOf(u, o) == multiset{}
            case Admitted =>
              Owed(u, o) && Asked(u, o) && u.job.stage == BLOCKED && RefusalOf(u, o) == [] && SkipOf(u, o) == multiset{}
    ensures Asked(u, o) ==> u.job.stage == BLOCKED
  {
  }

  /** A real run changes exactly the owed units with fewer than `limit` owed units before them. */
  lemma ChangedExactly(units: seq<Unit>, o: Order, i: nat)
    requires i < |units|
    ensures After(units, o, i) != units[i] <==>
              Owed(units[i], o) && (o.limit.None? || |Owing(units[..i], o)| < o.limit.value)
  {
    hide Find, Owed, Owing, Apply, Reports;
    ReportExactly(units[..i], o, true);
    NoteKind(units[i], o);
    if Find(units[i], o).Admitted? {
      AdmittedIsBlocked(units[i], o);
      AppliedDiffers(units[i], o.material, o.force);
    }
  }

  lemma AdmittedIsBlocked(u: Unit, o: Order)
    requires Find(u, o).Admitted?
    ensures u.job.stage == BLOCKED
  {
  }

  class Journal {
    var units: seq<Unit>

    constructor (units: seq<Unit>)
      ensures this.units == units
    {
      this.units := units;
    }

    /** One deterministic pass in job order. It changes a unit only when it applies, and then only
        the ones it reports. */
    method Plan(o: Order, apply: bool) returns (report: Report)
      modifies this
      ensures report == ReportOf(old(units), o, apply)
      ensures |units| == old(|units|)
      ensures forall i :: 0 <= i < |units| ==> units[i] == if apply then After(old(units), o, i) else old(units)[i]
      ensures forall i :: 0 <= i < |units| ==>
                (units[i] != old(units)[i] <==>
                   && apply && Owed(old(units)[i], o)
                   && (o.limit.None? || |Owing(old(units)[..i], o)| < o.limit.value))
    {
      hide Decide, Apply, Find, Noted, Owed, Owing;
      ghost var was := units;
      report := BLANK;
      for i := 0 to |units|
        invariant |units| == |was|
        invariant report == ReportOf(was[..i], o, apply)
        invariant forall k :: i <= k < |was| ==> units[k] == was[k]
        invariant forall k :: 0 <= k < i ==> units[k] == if apply then After(was, o, k) else was[k]
      {
        assert was[..i + 1][..i] == was[..i];
        PlansAgree(was[..i], o);
        report := Judge(i, report, o, apply);
      }
      assert was[..|was|] == was;
      forall i | 0 <= i < |units|
        ensures After(was, o, i) != was[i] <==>
                  Owed(was[i], o) && (o.limit.None? || |Owing(was[..i], o)| < o.limit.value)
      {
        ChangedExactly(was, o, i);
      }
    }

    method Judge(i: nat, report0: Report, o: Order, apply: bool) returns (report: Report)
      requires i < |units|
      modifies this
      ensures report == Noted(report0, old(units[i]), o, apply)
      ensures units == if apply && Find(old(units[i]), o).Admitted? && !AtLimit(report0, o)
                       then old(units)[i := Apply(old(units[i]), o.material, o.force)] else old(units)
    {
      hide Decide, Apply, OtherStage;
      var u := units[i];
      report := report0.(scanned := report0.scanned + 1);
      if u.job.stage != BLOCKED {
        if OtherStage(u.job.stage) {
          report := report.(refused := report.refused + [Refusal(u.id, u.session, OwnPath(u.job.stage), |u.requeues|)]);
        } else {
          report := report.(notApplicable := report.notApplicable + multiset{ByStage(u.job.stage)});
        }
        return;
      }
      if o.wanted.Some? && u.job.error !in o.wanted.value {
        report := report.(notApplicable := report.notApplicable + multiset{ByClass(u.job.error)});
        return;
      }
      report := report.(eligible := report.eligible + 1, byClass := report.byClass + multiset{u.job.error});
      if o.indexed.Some? && u.session !in o.indexed.value {
        report := report.(refused := report.refused + [Refusal(u.id, u.session, NotIndexed, |u.requeues|)]);
        return;
      }
      var decision := Decide(u, o.material, o.maxRequeues, o.force);
      if decision.Refused? {
        report := report.(refused := report.refused + [Refusal(u.id, u.session, decision.why, |u.requeues|)]);
      } else if o.limit.Some? && |report.requeued| >= o.limit.value {
        report := report.(remaining := report.remaining + 1);
      } else if !apply {
        report := report.(requeued := report.requeued + [Line(u.id, u.session, u.job.error, |u.requeues|)]);
      } else {
        var cleared := Apply(u, o.material, o.force);
        units := units[i := cleared];
        report := report.(requeued := report.requeued + [Line(u.id, u.session, u.job.error, |cleared.requeues|)]);
      }
    }
  }

  // ---------------------------------------------------------------------------
  // The dry run predicts the real run
  // ---------------------------------------------------------------------------

  /** Two lists name the same requeues; only the spent counter may differ. */
  predicate SameRequeues(a: seq<Line>, b: seq<Line>) {
    |a| == |b| && forall i :: 0 <= i < |a| ==> a[i] == b[i].(spent := a[i].spent)
  }

  /** The dry run lists the same requeued, refused, not-applicable and remaining jobs as the real run. */
  lemma {:induction false} PlansAgree(units: seq<Unit>, o: Order)
    ensures var d, r := ReportOf(units, o, false), ReportOf(units, o, true);
            && d == r.(requeued := d.requeued) && SameRequeues(d.requeued, r.requeued)
  {
    hide Noted, SameRequeues;
    if units == [] {
      NoneRequeued();
    } else {
      var n := |units| - 1;
      PlansAgree(units[..n], o);
      NotesAgree(ReportOf(units[..n], o, false), ReportOf(units[..n], o, true), units[n], o);
    }
  }

  lemma NoneRequeued()
    ensures SameRequeues([], [])
  {
  }

  lemma NotesAgree(d: Report, r: Report, u: Unit, o: Order)
    requires d == r.(requeued := d.requeued) && SameRequeues(d.requeued, r.requeued)
    ensures var d', r' := Noted(d, u, o, false), Noted(r, u, o, true);
            d' == r'.(requeued := d'.requeued) && SameRequeues(d'.requeued, r'.requeued)
  {
    hide Decide, Apply, Find;
  }

  lemma ClearedSpends(u: Unit, material: Material, forced: bool)
    ensures |Apply(u, material, forced).requeues|
         == if |u.requeues| < MAX_HISTORY then |u.requeues| + 1 else MAX_HISTORY
  {
  }

  /** The lists do not agree on `requeues_spent`: the real run counts the requeue it just made, up
      to the history bound. */
  lemma {:induction false} SpentDiffers(units: seq<Unit>, o: Order, i: nat)
    requires i < |ReportOf(units, o, false).requeued|
    ensures i < |ReportOf(units, o, true).requeued|
    ensures var dry := ReportOf(units, o, false).requeued[i].spent;
            ReportOf(units, o, true).requeued[i].spent == if dry < MAX_HISTORY then dry + 1 else MAX_HISTORY
  {
    hide Decide, Apply, Find, Noted, AtLimit;
    PlansAgree(units, o);
    if units != [] {
      var before, u := units[..|units| - 1], units[|units| - 1];
      PlansAgree(before, o);
      NotedLine(ReportOf(before, o, false), u, o, false);
      NotedLine(ReportOf(before, o, true), u, o, true);
      ClearedSpends(u, o.material, o.force);
      if i < |ReportOf(before, o, false).requeued| {
        SpentDiffers(before, o, i);
      }
    }
  }

  lemma NotedLine(r: Report, u: Unit, o: Order, apply: bool)
    ensures Noted(r, u, o, apply).requeued == r.requeued
         || Noted(r, u, o, apply).requeued == r.requeued + [if apply then ClearedLine(u, o) else LineOf(u)]
  {
    hide Decide, Apply;
  }

  /** Every scanned job is accounted for exactly once, and the limit is kept. */
  lemma {:induction false} PlanConserves(units: seq<Unit>, o: Order, apply: bool)
    ensures var r := ReportOf(units, o, apply);
            && r.scanned == |units| == |r.requeued| + |r.refused| + |r.notApplicable| + r.remaining
            && |r.byClass| == r.eligible
            && |r.requeued| + r.remaining <= r.eligible <= r.scanned
            && (o.limit.Some? && o.limit.value >= 0 ==> |r.requeued| <= o.limit.value)
            && (r.remaining > 0 ==> AtLimit(r, o))
  {
    hide Noted;
    if units != [] {
      var n := |units| - 1;
      PlanConserves(units[..n], o, apply);
      OneNote(ReportOf(units[..n], o, apply), units[n], o, apply);
    }
  }

  /** One unit adds one to one of the four parts. */
  lemma OneNote(r: Report, u: Unit, o: Order, apply: bool)
    ensures var t := Noted(r, u, o, apply);
            && t.scanned == r.scanned + 1
            && |t.requeued| + |t.refused| + |t.notApplicable| + t.remaining
               == |r.requeued| + |r.refused| + |r.notApplicable| + r.remaining + 1
            && |t.byClass| - |r.byClass| == t.eligible - r.eligible
            && 0 <= t.eligible - r.eligible <= 1
            && |t.requeued| + t.remaining - |r.requeued| - r.remaining <= t.eligible - r.eligible
            && (|t.requeued| == |r.requeued| || (|t.requeued| == |r.requeued| + 1 && !AtLimit(r, o)))
            && (t.remaining > r.remaining ==> AtLimit(r, o))
            && (AtLimit(r, o) ==> AtLimit(t, o))
  {
    hide Decide, Apply;
  }

  function Ids(lines: seq<Line>): seq<string> {
    if lines == [] then [] else Ids(lines[..|lines| - 1]) + [lines[|lines| - 1].id]
  }

  /** The ids of the units that a real run leaves changed, in order. */
  function ChangedIds(units: seq<Unit>, o: Order, n: nat): seq<string>
    requires n <= |units|
  {
    if n == 0 then []
    else ChangedIds(units, o, n - 1) + if After(units, o, n - 1) != units[n - 1] then [units[n - 1].id] else []
  }

  lemma AppliedDiffers(u: Unit, material: Material, forced: bool)
    requires u.job.stage == BLOCKED
    ensures Apply(u, material, forced) != u
  {
    assert Apply(u, material, forced).job.stage == READY;
  }

  lemma IdsMore(lines: seq<Line>, line: Line)
    ensures Ids(lines + [line]) == Ids(lines) + [line.id]
  {
    assert (lines + [line])[..|lines|] == lines;
  }

  lemma OneMoreReported(units: seq<Unit>, o: Order, n: nat)
    requires n < |units|
    ensures ReportOf(units[..n + 1], o, true).requeued
         == ReportOf(units[..n], o, true).requeued + if Taken(units, o, n) then [ClearedLine(units[n], o)] else []
    ensures Taken(units, o, n) <==> After(units, o, n) != units[n]
  {
    hide Apply, Decide;
    assert units[..n + 1][..n] == units[..n];
    if Taken(units, o, n) {
      AppliedDiffers(units[n], o.material, o.force);
    }
  }

  /** A real run reports exactly the units it changed. */
  lemma {:induction false} ChangedAreReported(units: seq<Unit>, o: Order, n: nat)
    requires n <= |units|
    ensures Ids(ReportOf(units[..n], o, true).requeued) == ChangedIds(units, o, n)
  {
    hide Apply, Decide, ReportOf, Noted, Find, Taken, After, Ids;
    if n == 0 {
      NothingReported(units[..n], o);
    } else {
      ChangedAreReported(units, o, n - 1);
      OneMoreReported(units, o, n - 1);
      if Taken(units, o, n - 1) {
        IdsMore(ReportOf(units[..n - 1], o, true).requeued, ClearedLine(units[n - 1], o));
      } else {
        NothingMore(ReportOf(units[..n - 1], o, true).requeued);
      }
    }
  }

  lemma NothingMore(lines: seq<Line>)
    ensures lines + [] == lines
  {
  }

  lemma NothingReported(units: seq<Unit>, o: Order)
    requires units == []
    ensures Ids(ReportOf(units, o, true).requeued) == []
  {
  }

  // ---------------------------------------------------------------------------
  // The allowance over a unit's life
  // ---------------------------------------------------------------------------

  /** One attempt to requeue a unit that is BLOCKED again. */
  datatype Attempt = Attempt(job: Job, material: Material, force: bool)

  function Try(u: Unit, a: Attempt, maxRequeues: nat): Unit {
    var again := u.(job := a.job);
    if Decide(again, a.material, maxRequeues, a.force) == Requeued then Apply(again, a.material, a.force) else again
  }

  function Life(u: Unit, attempts: seq<Attempt>, maxRequeues: nat): Unit {
    if attempts == [] then u
    else Try(Life(u, attempts[..|attempts| - 1], maxRequeues), attempts[|attempts| - 1], maxRequeues)
  }

  predicate Unforced(u: Unit, a: Attempt, maxRequeues: nat) {
    !a.force && Decide(u.(job := a.job), a.material, maxRequeues, false) == Requeued
  }

  /** How many of the attempts were admitted without force. */
  function UnforcedCount(u: Unit, attempts: seq<Attempt>, maxRequeues: nat): nat {
    if attempts == [] then 0
    else
      var before, a := attempts[..|attempts| - 1], attempts[|attempts| - 1];
      UnforcedCount(u, before, maxRequeues) + if Unforced(Life(u, before, maxRequeues), a, maxRequeues) then 1 else 0
  }

  /** A durable allowance of at most eight binds over the whole life of a unit: whatever changes,
      crashes and forced requeues come between, no more than the allowance are admitted without
      force, and once the history is full none is. */
  lemma {:induction false} AllowanceBinds(u: Unit, attempts: seq<Attempt>, maxRequeues: nat)
    requires u.requeues == [] && maxRequeues <= 8
    ensures UnforcedCount(u, attempts, maxRequeues) <= maxRequeues
    ensures UnforcedCount(u, attempts, maxRequeues) <= |Life(u, attempts, maxRequeues).requeues| <= 8
  {
    if attempts != [] {
      AllowanceBinds(u, attempts[..|attempts| - 1], maxRequeues);
    }
  }

  const FIRST := Material("a", "", "")
  const SECOND := Material("b", "", "")

  function Nth(n: nat): Attempt { Attempt(NEW_JOB.(stage := BLOCKED), if n % 2 == 0 then FIRST else SECOND, false) }

  function Alternating(n: nat): seq<Attempt> { if n == 0 then [] else Alternating(n - 1) + [Nth(n)] }

  lemma TryFresh(u: Unit, a: Attempt, maxRequeues: nat)
    requires |u.requeues| <= MAX_HISTORY < maxRequeues && !a.force && a.job.stage == BLOCKED
    requires u.requeues != [] ==> u.requeues[|u.requeues| - 1].material != a.material
    ensures Unforced(u, a, maxRequeues)
    ensures var h := Try(u, a, maxRequeues).requeues; 0 < |h| <= MAX_HISTORY && h[|h| - 1].material == a.material
  {
  }

  /** A larger allowance never binds: history is cut to eight and the allowance counts history, so
      any number of unforced requeues is admitted while the material alternates. So the allowance
      limits the unforced requeues of every unit exactly when it is at most eight. */
  lemma {:induction false} LargerAllowanceNeverBinds(u: Unit, n: nat, maxRequeues: nat)
    requires u.requeues == [] && maxRequeues > MAX_HISTORY
    ensures |Alternating(n)| == n && UnforcedCount(u, Alternating(n), maxRequeues) == n
    ensures var h := Life(u, Alternating(n), maxRequeues).requeues;
            && |h| <= MAX_HISTORY && (n == 0 ==> h == [])
            && (n > 0 ==> |h| > 0 && h[|h| - 1].material == if n % 2 == 0 then FIRST else SECOND)
  {
    hide Try, Unforced, Life, UnforcedCount;
    if n == 0 {
      NoAttempts(u, maxRequeues);
    } else {
      var before, a := Alternating(n - 1), Nth(n);
      LargerAllowanceNeverBinds(u, n - 1, maxRequeues);
      OneMoreAttempt(u, before, a, maxRequeues);
      TryFresh(Life(u, before, maxRequeues), a, maxRequeues);
    }
  }

  lemma NoAttempts(u: Unit, maxRequeues: nat)
    ensures Life(u, [], maxRequeues) == u && UnforcedCount(u, [], maxRequeues) == 0
  {
  }

  lemma OneMoreAttempt(u: Unit, before: seq<Attempt>, a: Attempt, maxRequeues: nat)
    ensures Life(u, before + [a], maxRequeues) == Try(Life(u, before, maxRequeues), a, maxRequeues)
    ensures UnforcedCount(u, before + [a], maxRequeues)
         == UnforcedCount(u, before, maxRequeues)
            + if Unforced(Life(u, before, maxRequeues), a, maxRequeues) then 1 else 0
  {
    hide Try, Unforced;
    assert (before + [a])[..|before|] == before;
  }

  predicate MaterialMoves(history: seq<Entry>) {
    forall i :: 0 < i < |history| && !history[i].forced ==> history[i].material != history[i - 1].material
  }

  /** In every history, a requeue that was not forced changed the material of the one before it. */
  lemma {:induction false} MaterialAlwaysMoves(u: Unit, attempts: seq<Attempt>, maxRequeues: nat)
    requires MaterialMoves(u.requeues)
    ensures MaterialMoves(Life(u, attempts, maxRequeues).requeues)
  {
    if attempts != [] {
      var before := attempts[..|attempts| - 1];
      MaterialAlwaysMoves(u, before, maxRequeues);
      TryMoves(Life(u, before, maxRequeues), attempts[|attempts| - 1], maxRequeues);
    }
  }

  lemma TryMoves(u: Unit, a: Attempt, maxRequeues: nat)
    requires MaterialMoves(u.requeues)
    ensures MaterialMoves(Try(u, a, maxRequeues).requeues)
  {
  }
}
