/** How a unit settles: the last proof of a DONE job survives compaction. */
module DriverSettlement {
  import opened Options
  import opened Deliberation
  import opened Jobs
  import opened Driver
  import opened DriverShape

  // ---------------------------------------------------------------------------
  // Compaction never loses the last proof
  // ---------------------------------------------------------------------------

  /** A record computed from an uncompacted submission that earned this receipt. */
  ghost predicate Proved(r: Candidate, rec: Record, submitted: seq<Job>) {
    exists i :: 0 <= i < |submitted| && submitted[i].candidate == Some(r) && rec == RecordOf(submitted[i])
  }

  function AsDone(j: Job): Job { j.(stage := DONE, receipt := j.candidate) }

  /** The job still is one of its own submissions, payload and all. */
  ghost predicate HoldsPayload(j: Job, submitted: seq<Job>) {
    exists i :: 0 <= i < |submitted| && submitted[i].candidate.Some? && j == AsDone(submitted[i])
  }

  ghost predicate Settles(s: Sys) {
    && WellFormed(s)
    && (forall r :: r in s.prov ==> Proved(r, s.prov[r], s.submitted))
    && (s.pc.Submitting? || s.pc.Committed? || s.pc.Recorded? ==>
          s.submitted != [] && s.submitted[|s.submitted| - 1] == s.disk)
    && (s.disk.stage == DONE ==>
          s.disk.receipt.Some? && (HoldsPayload(s.disk, s.submitted) || s.disk.receipt.value in s.prov))
    && (s.pc == Recorded(true) ==> s.mem.receipt.value in s.prov)
    && (s.pc == Compacting ==> s.disk.receipt.Some? && s.disk.receipt.value in s.prov)
  }

  lemma ProofGrows(s: Sys, t: Sys)
    requires s.submitted <= t.submitted
    ensures forall r, rec :: Proved(r, rec, s.submitted) ==> Proved(r, rec, t.submitted)
    ensures forall j :: HoldsPayload(j, s.submitted) ==> HoldsPayload(j, t.submitted)
  {
  }

  /** A step that commits nothing and settles nothing as DONE. */
  predicate Quiet(s: Sys, t: Sys) {
    && t.prov == s.prov
    && (t.disk.stage == DONE ==> t.disk == s.disk)
    && !t.pc.Compacting? && t.pc != Recorded(true)
    && (t.submitted == s.submitted || t.submitted == s.submitted + [t.disk])
    && (t.pc.Submitting? || t.pc.Committed? || t.pc.Recorded? ==>
          (s.pc.Submitting? && t.disk == s.disk && t.submitted == s.submitted) || t.submitted == s.submitted + [t.disk])
  }

  lemma QuietSettles(s: Sys, t: Sys)
    requires Settles(s) && Quiet(s, t) && WellFormed(t)
    ensures Settles(t)
  {
    ProofGrows(s, t);
  }

  lemma QuietDrive(s: Sys, e: Event, packet: Packet)
    requires WellFormed(s) && Driving(s.pc)
    ensures Quiet(s, Drive(s, e, packet))
  {
    FramedDrive(s, e, packet);
  }

  lemma QuietGate(s: Sys, e: Event)
    requires WellFormed(s) && Gating(s.pc)
    ensures Quiet(s, AtGate(s, e))
  {
    assert s.mem == s.disk && s.disk.stage != DONE;
    match s.pc.role
    case Investigator =>
    case Critic =>
    case Finalizer =>
  }

  lemma QuietWire(s: Sys, e: Event)
    requires WellFormed(s) && OnWire(s.pc)
    ensures Quiet(s, Wire(s, e))
  {
    hide WellFormed;
  }

  lemma QuietAbsorb(s: Sys, e: Event, maxRetries: nat)
    requires WellFormed(s) && Absorbing(s.pc)
    ensures Quiet(s, Absorb(s, e, maxRetries))
  {
    hide WellFormed, Legal;
    AtCall(s);
    if s.pc.Failed? {
      FailureRestages(s, maxRetries);
    } else {
      match s.pc.call.role
      case Investigator =>
      case Critic =>
      case Finalizer =>
    }
  }

  lemma QuietSubmit(s: Sys, e: Event, maxRetries: nat)
    requires WellFormed(s) && s.pc.Submitting?
    ensures Quiet(s, Finish(s, e, maxRetries))
  {
    assert s.mem == s.disk && s.disk.stage == SUBMITTING;
  }

  lemma SettlesCommit(s: Sys, e: Event, maxRetries: nat)
    requires Settles(s) && (s.pc.Committed? || s.pc.Recorded? || s.pc.Compacting?)
    ensures Settles(Finish(s, e, maxRetries))
  {
    WellFormedFinish(s, e, maxRetries);
    assert s.pc.Committed? || s.pc.Recorded? ==>
             s.mem == s.disk.(receipt := s.disk.candidate) && s.disk.candidate.Some?;
    if s.pc.Committed? && e.Provenance? && e.ok {
      assert RecordOf(s.mem) == RecordOf(s.disk);
      assert Proved(s.mem.receipt.value, RecordOf(s.mem), s.submitted);
    } else if s.pc.Recorded? && e.Tick? {
      assert s.mem.(stage := DONE) == AsDone(s.submitted[|s.submitted| - 1]);
      assert HoldsPayload(s.mem.(stage := DONE), s.submitted);
    }
  }

  lemma SettlesDown(s: Sys, e: Event)
    requires Settles(s) && s.pc.Down?
    ensures Settles(WhenDown(s, e))
  {
    WellFormedDown(s, e);
    if e.Reconcile? && s.disk.stage == DONE && s.disk.receipt.value !in s.prov {
      var i :| 0 <= i < |s.submitted| && s.submitted[i].candidate.Some? && s.disk == AsDone(s.submitted[i]);
      assert RecordOf(s.disk) == RecordOf(s.submitted[i]);
      assert Proved(s.disk.receipt.value, RecordOf(s.disk), s.submitted);
    }
  }

  lemma SettlesStep(s: Sys, e: Event, packet: Packet, maxRetries: nat)
    requires Settles(s)
    ensures Settles(Step(s, e, packet, maxRetries))
  {
    hide Settles, Quiet, WellFormed, Fall, WhenDown, Drive, AtGate, Wire, Absorb, Finish;
    var t := Step(s, e, packet, maxRetries);
    SettlesShaped(s);
    WellFormedStep(s, e, packet, maxRetries);
    if e.Crash? {
      SettlesFall(s);
    } else if s.pc.Down? {
      SettlesDown(s, e);
    } else if s.pc.Committed? || s.pc.Recorded? || s.pc.Compacting? {
      SettlesCommit(s, e, maxRetries);
    } else {
      if Driving(s.pc) {
        QuietDrive(s, e, packet);
      } else if Gating(s.pc) {
        QuietGate(s, e);
      } else if OnWire(s.pc) {
        QuietWire(s, e);
      } else if Absorbing(s.pc) {
        QuietAbsorb(s, e, maxRetries);
      } else {
        QuietSubmit(s, e, maxRetries);
      }
      QuietSettles(s, t);
    }
  }

  lemma SettlesShaped(s: Sys)
    requires Settles(s)
    ensures WellFormed(s)
  {
  }

  lemma SettlesFall(s: Sys)
    requires Settles(s)
    ensures Settles(Fall(s))
  {
    assert WellFormed(Fall(s));
  }

  lemma {:induction false} SettlesRun(policy: Policy, events: seq<Event>, packet: Packet, maxRetries: nat)
    ensures Settles(Run(Initial(policy), events, packet, maxRetries))
  {
    hide Settles, Step;
    if events == [] {
      StartSettles(policy);
    } else {
      var before := events[..|events| - 1];
      SettlesRun(policy, before, packet, maxRetries);
      SettlesStep(Run(Initial(policy), before, packet, maxRetries), events[|events| - 1], packet, maxRetries);
    }
  }

  lemma StartSettles(policy: Policy)
    ensures Settles(Initial(policy))
  {
  }

  /** What the invariant says of a DONE job, and of a reconcile of it. */
  lemma DoneIsProved(s: Sys, packet: Packet, maxRetries: nat)
    requires Settles(s) && s.disk.stage == DONE
    ensures s.disk.receipt.Some?
    ensures || HoldsPayload(s.disk, s.submitted)
            || (s.disk.receipt.value in s.prov
                && Proved(s.disk.receipt.value, s.prov[s.disk.receipt.value], s.submitted))
    ensures s.pc.Down? ==>
              var t := Step(s, Reconcile, packet, maxRetries);
              && t.disk == s.disk && t.disk.receipt.value in t.prov
              && Proved(t.disk.receipt.value, t.prov[t.disk.receipt.value], t.submitted)
  {
    hide WellFormed, RecordOf;
    if s.pc.Down? {
      SettlesDown(s, Reconcile);
    }
  }

  /** In every reachable durable state, through crashes between receipt, provenance write, DONE and
      compaction, a DONE job either still is the job that was submitted or its receipt has a
      provenance record; every record was computed from an uncompacted submission, so its
      deliberation path is the full one. A reconcile leaves no DONE job without its record. */
  lemma {:induction false} LastProofSurvives(policy: Policy, events: seq<Event>, packet: Packet, maxRetries: nat)
    ensures var s := Run(Initial(policy), events, packet, maxRetries);
            && Settles(s)
            && (s.disk.stage == DONE ==>
                  || HoldsPayload(s.disk, s.submitted)
                  || Proved(s.disk.receipt.value, s.prov[s.disk.receipt.value], s.submitted))
            && (s.pc.Down? && s.disk.stage == DONE ==>
                  var t := Step(s, Reconcile, packet, maxRetries);
                  && t.disk == s.disk && t.disk.receipt.value in t.prov
                  && Proved(t.disk.receipt.value, t.prov[t.disk.receipt.value], t.submitted))
  {
    hide Settles, Step, Run, HoldsPayload, Proved;
    SettlesRun(policy, events, packet, maxRetries);
    var s := Run(Initial(policy), events, packet, maxRetries);
    if s.disk.stage == DONE {
      DoneIsProved(s, packet, maxRetries);
    }
  }

  /** Over every run, what a record says of its receipt is what the job showed when it was handed over
      with that candidate: its digests and counters, and the roles that spoke, in their order; the critic
      when a report or a nonblank reply of it is there, the finalizer when a nonblank reply or its digest
      is. */
  lemma RecordShowsDeliberation(policy: Policy, events: seq<Event>, packet: Packet, maxRetries: nat, r: Candidate)
    requires r in Run(Initial(policy), events, packet, maxRetries).prov
    ensures var s := Run(Initial(policy), events, packet, maxRetries);
            exists i :: 0 <= i < |s.submitted| &&
              var j, rec := s.submitted[i], s.prov[r];
              && j.candidate == Some(r)
              && rec.investigatorDigest == j.responseDigest && rec.criticDigest == j.criticDigest
              && rec.finalizerDigest == j.finalizerDigest
              && rec.transportAttempts == j.transportAttempts && rec.submitAttempts == j.submitAttempts
              && (Critic in rec.path <==>
                    j.report.Some? || (j.critic.reply.Some? && j.critic.reply.value != ""))
              && (Finalizer in rec.path <==>
                    j.finalizerDigest.Some? || (j.finalizer.reply.Some? && j.finalizer.reply.value != ""))
              && rec.path == (if Critic in rec.path then [Investigator, Critic] else [Investigator])
                             + (if Finalizer in rec.path then [Finalizer] else [])
  {
    hide Settles, Step, Run, RecordOf;
    var s := Run(Initial(policy), events, packet, maxRetries);
    SettlesRun(policy, events, packet, maxRetries);
    var i := RecordedFrom(s, r);
    RecordMeans(s.submitted[i]);
  }

  lemma RecordedFrom(s: Sys, r: Candidate) returns (i: nat)
    requires Settles(s) && r in s.prov
    ensures i < |s.submitted| && s.submitted[i].candidate == Some(r) && s.prov[r] == RecordOf(s.submitted[i])
  {
    hide WellFormed, RecordOf;
    i :| i < |s.submitted| && s.submitted[i].candidate == Some(r) && s.prov[r] == RecordOf(s.submitted[i]);
  }

  lemma RecordMeans(j: Job)
    ensures var rec := RecordOf(j);
            && rec.investigatorDigest == j.responseDigest && rec.criticDigest == j.criticDigest
            && rec.finalizerDigest == j.finalizerDigest
            && rec.transportAttempts == j.transportAttempts && rec.submitAttempts == j.submitAttempts
            && (Critic in rec.path <==> j.report.Some? || (j.critic.reply.Some? && j.critic.reply.value != ""))
            && (Finalizer in rec.path <==>
                  j.finalizerDigest.Some? || (j.finalizer.reply.Some? && j.finalizer.reply.value != ""))
            && rec.path == (if Critic in rec.path then [Investigator, Critic] else [Investigator])
                           + (if Finalizer in rec.path then [Finalizer] else [])
  {
  }
}
