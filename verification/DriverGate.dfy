/** The critic gate: with `critic_on_drift` on, no DRIFT verdict reaches submit on the
    investigator's word alone. The model may answer anything, and every other policy setting may
    change from one drive to the next. */
module DriverGate {
  import opened Options
  import opened Deliberation
  import opened Jobs
  import opened Driver
  import opened DriverShape
  import opened DriverTrace

  /** The critic was sent exactly this candidate. */
  ghost predicate AskedAbout(sent: seq<Request>, c: Candidate) {
    exists i :: 0 <= i < |sent| && sent[i].role == Critic && !sent[i].repaired && sent[i].id.prompt == CriticPrompt(c)
  }

  /** A persisted text of the slot validates to `v`. */
  ghost predicate Holds<T>(slot: Slot, parse: string -> Parsed<T>, v: T) {
    parse(OrEmpty(slot.reply)) == Accepted(v) || (Has(slot.repair) && parse(slot.repair.value) == Accepted(v))
  }

  /** What the critic of such a verdict must have answered for it to stand. */
  predicate Satisfies(v: Verdict, d: Decision) { d == Agree || (v != Drift && d == Insufficient) }

  /** A candidate of this verdict is the validated finalizer output, or its own critic was asked about it
      and let it stand. */
  ghost predicate PassedGate(j: Job, sent: seq<Request>, packet: Packet, v: Verdict) {
    && j.candidate.Some?
    && (j.candidate.value.verdict == v ==>
          || (j.finalizerDigest.Some? && Holds(j.finalizer, packet.parseCandidate, j.candidate.value))
          || (&& j.report.Some? && Satisfies(v, j.report.value.decision)
              && Holds(j.critic, packet.parseReport, j.report.value)
              && AskedAbout(sent, j.candidate.value)))
  }

  ghost predicate Gated(j: Job, sent: seq<Request>, packet: Packet, v: Verdict) {
    j.stage == DONE ||
    (&& (!NoText(j.critic) && j.candidate.Some? && j.finalizerDigest.None? ==> AskedAbout(sent, j.candidate.value))
     && (j.report.Some? && j.candidate.Some? && j.finalizerDigest.None? ==>
           Holds(j.critic, packet.parseReport, j.report.value) && AskedAbout(sent, j.candidate.value))
     && (j.finalizerDigest.Some? && j.candidate.Some? ==> Holds(j.finalizer, packet.parseCandidate, j.candidate.value))
     && ((j.stage.FINAL_READY? || j.stage.SUBMITTING?) ==> PassedGate(j, sent, packet, v)))
  }

  /** The policy sends every candidate of this verdict to its critic. */
  ghost predicate SendsAll(policy: Policy, packet: Packet, v: Verdict) {
    forall c: Candidate :: c.verdict == v ==> NeedsCritic(c, packet, policy)
  }

  ghost predicate Guards(s: Sys, packet: Packet, v: Verdict) {
    && WellFormed(s)
    && Gated(s.disk, s.sent, packet, v)
    && (s.pc.Down? || SendsAll(s.policy, packet, v))
    && (InFlight(s.pc) && s.pc.call.role == Critic && s.mem.candidate.Some? ==>
          AskedAbout(s.sent, s.mem.candidate.value))
    && (forall i :: 0 <= i < |s.submitted| ==> PassedGate(s.submitted[i], s.sent, packet, v))
  }

  lemma AskedGrows(sent: seq<Request>, call: Request)
    ensures forall c :: AskedAbout(sent, c) ==> AskedAbout(sent + [call], c)
    ensures call.role == Critic && !call.repaired ==>
              forall c :: call.id.prompt == CriticPrompt(c) ==> AskedAbout(sent + [call], c)
  {
    forall c | AskedAbout(sent, c)
      ensures AskedAbout(sent + [call], c)
    {
      var i :| 0 <= i < |sent| && sent[i].role == Critic && !sent[i].repaired && sent[i].id.prompt == CriticPrompt(c);
      assert (sent + [call])[i] == sent[i];
    }
    assert (sent + [call])[|sent|] == call;
  }

  lemma GuardsValidate(s: Sys, packet: Packet, v: Verdict)
    requires Guards(s, packet, v) && Driving(s.pc) && s.mem.stage == INVESTIGATOR_RESPONSE
    ensures Guards(StepValidate(s, packet), packet, v)
  {
    WellFormedValidate(s, packet);
    FramedValidate(s, packet);
    assert s.mem == s.disk && NoText(s.mem.critic) && s.mem.report.None? && s.mem.finalizerDigest.None?;
  }

  lemma GuardsCriticVerdict(s: Sys, packet: Packet, v: Verdict)
    requires Guards(s, packet, v) && Driving(s.pc) && s.mem.stage == CRITIC_CALLING && s.mem.critic.reply.Some?
    ensures Guards(CriticVerdict(s, packet), packet, v)
  {
    WellFormedCriticVerdict(s, packet);
    FramedCriticVerdict(s, packet);
    assert s.mem == s.disk && s.mem.candidate.Some?;
  }

  lemma GuardsFinalizerVerdict(s: Sys, packet: Packet, v: Verdict)
    requires Guards(s, packet, v) && Driving(s.pc) && s.mem.stage == FINALIZER_CALLING && s.mem.finalizer.reply.Some?
    ensures Guards(FinalizerVerdict(s, packet), packet, v)
  {
    WellFormedFinalizerVerdict(s, packet);
    FramedFinalizerVerdict(s, packet);
    assert s.mem == s.disk;
  }

  lemma GuardsJudge(s: Sys, role: Role, packet: Packet, v: Verdict)
    requires Guards(s, packet, v) && Driving(s.pc) && CallStage(s.mem.stage, role, true) && s.mem.Of(role).reply.Some?
    ensures Guards(Judge(s, role, packet), packet, v)
  {
    hide Guards, StepValidate, CriticVerdict, FinalizerVerdict;
    match role
    case Investigator => GuardsValidate(s, packet, v);
    case Critic => GuardsCriticVerdict(s, packet, v);
    case Finalizer => GuardsFinalizerVerdict(s, packet, v);
  }

  lemma GuardsCritic(s: Sys, packet: Packet, v: Verdict)
    requires Guards(s, packet, v) && s.pc.Top? && (s.mem.stage == CANDIDATE_READY || s.mem.stage == CRITIC_CALLING)
    ensures Guards(StepCritic(s, packet), packet, v)
  {
    WellFormedCritic(s, packet);
    FramedCritic(s, packet);
    assert s.mem == s.disk && s.mem.finalizerDigest.None? && s.mem.report.None?;
    if s.mem.stage == CRITIC_CALLING && Has(s.mem.critic.reply) {
      GuardsCriticVerdict(s, packet, v);
    }
  }

  lemma GuardsFinalize(s: Sys, packet: Packet, v: Verdict)
    requires Guards(s, packet, v) && s.pc.Top? && (s.mem.stage == CRITIC_READY || s.mem.stage == FINALIZER_CALLING)
    ensures Guards(StepFinalize(s, packet), packet, v)
  {
    WellFormedFinalize(s, packet);
    FramedFinalize(s, packet);
    assert s.mem == s.disk && s.mem.finalizerDigest.None? && s.mem.report.Some? && s.mem.candidate.Some?;
    if s.mem.stage == FINALIZER_CALLING && Has(s.mem.finalizer.reply) {
      GuardsFinalizerVerdict(s, packet, v);
    }
  }

  predicate Passable(j: Job) { j.stage.FINAL_READY? || j.stage.SUBMITTING? }

  /** A move that touches no artifact, and reaches the last stages only from them or behind the
      finalizer. */
  predicate Restages(j: Job, k: Job) {
    && j.stage != DONE
    && k.candidate == j.candidate && k.report == j.report && k.finalizerDigest == j.finalizerDigest
    && k.critic.reply == j.critic.reply && k.critic.repair == j.critic.repair
    && k.finalizer.reply == j.finalizer.reply && k.finalizer.repair == j.finalizer.repair
    && (Passable(k) ==> Passable(j) || (j.candidate.Some? && j.finalizerDigest.Some?))
  }

  lemma Restaged(j: Job, k: Job, sent: seq<Request>, packet: Packet, v: Verdict)
    requires Gated(j, sent, packet, v) && Restages(j, k)
    ensures Gated(k, sent, packet, v)
    ensures Passable(j) ==> PassedGate(k, sent, packet, v)
  {
    hide AskedAbout;
  }

  lemma RestagesPlain(s: Sys, packet: Packet, due: bool)
    requires WellFormed(s) && s.pc.Top? && Plain(NextAction(s.mem, due))
    ensures var t := StepTop(s, packet, due);
            && Restages(s.disk, t.disk) && !InFlight(t.pc) && (t.pc.Submitting? ==> Passable(s.disk))
            && Framed(s, t) && WellFormed(t)
  {
    hide WellFormed, Framed;
    TopUnsettled(s);
    WellFormedPlain(s, packet, due);
    FramedPlain(s, packet, due);
  }

  lemma TopUnsettled(s: Sys)
    requires WellFormed(s) && s.pc.Top?
    ensures s.mem == s.disk && Selectable(s.disk.stage)
  {
  }

  lemma GuardsPlain(s: Sys, packet: Packet, v: Verdict, due: bool)
    requires Guards(s, packet, v) && s.pc.Top? && Plain(NextAction(s.mem, due))
    ensures Guards(StepTop(s, packet, due), packet, v)
  {
    RestagesPlain(s, packet, due);
    Restaged(s.disk, StepTop(s, packet, due).disk, s.sent, packet, v);
  }

  lemma GuardsDrive(s: Sys, e: Event, packet: Packet, v: Verdict)
    requires Guards(s, packet, v) && Driving(s.pc)
    ensures Guards(Drive(s, e, packet), packet, v)
  {
    if s.pc.Judging? {
      GuardsJudge(s, s.pc.role, packet, v);
    } else if e.Tick? {
      assert NextAction(s.mem, e.due) == Validate ==> s.mem.stage == INVESTIGATOR_RESPONSE;
      match NextAction(s.mem, e.due)
      case Validate => GuardsValidate(s, packet, v);
      case DoCritic => GuardsCritic(s, packet, v);
      case Finalize => GuardsFinalize(s, packet, v);
      case _ => GuardsPlain(s, packet, v, e.due);
    }
  }

  lemma RestagesGate(s: Sys, e: Event)
    requires WellFormed(s) && Gating(s.pc)
    ensures var t := AtGate(s, e);
            && WellFormed(t) && Restages(s.disk, t.disk) && t.sent == s.sent && t.submitted == s.submitted
            && t.policy == s.policy && !InFlight(t.pc)
  {
    WellFormedGate(s, e);
    assert s.mem == s.disk && s.disk.stage != DONE;
    match s.pc.role
    case Investigator =>
    case Critic =>
    case Finalizer =>
  }

  lemma GuardsGate(s: Sys, e: Event, packet: Packet, v: Verdict)
    requires Guards(s, packet, v) && Gating(s.pc)
    ensures Guards(AtGate(s, e), packet, v)
  {
    RestagesGate(s, e);
    Restaged(s.disk, AtGate(s, e).disk, s.sent, packet, v);
  }

  /** Whatever was passed stays passed as more is sent. */
  lemma GateKept(j: Job, sent: seq<Request>, call: Request, packet: Packet, v: Verdict)
    ensures Gated(j, sent, packet, v) ==> Gated(j, sent + [call], packet, v)
    ensures PassedGate(j, sent, packet, v) ==> PassedGate(j, sent + [call], packet, v)
  {
    AskedGrows(sent, call);
  }

  lemma GuardsWire(s: Sys, e: Event, packet: Packet, v: Verdict)
    requires Guards(s, packet, v) && OnWire(s.pc)
    ensures Guards(Wire(s, e), packet, v)
  {
    WellFormedWire(s, e);
    assert s.mem == s.disk && RequestFits(s.mem, s.pc.call);
    if s.pc.Marked? && e.Tick? {
      GateKept(s.disk, s.sent, s.pc.call, packet, v);
      forall i | 0 <= i < |s.submitted| ensures PassedGate(s.submitted[i], s.sent + [s.pc.call], packet, v) {
        GateKept(s.submitted[i], s.sent, s.pc.call, packet, v);
      }
      AskedGrows(s.sent, s.pc.call);
      if s.pc.call.role == Critic && s.pc.call.repaired {
        assert AskedAbout(s.sent, s.mem.candidate.value);
      }
    }
  }

  lemma GuardsReply(s: Sys, packet: Packet, v: Verdict)
    requires Guards(s, packet, v) && s.pc.Replied?
    ensures Guards(KeepReply(s, s.pc.call, s.pc.text), packet, v)
  {
    WellFormedReply(s);
    assert s.mem == s.disk && RequestFits(s.mem, s.pc.call);
    assert Layered(s.mem) && StageFits(s.mem);
  }

  lemma RestagesFailure(s: Sys, maxRetries: nat)
    requires WellFormed(s) && s.pc.Failed?
    ensures var t := TransportFailure(s, s.pc.failure, maxRetries);
            && WellFormed(t) && Restages(s.disk, t.disk) && t.sent == s.sent && t.submitted == s.submitted && t.pc.Down?
  {
    WellFormedFailure(s, maxRetries);
    assert s.mem == s.disk && s.disk.stage != DONE;
  }

  lemma GuardsAbsorb(s: Sys, e: Event, packet: Packet, v: Verdict, maxRetries: nat)
    requires Guards(s, packet, v) && Absorbing(s.pc)
    ensures Guards(Absorb(s, e, maxRetries), packet, v)
  {
    if s.pc.Replied? {
      GuardsReply(s, packet, v);
    } else {
      RestagesFailure(s, maxRetries);
      Restaged(s.disk, TransportFailure(s, s.pc.failure, maxRetries).disk, s.sent, packet, v);
    }
  }

  lemma RestagesFinish(s: Sys, e: Event, maxRetries: nat)
    requires WellFormed(s) && Finishing(s.pc)
    ensures var t := Finish(s, e, maxRetries);
            && WellFormed(t) && (t.disk == s.disk || t.disk.stage == DONE || Restages(s.disk, t.disk))
            && t.sent == s.sent && t.submitted == s.submitted && t.policy == s.policy && !InFlight(t.pc)
  {
    WellFormedFinish(s, e, maxRetries);
    assert s.pc.Submitting? ==> s.mem == s.disk && s.disk.stage == SUBMITTING && !Legal(SUBMITTING, RETRY_WAIT);
  }

  lemma GuardsFinish(s: Sys, e: Event, packet: Packet, v: Verdict, maxRetries: nat)
    requires Guards(s, packet, v) && Finishing(s.pc)
    ensures Guards(Finish(s, e, maxRetries), packet, v)
  {
    RestagesFinish(s, e, maxRetries);
    var t := Finish(s, e, maxRetries);
    if t.disk.stage == DONE {
      DoneGated(t.disk, s.sent, packet, v);
    } else if t.disk != s.disk {
      Restaged(s.disk, t.disk, s.sent, packet, v);
    }
  }

  lemma DoneGated(j: Job, sent: seq<Request>, packet: Packet, v: Verdict)
    requires j.stage == DONE
    ensures Gated(j, sent, packet, v)
  {
  }

  lemma ClearedGated(j: Job, sent: seq<Request>, packet: Packet, v: Verdict)
    ensures Gated(Cleared(j), sent, packet, v)
  {
  }

  lemma GuardsDown(s: Sys, e: Event, packet: Packet, v: Verdict)
    requires Guards(s, packet, v) && s.pc.Down? && (e.Start? ==> SendsAll(e.policy, packet, v))
    ensures Guards(WhenDown(s, e), packet, v)
  {
    WellFormedDown(s, e);
    var t := WhenDown(s, e);
    if t.disk.stage == DONE {
      DoneGated(t.disk, s.sent, packet, v);
    } else if e.Requeue? {
      ClearedGated(s.disk, s.sent, packet, v);
    } else if t.disk != s.disk {
      Restaged(s.disk, t.disk, s.sent, packet, v);
    }
    assert t.submitted == s.submitted && t.sent == s.sent;
    assert (t.pc.Down? || t.pc.Top?) && (t.pc.Down? || SendsAll(t.policy, packet, v));
  }

  lemma GuardsStep(s: Sys, e: Event, packet: Packet, v: Verdict, maxRetries: nat)
    requires Guards(s, packet, v) && (e.Start? ==> SendsAll(e.policy, packet, v))
    ensures Guards(Step(s, e, packet, maxRetries), packet, v)
  {
    hide Guards, Fall, WhenDown, Drive, AtGate, Wire, Absorb, Finish;
    if e.Crash? {
      FallGuarded(s, packet, v);
    } else if s.pc.Down? {
      GuardsDown(s, e, packet, v);
    } else if Driving(s.pc) {
      GuardsDrive(s, e, packet, v);
    } else if Gating(s.pc) {
      GuardsGate(s, e, packet, v);
    } else if OnWire(s.pc) {
      GuardsWire(s, e, packet, v);
    } else if Absorbing(s.pc) {
      GuardsAbsorb(s, e, packet, v, maxRetries);
    } else {
      GuardsFinish(s, e, packet, v, maxRetries);
    }
  }

  lemma FallGuarded(s: Sys, packet: Packet, v: Verdict)
    requires Guards(s, packet, v)
    ensures Guards(Fall(s), packet, v)
  {
    assert WellFormed(Fall(s));
  }

  lemma {:induction false} GateRun(policy: Policy, events: seq<Event>, packet: Packet, v: Verdict, maxRetries: nat)
    requires forall e :: e in events && e.Start? ==> SendsAll(e.policy, packet, v)
    ensures Guards(Run(Initial(policy), events, packet, maxRetries), packet, v)
  {
    hide Guards, Step, SendsAll;
    if events == [] {
      StartGuarded(policy, packet, v);
    } else {
      var before := events[..|events| - 1];
      GateRun(policy, before, packet, v, maxRetries);
      GuardsStep(Run(Initial(policy), before, packet, maxRetries), events[|events| - 1], packet, v, maxRetries);
    }
  }

  lemma StartGuarded(policy: Policy, packet: Packet, v: Verdict)
    ensures Guards(Initial(policy), packet, v)
  {
  }

  /** The critic gate over whole runs: crashes, retries, binding blocks and resumes, requeues. Under
      `critic_on_drift` every DRIFT candidate handed over is the validated finalizer output, or its
      critic was asked about it and agreed. */
  lemma CriticGate(policy: Policy, events: seq<Event>, packet: Packet, maxRetries: nat)
    requires forall e :: e in events && e.Start? ==> e.policy.criticOnDrift
    ensures var s := Run(Initial(policy), events, packet, maxRetries);
            forall i :: 0 <= i < |s.submitted| ==>
              var j := s.submitted[i];
              && j.candidate.Some?
              && (j.candidate.value.verdict == Drift ==>
                    || (j.finalizerDigest.Some? && Holds(j.finalizer, packet.parseCandidate, j.candidate.value))
                    || (&& j.report.Some? && j.report.value.decision == Agree
                        && Holds(j.critic, packet.parseReport, j.report.value)
                        && AskedAbout(s.sent, j.candidate.value)))
  {
    hide Run, Holds, AskedAbout;
    GateRun(policy, events, packet, Drift, maxRetries);
  }

  /** And every NO_DRIFT candidate of a high-signal unit, or of one in the clean sample, when the policy
      sends those to the critic: its critic was asked about it and agreed or found nothing against it. */
  lemma NoDriftGate(policy: Policy, events: seq<Event>, packet: Packet, maxRetries: nat)
    requires forall e :: e in events && e.Start? ==>
               || (e.policy.criticOnHighSignal && packet.highSignal)
               || (0 < e.policy.cleanSamplePercent && packet.bucket < e.policy.cleanSamplePercent)
    ensures var s := Run(Initial(policy), events, packet, maxRetries);
            forall i :: 0 <= i < |s.submitted| ==>
              var j := s.submitted[i];
              && j.candidate.Some?
              && (j.candidate.value.verdict == NoDrift ==>
                    || (j.finalizerDigest.Some? && Holds(j.finalizer, packet.parseCandidate, j.candidate.value))
                    || (&& j.report.Some?
                        && (j.report.value.decision == Agree || j.report.value.decision == Insufficient)
                        && Holds(j.critic, packet.parseReport, j.report.value)
                        && AskedAbout(s.sent, j.candidate.value)))
  {
    hide Run, Holds, AskedAbout;
    GateRun(policy, events, packet, NoDrift, maxRetries);
  }

  // ---------------------------------------------------------------------------
  // No critic is asked without a reason
  // ---------------------------------------------------------------------------

  /** No first critic call is about a candidate of this verdict. */
  predicate Unasked(sent: seq<Request>, v: Verdict) {
    forall i :: 0 <= i < |sent| && sent[i].role == Critic && !sent[i].repaired ==>
      sent[i].id.prompt.CriticPrompt? && sent[i].id.prompt.about.verdict != v
  }

  /** The policy sends no candidate of this verdict to a critic. */
  ghost predicate SendsNone(policy: Policy, packet: Packet, v: Verdict) {
    forall c: Candidate :: c.verdict == v ==> !NeedsCritic(c, packet, policy)
  }

  ghost predicate Spares(s: Sys, packet: Packet, v: Verdict) {
    Unasked(s.sent, v) && (s.pc.Down? || SendsNone(s.policy, packet, v))
  }

  /** A step sends at most the request it marked, and only the start of a drive sets the policy. */
  lemma StepSends(s: Sys, e: Event, packet: Packet, maxRetries: nat)
    requires WellFormed(s)
    ensures var t := Step(s, e, packet, maxRetries);
            && (t.sent == s.sent || (s.pc.Marked? && t.sent == s.sent + [s.pc.call]))
            && (t.pc.Down? || t.policy == s.policy || (s.pc.Down? && e.Start? && t.policy == e.policy))
            && (!t.pc.Down? && s.pc.Down? ==> e.Start? && t.policy == e.policy)
  {
    hide WellFormed, Drive, KeepReply, TransportFailure, RecordOf, ResumeStage;
    if !e.Crash? {
      if Driving(s.pc) {
        FramedDrive(s, e, packet);
      } else if Absorbing(s.pc) {
        AbsorbSends(s, maxRetries);
      }
    }
  }

  lemma AbsorbSends(s: Sys, maxRetries: nat)
    ensures s.pc.Replied? ==>
              var t := KeepReply(s, s.pc.call, s.pc.text); t.sent == s.sent && t.policy == s.policy
    ensures s.pc.Failed? ==>
              var t := TransportFailure(s, s.pc.failure, maxRetries); t.sent == s.sent && t.policy == s.policy
  {
    hide Legal;
  }

  /** A marked critic call is about a candidate the policy sends to it. */
  lemma MarkedIsWanted(s: Sys, packet: Packet)
    requires Traced(s, packet) && s.pc.Marked? && s.pc.call.role == Critic && !s.pc.call.repaired
    ensures s.pc.call.id.prompt.CriticPrompt? && NeedsCritic(s.pc.call.id.prompt.about, packet, s.policy)
  {
    hide NeedsCritic;
  }

  lemma SparesStep(s: Sys, e: Event, packet: Packet, v: Verdict, maxRetries: nat)
    requires Traced(s, packet) && Spares(s, packet, v) && (e.Start? ==> SendsNone(e.policy, packet, v))
    ensures Spares(Step(s, e, packet, maxRetries), packet, v)
  {
    hide Traced, Step, NeedsCritic;
    TracedShape(s, packet);
    StepSends(s, e, packet, maxRetries);
    if s.pc.Marked? && s.pc.call.role == Critic && !s.pc.call.repaired {
      MarkedIsWanted(s, packet);
    }
  }

  lemma {:induction false} SparesRun(policy: Policy, events: seq<Event>, packet: Packet, v: Verdict, maxRetries: nat)
    requires forall e :: e in events && e.Start? ==> SendsNone(e.policy, packet, v)
    ensures Spares(Run(Initial(policy), events, packet, maxRetries), packet, v)
  {
    hide Traced, Step, SendsNone, Unasked;
    if events == [] {
      NothingAsked(v);
    } else {
      var before := events[..|events| - 1];
      SparesRun(policy, before, packet, v, maxRetries);
      TracedRun(policy, before, packet, maxRetries);
      SparesStep(Run(Initial(policy), before, packet, maxRetries), events[|events| - 1], packet, v, maxRetries);
    }
  }

  lemma NothingAsked(v: Verdict)
    ensures Unasked([], v)
  {
  }

  /** Over every run: a NO_DRIFT candidate of a unit that is neither high-signal nor sampled, a DRIFT one
      without `critic_on_drift`, and one of any other verdict are never put to a critic. */
  lemma NoCriticWithoutReason(policy: Policy, events: seq<Event>, packet: Packet, v: Verdict, maxRetries: nat)
    requires v == Drift ==> forall e :: e in events && e.Start? ==> !e.policy.criticOnDrift
    requires v == NoDrift ==>
               forall e :: e in events && e.Start? ==>
                 && !(e.policy.criticOnHighSignal && packet.highSignal)
                 && !(0 < e.policy.cleanSamplePercent && packet.bucket < e.policy.cleanSamplePercent)
    ensures var s := Run(Initial(policy), events, packet, maxRetries);
            forall i :: 0 <= i < |s.sent| && s.sent[i].role == Critic && !s.sent[i].repaired ==>
              s.sent[i].id.prompt.CriticPrompt? && s.sent[i].id.prompt.about.verdict != v
  {
    hide Run;
    SparesRun(policy, events, packet, v, maxRetries);
  }
}
