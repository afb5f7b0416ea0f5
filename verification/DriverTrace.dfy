/** What a reachable driver knows of the requests it makes: on what an identity rests, and what a
    request that is out asks. */
module DriverTrace {
  import opened Options
  import opened Deliberation
  import opened Jobs
  import opened Driver
  import opened DriverShape

  /** Some policy sends a candidate of this verdict to the critic. */
  predicate Criticable(c: Candidate) { !c.verdict.OtherVerdict? }

  /** A reply has its identity, and an identity rests on the artifacts its request was about. */
  predicate Attempted(j: Job) {
    j.stage == DONE ||
    (&& (j.investigator.reply.Some? ==> j.investigator.attempt.Some?)
     && (j.critic.reply.Some? ==> j.critic.attempt.Some?)
     && (j.finalizer.reply.Some? ==> j.finalizer.attempt.Some?)
     && (j.critic.attempt.Some? ==>
           j.candidate.Some? && (j.finalizerDigest.None? ==> Criticable(j.candidate.value)))
     && (j.finalizer.attempt.Some? ==>
           && j.candidate.Some? && j.report.Some?
           && (j.finalizerDigest.None? ==> Disputed(j.candidate, j.report.value))))
  }

  /** The policy of this drive wants the role. */
  predicate Wants(s: Sys, role: Role, packet: Packet) {
    match role
    case Investigator => true
    case Critic => s.mem.candidate.Some? && NeedsCritic(s.mem.candidate.value, packet, s.policy)
    case Finalizer => FinalizerOnByDefaultOn(s.policy)
  }

  /** The request is of the current attempt; a repair quotes the refused reply and why. */
  predicate Asks(j: Job, call: Request, packet: Packet) {
    && call.id.ordinal == j.transportAttempts + 1
    && (call.repaired <==> call.id.prompt.RepairPrompt?)
    && (call.repaired ==>
          && call.id.prompt.raw == OrEmpty(j.Of(call.role).reply)
          && Refused(packet, call.role, call.id.prompt.raw, call.id.prompt.why))
  }

  predicate Busy(s: Sys, packet: Packet) {
    match s.pc
    case Calling(role) => Wants(s, role, packet)
    case Judging(role) => Wants(s, role, packet)
    case Repairing(role, why) => Wants(s, role, packet) && Refused(packet, role, OrEmpty(s.mem.Of(role).reply), why)
    case Marked(call) => Wants(s, call.role, packet) && Asks(s.mem, call, packet)
    case Sent(call) => Wants(s, call.role, packet) && Asks(s.mem, call, packet)
    case Replied(call, _) => Wants(s, call.role, packet) && Asks(s.mem, call, packet)
    case Failed(call, _) => Wants(s, call.role, packet) && Asks(s.mem, call, packet)
    case _ => true
  }

  predicate Traced(s: Sys, packet: Packet) { WellFormed(s) && Attempted(s.disk) && Busy(s, packet) }

  /** Validating a slot that holds a reply and no repair asks for one exactly when it is refused. */
  lemma RepairsRefused(slot: Slot, packet: Packet)
    ensures ValidateSlot(slot, packet.parseCandidate).NeedsRepair? ==>
              packet.parseCandidate(OrEmpty(slot.reply)) == Rejected(ValidateSlot(slot, packet.parseCandidate).why)
    ensures ValidateSlot(slot, packet.parseReport).NeedsRepair? ==>
              packet.parseReport(OrEmpty(slot.reply)) == Rejected(ValidateSlot(slot, packet.parseReport).why)
  {
  }

  lemma TracedValidate(s: Sys, packet: Packet)
    requires Traced(s, packet) && Driving(s.pc) && s.mem.stage == INVESTIGATOR_RESPONSE
    ensures Traced(StepValidate(s, packet), packet)
  {
    hide ValidateSlot;
    WellFormedValidate(s, packet);
    RepairsRefused(s.mem.investigator, packet);
    assert s.mem == s.disk;
  }

  lemma TracedCriticVerdict(s: Sys, packet: Packet)
    requires Traced(s, packet) && Driving(s.pc) && s.mem.stage == CRITIC_CALLING && s.mem.critic.reply.Some?
    requires Wants(s, Critic, packet)
    ensures Traced(CriticVerdict(s, packet), packet)
  {
    hide ValidateSlot, NeedsCritic;
    WellFormedCriticVerdict(s, packet);
    RepairsRefused(s.mem.critic, packet);
    assert s.mem == s.disk && s.mem.finalizerDigest.None? && s.mem.report.None?;
  }

  lemma TracedFinalizerVerdict(s: Sys, packet: Packet)
    requires Traced(s, packet) && Driving(s.pc) && s.mem.stage == FINALIZER_CALLING && s.mem.finalizer.reply.Some?
    requires Wants(s, Finalizer, packet)
    ensures Traced(FinalizerVerdict(s, packet), packet)
  {
    hide ValidateSlot, NeedsCritic;
    WellFormedFinalizerVerdict(s, packet);
    RepairsRefused(s.mem.finalizer, packet);
    assert s.mem == s.disk;
  }

  lemma TracedJudge(s: Sys, role: Role, packet: Packet)
    requires Traced(s, packet) && Driving(s.pc) && CallStage(s.mem.stage, role, true) && s.mem.Of(role).reply.Some?
    requires Wants(s, role, packet)
    ensures Traced(Judge(s, role, packet), packet)
  {
    hide Traced, Wants, StepValidate, CriticVerdict, FinalizerVerdict;
    match role
    case Investigator => TracedValidate(s, packet);
    case Critic => TracedCriticVerdict(s, packet);
    case Finalizer => TracedFinalizerVerdict(s, packet);
  }

  lemma TracedCritic(s: Sys, packet: Packet)
    requires Traced(s, packet) && s.pc.Top? && (s.mem.stage == CANDIDATE_READY || s.mem.stage == CRITIC_CALLING)
    ensures Traced(StepCritic(s, packet), packet)
  {
    hide NeedsCritic, CriticVerdict;
    WellFormedCritic(s, packet);
    assert s.mem == s.disk && s.mem.candidate.Some?;
    if s.mem.stage == CRITIC_CALLING && Has(s.mem.critic.reply) && Wants(s, Critic, packet) {
      TracedCriticVerdict(s, packet);
    }
  }

  lemma TracedFinalize(s: Sys, packet: Packet)
    requires Traced(s, packet) && s.pc.Top? && (s.mem.stage == CRITIC_READY || s.mem.stage == FINALIZER_CALLING)
    ensures Traced(StepFinalize(s, packet), packet)
  {
    hide NeedsCritic, FinalizerVerdict;
    WellFormedFinalize(s, packet);
    assert s.mem == s.disk && s.mem.report.Some?;
    if s.mem.stage == FINALIZER_CALLING && Has(s.mem.finalizer.reply) && Wants(s, Finalizer, packet) {
      TracedFinalizerVerdict(s, packet);
    }
  }

  lemma TracedPlain(s: Sys, packet: Packet, due: bool)
    requires Traced(s, packet) && s.pc.Top? && Plain(NextAction(s.mem, due))
    ensures Traced(StepTop(s, packet, due), packet)
  {
    hide ResumeStage, Legal;
    WellFormedPlain(s, packet, due);
    assert s.mem == s.disk;
  }

  lemma TracedDrive(s: Sys, e: Event, packet: Packet)
    requires Traced(s, packet) && Driving(s.pc)
    ensures Traced(Drive(s, e, packet), packet)
  {
    hide Traced, Wants, StepTop, Judge;
    TracedShape(s, packet);
    if !e.Tick? {
    } else if s.pc.Judging? {
      TracedJudge(s, s.pc.role, packet);
    } else {
      TracedTop(s, e.due, packet);
    }
  }

  lemma TracedShape(s: Sys, packet: Packet)
    requires Traced(s, packet)
    ensures WellFormed(s)
    ensures s.pc.Judging? ==>
              CallStage(s.mem.stage, s.pc.role, true) && s.mem.Of(s.pc.role).reply.Some? && Wants(s, s.pc.role, packet)
    ensures s.pc.Top? && s.mem.stage == INVESTIGATOR_CALLING ==> !Has(s.mem.investigator.reply)
  {
  }

  lemma TracedTop(s: Sys, due: bool, packet: Packet)
    requires Traced(s, packet) && s.pc.Top?
    ensures Traced(StepTop(s, packet, due), packet)
  {
    hide Traced, StepValidate, StepCritic, StepFinalize, StepSubmit;
    TracedShape(s, packet);
    match NextAction(s.mem, due)
    case Validate => TracedValidate(s, packet);
    case DoCritic => TracedCritic(s, packet);
    case Finalize => TracedFinalize(s, packet);
    case _ => TracedPlain(s, packet, due);
  }

  lemma TracedGate(s: Sys, e: Event, packet: Packet)
    requires Traced(s, packet) && Gating(s.pc)
    ensures Traced(AtGate(s, e), packet)
  {
    WellFormedGate(s, e);
    assert s.mem == s.disk;
    match s.pc.role
    case Investigator =>
    case Critic =>
    case Finalizer =>
  }

  lemma TracedWire(s: Sys, e: Event, packet: Packet)
    requires Traced(s, packet) && OnWire(s.pc)
    ensures Traced(Wire(s, e), packet)
  {
    hide NeedsCritic, Refused;
    WellFormedWire(s, e);
  }

  lemma TracedReply(s: Sys, packet: Packet)
    requires Traced(s, packet) && s.pc.Replied?
    ensures Traced(KeepReply(s, s.pc.call, s.pc.text), packet)
  {
    hide NeedsCritic, Refused;
    WellFormedReply(s);
    assert s.mem == s.disk && s.mem.Of(s.pc.call.role).attempt.Some?;
    match s.pc.call.role
    case Investigator =>
    case Critic =>
    case Finalizer =>
  }

  lemma TracedFailure(s: Sys, packet: Packet, maxRetries: nat)
    requires Traced(s, packet) && s.pc.Failed?
    ensures Traced(TransportFailure(s, s.pc.failure, maxRetries), packet)
  {
    hide NeedsCritic, Refused;
    WellFormedFailure(s, maxRetries);
    assert s.mem == s.disk;
  }

  lemma TracedFinish(s: Sys, e: Event, packet: Packet, maxRetries: nat)
    requires Traced(s, packet) && Finishing(s.pc)
    ensures Traced(Finish(s, e, maxRetries), packet)
  {
    hide RecordOf, Criticable, Disputed;
    WellFormedFinish(s, e, maxRetries);
  }

  lemma TracedDown(s: Sys, e: Event, packet: Packet)
    requires Traced(s, packet) && s.pc.Down?
    ensures Traced(WhenDown(s, e), packet)
  {
    hide RecordOf, Criticable, Disputed, ResumeStage;
    WellFormedDown(s, e);
  }

  lemma TracedFall(s: Sys, packet: Packet)
    requires Traced(s, packet)
    ensures Traced(Fall(s), packet)
  {
    WellFormedStep(s, Crash, packet, 0);
  }

  lemma TracedStep(s: Sys, e: Event, packet: Packet, maxRetries: nat)
    requires Traced(s, packet)
    ensures Traced(Step(s, e, packet, maxRetries), packet)
  {
    hide Traced, Fall, WhenDown, Drive, AtGate, Wire, KeepReply, TransportFailure, Finish;
    if e.Crash? {
      TracedFall(s, packet);
    } else if s.pc.Down? {
      TracedDown(s, e, packet);
    } else if Driving(s.pc) {
      TracedDrive(s, e, packet);
    } else if Gating(s.pc) {
      TracedGate(s, e, packet);
    } else if OnWire(s.pc) {
      TracedWire(s, e, packet);
    } else if s.pc.Replied? {
      TracedReply(s, packet);
    } else if s.pc.Failed? {
      TracedFailure(s, packet, maxRetries);
    } else {
      TracedFinish(s, e, packet, maxRetries);
    }
  }

  /** Over every run: a reply is kept under the identity its request made durable, a critic is only
      asked about a candidate some policy sends to it, a finalizer only about a dispute, and a repair
      quotes the reply that was refused. */
  lemma {:induction false} TracedRun(policy: Policy, events: seq<Event>, packet: Packet, maxRetries: nat)
    ensures Traced(Run(Initial(policy), events, packet, maxRetries), packet)
  {
    if events != [] {
      var before := events[..|events| - 1];
      TracedRun(policy, before, packet, maxRetries);
      TracedStep(Run(Initial(policy), before, packet, maxRetries), events[|events| - 1], packet, maxRetries);
    }
  }
}
