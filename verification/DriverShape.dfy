/** What every reachable state of the driver looks like: which artifacts each stage holds, and how
    the memory of a running drive differs from the disk. */
module DriverShape {
  import opened Options
  import opened Deliberation
  import opened Jobs
  import opened Driver

  predicate NoText(s: Slot) { s.reply.None? && s.repair.None? }

  /** Later artifacts rest on earlier ones. */
  predicate Layered(j: Job) {
    && (j.candidate.None? ==> j.report.None? && NoText(j.critic))
    && (j.report.None? ==> j.finalizerDigest.None? && NoText(j.finalizer))
  }

  predicate StageFits(j: Job) {
    match j.stage
    case READY => j.candidate.None? && !Has(j.investigator.reply)
    case INVESTIGATOR_CALLING => j.candidate.None? && !Has(j.investigator.reply)
    case INVESTIGATOR_RESPONSE => j.candidate.None? && j.investigator.reply.Some?
    case CANDIDATE_READY => j.candidate.Some? && j.report.None?
    case CRITIC_CALLING => j.candidate.Some? && j.report.None?
    case CRITIC_READY => j.candidate.Some? && j.report.Some? && j.finalizerDigest.None?
    case FINALIZER_CALLING =>
      j.candidate.Some? && j.report.Some? && j.finalizerDigest.None? && Disputed(j.candidate, j.report.value)
    case FINAL_READY => j.candidate.Some?
    case SUBMITTING => j.candidate.Some?
    case _ => true
  }

  predicate Shaped(j: Job) { j.stage == DONE || (Layered(j) && StageFits(j)) }

  predicate CallStage(st: Stage, role: Role, repaired: bool) {
    match role
    case Investigator => st == if repaired then INVESTIGATOR_RESPONSE else INVESTIGATOR_CALLING
    case Critic => st == CRITIC_CALLING
    case Finalizer => st == FINALIZER_CALLING
  }

  /** The memory of a drive against the disk it last wrote. */
  predicate InStep(s: Sys) {
    && (s.pc.Down? || s.pc.Committed? || s.pc.Recorded? || s.mem == s.disk)
    && (s.pc.Committed? || s.pc.Recorded? ==>
          s.mem == s.disk.(receipt := s.disk.candidate) && s.disk.stage == SUBMITTING)
    && (s.pc.Submitting? ==> s.mem == s.disk && s.mem.stage == SUBMITTING)
    && (s.pc.Compacting? ==> s.mem.stage == DONE)
    && (!Selectable(s.disk.stage) ==> s.pc.Down? || s.pc.Compacting?)
  }

  predicate CallFits(s: Sys) {
    match s.pc
    case Calling(role) => CallStage(s.mem.stage, role, false) && !Has(s.mem.Of(role).reply)
    case Judging(role) => CallStage(s.mem.stage, role, true) && s.mem.Of(role).reply.Some?
    case Repairing(role, _) =>
      && CallStage(s.mem.stage, role, true)
      && s.mem.Of(role).reply.Some? && !Has(s.mem.Of(role).repair) && s.mem.Of(role).repairs == 0
    case Marked(call) => RequestFits(s.mem, call)
    case Sent(call) => RequestFits(s.mem, call)
    case Replied(call, _) => RequestFits(s.mem, call)
    case Failed(call, _) => RequestFits(s.mem, call)
    case _ => true
  }

  predicate RequestFits(j: Job, call: Request) {
    && CallStage(j.stage, call.role, call.repaired)
    && call.id.role == call.role
    && j.Of(call.role).attempt == Some(call.id)
    && (if call.repaired
        then j.Of(call.role).reply.Some? && !Has(j.Of(call.role).repair) && j.Of(call.role).repairs == 0
        else !Has(j.Of(call.role).reply) && call.id.prompt == PromptOf(j, call.role))
  }

  /** The role's contract refuses this text. */
  predicate Refused(packet: Packet, role: Role, text: string, why: string) {
    match role
    case Critic => packet.parseReport(text) == Rejected(why)
    case _ => packet.parseCandidate(text) == Rejected(why)
  }

  predicate WellFormed(s: Sys) { Shaped(s.disk) && InStep(s) && CallFits(s) }

  lemma WellFormedDown(s: Sys, e: Event)
    requires WellFormed(s) && s.pc.Down?
    ensures WellFormed(WhenDown(s, e))
  {
  }

  lemma WellFormedValidate(s: Sys, packet: Packet)
    requires WellFormed(s) && Driving(s.pc) && s.mem.stage == INVESTIGATOR_RESPONSE
    ensures WellFormed(StepValidate(s, packet))
  {
  }

  lemma WellFormedCriticVerdict(s: Sys, packet: Packet)
    requires WellFormed(s) && Driving(s.pc) && s.mem.stage == CRITIC_CALLING && s.mem.critic.reply.Some?
    ensures WellFormed(CriticVerdict(s, packet))
  {
  }

  lemma WellFormedFinalizerVerdict(s: Sys, packet: Packet)
    requires WellFormed(s) && Driving(s.pc) && s.mem.stage == FINALIZER_CALLING && s.mem.finalizer.reply.Some?
    ensures WellFormed(FinalizerVerdict(s, packet))
  {
  }

  lemma WellFormedJudge(s: Sys, role: Role, packet: Packet)
    requires WellFormed(s) && Driving(s.pc) && CallStage(s.mem.stage, role, true) && s.mem.Of(role).reply.Some?
    ensures WellFormed(Judge(s, role, packet))
  {
    hide WellFormed, StepValidate, CriticVerdict, FinalizerVerdict;
    match role
    case Investigator => WellFormedValidate(s, packet);
    case Critic => WellFormedCriticVerdict(s, packet);
    case Finalizer => WellFormedFinalizerVerdict(s, packet);
  }

  lemma WellFormedCritic(s: Sys, packet: Packet)
    requires WellFormed(s) && s.pc.Top? && (s.mem.stage == CANDIDATE_READY || s.mem.stage == CRITIC_CALLING)
    ensures WellFormed(StepCritic(s, packet))
  {
    if s.mem.stage == CRITIC_CALLING && Has(s.mem.critic.reply) {
      WellFormedJudge(s, Critic, packet);
    }
  }

  lemma WellFormedFinalize(s: Sys, packet: Packet)
    requires WellFormed(s) && s.pc.Top? && (s.mem.stage == CRITIC_READY || s.mem.stage == FINALIZER_CALLING)
    ensures WellFormed(StepFinalize(s, packet))
  {
    if s.mem.stage == FINALIZER_CALLING && Has(s.mem.finalizer.reply) {
      WellFormedJudge(s, Finalizer, packet);
    }
  }

  predicate Plain(a: Action) { !a.Validate? && !a.DoCritic? && !a.Finalize? }

  lemma WellFormedRetry(s: Sys)
    requires WellFormed(s) && s.pc.Top? && s.mem.stage == RETRY_WAIT
    ensures WellFormed(Advance(s, s.mem, ResumeStage(s.mem), Top))
  {
  }

  lemma WellFormedSubmit(s: Sys)
    requires WellFormed(s) && s.pc.Top? && (s.mem.stage == FINAL_READY || s.mem.stage == SUBMITTING)
    ensures WellFormed(StepSubmit(s))
  {
  }

  lemma WellFormedPlain(s: Sys, packet: Packet, due: bool)
    requires WellFormed(s) && s.pc.Top? && Plain(NextAction(s.mem, due))
    ensures WellFormed(StepTop(s, packet, due))
  {
    match NextAction(s.mem, due)
    case Submit => WellFormedSubmit(s);
    case Retry => WellFormedRetry(s);
    case _ =>
  }

  lemma WellFormedDrive(s: Sys, e: Event, packet: Packet)
    requires WellFormed(s) && Driving(s.pc)
    ensures WellFormed(Drive(s, e, packet))
  {
    if s.pc.Judging? {
      WellFormedJudge(s, s.pc.role, packet);
    } else if e.Tick? {
      assert NextAction(s.mem, e.due) == Validate ==>
               s.mem.stage == INVESTIGATOR_RESPONSE && s.mem.investigator.reply.Some?;
      match NextAction(s.mem, e.due)
      case Validate => WellFormedValidate(s, packet);
      case DoCritic => WellFormedCritic(s, packet);
      case Finalize => WellFormedFinalize(s, packet);
      case _ => WellFormedPlain(s, packet, e.due);
    }
  }

  lemma WellFormedGate(s: Sys, e: Event)
    requires WellFormed(s) && Gating(s.pc)
    ensures WellFormed(AtGate(s, e))
  {
  }

  lemma WellFormedWire(s: Sys, e: Event)
    requires WellFormed(s) && OnWire(s.pc)
    ensures WellFormed(Wire(s, e))
  {
  }

  lemma WellFormedReply(s: Sys)
    requires WellFormed(s) && s.pc.Replied?
    ensures WellFormed(KeepReply(s, s.pc.call, s.pc.text))
  {
  }

  lemma WellFormedFailure(s: Sys, maxRetries: nat)
    requires WellFormed(s) && s.pc.Failed?
    ensures WellFormed(TransportFailure(s, s.pc.failure, maxRetries))
  {
  }

  lemma WellFormedAbsorb(s: Sys, e: Event, maxRetries: nat)
    requires WellFormed(s) && Absorbing(s.pc)
    ensures WellFormed(Absorb(s, e, maxRetries))
  {
    hide WellFormed, KeepReply, TransportFailure;
    if s.pc.Replied? {
      WellFormedReply(s);
    } else {
      WellFormedFailure(s, maxRetries);
    }
  }

  lemma WellFormedFinish(s: Sys, e: Event, maxRetries: nat)
    requires WellFormed(s) && Finishing(s.pc)
    ensures WellFormed(Finish(s, e, maxRetries))
  {
  }

  lemma WellFormedStep(s: Sys, e: Event, packet: Packet, maxRetries: nat)
    requires WellFormed(s)
    ensures WellFormed(Step(s, e, packet, maxRetries))
  {
    if e.Crash? {
      assert WellFormed(Fall(s));
    }
    if s.pc.Down? {
      WellFormedDown(s, e);
    } else if Driving(s.pc) {
      WellFormedDrive(s, e, packet);
    } else if Gating(s.pc) {
      WellFormedGate(s, e);
    } else if OnWire(s.pc) {
      WellFormedWire(s, e);
    } else if Absorbing(s.pc) {
      WellFormedAbsorb(s, e, maxRetries);
    } else {
      WellFormedFinish(s, e, maxRetries);
    }
  }

  lemma {:induction false} WellFormedRun(policy: Policy, events: seq<Event>, packet: Packet, maxRetries: nat)
    ensures WellFormed(Run(Initial(policy), events, packet, maxRetries))
  {
    if events != [] {
      var before := events[..|events| - 1];
      WellFormedRun(policy, before, packet, maxRetries);
      WellFormedStep(Run(Initial(policy), before, packet, maxRetries), events[|events| - 1], packet, maxRetries);
    }
  }

  /** While a request is on the wire or its outcome is absorbed, the memory is the disk and the stage the
      one the request is made in. */
  lemma AtCall(s: Sys)
    requires WellFormed(s) && (OnWire(s.pc) || Absorbing(s.pc))
    ensures s.mem == s.disk && RequestFits(s.mem, s.pc.call)
    ensures CallStage(s.mem.stage, s.pc.call.role, s.pc.call.repaired)
    ensures Selectable(s.disk.stage) && s.disk.stage != DONE && Legal(s.mem.stage, RETRY_WAIT)
    ensures !s.pc.call.repaired && s.pc.call.role == Investigator ==> Legal(s.mem.stage, INVESTIGATOR_RESPONSE)
    ensures s.mem.stage == CRITIC_CALLING ==> s.mem.candidate.Some?
  {
  }

  /** A failed call changes the stage, the error and at most the attempt counter. */
  lemma FailureRestages(s: Sys, maxRetries: nat)
    requires WellFormed(s) && s.pc.Failed?
    ensures var t := TransportFailure(s, s.pc.failure, maxRetries);
            && t == s.(disk := t.disk, mem := t.disk, pc := Down)
            && t.disk == s.disk.(stage := t.disk.stage, error := t.disk.error,
                                 transportAttempts := t.disk.transportAttempts)
            && (t.disk.stage.BLOCKED? || t.disk.stage.RETRY_WAIT?) && t.disk.error != BlockedOutputError
  {
    hide WellFormed, Legal;
    AtCall(s);
  }

  // ---------------------------------------------------------------------------
  // What judging and staging leave alone
  // ---------------------------------------------------------------------------

  predicate SameSlots(j: Job, k: Job) {
    && j.investigator == k.investigator && j.critic == k.critic && j.finalizer == k.finalizer
    && j.transportAttempts == k.transportAttempts && j.submitAttempts == k.submitAttempts
  }

  predicate SameCounts(s: Sys, t: Sys) {
    && t.sent == s.sent && t.charged == s.charged && t.uncharged == s.uncharged
    && t.lost == s.lost && t.blanks == s.blanks && t.requeues == s.requeues
  }

  /** No artifact is dropped, and an unknown outcome stays one. */
  predicate Grows(j: Job, k: Job) {
    && (j.candidate.Some? ==> k.candidate.Some?) && (j.report.Some? ==> k.report.Some?)
    && (j.finalizerDigest.Some? ==> k.finalizerDigest.Some?)
    && (j.stage == REMOTE_OUTCOME_UNKNOWN ==> k.stage == REMOTE_OUTCOME_UNKNOWN)
  }

  /** No transport, no charge, no paid text touched, no receipt; at most one hand-over to submit. */
  predicate Framed(s: Sys, t: Sys) {
    && SameCounts(s, t) && SameSlots(s.disk, t.disk) && Grows(s.disk, t.disk)
    && t.prov == s.prov && t.policy == s.policy
    && (t.disk.stage == BLOCKED || Selectable(t.disk.stage))
    && (t.pc.Down? || Driving(t.pc) || Gating(t.pc) || t.pc.Submitting?)
    && (if t.pc.Submitting? then t.submitted == s.submitted + [t.disk] else t.submitted == s.submitted)
  }

  lemma FramedValidate(s: Sys, packet: Packet)
    requires Driving(s.pc) && s.mem == s.disk && s.mem.stage == INVESTIGATOR_RESPONSE
    ensures Framed(s, StepValidate(s, packet))
  {
  }

  lemma FramedCriticVerdict(s: Sys, packet: Packet)
    requires Driving(s.pc) && s.mem == s.disk && s.mem.stage == CRITIC_CALLING
    ensures Framed(s, CriticVerdict(s, packet))
  {
  }

  lemma FramedFinalizerVerdict(s: Sys, packet: Packet)
    requires Driving(s.pc) && s.mem == s.disk && s.mem.stage == FINALIZER_CALLING
    ensures Framed(s, FinalizerVerdict(s, packet))
  {
  }

  lemma FramedJudge(s: Sys, role: Role, packet: Packet)
    requires Driving(s.pc) && s.mem == s.disk && CallStage(s.mem.stage, role, true)
    ensures Framed(s, Judge(s, role, packet))
  {
    hide Framed, StepValidate, CriticVerdict, FinalizerVerdict;
    match role
    case Investigator => FramedValidate(s, packet);
    case Critic => FramedCriticVerdict(s, packet);
    case Finalizer => FramedFinalizerVerdict(s, packet);
  }

  lemma FramedCritic(s: Sys, packet: Packet)
    requires s.pc.Top? && s.mem == s.disk && (s.mem.stage == CANDIDATE_READY || s.mem.stage == CRITIC_CALLING)
    ensures Framed(s, StepCritic(s, packet))
  {
    if s.mem.stage == CRITIC_CALLING {
      FramedCriticVerdict(s, packet);
    }
  }

  lemma FramedFinalize(s: Sys, packet: Packet)
    requires s.pc.Top? && s.mem == s.disk && (s.mem.stage == CRITIC_READY || s.mem.stage == FINALIZER_CALLING)
    ensures Framed(s, StepFinalize(s, packet))
  {
    if s.mem.stage == FINALIZER_CALLING {
      FramedFinalizerVerdict(s, packet);
    }
  }

  lemma FramedRetry(s: Sys)
    requires s.pc.Top? && s.mem == s.disk && s.mem.stage == RETRY_WAIT
    ensures Framed(s, Advance(s, s.mem, ResumeStage(s.mem), Top))
  {
  }

  lemma FramedSubmit(s: Sys)
    requires s.pc.Top? && s.mem == s.disk && (s.mem.stage == FINAL_READY || s.mem.stage == SUBMITTING)
    ensures Framed(s, StepSubmit(s))
  {
  }

  lemma FramedPlain(s: Sys, packet: Packet, due: bool)
    requires s.pc.Top? && s.mem == s.disk && Plain(NextAction(s.mem, due)) && Selectable(s.disk.stage)
    ensures Framed(s, StepTop(s, packet, due))
  {
    hide StepSubmit, ResumeStage, Legal;
    match NextAction(s.mem, due)
    case Retry => FramedRetry(s);
    case Submit => FramedSubmit(s);
    case _ =>
  }

  lemma {:induction false} FramedDrive(s: Sys, e: Event, packet: Packet)
    requires WellFormed(s) && Driving(s.pc)
    ensures Framed(s, Drive(s, e, packet))
  {
    assert s.mem == s.disk && Selectable(s.disk.stage);
    if e.Tick? {
      if s.pc.Judging? {
        assert CallStage(s.mem.stage, s.pc.role, true);
        FramedJudge(s, s.pc.role, packet);
      } else {
        assert NextAction(s.mem, e.due) == Validate ==> s.mem.stage == INVESTIGATOR_RESPONSE;
        match NextAction(s.mem, e.due)
        case Validate => FramedValidate(s, packet);
        case DoCritic => FramedCritic(s, packet);
        case Finalize => FramedFinalize(s, packet);
        case _ => FramedPlain(s, packet, e.due);
      }
    }
  }
}
