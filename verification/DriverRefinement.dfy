/** The durable driver refines the straight-line decision: whatever crashes, failures, retries,
    budget stops and requeues interleave, a unit only ever submits the candidate that
    `run_investigation` returns, and is only blocked on its output when that returns none. */
module DriverRefinement {
  import opened Options
  import opened Deliberation
  import opened Jobs
  import opened Driver
  import opened DriverShape

  /** The fixed surroundings of one unit: a deterministic model, its packet, one policy. */
  datatype World = World(model: Model, packet: Packet, policy: Policy)
  {
    ghost predicate Valid() { StrictPacket(packet) }
    function First(): Option<Candidate> { Investigated(model, packet, 1) }
    function Final(): Option<Candidate> { Decide(model, packet, policy, FinalizerOnByDefaultOn(policy), 1) }
    function Critique(): Option<Report>
      requires First().Some?
    {
      Criticised(model, packet, First().value, 1)
    }
    predicate CriticDue() { First().Some? && NeedsCritic(First().value, packet, policy) }
  }

  /** A slot holds the model's own reply to `prompt`, and its repair the reply to the refusal. */
  ghost predicate SlotTrue<T>(slot: Slot, w: World, role: Role, prompt: Prompt, parse: string -> Parsed<T>) {
    && (slot.reply.Some? ==> slot.reply.value == w.model(role, prompt))
    && (slot.repairs == if slot.repair.Some? then 1 else 0)
    && (slot.repair.Some? ==>
          && slot.reply.Some?
          && parse(slot.reply.value).Rejected?
          && slot.repair.value == w.model(role, RepairPrompt(slot.reply.value, parse(slot.reply.value).why)))
  }

  /** Validating such a slot computes the role's answer. */
  lemma SlotAnswers<T>(slot: Slot, w: World, role: Role, prompt: Prompt, parse: string -> Parsed<T>)
    requires SlotTrue(slot, w, role, prompt, parse) && slot.reply.Some? && parse("").Rejected?
    ensures match ValidateSlot(slot, parse)
            case Valid(v) => Answer(w.model, role, prompt, parse, 1) == Some(v)
            case Invalid => Answer(w.model, role, prompt, parse, 1) == None
            case NeedsRepair(why) => parse(slot.reply.value) == Rejected(why) && slot.repair.None?
  {
  }

  ghost predicate CriticTrue(j: Job, w: World) {
    && j.critic.repairs == (if j.critic.repair.Some? then 1 else 0)
    && (!NoText(j.critic) ==>
          w.CriticDue() && SlotTrue(j.critic, w, Critic, CriticPrompt(w.First().value), w.packet.parseReport))
    && (j.report.Some? ==> w.CriticDue() && w.Critique() == j.report)
  }

  ghost predicate FinalizerTrue(j: Job, w: World) {
    && j.finalizer.repairs == (if j.finalizer.repair.Some? then 1 else 0)
    && (!NoText(j.finalizer) ==>
          && w.CriticDue() && j.report.Some?
          && SlotTrue(j.finalizer, w, Finalizer, FinalizerPrompt(w.First().value, j.report.value),
                      w.packet.parseCandidate))
  }

  /** Every artifact of the job is the one the straight-line decision would have produced. */
  ghost predicate Faithful(j: Job, w: World) {
    if j.stage == DONE then j.receipt.Some? && j.receipt == w.Final()
    else
      && SlotTrue(j.investigator, w, Investigator, PacketPrompt, w.packet.parseCandidate)
      && CriticTrue(j, w) && FinalizerTrue(j, w)
      && (j.candidate.Some? ==> j.candidate == if j.finalizerDigest.Some? then w.Final() else w.First())
      && (j.stage == CRITIC_CALLING ==> w.CriticDue())
      && (j.stage == FINALIZER_CALLING ==> FinalizerOnByDefaultOn(w.policy))
      && ((j.stage.FINAL_READY? || j.stage.SUBMITTING?) ==> j.candidate == w.Final())
      && (j.stage == BLOCKED && j.error == BlockedOutputError ==> w.Final().None?)
  }

  /** What an outstanding request asks. */
  ghost predicate AsksFor(j: Job, call: Request, w: World) {
    call.repaired ==>
      exists why :: Refused(w.packet, call.role, OrEmpty(j.Of(call.role).reply), why)
                    && call.id.prompt == RepairPrompt(OrEmpty(j.Of(call.role).reply), why)
                    && j.Of(call.role).repair.None?
  }

  ghost predicate PcTrue(s: Sys, w: World) {
    match s.pc
    case Repairing(role, why) =>
      Refused(w.packet, role, OrEmpty(s.mem.Of(role).reply), why) && s.mem.Of(role).repair.None?
    case Marked(call) => AsksFor(s.mem, call, w)
    case Sent(call) => AsksFor(s.mem, call, w)
    case Failed(call, _) => AsksFor(s.mem, call, w)
    case Replied(call, text) => AsksFor(s.mem, call, w) && text == w.model(call.role, call.id.prompt)
    case _ => true
  }

  ghost predicate Refines(s: Sys, w: World) {
    && WellFormed(s)
    && Faithful(s.disk, w)
    && (s.pc.Down? || s.policy == w.policy)
    && PcTrue(s, w)
    && (forall i :: 0 <= i < |s.submitted| ==> s.submitted[i].candidate.Some? && s.submitted[i].candidate == w.Final())
    && (s.disk.stage == DONE || s.pc.Submitting? || s.pc.Committed? || s.pc.Recorded? ==> s.submitted != [])
  }

  /** The environment is the world's: its policy, and replies that are its model's. */
  ghost predicate Honest(s: Sys, e: Event, w: World) {
    && (e.Start? ==> e.policy == w.policy)
    && (e.Reply? && s.pc.Sent? ==> e.text == w.model(s.pc.call.role, s.pc.call.id.prompt))
  }

  // ---------------------------------------------------------------------------
  // One step
  // ---------------------------------------------------------------------------

  lemma RefinesInvestigator(s: Sys, w: World)
    requires w.Valid() && Refines(s, w) && Driving(s.pc) && s.mem.stage == INVESTIGATOR_RESPONSE
    ensures Refines(StepValidate(s, w.packet), w)
  {
    WellFormedValidate(s, w.packet);
    SlotAnswers(s.mem.investigator, w, Investigator, PacketPrompt, w.packet.parseCandidate);
    assert s.mem == s.disk && s.mem.finalizerDigest.None?;
  }

  lemma RefinesCriticVerdict(s: Sys, w: World)
    requires w.Valid() && Refines(s, w) && Driving(s.pc) && s.mem.stage == CRITIC_CALLING && s.mem.critic.reply.Some?
    ensures Refines(CriticVerdict(s, w.packet), w)
  {
    WellFormedCriticVerdict(s, w.packet);
    SlotAnswers(s.mem.critic, w, Critic, CriticPrompt(w.First().value), w.packet.parseReport);
    assert s.mem == s.disk;
    assert FinalizerTrue(s.mem.(report := s.mem.report), w);
    FinalizerKept(s, w);
  }

  /** Before the critic has spoken the finalizer's slot is untouched. */
  lemma FinalizerKept(s: Sys, w: World)
    requires WellFormed(s) && Driving(s.pc) && s.mem == s.disk && s.mem.stage == CRITIC_CALLING
    requires FinalizerTrue(s.mem, w)
    ensures forall k: Job :: k.finalizer == s.mem.finalizer ==> FinalizerTrue(k, w)
  {
  }

  lemma RefinesFinalizerVerdict(s: Sys, w: World)
    requires w.Valid() && Refines(s, w) && Driving(s.pc) && s.mem.stage == FINALIZER_CALLING
    requires s.mem.finalizer.reply.Some?
    ensures Refines(FinalizerVerdict(s, w.packet), w)
  {
    WellFormedFinalizerVerdict(s, w.packet);
    SlotAnswers(s.mem.finalizer, w, Finalizer, FinalizerPrompt(w.First().value, s.mem.report.value),
                w.packet.parseCandidate);
    assert s.mem == s.disk && s.mem.candidate == w.First() && Disputed(s.mem.candidate, s.mem.report.value);
  }

  lemma RefinesJudge(s: Sys, role: Role, w: World)
    requires w.Valid() && Refines(s, w) && Driving(s.pc) && CallStage(s.mem.stage, role, true)
    requires s.mem.Of(role).reply.Some?
    ensures Refines(Judge(s, role, w.packet), w)
  {
    hide Refines, StepValidate, CriticVerdict, FinalizerVerdict;
    match role
    case Investigator => RefinesInvestigator(s, w);
    case Critic => RefinesCriticVerdict(s, w);
    case Finalizer => RefinesFinalizerVerdict(s, w);
  }

  lemma RefinesCritic(s: Sys, w: World)
    requires w.Valid() && Refines(s, w) && s.pc.Top?
    requires (s.mem.stage == CANDIDATE_READY || s.mem.stage == CRITIC_CALLING)
    ensures Refines(StepCritic(s, w.packet), w)
  {
    WellFormedCritic(s, w.packet);
    assert s.mem == s.disk && s.mem.finalizerDigest.None?;
    if s.mem.stage == CRITIC_CALLING && Has(s.mem.critic.reply) {
      RefinesCriticVerdict(s, w);
    }
  }

  /** The decision once the critic has spoken. */
  lemma FinalOnceCriticised(w: World, k: Report)
    requires w.CriticDue() && w.Critique() == Some(k)
    ensures !Disputed(w.First(), k) ==> w.Final() == w.First()
    ensures Disputed(w.First(), k) && !FinalizerOnByDefaultOn(w.policy) ==> w.Final().None?
  {
  }

  lemma RefinesFinalize(s: Sys, w: World)
    requires w.Valid() && Refines(s, w) && s.pc.Top?
    requires (s.mem.stage == CRITIC_READY || s.mem.stage == FINALIZER_CALLING)
    ensures Refines(StepFinalize(s, w.packet), w)
  {
    WellFormedFinalize(s, w.packet);
    assert s.mem == s.disk && s.mem.finalizerDigest.None? && s.mem.candidate == w.First();
    if s.mem.stage == FINALIZER_CALLING && Has(s.mem.finalizer.reply) {
      RefinesFinalizerVerdict(s, w);
    } else {
      FinalOnceCriticised(w, s.mem.report.value);
    }
  }

  /** Parking, blocking for another reason, waiting or going stale touches no artifact. */
  lemma Restaged(j: Job, k: Job, w: World)
    requires Faithful(j, w) && j.stage != DONE
    requires k == j.(stage := k.stage, error := k.error, transportAttempts := k.transportAttempts,
                     submitAttempts := k.submitAttempts)
    requires k.stage.BLOCKED? || k.stage.RETRY_WAIT? || k.stage.REMOTE_OUTCOME_UNKNOWN? || k.stage.STALE?
             || k.stage.READY? || k.stage.INVESTIGATOR_CALLING? || k.stage.BLOCKED_BINDING?
    requires k.stage == BLOCKED ==> k.error != BlockedOutputError
    ensures Faithful(k, w)
  {
  }

  lemma RefinesPlain(s: Sys, due: bool, w: World)
    requires Refines(s, w) && s.pc.Top?
    requires var a := NextAction(s.mem, due); a.Skip? || a.Ambiguous? || a.DoCall? || a.Wait?
    ensures Refines(StepTop(s, w.packet, due), w)
  {
    assert s.mem == s.disk && Selectable(s.disk.stage);
    FramedPlain(s, w.packet, due);
    var t := StepTop(s, w.packet, due);
    if t.disk != s.disk {
      Restaged(s.disk, t.disk, w);
    }
    WellFormedDrive(s, Tick(due), w.packet);
  }

  lemma RefinesSubmit(s: Sys, w: World)
    requires Refines(s, w) && s.pc.Top? && (s.mem.stage == FINAL_READY || s.mem.stage == SUBMITTING)
    ensures Refines(StepSubmit(s), w)
  {
    hide WellFormed, CriticTrue, FinalizerTrue, SlotTrue, PcTrue;
    WellFormedSubmit(s);
    SubmitFacts(s);
    SameTruth(s.mem, SUBMITTING, w);
    PcPlain(StepSubmit(s), w);
  }

  lemma SubmitFacts(s: Sys)
    requires WellFormed(s) && s.pc.Top? && (s.mem.stage == FINAL_READY || s.mem.stage == SUBMITTING)
    ensures s.mem == s.disk && s.mem.candidate.Some? && StepSubmit(s).pc.Submitting?
  {
  }

  lemma PcPlain(s: Sys, w: World)
    requires s.pc.Submitting?
    ensures PcTrue(s, w)
  {
  }

  lemma SameTruth(j: Job, st: Stage, w: World)
    ensures CriticTrue(j.(stage := st), w) == CriticTrue(j, w)
    ensures FinalizerTrue(j.(stage := st), w) == FinalizerTrue(j, w)
  {
  }

  /** Resuming keeps every artifact; FINAL_READY is resumed only behind the finalizer's answer. */
  lemma RefinesResumed(j: Job, w: World, e: ErrorClass)
    requires Faithful(j, w) && (j.stage == RETRY_WAIT || j.stage == BLOCKED_BINDING)
    ensures Faithful(j.(stage := ResumeStage(j), error := e), w)
  {
  }

  lemma RefinesRetry(s: Sys, w: World)
    requires Refines(s, w) && s.pc.Top? && s.mem.stage == RETRY_WAIT
    ensures Refines(Advance(s, s.mem, ResumeStage(s.mem), Top), w)
  {
    WellFormedDrive(s, Tick(true), w.packet);
    RefinesResumed(s.mem, w, s.mem.error);
    assert s.mem == s.disk && Legal(s.mem.stage, ResumeStage(s.mem));
    assert s.mem.(stage := ResumeStage(s.mem)) == s.mem.(stage := ResumeStage(s.mem), error := s.mem.error);
  }

  lemma RefinesDrive(s: Sys, e: Event, w: World)
    requires w.Valid() && Refines(s, w) && Driving(s.pc)
    ensures Refines(Drive(s, e, w.packet), w)
  {
    if s.pc.Judging? {
      RefinesJudge(s, s.pc.role, w);
    } else if e.Tick? {
      assert NextAction(s.mem, e.due) == Validate ==> s.mem.stage == INVESTIGATOR_RESPONSE;
      match NextAction(s.mem, e.due)
      case Validate => RefinesInvestigator(s, w);
      case DoCritic => RefinesCritic(s, w);
      case Finalize => RefinesFinalize(s, w);
      case Submit => RefinesSubmit(s, w);
      case Retry => RefinesRetry(s, w);
      case _ => RefinesPlain(s, e.due, w);
    }
  }

  /** An attempt identity is no artifact. */
  lemma MarkedTruth(j: Job, role: Role, id: AttemptId, w: World)
    requires Faithful(j, w) && Selectable(j.stage)
    ensures Faithful(j.Put(role, j.Of(role).(attempt := Some(id))).(error := NoError), w)
  {
  }

  lemma RefinesGate(s: Sys, e: Event, w: World)
    requires Refines(s, w) && Gating(s.pc)
    ensures Refines(AtGate(s, e), w)
  {
    WellFormedGate(s, e);
    assert s.mem == s.disk && Selectable(s.disk.stage);
    if e.Gate? && e.open {
      MarkedTruth(s.mem, s.pc.role, AtGate(s, e).pc.call.id, w);
    }
  }

  lemma RefinesWire(s: Sys, e: Event, w: World)
    requires Refines(s, w) && Honest(s, e, w) && OnWire(s.pc)
    ensures Refines(Wire(s, e), w)
  {
    WellFormedWire(s, e);
  }

  /** The reply that is kept is the one the world gives to what was asked. */
  lemma RefinesPrimary(s: Sys, w: World)
    requires Refines(s, w) && s.pc.Replied? && !s.pc.call.repaired
    ensures Refines(KeepReply(s, s.pc.call, s.pc.text), w)
  {
    WellFormedReply(s);
    assert s.mem == s.disk && RequestFits(s.mem, s.pc.call);
    assert Layered(s.mem) && StageFits(s.mem);
  }

  lemma RefinesRepair(s: Sys, w: World)
    requires Refines(s, w) && s.pc.Replied? && s.pc.call.repaired
    ensures Refines(KeepReply(s, s.pc.call, s.pc.text), w)
  {
    WellFormedReply(s);
    assert s.mem == s.disk && RequestFits(s.mem, s.pc.call);
  }

  lemma RefinesFailure(s: Sys, w: World, maxRetries: nat)
    requires Refines(s, w) && s.pc.Failed?
    ensures Refines(TransportFailure(s, s.pc.failure, maxRetries), w)
  {
    hide WellFormed, Faithful, TransportFailure;
    WellFormedFailure(s, maxRetries);
    AtCall(s);
    FailureRestages(s, maxRetries);
    Restaged(s.disk, TransportFailure(s, s.pc.failure, maxRetries).disk, w);
  }

  lemma RefinesAbsorb(s: Sys, e: Event, w: World, maxRetries: nat)
    requires Refines(s, w) && Absorbing(s.pc)
    ensures Refines(Absorb(s, e, maxRetries), w)
  {
    hide Refines, KeepReply, TransportFailure;
    if s.pc.Failed? {
      RefinesFailure(s, w, maxRetries);
    } else if s.pc.call.repaired {
      RefinesRepair(s, w);
    } else {
      RefinesPrimary(s, w);
    }
  }

  lemma RefinesKernel(s: Sys, answer: KernelAnswer, w: World, maxRetries: nat)
    requires Refines(s, w) && s.pc.Submitting?
    ensures Refines(KernelAnswers(s, answer, maxRetries), w)
  {
    WellFormedFinish(s, Kernel(answer), maxRetries);
    assert s.mem == s.disk && s.disk.stage == SUBMITTING && !Legal(SUBMITTING, RETRY_WAIT);
    var t := KernelAnswers(s, answer, maxRetries);
    if t.disk != s.disk {
      assert t.disk == s.disk.(stage := t.disk.stage, error := t.disk.error, submitAttempts := t.disk.submitAttempts);
      Restaged(s.disk, t.disk, w);
    }
  }

  lemma RefinesFinish(s: Sys, e: Event, w: World, maxRetries: nat)
    requires Refines(s, w) && Finishing(s.pc)
    ensures Refines(Finish(s, e, maxRetries), w)
  {
    if s.pc.Submitting? {
      if e.Kernel? {
        RefinesKernel(s, e.answer, w, maxRetries);
      }
    } else {
      WellFormedFinish(s, e, maxRetries);
      assert s.pc.Recorded? ==> s.mem.receipt == w.Final() && s.disk.candidate.Some?;
    }
  }

  lemma RefinesBegin(s: Sys, bindable: bool, packetOk: bool, w: World)
    requires Refines(s, w) && s.pc.Down? && s.policy == w.policy && Selectable(s.disk.stage)
    ensures Refines(Begin(s, bindable, packetOk), w)
  {
    WellFormedDown(s, Start(s.policy, bindable, packetOk));
    var j := s.disk;
    if j.stage == BLOCKED_BINDING {
      RefinesResumed(j, w, NoError);
      j := j.(stage := ResumeStage(j), error := NoError);
    }
    assert j.stage != DONE;
    if !packetOk {
      Restaged(j, j.(stage := BLOCKED, error := PacketError), w);
    }
  }

  lemma RefinesDown(s: Sys, e: Event, w: World)
    requires Refines(s, w) && s.pc.Down? && Honest(s, e, w)
    ensures Refines(WhenDown(s, e), w)
  {
    WellFormedDown(s, e);
    if e.Start? {
      if Selectable(s.disk.stage) {
        RefinesBegin(s.(policy := e.policy), e.bindable, e.packetOk, w);
      }
    } else {
      var t := WhenDown(s, e);
      if e.BlockBinding? && t.disk != s.disk {
        Restaged(s.disk, t.disk, w);
      } else if e.Requeue? && t.disk != s.disk {
        assert Faithful(Cleared(s.disk), w);
      }
    }
  }

  lemma {:induction false} RefinesStep(s: Sys, e: Event, w: World, maxRetries: nat)
    requires w.Valid() && Refines(s, w) && Honest(s, e, w)
    ensures Refines(Step(s, e, w.packet, maxRetries), w)
  {
    WellFormedStep(s, e, w.packet, maxRetries);
    if e.Crash? {
      assert Refines(Fall(s), w);
    }
    if s.pc.Down? {
      RefinesDown(s, e, w);
    } else if Driving(s.pc) {
      RefinesDrive(s, e, w);
    } else if Gating(s.pc) {
      RefinesGate(s, e, w);
    } else if OnWire(s.pc) {
      RefinesWire(s, e, w);
    } else if Absorbing(s.pc) {
      RefinesAbsorb(s, e, w, maxRetries);
    } else {
      RefinesFinish(s, e, w, maxRetries);
    }
  }

  // ---------------------------------------------------------------------------
  // Every run
  // ---------------------------------------------------------------------------

  ghost predicate HonestRun(events: seq<Event>, w: World, maxRetries: nat) {
    forall i :: 0 <= i < |events| ==>
      Honest(Run(Initial(w.policy), events[..i], w.packet, maxRetries), events[i], w)
  }

  lemma {:induction false} RefinesRun(events: seq<Event>, w: World, maxRetries: nat)
    requires w.Valid() && HonestRun(events, w, maxRetries)
    ensures Refines(Run(Initial(w.policy), events, w.packet, maxRetries), w)
  {
    if events != [] {
      var before := events[..|events| - 1];
      forall i | 0 <= i < |before| ensures before[..i] == events[..i] {}
      RefinesRun(before, w, maxRetries);
      assert Honest(Run(Initial(w.policy), before, w.packet, maxRetries), events[|before|], w);
      RefinesStep(Run(Initial(w.policy), before, w.packet, maxRetries), events[|before|], w, maxRetries);
    }
  }

  /** Refinement. Over every run of the driver against one deterministic model and one policy that
      names its finalizer switch, the straight-line decision fixes the outcome: every hand-over to
      submit carries exactly its candidate, DONE means it has one, and a job blocked on its output
      means it has none. */
  lemma DriverRefinesDecision(events: seq<Event>, w: World, maxRetries: nat)
    requires w.Valid() && HonestRun(events, w, maxRetries) && w.policy.finalizer.Some?
    ensures var s := Run(Initial(w.policy), events, w.packet, maxRetries);
            var d := Decide(w.model, w.packet, w.policy, FinalizerOnByDefaultOff(w.policy), 1);
            && (forall i :: 0 <= i < |s.submitted| ==> s.submitted[i].candidate == d && d.Some?)
            && (s.disk.stage == DONE ==> d.Some? && s.disk.receipt == d && s.submitted != [])
            && (s.disk.stage == BLOCKED && s.disk.error == BlockedOutputError ==> d.None? && s.submitted == [])
  {
    RefinesRun(events, w, maxRetries);
    assert FinalizerOnByDefaultOff(w.policy) == FinalizerOnByDefaultOn(w.policy);
    var s := Run(Initial(w.policy), events, w.packet, maxRetries);
    if s.submitted != [] {
      assert s.submitted[0].candidate == w.Final();
    }
  }
}
