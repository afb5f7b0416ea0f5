/** What a drive comes to: the one illegal move it can ask for, and the outcome when nothing
    disturbs it. */
module DriverOutcome {
  import opened Options
  import opened Deliberation
  import opened Jobs
  import opened Driver
  import opened DriverShape
  import opened DriverRefinement

  // ---------------------------------------------------------------------------
  // The transition table is left only by a kernel refusal
  // ---------------------------------------------------------------------------

  predicate Lawful(s: Sys, packet: Packet, policy: Policy, maxRetries: nat) {
    && WellFormed(s)
    && (s.pc.Down? || s.policy == policy)
    && (s.disk.stage == CRITIC_CALLING ==> NeedsCritic(s.disk.candidate.value, packet, policy))
    && (maxRetries >= 1 ==> s.disk.submitAttempts == 0)
  }

  /** The move `SUBMITTING -> RETRY_WAIT`, asked for inside the retry allowance. */
  predicate RefusedWithinAllowance(s: Sys, e: Event, maxRetries: nat) {
    s.pc.Submitting? && e == Kernel(Refuse) && maxRetries >= 1
  }

  predicate StaysLawful(s: Sys, t: Sys, packet: Packet, policy: Policy, maxRetries: nat) {
    && (t.pc.Down? || t.policy == policy)
    && (t.disk.stage == CRITIC_CALLING ==>
          t.disk.candidate.Some? && NeedsCritic(t.disk.candidate.value, packet, policy))
    && (maxRetries >= 1 ==> t.disk.submitAttempts == 0)
    && t.raised == s.raised
  }

  lemma LawfulValidate(s: Sys, packet: Packet, policy: Policy, maxRetries: nat)
    requires Lawful(s, packet, policy, maxRetries) && Driving(s.pc) && s.mem.stage == INVESTIGATOR_RESPONSE
    ensures StaysLawful(s, StepValidate(s, packet), packet, policy, maxRetries)
  {
    assert s.mem == s.disk;
  }

  lemma LawfulCriticVerdict(s: Sys, packet: Packet, policy: Policy, maxRetries: nat)
    requires Lawful(s, packet, policy, maxRetries) && Driving(s.pc) && s.mem.stage == CRITIC_CALLING
    ensures StaysLawful(s, CriticVerdict(s, packet), packet, policy, maxRetries)
  {
    assert s.mem == s.disk;
  }

  lemma LawfulFinalizerVerdict(s: Sys, packet: Packet, policy: Policy, maxRetries: nat)
    requires Lawful(s, packet, policy, maxRetries) && Driving(s.pc) && s.mem.stage == FINALIZER_CALLING
    ensures StaysLawful(s, FinalizerVerdict(s, packet), packet, policy, maxRetries)
  {
    assert s.mem == s.disk;
  }

  lemma LawfulJudge(s: Sys, role: Role, packet: Packet, policy: Policy, maxRetries: nat)
    requires Lawful(s, packet, policy, maxRetries) && Driving(s.pc) && CallStage(s.mem.stage, role, true)
    ensures StaysLawful(s, Judge(s, role, packet), packet, policy, maxRetries)
  {
    hide Lawful, StaysLawful, StepValidate, CriticVerdict, FinalizerVerdict;
    match role
    case Investigator => LawfulValidate(s, packet, policy, maxRetries);
    case Critic => LawfulCriticVerdict(s, packet, policy, maxRetries);
    case Finalizer => LawfulFinalizerVerdict(s, packet, policy, maxRetries);
  }

  lemma LawfulCritic(s: Sys, packet: Packet, policy: Policy, maxRetries: nat)
    requires Lawful(s, packet, policy, maxRetries) && s.pc.Top?
    requires (s.mem.stage == CANDIDATE_READY || s.mem.stage == CRITIC_CALLING)
    ensures StaysLawful(s, StepCritic(s, packet), packet, policy, maxRetries)
  {
    assert s.mem == s.disk && s.mem.candidate.Some?;
    if s.mem.stage == CRITIC_CALLING {
      LawfulCriticVerdict(s, packet, policy, maxRetries);
    }
  }

  lemma LawfulFinalize(s: Sys, packet: Packet, policy: Policy, maxRetries: nat)
    requires Lawful(s, packet, policy, maxRetries) && s.pc.Top?
    requires (s.mem.stage == CRITIC_READY || s.mem.stage == FINALIZER_CALLING)
    ensures StaysLawful(s, StepFinalize(s, packet), packet, policy, maxRetries)
  {
    assert s.mem == s.disk && (s.mem.stage == FINALIZER_CALLING ==> Disputed(s.mem.candidate, s.mem.report.value));
    if s.mem.stage == FINALIZER_CALLING {
      LawfulFinalizerVerdict(s, packet, policy, maxRetries);
    }
  }

  lemma LawfulPlain(s: Sys, packet: Packet, due: bool, policy: Policy, maxRetries: nat)
    requires Lawful(s, packet, policy, maxRetries) && s.pc.Top? && Plain(NextAction(s.mem, due))
    ensures StaysLawful(s, StepTop(s, packet, due), packet, policy, maxRetries)
  {
    assert s.mem == s.disk && StageFits(s.mem) && Selectable(s.disk.stage);
  }

  lemma LawfulDrive(s: Sys, e: Event, packet: Packet, policy: Policy, maxRetries: nat)
    requires Lawful(s, packet, policy, maxRetries) && Driving(s.pc)
    ensures StaysLawful(s, Drive(s, e, packet), packet, policy, maxRetries)
  {
    if !e.Tick? {
    } else if s.pc.Judging? {
      assert CallStage(s.mem.stage, s.pc.role, true);
      LawfulJudge(s, s.pc.role, packet, policy, maxRetries);
    } else {
      assert NextAction(s.mem, e.due) == Validate ==> s.mem.stage == INVESTIGATOR_RESPONSE;
      match NextAction(s.mem, e.due)
      case Validate => LawfulValidate(s, packet, policy, maxRetries);
      case DoCritic => LawfulCritic(s, packet, policy, maxRetries);
      case Finalize => LawfulFinalize(s, packet, policy, maxRetries);
      case _ => LawfulPlain(s, packet, e.due, policy, maxRetries);
    }
  }

  lemma LawfulGate(s: Sys, e: Event, packet: Packet, policy: Policy, maxRetries: nat)
    requires Lawful(s, packet, policy, maxRetries) && Gating(s.pc)
    ensures StaysLawful(s, AtGate(s, e), packet, policy, maxRetries)
  {
    assert s.mem == s.disk && (s.mem.stage == CRITIC_CALLING ==> s.mem.candidate.Some?);
    match s.pc.role
    case Investigator =>
    case Critic =>
    case Finalizer =>
  }

  lemma LawfulWire(s: Sys, e: Event, packet: Packet, policy: Policy, maxRetries: nat)
    requires Lawful(s, packet, policy, maxRetries) && OnWire(s.pc)
    ensures StaysLawful(s, Wire(s, e), packet, policy, maxRetries)
  {
    assert s.disk.stage == CRITIC_CALLING ==> s.disk.candidate.Some?;
  }

  lemma LawfulAbsorb(s: Sys, e: Event, packet: Packet, policy: Policy, maxRetries: nat)
    requires Lawful(s, packet, policy, maxRetries) && Absorbing(s.pc)
    ensures StaysLawful(s, Absorb(s, e, maxRetries), packet, policy, maxRetries)
  {
    hide WellFormed, Legal, NeedsCritic;
    AtCall(s);
    if s.pc.Failed? {
      FailureRestages(s, maxRetries);
    } else {
      match s.pc.call.role
      case Investigator =>
      case Critic =>
      case Finalizer =>
    }
  }

  /** The one illegal move, and nothing else, between the kernel's answer and the tombstone. */
  lemma LawfulFinish(s: Sys, e: Event, packet: Packet, policy: Policy, maxRetries: nat)
    requires Lawful(s, packet, policy, maxRetries) && Finishing(s.pc)
    ensures var t := Finish(s, e, maxRetries);
            if RefusedWithinAllowance(s, e, maxRetries)
            then t.raised && t.pc.Down? && t.disk == s.disk
            else StaysLawful(s, t, packet, policy, maxRetries)
  {
    assert s.pc.Submitting? ==> s.mem == s.disk && s.disk.stage == SUBMITTING;
    assert s.mem.submitAttempts == s.disk.submitAttempts;
    assert s.disk.stage == CRITIC_CALLING ==> s.disk.candidate.Some?;
  }

  lemma LawfulDown(s: Sys, e: Event, packet: Packet, policy: Policy, maxRetries: nat)
    requires Lawful(s, packet, policy, maxRetries) && s.pc.Down? && (e.Start? ==> e.policy == policy)
    ensures StaysLawful(s, WhenDown(s, e), packet, policy, maxRetries)
  {
    assert s.disk.stage == CRITIC_CALLING ==> s.disk.candidate.Some?;
  }

  lemma LawfulStep(s: Sys, e: Event, packet: Packet, policy: Policy, maxRetries: nat)
    requires Lawful(s, packet, policy, maxRetries) && (e.Start? ==> e.policy == policy)
    ensures var t := Step(s, e, packet, maxRetries);
            && Lawful(t, packet, policy, maxRetries)
            && (RefusedWithinAllowance(s, e, maxRetries) ==> t.raised && t.disk == s.disk)
            && (!RefusedWithinAllowance(s, e, maxRetries) ==> t.raised == s.raised)
  {
    WellFormedStep(s, e, packet, maxRetries);
    if e.Crash? {
      assert s.disk.stage == CRITIC_CALLING ==> s.disk.candidate.Some?;
    }
    if e.Crash? {
    } else if s.pc.Down? {
      LawfulDown(s, e, packet, policy, maxRetries);
    } else if Driving(s.pc) {
      LawfulDrive(s, e, packet, policy, maxRetries);
    } else if Gating(s.pc) {
      LawfulGate(s, e, packet, policy, maxRetries);
    } else if OnWire(s.pc) {
      LawfulWire(s, e, packet, policy, maxRetries);
    } else if Absorbing(s.pc) {
      LawfulAbsorb(s, e, packet, policy, maxRetries);
    } else {
      LawfulFinish(s, e, packet, policy, maxRetries);
    }
  }

  /** Some step of the run from a new job is such a refusal. */
  predicate SomeRefusal(policy: Policy, events: seq<Event>, packet: Packet, maxRetries: nat) {
    events != [] &&
    var before := events[..|events| - 1];
    SomeRefusal(policy, before, packet, maxRetries)
    || RefusedWithinAllowance(Run(Initial(policy), before, packet, maxRetries), events[|events| - 1], maxRetries)
  }

  /** Under one policy, over every run: no drive ever asks for a move off the table, except that a
      kernel refusal with any retry allowance asks for `SUBMITTING -> RETRY_WAIT`. That refusal
      always raises, writes nothing, and is never counted, so the allowance is never used up. */
  lemma {:induction false} OnlyRefusalsRaise(policy: Policy, events: seq<Event>, packet: Packet, maxRetries: nat)
    requires forall e :: e in events && e.Start? ==> e.policy == policy
    ensures var s := Run(Initial(policy), events, packet, maxRetries);
            && Lawful(s, packet, policy, maxRetries)
            && (s.raised <==> SomeRefusal(policy, events, packet, maxRetries))
            && (maxRetries >= 1 ==> s.disk.submitAttempts == 0)
            && (s.pc.Submitting? && maxRetries >= 1 ==> Step(s, Kernel(Refuse), packet, maxRetries).disk == s.disk)
  {
    if events != [] {
      var before := events[..|events| - 1];
      OnlyRefusalsRaise(policy, before, packet, maxRetries);
      LawfulStep(Run(Initial(policy), before, packet, maxRetries), events[|events| - 1], packet, policy, maxRetries);
    }
    LawfulStep(Run(Initial(policy), events, packet, maxRetries), Kernel(Refuse), packet, policy, maxRetries);
  }

  /** The single policy is needed: a drive that finds a unit in the middle of its critic asks for the
      illegal `CRITIC_CALLING -> FINAL_READY`, and so raises and writes nothing, exactly when the
      policy no longer wants a critic for it. */
  lemma PolicyChangeRaises(s: Sys, packet: Packet, due: bool, maxRetries: nat)
    requires WellFormed(s) && s.pc.Top? && !s.raised && s.mem.stage == CRITIC_CALLING && !Dangling(s.mem.critic)
    ensures s.mem.candidate.Some?
    ensures var t := Step(s, Tick(due), packet, maxRetries);
            && (t.raised <==> !NeedsCritic(s.mem.candidate.value, packet, s.policy))
            && (t.raised ==> t.pc.Down? && t.disk == s.disk)
  {
    hide NeedsCritic, Effective;
  }

  // ---------------------------------------------------------------------------
  // An undisturbed drive
  // ---------------------------------------------------------------------------

  /** The event of a calm world: every gate open, every reply the model's, the kernel accepting. */
  function CalmEvent(s: Sys, w: World): Event {
    match s.pc
    case Down => Start(w.policy, true, true)
    case Calling(_) => Gate(true)
    case Repairing(_, _) => Gate(true)
    case Sent(call) => Reply(w.model(call.role, call.id.prompt))
    case Submitting => Kernel(Accept)
    case Committed => Provenance(true)
    case _ => Tick(true)
  }

  predicate Settled(s: Sys) {
    s.pc.Down? && (s.disk.stage == DONE || (s.disk.stage == BLOCKED && s.disk.error == BlockedOutputError))
  }

  /** Where a calm run can stand. */
  predicate Calm(s: Sys) {
    match s.pc
    case Down => s.disk.stage == READY || Settled(s)
    case Top =>
      s.mem.stage.READY? || s.mem.stage.CANDIDATE_READY? || s.mem.stage.CRITIC_READY? || s.mem.stage.FINAL_READY?
    case Failed(_, _) => false
    case Recorded(ok) => ok
    case _ => true
  }

  function CallRank(pc: Pc, slot: Slot): nat {
    match pc
    case Calling(_) => 11
    case Marked(call) => if call.repaired then 3 else 10
    case Sent(call) => if call.repaired then 2 else 9
    case Replied(call, _) => if call.repaired then 1 else 8
    case Judging(_) => if Has(slot.repair) || slot.repairs > 0 then 0 else 5
    case Repairing(_, _) => 4
    case _ => 13
  }

  /** Steps a calm run still has to make, at most. */
  function Rank(s: Sys): nat {
    match s.mem.stage
    case READY => if s.pc.Down? then 72 else 71
    case INVESTIGATOR_CALLING => 58 + CallRank(s.pc, s.mem.investigator)
    case INVESTIGATOR_RESPONSE => 48 + CallRank(s.pc, s.mem.investigator)
    case CANDIDATE_READY => 44
    case CRITIC_CALLING => 30 + CallRank(s.pc, s.mem.critic)
    case CRITIC_READY => 26
    case FINALIZER_CALLING => 12 + CallRank(s.pc, s.mem.finalizer)
    case FINAL_READY => 10
    case SUBMITTING => if s.pc.Submitting? then 6 else if s.pc.Committed? then 5 else 4
    case DONE => if s.pc.Compacting? then 1 else 0
    case _ => 0
  }

  predicate Nearer(s: Sys, t: Sys) {
    Calm(t) && t.policy == s.policy && (Settled(t) || (!t.pc.Down? && Rank(t) < Rank(s)))
  }

  lemma CalmValidate(s: Sys, packet: Packet)
    requires WellFormed(s) && s.pc == Judging(Investigator)
    ensures Nearer(s, StepValidate(s, packet))
  {
    assert s.mem == s.disk && CallStage(s.mem.stage, Investigator, true) && s.mem.Of(Investigator).reply.Some?;
  }

  lemma CalmCriticVerdict(s: Sys, packet: Packet)
    requires WellFormed(s) && s.pc == Judging(Critic)
    ensures Nearer(s, CriticVerdict(s, packet))
  {
    assert s.mem == s.disk && CallStage(s.mem.stage, Critic, true) && s.mem.Of(Critic).reply.Some?;
  }

  lemma CalmFinalizerVerdict(s: Sys, packet: Packet)
    requires WellFormed(s) && s.pc == Judging(Finalizer)
    ensures Nearer(s, FinalizerVerdict(s, packet))
  {
    assert s.mem == s.disk && CallStage(s.mem.stage, Finalizer, true) && s.mem.Of(Finalizer).reply.Some?;
  }

  lemma CalmJudge(s: Sys, role: Role, packet: Packet)
    requires WellFormed(s) && s.pc == Judging(role)
    ensures Nearer(s, Judge(s, role, packet))
  {
    hide WellFormed, Nearer, StepValidate, CriticVerdict, FinalizerVerdict;
    match role
    case Investigator => CalmValidate(s, packet);
    case Critic => CalmCriticVerdict(s, packet);
    case Finalizer => CalmFinalizerVerdict(s, packet);
  }

  lemma CalmTop(s: Sys, packet: Packet)
    requires WellFormed(s) && Calm(s) && s.pc.Top?
    ensures Nearer(s, StepTop(s, packet, true))
  {
    assert s.mem == s.disk && Layered(s.mem) && StageFits(s.mem);
  }

  lemma CalmGate(s: Sys, e: Event, w: World)
    requires WellFormed(s) && Gating(s.pc) && e == CalmEvent(s, w)
    ensures Nearer(s, AtGate(s, e))
  {
    hide OrEmpty, PromptOf;
    assert s.mem == s.disk;
  }

  lemma CalmWire(s: Sys, e: Event, w: World)
    requires WellFormed(s) && OnWire(s.pc) && e == CalmEvent(s, w)
    ensures Nearer(s, Wire(s, e))
  {
    hide WellFormed;
    AtCall(s);
  }

  lemma CalmReply(s: Sys)
    requires WellFormed(s) && s.pc.Replied?
    ensures Nearer(s, KeepReply(s, s.pc.call, s.pc.text))
  {
    assert s.mem == s.disk && RequestFits(s.mem, s.pc.call);
    match s.pc.call.role
    case Investigator =>
    case Critic =>
    case Finalizer =>
  }

  lemma CalmFinish(s: Sys, w: World, maxRetries: nat)
    requires WellFormed(s) && Calm(s) && Finishing(s.pc)
    ensures Nearer(s, Finish(s, CalmEvent(s, w), maxRetries))
  {
    assert s.pc.Submitting? ==> s.mem.stage == SUBMITTING;
    assert s.pc.Committed? || s.pc.Recorded? ==>
             s.mem.stage == SUBMITTING && s.mem.receipt == s.disk.candidate && s.disk.candidate.Some?;
    assert s.pc.Compacting? ==> s.mem.stage == DONE;
  }

  lemma CalmStep(s: Sys, w: World, maxRetries: nat)
    requires WellFormed(s) && Calm(s) && !s.pc.Down?
    ensures Nearer(s, Step(s, CalmEvent(s, w), w.packet, maxRetries))
  {
    hide WellFormed, Nearer, Judge, StepTop, AtGate, Wire, KeepReply, Finish;
    if s.pc.Top? {
      CalmTop(s, w.packet);
    } else if s.pc.Judging? {
      CalmJudge(s, s.pc.role, w.packet);
    } else if Gating(s.pc) {
      CalmGate(s, CalmEvent(s, w), w);
    } else if OnWire(s.pc) {
      CalmWire(s, CalmEvent(s, w), w);
    } else if s.pc.Replied? {
      CalmReply(s);
    } else if !s.pc.Failed? {
      CalmFinish(s, w, maxRetries);
    }
  }

  /** The events of an undisturbed drive of a new job, for `n` steps. */
  function CalmEvents(w: World, n: nat, maxRetries: nat): seq<Event> {
    if n == 0 then []
    else
      var before := CalmEvents(w, n - 1, maxRetries);
      before + [CalmEvent(Run(Initial(w.policy), before, w.packet, maxRetries), w)]
  }

  function CalmRun(w: World, n: nat, maxRetries: nat): Sys {
    Run(Initial(w.policy), CalmEvents(w, n, maxRetries), w.packet, maxRetries)
  }

  lemma CalmRunStep(w: World, n: nat, maxRetries: nat)
    requires n > 0
    ensures var s := CalmRun(w, n - 1, maxRetries);
            CalmRun(w, n, maxRetries) == Step(s, CalmEvent(s, w), w.packet, maxRetries)
  {
    var before := CalmEvents(w, n - 1, maxRetries);
    var events := CalmEvents(w, n, maxRetries);
    assert events[..|events| - 1] == before && events[|events| - 1] == CalmEvent(CalmRun(w, n - 1, maxRetries), w);
  }

  /** Every reply of a calm run is the model's. */
  lemma {:induction false} CalmIsHonest(w: World, n: nat, maxRetries: nat)
    ensures |CalmEvents(w, n, maxRetries)| == n && HonestRun(CalmEvents(w, n, maxRetries), w, maxRetries)
  {
    hide Run, Honest;
    if n > 0 {
      CalmIsHonest(w, n - 1, maxRetries);
      var before, events := CalmEvents(w, n - 1, maxRetries), CalmEvents(w, n, maxRetries);
      forall i | 0 <= i < n
        ensures Honest(Run(Initial(w.policy), events[..i], w.packet, maxRetries), events[i], w)
      {
        assert events[..i] == before[..i];
        if i == n - 1 {
          assert before[..i] == before;
          CalmEventIsHonest(CalmRun(w, n - 1, maxRetries), w);
        } else {
          assert events[i] == before[i];
        }
      }
    }
  }

  lemma CalmEventIsHonest(s: Sys, w: World)
    ensures Honest(s, CalmEvent(s, w), w)
  {
  }

  lemma CalmStart(w: World, maxRetries: nat)
    ensures var s := Step(Initial(w.policy), CalmEvent(Initial(w.policy), w), w.packet, maxRetries);
            WellFormed(s) && Calm(s) && s.pc.Top? && Rank(s) == 71
  {
  }

  lemma NoEvents(w: World, maxRetries: nat)
    ensures CalmRun(w, 0, maxRetries) == Initial(w.policy)
  {
  }

  /** A settled job is not selected again. */
  lemma SettledStays(s: Sys, w: World, maxRetries: nat)
    requires Settled(s)
    ensures Step(s, CalmEvent(s, w), w.packet, maxRetries) == s
  {
  }

  lemma {:induction false} CalmSettles(w: World, n: nat, maxRetries: nat)
    requires n > 0
    ensures var s := CalmRun(w, n, maxRetries);
            WellFormed(s) && Calm(s) && (Settled(s) || (!s.pc.Down? && Rank(s) + n <= 72))
  {
    hide CalmRun, Step, WellFormed, Calm, Rank, Settled, CalmEvent;
    CalmRunStep(w, n, maxRetries);
    if n == 1 {
      NoEvents(w, maxRetries);
      CalmStart(w, maxRetries);
    } else {
      var s := CalmRun(w, n - 1, maxRetries);
      CalmSettles(w, n - 1, maxRetries);
      WellFormedStep(s, CalmEvent(s, w), w.packet, maxRetries);
      if Settled(s) {
        SettledStays(s, w, maxRetries);
      } else {
        CalmStep(s, w, maxRetries);
      }
    }
  }

  /** An undisturbed drive of a new job has settled after 73 steps, for good, as exactly what the
      straight-line decision says: DONE with its candidate, or blocked on output when there is none. */
  lemma {:induction false} UndisturbedDriveDecides(w: World, n: nat, maxRetries: nat)
    requires w.Valid() && w.policy.finalizer.Some? && n >= 73
    ensures var s := CalmRun(w, n, maxRetries);
            Settled(s) &&
            match Decide(w.model, w.packet, w.policy, FinalizerOnByDefaultOff(w.policy), 1)
            case Some(c) => s.disk.stage == DONE && s.disk.receipt == Some(c)
            case None => s.disk.stage == BLOCKED && s.disk.error == BlockedOutputError && s.submitted == []
  {
    hide Run, Rank, Decide, Initial;
    CalmSettles(w, n, maxRetries);
    CalmIsHonest(w, n, maxRetries);
    DriverRefinesDecision(CalmEvents(w, n, maxRetries), w, maxRetries);
  }
}
