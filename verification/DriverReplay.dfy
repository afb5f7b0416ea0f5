/** Which calls can go out twice: what an attempt with an unknown outcome holds back, until when, and
    exactly which lost, blank or failed requests a run can make again. */
module DriverReplay {
  import opened Options
  import opened Deliberation
  import opened Jobs
  import opened Driver
  import opened DriverShape
  import opened DriverPayment
  import opened DriverTrace

  // ---------------------------------------------------------------------------
  // A stranded unit sends nothing
  // ---------------------------------------------------------------------------

  /** At rest at the calling stage of a role, with an identity and no usable reply. */
  predicate Stranded(s: Sys, role: Role) {
    s.pc.Down? && CallStage(s.disk.stage, role, false) && Dangling(s.disk.Of(role))
  }

  /** A drive of the unit can only park it: it is stranded, or parked already. */
  predicate Held(s: Sys) {
    (s.pc.Down? || (s.pc.Top? && s.mem == s.disk)) && NextAction(s.disk, true).Ambiguous?
  }

  lemma StrandedIsHeld(s: Sys)
    requires s.pc.Down?
    ensures Held(s) <==> s.disk.stage == REMOTE_OUTCOME_UNKNOWN || exists role: Role :: Stranded(s, role)
  {
    if NextAction(s.disk, true).Ambiguous? && s.disk.stage != REMOTE_OUTCOME_UNKNOWN {
      var role := if s.disk.stage == INVESTIGATOR_CALLING then Investigator
                  else if s.disk.stage == CRITIC_CALLING then Critic else Finalizer;
      assert Stranded(s, role);
    }
  }

  /** The two ways out: the allocator overwrites the stage, or the packet fails. */
  predicate Releases(s: Sys, e: Event) {
    (e.BlockBinding? && s.disk.stage != REMOTE_OUTCOME_UNKNOWN) || (e.Start? && !e.packetOk)
  }

  /** At rest a held unit is released by exactly these two events, and by neither of them does
      anything leave. */
  lemma HeldLeavesExactly(s: Sys, e: Event, packet: Packet, maxRetries: nat)
    requires Held(s) && s.pc.Down?
    ensures var t := Step(s, e, packet, maxRetries);
            (Held(t) <==> !Releases(s, e)) && t.sent == s.sent
  {
  }

  lemma HeldStep(s: Sys, e: Event, packet: Packet, maxRetries: nat)
    requires Held(s) && !(s.pc.Down? && Releases(s, e))
    ensures var t := Step(s, e, packet, maxRetries); Held(t) && t.sent == s.sent && t.requeues == s.requeues
  {
  }

  /** Over every run until then, a held unit stays held and sends nothing. */
  lemma {:induction false} HeldStays(s: Sys, events: seq<Event>, packet: Packet, maxRetries: nat)
    requires Held(s)
    requires forall e :: e in events ==> !e.BlockBinding? && (e.Start? ==> e.packetOk)
    ensures var t := Run(s, events, packet, maxRetries); Held(t) && t.sent == s.sent && t.requeues == s.requeues
  {
    hide Held;
    if events != [] {
      var before := events[..|events| - 1];
      HeldStays(s, before, packet, maxRetries);
      HeldStep(Run(s, before, packet, maxRetries), events[|events| - 1], packet, maxRetries);
    }
  }

  /** A failing packet alone releases nothing either: the refusal it leaves waits for a requeue. */
  lemma {:induction false} HeldOrRefused(s: Sys, events: seq<Event>, packet: Packet, maxRetries: nat)
    requires Held(s) || (s.pc.Down? && s.disk.stage == BLOCKED)
    requires forall e :: e in events ==> !e.BlockBinding? && !e.Requeue?
    ensures var t := Run(s, events, packet, maxRetries);
            (Held(t) || (t.pc.Down? && t.disk.stage == BLOCKED)) && t.sent == s.sent
  {
    hide Held, WhenDown;
    if events != [] {
      var before, e := events[..|events| - 1], events[|events| - 1];
      HeldOrRefused(s, before, packet, maxRetries);
      var t := Run(s, before, packet, maxRetries);
      assert e in events;
      RefusedStep(t, e, packet, maxRetries);
    }
  }

  lemma RefusedStep(s: Sys, e: Event, packet: Packet, maxRetries: nat)
    requires Held(s) || (s.pc.Down? && s.disk.stage == BLOCKED)
    requires !e.BlockBinding? && !e.Requeue?
    ensures var t := Step(s, e, packet, maxRetries);
            (Held(t) || (t.pc.Down? && t.disk.stage == BLOCKED)) && t.sent == s.sent
  {
    if Held(s) && !(s.pc.Down? && Releases(s, e)) {
      HeldStep(s, e, packet, maxRetries);
    }
  }

  // ---------------------------------------------------------------------------
  // Which lost requests go out again
  // ---------------------------------------------------------------------------

  /** The drive loses a marked or outstanding request: it dies, or its charge cannot be written. */
  predicate Loses(s: Sys, e: Event) {
    (e.Crash? && (s.pc.Marked? || InFlight(s.pc))) || (e.LedgerDown? && s.pc.Sent?)
  }

  lemma LossKeeps(s: Sys, e: Event, packet: Packet, maxRetries: nat)
    requires WellFormed(s) && Loses(s, e)
    ensures s.pc.Marked? || InFlight(s.pc)
    ensures var t := Step(s, e, packet, maxRetries);
            && t.pc.Down? && t.disk == s.disk == s.mem && t.sent == s.sent && t.policy == s.policy
            && RequestFits(t.disk, s.pc.call)
  {
  }

  /** A repair whose first reply still counts as one. */
  predicate Reasked(j: Job, call: Request) {
    call.repaired && (call.role == Investigator || Has(j.Of(call.role).reply))
  }

  /** A lost request strands its unit exactly when it is a first call, or the repair of a critic's or
      finalizer's blank reply. */
  lemma LossStrandsExactly(s: Sys, e: Event, packet: Packet, maxRetries: nat)
    requires WellFormed(s) && Loses(s, e)
    ensures var t := Step(s, e, packet, maxRetries);
            Held(t) <==> !Reasked(s.disk, s.pc.call)
    ensures var t := Step(s, e, packet, maxRetries);
            !s.pc.call.repaired ==> Stranded(t, s.pc.call.role)
  {
    LossKeeps(s, e, packet, maxRetries);
  }

  ghost predicate SentSince(before: seq<Request>, after: seq<Request>, call: Request) {
    before <= after && exists i :: |before| <= i < |after| && after[i] == call
  }

  /** A run in which no binding is lost and nothing is requeued makes this very request again. */
  ghost predicate Repeats(s: Sys, call: Request, events: seq<Event>, packet: Packet, maxRetries: nat) {
    && (forall e :: e in events ==> !e.BlockBinding? && !e.Requeue?)
    && SentSince(s.sent, Run(s, events, packet, maxRetries).sent, call)
  }

  /** Nothing more was lost, blank or requeued. */
  predicate NoMoreLost(s: Sys, t: Sys) { t.lost == s.lost && t.blanks == s.blanks && t.requeues == s.requeues }

  /** The next drive of a unit under this policy, let through the gates once. */
  function NextCall(policy: Policy): seq<Event> {
    [Start(policy, true, true), Tick(true)] + [Gate(true), Tick(true)]
  }

  lemma TwoSteps(s: Sys, e: Event, f: Event, packet: Packet, maxRetries: nat)
    ensures Run(s, [e, f], packet, maxRetries) == Step(Step(s, e, packet, maxRetries), f, packet, maxRetries)
  {
    FirstEvent(s, e, packet, maxRetries);
    assert [e, f][..1] == [e];
  }

  lemma GateSends(s: Sys, packet: Packet, maxRetries: nat)
    requires Gating(s.pc)
    ensures var role := s.pc.role;
            var prompt := if s.pc.Calling? then PromptOf(s.mem, role)
                          else RepairPrompt(OrEmpty(s.mem.Of(role).reply), s.pc.why);
            var call := Request(role, s.pc.Repairing?, AttemptId(role, s.mem.transportAttempts + 1, prompt));
            var t := Run(s, [Gate(true), Tick(true)], packet, maxRetries);
            && t.sent == s.sent + [call] && NoMoreLost(s, t)
            && t.pc == Sent(call) && t.mem.Of(role) == s.mem.Of(role).(attempt := Some(call.id))
            && t.mem.transportAttempts == s.mem.transportAttempts
  {
    TwoSteps(s, Gate(true), Tick(true), packet, maxRetries);
  }

  /** A drive that finds a refused reply without its repair asks for the repair. */
  lemma ReopensRepair(t: Sys, role: Role, why: string, policy: Policy, packet: Packet, maxRetries: nat)
    requires t.pc.Down? && Shaped(t.disk) && CallStage(t.disk.stage, role, true)
    requires var slot := t.disk.Of(role);
             && slot.reply.Some? && !Has(slot.repair) && slot.repairs == 0
             && Refused(packet, role, OrEmpty(slot.reply), why)
    requires role == Investigator || Has(t.disk.Of(role).reply)
    requires Wants(t.(mem := t.disk, policy := policy), role, packet)
    ensures var u := Run(t, [Start(policy, true, true), Tick(true)], packet, maxRetries);
            u.pc == Repairing(role, why) && u.mem == t.disk && u.sent == t.sent && NoMoreLost(t, u)
  {
    Reopens(t, Start(policy, true, true), true, packet, maxRetries);
  }

  lemma RepairStillDue(s: Sys, e: Event, packet: Packet, maxRetries: nat)
    requires Traced(s, packet) && Loses(s, e) && Reasked(s.disk, s.pc.call)
    ensures WellFormed(s)
    ensures var t, call := Step(s, e, packet, maxRetries), s.pc.call;
            && Shaped(t.disk) && CallStage(t.disk.stage, call.role, true)
            && (call.role == Investigator || Has(t.disk.Of(call.role).reply))
            && Wants(t.(mem := t.disk, policy := s.policy), call.role, packet)
            && call.id.prompt.RepairPrompt?
            && call == Request(call.role, true, AttemptId(call.role, t.disk.transportAttempts + 1, call.id.prompt))
            && var slot := t.disk.Of(call.role);
               && slot.reply.Some? && !Has(slot.repair) && slot.repairs == 0
               && call.id.prompt == RepairPrompt(OrEmpty(slot.reply), call.id.prompt.why)
               && Refused(packet, call.role, OrEmpty(slot.reply), call.id.prompt.why)
  {
    hide NeedsCritic, Refused, OrEmpty;
    LossKeeps(s, e, packet, maxRetries);
  }

  /** The next drive after the loss of such a repair makes it again, under the same identity. */
  lemma LostRepairGoesOutAgain(s: Sys, e: Event, packet: Packet, maxRetries: nat)
    requires Traced(s, packet) && Loses(s, e) && Reasked(s.disk, s.pc.call)
    ensures var t := Step(s, e, packet, maxRetries);
            var u := Run(t, NextCall(s.policy), packet, maxRetries);
            u.sent == s.sent + [s.pc.call] && NoMoreLost(t, u)
  {
    hide Step, Loses, Reasked, Traced, Shaped, Wants, Refused, Run;
    RepairStillDue(s, e, packet, maxRetries);
    LossKeeps(s, e, packet, maxRetries);
    var t, call := Step(s, e, packet, maxRetries), s.pc.call;
    ReopensRepair(t, call.role, call.id.prompt.why, s.policy, packet, maxRetries);
    var u := Run(t, [Start(s.policy, true, true), Tick(true)], packet, maxRetries);
    GateSends(u, packet, maxRetries);
    RunSplit(t, [Start(s.policy, true, true), Tick(true)], [Gate(true), Tick(true)], packet, maxRetries);
  }

  /** Over every run: without a binding block and without a requeue a lost request can be made again
      exactly when it is a repair whose first reply still counts, that is, of the investigator or of a
      reply that is not blank. */
  lemma {:induction false} LostRequestRepeatsExactly(policy: Policy, past: seq<Event>, e: Event, packet: Packet,
          maxRetries: nat)
    requires Loses(Run(Initial(policy), past, packet, maxRetries), e)
    ensures var s := Run(Initial(policy), past, packet, maxRetries);
            (exists events :: Repeats(Step(s, e, packet, maxRetries), s.pc.call, events, packet, maxRetries))
            <==> Reasked(s.disk, s.pc.call)
  {
    hide Traced, Loses, Reasked, Held, Step, Run;
    TracedRun(policy, past, packet, maxRetries);
    var s := Run(Initial(policy), past, packet, maxRetries);
    TracedShape(s, packet);
    var t := Step(s, e, packet, maxRetries);
    LossKeeps(s, e, packet, maxRetries);
    LossStrandsExactly(s, e, packet, maxRetries);
    if Reasked(s.disk, s.pc.call) {
      LostRepairGoesOutAgain(s, e, packet, maxRetries);
      var u := Run(t, NextCall(s.policy), packet, maxRetries);
      assert u.sent[|t.sent|] == s.pc.call;
      assert Repeats(t, s.pc.call, NextCall(s.policy), packet, maxRetries);
    } else {
      forall events | Repeats(t, s.pc.call, events, packet, maxRetries)
        ensures false
      {
        HeldOrRefused(t, events, packet, maxRetries);
      }
    }
  }

  // ---------------------------------------------------------------------------
  // A binding block lets a first call go out again
  // ---------------------------------------------------------------------------

  /** What the role's first call needs, besides its reply being absent. */
  predicate Askable(j: Job, role: Role, packet: Packet, policy: Policy) {
    match role
    case Investigator => j.candidate.None?
    case Critic => j.report.None? && j.candidate.Some? && NeedsCritic(j.candidate.value, packet, policy)
    case Finalizer =>
      && j.finalizerDigest.None? && j.candidate.Some? && j.report.Some?
      && Disputed(j.candidate, j.report.value) && FinalizerOnByDefaultOn(policy)
  }

  /** The stage from which a drive enters the role's calling stage. */
  function BeforeCall(role: Role): Stage {
    match role
    case Investigator => READY
    case Critic => CANDIDATE_READY
    case Finalizer => CRITIC_READY
  }

  lemma ResumesAtCall(j: Job, role: Role, packet: Packet, policy: Policy)
    requires Layered(j) && j.stage == BLOCKED_BINDING && !Has(j.Of(role).reply) && Askable(j, role, packet, policy)
    ensures ResumeStage(j) == BeforeCall(role)
  {
  }

  /** A binding block lost and found again: the drive resumes at the role's first call. */
  lemma BlockReachesCall(t: Sys, role: Role, policy: Policy, packet: Packet, maxRetries: nat)
    requires t.pc.Down? && Shaped(t.disk) && !Inert(t.disk.stage)
    requires !Has(t.disk.Of(role).reply) && Askable(t.disk, role, packet, policy)
    ensures var u := Run(t, [BlockBinding] + [Start(policy, true, true), Tick(true)], packet, maxRetries);
            && u.pc == Calling(role) && u.mem.transportAttempts == t.disk.transportAttempts
            && u.sent == t.sent && NoMoreLost(t, u)
            && PromptOf(u.mem, role) == PromptOf(t.disk, role) && u.mem.Of(role) == t.disk.Of(role)
  {
    hide NeedsCritic, Step, Shaped, Layered;
    RunSplit(t, [BlockBinding], [Start(policy, true, true), Tick(true)], packet, maxRetries);
    FirstEvent(t, BlockBinding, packet, maxRetries);
    var b := Step(t, BlockBinding, packet, maxRetries);
    BindingBlocks(t, packet, maxRetries);
    ResumesAtCall(b.disk, role, packet, policy);
    TwoSteps(b, Start(policy, true, true), Tick(true), packet, maxRetries);
    BlockedResumes(b, role, policy, packet, maxRetries);
  }

  lemma BindingBlocks(t: Sys, packet: Packet, maxRetries: nat)
    requires t.pc.Down? && Shaped(t.disk) && !Inert(t.disk.stage)
    ensures var b := Step(t, BlockBinding, packet, maxRetries);
            && b == t.(disk := b.disk) && Layered(b.disk)
            && b.disk == t.disk.(stage := BLOCKED_BINDING, error := b.disk.error)
  {
  }

  lemma BlockedResumes(b: Sys, role: Role, policy: Policy, packet: Packet, maxRetries: nat)
    requires b.pc.Down? && Layered(b.disk) && b.disk.stage == BLOCKED_BINDING
    requires !Has(b.disk.Of(role).reply) && Askable(b.disk, role, packet, policy)
    requires ResumeStage(b.disk) == BeforeCall(role)
    ensures var u := Step(Step(b, Start(policy, true, true), packet, maxRetries), Tick(true), packet, maxRetries);
            && u.pc == Calling(role) && u.mem.transportAttempts == b.disk.transportAttempts
            && u.sent == b.sent && NoMoreLost(b, u)
            && PromptOf(u.mem, role) == PromptOf(b.disk, role) && u.mem.Of(role) == b.disk.Of(role)
  {
    hide NeedsCritic, ResumeStage;
  }

  /** Then its first call goes out, under the identity the attempt counter gives it. */
  lemma BlockSends(t: Sys, role: Role, policy: Policy, packet: Packet, maxRetries: nat)
    requires t.pc.Down? && Shaped(t.disk) && !Inert(t.disk.stage)
    requires !Has(t.disk.Of(role).reply) && Askable(t.disk, role, packet, policy)
    ensures var u := Run(t, [BlockBinding] + NextCall(policy), packet, maxRetries);
            var id := AttemptId(role, t.disk.transportAttempts + 1, PromptOf(t.disk, role));
            && u.sent == t.sent + [Request(role, false, id)] && NoMoreLost(t, u)
            && u.pc == Sent(Request(role, false, id))
            && u.mem.Of(role) == t.disk.Of(role).(attempt := Some(id))
            && u.mem.transportAttempts == t.disk.transportAttempts
  {
    hide Run, Askable, Shaped, PromptOf;
    BlockReachesCall(t, role, policy, packet, maxRetries);
    var first := [BlockBinding] + [Start(policy, true, true), Tick(true)];
    GateSends(Run(t, first, packet, maxRetries), packet, maxRetries);
    RunSplit(t, first, [Gate(true), Tick(true)], packet, maxRetries);
    assert first + [Gate(true), Tick(true)] == [BlockBinding] + NextCall(policy);
  }

  lemma FirstCallDue(s: Sys, e: Event, packet: Packet, maxRetries: nat)
    requires Traced(s, packet) && Loses(s, e) && !s.pc.call.repaired
    ensures WellFormed(s)
    ensures var t, call := Step(s, e, packet, maxRetries), s.pc.call;
            && Shaped(t.disk) && !Inert(t.disk.stage)
            && !Has(t.disk.Of(call.role).reply) && Askable(t.disk, call.role, packet, s.policy)
            && call == Request(call.role, false,
                               AttemptId(call.role, t.disk.transportAttempts + 1, PromptOf(t.disk, call.role)))
  {
    hide NeedsCritic, PromptOf, Refused;
    LossKeeps(s, e, packet, maxRetries);
  }

  /** So every lost first call goes out again, under its own identity and in the same policy, when the
      binding is lost and found before a drive parks the unit; nothing is requeued, and the unit is
      never parked. */
  lemma LostFirstCallGoesOutAgain(s: Sys, e: Event, packet: Packet, maxRetries: nat)
    requires Traced(s, packet) && Loses(s, e) && !s.pc.call.repaired
    ensures var t := Step(s, e, packet, maxRetries);
            var u := Run(t, [BlockBinding] + NextCall(s.policy), packet, maxRetries);
            u.sent == s.sent + [s.pc.call] && NoMoreLost(t, u)
  {
    hide Step, Run, Traced, Loses, Shaped, Askable, PromptOf, NextCall, Inert;
    FirstCallDue(s, e, packet, maxRetries);
    LossKeeps(s, e, packet, maxRetries);
    BlockSends(Step(s, e, packet, maxRetries), s.pc.call.role, s.policy, packet, maxRetries);
  }

  /** A critic's or finalizer's first reply that is blank again asks for the same repair again. */
  lemma BlankAsksRepair(u: Sys, why: string, packet: Packet, maxRetries: nat)
    requires u.pc.Sent? && !u.pc.call.repaired && u.pc.call.role != Investigator
    requires var slot := u.mem.Of(u.pc.call.role); !Has(slot.repair) && slot.repairs == 0
    requires Refused(packet, u.pc.call.role, "", why)
    ensures var v := Run(u, [Reply(""), Tick(true)] + [Tick(true)], packet, maxRetries);
            && v.pc == Repairing(u.pc.call.role, why) && v.mem.Of(u.pc.call.role).reply == Some("")
            && v.sent == u.sent && v.mem.transportAttempts == u.mem.transportAttempts
  {
    hide Run, Step, Refused;
    RunSplit(u, [Reply(""), Tick(true)], [Tick(true)], packet, maxRetries);
    TwoSteps(u, Reply(""), Tick(true), packet, maxRetries);
    var k := Run(u, [Reply(""), Tick(true)], packet, maxRetries);
    FirstEvent(k, Tick(true), packet, maxRetries);
    BlankKept(u, packet, maxRetries);
    BlankJudged(k, why, packet, maxRetries);
  }

  lemma BlankKept(u: Sys, packet: Packet, maxRetries: nat)
    requires u.pc.Sent? && !u.pc.call.repaired && u.pc.call.role != Investigator
    ensures var role := u.pc.call.role;
            var k := Step(Step(u, Reply(""), packet, maxRetries), Tick(true), packet, maxRetries);
            && k.pc == Judging(role) && k.mem.Of(role) == u.mem.Of(role).(reply := Some(""))
            && k.sent == u.sent && k.mem.transportAttempts == u.mem.transportAttempts
  {
  }

  lemma BlankJudged(k: Sys, why: string, packet: Packet, maxRetries: nat)
    requires k.pc.Judging? && k.pc.role != Investigator
    requires var slot := k.mem.Of(k.pc.role); slot.reply == Some("") && !Has(slot.repair) && slot.repairs == 0
    requires Refused(packet, k.pc.role, "", why)
    ensures Step(k, Tick(true), packet, maxRetries) == k.(pc := Repairing(k.pc.role, why))
  {
  }

  /** A binding block, the first call again, and a blank reply to it again. */
  function BlankAgain(policy: Policy): seq<Event> {
    [BlockBinding] + NextCall(policy) + ([Reply(""), Tick(true)] + [Tick(true)]) + [Gate(true), Tick(true)]
  }

  lemma BlankRepairDue(s: Sys, e: Event, packet: Packet, maxRetries: nat)
    requires Traced(s, packet) && Loses(s, e) && s.pc.call.repaired && !Reasked(s.disk, s.pc.call)
    ensures WellFormed(s)
    ensures var t, call := Step(s, e, packet, maxRetries), s.pc.call;
            && call.role != Investigator && Shaped(t.disk) && !Inert(t.disk.stage)
            && Askable(t.disk, call.role, packet, s.policy)
            && call.id.prompt.RepairPrompt?
            && call == Request(call.role, true, AttemptId(call.role, t.disk.transportAttempts + 1, call.id.prompt))
            && call.id.prompt == RepairPrompt("", call.id.prompt.why)
            && Refused(packet, call.role, "", call.id.prompt.why)
            && var slot := t.disk.Of(call.role); slot.reply == Some("") && !Has(slot.repair) && slot.repairs == 0
  {
    hide NeedsCritic, Refused;
    LossKeeps(s, e, packet, maxRetries);
  }

  /** The lost repair of a critic's or finalizer's blank reply goes out again behind a binding block, once
      the first call is blank again. */
  lemma LostBlankRepairGoesOutAgain(s: Sys, e: Event, packet: Packet, maxRetries: nat)
    requires Traced(s, packet) && Loses(s, e) && s.pc.call.repaired && !Reasked(s.disk, s.pc.call)
    ensures var after := Run(Step(s, e, packet, maxRetries), BlankAgain(s.policy), packet, maxRetries).sent;
            |after| == |s.sent| + 2 && after[..|s.sent|] == s.sent && after[|s.sent| + 1] == s.pc.call
  {
    hide Step, Run, Traced, Loses, Reasked, Shaped, Askable, Refused, PromptOf, NextCall, Inert;
    BlankRepairDue(s, e, packet, maxRetries);
    LossKeeps(s, e, packet, maxRetries);
    var t, call := Step(s, e, packet, maxRetries), s.pc.call;
    var first, blank := [BlockBinding] + NextCall(s.policy), [Reply(""), Tick(true)] + [Tick(true)];
    BlockSends(t, call.role, s.policy, packet, maxRetries);
    var u := Run(t, first, packet, maxRetries);
    BlankAsksRepair(u, call.id.prompt.why, packet, maxRetries);
    RunSplit(t, first, blank, packet, maxRetries);
    GateSends(Run(u, blank, packet, maxRetries), packet, maxRetries);
    RunSplit(t, first + blank, [Gate(true), Tick(true)], packet, maxRetries);
  }

  /** A run without a requeue, in which bindings may be lost and the policy stays, makes this very
      request again. */
  ghost predicate RepeatsInPolicy(s: Sys, call: Request, events: seq<Event>, packet: Packet, maxRetries: nat) {
    && (forall e: Event :: e in events ==> !e.Requeue? && (e.Start? ==> e.policy == s.policy))
    && SentSince(s.sent, Run(s, events, packet, maxRetries).sent, call)
  }

  /** Over every run: once binding blocks are allowed every lost request can be made again, without a
      requeue and under the same policy. */
  lemma EveryLostRequestCanRepeat(policy: Policy, past: seq<Event>, e: Event, packet: Packet, maxRetries: nat)
    requires Loses(Run(Initial(policy), past, packet, maxRetries), e)
    ensures var s := Run(Initial(policy), past, packet, maxRetries);
            var t := Step(s, e, packet, maxRetries);
            exists events :: RepeatsInPolicy(t, s.pc.call, events, packet, maxRetries)
  {
    hide Traced, Loses, Reasked, Step, Run;
    TracedRun(policy, past, packet, maxRetries);
    var s := Run(Initial(policy), past, packet, maxRetries);
    TracedShape(s, packet);
    LossKeeps(s, e, packet, maxRetries);
    var t := Step(s, e, packet, maxRetries);
    var events, at := NextCall(s.policy), |t.sent|;
    if Reasked(s.disk, s.pc.call) {
      LostRepairGoesOutAgain(s, e, packet, maxRetries);
    } else if s.pc.call.repaired {
      LostBlankRepairGoesOutAgain(s, e, packet, maxRetries);
      events, at := BlankAgain(s.policy), |t.sent| + 1;
    } else {
      LostFirstCallGoesOutAgain(s, e, packet, maxRetries);
      events := [BlockBinding] + NextCall(s.policy);
    }
    var after := Run(t, events, packet, maxRetries).sent;
    assert t.sent <= after && after[at] == s.pc.call;
    assert RepeatsInPolicy(t, s.pc.call, events, packet, maxRetries);
  }

  // ---------------------------------------------------------------------------
  // Which first calls a run can make again
  // ---------------------------------------------------------------------------

  /** A policy that sends everything it can to the critic and every dispute to the finalizer. */
  function Eager(packet: Packet): Policy { Policy(true, true, packet.bucket + 1, Some(true)) }

  lemma EagerWants(c: Candidate, packet: Packet)
    ensures NeedsCritic(c, packet, Eager(packet)) <==> Criticable(c)
  {
  }

  /** A run without a requeue makes the role's first call. */
  ghost predicate BuysAgain(s: Sys, role: Role, events: seq<Event>, packet: Packet, maxRetries: nat) {
    (forall e :: e in events ==> !e.Requeue?) && !NoneSince(s.sent, Run(s, events, packet, maxRetries).sent, role)
  }

  /** Over every run, for a role that has been called: some continuation without a requeue makes its
      first call again exactly when its reply is missing or blank, what it was wanted for is not there,
      and the unit is neither settled nor parked. */
  lemma {:induction false} BoughtAgainExactly(policy: Policy, past: seq<Event>, role: Role, packet: Packet,
          maxRetries: nat)
    requires Run(Initial(policy), past, packet, maxRetries).disk.Of(role).attempt.Some?
    ensures var s := Run(Initial(policy), past, packet, maxRetries);
            (exists events :: BuysAgain(s, role, events, packet, maxRetries))
            <==> !Has(s.disk.Of(role).reply) && !Produced(s.disk, role) && !Inert(s.disk.stage)
  {
    hide Traced, Step, Run;
    TracedRun(policy, past, packet, maxRetries);
    var s := Run(Initial(policy), past, packet, maxRetries);
    TracedShape(s, packet);
    if Bought(s, role) {
      forall events | BuysAgain(s, role, events, packet, maxRetries)
        ensures false
      {
        NoSilentRepayment(s, role, events, packet, maxRetries);
      }
    } else {
      BuysOnceMore(s, role, packet, maxRetries);
    }
  }

  lemma AskableAgain(s: Sys, role: Role, packet: Packet)
    requires Traced(s, packet) && s.disk.Of(role).attempt.Some? && !Bought(s, role)
    ensures Shaped(s.disk) && Askable(s.disk, role, packet, Eager(packet))
  {
    hide NeedsCritic;
    if s.disk.candidate.Some? {
      EagerWants(s.disk.candidate.value, packet);
    }
  }

  lemma BuysOnceMore(s: Sys, role: Role, packet: Packet, maxRetries: nat)
    requires Traced(s, packet) && s.disk.Of(role).attempt.Some? && !Bought(s, role)
    ensures BuysAgain(s, role, [Crash] + ([BlockBinding] + NextCall(Eager(packet))), packet, maxRetries)
  {
    hide Traced, Run, Askable, Shaped, Eager;
    AskableAgain(s, role, packet);
    var rest := [BlockBinding] + NextCall(Eager(packet));
    RunSplit(s, [Crash], rest, packet, maxRetries);
    FirstEvent(s, Crash, packet, maxRetries);
    BlockSends(Fall(s), role, Eager(packet), packet, maxRetries);
    var t := Run(s, [Crash] + rest, packet, maxRetries);
    assert Primary(t.sent[|s.sent|], role);
  }

  /** A critic's or finalizer's blank reply is known, and still a crash before it is judged parks the
      unit as unknown; one that is not blank never does. */
  lemma BlankVerdictParks(s: Sys, open: Event, due: bool, packet: Packet, maxRetries: nat)
    requires Traced(s, packet) && s.pc.Judging? && s.pc.role != Investigator && Opens(open)
    ensures var t := Run(s, [Crash] + [open, Tick(due)], packet, maxRetries);
            && t.sent == s.sent && t.lost == s.lost
            && (t.disk.stage == REMOTE_OUTCOME_UNKNOWN <==> s.disk.Of(s.pc.role).reply == Some(""))
  {
    hide NeedsCritic, ValidateSlot;
    var role := s.pc.role;
    RunSplit(s, [Crash], [open, Tick(due)], packet, maxRetries);
    FirstEvent(s, Crash, packet, maxRetries);
    if !Has(s.disk.Of(role).reply) {
      ReopenParks(Fall(s), role, open, due, packet, maxRetries);
    } else {
      Reopens(Fall(s), open, due, packet, maxRetries);
    }
  }

  // ---------------------------------------------------------------------------
  // Two concrete runs
  // ---------------------------------------------------------------------------

  const FIRST_CALL := [Start(OPEN_POLICY, true, true), Tick(true)] + [Gate(true), Tick(true)]

  /** A new unit's first request is out. */
  lemma FirstSent(packet: Packet, maxRetries: nat)
    ensures var s := Run(Initial(OPEN_POLICY), FIRST_CALL, packet, maxRetries);
            && s.pc.Sent? && s.sent == [s.pc.call] && s.policy == OPEN_POLICY
            && s.pc.call == Request(Investigator, false, AttemptId(Investigator, 1, PacketPrompt))
            && s.mem.transportAttempts == 0 && s.mem.candidate.None? && s.mem.stage == INVESTIGATOR_CALLING
            && s.mem.investigator.repairs == 0 && s.mem.investigator.repair.None?
            && s.blanks == 0 && s.lost == 0 && s.requeues == 0
  {
    hide Run;
    var s := Initial(OPEN_POLICY);
    var first, rest := [Start(OPEN_POLICY, true, true), Tick(true)], [Gate(true), Tick(true)];
    RunSplit(s, first, rest, packet, maxRetries);
    TwoSteps(s, first[0], first[1], packet, maxRetries);
    TwoSteps(Run(s, first, packet, maxRetries), rest[0], rest[1], packet, maxRetries);
  }

  /** One investigator request goes out twice under one identity: lost, then bought again behind a
      binding block. Nothing was blank or requeued. */
  lemma BindingBlockRepeatsCall(packet: Packet, maxRetries: nat) returns (events: seq<Event>)
    ensures |events| == 10 && forall e :: e in events ==> !e.Requeue?
    ensures var s := Run(Initial(OPEN_POLICY), events, packet, maxRetries);
            |s.sent| == 2 && s.sent[0] == s.sent[1] && Primary(s.sent[0], Investigator)
  {
    hide Run, Traced, Step;
    FirstSent(packet, maxRetries);
    TracedRun(OPEN_POLICY, FIRST_CALL, packet, maxRetries);
    var s := Run(Initial(OPEN_POLICY), FIRST_CALL, packet, maxRetries);
    LostFirstCallGoesOutAgain(s, Crash, packet, maxRetries);
    FirstEvent(s, Crash, packet, maxRetries);
    var rest := [BlockBinding] + NextCall(OPEN_POLICY);
    RunSplit(s, [Crash], rest, packet, maxRetries);
    RunSplit(Initial(OPEN_POLICY), FIRST_CALL, [Crash] + rest, packet, maxRetries);
    events := FIRST_CALL + ([Crash] + rest);
  }

  /** A first reply that is kept and refused. */
  lemma PlayRejected(s0: Sys, before: seq<Event>, s: Sys, text: string, packet: Packet, maxRetries: nat)
    returns (after: seq<Event>, t: Sys)
    requires s == Run(s0, before, packet, maxRetries) && s.pc.Sent? && Primary(s.pc.call, Investigator)
    requires s.mem.stage == INVESTIGATOR_CALLING && s.mem.investigator.repairs == 0 && s.mem.investigator.repair.None?
    requires text != "" && packet.parseCandidate(text).Rejected?
    ensures t == Run(s0, after, packet, maxRetries) && t.pc.Repairing? && t.pc.role == Investigator
    ensures t.sent == s.sent && t.lost == s.lost && t.blanks == s.blanks && t.requeues == s.requeues
    ensures t.mem.investigator.reply == Some(text) && t.policy == s.policy
  {
    hide Run;
    after, t := Play(s0, before, s, Reply(text), packet, maxRetries);
    after, t := Play(s0, after, t, Tick(true), packet, maxRetries);
    after, t := Play(s0, after, t, Tick(true), packet, maxRetries);
  }

  lemma FallLoses(s: Sys, packet: Packet, maxRetries: nat)
    requires s.pc.Sent?
    ensures var t := Step(s, Crash, packet, maxRetries);
            t.lost == s.lost + 1 && t.blanks == s.blanks && t.requeues == s.requeues
  {
  }

  /** A lost repair goes out again on the very next drive, under its old identity, with no binding
      block, blank reply or requeue in the run. */
  lemma LostRepairRepeats(text: string, packet: Packet, maxRetries: nat) returns (events: seq<Event>)
    requires text != "" && packet.parseCandidate(text).Rejected?
    ensures var s := Run(Initial(OPEN_POLICY), events, packet, maxRetries);
            && |s.sent| == 3 && s.sent[1] == s.sent[2] && s.sent[1].repaired && s.sent[1].role == Investigator
            && s.blanks == 0 && s.requeues == 0 && s.lost == 1
  {
    hide Run, Traced, Step;
    var s0 := Initial(OPEN_POLICY);
    FirstSent(packet, maxRetries);
    var s;
    events, s := PlayRejected(s0, FIRST_CALL, Run(s0, FIRST_CALL, packet, maxRetries), text, packet, maxRetries);
    events, s := PlayToSent(s0, events, s, packet, maxRetries);
    TracedRun(OPEN_POLICY, events, packet, maxRetries);
    LostRepairGoesOutAgain(s, Crash, packet, maxRetries);
    FallLoses(s, packet, maxRetries);
    FirstEvent(s, Crash, packet, maxRetries);
    RunSplit(s, [Crash], NextCall(s.policy), packet, maxRetries);
    RunSplit(s0, events, [Crash] + NextCall(s.policy), packet, maxRetries);
    events := events + ([Crash] + NextCall(s.policy));
  }
}
