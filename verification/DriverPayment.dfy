/** A paid call is not silently repeated: a durable reply is never bought again, and a unit parked
    for an unknown outcome stays parked. `DriverReplay` has the exact cases in which a call goes out
    twice. */
module DriverPayment {
  import opened Options
  import opened Deliberation
  import opened Jobs
  import opened Driver
  import opened DriverShape

  lemma RunSplit(s: Sys, first: seq<Event>, rest: seq<Event>, packet: Packet, maxRetries: nat)
    ensures Run(s, first + rest, packet, maxRetries) == Run(Run(s, first, packet, maxRetries), rest, packet, maxRetries)
  {
    if rest == [] {
      assert first + rest == first;
    } else {
      RunSplit(s, first, rest[..|rest| - 1], packet, maxRetries);
      assert (first + rest)[..|first + rest| - 1] == first + rest[..|rest| - 1];
    }
  }

  // ---------------------------------------------------------------------------
  // A durable reply is never bought again
  // ---------------------------------------------------------------------------

  predicate Primary(call: Request, role: Role) { call.role == role && !call.repaired }

  /** What a role's reply was wanted for is in the journal. */
  predicate Produced(j: Job, role: Role) {
    match role
    case Investigator => j.candidate.Some?
    case Critic => j.report.Some?
    case Finalizer => j.finalizerDigest.Some?
  }

  /** A unit at such a stage calls nobody until a requeue. */
  predicate Inert(st: Stage) { !Selectable(st) || st == REMOTE_OUTCOME_UNKNOWN }

  predicate Bought(s: Sys, role: Role) {
    Has(s.disk.Of(role).reply) || Produced(s.disk, role) || Inert(s.disk.stage)
  }

  /** Nothing sent since `before` is a first call of `role`. */
  predicate NoneSince(before: seq<Request>, after: seq<Request>, role: Role) {
    before <= after && forall i :: |before| <= i < |after| ==> !Primary(after[i], role)
  }

  predicate StillBought(s: Sys, t: Sys, role: Role) { Bought(t, role) && NoneSince(s.sent, t.sent, role) }

  lemma BoughtAbsorb(s: Sys, role: Role, e: Event, maxRetries: nat)
    requires WellFormed(s) && Bought(s, role) && Absorbing(s.pc)
    ensures StillBought(s, Absorb(s, e, maxRetries), role)
  {
    assert s.mem == s.disk && !Inert(s.disk.stage);
    assert Primary(s.pc.call, role) ==> !Has(s.mem.Of(role).reply) && !Produced(s.mem, role);
  }

  lemma BoughtGate(s: Sys, role: Role, e: Event)
    requires WellFormed(s) && Bought(s, role) && Gating(s.pc)
    ensures StillBought(s, AtGate(s, e), role)
  {
    hide OrEmpty;
    assert s.mem == s.disk && !Inert(s.disk.stage);
  }

  lemma BoughtWire(s: Sys, role: Role, e: Event)
    requires WellFormed(s) && Bought(s, role) && OnWire(s.pc)
    ensures StillBought(s, Wire(s, e), role)
  {
    assert s.mem == s.disk && !Inert(s.disk.stage);
    assert s.pc.Marked? && Primary(s.pc.call, role) ==> !Has(s.mem.Of(role).reply) && !Produced(s.mem, role);
  }

  lemma BoughtFinish(s: Sys, role: Role, e: Event, maxRetries: nat)
    requires WellFormed(s) && Bought(s, role) && Finishing(s.pc)
    ensures StillBought(s, Finish(s, e, maxRetries), role)
  {
    assert s.mem.Of(role) == s.disk.Of(role) && (Produced(s.disk, role) ==> Produced(s.mem, role));
    assert s.pc.Submitting? ==> s.disk.stage == SUBMITTING;
    assert s.pc.Compacting? ==> s.mem.stage == DONE;
  }

  lemma BoughtDown(s: Sys, role: Role, e: Event)
    requires WellFormed(s) && Bought(s, role) && !e.Requeue? && s.pc.Down?
    ensures StillBought(s, WhenDown(s, e), role)
  {
    hide WellFormed;
  }

  lemma BoughtStep(s: Sys, role: Role, e: Event, packet: Packet, maxRetries: nat)
    requires WellFormed(s) && Bought(s, role) && !e.Requeue?
    ensures StillBought(s, Step(s, e, packet, maxRetries), role)
  {
    if !e.Crash? && Driving(s.pc) {
      FramedDrive(s, e, packet);
    }
    if e.Crash? {
    } else if s.pc.Down? {
      BoughtDown(s, role, e);
    } else if Gating(s.pc) {
      BoughtGate(s, role, e);
    } else if OnWire(s.pc) {
      BoughtWire(s, role, e);
    } else if Absorbing(s.pc) {
      BoughtAbsorb(s, role, e, maxRetries);
    } else if Finishing(s.pc) {
      BoughtFinish(s, role, e, maxRetries);
    }
  }

  /** No silent re-payment: from any well-formed state, once a role's reply is durable and not blank,
      or what it was wanted for is there, or the unit is settled or parked, no run without a requeue
      ever issues that role's first call again. It holds whatever crashes, failures, binding blocks
      and policy changes the run contains. */
  lemma {:induction false} NoSilentRepayment(s: Sys, role: Role, events: seq<Event>, packet: Packet, maxRetries: nat)
    requires WellFormed(s) && Bought(s, role)
    requires forall e :: e in events ==> !e.Requeue?
    ensures var t := Run(s, events, packet, maxRetries);
            WellFormed(t) && Bought(t, role) && NoneSince(s.sent, t.sent, role)
  {
    if events != [] {
      var before, e := events[..|events| - 1], events[|events| - 1];
      NoSilentRepayment(s, role, before, packet, maxRetries);
      var t := Run(s, before, packet, maxRetries);
      WellFormedStep(t, e, packet, maxRetries);
      BoughtStep(t, role, e, packet, maxRetries);
    }
  }

  // ---------------------------------------------------------------------------
  // A drive that finds an attempt with an unknown outcome parks the unit
  // ---------------------------------------------------------------------------

  /** The event a selected, bindable unit's next drive opens with. */
  predicate Opens(e: Event) { e.Start? && e.bindable && e.packetOk }

  /** What a fresh drive of an unsettled, bound unit does first. */
  lemma Reopens(t: Sys, open: Event, due: bool, packet: Packet, maxRetries: nat)
    requires t.pc.Down? && Selectable(t.disk.stage) && t.disk.stage != BLOCKED_BINDING && Opens(open)
    ensures Run(t, [open, Tick(due)], packet, maxRetries)
         == StepTop(Persist(t.(policy := open.policy), t.disk, Top), packet, due)
  {
    assert [open, Tick(due)][..1] == [open] && [open][..0] == [];
    assert Run(t, [], packet, maxRetries) == t;
    assert Run(t, [open], packet, maxRetries) == Step(t, open, packet, maxRetries);
  }

  /** A drive that reopens a calling stage parks the unit exactly when the slot dangles. */
  lemma ReopenParks(t: Sys, role: Role, open: Event, due: bool, packet: Packet, maxRetries: nat)
    requires t.pc.Down? && CallStage(t.disk.stage, role, false) && !Has(t.disk.Of(role).reply) && Opens(open)
    ensures var u := Run(t, [open, Tick(due)], packet, maxRetries);
            && u.sent == t.sent && u.lost == t.lost
            && (u.disk.stage == REMOTE_OUTCOME_UNKNOWN <==> t.disk.Of(role).attempt.Some?)
            && (u.disk.stage == REMOTE_OUTCOME_UNKNOWN ==> u.pc.Down?)
  {
    Reopens(t, open, due, packet, maxRetries);
  }

  /** A crash after the identity of a first call is durable, and before its reply is: the very next
      drive, if its packet can be built, parks the unit without a transport. */
  lemma CrashParks(s: Sys, open: Event, due: bool, packet: Packet, maxRetries: nat)
    requires WellFormed(s) && Opens(open)
    requires s.pc.Marked? || InFlight(s.pc)
    requires !s.pc.call.repaired
    ensures var t := Run(s, [Crash] + [open, Tick(due)], packet, maxRetries);
            t.pc.Down? && t.disk.stage == REMOTE_OUTCOME_UNKNOWN && t.sent == s.sent
  {
    RunSplit(s, [Crash], [open, Tick(due)], packet, maxRetries);
    FirstEvent(s, Crash, packet, maxRetries);
    ReopenParks(Fall(s), s.pc.call.role, open, due, packet, maxRetries);
  }

  lemma FirstEvent(s: Sys, e: Event, packet: Packet, maxRetries: nat)
    ensures Run(s, [e], packet, maxRetries) == Step(s, e, packet, maxRetries)
  {
    assert [e][..0] == [];
    assert Run(s, [], packet, maxRetries) == s;
  }

  predicate Parked(s: Sys) {
    s.disk.stage == REMOTE_OUTCOME_UNKNOWN && (s.pc.Down? || (s.pc.Top? && s.mem.stage == REMOTE_OUTCOME_UNKNOWN))
  }

  /** Nothing but a packet that cannot be built moves a parked unit: drives, crashes, requeues,
      binding blocks and prologues leave it parked and send nothing. */
  lemma {:induction false} ParkedStays(s: Sys, events: seq<Event>, packet: Packet, maxRetries: nat)
    requires Parked(s)
    requires forall e :: e in events && e.Start? ==> e.packetOk
    ensures var t := Run(s, events, packet, maxRetries); Parked(t) && t.sent == s.sent && t.requeues == s.requeues
  {
    if events != [] {
      ParkedStays(s, events[..|events| - 1], packet, maxRetries);
      ParkedStep(Run(s, events[..|events| - 1], packet, maxRetries), events[|events| - 1], packet, maxRetries);
    }
  }

  lemma ParkedStep(s: Sys, e: Event, packet: Packet, maxRetries: nat)
    requires Parked(s) && (e.Start? ==> e.packetOk)
    ensures var t := Step(s, e, packet, maxRetries); Parked(t) && t.sent == s.sent && t.requeues == s.requeues
  {
  }

  /** The exception: a failing packet turns the parked unit into an ordinary refusal, which a
      requeue then wakes for a fresh call. So a parked unit survives one event exactly when that
      event is not the start of a drive whose packet cannot be built. */
  lemma ParkedLeavesExactly(s: Sys, e: Event, packet: Packet, maxRetries: nat)
    requires Parked(s) && s.pc.Down?
    ensures Parked(Step(s, e, packet, maxRetries)) <==> !(e.Start? && !e.packetOk)
    ensures e.Start? && !e.packetOk ==>
              NextAction(Step(Step(s, e, packet, maxRetries), Requeue, packet, maxRetries).disk, true) == DoCall
  {
    if e.Start? && !e.packetOk {
      var t := Step(s, e, packet, maxRetries);
      assert t.disk.stage == BLOCKED && t.pc.Down?;
    }
  }

  /** A budget stop before a call parks the unit exactly when an identity is already on the slot,
      though no request is out: the identity of an earlier, known failure is not cleared. */
  lemma BudgetStopParks(s: Sys, open: Event, due: bool, packet: Packet, maxRetries: nat)
    requires WellFormed(s) && s.pc.Calling? && Opens(open)
    ensures var t := Run(s, [Gate(false)] + [open, Tick(due)], packet, maxRetries);
            && t.sent == s.sent && t.lost == s.lost
            && (t.disk.stage == REMOTE_OUTCOME_UNKNOWN <==> s.mem.Of(s.pc.role).attempt.Some?)
  {
    RunSplit(s, [Gate(false)], [open, Tick(due)], packet, maxRetries);
    FirstEvent(s, Gate(false), packet, maxRetries);
    ReopenParks(s.(pc := Down), s.pc.role, open, due, packet, maxRetries);
  }

  // ---------------------------------------------------------------------------
  // The conditions above are needed: two concrete runs
  // ---------------------------------------------------------------------------

  lemma Extend(s: Sys, events: seq<Event>, e: Event, packet: Packet, maxRetries: nat)
    ensures Run(s, events + [e], packet, maxRetries) == Step(Run(s, events, packet, maxRetries), e, packet, maxRetries)
  {
    RunSplit(s, events, [e], packet, maxRetries);
    FirstEvent(Run(s, events, packet, maxRetries), e, packet, maxRetries);
  }

  lemma Play(s0: Sys, before: seq<Event>, s: Sys, e: Event, packet: Packet, maxRetries: nat)
    returns (after: seq<Event>, t: Sys)
    requires s == Run(s0, before, packet, maxRetries)
    ensures t == Step(s, e, packet, maxRetries) && after == before + [e] && t == Run(s0, after, packet, maxRetries)
  {
    Extend(s0, before, e, packet, maxRetries);
    after, t := before + [e], Step(s, e, packet, maxRetries);
  }

  const OPEN_POLICY := Policy(true, true, 0, Some(true))

  /** From a READY unit at rest to the first call being due. */
  lemma PlayToCall(s0: Sys, before: seq<Event>, s: Sys, packet: Packet, maxRetries: nat)
    returns (after: seq<Event>, t: Sys)
    requires s == Run(s0, before, packet, maxRetries) && s.pc.Down? && s.disk.stage == READY
    ensures t == Run(s0, after, packet, maxRetries)
    ensures t == s.(policy := OPEN_POLICY, disk := s.disk.(stage := INVESTIGATOR_CALLING),
                    mem := s.disk.(stage := INVESTIGATOR_CALLING), pc := Calling(Investigator))
  {
    hide Run;
    after, t := Play(s0, before, s, Start(OPEN_POLICY, true, true), packet, maxRetries);
    after, t := Play(s0, after, t, Tick(true), packet, maxRetries);
  }

  /** From a call being due to its request being out. */
  lemma PlayToSent(s0: Sys, before: seq<Event>, s: Sys, packet: Packet, maxRetries: nat)
    returns (after: seq<Event>, t: Sys)
    requires s == Run(s0, before, packet, maxRetries)
    requires s.pc == Calling(Investigator) || (s.pc.Repairing? && s.pc.role == Investigator)
    ensures t == Run(s0, after, packet, maxRetries)
    ensures t.pc.Sent? && t.sent == s.sent + [t.pc.call]
    ensures t.pc.call.role == Investigator && t.pc.call.repaired == s.pc.Repairing?
    ensures s.pc.Calling? ==> t.pc.call.id == AttemptId(Investigator, s.mem.transportAttempts + 1, PacketPrompt)
    ensures t.mem == s.mem.(investigator := s.mem.investigator.(attempt := Some(t.pc.call.id)), error := NoError)
    ensures t.charged == s.charged && t.lost == s.lost && t.blanks == s.blanks && t.requeues == s.requeues
  {
    hide Run;
    after, t := Play(s0, before, s, Gate(true), packet, maxRetries);
    after, t := Play(s0, after, t, Tick(true), packet, maxRetries);
  }

  /** From a request that fails retryably to the unit waiting for its retry. */
  lemma PlayFailure(s0: Sys, before: seq<Event>, s: Sys, packet: Packet, maxRetries: nat)
    returns (after: seq<Event>, t: Sys)
    requires s == Run(s0, before, packet, maxRetries) && s.pc.Sent?
    requires s.mem.stage == INVESTIGATOR_CALLING || s.mem.stage == INVESTIGATOR_RESPONSE
    requires s.mem.transportAttempts < maxRetries
    ensures t == Run(s0, after, packet, maxRetries)
    ensures t.pc.Down?
    ensures t.disk == s.mem.(stage := RETRY_WAIT, transportAttempts := s.mem.transportAttempts + 1,
                             error := BackendRetryable)
    ensures t.sent == s.sent && t.charged == s.charged + 1 && t.lost == s.lost && t.blanks == s.blanks
    ensures t.requeues == s.requeues
  {
    hide Run;
    after, t := Play(s0, before, s, Failure(Retryable), packet, maxRetries);
    after, t := Play(s0, after, t, Tick(true), packet, maxRetries);
  }

  /** From a due retry with no usable text to the unit being READY again. */
  lemma PlayResume(s0: Sys, before: seq<Event>, s: Sys, packet: Packet, maxRetries: nat)
    returns (after: seq<Event>, t: Sys)
    requires s == Run(s0, before, packet, maxRetries) && s.pc.Down? && s.disk.stage == RETRY_WAIT
    requires s.disk.candidate.None? && !Has(s.disk.investigator.reply)
    ensures t == Run(s0, after, packet, maxRetries)
    ensures t.pc.Down? && t.disk.stage == READY && t.disk.investigator == s.disk.investigator
    ensures t.sent == s.sent && t.charged == s.charged && t.lost == s.lost && t.blanks == s.blanks
    ensures t.requeues == s.requeues
  {
    hide Run;
    after, t := Play(s0, before, s, Start(OPEN_POLICY, true, true), packet, maxRetries);
    after, t := Play(s0, after, t, Tick(true), packet, maxRetries);
    after, t := Play(s0, after, t, Crash, packet, maxRetries);
  }

  /** From the first request being out to its blank reply being durable. */
  lemma PlayBlank(s0: Sys, before: seq<Event>, s: Sys, packet: Packet, maxRetries: nat)
    returns (after: seq<Event>, t: Sys)
    requires s == Run(s0, before, packet, maxRetries) && s.pc.Sent? && Primary(s.pc.call, Investigator)
    requires s.mem.stage == INVESTIGATOR_CALLING
    ensures t == Run(s0, after, packet, maxRetries)
    ensures t.pc == Judging(Investigator)
    ensures t.mem == s.mem.(stage := INVESTIGATOR_RESPONSE, investigator := s.mem.investigator.(reply := Some("")),
                            responseDigest := Some(""))
    ensures t.sent == s.sent && t.lost == s.lost && t.blanks == s.blanks + 1 && t.requeues == s.requeues
  {
    hide Run;
    after, t := Play(s0, before, s, Reply(""), packet, maxRetries);
    after, t := Play(s0, after, t, Tick(true), packet, maxRetries);
  }

  /** A blank reply is refused and its repair is due. */
  lemma PlayRefused(s0: Sys, before: seq<Event>, s: Sys, packet: Packet, maxRetries: nat)
    returns (after: seq<Event>, t: Sys)
    requires s == Run(s0, before, packet, maxRetries) && s.pc == Judging(Investigator) && StrictPacket(packet)
    requires s.mem.investigator.reply == Some("") && s.mem.investigator.repair.None? && s.mem.investigator.repairs == 0
    ensures t == Run(s0, after, packet, maxRetries)
    ensures t.pc.Repairing? && t == s.(pc := t.pc) && t.pc.role == Investigator
  {
    hide Run;
    after, t := Play(s0, before, s, Tick(true), packet, maxRetries);
  }

  /** A retryable failure whose outcome is fully known leaves its identity behind, so the next
      call starts from a slot that a budget stop will park, with nothing lost and one charge. */
  lemma KnownFailureLeavesIdentity(packet: Packet, maxRetries: nat) returns (events: seq<Event>)
    requires maxRetries >= 1
    ensures var s := Run(Initial(OPEN_POLICY), events, packet, maxRetries);
            && s.pc == Calling(Investigator) && s.mem.investigator.attempt.Some?
            && s.lost == 0 && s.charged == |s.sent| == 1
  {
    var s0 := Initial(OPEN_POLICY);
    assert Run(s0, [], packet, maxRetries) == s0;
    var s;
    events, s := PlayToCall(s0, [], s0, packet, maxRetries);
    events, s := PlayToSent(s0, events, s, packet, maxRetries);
    events, s := PlayFailure(s0, events, s, packet, maxRetries);
    events, s := PlayResume(s0, events, s, packet, maxRetries);
    events, s := PlayToCall(s0, events, s, packet, maxRetries);
  }

  /** A new unit whose first reply is blank comes to a repair being due, with one call spent. */
  lemma PlayFirstBlank(packet: Packet, maxRetries: nat) returns (events: seq<Event>, s: Sys)
    requires StrictPacket(packet)
    ensures s == Run(Initial(OPEN_POLICY), events, packet, maxRetries)
    ensures s.pc.Repairing? && s.pc.role == Investigator && s.mem.stage == INVESTIGATOR_RESPONSE
    ensures s.mem.candidate.None? && s.mem.investigator.reply == Some("") && s.mem.transportAttempts == 0
    ensures |s.sent| == 1 && Primary(s.sent[0], Investigator) && s.sent[0].id.prompt == PacketPrompt
    ensures s.blanks == 1 && s.lost == 0 && s.requeues == 0
  {
    var s0 := Initial(OPEN_POLICY);
    assert Run(s0, [], packet, maxRetries) == s0;
    events, s := PlayToCall(s0, [], s0, packet, maxRetries);
    events, s := PlayToSent(s0, events, s, packet, maxRetries);
    events, s := PlayBlank(s0, events, s, packet, maxRetries);
    events, s := PlayRefused(s0, events, s, packet, maxRetries);
  }

  /** A blank first reply is durable, and is bought again after the retry of its repair. */
  lemma BlankReplyIsBoughtAgain(packet: Packet, maxRetries: nat) returns (events: seq<Event>)
    requires maxRetries >= 1 && StrictPacket(packet)
    ensures var s := Run(Initial(OPEN_POLICY), events, packet, maxRetries);
            && |s.sent| == 3 && Primary(s.sent[0], Investigator) && Primary(s.sent[2], Investigator)
            && s.sent[0].id.prompt == s.sent[2].id.prompt
            && s.blanks == 1 && s.lost == 0 && s.requeues == 0
  {
    var s0 := Initial(OPEN_POLICY);
    var s;
    events, s := PlayFirstBlank(packet, maxRetries);
    events, s := PlayToSent(s0, events, s, packet, maxRetries);
    events, s := PlayFailure(s0, events, s, packet, maxRetries);
    events, s := PlayResume(s0, events, s, packet, maxRetries);
    events, s := PlayToCall(s0, events, s, packet, maxRetries);
    events, s := PlayToSent(s0, events, s, packet, maxRetries);
  }
}
