/** What a unit can cost, over every run of the driver: the number of transports is bounded, and each
    is charged once or among the lost ones. */
module DriverSpend {
  import opened Options
  import opened Deliberation
  import opened Jobs
  import opened Driver
  import opened DriverShape

  // ---------------------------------------------------------------------------
  // Bounded spend
  // ---------------------------------------------------------------------------

  function OpenOf(s: Slot): nat { (if Has(s.reply) then 0 else 1) + (if s.repairs == 0 then 1 else 0) }

  /** Calls the current attempt may still make: none once the job is settled. */
  function OpenCalls(j: Job): nat {
    if (j.stage.BLOCKED? || j.stage.STALE? || j.stage.DONE?) then 0
    else OpenOf(j.investigator) + OpenOf(j.critic) + OpenOf(j.finalizer)
  }

  function RetriesLeft(j: Job, maxRetries: nat): nat {
    if j.transportAttempts <= maxRetries then maxRetries - j.transportAttempts else 0
  }

  /** Six calls an attempt, the retries, and one more for every outcome the journal never saw and
      every blank primary reply. */
  function Allowance(s: Sys, maxRetries: nat): nat { 6 * (1 + s.requeues) + maxRetries + s.lost + s.blanks }

  predicate WithinAllowance(s: Sys, maxRetries: nat) {
    && |s.sent| + OpenCalls(s.disk) + RetriesLeft(s.disk, maxRetries)
         <= Allowance(s, maxRetries) + (if InFlight(s.pc) then 1 else 0)
    && |s.sent| == s.charged + s.uncharged + (if s.pc.Sent? then 1 else 0)
    && s.uncharged <= s.lost
  }

  /** A blank reply has already been allowed for when it is kept. */
  predicate Spends(s: Sys, maxRetries: nat) {
    && WithinAllowance(s, maxRetries)
    && (s.pc.Replied? && s.pc.text == "" && !s.pc.call.repaired ==>
          |s.sent| + OpenCalls(s.disk) + RetriesLeft(s.disk, maxRetries) <= Allowance(s, maxRetries))
  }

  /** A step that sends nothing and re-opens nothing. */
  predicate Thrifty(s: Sys, t: Sys) {
    && t.sent == s.sent && t.charged == s.charged && t.uncharged == s.uncharged
    && t.lost == s.lost && t.blanks == s.blanks && t.requeues == s.requeues
    && t.disk.transportAttempts == s.disk.transportAttempts
    && OpenCalls(t.disk) <= OpenCalls(s.disk)
    && !InFlight(s.pc) && !InFlight(t.pc)
  }

  lemma ThriftySpends(s: Sys, t: Sys, maxRetries: nat)
    requires Spends(s, maxRetries) && Thrifty(s, t)
    ensures Spends(t, maxRetries)
  {
  }

  lemma ThriftyDrive(s: Sys, e: Event, packet: Packet)
    requires WellFormed(s) && Driving(s.pc)
    ensures Thrifty(s, Drive(s, e, packet))
  {
    assert Selectable(s.disk.stage);
    FramedDrive(s, e, packet);
  }

  lemma ThriftyGate(s: Sys, e: Event)
    requires WellFormed(s) && Gating(s.pc)
    ensures Thrifty(s, AtGate(s, e))
  {
    assert s.mem == s.disk;
  }

  lemma ThriftyFinish(s: Sys, e: Event, maxRetries: nat)
    requires WellFormed(s) && Finishing(s.pc)
    ensures Thrifty(s, Finish(s, e, maxRetries))
  {
    hide OpenOf;
  }

  lemma SpendWire(s: Sys, e: Event, maxRetries: nat)
    requires WellFormed(s) && OnWire(s.pc) && Spends(s, maxRetries)
    ensures Spends(Wire(s, e), maxRetries)
  {
    hide WellFormed, OpenOf;
  }

  lemma SpendReply(s: Sys, maxRetries: nat)
    requires WellFormed(s) && s.pc.Replied? && Spends(s, maxRetries)
    ensures Spends(KeepReply(s, s.pc.call, s.pc.text), maxRetries)
  {
    var role := s.pc.call.role;
    assert s.mem == s.disk && Selectable(s.disk.stage);
    assert s.pc.call.repaired ==> s.mem.Of(role).repairs == 0;
    assert !s.pc.call.repaired ==>
             !Has(s.mem.Of(role).reply) && (role == Investigator ==> s.mem.stage == INVESTIGATOR_CALLING);
  }

  /** A failed call is of an open slot. */
  lemma FailedIsOpen(s: Sys)
    requires WellFormed(s) && s.pc.Failed?
    ensures s.mem == s.disk && Selectable(s.disk.stage) && Legal(s.mem.stage, RETRY_WAIT)
    ensures OpenOf(s.mem.Of(s.pc.call.role)) >= 1 && OpenCalls(s.disk) >= 1
  {
    assert OpenCalls(s.disk) >= OpenOf(s.mem.Of(s.pc.call.role));
  }

  lemma SpendFailure(s: Sys, maxRetries: nat)
    requires WellFormed(s) && s.pc.Failed? && Spends(s, maxRetries)
    ensures Spends(TransportFailure(s, s.pc.failure, maxRetries), maxRetries)
  {
    hide WellFormed, OpenOf, Legal;
    FailedIsOpen(s);
  }

  lemma SpendDown(s: Sys, e: Event, maxRetries: nat)
    requires WellFormed(s) && s.pc.Down? && Spends(s, maxRetries)
    ensures Spends(WhenDown(s, e), maxRetries)
  {
    hide WellFormed;
  }

  lemma {:induction false} SpendStep(s: Sys, e: Event, packet: Packet, maxRetries: nat)
    requires WellFormed(s) && Spends(s, maxRetries)
    ensures Spends(Step(s, e, packet, maxRetries), maxRetries)
  {
    if e.Crash? {
      assert Spends(Fall(s), maxRetries);
    } else if Absorbing(s.pc) && e.Tick? {
      if s.pc.Replied? { SpendReply(s, maxRetries); } else { SpendFailure(s, maxRetries); }
    }
    if s.pc.Down? {
      SpendDown(s, e, maxRetries);
    } else if Driving(s.pc) {
      ThriftyDrive(s, e, packet);
      ThriftySpends(s, Drive(s, e, packet), maxRetries);
    } else if Gating(s.pc) {
      ThriftyGate(s, e);
      ThriftySpends(s, AtGate(s, e), maxRetries);
    } else if OnWire(s.pc) {
      SpendWire(s, e, maxRetries);
    } else if Finishing(s.pc) {
      ThriftyFinish(s, e, maxRetries);
      ThriftySpends(s, Finish(s, e, maxRetries), maxRetries);
    }
  }

  lemma {:induction false} SpendRun(policy: Policy, events: seq<Event>, packet: Packet, maxRetries: nat)
    ensures Spends(Run(Initial(policy), events, packet, maxRetries), maxRetries)
  {
    if events != [] {
      var before := events[..|events| - 1];
      WellFormedRun(policy, before, packet, maxRetries);
      SpendRun(policy, before, packet, maxRetries);
      SpendStep(Run(Initial(policy), before, packet, maxRetries), events[|events| - 1], packet, maxRetries);
    }
  }

  /** Bounded spend, over every run: crashes, binding blocks, requeues, policy changes and all.
      Every transport is charged once, or is one of the `uncharged` ones that a crash or an
      unwritable ledger cut short; those are among the lost ones. */
  lemma {:induction false} BoundedSpend(policy: Policy, events: seq<Event>, packet: Packet, maxRetries: nat)
    ensures var s := Run(Initial(policy), events, packet, maxRetries);
            && |s.sent| <= 6 * (1 + s.requeues) + maxRetries + s.lost + s.blanks + (if InFlight(s.pc) then 1 else 0)
            && s.charged <= |s.sent| <= s.charged + s.lost + (if s.pc.Sent? then 1 else 0)
  {
    SpendRun(policy, events, packet, maxRetries);
  }
}
