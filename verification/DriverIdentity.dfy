/** Paid-attempt identities over whole runs: exactly when two transports carry the same one. */
module DriverIdentity {
  import opened Options
  import opened Deliberation
  import opened Jobs
  import opened Driver
  import opened DriverShape
  import opened DriverPayment
  import opened DriverTrace
  import opened DriverReplay

  // ---------------------------------------------------------------------------
  // What became of each transport
  // ---------------------------------------------------------------------------

  /** `Blank` is a kept first reply that is the empty text, `Counted` a failure the attempt counter
      counts, `Refused` one that blocks the unit. */
  datatype Fate = Pending | Lost | Blank | Answered | Counted | Refused

  function Settle(fates: seq<Fate>, f: Fate): seq<Fate> {
    if fates == [] then fates else fates[..|fates| - 1] + [f]
  }

  /** How one event moves the fates. */
  function NextFates(s: Sys, fates: seq<Fate>, e: Event): seq<Fate> {
    if s.pc.Marked? && e.Tick? then fates + [Pending]
    else if InFlight(s.pc) && (e.Crash? || (s.pc.Sent? && e.LedgerDown?)) then Settle(fates, Lost)
    else if s.pc.Replied? && e.Tick? then
      Settle(fates, if s.pc.text == "" && !s.pc.call.repaired then Blank else Answered)
    else if s.pc.Failed? && e.Tick? then Settle(fates, if s.pc.failure == Retryable then Counted else Refused)
    else fates
  }

  /** The fate of every transport of a run, in order. */
  function Fates(policy: Policy, events: seq<Event>, packet: Packet, maxRetries: nat): seq<Fate> {
    if events == [] then []
    else
      var before, e := events[..|events| - 1], events[|events| - 1];
      NextFates(Run(Initial(policy), before, packet, maxRetries), Fates(policy, before, packet, maxRetries), e)
  }

  function Counts(fates: seq<Fate>): nat {
    if fates == [] then 0
    else Counts(fates[..|fates| - 1]) + (if fates[|fates| - 1].Counted? then 1 else 0)
  }

  lemma LastCounts(fates: seq<Fate>)
    requires fates != []
    ensures Counts(fates) == Counts(fates[..|fates| - 1]) + (if fates[|fates| - 1].Counted? then 1 else 0)
  {
  }

  lemma {:induction false} CountsBetween(fates: seq<Fate>, i: nat, j: nat)
    requires i <= j <= |fates|
    ensures Counts(fates[..i]) <= Counts(fates[..j])
    ensures Counts(fates[..i]) == Counts(fates[..j]) <==> forall k :: i <= k < j ==> !fates[k].Counted?
  {
    if i < j {
      CountsBetween(fates, i, j - 1);
      assert fates[..j][..j - 1] == fates[..j - 1];
    }
  }

  // ---------------------------------------------------------------------------
  // The invariant
  // ---------------------------------------------------------------------------

  /** The reply the request asked for is in the journal. */
  predicate Filled(j: Job, call: Request) {
    if call.repaired then j.Of(call.role).repairs >= 1 else Has(j.Of(call.role).reply)
  }

  predicate IdFits(call: Request) { call.id.role == call.role && (call.repaired <==> call.id.prompt.RepairPrompt?) }

  /** The ordinal of a request counts the failures before it. */
  ghost predicate Numbered(sent: seq<Request>, fates: seq<Fate>) {
    && |fates| == |sent|
    && forall i :: 0 <= i < |sent| ==> IdFits(sent[i]) && sent[i].id.ordinal == 1 + Counts(fates[..i])
  }

  /** Only the last transport is open, and it is the one the drive waits for. */
  predicate OneOpen(s: Sys, fates: seq<Fate>) {
    && (forall i :: 0 <= i < |fates| && fates[i].Pending? ==> InFlight(s.pc) && i == |fates| - 1)
    && (InFlight(s.pc) ==>
          && s.sent != [] && s.sent[|s.sent| - 1] == s.pc.call
          && fates != [] && fates[|fates| - 1].Pending?)
  }

  /** An answered transport has its reply in the journal; a refused one settled the unit. */
  predicate Kept(j: Job, sent: seq<Request>, fates: seq<Fate>) {
    |fates| == |sent| &&
    forall i :: 0 <= i < |fates| ==> !fates[i].Refused? && (fates[i].Answered? ==> Filled(j, sent[i]))
  }

  predicate Unheard(f: Fate) { f.Lost? || f.Blank? }

  ghost predicate RepeatsUnheard(sent: seq<Request>, fates: seq<Fate>) {
    |fates| == |sent| &&
    forall i, j :: 0 <= i < j < |sent| && sent[i].id == sent[j].id ==> Unheard(fates[i])
  }

  ghost predicate Fated(s: Sys, fates: seq<Fate>) {
    && Numbered(s.sent, fates) && OneOpen(s, fates)
    && s.disk.transportAttempts == Counts(fates)
    && (s.requeues == 0 ==> RepeatsUnheard(s.sent, fates) && (Selectable(s.disk.stage) ==> Kept(s.disk, s.sent, fates)))
  }

  // ---------------------------------------------------------------------------
  // One step
  // ---------------------------------------------------------------------------

  predicate SameTexts(j: Job, k: Job) {
    && k.investigator.reply == j.investigator.reply && k.investigator.repairs == j.investigator.repairs
    && k.critic.reply == j.critic.reply && k.critic.repairs == j.critic.repairs
    && k.finalizer.reply == j.finalizer.reply && k.finalizer.repairs == j.finalizer.repairs
  }

  /** A step that sends nothing, fills nothing and fails nothing. */
  predicate Silent(s: Sys, t: Sys) {
    && t.sent == s.sent && t.disk.transportAttempts == s.disk.transportAttempts && s.requeues <= t.requeues
    && (t.requeues == 0 && Selectable(t.disk.stage) ==> Selectable(s.disk.stage) && SameTexts(s.disk, t.disk))
    && !InFlight(s.pc) && !InFlight(t.pc)
  }

  lemma SilentFated(s: Sys, t: Sys, fates: seq<Fate>)
    requires Fated(s, fates) && Silent(s, t)
    ensures Fated(t, fates)
  {
    hide Selectable, Numbered, RepeatsUnheard;
  }

  lemma SilentDrive(s: Sys, e: Event, packet: Packet)
    requires WellFormed(s) && Driving(s.pc)
    ensures Silent(s, Drive(s, e, packet))
  {
    hide WellFormed, Drive, Selectable;
    DrivingSelectable(s);
    FramedDrive(s, e, packet);
  }

  lemma DrivingSelectable(s: Sys)
    requires WellFormed(s) && !s.pc.Down? && !s.pc.Compacting?
    ensures Selectable(s.disk.stage) && (!s.pc.Committed? && !s.pc.Recorded? ==> s.mem == s.disk)
  {
  }

  lemma SilentGate(s: Sys, e: Event)
    requires WellFormed(s) && Gating(s.pc)
    ensures Silent(s, AtGate(s, e))
  {
    hide WellFormed, OrEmpty;
    DrivingSelectable(s);
    match s.pc.role
    case Investigator =>
    case Critic =>
    case Finalizer =>
  }

  lemma SilentFinish(s: Sys, e: Event, maxRetries: nat)
    requires WellFormed(s) && Finishing(s.pc)
    ensures Silent(s, Finish(s, e, maxRetries))
  {
    hide RecordOf, Legal;
  }

  lemma SilentDown(s: Sys, e: Event)
    requires s.pc.Down?
    ensures Silent(s, WhenDown(s, e))
  {
    hide RecordOf, ResumeStage;
  }

  /** The outstanding request, its identity and its place in the journal. */
  lemma OnTheWire(s: Sys, packet: Packet)
    requires Traced(s, packet) && (OnWire(s.pc) || Absorbing(s.pc))
    ensures s.mem == s.disk && Selectable(s.disk.stage)
    ensures IdFits(s.pc.call) && s.pc.call.id.ordinal == s.disk.transportAttempts + 1
    ensures !Filled(s.disk, s.pc.call)
    ensures Legal(s.disk.stage, RETRY_WAIT)
  {
  }

  lemma SendNumbered(sent: seq<Request>, fates: seq<Fate>, call: Request)
    requires Numbered(sent, fates) && IdFits(call) && call.id.ordinal == 1 + Counts(fates)
    ensures Numbered(sent + [call], fates + [Pending]) && Counts(fates + [Pending]) == Counts(fates)
  {
    hide IdFits, Counts;
    var after := fates + [Pending];
    assert fates[..|fates|] == fates;
    forall i | 0 <= i <= |fates|
      ensures after[..i] == fates[..i]
    {
    }
    LastCounts(after);
  }

  /** A new transport joins: if its identity was used before, that one was lost or its reply blank. */
  lemma SendFated(s: Sys, fates: seq<Fate>, packet: Packet)
    requires Traced(s, packet) && Fated(s, fates) && s.pc.Marked?
    ensures Fated(Wire(s, Tick(true)), fates + [Pending])
  {
    hide Traced, Selectable, Filled, Numbered, Counts;
    OnTheWire(s, packet);
    SendNumbered(s.sent, fates, s.pc.call);
    if s.requeues == 0 {
      SendUnheard(s, fates, packet);
    }
  }

  lemma SendUnheard(s: Sys, fates: seq<Fate>, packet: Packet)
    requires Traced(s, packet) && Fated(s, fates) && s.pc.Marked? && s.requeues == 0
    ensures forall i :: 0 <= i < |fates| && s.sent[i].id == s.pc.call.id ==> Unheard(fates[i])
  {
    hide Traced, Selectable, Filled, Counts;
    OnTheWire(s, packet);
    var n := |fates|;
    assert fates[..n] == fates;
    forall i | 0 <= i < n && s.sent[i].id == s.pc.call.id
      ensures Unheard(fates[i])
    {
      SameIdSameFill(s.disk, s.sent[i], s.pc.call);
      CountsBetween(fates, i, n);
    }
  }

  lemma SameIdSameFill(j: Job, a: Request, b: Request)
    requires IdFits(a) && IdFits(b) && a.id == b.id
    ensures Filled(j, a) == Filled(j, b)
  {
  }

  lemma SettlePrefix(fates: seq<Fate>, f: Fate)
    requires fates != []
    ensures |Settle(fates, f)| == |fates| && Settle(fates, f)[|fates| - 1] == f
    ensures forall i :: 0 <= i < |fates| ==> Settle(fates, f)[..i] == fates[..i]
    ensures forall i :: 0 <= i < |fates| - 1 ==> Settle(fates, f)[i] == fates[i]
  {
  }

  lemma SettleNumbered(sent: seq<Request>, fates: seq<Fate>, f: Fate)
    requires Numbered(sent, fates) && fates != [] && fates[|fates| - 1].Pending?
    ensures Numbered(sent, Settle(fates, f))
    ensures Counts(Settle(fates, f)) == Counts(fates) + (if f.Counted? then 1 else 0)
    ensures RepeatsUnheard(sent, fates) ==> RepeatsUnheard(sent, Settle(fates, f))
  {
    hide IdFits, Unheard, Counts, Settle;
    SettlePrefix(fates, f);
    LastCounts(fates);
    LastCounts(Settle(fates, f));
  }

  lemma SettleKept(j: Job, k: Job, sent: seq<Request>, fates: seq<Fate>, f: Fate)
    requires Kept(j, sent, fates) && fates != [] && !f.Refused?
    requires f.Answered? ==> Filled(k, sent[|sent| - 1])
    requires forall call :: Filled(j, call) ==> Filled(k, call)
    ensures Kept(k, sent, Settle(fates, f))
  {
    hide Filled;
  }

  /** The open transport gets its fate. */
  lemma SettleFated(s: Sys, t: Sys, fates: seq<Fate>, f: Fate)
    requires Fated(s, fates) && InFlight(s.pc) && !InFlight(t.pc) && !f.Pending? && t.sent == s.sent
    requires t.disk.transportAttempts == s.disk.transportAttempts + (if f.Counted? then 1 else 0)
    requires t.requeues == s.requeues
    requires Selectable(t.disk.stage) ==>
               && Selectable(s.disk.stage) && !f.Refused? && (f.Answered? ==> Filled(t.disk, s.pc.call))
               && forall call :: Filled(s.disk, call) ==> Filled(t.disk, call)
    ensures Fated(t, Settle(fates, f))
  {
    hide Selectable, Filled, Numbered, RepeatsUnheard, Kept, Counts;
    SettleNumbered(s.sent, fates, f);
    if s.requeues == 0 && Selectable(t.disk.stage) {
      SettleKept(s.disk, t.disk, s.sent, fates, f);
    }
  }

  lemma ReplyFated(s: Sys, fates: seq<Fate>, packet: Packet)
    requires Traced(s, packet) && Fated(s, fates) && s.pc.Replied?
    ensures Fated(KeepReply(s, s.pc.call, s.pc.text), NextFates(s, fates, Tick(true)))
  {
    hide Traced, Fated, KeepReply, Settle, Selectable, Filled;
    OnTheWire(s, packet);
    ReplyFills(s, packet);
    var f := if s.pc.text == "" && !s.pc.call.repaired then Blank else Answered;
    SettleFated(s, KeepReply(s, s.pc.call, s.pc.text), fates, f);
  }

  /** A kept reply fills the slot of its request, unless it is blank, and empties none. */
  lemma ReplyFills(s: Sys, packet: Packet)
    requires Traced(s, packet) && s.pc.Replied?
    ensures var t := KeepReply(s, s.pc.call, s.pc.text);
            && !InFlight(t.pc) && t.sent == s.sent && t.requeues == s.requeues
            && t.disk.transportAttempts == s.disk.transportAttempts
            && (s.pc.call.repaired || s.pc.text != "" ==> Filled(t.disk, s.pc.call))
            && (forall call :: Filled(s.disk, call) ==> Filled(t.disk, call))
  {
    hide Busy, Attempted, Shaped;
    OnTheWire(s, packet);
    match s.pc.call.role
    case Investigator =>
    case Critic =>
    case Finalizer =>
  }

  lemma FailureFated(s: Sys, fates: seq<Fate>, packet: Packet, maxRetries: nat)
    requires Traced(s, packet) && Fated(s, fates) && s.pc.Failed?
    ensures Fated(TransportFailure(s, s.pc.failure, maxRetries), NextFates(s, fates, Tick(true)))
  {
    hide Traced, Fated, Settle, Legal;
    OnTheWire(s, packet);
    var f := if s.pc.failure == Retryable then Counted else Refused;
    SettleFated(s, TransportFailure(s, s.pc.failure, maxRetries), fates, f);
  }

  lemma LossFated(s: Sys, t: Sys, fates: seq<Fate>)
    requires Fated(s, fates) && InFlight(s.pc) && t.pc.Down?
    requires t.disk == s.disk && t.sent == s.sent && t.requeues == s.requeues
    ensures Fated(t, Settle(fates, Lost))
  {
    hide Fated, Settle, Filled, Selectable;
    SettleFated(s, t, fates, Lost);
  }

  lemma FallFated(s: Sys, fates: seq<Fate>)
    requires Fated(s, fates)
    ensures Fated(Fall(s), NextFates(s, fates, Crash))
  {
    hide Fated, Settle;
    if InFlight(s.pc) {
      LossFated(s, Fall(s), fates);
    } else {
      SilentFated(s, Fall(s), fates);
    }
  }

  lemma WireFated(s: Sys, e: Event, fates: seq<Fate>, packet: Packet)
    requires Traced(s, packet) && Fated(s, fates) && OnWire(s.pc)
    ensures e.Crash? || Fated(Wire(s, e), NextFates(s, fates, e))
  {
    hide Traced, Settle, Numbered, Kept, RepeatsUnheard;
    if s.pc.Marked? {
      SendFated(s, fates, packet);
    } else if e.LedgerDown? {
      LossFated(s, Wire(s, e), fates);
    }
  }

  lemma FatedStep(s: Sys, e: Event, fates: seq<Fate>, packet: Packet, maxRetries: nat)
    requires Traced(s, packet) && Fated(s, fates)
    ensures Fated(Step(s, e, packet, maxRetries), NextFates(s, fates, e))
  {
    hide Traced, Fated, Settle, Silent, Fall, WhenDown, Drive, AtGate, Wire, KeepReply, TransportFailure, Finish;
    TracedShape(s, packet);
    if e.Crash? {
      FallFated(s, fates);
    } else if s.pc.Down? {
      SilentDown(s, e);
      SilentFated(s, WhenDown(s, e), fates);
    } else if Driving(s.pc) {
      SilentDrive(s, e, packet);
      SilentFated(s, Drive(s, e, packet), fates);
    } else if Gating(s.pc) {
      SilentGate(s, e);
      SilentFated(s, AtGate(s, e), fates);
    } else if OnWire(s.pc) {
      WireFated(s, e, fates, packet);
    } else if s.pc.Replied? {
      ReplyFated(s, fates, packet);
    } else if s.pc.Failed? {
      FailureFated(s, fates, packet, maxRetries);
    } else {
      SilentFinish(s, e, maxRetries);
      SilentFated(s, Finish(s, e, maxRetries), fates);
    }
  }

  // ---------------------------------------------------------------------------
  // Every run
  // ---------------------------------------------------------------------------

  lemma StartFated(policy: Policy)
    ensures Fated(Initial(policy), [])
  {
  }

  lemma {:induction false} FatedRun(policy: Policy, events: seq<Event>, packet: Packet, maxRetries: nat)
    ensures Fated(Run(Initial(policy), events, packet, maxRetries), Fates(policy, events, packet, maxRetries))
  {
    hide Fated, Step, Traced, NextFates;
    if events == [] {
      StartFated(policy);
    } else {
      var before := events[..|events| - 1];
      FatedRun(policy, before, packet, maxRetries);
      TracedRun(policy, before, packet, maxRetries);
      FatedStep(Run(Initial(policy), before, packet, maxRetries), events[|events| - 1],
                Fates(policy, before, packet, maxRetries), packet, maxRetries);
    }
  }

  /** Over every run, requeues and all: two transports carry the same identity exactly when they ask the
      same role the same thing and none from the first up to the second was a counted failure. Without
      a requeue the first of two such transports was lost, or its reply blank. */
  lemma IdentityRepeatsExactly(policy: Policy, events: seq<Event>, packet: Packet, maxRetries: nat, i: nat, j: nat)
    requires i < j < |Run(Initial(policy), events, packet, maxRetries).sent|
    ensures var s := Run(Initial(policy), events, packet, maxRetries);
            var fates := Fates(policy, events, packet, maxRetries);
            && |fates| == |s.sent|
            && (s.sent[i].id == s.sent[j].id <==>
                  && s.sent[i].role == s.sent[j].role && s.sent[i].id.prompt == s.sent[j].id.prompt
                  && forall k :: i <= k < j ==> !fates[k].Counted?)
            && (s.sent[i].id == s.sent[j].id && s.requeues == 0 ==> Unheard(fates[i]))
  {
    hide Run, Fates;
    FatedRun(policy, events, packet, maxRetries);
    CountsBetween(Fates(policy, events, packet, maxRetries), i, j);
  }

  /** So with nothing requeued, no outcome lost and no first reply blank, no two transports carry the
      same identity: crashes between calls, retries, binding blocks and policy changes never repeat
      one. */
  lemma IdentitiesDistinct(policy: Policy, events: seq<Event>, packet: Packet, maxRetries: nat)
    requires Run(Initial(policy), events, packet, maxRetries).requeues == 0
    requires forall f :: f in Fates(policy, events, packet, maxRetries) ==> !Unheard(f)
    ensures var s := Run(Initial(policy), events, packet, maxRetries);
            forall i, j :: 0 <= i < j < |s.sent| ==> s.sent[i].id != s.sent[j].id
  {
    hide Run, Fates, Counts;
    var s := Run(Initial(policy), events, packet, maxRetries);
    var fates := Fates(policy, events, packet, maxRetries);
    forall i, j | 0 <= i < j < |s.sent|
      ensures s.sent[i].id != s.sent[j].id
    {
      IdentityRepeatsExactly(policy, events, packet, maxRetries, i, j);
      assert fates[i] in fates;
    }
  }

  // ---------------------------------------------------------------------------
  // Each exception happens
  // ---------------------------------------------------------------------------

  /** A blank first reply, a crash and a binding block: the same first call goes out under the same
      identity, with nothing lost or requeued. */
  lemma BlankRepeatsIdentity(packet: Packet, maxRetries: nat) returns (events: seq<Event>)
    ensures var s := Run(Initial(OPEN_POLICY), events, packet, maxRetries);
            |s.sent| == 2 && s.sent[0].id == s.sent[1].id && s.lost == 0 && s.requeues == 0 && s.blanks == 1
  {
    hide Run, Step, WellFormed, NextCall;
    var s0 := Initial(OPEN_POLICY);
    FirstSent(packet, maxRetries);
    var s;
    events, s := PlayBlank(s0, FIRST_CALL, Run(s0, FIRST_CALL, packet, maxRetries), packet, maxRetries);
    WellFormedRun(OPEN_POLICY, events, packet, maxRetries);
    JudgingFalls(s);
    BlockSends(Fall(s), Investigator, OPEN_POLICY, packet, maxRetries);
    var rest := [BlockBinding] + NextCall(OPEN_POLICY);
    CrashFalls(s, packet, maxRetries);
    FirstEvent(s, Crash, packet, maxRetries);
    RunSplit(s, [Crash], rest, packet, maxRetries);
    RunSplit(s0, events, [Crash] + rest, packet, maxRetries);
    events := events + ([Crash] + rest);
  }

  /** A permanent failure blocks the unit, and a requeue wakes it. */
  lemma PlayBlockedAndWoken(s0: Sys, before: seq<Event>, s: Sys, packet: Packet, maxRetries: nat)
    returns (after: seq<Event>, t: Sys)
    requires s == Run(s0, before, packet, maxRetries) && s.pc.Sent?
    ensures t == Run(s0, after, packet, maxRetries)
    ensures t.pc.Down? && t.disk.stage == READY && t.disk.transportAttempts == s.mem.transportAttempts
    ensures t.sent == s.sent && t.lost == s.lost && t.blanks == s.blanks
  {
    hide Run;
    after, t := Play(s0, before, s, Failure(Permanent), packet, maxRetries);
    after, t := Play(s0, after, t, Tick(true), packet, maxRetries);
    after, t := Play(s0, after, t, Requeue, packet, maxRetries);
  }

  /** A requeue clears the identities but not the attempt counter they are derived from, so the fresh
      call it buys goes out under the identity of the refused one, though nothing was lost or blank. */
  lemma RequeueRepeatsIdentity(packet: Packet, maxRetries: nat) returns (events: seq<Event>)
    ensures var s := Run(Initial(OPEN_POLICY), events, packet, maxRetries);
            |s.sent| == 2 && s.sent[0].id == s.sent[1].id && s.lost == 0 && s.blanks == 0
  {
    hide Run;
    var s0 := Initial(OPEN_POLICY);
    FirstSent(packet, maxRetries);
    var s;
    events, s := PlayBlockedAndWoken(s0, FIRST_CALL, Run(s0, FIRST_CALL, packet, maxRetries), packet, maxRetries);
    events, s := PlayToCall(s0, events, s, packet, maxRetries);
    events, s := PlayToSent(s0, events, s, packet, maxRetries);
  }

  lemma CrashFalls(s: Sys, packet: Packet, maxRetries: nat)
    ensures Step(s, Crash, packet, maxRetries) == Fall(s)
  {
  }

  lemma JudgingFalls(s: Sys)
    requires WellFormed(s) && s.pc.Judging?
    ensures Shaped(s.disk) && s.mem == s.disk && Fall(s) == s.(mem := s.disk, pc := Down)
  {
  }
}
