/** The driver as the source runs it: one journal entry, one in-memory job, and a loop that falls
    from one action into the next.

    Source: `_drive_unit`, `_guarded_call`, `_transport_failure`, `_stage` of
    `tools/saipal_analyst/worker.py`. Every method is proved to make steps of the step system in
    `Driver`, so what is proved of every run there holds of this code from any durable state. */
module Worker {
  import opened Options
  import opened Deliberation
  import opened Jobs
  import opened Driver
  import opened DriverShape
  import opened DriverSpend
  import opened DriverRefinement

  datatype Door = Open | Shut | MarkFails

  /** What the transport and the charge after it come to. */
  datatype Wired = WireText(text: string) | WireFailure(failure: FailureClass) | Unbooked

  /** Everything outside one drive; `door` and `wire` are indexed by the model calls made so far. */
  datatype Surroundings = Surroundings(
    bindable: bool, packetOk: bool, due: bool,
    door: nat -> Door, wire: (nat, Role, Prompt) -> Wired,
    kernel: KernelAnswer, provenanceOk: bool)
  {
    /** The transport answers as the world's model does, whenever it answers. */
    ghost predicate Truthful(w: World) {
      forall n, role, prompt :: wire(n, role, prompt).WireText? ==> wire(n, role, prompt).text == w.model(role, prompt)
    }

    /** Bound, due and built; every gate open, every call answered by the world's model, the kernel
        accepting and the provenance ledger writable. */
    ghost predicate Benign(w: World) {
      && bindable && packetOk && due && kernel == Accept && provenanceOk
      && (forall n :: door(n) == Open)
      && (forall n, role, prompt :: wire(n, role, prompt) == WireText(w.model(role, prompt)))
    }
  }

  datatype Answered = GotText(text: string) | GotFailure(failure: FailureClass) | Stopped

  datatype Validated<+T> = Value(value: T) | Refused | CallFailed(failure: FailureClass) | CallStopped

  /** What `_drive_unit` returns, or raises. */
  datatype Outcome = Done | Blocked | BindingBlocked | Stale | RetryWait | BudgetStop | IllegalMove

  /** How a settled drive leaves the journal. */
  predicate Matches(outcome: Outcome, st: Stage) {
    match outcome
    case Done => st.DONE?
    case Blocked => st.BLOCKED? || st.REMOTE_OUTCOME_UNKNOWN?
    case BindingBlocked => st.BLOCKED_BINDING?
    case Stale => st.STALE?
    case RetryWait => st.RETRY_WAIT?
    case BudgetStop => Selectable(st)
    case IllegalMove => st.SUBMITTING? || st.CRITIC_CALLING?
  }

  /** The verdict step of a role: its text is durable and about to be judged. */
  predicate AtVerdict(s: Sys, role: Role, packet: Packet) {
    s.pc == Judging(role) ||
    (s.pc.Top? &&
     match role
     case Investigator => s.mem.stage == INVESTIGATOR_RESPONSE
     case Critic =>
       s.mem.stage == CRITIC_CALLING && Has(s.mem.critic.reply) && s.mem.candidate.Some?
       && NeedsCritic(s.mem.candidate.value, packet, s.policy)
     case Finalizer =>
       s.mem.stage == FINALIZER_CALLING && Has(s.mem.finalizer.reply) && s.mem.report.Some?
       && Disputed(s.mem.candidate, s.mem.report.value) && FinalizerOnByDefaultOn(s.policy))
  }

  lemma VerdictStep(s: Sys, role: Role, packet: Packet, due: bool, maxRetries: nat)
    requires AtVerdict(s, role, packet)
    ensures Step(s, Tick(due), packet, maxRetries) == Judge(s, role, packet)
  {
    hide StepValidate, CriticVerdict, FinalizerVerdict;
  }

  /** A closed gate only ends the drive. */
  lemma GateStep(s: Sys, open: bool, packet: Packet, maxRetries: nat)
    requires Gating(s.pc)
    ensures Step(s, Gate(open), packet, maxRetries) == AtGate(s, Gate(open))
  {
  }

  lemma MarkStep(s: Sys, role: Role, prompt: Prompt, repaired: bool, packet: Packet, maxRetries: nat)
    requires if repaired then s.pc.Repairing? && s.pc.role == role
                              && prompt == RepairPrompt(OrEmpty(s.mem.Of(role).reply), s.pc.why)
             else s.pc == Calling(role) && prompt == PromptOf(s.mem, role)
    ensures Step(s, Gate(true), packet, maxRetries) == Mark(s, role, repaired, prompt)
  {
    hide Mark, PromptOf;
  }

  /** The steps between the durable identity and the charge. */
  lemma WireSteps(s: Sys, packet: Packet, maxRetries: nat)
    requires s.pc.Marked?
    ensures var t := Step(s, Tick(true), packet, maxRetries);
            && t == s.(sent := s.sent + [s.pc.call], pc := Sent(s.pc.call))
            && Step(t, LedgerDown, packet, maxRetries)
               == t.(uncharged := t.uncharged + 1, lost := t.lost + 1, pc := Down)
            && (forall f ::
                  Step(t, Failure(f), packet, maxRetries) == t.(charged := t.charged + 1, pc := Failed(s.pc.call, f)))
            && (forall x :: Step(t, Reply(x), packet, maxRetries)
                  == t.(charged := t.charged + 1, pc := Replied(s.pc.call, x),
                        blanks := t.blanks + (if x == "" && !s.pc.call.repaired then 1 else 0)))
  {
  }

  lemma ReplyStep(s: Sys, packet: Packet, maxRetries: nat)
    requires WellFormed(s) && s.pc.Replied?
    ensures Step(s, Tick(true), packet, maxRetries) == KeepReply(s, s.pc.call, s.pc.text)
    ensures !s.pc.call.repaired && s.pc.call.role == Investigator ==> Legal(s.mem.stage, INVESTIGATOR_RESPONSE)
  {
  }

  lemma FailureStep(s: Sys, packet: Packet, maxRetries: nat)
    requires WellFormed(s) && s.pc.Failed?
    ensures Step(s, Tick(true), packet, maxRetries) == Driver.TransportFailure(s, s.pc.failure, maxRetries)
    ensures Legal(s.mem.stage, RETRY_WAIT)
  {
  }

  lemma CallingUnsettled(s: Sys)
    requires WellFormed(s) && s.pc.Calling?
    ensures Selectable(s.mem.stage)
  {
  }

  /** The stage a verdict is given in. */
  lemma VerdictStage(s: Sys, role: Role, packet: Packet)
    requires WellFormed(s) && AtVerdict(s, role, packet)
    ensures CallStage(s.mem.stage, role, true) && Selectable(s.mem.stage) && s.mem.Of(role).reply.Some?
  {
  }

  lemma MidCritic(s: Sys, w: World)
    requires Refines(s, w) && s.pc.Top? && s.mem.stage == CRITIC_CALLING && s.mem.candidate.Some?
    ensures NeedsCritic(s.mem.candidate.value, w.packet, w.policy)
  {
    assert s.mem == s.disk && s.mem.finalizerDigest.None?;
  }

  lemma CriticStage(s: Sys)
    requires WellFormed(s) && s.pc.Top? && (s.mem.stage == CANDIDATE_READY || s.mem.stage == CRITIC_CALLING)
    ensures s.mem.candidate.Some?
  {
  }

  lemma TopIsCritic(s: Sys, packet: Packet, maxRetries: nat)
    requires s.pc.Top? && (s.mem.stage == CANDIDATE_READY || s.mem.stage == CRITIC_CALLING) && s.mem.candidate.Some?
    requires !Dangling(s.mem.critic) || s.mem.stage == CANDIDATE_READY
    ensures Step(s, Tick(true), packet, maxRetries) == StepCritic(s, packet)
  {
    hide StepCritic;
  }

  lemma FinalizeStage(s: Sys)
    requires WellFormed(s) && s.pc.Top? && (s.mem.stage == CRITIC_READY || s.mem.stage == FINALIZER_CALLING)
    ensures s.mem.candidate.Some? && s.mem.report.Some?
  {
  }

  lemma TopIsFinalize(s: Sys, packet: Packet, maxRetries: nat)
    requires s.pc.Top? && (s.mem.stage == CRITIC_READY || s.mem.stage == FINALIZER_CALLING)
    requires !Dangling(s.mem.finalizer) || s.mem.stage == CRITIC_READY
    ensures Step(s, Tick(true), packet, maxRetries) == StepFinalize(s, packet)
  {
    hide StepFinalize;
  }

  lemma SubmitStage(s: Sys, packet: Packet, maxRetries: nat)
    requires WellFormed(s) && s.pc.Top? && (s.mem.stage == FINAL_READY || s.mem.stage == SUBMITTING)
    ensures s.mem.candidate.Some?
    ensures var j := s.mem.(stage := SUBMITTING);
            Step(s, Tick(true), packet, maxRetries) == Persist(s, j, Submitting).(submitted := s.submitted + [j])
  {
  }

  lemma KernelStep(s: Sys, answer: KernelAnswer, packet: Packet, maxRetries: nat)
    requires s.pc.Submitting?
    ensures Step(s, Kernel(answer), packet, maxRetries) == KernelAnswers(s, answer, maxRetries)
  {
  }

  /** The receipt's record. */
  lemma CommitSteps(s: Sys, ok: bool, packet: Packet, maxRetries: nat)
    requires s.pc.Committed? && s.mem.receipt.Some?
    ensures Step(s, Provenance(ok), packet, maxRetries)
         == if ok then s.(prov := s.prov[s.mem.receipt.value := RecordOf(s.mem)], pc := Recorded(true))
            else s.(pc := Recorded(false))
  {
    hide RecordOf, Has;
  }

  /** DONE, and the tombstone when the record was written. */
  lemma ConcludeSteps(s: Sys, packet: Packet, maxRetries: nat)
    requires s.pc.Recorded?
    ensures var u := Step(s, Tick(true), packet, maxRetries);
            && u == Persist(s, s.mem.(stage := DONE), if s.pc.ok then Compacting else Down)
            && (s.pc.ok ==> Step(u, Tick(true), packet, maxRetries) == Persist(u, CompactDone(u.mem), Down))
  {
    hide CompactDone;
  }

  lemma TopValidates(s: Sys, packet: Packet, due: bool)
    requires WellFormed(s) && s.pc.Top?
    ensures NextAction(s.mem, due) == Action.Validate ==> AtVerdict(s, Investigator, packet)
  {
  }

  lemma JudgingIsVerdict(s: Sys, packet: Packet)
    requires s.pc.Judging?
    ensures AtVerdict(s, s.pc.role, packet)
  {
  }

  lemma TopStep(s: Sys, due: bool, packet: Packet, maxRetries: nat)
    requires s.pc.Top?
    ensures Step(s, Tick(due), packet, maxRetries) == StepTop(s, packet, due)
  {
    hide StepTop;
  }

  /** What the loop does with a unit it may select. */
  lemma ActionOf(j: Job, due: bool)
    requires Selectable(j.stage) && j.stage != BLOCKED_BINDING
    ensures var a := NextAction(j, due);
            && !a.Skip? && (a.Ambiguous? <==> NextAction(j, true).Ambiguous?)
            && (a.Submit? ==> j.stage == FINAL_READY || j.stage == SUBMITTING)
            && (a.Retry? || a.Wait? ==> j.stage == RETRY_WAIT) && (a.Wait? ==> !due)
    ensures j.stage == RETRY_WAIT ==> NextAction(j, true) == Retry && NextAction(j, due) == if due then Retry else Wait
  {
  }

  function Reactivated(j: Job): Job {
    if j.stage == BLOCKED_BINDING then j.(stage := ResumeStage(j), error := NoError) else j
  }

  lemma ReactivatedSelectable(j: Job)
    requires Selectable(j.stage)
    ensures Selectable(Reactivated(j).stage) && Reactivated(j).stage != BLOCKED_BINDING
  {
  }

  lemma BeginStep(s: Sys, policy: Policy, bindable: bool, packetOk: bool, packet: Packet, maxRetries: nat)
    requires s.pc.Down? && Selectable(s.disk.stage)
    ensures var t := Step(s, Start(policy, bindable, packetOk), packet, maxRetries);
            t == if s.disk.stage == BLOCKED_BINDING && !bindable then s.(policy := policy, mem := s.disk)
                 else if packetOk then Persist(s.(policy := policy), Reactivated(s.disk), Top)
                 else Block(s.(policy := policy), Reactivated(s.disk), PacketError)
  {
    hide ResumeStage;
  }

  class UnitDriver {
    const w: World
    const maxRetries: nat
    const maxCalls: nat
    var disk: Job
    var job: Job
    var prov: map<Candidate, Record>
    var modelCalls: nat
    ghost var past: seq<Event>
    ghost var sys: Sys
    ghost var honest: bool

    ghost predicate Valid()
      reads this
    {
      && StrictPacket(w.packet)
      && sys == Run(Initial(w.policy), past, w.packet, maxRetries)
      && WellFormed(sys)
      && sys.disk == disk && sys.prov == prov && modelCalls <= maxCalls
      && (honest ==> HonestRun(past, w, maxRetries))
    }

    /** In the middle of a drive. */
    ghost predicate Live()
      reads this
    {
      && Valid() && !sys.pc.Down? && sys.mem == job && sys.policy == w.policy
      && (Finishing(sys.pc) || disk == job)
    }

    /** From any durable state a run of the step system can leave behind. */
    constructor (w: World, maxRetries: nat, maxCalls: nat, disk: Job, prov: map<Candidate, Record>,
            ghost past: seq<Event>)
      requires StrictPacket(w.packet)
      requires var s := Run(Initial(w.policy), past, w.packet, maxRetries);
               s.pc.Down? && s.disk == disk && s.prov == prov
      ensures Valid() && sys.pc.Down? && modelCalls == 0
      ensures this.w == w && this.maxRetries == maxRetries && this.maxCalls == maxCalls && this.disk == disk
      ensures this.past == past && (HonestRun(past, w, maxRetries) <==> honest)
    {
      this.w, this.maxRetries, this.maxCalls := w, maxRetries, maxCalls;
      this.disk, this.job, this.prov, modelCalls := disk, disk, prov, 0;
      this.past, sys := past, Run(Initial(w.policy), past, w.packet, maxRetries);
      honest := HonestRun(past, w, maxRetries);
      new;
      WellFormedRun(w.policy, past, w.packet, maxRetries);
    }

    lemma LiveFacts()
      requires Live()
      ensures WellFormed(sys) && sys.mem == job && sys.policy == w.policy && StrictPacket(w.packet)
    {
      hide Run, WellFormed, HonestRun;
    }

    /** One step of the step system, taken together with the code's own assignment. */
    ghost method Log(e: Event)
      requires WellFormed(sys) && sys == Run(Initial(w.policy), past, w.packet, maxRetries)
      requires honest ==> HonestRun(past, w, maxRetries)
      modifies this`past, this`sys, this`honest
      ensures sys == Step(old(sys), e, w.packet, maxRetries) && WellFormed(sys)
      ensures past == old(past) + [e] && sys == Run(Initial(w.policy), past, w.packet, maxRetries)
      ensures honest ==> HonestRun(past, w, maxRetries)
      ensures Honest(old(sys), e, w) ==> honest == old(honest)
    {
      WellFormedStep(sys, e, w.packet, maxRetries);
      LogExtends(past, e, w, maxRetries);
      honest := honest && Honest(sys, e, w);
      sys := Step(sys, e, w.packet, maxRetries);
      past := past + [e];
    }

    // -------------------------------------------------------------------------
    // One call
    // -------------------------------------------------------------------------

    /** What a call may change besides its own slot: nothing but the counters. */
    twostate predicate Called(role: Role)
      reads this
    {
      && prov == old(prov) && job.stage == old(job.stage)
      && job == old(job).Put(role, old(job).Of(role).(attempt := job.Of(role).attempt)).(error := NoError)
    }

    /** The budget-guarded transport attempt: gates first, then the durable identity, then the
        request, then its one durable charge. */
    method GuardedCall(role: Role, prompt: Prompt, repaired: bool, env: Surroundings) returns (r: Answered)
      requires Live()
      requires if repaired then sys.pc.Repairing? && sys.pc.role == role
                                && prompt == RepairPrompt(OrEmpty(job.Of(role).reply), sys.pc.why)
               else sys.pc == Calling(role) && prompt == PromptOf(job, role)
      modifies this
      ensures Valid() && prov == old(prov) && disk.stage == old(disk.stage) && old(past) <= past
      ensures env.Truthful(w) ==> honest == old(honest)
      ensures old(modelCalls) <= modelCalls <= maxCalls && modelCalls <= old(modelCalls) + 1
      ensures r == if old(modelCalls) == maxCalls || env.door(old(modelCalls)) != Open then Stopped
                   else match env.wire(old(modelCalls), role, prompt)
                        case WireText(text) => GotText(text)
                        case WireFailure(f) => GotFailure(f)
                        case Unbooked => Stopped
      ensures |sys.sent| - |old(sys.sent)| <= modelCalls - old(modelCalls)
      ensures r.Stopped? ==> sys.pc.Down?
      ensures !r.Stopped? ==>
                && Live() && Called(role) && modelCalls == old(modelCalls) + 1
                && (if r.GotText? then sys.pc.Replied? && sys.pc.text == r.text
                    else sys.pc.Failed? && sys.pc.failure == r.failure)
                && sys.pc.call == Request(role, repaired, AttemptId(role, old(job.transportAttempts) + 1, prompt))
                && job.Of(role).attempt == Some(sys.pc.call.id)
                && sys.sent == old(sys.sent) + [sys.pc.call] && sys.charged == old(sys.charged) + 1
    {
      hide Step, Run, WellFormed, HonestRun, PromptOf, OrEmpty, StrictPacket;
      var n := modelCalls;
      var open := PassGates(env);
      if !open {
        return Stopped;
      }
      var request := MarkAttempt(role, prompt, repaired);
      r := Transport(request, n, env);
    }

    /** Call budget, hourly budget and circuit, in that order; a closed one ends the drive. */
    method PassGates(env: Surroundings) returns (open: bool)
      requires Live() && Gating(sys.pc)
      modifies this`modelCalls, this`past, this`sys, this`honest
      ensures modelCalls <= maxCalls && honest == old(honest) && old(past) <= past && sys.sent == old(sys.sent)
      ensures modelCalls == old(modelCalls) +
                            if old(modelCalls) < maxCalls && env.door(old(modelCalls)) != Shut then 1 else 0
      ensures open == (old(modelCalls) < maxCalls && env.door(old(modelCalls)) == Open)
      ensures if open then sys == old(sys) && past == old(past) && modelCalls == old(modelCalls) + 1
              else Valid() && sys.pc.Down?
    {
      hide Step, Run, WellFormed, HonestRun, StrictPacket;
      GateStep(sys, false, w.packet, maxRetries);
      if modelCalls >= maxCalls {
        Log(Gate(false));
        return false;
      }
      match env.door(modelCalls) {
        case Shut =>
          Log(Gate(false));
          return false;
        case MarkFails =>
          modelCalls := modelCalls + 1;
          Log(Gate(false));
          return false;
        case Open =>
          modelCalls := modelCalls + 1;
          return true;
      }
    }

    /** The request leaves; its one charge is durable, or the drive stops. */
    method Transport(request: Request, n: nat, env: Surroundings) returns (r: Answered)
      requires Live() && sys.pc == Marked(request)
      modifies this`past, this`sys, this`honest
      ensures Valid() && old(past) <= past && (env.Truthful(w) ==> honest == old(honest))
      ensures env.Benign(w) ==> r.GotText?
      ensures r == match env.wire(n, request.role, request.id.prompt)
                   case WireText(text) => GotText(text)
                   case WireFailure(f) => GotFailure(f)
                   case Unbooked => Stopped
      ensures sys.sent == old(sys.sent) + [request]
      ensures r.Stopped? ==> sys.pc.Down?
      ensures !r.Stopped? ==>
                && Live() && sys.charged == old(sys.charged) + 1
                && sys.pc == (if r.GotText? then Replied(request, r.text) else Failed(request, r.failure))
    {
      hide Step, Run, WellFormed, HonestRun;
      WireSteps(sys, w.packet, maxRetries);
      Log(Tick(true));
      match env.wire(n, request.role, request.id.prompt) {
        case Unbooked =>
          Log(LedgerDown);
          r := Stopped;
        case WireText(text) =>
          Log(Reply(text));
          r := GotText(text);
        case WireFailure(f) =>
          Log(Failure(f));
          r := GotFailure(f);
      }
    }

    /** The attempt identity goes to disk before the transport. */
    method MarkAttempt(role: Role, prompt: Prompt, repaired: bool) returns (request: Request)
      requires Live()
      requires if repaired then sys.pc.Repairing? && sys.pc.role == role
                                && prompt == RepairPrompt(OrEmpty(job.Of(role).reply), sys.pc.why)
               else sys.pc == Calling(role) && prompt == PromptOf(job, role)
      modifies this`job, this`disk, this`past, this`sys, this`honest
      ensures Live() && honest == old(honest) && Called(role) && old(past) <= past
      ensures sys.pc == Marked(request) && request.role == role && request.repaired == repaired
      ensures request.id == AttemptId(role, old(job.transportAttempts) + 1, prompt)
      ensures job.Of(role).attempt == Some(request.id)
      ensures sys == old(sys).(disk := disk, mem := job, pc := sys.pc) && disk == job
    {
      hide Step, Run, WellFormed, HonestRun, PromptOf, OrEmpty;
      MarkStep(sys, role, prompt, repaired, w.packet, maxRetries);
      var id := AttemptId(role, job.transportAttempts + 1, prompt);
      job := job.Put(role, job.Of(role).(attempt := Some(id))).(error := NoError);
      disk := job;
      Log(Gate(true));
      return Request(role, repaired, id);
    }

    // -------------------------------------------------------------------------
    // What a call comes to
    // -------------------------------------------------------------------------

    /** A step of bookkeeping: nothing sent, nothing proved, no untruth. */
    twostate predicate Quietly()
      reads this
    {
      && prov == old(prov) && honest == old(honest) && sys.sent == old(sys.sent) && modelCalls == old(modelCalls)
      && old(past) <= past
    }

    twostate predicate SameDecision()
      reads this
    {
      job.candidate == old(job.candidate) && job.report == old(job.report)
        && job.finalizerDigest == old(job.finalizerDigest)
    }

    /** The paid text is durable before anything parses it. */
    method KeepRaw(role: Role, text: string, repaired: bool)
      requires Live() && sys.pc.Replied? && sys.pc.call.role == role && sys.pc.call.repaired == repaired
      requires sys.pc.text == text
      modifies this`job, this`disk, this`past, this`sys, this`honest
      ensures Live() && sys.pc == Judging(role) && Quietly()
      ensures job.Of(role) == if repaired then old(job).Of(role).(repairs := old(job).Of(role).repairs + 1,
                                                                  repair := Some(text))
                              else old(job).Of(role).(reply := Some(text))
      ensures SameDecision()
      ensures forall other: Role :: other != role ==> job.Of(other) == old(job).Of(other)
      ensures job.responseDigest == if !repaired && role == Investigator then Some(text) else old(job.responseDigest)
      ensures job.stage == if !repaired && role == Investigator then INVESTIGATOR_RESPONSE else old(job.stage)
    {
      hide Step, Run, WellFormed, HonestRun;
      var slot := job.Of(role);
      if repaired {
        job := job.Put(role, slot.(repairs := slot.repairs + 1, repair := Some(text)));
      } else {
        job := job.Put(role, slot.(reply := Some(text)));
        if role == Investigator {
          job := job.(responseDigest := Some(text), stage := INVESTIGATOR_RESPONSE);
        }
      }
      disk := job;
      ReplyStep(sys, w.packet, maxRetries);
      Log(Tick(true));
    }

    /** Provider failure is not output failure: a bounded retry, or a loud block. */
    method TransportFailure(failure: FailureClass) returns (outcome: Outcome)
      requires Live() && sys.pc.Failed? && sys.pc.failure == failure
      modifies this`job, this`disk, this`past, this`sys, this`honest
      ensures Valid() && sys.pc.Down? && Quietly()
      ensures outcome == if failure == Retryable && old(job.transportAttempts) < maxRetries then RetryWait else Blocked
      ensures Matches(outcome, disk.stage) && disk.error != BlockedOutputError
      ensures failure == Retryable ==> disk.transportAttempts == old(job.transportAttempts) + 1
      ensures disk == if failure != Retryable then old(job).(stage := BLOCKED, error := BackendError(failure))
                      else if old(job.transportAttempts) < maxRetries
                      then old(job).(transportAttempts := old(job.transportAttempts) + 1,
                                     stage := RETRY_WAIT, error := BackendRetryable)
                      else old(job).(transportAttempts := old(job.transportAttempts) + 1,
                                     stage := BLOCKED, error := RetryableExhausted)
    {
      hide Step, Run, WellFormed, HonestRun, StrictPacket, Legal;
      FailureStep(sys, w.packet, maxRetries);
      if failure != Retryable {
        job := job.(stage := BLOCKED, error := BackendError(failure));
        outcome := Blocked;
      } else {
        job := job.(transportAttempts := job.transportAttempts + 1);
        if job.transportAttempts > maxRetries {
          job := job.(stage := BLOCKED, error := RetryableExhausted);
          outcome := Blocked;
        } else {
          job := job.(error := BackendRetryable, stage := RETRY_WAIT);
          outcome := RetryWait;
        }
      }
      disk := job;
      Log(Tick(true));
    }

    /** Parse the role's persisted text with the one durable repair. */
    method ValidateWithRepair<T>(role: Role, parse: string -> Parsed<T>, env: Surroundings) returns (v: Validated<T>)
      requires Live() && AtVerdict(sys, role, w.packet) && parse("").Rejected?
      requires var slot := ValidateSlot(job.Of(role), parse);
               slot.NeedsRepair? ==> Judge(sys, role, w.packet) == sys.(pc := Repairing(role, slot.why))
      modifies this
      ensures Valid() && prov == old(prov) && old(past) <= past && (env.Truthful(w) ==> honest == old(honest))
      ensures modelCalls >= old(modelCalls) && |sys.sent| - |old(sys.sent)| <= modelCalls - old(modelCalls)
      ensures modelCalls <= old(modelCalls) + 1
      ensures env.Benign(w) && old(modelCalls) < maxCalls ==> v.Value? || v.Refused?
      ensures v.CallStopped? ==> sys.pc.Down? && disk.stage == old(job.stage)
      ensures v.CallFailed? ==> Live() && sys.pc.Failed? && sys.pc.failure == v.failure && modelCalls > old(modelCalls)
      ensures v.Value? || v.Refused? ==>
                && Live() && AtVerdict(sys, role, w.packet) && job.stage == old(job.stage) && SameDecision()
                && ValidateSlot(job.Of(role), parse) == if v.Value? then Validation.Valid(v.value) else Invalid
    {
      hide Step, Run, WellFormed, HonestRun, PromptOf, Judge;
      var slot := job.Of(role);
      VerdictStep(sys, role, w.packet, true, maxRetries);
      match parse(OrEmpty(slot.reply)) {
        case Accepted(x) => return Value(x);
        case Rejected(first) =>
          if Has(slot.repair) {
            match parse(slot.repair.value) {
              case Accepted(x) => return Value(x);
              case Rejected(_) => return Refused;
            }
          }
          if slot.repairs >= 1 {
            return Refused;
          }
          Log(Tick(true));
          v := AskRepair(role, RepairPrompt(OrEmpty(slot.reply), first), parse, env);
      }
    }

    /** The one repair call, and the verdict on its text. */
    method AskRepair<T>(role: Role, prompt: Prompt, parse: string -> Parsed<T>, env: Surroundings)
      returns (v: Validated<T>)
      requires Live() && parse("").Rejected?
      requires sys.pc.Repairing? && sys.pc.role == role
      requires prompt == RepairPrompt(OrEmpty(job.Of(role).reply), sys.pc.why)
      requires parse(OrEmpty(job.Of(role).reply)) == Rejected(sys.pc.why)
      requires !Has(job.Of(role).repair) && job.Of(role).repairs == 0
      modifies this
      ensures Valid() && prov == old(prov) && old(past) <= past && (env.Truthful(w) ==> honest == old(honest))
      ensures modelCalls >= old(modelCalls) && |sys.sent| - |old(sys.sent)| <= modelCalls - old(modelCalls)
      ensures modelCalls <= old(modelCalls) + 1
      ensures env.Benign(w) && old(modelCalls) < maxCalls ==> v.Value? || v.Refused?
      ensures v.CallStopped? ==> sys.pc.Down? && disk.stage == old(job.stage)
      ensures v.CallFailed? ==> Live() && sys.pc.Failed? && sys.pc.failure == v.failure && modelCalls > old(modelCalls)
      ensures v.Value? || v.Refused? ==>
                && Live() && sys.pc == Judging(role) && job.stage == old(job.stage) && SameDecision()
                && ValidateSlot(job.Of(role), parse) == if v.Value? then Validation.Valid(v.value) else Invalid
    {
      hide Step, Run, WellFormed, HonestRun, PromptOf;
      RepairingIsDisk();
      var r := GuardedCall(role, prompt, true, env);
      match r {
        case Stopped => return CallStopped;
        case GotFailure(f) => return CallFailed(f);
        case GotText(text) =>
          KeepRaw(role, text, true);
          match parse(text) {
            case Accepted(x) => return Value(x);
            case Rejected(_) => return Refused;
          }
      }
    }

    lemma RepairingIsDisk()
      requires Live() && sys.pc.Repairing?
      ensures disk == job
    {
      hide Run, WellFormed, HonestRun;
    }

    // -------------------------------------------------------------------------
    // The actions of one drive
    // -------------------------------------------------------------------------

    /** The drive is over, and the journal shows it. */
    ghost predicate Ended(outcome: Outcome)
      reads this
    {
      Valid() && sys.pc.Down? && Matches(outcome, disk.stage)
    }

    /** It ends short of a receipt; only a call it made can leave it waiting. */
    twostate predicate Halts(outcome: Outcome)
      reads this
    {
      Ended(outcome) && outcome != Done && (outcome == RetryWait ==> modelCalls > old(modelCalls))
    }

    /** What every part of a drive may do: spend calls it counts. */
    twostate predicate Spent(env: Surroundings)
      reads this
    {
      && old(modelCalls) <= modelCalls && old(past) <= past
      && |sys.sent| - |old(sys.sent)| <= modelCalls - old(modelCalls)
      && (env.Truthful(w) ==> honest == old(honest))
    }

    /** In a benign world with `calls` calls left, no more are made, and only an output that no contract
        accepts ends the drive. */
    twostate predicate Smoothly(env: Surroundings, calls: nat, new stop: Option<Outcome>)
      reads this
    {
      && modelCalls <= old(modelCalls) + calls
      && (old(honest) && env.Benign(w) && old(modelCalls) + calls <= maxCalls && stop.Some? ==>
            stop == Some(Blocked) && disk.stage == BLOCKED && disk.error == BlockedOutputError)
    }

    /** A first call, to the point where its text is durable or the drive is over. */
    method CallRole(role: Role, prompt: Prompt, env: Surroundings) returns (stop: Option<Outcome>)
      requires Live() && sys.pc == Calling(role) && prompt == PromptOf(job, role)
      modifies this
      ensures Spent(env) && prov == old(prov)
      ensures Smoothly(env, 1, stop)
      ensures stop.None? ==> Live() && sys.pc == Judging(role) && SameDecision()
      ensures stop.Some? ==> Halts(stop.value)
    {
      hide Step, Run, WellFormed, HonestRun, PromptOf;
      CallingUnsettled(sys);
      var r := GuardedCall(role, prompt, false, env);
      match r {
        case Stopped => return Some(BudgetStop);
        case GotFailure(f) =>
          var outcome := TransportFailure(f);
          return Some(outcome);
        case GotText(text) =>
          KeepRaw(role, text, false);
          return None;
      }
    }

    /** Block the unit on a reply no contract accepts. */
    method BlockOutput(role: Role) returns (outcome: Outcome)
      requires Live() && AtVerdict(sys, role, w.packet)
      requires Judge(sys, role, w.packet) == Block(sys, sys.mem, BlockedOutputError)
      modifies this`job, this`disk, this`past, this`sys, this`honest
      ensures outcome == Blocked && Ended(outcome) && Quietly()
      ensures disk == old(job).(stage := BLOCKED, error := BlockedOutputError)
    {
      hide Step, Run, WellFormed, HonestRun, Judge;
      VerdictStep(sys, role, w.packet, true, maxRetries);
      job := job.(stage := BLOCKED, error := BlockedOutputError);
      disk := job;
      Log(Tick(true));
      return Blocked;
    }

    /** The investigator's text becomes the candidate. */
    method Validate(env: Surroundings) returns (stop: Option<Outcome>)
      requires Live() && AtVerdict(sys, Investigator, w.packet)
      modifies this
      ensures Spent(env) && prov == old(prov)
      ensures Smoothly(env, 1, stop)
      ensures stop.None? ==> Live() && sys.pc.Top? && job.stage == CANDIDATE_READY
      ensures stop.Some? ==> Halts(stop.value)
    {
      hide Step, Run, WellFormed, HonestRun, PromptOf;
      VerdictStage(sys, Investigator, w.packet);
      var v := ValidateWithRepair(Investigator, w.packet.parseCandidate, env);
      match v {
        case CallStopped => return Some(BudgetStop);
        case CallFailed(f) =>
          var outcome := TransportFailure(f);
          return Some(outcome);
        case Refused =>
          var outcome := BlockOutput(Investigator);
          return Some(outcome);
        case Value(c) =>
          KeepCandidate(c);
          return None;
      }
    }

    method KeepCandidate(c: Candidate)
      requires Live() && AtVerdict(sys, Investigator, w.packet) && job.stage == INVESTIGATOR_RESPONSE
      requires ValidateSlot(job.investigator, w.packet.parseCandidate) == Validation.Valid(c)
      modifies this`job, this`disk, this`past, this`sys, this`honest
      ensures Live() && sys.pc.Top? && Quietly()
      ensures job == old(job).(stage := CANDIDATE_READY, candidate := Some(c), responseDigest :=
                                 if old(job).investigator.repair.Some? && old(job).investigator.repair.value != ""
                                 then old(job).investigator.repair else old(job).responseDigest)
    {
      hide Step, Run, WellFormed, HonestRun;
      VerdictStep(sys, Investigator, w.packet, true, maxRetries);
      job := job.(candidate := Some(c));
      if Has(job.investigator.repair) {
        job := job.(responseDigest := job.investigator.repair);
      }
      job := job.(stage := CANDIDATE_READY);
      disk := job;
      Log(Tick(true));
    }

    /** The critic gate. */
    method Critique(env: Surroundings) returns (stop: Option<Outcome>, next: Action)
      requires Live() && sys.pc.Top? && NextAction(job, true) == DoCritic
      modifies this
      ensures Spent(env) && prov == old(prov)
      ensures Smoothly(env, 2, stop)
      ensures stop.None? ==>
                Live() && sys.pc.Top? && next == NextAction(job, env.due) && (next.Submit? || next.Finalize?)
      ensures stop.Some? ==> Halts(stop.value)
    {
      hide Step, Run, WellFormed, HonestRun, NeedsCritic, Valid, Live, Ended;
      LiveFacts();
      next := Action.Submit;
      CriticStage(sys);
      CriticWanted();
      if !NeedsCritic(job.candidate.value, w.packet, w.policy) {
        stop := SkipCritic();
        return;
      }
      EnterCritic();
      if !Has(job.critic.reply) {
        stop := CallRole(Critic, CriticPrompt(job.candidate.value), env);
        if stop.Some? {
          return;
        }
      }
      stop := JudgeCritic(env);
      next := Action.Finalize;
    }

    /** A drive of an honest past is in the middle of a critic only if its policy wants one. */
    lemma CriticWanted()
      requires Live()
      ensures honest && sys.pc.Top? && job.stage == CRITIC_CALLING && job.candidate.Some? ==>
                NeedsCritic(job.candidate.value, w.packet, w.policy)
    {
      hide Run, HonestRun, WellFormed, NeedsCritic, StrictPacket;
      if honest && sys.pc.Top? && job.stage == CRITIC_CALLING && job.candidate.Some? {
        RefinesRun(past, w, maxRetries);
        MidCritic(sys, w);
      }
    }

    method SkipCritic() returns (stop: Option<Outcome>)
      requires Live() && sys.pc.Top? && NextAction(job, true) == DoCritic
      requires job.candidate.Some? && !NeedsCritic(job.candidate.value, w.packet, w.policy)
      modifies this`job, this`disk, this`past, this`sys, this`honest
      ensures Quietly()
      ensures stop.None? ==> Live() && sys.pc.Top? && job == old(job).(stage := FINAL_READY)
      ensures stop.None? <==> old(job.stage) == CANDIDATE_READY
      ensures stop.Some? ==> stop == Some(IllegalMove) && Ended(IllegalMove) && old(job.stage) == CRITIC_CALLING
      ensures stop.Some? ==> disk == old(disk)
    {
      hide Run, WellFormed, HonestRun, NeedsCritic, Step;
      stop := None;
      TopIsCritic(sys, w.packet, maxRetries);
      if Legal(job.stage, FINAL_READY) {
        job := job.(stage := FINAL_READY);
        disk := job;
      } else {
        // From CRITIC_CALLING: asked for only when the policy changed under a job mid-critic.
        stop := Some(IllegalMove);
      }
      Log(Tick(true));
    }

    /** Enter the critic's calling stage; from there its text is either due or about to be judged. */
    method EnterCritic()
      requires Live() && sys.pc.Top? && NextAction(job, true) == DoCritic
      requires job.candidate.Some? && NeedsCritic(job.candidate.value, w.packet, w.policy)
      modifies this`job, this`disk, this`past, this`sys, this`honest
      ensures Live() && Quietly() && job == old(job).(stage := CRITIC_CALLING)
      ensures if Has(job.critic.reply) then AtVerdict(sys, Critic, w.packet) else sys.pc == Calling(Critic)
    {
      hide Run, WellFormed, HonestRun, NeedsCritic, Step;
      TopIsCritic(sys, w.packet, maxRetries);
      if job.stage == CANDIDATE_READY {
        job := job.(stage := CRITIC_CALLING);
        disk := job;
        Log(Tick(true));
      } else if !Has(job.critic.reply) {
        Log(Tick(true));
      }
    }

    method JudgeCritic(env: Surroundings) returns (stop: Option<Outcome>)
      requires Live() && AtVerdict(sys, Critic, w.packet)
      modifies this
      ensures Spent(env) && prov == old(prov)
      ensures Smoothly(env, 1, stop)
      ensures stop.None? ==> Live() && sys.pc.Top? && job.stage == CRITIC_READY
      ensures stop.Some? ==> Halts(stop.value)
    {
      hide Step, Run, WellFormed, HonestRun, PromptOf, NeedsCritic;
      VerdictStage(sys, Critic, w.packet);
      var v := ValidateWithRepair(Critic, w.packet.parseReport, env);
      match v {
        case CallStopped => return Some(BudgetStop);
        case CallFailed(f) =>
          var outcome := TransportFailure(f);
          return Some(outcome);
        case Refused =>
          var outcome := BlockOutput(Critic);
          return Some(outcome);
        case Value(k) =>
          KeepReport(k);
          return None;
      }
    }

    method KeepReport(k: Report)
      requires Live() && AtVerdict(sys, Critic, w.packet) && job.stage == CRITIC_CALLING
      requires ValidateSlot(job.critic, w.packet.parseReport) == Validation.Valid(k)
      modifies this`job, this`disk, this`past, this`sys, this`honest
      ensures Live() && sys.pc.Top? && Quietly()
      ensures job == old(job).(stage := CRITIC_READY, report := Some(k), criticDigest := Some(
                                 if old(job).critic.repair.Some? && old(job).critic.repair.value != ""
                                 then old(job).critic.repair.value
                                 else if old(job).critic.reply.Some? then old(job).critic.reply.value else ""))
    {
      hide Step, Run, WellFormed, HonestRun, NeedsCritic;
      VerdictStep(sys, Critic, w.packet, true, maxRetries);
      job := job.(report := Some(k), criticDigest := Some(Effective(job.critic)), stage := CRITIC_READY);
      disk := job;
      Log(Tick(true));
    }

    /** The finalizer, when the critic objected and it is on. */
    method FinalizeUnit(env: Surroundings) returns (stop: Option<Outcome>)
      requires Live() && sys.pc.Top? && NextAction(job, true) == Finalize
      modifies this
      ensures Spent(env) && prov == old(prov)
      ensures Smoothly(env, 2, stop)
      ensures stop.None? ==> Live() && sys.pc.Top? && job.stage == FINAL_READY
      ensures stop.Some? ==> Halts(stop.value)
    {
      hide Step, Run, WellFormed, HonestRun, Valid, Live, Ended;
      LiveFacts();
      FinalizeStage(sys);
      var k := job.report.value;
      if k.decision == Disagree || (job.candidate.value.verdict == Drift && k.decision != Agree) {
        if !FinalizerOnByDefaultOn(w.policy) {
          var outcome := BlockDisabled();
          return Some(outcome);
        }
        EnterFinalizer();
        if !Has(job.finalizer.reply) {
          stop := CallRole(Finalizer, FinalizerPrompt(job.candidate.value, k), env);
          if stop.Some? {
            return;
          }
        }
        stop := JudgeFinalizer(env);
      } else {
        KeepStanding();
        return None;
      }
    }

    method BlockDisabled() returns (outcome: Outcome)
      requires Live() && sys.pc.Top? && NextAction(job, true) == Finalize
      requires job.report.Some? && Disputed(job.candidate, job.report.value) && !FinalizerOnByDefaultOn(w.policy)
      modifies this`job, this`disk, this`past, this`sys, this`honest
      ensures outcome == Blocked && Ended(outcome) && Quietly()
      ensures disk == old(job).(stage := BLOCKED, error := BlockedOutputError)
    {
      hide Run, WellFormed, HonestRun, Step;
      TopIsFinalize(sys, w.packet, maxRetries);
      job := job.(stage := BLOCKED, error := BlockedOutputError);
      disk := job;
      Log(Tick(true));
      return Blocked;
    }

    method KeepStanding()
      requires Live() && sys.pc.Top? && NextAction(job, true) == Finalize
      requires job.report.Some? && !Disputed(job.candidate, job.report.value)
      modifies this`job, this`disk, this`past, this`sys, this`honest
      ensures Live() && sys.pc.Top? && Quietly() && job == old(job).(stage := FINAL_READY)
    {
      hide Run, WellFormed, HonestRun, Step;
      TopIsFinalize(sys, w.packet, maxRetries);
      job := job.(stage := FINAL_READY);
      disk := job;
      Log(Tick(true));
    }

    method EnterFinalizer()
      requires Live() && sys.pc.Top? && NextAction(job, true) == Finalize
      requires job.candidate.Some? && job.report.Some? && Disputed(job.candidate, job.report.value)
      requires FinalizerOnByDefaultOn(w.policy)
      modifies this`job, this`disk, this`past, this`sys, this`honest
      ensures Live() && Quietly() && job == old(job).(stage := FINALIZER_CALLING)
      ensures if Has(job.finalizer.reply) then AtVerdict(sys, Finalizer, w.packet) else sys.pc == Calling(Finalizer)
    {
      hide Run, WellFormed, HonestRun, Step;
      TopIsFinalize(sys, w.packet, maxRetries);
      if job.stage == CRITIC_READY {
        job := job.(stage := FINALIZER_CALLING);
        disk := job;
        Log(Tick(true));
      } else if !Has(job.finalizer.reply) {
        Log(Tick(true));
      }
    }

    method JudgeFinalizer(env: Surroundings) returns (stop: Option<Outcome>)
      requires Live() && AtVerdict(sys, Finalizer, w.packet)
      modifies this
      ensures Spent(env) && prov == old(prov)
      ensures Smoothly(env, 1, stop)
      ensures stop.None? ==> Live() && sys.pc.Top? && job.stage == FINAL_READY
      ensures stop.Some? ==> Halts(stop.value)
    {
      hide Step, Run, WellFormed, HonestRun, PromptOf, NeedsCritic;
      VerdictStage(sys, Finalizer, w.packet);
      var v := ValidateWithRepair(Finalizer, w.packet.parseCandidate, env);
      match v {
        case CallStopped => return Some(BudgetStop);
        case CallFailed(f) =>
          var outcome := TransportFailure(f);
          return Some(outcome);
        case Refused =>
          var outcome := BlockOutput(Finalizer);
          return Some(outcome);
        case Value(c) =>
          KeepFinal(c);
          return None;
      }
    }

    method KeepFinal(c: Candidate)
      requires Live() && AtVerdict(sys, Finalizer, w.packet) && job.stage == FINALIZER_CALLING
      requires ValidateSlot(job.finalizer, w.packet.parseCandidate) == Validation.Valid(c)
      modifies this`job, this`disk, this`past, this`sys, this`honest
      ensures Live() && sys.pc.Top? && Quietly()
      ensures job == old(job).(stage := FINAL_READY, candidate := Some(c), finalizerDigest := Some(
                                 if old(job).finalizer.repair.Some? && old(job).finalizer.repair.value != ""
                                 then old(job).finalizer.repair.value
                                 else if old(job).finalizer.reply.Some? then old(job).finalizer.reply.value else ""))
    {
      hide Step, Run, WellFormed, HonestRun, NeedsCritic;
      VerdictStep(sys, Finalizer, w.packet, true, maxRetries);
      job := job.(candidate := Some(c), finalizerDigest := Some(Effective(job.finalizer)), stage := FINAL_READY);
      disk := job;
      Log(Tick(true));
    }

    /** Hand the candidate over, and record what the kernel made of it. */
    method SubmitUnit(env: Surroundings) returns (outcome: Outcome)
      requires Live() && sys.pc.Top? && (job.stage == FINAL_READY || job.stage == SUBMITTING)
      modifies this
      ensures Ended(outcome) && modelCalls == old(modelCalls) && sys.sent == old(sys.sent)
      ensures honest == old(honest) && old(past) <= past
      ensures outcome == match env.kernel
                         case Accept => Done
                         case RefuseStale => Stale
                         case Refuse => if old(job.submitAttempts) + 1 > maxRetries then Blocked else IllegalMove
      ensures outcome == Done ==> disk.receipt == old(job.candidate) && disk.receipt.Some?
      ensures outcome == Done && env.provenanceOk ==> disk.receipt.value in prov && Tombstone(disk)
      ensures outcome != Done ==> prov == old(prov)
    {
      EnterSubmitting();
      outcome := AnswerKernel(env.kernel);
      if outcome == Done {
        Commit(env.provenanceOk);
      }
    }

    method EnterSubmitting()
      requires Live() && sys.pc.Top? && (job.stage == FINAL_READY || job.stage == SUBMITTING)
      modifies this`job, this`disk, this`past, this`sys, this`honest
      ensures Live() && sys.pc.Submitting? && Quietly() && job == old(job).(stage := SUBMITTING)
      ensures job.candidate.Some? && disk == job
    {
      hide Run, WellFormed, HonestRun, Step;
      SubmitStage(sys, w.packet, maxRetries);
      job := job.(stage := SUBMITTING);
      disk := job;
      Log(Tick(true));
    }

    /** Stale evidence settles the unit; any other refusal counts against the retry allowance. */
    method AnswerKernel(answer: KernelAnswer) returns (outcome: Outcome)
      requires Live() && sys.pc.Submitting? && disk == job && job.stage == SUBMITTING
      modifies this`job, this`disk, this`past, this`sys, this`honest
      ensures Quietly()
      ensures outcome == match answer
                         case Accept => Done
                         case RefuseStale => Stale
                         case Refuse => if old(job.submitAttempts) + 1 > maxRetries then Blocked else IllegalMove
      ensures if outcome == Done then Live() && sys.pc.Committed? && job.receipt == old(job.candidate)
              else Ended(outcome)
      ensures outcome == IllegalMove ==> disk == old(disk) && sys.raised
      ensures outcome == Stale ==> disk == old(job).(stage := STALE, error := StaleError)
      ensures outcome == Blocked ==>
                disk == old(job).(submitAttempts := old(job.submitAttempts) + 1, stage := BLOCKED, error := KernelError)
      ensures outcome == Done ==> disk == old(disk) && job == old(job).(receipt := old(job.candidate))
    {
      hide Run, WellFormed, HonestRun, Step;
      KernelStep(sys, answer, w.packet, maxRetries);
      match answer {
        case RefuseStale =>
          job := job.(stage := STALE, error := StaleError);
          disk := job;
          outcome := Stale;
        case Refuse =>
          job := job.(submitAttempts := job.submitAttempts + 1);
          if job.submitAttempts > maxRetries {
            job := job.(stage := BLOCKED, error := KernelError);
            disk := job;
            outcome := Blocked;
          } else {
            // `advance(SUBMITTING, RETRY_WAIT)` is off the table: it raises, and nothing is written.
            outcome := IllegalMove;
          }
        case Accept =>
          job := job.(receipt := job.candidate);
          outcome := Done;
      }
      Log(Kernel(answer));
    }

    /** Provenance, DONE, tombstone: three durable writes in that order. */
    method Commit(provenanceOk: bool)
      requires Live() && sys.pc.Committed? && job.receipt.Some?
      modifies this`job, this`disk, this`prov, this`past, this`sys, this`honest
      ensures Valid() && sys.pc.Down? && sys.sent == old(sys.sent) && honest == old(honest) && old(past) <= past
      ensures disk.stage == DONE && disk.receipt == old(job.receipt)
      ensures provenanceOk ==> disk.receipt.value in prov && Tombstone(disk)
      ensures prov == if provenanceOk then old(prov)[disk.receipt.value := RecordOf(old(job))] else old(prov)
      ensures disk == if provenanceOk then CompactDone(old(job).(stage := DONE)) else old(job).(stage := DONE)
    {
      hide Run, WellFormed, HonestRun, Step, RecordOf, StrictPacket;
      WriteRecord(provenanceOk);
      Conclude(provenanceOk);
    }

    method WriteRecord(provenanceOk: bool)
      requires Live() && sys.pc.Committed? && job.receipt.Some?
      modifies this`prov, this`past, this`sys, this`honest
      ensures Live() && sys.pc == Recorded(provenanceOk)
      ensures sys.sent == old(sys.sent) && honest == old(honest) && old(past) <= past
      ensures provenanceOk ==> job.receipt.value in prov
      ensures prov == if provenanceOk then old(prov)[job.receipt.value := RecordOf(job)] else old(prov)
    {
      hide Run, WellFormed, HonestRun, Step, RecordOf, StrictPacket;
      CommitSteps(sys, provenanceOk, w.packet, maxRetries);
      if provenanceOk {
        prov := prov[job.receipt.value := RecordOf(job)];
      }
      Log(Provenance(provenanceOk));
    }

    method Conclude(provenanceOk: bool)
      requires Live() && sys.pc == Recorded(provenanceOk)
      modifies this`job, this`disk, this`past, this`sys, this`honest
      ensures Valid() && sys.pc.Down? && sys.sent == old(sys.sent) && honest == old(honest) && old(past) <= past
      ensures disk.stage == DONE && disk.receipt == old(job.receipt)
      ensures provenanceOk ==> Tombstone(disk)
      ensures disk == if provenanceOk then CompactDone(old(job).(stage := DONE)) else old(job).(stage := DONE)
    {
      hide Run, WellFormed, HonestRun, Step, StrictPacket;
      ConcludeSteps(sys, w.packet, maxRetries);
      job := job.(stage := DONE);
      disk := job;
      Log(Tick(true));
      if provenanceOk {
        job := CompactDone(job);
        disk := job;
        Log(Tick(true));
      }
    }

    // -------------------------------------------------------------------------
    // The drive
    // -------------------------------------------------------------------------

    /** Read the journal entry; reactivate a binding block; build the packet. */
    method Begin(env: Surroundings) returns (stop: Option<Outcome>)
      requires Valid() && sys.pc.Down? && Selectable(disk.stage)
      modifies this`job, this`disk, this`past, this`sys, this`honest
      ensures Quietly()
      ensures stop.None? ==> Live() && sys.pc.Top? && Selectable(job.stage) && job.stage != BLOCKED_BINDING
      ensures stop.None? ==> job == Reactivated(old(disk))
      ensures stop == if old(disk.stage) == BLOCKED_BINDING && !env.bindable then Some(BindingBlocked)
                      else if !env.packetOk then Some(Blocked) else None
      ensures stop == Some(BindingBlocked) ==> disk == old(disk)
      ensures stop == Some(Blocked) ==> disk == Reactivated(old(disk)).(stage := BLOCKED, error := PacketError)
      ensures stop.Some? ==> Halts(stop.value)
    {
      hide Step, Run, WellFormed, HonestRun, Selectable, Reactivated;
      job := disk;
      if job.stage == BLOCKED_BINDING && !env.bindable {
        StayBlocked(env);
        return Some(BindingBlocked);
      }
      ReactivatedSelectable(disk);
      Reactivate();
      stop := BuildPacket(env);
    }

    method StayBlocked(env: Surroundings)
      requires Valid() && sys.pc.Down? && disk.stage == BLOCKED_BINDING && !env.bindable
      modifies this`past, this`sys, this`honest
      ensures Quietly() && Ended(BindingBlocked)
    {
      hide Step, Run, WellFormed, HonestRun, Reactivated;
      BeginStep(sys, w.policy, env.bindable, env.packetOk, w.packet, maxRetries);
      Log(Start(w.policy, env.bindable, env.packetOk));
    }

    /** A packet that cannot be built blocks the unit; otherwise the drive is on its way. */
    method BuildPacket(env: Surroundings) returns (stop: Option<Outcome>)
      requires WellFormed(sys) && sys == Run(Initial(w.policy), past, w.packet, maxRetries) && StrictPacket(w.packet)
      requires (honest ==> HonestRun(past, w, maxRetries)) && sys.prov == prov && modelCalls <= maxCalls
      requires sys.pc.Down? && Selectable(sys.disk.stage) && (sys.disk.stage == BLOCKED_BINDING ==> env.bindable)
      requires disk == job == Reactivated(sys.disk)
      modifies this`job, this`disk, this`past, this`sys, this`honest
      ensures Quietly()
      ensures stop.None? ==> Live() && sys.pc.Top? && job == old(job)
      ensures env.packetOk <==> stop.None?
      ensures stop.Some? ==> stop == Some(Blocked) && Ended(Blocked)
      ensures stop.Some? ==> disk == old(job).(stage := BLOCKED, error := PacketError)
    {
      hide Step, Run, WellFormed, HonestRun, Selectable, Reactivated;
      BeginStep(sys, w.policy, env.bindable, env.packetOk, w.packet, maxRetries);
      stop := None;
      if !env.packetOk {
        job := job.(stage := BLOCKED, error := PacketError);
        disk := job;
        stop := Some(Blocked);
      }
      Log(Start(w.policy, env.bindable, env.packetOk));
    }

    /** A binding block that became bindable resumes where its artifacts prove, durably. */
    method Reactivate()
      requires job == disk
      modifies this`job, this`disk
      ensures disk == job == Reactivated(old(disk))
    {
      if job.stage == BLOCKED_BINDING {
        ResumeIsLegal(job, true);
        job := job.(error := NoError, stage := ResumeStage(job));
        disk := job;
      }
    }

    /** No automatic replay of an attempt whose outcome is unknown. */
    method Park() returns (outcome: Outcome)
      requires Live() && sys.pc.Top? && NextAction(job, true) == Ambiguous
      modifies this`job, this`disk, this`past, this`sys, this`honest
      ensures Quietly() && outcome == Blocked && Ended(outcome)
      ensures disk == old(job).(stage := REMOTE_OUTCOME_UNKNOWN, error := RemoteOutcomeUnknown)
    {
      hide Step, Run, WellFormed, HonestRun;
      TopStep(sys, true, w.packet, maxRetries);
      job := job.(stage := REMOTE_OUTCOME_UNKNOWN, error := RemoteOutcomeUnknown);
      disk := job;
      Log(Tick(true));
      return Blocked;
    }

    method CallInvestigator(env: Surroundings) returns (stop: Option<Outcome>)
      requires Live() && sys.pc.Top? && NextAction(job, true) == DoCall
      modifies this
      ensures Spent(env) && prov == old(prov)
      ensures Smoothly(env, 1, stop)
      ensures stop.None? ==> Live() && sys.pc == Judging(Investigator)
      ensures stop.Some? ==> Halts(stop.value)
    {
      hide Step, Run, WellFormed, HonestRun;
      EnterInvestigator();
      stop := CallRole(Investigator, PacketPrompt, env);
    }

    method EnterInvestigator()
      requires Live() && sys.pc.Top? && NextAction(job, true) == DoCall
      modifies this`job, this`disk, this`past, this`sys, this`honest
      ensures Live() && Quietly() && sys.pc == Calling(Investigator)
      ensures job == old(job).(stage := INVESTIGATOR_CALLING)
    {
      hide Step, Run, WellFormed, HonestRun;
      TopStep(sys, true, w.packet, maxRetries);
      job := job.(stage := INVESTIGATOR_CALLING);
      disk := job;
      Log(Tick(true));
    }

    /** A due retry resumes at the stage the artifacts prove. */
    method Resume()
      requires Live() && sys.pc.Top? && job.stage == RETRY_WAIT
      modifies this`job, this`disk, this`past, this`sys, this`honest
      ensures Live() && Quietly() && sys.pc.Top?
      ensures Selectable(job.stage) && !job.stage.BLOCKED_BINDING? && !job.stage.RETRY_WAIT?
      ensures disk == job == old(job).(stage := ResumeStage(old(job)))
      ensures !NextAction(job, true).Ambiguous?
    {
      hide Step, Run, WellFormed, HonestRun, ResumeStage;
      TopStep(sys, true, w.packet, maxRetries);
      ResumeIsLegal(job, true);
      job := job.(stage := ResumeStage(job));
      disk := job;
      Log(Tick(true));
    }

    method BlockUndrivable() returns (outcome: Outcome)
      requires Live() && sys.pc.Top? && job.stage == RETRY_WAIT
      modifies this`job, this`disk, this`past, this`sys, this`honest
      ensures Quietly() && outcome == Blocked && Ended(outcome)
      ensures disk == old(job).(stage := BLOCKED, error := ValidationFailed)
    {
      hide Step, Run, WellFormed, HonestRun;
      TopStep(sys, false, w.packet, maxRetries);
      job := job.(stage := BLOCKED, error := ValidationFailed);
      disk := job;
      Log(Tick(false));
      return Blocked;
    }

    /** One drive of a selected unit, from any durable state, to a settled outcome. Its steps are a
        run of the step system, so what it leaves on disk is what such a run leaves; with a truthful
        transport that is what the straight-line decision says. */
    method DriveUnit(env: Surroundings) returns (outcome: Outcome)
      requires Valid() && sys.pc.Down? && Selectable(disk.stage)
      modifies this
      ensures Ended(outcome) && Spent(env)
      ensures outcome == RetryWait ==> modelCalls > old(modelCalls)
      ensures outcome != Done ==> prov == old(prov)
      ensures outcome == Done && env.provenanceOk ==>
                disk.receipt.Some? && disk.receipt.value in prov && Tombstone(disk)
      ensures old(disk.stage) == BLOCKED_BINDING && !env.bindable ==> outcome == BindingBlocked && disk == old(disk)
      ensures !(old(disk.stage) == BLOCKED_BINDING && !env.bindable) && !env.packetOk ==>
                outcome == Blocked && disk == Reactivated(old(disk)).(stage := BLOCKED, error := PacketError)
      ensures (old(disk.stage) == BLOCKED_BINDING ==> env.bindable) && env.packetOk ==>
                && (Reactivated(old(disk)).stage == RETRY_WAIT && !env.due ==>
                      && outcome == Blocked && modelCalls == old(modelCalls)
                      && disk == Reactivated(old(disk)).(stage := BLOCKED, error := ValidationFailed))
                && (NextAction(Reactivated(old(disk)), true).Ambiguous? ==>
                      && outcome == Blocked && modelCalls == old(modelCalls)
                      && disk == Reactivated(old(disk)).(stage := REMOTE_OUTCOME_UNKNOWN,
                                                         error := RemoteOutcomeUnknown))
      ensures |sys.sent| <= 6 * (1 + sys.requeues) + maxRetries + sys.lost + sys.blanks
      ensures old(honest) && env.Truthful(w) && w.policy.finalizer.Some? ==>
                var d := Decide(w.model, w.packet, w.policy, FinalizerOnByDefaultOff(w.policy), 1);
                && (outcome == Done ==> disk.receipt == d && d.Some?)
                && (disk.stage == BLOCKED && disk.error == BlockedOutputError ==> d.None?)
      ensures old(honest) && env.Benign(w) && w.policy.finalizer.Some? && old(modelCalls) + 6 <= maxCalls ==>
                if NextAction(Reactivated(old(disk)), true).Ambiguous? then disk.stage == REMOTE_OUTCOME_UNKNOWN
                else match Decide(w.model, w.packet, w.policy, FinalizerOnByDefaultOff(w.policy), 1)
                     case Some(c) => outcome == Done && disk.receipt == Some(c)
                     case None => outcome == Blocked && disk.stage == BLOCKED && disk.error == BlockedOutputError
    {
      hide Step, Run, WellFormed, HonestRun, Decide;
      outcome := Drive(env);
      BoundedSpend(w.policy, past, w.packet, maxRetries);
      if honest && w.policy.finalizer.Some? {
        DriverRefinesDecision(past, w, maxRetries);
      }
    }

    /** What a benign drive with calls to spare ends as: parked when the attempt it finds may have been
        paid for, else handed over, or blocked on an output no contract accepts. */
    twostate predicate Decided(env: Surroundings, outcome: Outcome)
      reads this
    {
      old(honest) && env.Benign(w) && old(modelCalls) + 6 <= maxCalls ==>
        if NextAction(Reactivated(old(disk)), true).Ambiguous? then disk.stage == REMOTE_OUTCOME_UNKNOWN
        else outcome == Done || (outcome == Blocked && disk.stage == BLOCKED && disk.error == BlockedOutputError)
    }

    method Drive(env: Surroundings) returns (outcome: Outcome)
      requires Valid() && sys.pc.Down? && Selectable(disk.stage)
      modifies this
      ensures Decided(env, outcome)
      ensures Ended(outcome) && Spent(env)
      ensures outcome == RetryWait ==> modelCalls > old(modelCalls)
      ensures outcome != Done ==> prov == old(prov)
      ensures outcome == Done && env.provenanceOk ==>
                disk.receipt.Some? && disk.receipt.value in prov && Tombstone(disk)
      ensures old(disk.stage) == BLOCKED_BINDING && !env.bindable ==> outcome == BindingBlocked && disk == old(disk)
      ensures !(old(disk.stage) == BLOCKED_BINDING && !env.bindable) && !env.packetOk ==>
                outcome == Blocked && disk == Reactivated(old(disk)).(stage := BLOCKED, error := PacketError)
      ensures (old(disk.stage) == BLOCKED_BINDING ==> env.bindable) && env.packetOk ==>
                && (Reactivated(old(disk)).stage == RETRY_WAIT && !env.due ==>
                      && outcome == Blocked && modelCalls == old(modelCalls)
                      && disk == Reactivated(old(disk)).(stage := BLOCKED, error := ValidationFailed))
                && (NextAction(Reactivated(old(disk)), true).Ambiguous? ==>
                      && outcome == Blocked && modelCalls == old(modelCalls)
                      && disk == Reactivated(old(disk)).(stage := REMOTE_OUTCOME_UNKNOWN,
                                                         error := RemoteOutcomeUnknown))
    {
      hide Step, Run, WellFormed, HonestRun, Valid, Live, Ended, Reactivated, StrictPacket, NextAction, Selectable,
           Tombstone, Matches;
      var stop := Begin(env);
      if stop.Some? {
        return stop.value;
      }
      outcome := Act(env);
    }

    /** What a benign drive with calls to spare ends as, from the loop head. */
    twostate predicate ActedOn(env: Surroundings, outcome: Outcome)
      reads this
    {
      old(honest) && env.Benign(w) && old(modelCalls) + 6 <= maxCalls ==>
        if NextAction(old(job), true).Ambiguous? then disk.stage == REMOTE_OUTCOME_UNKNOWN
        else outcome == Done || (outcome == Blocked && disk.stage == BLOCKED && disk.error == BlockedOutputError)
    }

    /** The action loop. */
    method Act(env: Surroundings) returns (outcome: Outcome)
      requires Live() && sys.pc.Top? && Selectable(job.stage) && job.stage != BLOCKED_BINDING
      modifies this
      ensures ActedOn(env, outcome)
      ensures Ended(outcome) && Spent(env)
      ensures outcome == RetryWait ==> modelCalls > old(modelCalls)
      ensures outcome != Done ==> prov == old(prov)
      ensures outcome == Done && env.provenanceOk ==>
                disk.receipt.Some? && disk.receipt.value in prov && Tombstone(disk)
      ensures old(job.stage) == RETRY_WAIT && !env.due ==>
                && outcome == Blocked && modelCalls == old(modelCalls)
                && disk == old(job).(stage := BLOCKED, error := ValidationFailed)
      ensures NextAction(old(job), true).Ambiguous? ==>
                && outcome == Blocked && modelCalls == old(modelCalls)
                && disk == old(job).(stage := REMOTE_OUTCOME_UNKNOWN, error := RemoteOutcomeUnknown)
    {
      hide Step, Run, WellFormed, HonestRun, AtVerdict, Valid, Live, Ended, StrictPacket, NextAction, Selectable,
           Tombstone, Matches;
      ActionOf(job, env.due);
      while true
        invariant Live() && sys.pc.Top? && Selectable(job.stage) && job.stage != BLOCKED_BINDING
        invariant Spent(env) && prov == old(prov)
        invariant modelCalls == old(modelCalls)
        invariant job == old(job) || (old(job.stage) == RETRY_WAIT && env.due && job.stage != RETRY_WAIT)
        invariant NextAction(job, true).Ambiguous? == NextAction(old(job), true).Ambiguous?
        decreases if job.stage == RETRY_WAIT then 1 else 0
      {
        ActionOf(job, env.due);
        var action := NextAction(job, env.due);
        if action == Ambiguous {
          outcome := Park();
          return;
        }
        if action == Retry {
          Resume();
        } else if action != Wait {
          outcome := Proceed(action, env);
          return;
        } else {
          // Only a retry that is not due yet is left: the drive has no action for it.
          outcome := BlockUndrivable();
          return;
        }
      }
    }

    /** From any action that is neither to wait nor to park, through to the hand-over. */
    method Proceed(action: Action, env: Surroundings) returns (outcome: Outcome)
      requires Live() && sys.pc.Top? && action == NextAction(job, env.due)
      requires action.DoCall? || action.Validate? || action.DoCritic? || action.Finalize? || action.Submit?
      requires action.Submit? ==> job.stage == FINAL_READY || job.stage == SUBMITTING
      modifies this
      ensures Ended(outcome) && Spent(env)
      ensures old(honest) && env.Benign(w) && old(modelCalls) + 6 <= maxCalls ==>
                outcome == Done || (outcome == Blocked && disk.stage == BLOCKED && disk.error == BlockedOutputError)
      ensures outcome == RetryWait ==> modelCalls > old(modelCalls)
      ensures outcome != Done ==> prov == old(prov)
      ensures outcome == Done && env.provenanceOk ==>
                disk.receipt.Some? && disk.receipt.value in prov && Tombstone(disk)
    {
      hide Step, Run, WellFormed, HonestRun, AtVerdict, Valid, Live, Ended, StrictPacket, NextAction, Tombstone,
           Matches;
      if !action.Submit? {
        var stop := Deliberate(action, env);
        if stop.Some? {
          return stop.value;
        }
      }
      outcome := SubmitUnit(env);
    }

    method Investigate(first: Action, env: Surroundings) returns (stop: Option<Outcome>)
      requires Live() && sys.pc.Top? && first == NextAction(job, true) && (first.DoCall? || first.Validate?)
      modifies this
      ensures Spent(env) && prov == old(prov)
      ensures Smoothly(env, 2, stop)
      ensures stop.None? ==> Live() && sys.pc.Top? && job.stage == CANDIDATE_READY
      ensures stop.Some? ==> Halts(stop.value)
    {
      hide Step, Run, WellFormed, HonestRun, AtVerdict;
      TopValidates(sys, w.packet, true);
      if first == DoCall {
        stop := CallInvestigator(env);
        if stop.Some? {
          return;
        }
        JudgingIsVerdict(sys, w.packet);
      }
      stop := Validate(env);
    }

    /** From any action short of submit, each one falling into the next. */
    method Deliberate(first: Action, env: Surroundings) returns (stop: Option<Outcome>)
      requires Live() && sys.pc.Top? && first == NextAction(job, env.due)
      requires first.DoCall? || first.Validate? || first.DoCritic? || first.Finalize?
      modifies this
      ensures Spent(env) && prov == old(prov)
      ensures Smoothly(env, 6, stop)
      ensures stop.None? ==> Live() && sys.pc.Top? && (job.stage == FINAL_READY || job.stage == SUBMITTING)
      ensures stop.Some? ==> Halts(stop.value)
    {
      hide Step, Run, WellFormed, HonestRun, AtVerdict, Valid, Live, Ended;
      var action := first;
      stop := None;
      if action == DoCall || action == Action.Validate {
        stop := Investigate(action, env);
        if stop.Some? {
          return;
        }
        action := DoCritic;
      }
      if action == DoCritic {
        stop, action := Critique(env);
        if stop.Some? {
          return;
        }
      }
      if action == Finalize {
        stop := FinalizeUnit(env);
      }
    }
  }

  lemma LogExtends(past: seq<Event>, e: Event, w: World, maxRetries: nat)
    ensures var s := Run(Initial(w.policy), past, w.packet, maxRetries);
            && Run(Initial(w.policy), past + [e], w.packet, maxRetries) == Step(s, e, w.packet, maxRetries)
            && (HonestRun(past, w, maxRetries) && Honest(s, e, w) ==> HonestRun(past + [e], w, maxRetries))
  {
    var events := past + [e];
    assert events[..|past|] == past;
    if HonestRun(past, w, maxRetries) && Honest(Run(Initial(w.policy), past, w.packet, maxRetries), e, w) {
      forall i | 0 <= i < |events|
        ensures Honest(Run(Initial(w.policy), events[..i], w.packet, maxRetries), events[i], w)
      {
        if i < |past| {
          assert events[..i] == past[..i];
        }
      }
    }
  }
}
