/** The durable driver as a step system: a disk, a memory that a crash drops, and the outside world.

    Source: `_drive_unit`, `_guarded_call`, `_transport_failure` and the run prologue of
    `tools/saipal_analyst/worker.py`. One step is one journal write or one outside interaction,
    so a crash between any two of them is a prefix of the event list followed by `Crash`. */
module Driver {
  import opened Options
  import opened Deliberation
  import opened Jobs

  /** Where the running driver stands between two steps. */
  datatype Pc =
    | Down
    | Top
    | Calling(role: Role)
    | Repairing(role: Role, why: string)
    | Judging(role: Role)
    | Marked(call: Request)
    | Sent(call: Request)
    | Replied(call: Request, text: string)
    | Failed(call: Request, failure: FailureClass)
    | Submitting
    | Committed
    | Recorded(ok: bool)
    | Compacting

  /** One transport attempt, under the identity that was made durable before it left. */
  datatype Request = Request(role: Role, repaired: bool, id: AttemptId)

  datatype KernelAnswer = Accept | RefuseStale | Refuse

  datatype Event =
    | Start(policy: Policy, bindable: bool, packetOk: bool)
    | Tick(due: bool)
    | Gate(open: bool)
    | Reply(text: string)
    | Failure(failure: FailureClass)
    | LedgerDown
    | Kernel(answer: KernelAnswer)
    | Provenance(ok: bool)
    | Crash
    | BlockBinding
    | Requeue
    | Reconcile
    | CompactPass

  /** The provenance record of one receipt. */
  datatype Record = Record(
    investigatorDigest: Option<string>, criticDigest: Option<string>, finalizerDigest: Option<string>,
    path: seq<Role>, transportAttempts: nat, submitAttempts: nat)

  datatype Sys = Sys(
    disk: Job,
    mem: Job,
    pc: Pc,
    policy: Policy,
    raised: bool,                      // an illegal `advance` ended a drive
    sent: seq<Request>,                // transports that left the process
    charged: nat,                      // attempts charged to the durable ledger
    uncharged: nat,                    // transports whose charge never became durable
    lost: nat,                         // transports whose outcome never reached the journal
    blanks: nat,                       // primary replies that were the empty text
    requeues: nat,
    submitted: seq<Job>,               // the job as durable at each hand-over to submit
    prov: map<Candidate, Record>)      // provenance ledger, keyed by receipt

  function DeliberationPath(j: Job): seq<Role> {
    [Investigator]
    + (if j.report.Some? || Has(j.critic.reply) then [Critic] else [])
    + (if Has(j.finalizer.reply) || j.finalizerDigest.Some? then [Finalizer] else [])
  }

  function RecordOf(j: Job): Record {
    Record(j.responseDigest, j.criticDigest, j.finalizerDigest, DeliberationPath(j), j.transportAttempts,
           j.submitAttempts)
  }

  // ---------------------------------------------------------------------------
  // Building blocks
  // ---------------------------------------------------------------------------

  /** Persist `j` and go on at `pc`. */
  function Persist(s: Sys, j: Job, pc: Pc): Sys { s.(disk := j, mem := j, pc := pc) }

  /** `advance` then persist; an illegal move raises out of the drive and writes nothing. */
  function Advance(s: Sys, j: Job, to: Stage, pc: Pc): Sys {
    if Legal(j.stage, to) then Persist(s, j.(stage := to), pc)
    else s.(mem := j, pc := Down, raised := true)
  }

  function Block(s: Sys, j: Job, error: ErrorClass): Sys {
    Persist(s, j.(stage := BLOCKED, error := error), Down)
  }

  function PromptOf(j: Job, role: Role): Prompt {
    match role
    case Investigator => PacketPrompt
    case Critic => if j.candidate.Some? then CriticPrompt(j.candidate.value) else PacketPrompt
    case Finalizer =>
      if j.candidate.Some? && j.report.Some? then FinalizerPrompt(j.candidate.value, j.report.value) else PacketPrompt
  }

  /** The outcome of parsing a role's persisted text, with its one durable repair. */
  datatype Validation<+T> = Valid(value: T) | Invalid | NeedsRepair(why: string)

  function ValidateSlot<T>(slot: Slot, parse: string -> Parsed<T>): Validation<T> {
    match parse(OrEmpty(slot.reply))
    case Accepted(v) => Valid(v)
    case Rejected(why) =>
      if Has(slot.repair) then
        match parse(slot.repair.value)
        case Accepted(v) => Valid(v)
        case Rejected(_) => Invalid
      else if slot.repairs >= 1 then Invalid
      else NeedsRepair(why)
  }

  /** The text a validated role is known by. */
  function Effective(slot: Slot): string {
    if Has(slot.repair) then slot.repair.value else OrEmpty(slot.reply)
  }

  // ---------------------------------------------------------------------------
  // The driver's own steps
  // ---------------------------------------------------------------------------

  function StepValidate(s: Sys, packet: Packet): Sys {
    var j := s.mem;
    match ValidateSlot(j.investigator, packet.parseCandidate)
    case NeedsRepair(why) => s.(pc := Repairing(Investigator, why))
    case Invalid => Block(s, j, BlockedOutputError)
    case Valid(c) =>
      var digest := if Has(j.investigator.repair) then j.investigator.repair else j.responseDigest;
      Advance(s, j.(candidate := Some(c), responseDigest := digest), CANDIDATE_READY, Top)
  }

  function StepCritic(s: Sys, packet: Packet): Sys {
    var j := s.mem;
    if j.candidate.None? then s.(pc := Down, raised := true)
    else if !NeedsCritic(j.candidate.value, packet, s.policy) then Advance(s, j, FINAL_READY, Top)
    else if j.stage == CANDIDATE_READY then
      Advance(s, j, CRITIC_CALLING, if Has(j.critic.reply) then Judging(Critic) else Calling(Critic))
    else if !Has(j.critic.reply) then s.(pc := Calling(Critic))
    else CriticVerdict(s, packet)
  }

  function CriticVerdict(s: Sys, packet: Packet): Sys {
    var j := s.mem;
    match ValidateSlot(j.critic, packet.parseReport)
    case NeedsRepair(why) => s.(pc := Repairing(Critic, why))
    case Invalid => Block(s, j, BlockedOutputError)
    case Valid(k) =>
      Advance(s, j.(report := Some(k), criticDigest := Some(Effective(j.critic))), CRITIC_READY, Top)
  }

  /** `worker.py`'s own reading of a disagreement. */
  predicate Disputed(c: Option<Candidate>, k: Report) {
    k.decision == Disagree || (c.Some? && c.value.verdict == Drift && k.decision != Agree)
  }

  function StepFinalize(s: Sys, packet: Packet): Sys {
    var j := s.mem;
    if j.report.None? then Block(s, j, ValidationFailed)
    else if !Disputed(j.candidate, j.report.value) then Advance(s, j, FINAL_READY, Top)
    else if !FinalizerOnByDefaultOn(s.policy) then Block(s, j, BlockedOutputError)
    else if j.stage == CRITIC_READY then
      Advance(s, j, FINALIZER_CALLING, if Has(j.finalizer.reply) then Judging(Finalizer) else Calling(Finalizer))
    else if !Has(j.finalizer.reply) then s.(pc := Calling(Finalizer))
    else FinalizerVerdict(s, packet)
  }

  function FinalizerVerdict(s: Sys, packet: Packet): Sys {
    var j := s.mem;
    match ValidateSlot(j.finalizer, packet.parseCandidate)
    case NeedsRepair(why) => s.(pc := Repairing(Finalizer, why))
    case Invalid => Block(s, j, BlockedOutputError)
    case Valid(c) =>
      Advance(s, j.(candidate := Some(c), finalizerDigest := Some(Effective(j.finalizer))), FINAL_READY, Top)
  }

  function StepSubmit(s: Sys): Sys {
    var j := s.mem;
    if j.candidate.None? || !Legal(j.stage, SUBMITTING) then s.(pc := Down, raised := true)
    else
      var j' := j.(stage := SUBMITTING);
      Persist(s, j', Submitting).(submitted := s.submitted + [j'])
  }

  function StepTop(s: Sys, packet: Packet, due: bool): Sys {
    match NextAction(s.mem, due)
    case Skip => s.(pc := Down)
    case Ambiguous => Persist(s, s.mem.(stage := REMOTE_OUTCOME_UNKNOWN, error := RemoteOutcomeUnknown), Down)
    case DoCall => Advance(s, s.mem, INVESTIGATOR_CALLING, Calling(Investigator))
    case Validate => StepValidate(s, packet)
    case DoCritic => StepCritic(s, packet)
    case Finalize => StepFinalize(s, packet)
    case Submit => StepSubmit(s)
    case Retry => Advance(s, s.mem, ResumeStage(s.mem), Top)
    case Wait => Block(s, s.mem, ValidationFailed)
  }

  /** The attempt identity goes to disk before the request may leave. */
  function Mark(s: Sys, role: Role, repaired: bool, prompt: Prompt): Sys {
    var slot := s.mem.Of(role);
    var id := AttemptId(role, s.mem.transportAttempts + 1, prompt);
    var j := s.mem.Put(role, slot.(attempt := Some(id))).(error := NoError);
    Persist(s, j, Marked(Request(role, repaired, id)))
  }

  /** A reply is made durable before anything reads it; the same drive then judges it, blank or not. */
  function KeepReply(s: Sys, call: Request, text: string): Sys {
    var slot := s.mem.Of(call.role);
    if call.repaired then
      Persist(s, s.mem.Put(call.role, slot.(repairs := slot.repairs + 1, repair := Some(text))), Judging(call.role))
    else
      var j := s.mem.Put(call.role, slot.(reply := Some(text)));
      if call.role == Investigator then
        Advance(s, j.(responseDigest := Some(text)), INVESTIGATOR_RESPONSE, Judging(Investigator))
      else Persist(s, j, Judging(call.role))
  }

  function Judge(s: Sys, role: Role, packet: Packet): Sys {
    match role
    case Investigator => StepValidate(s, packet)
    case Critic => CriticVerdict(s, packet)
    case Finalizer => FinalizerVerdict(s, packet)
  }

  function TransportFailure(s: Sys, failure: FailureClass, maxRetries: nat): Sys {
    if failure != Retryable then Block(s, s.mem, BackendError(failure))
    else
      var j := s.mem.(transportAttempts := s.mem.transportAttempts + 1);
      if j.transportAttempts > maxRetries then Block(s, j, RetryableExhausted)
      else Advance(s, j.(error := BackendRetryable), RETRY_WAIT, Down)
  }

  function KernelAnswers(s: Sys, answer: KernelAnswer, maxRetries: nat): Sys {
    match answer
    case Accept => s.(mem := s.mem.(receipt := s.mem.candidate), pc := Committed)
    case RefuseStale => Persist(s, s.mem.(stage := STALE, error := StaleError), Down)
    case Refuse =>
      var j := s.mem.(submitAttempts := s.mem.submitAttempts + 1);
      if j.submitAttempts > maxRetries then Block(s, j, KernelError)
      else Advance(s, j, RETRY_WAIT, Down)
  }

  /** The allocator never selects a settled job; a binding block it does select is re-checked. */
  predicate Selectable(st: Stage) { !(st.DONE? || st.BLOCKED? || st.STALE?) }

  function Begin(s0: Sys, bindable: bool, packetOk: bool): Sys {
    var s := s0.(mem := s0.disk);
    if s.mem.stage == BLOCKED_BINDING && !bindable then s.(pc := Down)
    else
      var j := if s.mem.stage == BLOCKED_BINDING then s.mem.(stage := ResumeStage(s.mem), error := NoError) else s.mem;
      if packetOk then Persist(s, j, Top) else Block(s, j, PacketError)
  }

  function WhenDown(s: Sys, e: Event): Sys {
    match e
    case Start(policy, bindable, packetOk) =>
      if Selectable(s.disk.stage) then Begin(s.(policy := policy), bindable, packetOk) else s
    case BlockBinding =>
      // The allocator overwrites the stage of any unsettled job whose session lost its binding.
      if Terminal(s.disk.stage) || s.disk.stage == REMOTE_OUTCOME_UNKNOWN then s
      else s.(disk := s.disk.(stage := BLOCKED_BINDING, error := BindingError))
    case Requeue =>
      if s.disk.stage == BLOCKED then s.(disk := Cleared(s.disk), requeues := s.requeues + 1) else s
    case Reconcile =>
      if s.disk.stage == DONE && s.disk.receipt.Some? && s.disk.receipt.value !in s.prov
      then s.(prov := s.prov[s.disk.receipt.value := RecordOf(s.disk)]) else s
    case CompactPass =>
      if s.disk.stage == DONE && s.disk.receipt.Some? && s.disk.receipt.value in s.prov
      then s.(disk := CompactDone(s.disk)) else s
    case _ => s
  }

  /** A request is out: its outcome may still be lost. */
  predicate InFlight(pc: Pc) { pc.Sent? || Absorbing(pc) }

  function Fall(s: Sys): Sys {
    s.(mem := s.disk, pc := Down,
       lost := s.lost + (if InFlight(s.pc) then 1 else 0),
       uncharged := s.uncharged + (if s.pc.Sent? then 1 else 0))
  }

  /** At the loop head, or judging a text that is already durable. */
  function Drive(s: Sys, e: Event, packet: Packet): Sys {
    if !e.Tick? then s
    else match s.pc
         case Top => StepTop(s, packet, e.due)
         case Judging(role) => Judge(s, role, packet)
         case _ => s
  }

  /** Budget and circuit gates stand before every transport; a closed one ends the drive. */
  function AtGate(s: Sys, e: Event): Sys {
    if !e.Gate? then s
    else if !e.open then s.(pc := Down)
    else match s.pc
         case Calling(role) => Mark(s, role, false, PromptOf(s.mem, role))
         case Repairing(role, why) => Mark(s, role, true, RepairPrompt(OrEmpty(s.mem.Of(role).reply), why))
         case _ => s
  }

  /** The request leaves; its outcome arrives with its charge, or the charge fails. */
  function Wire(s: Sys, e: Event): Sys {
    match s.pc
    case Marked(call) => if e.Tick? then s.(sent := s.sent + [call], pc := Sent(call)) else s
    case Sent(call) =>
      (match e
       case Reply(text) =>
         s.(charged := s.charged + 1, pc := Replied(call, text),
            blanks := s.blanks + (if text == "" && !call.repaired then 1 else 0))
       case Failure(f) => s.(charged := s.charged + 1, pc := Failed(call, f))
       case LedgerDown => s.(uncharged := s.uncharged + 1, lost := s.lost + 1, pc := Down)
       case _ => s)
    case _ => s
  }

  /** The outcome is written to the journal. */
  function Absorb(s: Sys, e: Event, maxRetries: nat): Sys {
    if !e.Tick? then s
    else match s.pc
         case Replied(call, text) => KeepReply(s, call, text)
         case Failed(_, f) => TransportFailure(s, f, maxRetries)
         case _ => s
  }

  /** From the kernel's answer to the tombstone. */
  function Finish(s: Sys, e: Event, maxRetries: nat): Sys {
    match s.pc
    case Submitting => if e.Kernel? then KernelAnswers(s, e.answer, maxRetries) else s
    case Committed =>
      if !e.Provenance? then s
      else if e.ok && s.mem.receipt.Some? then
        s.(prov := s.prov[s.mem.receipt.value := RecordOf(s.mem)], pc := Recorded(true))
      else s.(pc := Recorded(false))
    case Recorded(ok) => if e.Tick? then Persist(s, s.mem.(stage := DONE), if ok then Compacting else Down) else s
    case Compacting => if e.Tick? then Persist(s, CompactDone(s.mem), Down) else s
    case _ => s
  }

  predicate Driving(pc: Pc) { pc.Top? || pc.Judging? }
  predicate Gating(pc: Pc) { pc.Calling? || pc.Repairing? }
  predicate OnWire(pc: Pc) { pc.Marked? || pc.Sent? }
  predicate Absorbing(pc: Pc) { pc.Replied? || pc.Failed? }
  predicate Finishing(pc: Pc) { pc.Submitting? || pc.Committed? || pc.Recorded? || pc.Compacting? }

  function Step(s: Sys, e: Event, packet: Packet, maxRetries: nat): Sys {
    if e.Crash? then Fall(s)
    else if s.pc.Down? then WhenDown(s, e)
    else if Driving(s.pc) then Drive(s, e, packet)
    else if Gating(s.pc) then AtGate(s, e)
    else if OnWire(s.pc) then Wire(s, e)
    else if Absorbing(s.pc) then Absorb(s, e, maxRetries)
    else Finish(s, e, maxRetries)
  }

  function Run(s: Sys, events: seq<Event>, packet: Packet, maxRetries: nat): Sys {
    if events == [] then s
    else Step(Run(s, events[..|events| - 1], packet, maxRetries), events[|events| - 1], packet, maxRetries)
  }

  function Initial(policy: Policy): Sys {
    Sys(NEW_JOB, NEW_JOB, Down, policy, false, [], 0, 0, 0, 0, 0, [], map[])
  }
}
