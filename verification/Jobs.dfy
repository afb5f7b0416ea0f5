/** The durable analyst job: its stages, its transition table, and what a restart must do with it.

    Source: `tools/saipal_analyst/jobs.py`. Digests are injective there, so a digest is
    represented by the text it digests. */
module Jobs {
  import opened Options
  import opened Deliberation

  datatype Stage =
    | READY | INVESTIGATOR_CALLING | INVESTIGATOR_RESPONSE | CANDIDATE_READY
    | CRITIC_CALLING | CRITIC_READY | FINALIZER_CALLING | FINAL_READY | SUBMITTING
    | DONE | RETRY_WAIT | BLOCKED | BLOCKED_BINDING | STALE | REMOTE_OUTCOME_UNKNOWN

  /** The transition table. */
  predicate Listed(from: Stage, to: Stage) {
    match from
    case READY => to.INVESTIGATOR_CALLING? || to.BLOCKED_BINDING? || to.BLOCKED? || to.STALE?
    case INVESTIGATOR_CALLING => to.INVESTIGATOR_RESPONSE? || to.RETRY_WAIT? || to.BLOCKED? || to.STALE?
    case INVESTIGATOR_RESPONSE => to.CANDIDATE_READY? || to.RETRY_WAIT? || to.BLOCKED? || to.STALE?
    case CANDIDATE_READY => to.CRITIC_CALLING? || to.FINAL_READY? || to.STALE?
    case CRITIC_CALLING => to.CRITIC_READY? || to.RETRY_WAIT? || to.BLOCKED? || to.STALE?
    case CRITIC_READY => to.FINALIZER_CALLING? || to.FINAL_READY? || to.RETRY_WAIT? || to.BLOCKED? || to.STALE?
    case FINALIZER_CALLING => to.FINAL_READY? || to.RETRY_WAIT? || to.BLOCKED? || to.STALE?
    case FINAL_READY => to.SUBMITTING? || to.RETRY_WAIT? || to.BLOCKED? || to.STALE?
    case SUBMITTING => to.DONE? || to.BLOCKED? || to.STALE?
    case RETRY_WAIT =>
      to.READY? || to.INVESTIGATOR_RESPONSE? || to.CANDIDATE_READY? || to.CRITIC_READY? || to.FINAL_READY? || to.STALE?
    case BLOCKED => to.READY? || to.STALE?
    case BLOCKED_BINDING =>
      to.READY? || to.INVESTIGATOR_RESPONSE? || to.CANDIDATE_READY? || to.CRITIC_READY? || to.FINAL_READY? || to.STALE?
    case STALE => false
    case DONE => false
    case REMOTE_OUTCOME_UNKNOWN =>
      to.INVESTIGATOR_CALLING? || to.CRITIC_CALLING? || to.FINALIZER_CALLING? || to.BLOCKED? || to.STALE?
  }

  /** `advance` accepts a same-state re-entry and refuses everything off the table. */
  predicate Legal(from: Stage, to: Stage) { from == to || Listed(from, to) }

  /** The table read the other way: where each stage is entered from. DONE, STALE and nothing else is
      final. */
  lemma EnteredFrom(from: Stage, to: Stage)
    ensures Listed(from, to) <==>
              match to
              case READY => from in {RETRY_WAIT, BLOCKED, BLOCKED_BINDING}
              case INVESTIGATOR_CALLING => from in {READY, REMOTE_OUTCOME_UNKNOWN}
              case INVESTIGATOR_RESPONSE => from in {INVESTIGATOR_CALLING, RETRY_WAIT, BLOCKED_BINDING}
              case CANDIDATE_READY => from in {INVESTIGATOR_RESPONSE, RETRY_WAIT, BLOCKED_BINDING}
              case CRITIC_CALLING => from in {CANDIDATE_READY, REMOTE_OUTCOME_UNKNOWN}
              case CRITIC_READY => from in {CRITIC_CALLING, RETRY_WAIT, BLOCKED_BINDING}
              case FINALIZER_CALLING => from in {CRITIC_READY, REMOTE_OUTCOME_UNKNOWN}
              case FINAL_READY =>
                from in {CANDIDATE_READY, CRITIC_READY, FINALIZER_CALLING, RETRY_WAIT, BLOCKED_BINDING}
              case SUBMITTING => from == FINAL_READY
              case DONE => from == SUBMITTING
              case RETRY_WAIT =>
                from in {INVESTIGATOR_CALLING, INVESTIGATOR_RESPONSE, CRITIC_CALLING, CRITIC_READY, FINALIZER_CALLING,
                         FINAL_READY}
              case BLOCKED =>
                from in {READY, INVESTIGATOR_CALLING, INVESTIGATOR_RESPONSE, CRITIC_CALLING, CRITIC_READY,
                         FINALIZER_CALLING, FINAL_READY, SUBMITTING, REMOTE_OUTCOME_UNKNOWN}
              case BLOCKED_BINDING => from == READY
              case STALE => from !in {STALE, DONE}
              case REMOTE_OUTCOME_UNKNOWN => false
  {
  }

  predicate Terminal(s: Stage) { s.DONE? || s.BLOCKED? || s.BLOCKED_BINDING? || s.STALE? }

  /** The paid-attempt identity: role, ordinal and request (the job id is fixed per job). */
  datatype AttemptId = AttemptId(role: Role, ordinal: nat, prompt: Prompt)

  /** What the job keeps per role: the last attempt identity, the raw reply, its repair. */
  datatype Slot = Slot(attempt: Option<AttemptId>, reply: Option<string>, repair: Option<string>, repairs: nat)

  const EMPTY_SLOT := Slot(None, None, None, 0)

  datatype ErrorClass =
    | NoError | BlockedOutputError | ValidationFailed | PacketError | BindingError | StaleError
    | BackendError(failure: FailureClass) | BackendRetryable | RetryableExhausted
    | KernelError | RemoteOutcomeUnknown

  datatype FailureClass = Retryable | Permanent | Auth | Limit

  datatype Job = Job(
    stage: Stage,
    transportAttempts: nat,
    submitAttempts: nat,
    investigator: Slot,
    critic: Slot,
    finalizer: Slot,
    candidate: Option<Candidate>,
    report: Option<Report>,
    responseDigest: Option<string>,
    criticDigest: Option<string>,
    finalizerDigest: Option<string>,
    receipt: Option<Candidate>,
    error: ErrorClass)
  {
    function Of(role: Role): Slot {
      match role
      case Investigator => investigator
      case Critic => critic
      case Finalizer => finalizer
    }

    function Put(role: Role, s: Slot): (j: Job)
      ensures j.Of(role) == s
      ensures forall r: Role :: r != role ==> j.Of(r) == Of(r)
    {
      match role
      case Investigator => this.(investigator := s)
      case Critic => this.(critic := s)
      case Finalizer => this.(finalizer := s)
    }
  }

  const NEW_JOB := Job(READY, 0, 0, EMPTY_SLOT, EMPTY_SLOT, EMPTY_SLOT, None, None, None, None, None, None, NoError)

  /** The stage the persisted artifacts prove. */
  function ResumeStage(j: Job): Stage {
    if j.candidate.Some? then
      if j.finalizerDigest.Some? then FINAL_READY
      else if j.report.Some? then CRITIC_READY
      else CANDIDATE_READY
    else if Has(j.investigator.reply) then INVESTIGATOR_RESPONSE
    else if j.stage == REMOTE_OUTCOME_UNKNOWN then REMOTE_OUTCOME_UNKNOWN
    else READY
  }

  /** Nothing short of the final digest proves a final candidate, nothing short of the report a critic's
      verdict, and a blank reply proves nothing. */
  lemma ResumesAt(j: Job)
    ensures ResumeStage(j) == FINAL_READY <==> j.candidate.Some? && j.finalizerDigest.Some?
    ensures ResumeStage(j) == CRITIC_READY <==> j.candidate.Some? && j.finalizerDigest.None? && j.report.Some?
    ensures ResumeStage(j) == CANDIDATE_READY <==> j.candidate.Some? && j.finalizerDigest.None? && j.report.None?
    ensures ResumeStage(j) == INVESTIGATOR_RESPONSE <==>
              j.candidate.None? && j.investigator.reply.Some? && j.investigator.reply.value != ""
    ensures j.candidate.None? && (j.investigator.reply.None? || j.investigator.reply.value == "") ==>
              ResumeStage(j) == if j.stage == REMOTE_OUTCOME_UNKNOWN then REMOTE_OUTCOME_UNKNOWN else READY
  {
  }

  datatype Action = Skip | Ambiguous | DoCall | Validate | DoCritic | Finalize | Submit | Retry | Wait

  /** The calling stage of a role carries an attempt identity and no reply. */
  predicate Dangling(s: Slot) { !Has(s.reply) && s.attempt.Some? }

  function NextAction(j: Job, due: bool): Action {
    match j.stage
    case DONE => Skip
    case BLOCKED => Skip
    case BLOCKED_BINDING => Skip
    case STALE => Skip
    case REMOTE_OUTCOME_UNKNOWN => Ambiguous
    case READY => DoCall
    case INVESTIGATOR_CALLING =>
      if Has(j.investigator.reply) then Validate
      else if j.investigator.attempt.Some? then Ambiguous else DoCall
    case INVESTIGATOR_RESPONSE => Validate
    case CANDIDATE_READY => DoCritic
    case CRITIC_CALLING => if Dangling(j.critic) then Ambiguous else DoCritic
    case CRITIC_READY => Finalize
    case FINALIZER_CALLING => if Dangling(j.finalizer) then Ambiguous else Finalize
    case FINAL_READY => Submit
    case SUBMITTING => Submit
    case RETRY_WAIT => if due then Retry else Wait
  }

  /** The actions read the other way: what each one is taken on. An attempt is ambiguous when its identity
      is durable and its reply is not, or is blank. */
  lemma ActsOn(j: Job, due: bool)
    ensures NextAction(j, due) == Skip <==> j.stage in {DONE, BLOCKED, BLOCKED_BINDING, STALE}
    ensures NextAction(j, due) == Ambiguous <==>
              || j.stage == REMOTE_OUTCOME_UNKNOWN
              || (exists role :: j.stage == CallingStage(role) && j.Of(role).attempt.Some?
                                 && (j.Of(role).reply.None? || j.Of(role).reply.value == ""))
    ensures NextAction(j, due) == DoCall <==>
              || j.stage == READY
              || (j.stage == INVESTIGATOR_CALLING && j.investigator.attempt.None?
                  && (j.investigator.reply.None? || j.investigator.reply.value == ""))
    ensures NextAction(j, due) == Validate <==>
              || j.stage == INVESTIGATOR_RESPONSE
              || (j.stage == INVESTIGATOR_CALLING && j.investigator.reply.Some? && j.investigator.reply.value != "")
    ensures NextAction(j, due) == DoCritic <==>
              j.stage == CANDIDATE_READY || (j.stage == CRITIC_CALLING && NextAction(j, due) != Ambiguous)
    ensures NextAction(j, due) == Finalize <==>
              j.stage == CRITIC_READY || (j.stage == FINALIZER_CALLING && NextAction(j, due) != Ambiguous)
    ensures NextAction(j, due) == Submit <==> j.stage == FINAL_READY || j.stage == SUBMITTING
    ensures NextAction(j, due) == Retry <==> j.stage == RETRY_WAIT && due
    ensures NextAction(j, due) == Wait <==> j.stage == RETRY_WAIT && !due
  {
    if j.stage == INVESTIGATOR_CALLING {
      assert CallingStage(Investigator) == j.stage;
    } else if j.stage == CRITIC_CALLING {
      assert CallingStage(Critic) == j.stage;
    } else if j.stage == FINALIZER_CALLING {
      assert CallingStage(Finalizer) == j.stage;
    }
  }

  function CallingStage(role: Role): Stage {
    match role
    case Investigator => INVESTIGATOR_CALLING
    case Critic => CRITIC_CALLING
    case Finalizer => FINALIZER_CALLING
  }

  /** The payload a settled job no longer needs. */
  predicate Tombstone(j: Job) {
    j.investigator.reply.None? && j.investigator.repair.None? && j.report.None?
    && j.critic.reply.None? && j.critic.repair.None?
    && j.finalizer.reply.None? && j.finalizer.repair.None? && j.candidate.None?
  }

  function Strip(s: Slot): Slot { s.(reply := None, repair := None) }

  function CompactDone(j: Job): (r: Job)
    ensures j.stage == DONE ==> Tombstone(r)
    ensures r.stage == j.stage && r.receipt == j.receipt
    ensures r.responseDigest == j.responseDigest && r.criticDigest == j.criticDigest
    ensures r.finalizerDigest == j.finalizerDigest
    ensures r.transportAttempts == j.transportAttempts && r.submitAttempts == j.submitAttempts && r.error == j.error
    ensures forall role: Role :: r.Of(role).attempt == j.Of(role).attempt && r.Of(role).repairs == j.Of(role).repairs
    ensures j.stage != DONE ==> r == j
  {
    if j.stage != DONE then j
    else j.(investigator := Strip(j.investigator), critic := Strip(j.critic), finalizer := Strip(j.finalizer),
            candidate := None, report := None)
  }

  /** A failed attempt cleared for one fresh call: payload, identities and repair allowances go,
      the cumulative transport and submit counters stay. */
  function Cleared(j: Job): Job {
    j.(stage := READY, investigator := EMPTY_SLOT, critic := EMPTY_SLOT, finalizer := EMPTY_SLOT,
       candidate := None, report := None, responseDigest := None, criticDigest := None, finalizerDigest := None,
       error := NoError)
  }

  /** A requeued unit is READY with no payload, so its next action is a fresh call; of what it was only the
      cumulative counters and a receipt are left. */
  lemma ClearedCallsAfresh(j: Job, due: bool)
    ensures NextAction(Cleared(j), due) == DoCall && Tombstone(Cleared(j))
    ensures Legal(BLOCKED, Cleared(j).stage)
    ensures Cleared(j)
         == NEW_JOB.(transportAttempts := j.transportAttempts, submitAttempts := j.submitAttempts, receipt := j.receipt)
  {
  }

  /** A due retry, or a block that became bindable, always has a legal place to resume, and that
      place is never itself a place to wait. */
  lemma ResumeIsLegal(j: Job, due: bool)
    requires j.stage == RETRY_WAIT || j.stage == BLOCKED_BINDING
    ensures Legal(j.stage, ResumeStage(j))
    ensures !Terminal(ResumeStage(j)) && !ResumeStage(j).RETRY_WAIT? && !ResumeStage(j).REMOTE_OUTCOME_UNKNOWN?
    ensures var a := NextAction(j.(stage := ResumeStage(j)), due);
            a.DoCall? || a.Validate? || a.DoCritic? || a.Finalize? || a.Submit?
  {
  }
}
