/** The deliberation contract: roles, candidates, critic reports, policy, and the straight-line
    decision that the durable worker must reproduce.

    Source: `tools/saipal_analyst/deliberation.py`, with the gates of `output.py`.
    The model is an arbitrary function from a role and a prompt to a reply; parsing and
    validation are arbitrary partial functions of the reply text. */
module Deliberation {
  import opened Options

  datatype Role = Investigator | Critic | Finalizer

  datatype Verdict = Drift | NoDrift | OtherVerdict(name: string)

  datatype Candidate = Candidate(verdict: Verdict, body: string)

  datatype Decision = Agree | Disagree | Insufficient

  datatype Report = Report(decision: Decision, body: string)

  datatype Prompt =
    | PacketPrompt
    | CriticPrompt(about: Candidate)
    | FinalizerPrompt(contested: Candidate, objection: Report)
    | RepairPrompt(raw: string, why: string)

  datatype Parsed<+T> = Accepted(value: T) | Rejected(why: string)

  /** What one unit's packet fixes: how replies are judged and how the unit is sampled. */
  datatype Packet = Packet(
    parseCandidate: string -> Parsed<Candidate>,
    parseReport: string -> Parsed<Report>,
    highSignal: bool,
    bucket: nat)

  /** The `deliberation` block of the analyst configuration. `finalizer` is `None` when the key
      is absent: the two readers of this policy supply different defaults for it. */
  datatype Policy = Policy(
    criticOnDrift: bool,
    criticOnHighSignal: bool,
    cleanSamplePercent: int,
    finalizer: Option<bool>)

  type Model = (Role, Prompt) -> string

  /** An empty reply is not a JSON object, so no contract accepts it. */
  ghost predicate StrictPacket(p: Packet) {
    p.parseCandidate("").Rejected? && p.parseReport("").Rejected?
  }

  predicate NeedsCritic(c: Candidate, packet: Packet, policy: Policy) {
    match c.verdict
    case Drift => policy.criticOnDrift
    case NoDrift =>
      (policy.criticOnHighSignal && packet.highSignal)
      || (policy.cleanSamplePercent != 0 && packet.bucket < policy.cleanSamplePercent)
    case OtherVerdict(_) => false
  }

  /** The critic's report leaves the candidate standing. */
  predicate Stands(c: Candidate, k: Report) {
    k.decision == Agree || (c.verdict == NoDrift && k.decision == Insufficient)
  }

  // ---------------------------------------------------------------------------
  // The decision as a value
  // ---------------------------------------------------------------------------

  datatype ModelCall = ModelCall(role: Role, prompt: Prompt, repaired: bool)

  /** The value a role ends up contributing: its reply, or the one repair of it, or nothing. */
  function Answer<T>(model: Model, role: Role, prompt: Prompt, parse: string -> Parsed<T>, maxRepairs: int): Option<T> {
    var raw := model(role, prompt);
    match parse(raw)
    case Accepted(v) => Some(v)
    case Rejected(why) =>
      if maxRepairs < 1 then None
      else match parse(model(role, RepairPrompt(raw, why)))
           case Accepted(v) => Some(v)
           case Rejected(_) => None
  }

  /** The calls a role costs: one, plus one when its first reply was refused. */
  function AnswerCalls<T>(model: Model, role: Role, prompt: Prompt, parse: string -> Parsed<T>, maxRepairs: int)
    : seq<ModelCall>
  {
    var raw := model(role, prompt);
    [ModelCall(role, prompt, false)] +
    match parse(raw)
    case Accepted(_) => []
    case Rejected(why) => if maxRepairs < 1 then [] else [ModelCall(role, RepairPrompt(raw, why), true)]
  }

  function Investigated(model: Model, packet: Packet, n: int): Option<Candidate> {
    Answer(model, Investigator, PacketPrompt, packet.parseCandidate, n)
  }

  function Criticised(model: Model, packet: Packet, c: Candidate, n: int): Option<Report> {
    Answer(model, Critic, CriticPrompt(c), packet.parseReport, n)
  }

  function Finalized(model: Model, packet: Packet, c: Candidate, k: Report, n: int): Option<Candidate> {
    Answer(model, Finalizer, FinalizerPrompt(c, k), packet.parseCandidate, n)
  }

  /** What stands once the critic has spoken about `c`. */
  function Resolved(model: Model, packet: Packet, c: Candidate, k: Report, finalizerOn: bool, n: int)
    : Option<Candidate>
  {
    if Stands(c, k) then Some(c)
    else if finalizerOn then Finalized(model, packet, c, k, n)
    else None
  }

  /** What stands of a validated candidate. */
  function Judged(model: Model, packet: Packet, policy: Policy, c: Candidate, finalizerOn: bool, n: int)
    : Option<Candidate>
  {
    if !NeedsCritic(c, packet, policy) then Some(c)
    else match Criticised(model, packet, c, n)
         case None => None
         case Some(k) => Resolved(model, packet, c, k, finalizerOn, n)
  }

  /** The one candidate a unit may submit, or `None` when its output is blocked. */
  function Decide(model: Model, packet: Packet, policy: Policy, finalizerOn: bool, n: int): Option<Candidate> {
    match Investigated(model, packet, n)
    case None => None
    case Some(c) => Judged(model, packet, policy, c, finalizerOn, n)
  }

  /** `deliberation.py` treats an absent finalizer key as off; `worker.py` treats it as on. */
  predicate FinalizerOnByDefaultOff(p: Policy) { p.finalizer.Some? && p.finalizer.value }
  predicate FinalizerOnByDefaultOn(p: Policy) { p.finalizer.None? || p.finalizer.value }

  /** The unit reaches the finalizer branch. */
  predicate Contested(model: Model, packet: Packet, policy: Policy, n: int) {
    match Investigated(model, packet, n)
    case None => false
    case Some(c) =>
      NeedsCritic(c, packet, policy) &&
      match Criticised(model, packet, c, n)
      case None => false
      case Some(k) => !Stands(c, k)
  }

  /** The two readings of the policy decide alike exactly when the key is present, the unit is
      never contested, or the finalizer would have failed anyway. */
  lemma DefaultsDisagreeExactly(model: Model, packet: Packet, policy: Policy, n: int)
    ensures (Decide(model, packet, policy, FinalizerOnByDefaultOff(policy), n)
             == Decide(model, packet, policy, FinalizerOnByDefaultOn(policy), n))
            <==>
            (policy.finalizer.Some?
             || !Contested(model, packet, policy, n)
             || Decide(model, packet, policy, true, n).None?)
  {
  }

  /** The critic's report: the one that was kept, else the one it gives. */
  function Spoken(model: Model, packet: Packet, c: Candidate, persisted: Option<Report>, n: int): Option<Report> {
    if persisted.Some? then persisted else Criticised(model, packet, c, n)
  }

  /** What a recovery from candidate `c` ends with. */
  function ResumedFrom(model: Model, packet: Packet, policy: Policy, c: Candidate, persisted: Option<Report>, n: int)
    : Option<Candidate>
  {
    if !NeedsCritic(c, packet, policy) then Some(c)
    else match Spoken(model, packet, c, persisted, n)
         case None => None
         case Some(k) => Resolved(model, packet, c, k, FinalizerOnByDefaultOff(policy), n)
  }

  function FinalizerCalls(model: Model, packet: Packet, c: Candidate, k: Report, n: int): seq<ModelCall> {
    AnswerCalls(model, Finalizer, FinalizerPrompt(c, k), packet.parseCandidate, n)
  }

  /** The calls the gates cost from a validated candidate on. */
  function GateCalls(model: Model, packet: Packet, policy: Policy, c: Candidate, persisted: Option<Report>, n: int)
    : seq<ModelCall>
  {
    if !NeedsCritic(c, packet, policy) then []
    else
      (if persisted.Some? then [] else AnswerCalls(model, Critic, CriticPrompt(c), packet.parseReport, n))
      + match Spoken(model, packet, c, persisted, n)
        case Some(k) =>
          if !Stands(c, k) && policy.finalizer == Some(true) then FinalizerCalls(model, packet, c, k, n) else []
        case None => []
  }

  /** A role is called once, and at most once more for a repair. */
  lemma CallsOf<T>(model: Model, role: Role, prompt: Prompt, parse: string -> Parsed<T>, n: int)
    ensures var calls := AnswerCalls(model, role, prompt, parse, n);
            && 1 <= |calls| <= 2 && calls[0] == ModelCall(role, prompt, false)
            && forall call :: call in calls ==> call.role == role
  {
  }

  lemma SixCalls(model: Model, packet: Packet, policy: Policy, c: Candidate, n: int)
    ensures |AnswerCalls(model, Investigator, PacketPrompt, packet.parseCandidate, n)| <= 2
    ensures |GateCalls(model, packet, policy, c, None, n)| <= 4
  {
    hide AnswerCalls, NeedsCritic, Stands;
    CallsOf(model, Investigator, PacketPrompt, packet.parseCandidate, n);
    CallsOf(model, Critic, CriticPrompt(c), packet.parseReport, n);
    var k := Criticised(model, packet, c, n);
    if k.Some? {
      CallsOf(model, Finalizer, FinalizerPrompt(c, k.value), packet.parseCandidate, n);
    }
  }

  // ---------------------------------------------------------------------------
  // The decision as the source runs it
  // ---------------------------------------------------------------------------

  datatype Status = CandidateFound | BlockedOutput

  datatype PathStep =
    | InvestigatorStep | CriticStep | CriticRecovered | CriticAgreed
    | KeptNoDrift | FinalizerStep | FinalizerDecided

  /** The steps the gates record. */
  function GatePath(model: Model, packet: Packet, policy: Policy, c: Candidate, persisted: Option<Report>, n: int)
    : seq<PathStep>
  {
    if !NeedsCritic(c, packet, policy) then []
    else
      [if persisted.Some? then CriticRecovered else CriticStep]
      + match Spoken(model, packet, c, persisted, n)
        case None => []
        case Some(k) =>
          if k.decision == Agree then [CriticAgreed]
          else if Stands(c, k) then [KeptNoDrift]
          else [FinalizerStep]
               + if ResumedFrom(model, packet, policy, c, persisted, n).Some? then [FinalizerDecided] else []
  }

  /** `Investigation`: the record one deliberation fills in as it goes. */
  class Investigation {
    var status: Status
    var candidate: Option<Candidate>
    var critic: Option<Report>
    var calls: seq<ModelCall>
    var path: seq<PathStep>
    var originalVerdict: Option<Verdict>
    var finalVerdict: Option<Verdict>
    var invalidOutputs: nat

    constructor ()
      ensures status == CandidateFound && candidate.None? && critic.None?
      ensures calls == [] && path == [InvestigatorStep]
      ensures originalVerdict.None? && finalVerdict.None? && invalidOutputs == 0
    {
      status := CandidateFound;
      candidate, critic := None, None;
      calls, path := [], [InvestigatorStep];
      originalVerdict, finalVerdict := None, None;
      invalidOutputs := 0;
    }

    method TryWithRepair<T>(model: Model, role: Role, prompt: Prompt, parse: string -> Parsed<T>, maxRepairs: int)
      returns (value: Option<T>)
      modifies this`calls, this`invalidOutputs
      ensures value == Answer(model, role, prompt, parse, maxRepairs)
      ensures calls == old(calls) + AnswerCalls(model, role, prompt, parse, maxRepairs)
      ensures invalidOutputs == old(invalidOutputs)
              + (if parse(model(role, prompt)).Accepted? then 0
                 else if maxRepairs < 1 || value.Some? then 1 else 2)
    {
      var text := model(role, prompt);
      calls := calls + [ModelCall(role, prompt, false)];
      match parse(text) {
        case Accepted(v) => value := Some(v);
        case Rejected(first) =>
          invalidOutputs := invalidOutputs + 1;
          if maxRepairs < 1 {
            return None;
          }
          var repair := model(role, RepairPrompt(text, first));
          calls := calls + [ModelCall(role, RepairPrompt(text, first), true)];
          match parse(repair) {
            case Accepted(v) => value := Some(v);
            case Rejected(_) =>
              invalidOutputs := invalidOutputs + 1;
              value := None;
          }
      }
    }

    method ResolveDisagreement(model: Model, packet: Packet, policy: Policy, c: Candidate, k: Report, maxRepairs: int)
      returns (value: Option<Candidate>)
      modifies this`calls, this`invalidOutputs, this`path
      ensures value == Resolved(model, packet, c, k, FinalizerOnByDefaultOff(policy), maxRepairs)
      ensures Stands(c, k) ==>
                calls == old(calls) && path == old(path) + [if k.decision == Agree then CriticAgreed else KeptNoDrift]
      ensures !Stands(c, k) ==>
                calls == old(calls) + if policy.finalizer == Some(true)
                                      then FinalizerCalls(model, packet, c, k, maxRepairs) else []
      ensures !Stands(c, k) ==> path == old(path) + [FinalizerStep] + if value.Some? then [FinalizerDecided] else []
    {
      if c.verdict == Drift && k.decision == Agree {
        path := path + [CriticAgreed];
        return Some(c);
      }
      if c.verdict == NoDrift && k.decision == Insufficient {
        path := path + [KeptNoDrift];
        return Some(c);
      }
      if k.decision == Agree {
        path := path + [CriticAgreed];
        return Some(c);
      }
      path := path + [FinalizerStep];
      if policy.finalizer.None? || !policy.finalizer.value {
        return None;
      }
      value := TryWithRepair(model, Finalizer, FinalizerPrompt(c, k), packet.parseCandidate, maxRepairs);
      if value.Some? {
        path := path + [FinalizerDecided];
      }
    }

    /** The gates from a validated candidate on; `persisted` is a recovered critic report. */
    method ResumeFromCandidate(model: Model, packet: Packet, policy: Policy, c: Candidate, persisted: Option<Report>,
            maxRepairs: int)
      modifies this
      requires status == CandidateFound && candidate.None?
      ensures candidate == ResumedFrom(model, packet, policy, c, persisted, maxRepairs)
      ensures status == BlockedOutput <==> candidate.None?
      ensures originalVerdict == Some(c.verdict)
      ensures finalVerdict == Some(if candidate.Some? then candidate.value.verdict else c.verdict)
      ensures var k := Spoken(model, packet, c, persisted, maxRepairs);
              critic == if NeedsCritic(c, packet, policy) && k.Some? then k else old(critic)
      ensures calls == old(calls) + GateCalls(model, packet, policy, c, persisted, maxRepairs)
      ensures path == old(path) + GatePath(model, packet, policy, c, persisted, maxRepairs)
    {
      hide Answer, AnswerCalls, NeedsCritic;
      originalVerdict, finalVerdict := Some(c.verdict), Some(c.verdict);
      var standing := Some(c);
      if NeedsCritic(c, packet, policy) {
        var k;
        if persisted.Some? {
          path := path + [CriticRecovered];
          k := persisted;
        } else {
          path := path + [CriticStep];
          k := TryWithRepair(model, Critic, CriticPrompt(c), packet.parseReport, maxRepairs);
          if k.None? {
            status, candidate := BlockedOutput, None;
            return;
          }
        }
        critic := k;
        standing := ResolveDisagreement(model, packet, policy, c, k.value, maxRepairs);
        if standing.None? {
          status, candidate := BlockedOutput, None;
          return;
        }
      }
      candidate := standing;
      finalVerdict := Some(standing.value.verdict);
    }

    method RunInvestigation(model: Model, packet: Packet, policy: Policy, maxRepairs: int)
      modifies this
      requires status == CandidateFound && candidate.None?
      ensures candidate == Decide(model, packet, policy, FinalizerOnByDefaultOff(policy), maxRepairs)
      ensures status == BlockedOutput <==> candidate.None?
      ensures |calls| <= old(|calls|) + 6
      ensures calls == old(calls) + AnswerCalls(model, Investigator, PacketPrompt, packet.parseCandidate, maxRepairs)
                       + match Investigated(model, packet, maxRepairs)
                         case None => []
                         case Some(c) => GateCalls(model, packet, policy, c, None, maxRepairs)
      ensures path == old(path) + match Investigated(model, packet, maxRepairs)
                                  case None => []
                                  case Some(c) => GatePath(model, packet, policy, c, None, maxRepairs)
      ensures critic == match Investigated(model, packet, maxRepairs)
                        case None => old(critic)
                        case Some(c) =>
                          if NeedsCritic(c, packet, policy) && Criticised(model, packet, c, maxRepairs).Some?
                          then Criticised(model, packet, c, maxRepairs) else old(critic)
      ensures originalVerdict == if Investigated(model, packet, maxRepairs).Some?
                                 then Some(Investigated(model, packet, maxRepairs).value.verdict)
                                 else old(originalVerdict)
      ensures finalVerdict == if candidate.Some? then Some(candidate.value.verdict)
                              else if Investigated(model, packet, maxRepairs).Some? then originalVerdict
                              else old(finalVerdict)
    {
      hide Answer, AnswerCalls, NeedsCritic, FinalizerCalls;
      CallsOf(model, Investigator, PacketPrompt, packet.parseCandidate, maxRepairs);
      var c := TryWithRepair(model, Investigator, PacketPrompt, packet.parseCandidate, maxRepairs);
      if c.None? {
        status := BlockedOutput;
        return;
      }
      SixCalls(model, packet, policy, c.value, maxRepairs);
      originalVerdict, finalVerdict := Some(c.value.verdict), Some(c.value.verdict);
      var standing := c;
      if NeedsCritic(c.value, packet, policy) {
        path := path + [CriticStep];
        var k := TryWithRepair(model, Critic, CriticPrompt(c.value), packet.parseReport, maxRepairs);
        if k.None? {
          status, candidate := BlockedOutput, None;
          return;
        }
        critic := k;
        standing := ResolveDisagreement(model, packet, policy, c.value, k.value, maxRepairs);
        if standing.None? {
          status, candidate := BlockedOutput, None;
          return;
        }
      }
      candidate := standing;
      finalVerdict := Some(standing.value.verdict);
    }
  }

  /** Recovering with the report the critic gave, or with none kept, decides as the full run does. */
  lemma RecoveryDecidesAlike(model: Model, packet: Packet, policy: Policy, persisted: Option<Report>, n: int)
    requires Investigated(model, packet, n).Some?
    requires persisted.Some? ==> persisted == Criticised(model, packet, Investigated(model, packet, n).value, n)
    ensures ResumedFrom(model, packet, policy, Investigated(model, packet, n).value, persisted, n)
         == Decide(model, packet, policy, FinalizerOnByDefaultOff(policy), n)
  {
  }

  /** Whatever a recovery starts from, the gate holds: a DRIFT verdict it returns is the validated
      finalizer output, or the candidate itself with a critic who agreed. */
  lemma RecoveryKeepsGate(model: Model, packet: Packet, policy: Policy, c: Candidate, persisted: Option<Report>, n: int)
    requires policy.criticOnDrift
    ensures var r := ResumedFrom(model, packet, policy, c, persisted, n);
            var k := if persisted.Some? then persisted else Criticised(model, packet, c, n);
            r.Some? && r.value.verdict == Drift ==>
              && NeedsCritic(c, packet, policy) && k.Some?
              && ((r.value == c && k.value.decision == Agree) || Finalized(model, packet, c, k.value, n) == r)
  {
  }

  // ---------------------------------------------------------------------------
  // When a critic is asked
  // ---------------------------------------------------------------------------

  /** The validated answer of a role: its reply is accepted, or with a repair allowed its refused reply's
      repair is. */
  lemma AnswersExactly<T>(model: Model, role: Role, prompt: Prompt, parse: string -> Parsed<T>, n: int, v: T)
    ensures var first := parse(model(role, prompt));
            Answer(model, role, prompt, parse, n) == Some(v) <==>
              || first == Accepted(v)
              || (&& first.Rejected? && n >= 1
                  && parse(model(role, RepairPrompt(model(role, prompt), first.why))) == Accepted(v))
    ensures AnswerCalls(model, role, prompt, parse, n)[0] == ModelCall(role, prompt, false)
    ensures var first := parse(model(role, prompt));
            if first.Rejected? && n >= 1
            then AnswerCalls(model, role, prompt, parse, n)[1..]
                 == [ModelCall(role, RepairPrompt(model(role, prompt), first.why), true)]
            else |AnswerCalls(model, role, prompt, parse, n)| == 1
  {
  }

  /** A NO_DRIFT candidate of a high-signal or sampled unit stands only with its critic's word, agreeing or
      insufficient; what is submitted otherwise is the validated finalizer output. When neither holds
      it stands on its own, and no critic is asked. */
  lemma NoDriftMeetsItsCritic(model: Model, packet: Packet, policy: Policy, c: Candidate, persisted: Option<Report>,
          n: int)
    requires c.verdict == NoDrift
    ensures var r := ResumedFrom(model, packet, policy, c, persisted, n);
            var k := if persisted.Some? then persisted
                     else Answer(model, Critic, CriticPrompt(c), packet.parseReport, n);
            var final := (k: Report) => Answer(model, Finalizer, FinalizerPrompt(c, k), packet.parseCandidate, n);
            if (policy.criticOnHighSignal && packet.highSignal)
               || (0 < policy.cleanSamplePercent && packet.bucket < policy.cleanSamplePercent)
            then
              && (k.None? ==> r.None?)
              && (k.Some? && (k.value.decision == Agree || k.value.decision == Insufficient) ==> r == Some(c))
              && (k.Some? && k.value.decision == Disagree ==>
                    r == if policy.finalizer == Some(true) then final(k.value) else None)
              && (persisted.None? ==>
                    ModelCall(Critic, CriticPrompt(c), false) in GateCalls(model, packet, policy, c, persisted, n))
            else r == Some(c) && GateCalls(model, packet, policy, c, persisted, n) == []
  {
    if persisted.None? {
      CallsOf(model, Critic, CriticPrompt(c), packet.parseReport, n);
    }
  }

  /** The same for DRIFT, whose critic must agree; any other verdict is never put to a critic. */
  lemma DriftMeetsItsCritic(model: Model, packet: Packet, policy: Policy, c: Candidate, persisted: Option<Report>,
          n: int)
    requires c.verdict != NoDrift
    ensures var r := ResumedFrom(model, packet, policy, c, persisted, n);
            var k := if persisted.Some? then persisted
                     else Answer(model, Critic, CriticPrompt(c), packet.parseReport, n);
            var final := (k: Report) => Answer(model, Finalizer, FinalizerPrompt(c, k), packet.parseCandidate, n);
            if c.verdict == Drift && policy.criticOnDrift
            then
              && (k.None? ==> r.None?)
              && (k.Some? && k.value.decision == Agree ==> r == Some(c))
              && (k.Some? && k.value.decision != Agree ==>
                    r == if policy.finalizer == Some(true) then final(k.value) else None)
              && (persisted.None? ==>
                    ModelCall(Critic, CriticPrompt(c), false) in GateCalls(model, packet, policy, c, persisted, n))
            else r == Some(c) && GateCalls(model, packet, policy, c, persisted, n) == []
  {
    if persisted.None? {
      CallsOf(model, Critic, CriticPrompt(c), packet.parseReport, n);
    }
  }

  /** The full run is the gates after the investigator's validated answer, so both hold of it. */
  lemma DecideIsGates(model: Model, packet: Packet, policy: Policy, n: int)
    ensures Decide(model, packet, policy, policy.finalizer == Some(true), n)
         == match Answer(model, Investigator, PacketPrompt, packet.parseCandidate, n)
            case None => None
            case Some(c) => ResumedFrom(model, packet, policy, c, None, n)
  {
  }

  /** The record shows what happened: a critic step exactly when the critic was called, a finalizer's
      decision exactly when its validated output stands. */
  lemma PathTellsCalls(model: Model, packet: Packet, policy: Policy, c: Candidate, persisted: Option<Report>, n: int)
    ensures var path := GatePath(model, packet, policy, c, persisted, n);
            var calls := GateCalls(model, packet, policy, c, persisted, n);
            && (CriticStep in path <==> exists call :: call in calls && call.role == Critic)
            && (CriticRecovered in path ==> persisted.Some?)
            && (FinalizerDecided in path <==>
                  && ResumedFrom(model, packet, policy, c, persisted, n).Some?
                  && exists call :: call in calls && call.role == Finalizer)
            && forall call :: call in calls ==> call.role != Investigator
  {
    hide Answer, AnswerCalls, NeedsCritic, FinalizerCalls;
    var k := Spoken(model, packet, c, persisted, n);
    CallsOf(model, Critic, CriticPrompt(c), packet.parseReport, n);
    if k.Some? {
      FinalizerCallsOf(model, packet, c, k.value, n);
    }
    var calls := GateCalls(model, packet, policy, c, persisted, n);
    if NeedsCritic(c, packet, policy) && persisted.None? {
      assert calls[0] == ModelCall(Critic, CriticPrompt(c), false);
    }
    if NeedsCritic(c, packet, policy) && k.Some? && !Stands(c, k.value) && policy.finalizer == Some(true) {
      var final := FinalizerCalls(model, packet, c, k.value, n);
      assert final[0] in final && final[0] in calls;
    }
  }

  lemma FinalizerCallsOf(model: Model, packet: Packet, c: Candidate, k: Report, n: int)
    ensures FinalizerCalls(model, packet, c, k, n) != []
    ensures forall call :: call in FinalizerCalls(model, packet, c, k, n) ==> call.role == Finalizer
  {
    CallsOf(model, Finalizer, FinalizerPrompt(c, k), packet.parseCandidate, n);
  }
}
