/** Several writers share one ledger file: each load, mutate and save runs under one fence, so the
    file is always the fold of what was committed, in fence order.

    Source: `mutate_ledger`, `circuit_probe_allowed`, `_demote_source_half_open` of
    `tools/saipal_analyst/budgets.py`. The fence is one exclusive lease that a dead holder loses;
    the save is an atomic replace. */
module LedgerTxn {
  import opened Options
  import opened Jobs
  import opened Ledger
  import opened Circuits
  import opened Budgets
  import S = SourceCircuits

  const BUDGET_TXN_RETRIES := 50

  type WriterId = nat

  datatype Writer =
    | Idle
    | Waiting(m: Mutation, busy: nat)          // attempts that found the fence taken
    | Holding(m: Mutation)
    | Loaded(m: Mutation, copy: Ledger)
    | Committed
    | Exhausted

  datatype Commit = Commit(writer: WriterId, m: Mutation)

  datatype Sys = Sys(disk: Ledger, fence: Option<WriterId>, writers: map<WriterId, Writer>, log: seq<Commit>)

  datatype Move =
    | Begin(m: Mutation)
    | Peek(at: real)                           // the unlocked read before a probe
    | Try
    | Load
    | Save
    | Die

  function Of(s: Sys, w: WriterId): Writer { if w in s.writers then s.writers[w] else Idle }

  function With(s: Sys, w: WriterId, x: Writer): Sys { s.(writers := s.writers[w := x]) }

  function Step(s: Sys, w: WriterId, e: Move): Sys {
    var me := Of(s, w);
    match e
    case Begin(m) => if me.Idle? || me.Committed? || me.Exhausted? then With(s, w, Waiting(m, 0)) else s
    case Peek(now) =>
      if (me.Idle? || me.Committed? || me.Exhausted?) && ProbeDue(s.disk.backend, now)
      then With(s, w, Waiting(BackendProbe(now), 0)) else s
    case Try =>
      if !me.Waiting? then s
      else if s.fence.None? then With(s, w, Holding(me.m)).(fence := Some(w))
      else if me.busy + 1 == BUDGET_TXN_RETRIES then With(s, w, Exhausted)
      else With(s, w, Waiting(me.m, me.busy + 1))
    case Load => if me.Holding? then With(s, w, Loaded(me.m, s.disk)) else s
    case Save =>
      if me.Loaded?
      then With(s, w, Committed).(disk := Apply(me.copy, me.m), fence := None, log := s.log + [Commit(w, me.m)])
      else s
    case Die => With(s, w, Idle).(fence := if s.fence == Some(w) then None else s.fence)
  }

  datatype Act = Act(writer: WriterId, move: Move)

  function Run(acts: seq<Act>): Sys {
    if acts == [] then Sys(FRESH_LEDGER, None, map[], [])
    else var last := acts[|acts| - 1]; Step(Run(acts[..|acts| - 1]), last.writer, last.move)
  }

  function Mutations(log: seq<Commit>): seq<Mutation> {
    if log == [] then [] else Mutations(log[..|log| - 1]) + [log[|log| - 1].m]
  }

  // ---------------------------------------------------------------------------
  // Linearizability
  // ---------------------------------------------------------------------------

  predicate InFence(x: Writer) { x.Holding? || x.Loaded? }

  /** One writer at most is inside, what it loaded is what is on disk, and the disk is the fold of
      the committed mutations. */
  ghost predicate Linear(s: Sys) {
    && (forall w: WriterId :: InFence(Of(s, w)) ==> s.fence == Some(w))
    && (forall w: WriterId :: Of(s, w).Loaded? ==> Of(s, w).copy == s.disk)
    && (forall w: WriterId :: Of(s, w).Waiting? ==> Of(s, w).busy < BUDGET_TXN_RETRIES)
    && s.disk == ApplyAll(FRESH_LEDGER, Mutations(s.log))
  }

  lemma LinearSave(s: Sys, w: WriterId)
    requires Linear(s) && Of(s, w).Loaded?
    ensures Linear(Step(s, w, Save))
  {
    hide Apply, ProbeDue;
    var t := Step(s, w, Save);
    assert forall v: WriterId :: v != w ==> Of(t, v) == Of(s, v);
    assert t.log[..|s.log|] == s.log;
    assert Mutations(t.log) == Mutations(s.log) + [Of(s, w).m];
    assert Mutations(t.log)[..|Mutations(t.log)| - 1] == Mutations(s.log);
  }

  lemma LinearStep(s: Sys, w: WriterId, e: Move)
    requires Linear(s)
    ensures Linear(Step(s, w, e))
  {
    hide Apply, ApplyAll, Mutations, ProbeDue;
    if e.Save? {
      if Of(s, w).Loaded? {
        LinearSave(s, w);
      }
    } else {
      var t := Step(s, w, e);
      assert forall v: WriterId :: v != w ==> Of(t, v) == Of(s, v);
    }
  }

  /** For any number of writers and any interleaving of their moves, deaths included, the ledger is
      the fold of the committed mutations in fence order. */
  lemma {:induction false} Linearizable(acts: seq<Act>)
    ensures Linear(Run(acts))
    ensures Run(acts).disk == ApplyAll(FRESH_LEDGER, Mutations(Run(acts).log))
  {
    if acts != [] {
      var before, last := acts[..|acts| - 1], acts[|acts| - 1];
      Linearizable(before);
      LinearStep(Run(before), last.writer, last.move);
    }
  }

  /** A commit is exactly a save, and it takes effect on the ledger as it then stands; nothing else
      a writer does, running out of retries included, touches ledger or log. */
  lemma OnlySavesCommit(acts: seq<Act>, w: WriterId, e: Move)
    ensures var s := Run(acts); var t := Step(s, w, e);
            if e.Save? && Of(s, w).Loaded?
            then t.disk == Apply(s.disk, Of(s, w).m) && t.log == s.log + [Commit(w, Of(s, w).m)]
            else t.disk == s.disk && t.log == s.log
  {
    hide Apply, Run, ApplyAll, ProbeDue;
    Linearizable(acts);
  }

  /** How often the writer has found the fence taken since it began. */
  function Refusals(acts: seq<Act>, w: WriterId): nat {
    if acts == [] then 0
    else
      var before, last := acts[..|acts| - 1], acts[|acts| - 1];
      if last.writer != w then Refusals(before, w)
      else match last.move
           case Try => if Of(Run(before), w).Waiting? && Run(before).fence.Some? then Refusals(before, w) + 1
                       else Refusals(before, w)
           case Begin(_) => if Of(Run(before), w) != Of(Run(acts), w) then 0 else Refusals(before, w)
           case Peek(_) => if Of(Run(before), w) != Of(Run(acts), w) then 0 else Refusals(before, w)
           case _ => Refusals(before, w)
  }

  /** A writer gives up exactly after its fiftieth refusal. */
  lemma {:induction false} GivesUpAfterFifty(acts: seq<Act>, w: WriterId)
    ensures Of(Run(acts), w).Waiting? ==> Refusals(acts, w) == Of(Run(acts), w).busy < 50
    ensures Of(Run(acts), w).Exhausted? ==> Refusals(acts, w) == 50
  {
    hide Apply, ApplyAll, ProbeDue, Step;
    if acts != [] {
      var before, last := acts[..|acts| - 1], acts[|acts| - 1];
      GivesUpAfterFifty(before, w);
      Linearizable(before);
      OneStep(Run(before), w, last.writer, last.move);
    }
  }

  /** What a move does to the writer `w`. */
  lemma OneStep(s: Sys, w: WriterId, mover: WriterId, e: Move)
    ensures var me, next := Of(s, w), Of(Step(s, mover, e), w);
            && (mover != w ==> next == me)
            && (mover == w && e.Try? && me.Waiting? ==>
                  next == if s.fence.None? then Holding(me.m)
                          else if me.busy + 1 == BUDGET_TXN_RETRIES then Exhausted else Waiting(me.m, me.busy + 1))
            && (mover == w && next != me && (e.Begin? || e.Peek?) ==> next.Waiting? && next.busy == 0)
            && (mover == w && next != me && (e.Load? || e.Save? || e.Die?) ==> !next.Waiting? && !next.Exhausted?)
            && (mover == w && e.Try? && !me.Waiting? ==> next == me)
  {
    hide Apply, ApplyAll;
  }

  /** A probe waits for the fence only when the unlocked read finds a due OPEN, and a writer that waits,
      holds or has loaded starts nothing else. */
  lemma StartsExactly(acts: seq<Act>, w: WriterId, e: Move)
    requires e.Begin? || e.Peek?
    ensures var s := Run(acts);
            var me, c := Of(s, w), s.disk.backend;
            var free := me == Idle || me == Committed || me == Exhausted;
            Of(Step(s, w, e), w) ==
            if e.Begin? && free then Waiting(e.m, 0)
            else if e.Peek? && free && c.state == OPEN && c.openUntil.Some? && c.openUntil.value <= e.at
            then Waiting(BackendProbe(e.at), 0)
            else me
  {
    hide Run, Apply, ApplyAll;
  }

  // ---------------------------------------------------------------------------
  // Each mutator keeps to its own part
  // ---------------------------------------------------------------------------

  function ChargesOf(ms: seq<Mutation>): seq<Entry> {
    if ms == [] then []
    else match ms[|ms| - 1]
         case Charge(at, c) => ChargesOf(ms[..|ms| - 1]) + [Entry(at, c)]
         case _ => ChargesOf(ms[..|ms| - 1])
  }

  function SignalsOf(ms: seq<Mutation>): seq<Signal> {
    if ms == [] then []
    else match ms[|ms| - 1]
         case BackendFailure(f, at, config) => SignalsOf(ms[..|ms| - 1]) + [Fail(f, at, config)]
         case BackendSuccess => SignalsOf(ms[..|ms| - 1]) + [Success]
         case BackendProbe(at) => SignalsOf(ms[..|ms| - 1]) + [Probe(at)]
         case _ => SignalsOf(ms[..|ms| - 1])
  }

  predicate Concerns(m: Mutation, id: string) {
    match m
    case SourceFailure(i, _, _, _) => i == id
    case SourceSuccess(i, _) => i == id
    case SourceDemote(i, _) => i == id
    case _ => false
  }

  function About(ms: seq<Mutation>, id: string): seq<Mutation> {
    if ms == [] then []
    else if Concerns(ms[|ms| - 1], id) then About(ms[..|ms| - 1], id) + [ms[|ms| - 1]] else About(ms[..|ms| - 1], id)
  }

  function SourceOf(l: Ledger, id: string): Option<Circuit> { if id in l.sources then Some(l.sources[id]) else None }

  /** One mutation, part by part. */
  lemma ApplyParts(l: Ledger, k: Ledger, m: Mutation, id: string)
    ensures !m.Charge? ==>
              Apply(l, m).windows == l.windows && Apply(l, m).lastSeen == l.lastSeen && Apply(l, m).freeze == l.freeze
    ensures m.Charge? ==>
              Apply(l, m) == Charged(l, m.at, m.counts) && Apply(l, m).backend == l.backend
                && Apply(l, m).sources == l.sources
    ensures !Concerns(m, id) ==> SourceOf(Apply(l, m), id) == SourceOf(l, id)
    ensures Concerns(m, id) && SourceOf(l, id) == SourceOf(k, id) ==>
              SourceOf(Apply(l, m), id) == SourceOf(Apply(k, m), id)
  {
    hide SourceFailed, SourceSucceeded, SourceDemoted, Failed, Succeeded, Probed, Recent, Hour;
  }

  lemma ChargedSame(l: Ledger, k: Ledger, at: real, c: Counts)
    requires l.windows == k.windows && l.lastSeen == k.lastSeen && l.freeze == k.freeze
    ensures var x, y := Charged(l, at, c), Charged(k, at, c);
            x.windows == y.windows && x.lastSeen == y.lastSeen && x.freeze == y.freeze
  {
    hide Recent, Hour;
  }

  /** After any committed mutations the windows, the mark and the freeze are those of the charges
      alone. */
  lemma {:induction false} WindowsAreTheirOwn(ms: seq<Mutation>)
    ensures var l, k := ApplyAll(FRESH_LEDGER, ms), Book(FRESH_LEDGER, ChargesOf(ms));
            l.windows == k.windows && l.lastSeen == k.lastSeen && l.freeze == k.freeze
  {
    if ms != [] {
      var before, m := ms[..|ms| - 1], ms[|ms| - 1];
      WindowsAreTheirOwn(before);
      var l, k := ApplyAll(FRESH_LEDGER, before), Book(FRESH_LEDGER, ChargesOf(before));
      ApplyParts(l, l, m, "");
      if m.Charge? {
        ChargedSame(l, k, m.at, m.counts);
        var charges := ChargesOf(ms);
        assert charges[..|charges| - 1] == ChargesOf(before);
      }
    }
  }

  /** The backend circuit is that of the backend signals alone, so everything proved of it for every
      signal sequence holds under every interleaving of writers. */
  lemma {:induction false} BackendIsItsOwn(ms: seq<Mutation>)
    ensures ApplyAll(FRESH_LEDGER, ms).backend == HearAll(SignalsOf(ms))
  {
    if ms != [] {
      var before := ms[..|ms| - 1];
      BackendIsItsOwn(before);
      var signals := SignalsOf(ms);
      assert |signals| > |SignalsOf(before)| ==> signals[..|signals| - 1] == SignalsOf(before);
    }
  }

  /** A source's circuit is that of the mutations about it: one broken source never affects another. */
  lemma {:induction false} SourcesAreTheirOwn(ms: seq<Mutation>, id: string)
    ensures SourceOf(ApplyAll(FRESH_LEDGER, ms), id) == SourceOf(ApplyAll(FRESH_LEDGER, About(ms, id)), id)
  {
    hide Apply;
    if ms != [] {
      var before, m := ms[..|ms| - 1], ms[|ms| - 1];
      SourcesAreTheirOwn(before, id);
      ApplyParts(ApplyAll(FRESH_LEDGER, before), ApplyAll(FRESH_LEDGER, About(before, id)), m, id);
      if Concerns(m, id) {
        var about := About(ms, id);
        assert about[..|about| - 1] == About(before, id);
      }
    }
  }

  /** When an open circuit is due. */
  function DueAt(c: Option<Circuit>): real {
    if c.Some? && c.value.openUntil.Some? then c.value.openUntil.value else 0.0
  }

  /** The mutations about a source as reports of it; a demotion, which does not look at the time, is an
      ask that comes when it is due. */
  function ReportsOf(ms: seq<Mutation>, id: string): seq<S.Report> {
    if ms == [] then []
    else
      var before, m := ms[..|ms| - 1], ms[|ms| - 1];
      if !Concerns(m, id) then ReportsOf(before, id)
      else match m
           case SourceFailure(_, kind, digest, at) => ReportsOf(before, id) + [S.Failure(kind, digest, at)]
           case SourceSuccess(_, digest) => ReportsOf(before, id) + [S.Success(digest)]
           case SourceDemote(_, config) =>
             ReportsOf(before, id) + [S.Ask(config, DueAt(SourceOf(ApplyAll(FRESH_LEDGER, before), id)), true)]
           case _ => ReportsOf(before, id)
  }

  lemma SourceHears(l: Ledger, m: Mutation, id: string)
    requires Concerns(m, id)
    ensures SourceOf(Apply(l, m), id)
         == S.Hear(SourceOf(l, id), match m
                                    case SourceFailure(_, kind, digest, at) => S.Failure(kind, digest, at)
                                    case SourceSuccess(_, digest) => S.Success(digest)
                                    case SourceDemote(_, config) => S.Ask(config, DueAt(SourceOf(l, id)), true)
                                    case _ => S.Success(None))
  {
    hide SourceFailed, SourceSucceeded;
  }

  /** The circuit of a source is that of the reports about it, so everything proved of a source for every
      sequence of reports holds under every interleaving of writers. */
  lemma {:induction false} SourceIsItsOwn(ms: seq<Mutation>, id: string)
    ensures SourceOf(ApplyAll(FRESH_LEDGER, ms), id) == S.HearAll(ReportsOf(ms, id))
  {
    hide Apply, S.Hear;
    if ms != [] {
      var before, m := ms[..|ms| - 1], ms[|ms| - 1];
      SourceIsItsOwn(before, id);
      var l, reports := ApplyAll(FRESH_LEDGER, before), ReportsOf(ms, id);
      if Concerns(m, id) {
        SourceHears(l, m, id);
        assert reports[..|reports| - 1] == ReportsOf(before, id);
      } else {
        ApplyParts(l, l, m, id);
      }
    }
  }

  // ---------------------------------------------------------------------------
  // What concurrency cannot break
  // ---------------------------------------------------------------------------

  /** No interleaving loses a charge: each hour holds what the committed charges put there since it
      was last forgotten. */
  lemma NoLostCharge(acts: seq<Act>, hour: int)
    ensures WindowOf(Run(acts).disk, hour) == Remembered(ChargesOf(Mutations(Run(acts).log)), hour)
  {
    Linearizable(acts);
    var ms := Mutations(Run(acts).log);
    WindowsAreTheirOwn(ms);
    WindowsRemember(ChargesOf(ms), hour);
  }

  /** A probe that is saved half-opens the circuit exactly when the circuit on disk is then a due
      OPEN, or already half open; one that another writer closed since the unlocked read stays
      closed. */
  lemma ProbeRechecks(acts: seq<Act>, w: WriterId, now: real)
    requires Of(Run(acts), w).Loaded? && Of(Run(acts), w).m == BackendProbe(now)
    ensures var s := Run(acts); var t := Step(s, w, Save);
            && (t.disk.backend.state == HALF_OPEN <==>
                  ProbeDue(s.disk.backend, now) || s.disk.backend.state == HALF_OPEN)
            && (s.disk.backend.state == CLOSED ==> t.disk == s.disk)
  {
    hide Run, ApplyAll;
    Linearizable(acts);
  }

  /** The demotion of a source re-checks less: it half-opens whatever OPEN it then finds under the
      same configuration, one that another writer has just tripped again included, since the time is
      not looked at again. A circuit that was closed meanwhile stays closed. */
  lemma DemoteRechecks(acts: seq<Act>, w: WriterId, id: string, config: string)
    requires Of(Run(acts), w).Loaded? && Of(Run(acts), w).m == SourceDemote(id, config) && id in Run(acts).disk.sources
    ensures var s := Run(acts); var c := s.disk.sources[id]; var t := Step(s, w, Save);
            && id in t.disk.sources
            && (t.disk.sources[id].state == HALF_OPEN <==>
                  c.state == HALF_OPEN || (c.state == OPEN && (c.configDigest.None? || c.configDigest == Some(config))))
            && (c.state == CLOSED ==> t.disk.sources[id] == c)
  {
    hide Run, ApplyAll;
    Linearizable(acts);
  }

  /** In every state any writers can reach, a HALF_OPEN circuit has at least five failures in a row
      behind it. */
  lemma HalfOpenHasStreak(acts: seq<Act>)
    ensures Run(acts).disk.backend.state == HALF_OPEN ==> Run(acts).disk.backend.consecutive >= CIRCUIT_TRIP_THRESHOLD
  {
    Linearizable(acts);
    var ms := Mutations(Run(acts).log);
    BackendIsItsOwn(ms);
    CircuitTracks(SignalsOf(ms));
  }

  // ---------------------------------------------------------------------------
  // One writer's transaction
  // ---------------------------------------------------------------------------

  /** What others commit before each attempt, and whether the fence is taken then. */
  datatype Rivals = Rivals(commits: nat -> seq<Mutation>, busy: nat -> bool)

  function Meanwhile(l: Ledger, rivals: Rivals, attempts: nat): Ledger {
    if attempts == 0 then l else ApplyAll(Meanwhile(l, rivals, attempts - 1), rivals.commits(attempts - 1))
  }

  class LedgerHome {
    var disk: Ledger

    /** Load, mutate and save under the fence, retried a bounded number of times while it is taken. */
    method MutateLedger(m: Mutation, rivals: Rivals) returns (ok: bool, ghost at: nat)
      modifies this
      ensures ok <==> exists n: nat :: n < 50 && !rivals.busy(n)
      ensures ok ==> at < BUDGET_TXN_RETRIES && !rivals.busy(at) && forall n: nat :: n < at ==> rivals.busy(n)
      ensures disk == if ok then Apply(Meanwhile(old(disk), rivals, at + 1), m)
                      else Meanwhile(old(disk), rivals, BUDGET_TXN_RETRIES)
    {
      hide Apply, ApplyAll;
      ok, at := false, 0;
      for attempt := 0 to BUDGET_TXN_RETRIES
        invariant !ok && disk == Meanwhile(old(disk), rivals, attempt)
        invariant forall n: nat :: n < attempt ==> rivals.busy(n)
      {
        disk := ApplyAll(disk, rivals.commits(attempt));
        if !rivals.busy(attempt) {
          var ledger := disk;
          ledger := Apply(ledger, m);
          disk := ledger;
          return true, attempt;
        }
      }
    }
  }
}
