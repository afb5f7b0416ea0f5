/** One slice of the worker: allocate, drive, account, and wait for a due retry when nothing else
    can run. It always ends, within its call, unit and wall budgets.

    Source: `_loop` and `_earliest_retry` of `tools/saipal_analyst/worker.py`. What the allocator
    picks and what a drive comes to are inputs, held only to what the code guarantees of them. */
module SliceLoop {
  import opened Options
  import opened Jobs
  import opened Worker
  import Driver

  type JobId = string

  /** A journal entry, as far as the loop reads it. */
  datatype Entry = Entry(stage: Stage, due: Option<int>)

  type Journal = map<JobId, Entry>

  datatype Note = RetryWaitNote | IdleNote

  datatype Choice = Unit(id: JobId, rebuilt: bool) | Nothing(note: Note)

  /** A drive: its outcome, the model calls it made, and when a waiting unit is due. */
  datatype Driven = Driven(outcome: Outcome, calls: nat, due: int)

  /** One turn of the loop as the outside decides it. */
  datatype Turn = Turn(
    indexOk: bool,
    unbound: set<JobId>,               // units whose binding block the allocator records
    freshBlocks: nat,                  // blocks recorded for units without a job
    choice: Choice,
    driven: nat -> Driven,             // given the calls that are left
    serviceBooked: bool,
    unitBooked: bool,
    elapsed: nat,                      // time a drive takes
    oversleep: nat)                    // time a sleep takes beyond what was asked
  {
    /** What `Worker.UnitDriver.DriveUnit` ensures of a drive, as `DriveUnitTurn` shows: it stays within
        the calls that are left, and waits only after a call. */
    ghost predicate Lawful() {
      forall left :: driven(left).calls <= left && (driven(left).outcome == RetryWait ==> driven(left).calls >= 1)
    }

    predicate Drives() { indexOk && choice.Unit? && choice.rebuilt }
  }

  predicate Waits(e: Entry) { e.stage == RETRY_WAIT && e.due.Some? }

  /** The retries whose time has not come. */
  function Future(jobs: Journal, now: int): set<JobId> {
    set id | id in jobs && Waits(jobs[id]) && jobs[id].due.value > now
  }

  /** The block overwrites the entry of a unit that lost its binding; it never adds a waiting one. */
  function BlockAll(jobs: Journal, unbound: set<JobId>): Journal {
    map id | id in jobs :: if id in unbound then Entry(BLOCKED_BINDING, jobs[id].due) else jobs[id]
  }

  ghost predicate IsEarliest(jobs: Journal, due: Option<int>) {
    match due
    case None => forall id :: id in jobs ==> !Waits(jobs[id])
    case Some(t) =>
      && (exists id :: id in jobs && Waits(jobs[id]) && jobs[id].due.value == t)
      && (forall id :: id in jobs && Waits(jobs[id]) ==> t <= jobs[id].due.value)
  }

  method EarliestRetry(jobs: Journal) returns (due: Option<int>)
    ensures IsEarliest(jobs, due)
  {
    due := None;
    var rest := jobs.Keys;
    ghost var holder: JobId := "";
    while rest != {}
      invariant rest <= jobs.Keys
      invariant due.None? ==> forall id :: id in jobs && id !in rest ==> !Waits(jobs[id])
      invariant due.Some? ==> holder in jobs && Waits(jobs[holder]) && jobs[holder].due == due
      invariant due.Some? ==> forall id :: id in jobs && id !in rest && Waits(jobs[id]) ==>
                  due.value <= jobs[id].due.value
      decreases |rest|
    {
      var id :| id in rest;
      rest := rest - {id};
      if Waits(jobs[id]) && (due.None? || jobs[id].due.value < due.value) {
        due := jobs[id].due;
        holder := id;
      }
    }
  }

  // ---------------------------------------------------------------------------
  // How the waiting set moves
  // ---------------------------------------------------------------------------

  lemma BlockNone(jobs: Journal)
    ensures BlockAll(jobs, {}) == jobs
  {
  }

  /** Recording blocks and letting time pass only shrinks it. */
  lemma FutureShrinks(jobs: Journal, unbound: set<JobId>, now: int, later: int)
    requires now <= later
    ensures Future(BlockAll(jobs, unbound), later) <= Future(jobs, now)
    ensures |Future(BlockAll(jobs, unbound), later)| <= |Future(jobs, now)|
  {
    SubsetSize(Future(BlockAll(jobs, unbound), later), Future(jobs, now));
  }

  /** A sleep to the earliest retry makes at least one retry due. */
  lemma SleepMakesDue(jobs: Journal, due: int, now: int, later: int)
    requires IsEarliest(jobs, Some(due)) && now < due <= later
    ensures |Future(jobs, later)| < |Future(jobs, now)|
  {
    var id :| id in jobs && Waits(jobs[id]) && jobs[id].due.value == due;
    assert id in Future(jobs, now) && id !in Future(jobs, later);
    SubsetSize(Future(jobs, later), Future(jobs, now));
  }

  /** A drive puts at most its own unit into it. */
  lemma DriveAddsOne(jobs: Journal, id: JobId, e: Entry, now: int, later: int)
    requires now <= later
    ensures |Future(jobs[id := e], later)| <= |Future(jobs, now)| + (if e.stage == RETRY_WAIT then 1 else 0)
  {
    var after := Future(jobs[id := e], later);
    assert after - {id} <= Future(jobs, now);
    SubsetSize(after - {id}, Future(jobs, now));
    if id in after {
      assert |after - {id}| == |after| - 1;
    }
  }

  /** A second sleep in a row happens exactly when the allocation between the two blocked every
      retry that had come due, and another one is still ahead within reach. */
  lemma SecondSleepExactly(jobs: Journal, unbound: set<JobId>, woke: int, next: Option<int>)
    requires IsEarliest(BlockAll(jobs, unbound), next)
    ensures next.Some? && next.value > woke <==>
              && Future(jobs, woke) - unbound != {}
              && forall id :: id in jobs && Waits(jobs[id]) && jobs[id].due.value <= woke ==> id in unbound
  {
    var after := BlockAll(jobs, unbound);
    forall id | id in jobs && id !in unbound
      ensures after[id] == jobs[id]
    {
    }
    if next.Some? && next.value > woke {
      var id :| id in after && Waits(after[id]) && after[id].due.value == next.value;
      assert id in Future(jobs, woke) - unbound;
      assert forall k :: k in after && Waits(after[k]) ==> next.value <= after[k].due.value;
      forall k | k in jobs && Waits(jobs[k]) && jobs[k].due.value <= woke
        ensures k in unbound
      {
        assert k in after;
      }
    }
    if Future(jobs, woke) - unbound != {}
       && forall id :: id in jobs && Waits(jobs[id]) && jobs[id].due.value <= woke ==> id in unbound {
      var id :| id in Future(jobs, woke) - unbound;
      assert id in after && Waits(after[id]);
      var t := next.value;
      var k :| k in after && Waits(after[k]) && after[k].due.value == t;
      assert k in jobs && k !in unbound;
    }
  }

  /** So two sleeps in a row are possible: of two waiting units the first loses its binding while
      the loop waits for it. */
  lemma TwoSleepsInARow()
    ensures var jobs: Journal := map["a" := Entry(RETRY_WAIT, Some(5)), "b" := Entry(RETRY_WAIT, Some(9))];
            && IsEarliest(jobs, Some(5))
            && IsEarliest(BlockAll(jobs, {"a"}), Some(9))
  {
    var jobs: Journal := map["a" := Entry(RETRY_WAIT, Some(5)), "b" := Entry(RETRY_WAIT, Some(9))];
    assert "a" in jobs && Waits(jobs["a"]);
    assert "b" in BlockAll(jobs, {"a"}) && Waits(BlockAll(jobs, {"a"})["b"]);
  }

  // ---------------------------------------------------------------------------
  // The slice
  // ---------------------------------------------------------------------------

  datatype StopReason = Error | RetryWaitStop | BlockedStop | BlockedBindingStop | IdleStop | BudgetExhausted | Raised

  /** The stage a drive that settled its unit, or left it waiting, wrote. */
  function StageAfter(outcome: Outcome): (st: Stage)
    requires outcome != BudgetStop && outcome != IllegalMove
    ensures Matches(outcome, st)
  {
    match outcome
    case Done => DONE
    case Blocked => BLOCKED
    case BindingBlocked => BLOCKED_BINDING
    case Stale => STALE
    case RetryWait => RETRY_WAIT
  }

  /** What a slice keeps from turn to turn. */
  datatype State = State(
    jobs: Journal, now: int, mono: nat, units: nat, modelCalls: nat, jobsCompleted: nat, jobsBlocked: nat,
    jobsBlockedBinding: nat, unitsBlockedOutput: nat, unitsBlockedBinding: nat, unitsBooked: nat, slept: nat)

  /** The job waits for a retry that is due ahead of now, no other is due earlier, and the wait is within
      the wall budget that is left. */
  predicate WithinReach(s: State, id: JobId, maxWall: nat) {
    && id in s.jobs && s.jobs[id].stage == RETRY_WAIT && s.jobs[id].due.Some?
    && (forall k :: k in s.jobs && s.jobs[k].stage == RETRY_WAIT && s.jobs[k].due.Some? ==>
          s.jobs[id].due.value <= s.jobs[k].due.value)
    && 0 < s.jobs[id].due.value - s.now <= maxWall - s.mono
  }

  /** Waiting for a retry: the slice sleeps exactly when one is within reach, for exactly as long as it
      takes, and stops otherwise. */
  ghost predicate WaitTurn(b: State, oversleep: nat, maxWall: nat, end: Option<StopReason>, a: State) {
    if end.None? then
      exists id :: WithinReach(b, id, maxWall) &&
        var wait := b.jobs[id].due.value - b.now;
        a == b.(now := b.now + wait + oversleep, mono := b.mono + wait + oversleep, slept := b.slept + wait)
    else end == Some(RetryWaitStop) && a == b && forall id :: !WithinReach(b, id, maxWall)
  }

  /** Driving a unit: the journal, the counters, and whether the slice goes on. */
  predicate UnitTurn(b: State, id: JobId, t: Turn, maxCalls: nat, end: Option<StopReason>, a: State)
    requires b.modelCalls <= maxCalls
  {
    var d := t.driven(maxCalls - b.modelCalls);
    var o := d.outcome;
    var broken := o == BudgetStop || o == IllegalMove;
    var settled := !broken && o != RetryWait && (o == Done ==> t.serviceBooked);
    var booked := settled && t.unitBooked;
    && end == (if o == BudgetStop then Some(BudgetExhausted)
               else if o == IllegalMove then Some(Raised)
               else if o == Done && !t.serviceBooked then Some(Error)
               else if o == RetryWait || t.unitBooked then None
               else Some(BudgetExhausted))
    && a == b.(
      jobs := if broken then b.jobs else b.jobs[id := Entry(StageAfter(o), Some(d.due))],
      now := b.now + t.elapsed, mono := b.mono + t.elapsed,
      modelCalls := b.modelCalls + d.calls,
      jobsCompleted := b.jobsCompleted + (if o == Done then 1 else 0),
      jobsBlocked := b.jobsBlocked + (if o == Blocked then 1 else 0),
      jobsBlockedBinding := b.jobsBlockedBinding + (if o == BindingBlocked then 1 else 0),
      units := b.units + (if settled then 1 else 0),
      unitsBooked := b.unitsBooked + (if booked then 1 else 0),
      unitsBlockedOutput := b.unitsBlockedOutput + (if booked && o == Blocked then 1 else 0),
      unitsBlockedBinding := b.unitsBlockedBinding + (if booked && o == BindingBlocked then 1 else 0))
  }

  /** One turn of the loop. */
  ghost predicate TurnTaken(b: State, t: Turn, maxCalls: nat, maxWall: nat, end: Option<StopReason>, a: State)
    requires b.modelCalls <= maxCalls
  {
    if !t.indexOk then end == Some(Error) && a == b
    else
      var c := b.(jobs := BlockAll(b.jobs, t.unbound), jobsBlockedBinding := b.jobsBlockedBinding + t.freshBlocks);
      match t.choice
      case Nothing(RetryWaitNote) => WaitTurn(c, t.oversleep, maxWall, end, a)
      case Nothing(IdleNote) =>
        a == c && end == Some(if c.jobsBlocked + c.jobsBlockedBinding > 0 then BlockedStop else IdleStop)
      case Unit(id, rebuilt) =>
        if rebuilt then UnitTurn(c, id, t, maxCalls, end, a) else end == Some(Error) && a == c
  }

  /** The states of a slice, turn by turn: it goes on while units are left and no turn ends it, and its stop
      reason is that of the turn that did, or says what was achieved within the unit budget. */
  ghost predicate Trace(states: seq<State>, turns: nat -> Turn, limit: nat, maxCalls: nat, maxWall: nat,
          stop: StopReason)
  {
    && states != []
    && (forall i :: 0 <= i < |states| ==> states[i].modelCalls <= maxCalls)
    && (forall i :: 0 <= i < |states| - 2 ==> GoesOn(states, turns, limit, maxCalls, maxWall, i))
    && var n := |states| - 1;
       || (states[n].units >= limit && stop == Achieved(states[n])
           && (n > 0 ==> GoesOn(states, turns, limit, maxCalls, maxWall, n - 1)))
       || (n > 0 && states[n - 1].units < limit
           && TurnTaken(states[n - 1], turns(n - 1), maxCalls, maxWall, Some(stop), states[n]))
  }

  ghost predicate GoesOn(states: seq<State>, turns: nat -> Turn, limit: nat, maxCalls: nat, maxWall: nat, i: nat)
    requires i + 1 < |states| && states[i].modelCalls <= maxCalls
  {
    states[i].units < limit && TurnTaken(states[i], turns(i), maxCalls, maxWall, None, states[i + 1])
  }

  /** When a wait is over: the slice sleeps exactly when some job waits and the earliest retry lies ahead of
      now and within the wall budget left; then it wakes past that retry, having asked for exactly the
      wait, and changes nothing else. */
  lemma WaitTurnMeans(b: State, oversleep: nat, maxWall: nat, end: Option<StopReason>, a: State, due: Option<int>)
    requires WaitTurn(b, oversleep, maxWall, end, a)
    requires due.None? ==> forall id :: id in b.jobs && b.jobs[id].stage == RETRY_WAIT ==> b.jobs[id].due.None?
    requires due.Some? ==>
               && (exists id :: id in b.jobs && b.jobs[id].stage == RETRY_WAIT && b.jobs[id].due == due)
               && forall id :: id in b.jobs && b.jobs[id].stage == RETRY_WAIT && b.jobs[id].due.Some? ==>
                    due.value <= b.jobs[id].due.value
    ensures end == if due.Some? && 0 < due.value - b.now <= maxWall - b.mono then None else Some(RetryWaitStop)
    ensures end.None? ==>
              && a.now == due.value + oversleep && a.slept == b.slept + (due.value - b.now)
              && a.mono == b.mono + (due.value - b.now) + oversleep
              && a == b.(now := a.now, mono := a.mono, slept := a.slept)
    ensures end.Some? ==> a == b
  {
    if end.None? {
      var id :| WithinReach(b, id, maxWall) && a.slept == b.slept + (b.jobs[id].due.value - b.now) &&
        a == b.(now := b.jobs[id].due.value + oversleep, mono := b.mono + (b.jobs[id].due.value - b.now) + oversleep,
                slept := b.slept + (b.jobs[id].due.value - b.now));
    } else if due.Some? {
      var id :| id in b.jobs && b.jobs[id].stage == RETRY_WAIT && b.jobs[id].due == due;
      assert !WithinReach(b, id, maxWall);
    }
  }

  /** What a drive leaves of the slice, outcome by outcome. A drive that stops early touches no entry and
      ends the slice; a wait goes on without a unit; anything else is a unit, and must be charged. */
  lemma UnitTurnMeans(b: State, id: JobId, t: Turn, maxCalls: nat, end: Option<StopReason>, a: State)
    requires b.modelCalls <= maxCalls && UnitTurn(b, id, t, maxCalls, end, a)
    ensures var d := t.driven(maxCalls - b.modelCalls);
            && a.modelCalls == b.modelCalls + d.calls && a.slept == b.slept
            && a.now == b.now + t.elapsed && a.mono == b.mono + t.elapsed
            && a.jobsCompleted == b.jobsCompleted + (if d.outcome == Done then 1 else 0)
            && a.jobsBlocked == b.jobsBlocked + (if d.outcome == Blocked then 1 else 0)
            && a.jobsBlockedBinding == b.jobsBlockedBinding + (if d.outcome == BindingBlocked then 1 else 0)
            && (d.outcome == BudgetStop ==> end == Some(BudgetExhausted) && a.jobs == b.jobs)
            && (d.outcome == IllegalMove ==> end == Some(Raised) && a.jobs == b.jobs)
            && (d.outcome != BudgetStop && d.outcome != IllegalMove ==>
                  a.jobs == b.jobs[id := Entry(match d.outcome
                                               case Done => DONE
                                               case Blocked => BLOCKED
                                               case BindingBlocked => BLOCKED_BINDING
                                               case Stale => STALE
                                               case RetryWait => RETRY_WAIT, Some(d.due))])
            && (d.outcome == RetryWait ==> end == None)
            && (d.outcome == Done && !t.serviceBooked ==> end == Some(Error))
            && var unit := d.outcome in {Blocked, BindingBlocked, Stale} || (d.outcome == Done && t.serviceBooked);
            && a.units == b.units + (if unit then 1 else 0)
            && a.unitsBooked == b.unitsBooked + (if unit && t.unitBooked then 1 else 0)
            && (unit ==> end == if t.unitBooked then None else Some(BudgetExhausted))
            && a.unitsBlockedOutput == b.unitsBlockedOutput + (if d.outcome == Blocked && t.unitBooked then 1 else 0)
            && a.unitsBlockedBinding
               == b.unitsBlockedBinding + (if d.outcome == BindingBlocked && t.unitBooked then 1 else 0)
  {
  }

  /** What a turn comes to: an index that cannot be read or a packet that is not rebuilt is an error; the
      allocator's blocks are recorded first, each over its unit's stage; with nothing to do the slice
      waits, or stops as blocked when anything was blocked and as idle when not. */
  lemma TurnTakenMeans(b: State, t: Turn, maxCalls: nat, maxWall: nat, end: Option<StopReason>, a: State)
    requires b.modelCalls <= maxCalls && TurnTaken(b, t, maxCalls, maxWall, end, a)
    ensures !t.indexOk ==> end == Some(Error) && a == b
    ensures t.indexOk ==>
              exists c: State ::
                && c == b.(jobs := c.jobs, jobsBlockedBinding := b.jobsBlockedBinding + t.freshBlocks)
                && c.jobs.Keys == b.jobs.Keys
                && (forall id :: id in b.jobs ==>
                      c.jobs[id] == if id in t.unbound then Entry(BLOCKED_BINDING, b.jobs[id].due) else b.jobs[id])
                && (t.choice == Nothing(RetryWaitNote) ==> WaitTurn(c, t.oversleep, maxWall, end, a))
                && (t.choice == Nothing(IdleNote) ==>
                      a == c && end == Some(if c.jobsBlocked > 0 || c.jobsBlockedBinding > 0 then BlockedStop
                                            else IdleStop))
                && (t.choice.Unit? && t.choice.rebuilt ==> UnitTurn(c, t.choice.id, t, maxCalls, end, a))
                && (t.choice.Unit? && !t.choice.rebuilt ==> end == Some(Error) && a == c)
  {
    hide WaitTurn, UnitTurn;
    if t.indexOk {
      var c := b.(jobs := BlockAll(b.jobs, t.unbound), jobsBlockedBinding := b.jobsBlockedBinding + t.freshBlocks);
      assert c.jobs.Keys == b.jobs.Keys;
    }
  }

  /** The states of a slice are one turn apart, each taken with units left; no turn but the last ends the
      slice, and if that does not, the units are used up. */
  lemma TraceMeans(states: seq<State>, turns: nat -> Turn, limit: nat, maxCalls: nat, maxWall: nat, stop: StopReason)
    requires Trace(states, turns, limit, maxCalls, maxWall, stop)
    ensures states != [] && forall i :: 0 <= i < |states| ==> states[i].modelCalls <= maxCalls
    ensures forall i :: 0 <= i < |states| - 1 ==> states[i].units < limit
    ensures forall i :: 0 <= i < |states| - 2 ==>
              TurnTaken(states[i], turns(i), maxCalls, maxWall, None, states[i + 1])
    ensures var n := |states| - 1;
            || (n > 0 && TurnTaken(states[n - 1], turns(n - 1), maxCalls, maxWall, Some(stop), states[n]))
            || (&& states[n].units >= limit
                && (n > 0 ==> TurnTaken(states[n - 1], turns(n - 1), maxCalls, maxWall, None, states[n]))
                && stop == if states[n].jobsCompleted == 0 && states[n].unitsBlockedOutput > 0 then BlockedStop
                           else if states[n].jobsCompleted == 0 && states[n].unitsBlockedBinding > 0
                           then BlockedBindingStop
                           else BudgetExhausted)
  {
    hide TurnTaken;
    forall i | 0 <= i < |states| - 2
      ensures states[i].units < limit && TurnTaken(states[i], turns(i), maxCalls, maxWall, None, states[i + 1])
    {
      assert GoesOn(states, turns, limit, maxCalls, maxWall, i);
    }
  }

  /** A run that judged nothing because its units were blocked does not read like a budget stop. */
  function Achieved(s: State): StopReason {
    if s.jobsCompleted > 0 || s.unitsBlockedOutput + s.unitsBlockedBinding == 0 then BudgetExhausted
    else if s.unitsBlockedOutput > 0 then BlockedStop
    else BlockedBindingStop
  }

  /** A drive of a unit as the loop sees it: what `DriveUnit` ensures is what the loop asks. */
  method AsDriven(unit: UnitDriver, env: Surroundings, due: int) returns (driven: Driven)
    requires unit.Valid() && unit.sys.pc.Down? && Driver.Selectable(unit.disk.stage)
    modifies unit
    ensures unit.Valid() && unit.sys.pc.Down? && Matches(driven.outcome, unit.disk.stage)
    ensures unit.modelCalls == old(unit.modelCalls) + driven.calls
    ensures driven.calls <= unit.maxCalls - old(unit.modelCalls)
    ensures driven.outcome == RetryWait ==> driven.calls >= 1
  {
    hide Matches;
    var before := unit.modelCalls;
    var outcome := unit.DriveUnit(env);
    driven := Driven(outcome, unit.modelCalls - before, due);
  }

  class Slice {
    var jobs: Journal
    var now: int                       // wall clock
    var mono: nat                      // monotonic clock, from the start of the slice
    var units: nat
    var modelCalls: nat
    var jobsCompleted: nat
    var jobsBlocked: nat
    var jobsBlockedBinding: nat
    var unitsBlockedOutput: nat
    var unitsBlockedBinding: nat
    var unitsBooked: nat               // semantic units charged to the durable ledger
    ghost var sleeps: nat
    ghost var slept: nat
    ghost var retries: nat

    constructor (jobs: Journal, now: int)
      ensures this.jobs == jobs && this.now == now && Fresh()
    {
      this.jobs, this.now, mono := jobs, now, 0;
      units, modelCalls, jobsCompleted, jobsBlocked, jobsBlockedBinding := 0, 0, 0, 0, 0;
      unitsBlockedOutput, unitsBlockedBinding, unitsBooked := 0, 0, 0;
      sleeps, slept, retries := 0, 0, 0;
    }

    ghost function Now(): State
      reads this
    {
      State(jobs, now, mono, units, modelCalls, jobsCompleted, jobsBlocked, jobsBlockedBinding,
            unitsBlockedOutput, unitsBlockedBinding, unitsBooked, slept)
    }

    ghost predicate Fresh()
      reads this
    {
      && mono == 0 && units == 0 && modelCalls == 0 && jobsCompleted == 0 && jobsBlocked == 0 && jobsBlockedBinding == 0
      && unitsBlockedOutput == 0 && unitsBlockedBinding == 0 && unitsBooked == 0
      && sleeps == 0 && slept == 0 && retries == 0
    }

    /** What holds at every turn: every budget so far, and one waiting unit freed per sleep. */
    ghost predicate Within(waiting: nat, limit: nat, maxCalls: nat, maxWall: nat)
      reads this
    {
      && units <= limit && modelCalls <= maxCalls && unitsBooked == units
      && slept <= mono && slept <= maxWall
      && retries <= modelCalls
      && sleeps + |Future(jobs, now)| <= waiting + retries
      && jobsCompleted + unitsBlockedOutput + unitsBlockedBinding <= units
    }

    /** How the slice stands when it stops. */
    ghost predicate Stops(stop: StopReason, waiting: nat, limit: nat, maxCalls: nat, maxWall: nat)
      reads this
    {
      && units <= limit && modelCalls <= maxCalls && slept <= maxWall
      && (unitsBooked == units || (unitsBooked + 1 == units && stop == BudgetExhausted))
      && retries <= modelCalls && sleeps <= waiting + retries
      && jobsCompleted + unitsBlockedOutput + unitsBlockedBinding <= units + (if stop == Error then 1 else 0)
      && (stop == RetryWaitStop ==> forall id :: !WithinReach(Now(), id, maxWall))
      && (stop == IdleStop ==> jobsBlocked + jobsBlockedBinding == 0)
      && (stop == BlockedStop ==>
            jobsBlocked + jobsBlockedBinding > 0 || (units == limit && jobsCompleted == 0 && unitsBlockedOutput > 0))
      && (stop == BlockedBindingStop ==>
            units == limit && jobsCompleted == 0 && unitsBlockedOutput == 0 && unitsBlockedBinding > 0)
    }

    /** The loop always ends: every turn settles a unit, spends a call, or makes a retry due. When
        it does, model calls, units and requested sleep are within their budgets, every settled
        unit but the last has its durable charge, and the loop slept at most once per unit that
        was waiting or came to wait. */
    method Run(limit: nat, maxCalls: nat, maxWall: nat, turns: nat -> Turn)
      returns (stop: StopReason, ghost states: seq<State>)
      requires Fresh() && forall n :: turns(n).Lawful()
      modifies this
      ensures Stops(stop, |Future(old(jobs), old(now))|, limit, maxCalls, maxWall)
      ensures Trace(states, turns, limit, maxCalls, maxWall, stop)
      ensures states[0] == old(Now()) && states[|states| - 1] == Now()
    {
      hide Future, BlockAll, IsEarliest, Waits, TurnTaken, WithinReach;
      ghost var waiting := |Future(jobs, now)|;
      var n := 0;
      states := [Now()];
      while units < limit
        invariant Within(waiting, limit, maxCalls, maxWall)
        invariant |states| == n + 1 && states[0] == old(Now()) && states[n] == Now()
        invariant forall i :: 0 <= i < |states| ==> states[i].modelCalls <= maxCalls
        invariant forall i :: 0 <= i < n ==> GoesOn(states, turns, limit, maxCalls, maxWall, i)
        decreases limit - units, maxCalls - modelCalls, |Future(jobs, now)|
      {
        var turn := turns(n);
        n := n + 1;
        var end := TakeTurn(turn, maxCalls, maxWall, waiting, limit);
        ghost var before := states;
        states := states + [Now()];
        forall i | 0 <= i < n - 1
          ensures GoesOn(states, turns, limit, maxCalls, maxWall, i)
        {
          assert GoesOn(before, turns, limit, maxCalls, maxWall, i);
        }
        if end.Some? {
          return end.value, states;
        }
      }
      stop := AtLimit();
    }

    /** A turn moved the slice on. */
    twostate predicate Moved()
      reads this
    {
      || units > old(units)
      || (units == old(units) && modelCalls > old(modelCalls))
      || (units == old(units) && modelCalls == old(modelCalls) && |Future(jobs, now)| < old(|Future(jobs, now)|))
    }

    method TakeTurn(turn: Turn, maxCalls: nat, maxWall: nat, ghost waiting: nat, ghost limit: nat)
      returns (end: Option<StopReason>)
      requires Within(waiting, limit, maxCalls, maxWall) && units < limit && turn.Lawful()
      modifies this
      ensures if end.None? then Within(waiting, limit, maxCalls, maxWall) && Moved()
              else Stops(end.value, waiting, limit, maxCalls, maxWall)
      ensures old(modelCalls) <= maxCalls && TurnTaken(old(Now()), turn, maxCalls, maxWall, end, Now())
    {
      hide Future, BlockAll, IsEarliest, Waits, WithinReach, StageAfter, UnitTurn;
      if !turn.indexOk {
        return Some(Error);
      }
      FutureShrinks(jobs, turn.unbound, now, now);
      jobs := BlockAll(jobs, turn.unbound);
      jobsBlockedBinding := jobsBlockedBinding + turn.freshBlocks;
      match turn.choice {
        case Nothing(RetryWaitNote) =>
          end := Await(turn.oversleep, maxWall);
        case Nothing(IdleNote) =>
          end := Some(if jobsBlockedBinding + jobsBlocked > 0 then BlockedStop else IdleStop);
        case Unit(id, rebuilt) =>
          if !rebuilt {
            return Some(Error);
          }
          end := DriveAndBook(id, turn, maxCalls, waiting, limit, maxWall);
      }
    }

    /** Nothing else is eligible: sleep to the earliest retry if it is within the wall budget. */
    method Await(oversleep: nat, maxWall: nat) returns (end: Option<StopReason>)
      requires slept <= mono
      modifies this`now, this`mono, this`sleeps, this`slept
      ensures WaitTurn(old(Now()), oversleep, maxWall, end, Now())
      ensures if end.Some? then unchanged(this)
              else && sleeps == old(sleeps) + 1 && slept <= mono && (old(slept) <= maxWall ==> slept <= maxWall)
                   && |Future(jobs, now)| < |Future(jobs, old(now))|
    {
      hide Future;
      var due := EarliestRetry(jobs);
      if due.Some? && 0 < due.value - now <= maxWall - mono {
        ghost var id :| id in jobs && Waits(jobs[id]) && jobs[id].due.value == due.value;
        assert WithinReach(Now(), id, maxWall);
        SleepMakesDue(jobs, due.value, now, due.value + oversleep);
        slept, sleeps := slept + (due.value - now), sleeps + 1;
        mono := mono + (due.value - now) + oversleep;
        now := due.value + oversleep;
        return None;
      }
      return Some(RetryWaitStop);
    }

    /** Drive the chosen unit; a settled one is charged before the next turn, or the slice stops. */
    method DriveAndBook(id: JobId, turn: Turn, maxCalls: nat, ghost waiting: nat, ghost limit: nat, ghost maxWall: nat)
      returns (end: Option<StopReason>)
      requires Within(waiting, limit, maxCalls, maxWall) && turn.Lawful() && units < limit
      modifies this
      ensures if end.None? then Within(waiting, limit, maxCalls, maxWall)
                                && (units > old(units) || modelCalls > old(modelCalls))
              else Stops(end.value, waiting, limit, maxCalls, maxWall)
      ensures units >= old(units) && old(modelCalls) <= maxCalls
      ensures UnitTurn(old(Now()), id, turn, maxCalls, end, Now())
    {
      hide Future, BlockAll, IsEarliest, Waits;
      var outcome := DriveChosen(id, turn, maxCalls, waiting, limit, maxWall);
      if outcome == BudgetStop {
        return Some(BudgetExhausted);
      }
      if outcome == IllegalMove {
        return Some(Raised);
      }
      if outcome == Done && !turn.serviceBooked {
        return Some(Error);
      }
      if outcome == RetryWait {
        return None;
      }
      units := units + 1;
      if !turn.unitBooked {
        return Some(BudgetExhausted);
      }
      unitsBooked := unitsBooked + 1;
      CountBlock(outcome);
      return None;
    }

    /** One drive and its traces in the journal and the counters. */
    method DriveChosen(id: JobId, turn: Turn, maxCalls: nat, ghost waiting: nat, ghost limit: nat, ghost maxWall: nat)
      returns (outcome: Outcome)
      requires Within(waiting, limit, maxCalls, maxWall) && turn.Lawful() && units < limit
      modifies this
      ensures units == old(units) && unitsBooked == units && slept == old(slept) <= mono && slept <= maxWall
      ensures sleeps == old(sleeps)
      ensures var d := turn.driven(maxCalls - old(modelCalls));
              && outcome == d.outcome && modelCalls == old(modelCalls) + d.calls
              && jobs == (if outcome == BudgetStop || outcome == IllegalMove then old(jobs)
                          else old(jobs)[id := Entry(StageAfter(outcome), Some(d.due))])
      ensures now == old(now) + turn.elapsed && mono == old(mono) + turn.elapsed
      ensures jobsBlocked == old(jobsBlocked) + (if outcome == Blocked then 1 else 0)
      ensures jobsBlockedBinding == old(jobsBlockedBinding) + (if outcome == BindingBlocked then 1 else 0)
      ensures old(modelCalls) <= modelCalls <= maxCalls && retries <= modelCalls
      ensures sleeps + |Future(jobs, now)| <= waiting + retries
      ensures outcome == RetryWait ==> modelCalls > old(modelCalls)
      ensures jobsCompleted == old(jobsCompleted) + (if outcome == Done then 1 else 0)
      ensures unitsBlockedOutput == old(unitsBlockedOutput) && unitsBlockedBinding == old(unitsBlockedBinding)
    {
      hide Future, BlockAll, IsEarliest, Waits;
      var driven := turn.driven(maxCalls - modelCalls);
      outcome := driven.outcome;
      modelCalls := modelCalls + driven.calls;
      Journalise(id, outcome, driven.due, turn.elapsed);
      if outcome == RetryWait {
        retries := retries + 1;
      } else if outcome == Done {
        jobsCompleted := jobsCompleted + 1;
      } else if outcome == Blocked {
        jobsBlocked := jobsBlocked + 1;
      } else if outcome == BindingBlocked {
        jobsBlockedBinding := jobsBlockedBinding + 1;
      }
    }

    /** A drive that stops early leaves the entry where its last write left it. */
    method Journalise(id: JobId, outcome: Outcome, due: int, elapsed: nat)
      modifies this`jobs, this`now, this`mono
      ensures |Future(jobs, now)| <= old(|Future(jobs, now)|) + (if outcome == RetryWait then 1 else 0)
      ensures mono == old(mono) + elapsed && now == old(now) + elapsed
      ensures jobs == if outcome == BudgetStop || outcome == IllegalMove then old(jobs)
                      else old(jobs)[id := Entry(StageAfter(outcome), Some(due))]
    {
      hide Future, BlockAll, Waits;
      if outcome == BudgetStop || outcome == IllegalMove {
        FutureShrinks(jobs, {}, now, now + elapsed);
        BlockNone(jobs);
      } else {
        var entry := Entry(StageAfter(outcome), Some(due));
        DriveAddsOne(jobs, id, entry, now, now + elapsed);
        jobs := jobs[id := entry];
      }
      now, mono := now + elapsed, mono + elapsed;
    }

    method CountBlock(outcome: Outcome)
      modifies this`unitsBlockedOutput, this`unitsBlockedBinding
      ensures unitsBlockedOutput == old(unitsBlockedOutput) + (if outcome == Blocked then 1 else 0)
      ensures unitsBlockedBinding == old(unitsBlockedBinding) + (if outcome == BindingBlocked then 1 else 0)
    {
      if outcome == Blocked {
        unitsBlockedOutput := unitsBlockedOutput + 1;
      } else if outcome == BindingBlocked {
        unitsBlockedBinding := unitsBlockedBinding + 1;
      }
    }

    /** One turn that drives a unit of the journal with the slice's own call budget: nothing is asked of
        the drive, and the slice and the unit's driver count the same calls. */
    method DriveUnitTurn(turn: Turn, unit: UnitDriver, env: Surroundings, due: int,
            maxCalls: nat, maxWall: nat, ghost waiting: nat, ghost limit: nat)
      returns (end: Option<StopReason>)
      requires Within(waiting, limit, maxCalls, maxWall) && units < limit && turn.Drives()
      requires unit.Valid() && unit.sys.pc.Down? && Driver.Selectable(unit.disk.stage)
      requires unit.maxCalls == maxCalls && unit.modelCalls == modelCalls
      modifies this, unit
      ensures if end.None? then Within(waiting, limit, maxCalls, maxWall) && Moved()
              else Stops(end.value, waiting, limit, maxCalls, maxWall)
      ensures unit.Valid() && unit.sys.pc.Down? && unit.modelCalls == modelCalls
    {
      var driven := AsDriven(unit, env, due);
      var left := maxCalls - modelCalls;
      var drives := (n: nat) => if n == left then driven else Driven(BudgetStop, 0, 0);
      end := TakeTurn(turn.(driven := drives), maxCalls, maxWall, waiting, limit);
    }

    method AtLimit() returns (stop: StopReason)
      ensures stop == Achieved(Now())
    {
      if jobsCompleted == 0 && (unitsBlockedOutput > 0 || unitsBlockedBinding > 0) {
        return if unitsBlockedOutput > 0 then BlockedStop else BlockedBindingStop;
      }
      return BudgetExhausted;
    }
  }
}
