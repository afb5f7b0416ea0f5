/** The hourly windows stand in for the whole charge history: what they keep of it, when that is
    everything, and why the hourly limit holds.

    Source: `_window`, `record_consumption`, `budget_allows` of `tools/saipal_analyst/budgets.py`. */
module Budgets {
  import opened Options
  import opened Ledger

  lemma CurrentKept(l: Ledger, now: real)
    ensures var kept := Recent(l.windows, now);
            WindowOf(l, Hour(now)) == if Hour(now) in kept then kept[Hour(now)] else ZERO
  {
    hide Hour;
  }

  /** A charge moves the mark, the freeze and the two hours it keeps, and nothing else. */
  lemma ChargedExactly(l: Ledger, now: real, c: Counts)
    ensures var d := Charged(l, now, c); d.backend == l.backend && d.sources == l.sources
    ensures var d := Charged(l, now, c);
            var seen := l.lastSeen;
            && d.lastSeen == Some(if seen.None? || seen.value == 0.0 || now >= seen.value then now else seen.value)
            && (d.freeze <==>
                  seen.Some? && (now < seen.value - 5.0 || (l.freeze && now <= seen.value)))
    ensures var d := Charged(l, now, c);
            var hour := (now / 3600.0).Floor;
            && (forall h :: h in d.windows <==> h == hour || (h == hour - 1 && h in l.windows))
            && (hour - 1 in d.windows ==> d.windows[hour - 1] == l.windows[hour - 1])
    ensures var d := Charged(l, now, c);
            var hour := (now / 3600.0).Floor;
            var was := if hour in l.windows then l.windows[hour] else Counts(0, 0, 0, 0);
            && hour in d.windows
            && d.windows[hour].attempts == was.attempts + c.attempts
            && d.windows[hour].units == was.units + c.units
            && d.windows[hour].inputTokens == was.inputTokens + c.inputTokens
            && d.windows[hour].outputTokens == was.outputTokens + c.outputTokens
  {
  }

  /** The current and the previous hour are kept, the current one with nothing charged if it is new. */
  lemma WindowExactly(l: Ledger, now: real)
    ensures var windows, hour := Recent(l.windows, now)[Hour(now) := WindowOf(l, Hour(now))], (now / 3600.0).Floor;
            && (forall h :: h in windows <==> h == hour || (h == hour - 1 && h in l.windows))
            && (forall h :: h in windows ==>
                  windows[h] == if h in l.windows then l.windows[h] else Counts(0, 0, 0, 0))
  {
  }

  class LedgerFile {
    var disk: Ledger

    /** Keep at most the current and the previous hour. */
    method Window(now: real)
      modifies this
      ensures disk == old(disk).(windows := disk.windows)
      ensures disk.windows == Recent(old(disk).windows, now)[Hour(now) := WindowOf(old(disk), Hour(now))]
    {
      var current, previous := Hour(now), Hour(now) - 1;
      var windows := disk.windows;
      while exists h :: h in windows && h != current && h != previous
        invariant windows.Keys <= disk.windows.Keys
        invariant forall h :: h in disk.windows && (h == current || h == previous) ==> h in windows
        invariant forall h :: h in windows ==> windows[h] == disk.windows[h]
        decreases |windows|
      {
        var h :| h in windows && h != current && h != previous;
        windows := windows - {h};
      }
      assert windows == Recent(disk.windows, now);
      if current !in windows {
        windows := windows[current := ZERO];
      }
      disk := disk.(windows := windows);
    }

    /** Charge the durable window: one transport attempt is one charge. */
    method RecordConsumption(now: real, c: Counts)
      modifies this
      ensures disk == Charged(old(disk), now, c)
    {
      hide Recent, Hour, Plus;
      CurrentKept(disk, now);
      var seen := disk.lastSeen;
      if seen.Some? && now < seen.value - CLOCK_SKEW_SECONDS {
        disk := disk.(freeze := true);
      } else if disk.freeze && Recovered(disk, now) {
        disk := disk.(freeze := false);
      }
      var mark := if seen.Some? && seen.value != 0.0 then seen.value else now;
      disk := disk.(lastSeen := Some(Max(now, mark)));
      Window(now);
      var hour := Hour(now);
      disk := disk.(windows := disk.windows[hour := Plus(disk.windows[hour], c)]);
    }
  }

  // ---------------------------------------------------------------------------
  // What a window remembers
  // ---------------------------------------------------------------------------

  datatype Entry = Entry(at: real, counts: Counts)

  function Book(l: Ledger, history: seq<Entry>): Ledger {
    if history == [] then l
    else var last := history[|history| - 1]; Charged(Book(l, history[..|history| - 1]), last.at, last.counts)
  }

  /** The full history of an hour. */
  function Total(history: seq<Entry>, hour: int): Counts {
    if history == [] then ZERO
    else
      var last := history[|history| - 1];
      var before := Total(history[..|history| - 1], hour);
      if Hour(last.at) == hour then Plus(before, last.counts) else before
  }

  /** A charge at another hour than this one or the next forgets the hour. */
  predicate Forgets(at: real, hour: int) { Hour(at) != hour && Hour(at) != hour + 1 }

  /** The history of an hour since it was last forgotten. */
  function Remembered(history: seq<Entry>, hour: int): Counts {
    if history == [] then ZERO
    else
      var last := history[|history| - 1];
      if Forgets(last.at, hour) then ZERO
      else
        var before := Remembered(history[..|history| - 1], hour);
        if Hour(last.at) == hour then Plus(before, last.counts) else before
  }

  /** For every history and any clock: a window holds the charges of its hour since the last charge
      at an hour other than it and the next, and at most two hours are held. */
  lemma {:induction false} WindowsRemember(history: seq<Entry>, hour: int)
    ensures var l := Book(FRESH_LEDGER, history);
            && WindowOf(l, hour) == Remembered(history, hour)
            && |l.windows| <= 2
  {
    if history != [] {
      var before, last := history[..|history| - 1], history[|history| - 1];
      WindowsRemember(before, hour);
      var l := Book(FRESH_LEDGER, history);
      AtMostTwo(l.windows, Hour(last.at));
    }
  }

  lemma AtMostTwo(windows: map<int, Counts>, hour: int)
    requires forall h :: h in windows.Keys ==> h == hour || h == hour - 1
    ensures |windows| <= 2
  {
    forall h: int | h in windows.Keys
      ensures h in {hour, hour - 1}
    {
      assert h == hour || h == hour - 1;
    }
    SubsetSize(windows.Keys, {hour, hour - 1});
  }

  /** The hour lost nothing: every charge it took before it was last forgotten was zero. */
  lemma {:induction false} RemembersAllExactly(history: seq<Entry>, hour: int)
    ensures Remembered(history, hour) == Total(history, hour) <==>
              forall i :: 0 <= i < |history| && Forgets(history[i].at, hour) ==> Total(history[..i], hour) == ZERO
  {
    if history != [] {
      var n := |history| - 1;
      var before, last := history[..n], history[n];
      RemembersAllExactly(before, hour);
      forall i | 0 <= i < n
        ensures before[..i] == history[..i] && before[i] == history[i]
      {
      }
      TotalsGrow(history, hour);
      if Forgets(last.at, hour) {
        assert Total(history, hour) == Total(history[..n], hour);
        if Total(history, hour) == ZERO {
          forall i | 0 <= i < |history|
            ensures Total(history[..i], hour) == ZERO
          {
          }
        }
      }
    }
  }

  predicate AtMost(a: Counts, b: Counts) {
    a.attempts <= b.attempts && a.units <= b.units && a.inputTokens <= b.inputTokens && a.outputTokens <= b.outputTokens
  }

  lemma {:induction false} TotalsGrow(history: seq<Entry>, hour: int)
    ensures forall i :: 0 <= i <= |history| ==> AtMost(Total(history[..i], hour), Total(history, hour))
  {
    if history == [] {
    } else {
      var before := history[..|history| - 1];
      TotalsGrow(before, hour);
      forall i | 0 <= i <= |history|
        ensures AtMost(Total(history[..i], hour), Total(history, hour))
      {
        if i < |history| {
          assert before[..i] == history[..i];
        } else {
          assert history[..i] == history;
        }
      }
    }
  }

  predicate Monotone(history: seq<Entry>) {
    forall i, j :: 0 <= i <= j < |history| ==> history[i].at <= history[j].at
  }

  /** An hour is the 3600 seconds from its start on. */
  lemma HourExactly(now: real, hour: int)
    ensures Hour(now) == hour <==> 3600.0 * (hour as real) <= now < 3600.0 * (hour as real + 1.0)
  {
    var q := now / 3600.0;
    assert q * 3600.0 == now;
    assert Hour(now) as real <= q < Hour(now) as real + 1.0;
  }

  lemma HourMonotone(a: real, b: real)
    requires a <= b
    ensures Hour(a) <= Hour(b)
  {
  }

  lemma {:induction false} NothingLater(history: seq<Entry>, hour: int)
    requires forall i :: 0 <= i < |history| ==> Hour(history[i].at) < hour
    ensures Total(history, hour) == ZERO
  {
    if history != [] {
      NothingLater(history[..|history| - 1], hour);
    }
  }

  /** Under a clock that never steps back, the windows of the last charged hour and the one before
      are the full history of those hours. */
  lemma WindowsRefineHistory(history: seq<Entry>, hour: int)
    requires Monotone(history) && history != []
    requires hour == Hour(history[|history| - 1].at) || hour == Hour(history[|history| - 1].at) - 1
    ensures WindowOf(Book(FRESH_LEDGER, history), hour) == Total(history, hour)
  {
    WindowsRemember(history, hour);
    forall i | 0 <= i < |history| && Forgets(history[i].at, hour)
      ensures Total(history[..i], hour) == ZERO
    {
      HourMonotone(history[i].at, history[|history| - 1].at);
      forall k | 0 <= k < i
        ensures Hour(history[..i][k].at) < hour
      {
        HourMonotone(history[k].at, history[i].at);
      }
      NothingLater(history[..i], hour);
    }
    RemembersAllExactly(history, hour);
  }

  lemma OneMore(history: seq<Entry>, e: Entry, hour: int)
    ensures Total(history + [e], hour).attempts
         == Total(history, hour).attempts + if Hour(e.at) == hour then e.counts.attempts else 0
    ensures Remembered(history + [e], hour).attempts
         == if Forgets(e.at, hour) then 0
            else Remembered(history, hour).attempts + if Hour(e.at) == hour then e.counts.attempts else 0
  {
    hide Hour, Forgets;
    assert (history + [e])[..|history|] == history;
  }

  lemma HourValues()
    ensures Hour(7200.0) == 2 && Hour(0.0) == 0
  {
  }

  /** The clock condition is needed: one hour back and forth again, and the hour's attempts are
      forgotten. */
  lemma RollbackForgets() returns (history: seq<Entry>, hour: int)
    ensures |history| == 3 && hour == Hour(history[2].at)
    ensures Total(history, hour).attempts == 2 && WindowOf(Book(FRESH_LEDGER, history), hour).attempts == 1
  {
    hide *;
    history, hour := RollbackSums();
    WindowsRemember(history, hour);
  }

  lemma RollbackSums() returns (history: seq<Entry>, hour: int)
    ensures |history| == 3 && hour == Hour(history[2].at)
    ensures Total(history, hour).attempts == 2 && Remembered(history, hour).attempts == 1
  {
    hide Hour, Total, Remembered;
    HourValues();
    var late, early := Entry(7200.0, Counts(1, 0, 0, 0)), Entry(0.0, Counts(1, 0, 0, 0));
    hour := 2;
    var one := [late];
    var two := one + [early];
    history := two + [late];
    NoneYet(hour);
    assert [] + [late] == one;
    OneMore([], late, hour);
    OneMore(one, early, hour);
    OneMore(two, late, hour);
  }

  lemma NoneYet(hour: int)
    ensures Total([], hour).attempts == 0 == Remembered([], hour).attempts
  {
  }

  // ---------------------------------------------------------------------------
  // The hourly limit
  // ---------------------------------------------------------------------------

  /** What a slice charges: a model call, gated at one time and charged at a later one, perhaps in a
      later hour; or a settled unit, charged without a gate of its own. */
  datatype Spend =
    | Call(gateAt: real, chargeAt: real, inputTokens: nat, outputTokens: nat)
    | Settle(at: real)
  {
    function Begins(): real { if Call? then gateAt else at }
    function Ends(): real { if Call? then chargeAt else at }
    function Charge(): Entry {
      if Call? then Entry(chargeAt, Counts(1, 0, inputTokens, outputTokens)) else Entry(at, Counts(0, 1, 0, 0))
    }
  }

  function Charges(spends: seq<Spend>): seq<Entry> {
    if spends == [] then [] else Charges(spends[..|spends| - 1]) + [spends[|spends| - 1].Charge()]
  }

  /** One charge in flight at a time, under a clock that never steps back; each call was let through
      by the gate as the ledger then stood. */
  ghost predicate Paced(spends: seq<Spend>, limits: Limits) {
    spends == [] ||
    (var before, last := spends[..|spends| - 1], spends[|spends| - 1];
     && Paced(before, limits)
     && last.Begins() <= last.Ends()
     && (before != [] ==> before[|before| - 1].Ends() <= last.Begins())
     && (last.Call? ==> BudgetAllows(Book(FRESH_LEDGER, Charges(before)), limits, last.gateAt)))
  }

  lemma {:induction false} PacedMonotone(spends: seq<Spend>, limits: Limits)
    requires Paced(spends, limits)
    ensures Monotone(Charges(spends)) && |Charges(spends)| == |spends|
    ensures spends != [] ==>
              && Charges(spends)[|spends| - 1].at == spends[|spends| - 1].Ends()
              && forall e :: e in Charges(spends) ==> e.at <= spends[|spends| - 1].Ends()
  {
    hide Book, BudgetAllows;
    if spends != [] {
      PacedMonotone(spends[..|spends| - 1], limits);
    }
  }

  lemma LastCharge(spends: seq<Spend>, hour: int)
    requires spends != []
    ensures var before, e := spends[..|spends| - 1], spends[|spends| - 1].Charge();
            Total(Charges(spends), hour)
            == if Hour(e.at) == hour then Plus(Total(Charges(before), hour), e.counts) else Total(Charges(before), hour)
  {
    hide Hour, Plus;
    var charges := Charges(spends);
    assert charges[..|charges| - 1] == Charges(spends[..|spends| - 1]);
  }

  /** At any later time the window of that time's hour is the full history of the hour. */
  lemma WindowIsTotal(spends: seq<Spend>, limits: Limits, now: real)
    requires Paced(spends, limits) && (spends != [] ==> spends[|spends| - 1].Ends() <= now)
    ensures WindowOf(Book(FRESH_LEDGER, Charges(spends)), Hour(now)) == Total(Charges(spends), Hour(now))
  {
    hide Book, Hour, Charges, Remembered;
    var history := Charges(spends);
    PacedMonotone(spends, limits);
    if spends != [] && Hour(spends[|spends| - 1].Ends()) == Hour(now) {
      WindowsRefineHistory(history, Hour(now));
    } else {
      NotReached(spends, limits, now);
      WindowsRemember(history, Hour(now));
      RemembersAllExactly(history, Hour(now));
      TotalsGrow(history, Hour(now));
    }
  }

  /** An hour that lies after the last charge took none. */
  lemma NotReached(spends: seq<Spend>, limits: Limits, now: real)
    requires Paced(spends, limits)
    requires spends != [] ==> spends[|spends| - 1].Ends() <= now && Hour(spends[|spends| - 1].Ends()) != Hour(now)
    ensures Total(Charges(spends), Hour(now)) == ZERO
  {
    hide Book, Hour, Charges;
    var history := Charges(spends);
    PacedMonotone(spends, limits);
    forall i | 0 <= i < |history|
      ensures Hour(history[i].at) < Hour(now)
    {
      assert history[i] in history;
      HourMonotone(history[i].at, spends[|spends| - 1].Ends());
      HourMonotone(spends[|spends| - 1].Ends(), now);
    }
    NothingLater(history, Hour(now));
  }

  /** Where the gate let a call through, there is room in that hour and in every later one. */
  lemma GateLeavesRoom(before: seq<Spend>, limits: Limits, gateAt: real, later: real)
    requires Paced(before, limits) && (before != [] ==> before[|before| - 1].Ends() <= gateAt) && gateAt <= later
    requires BudgetAllows(Book(FRESH_LEDGER, Charges(before)), limits, gateAt)
    ensures limits.maxAttempts.Some? ==> Total(Charges(before), Hour(later)).attempts < limits.maxAttempts.value
    ensures limits.maxUnits.Some? ==> Total(Charges(before), Hour(later)).units < limits.maxUnits.value
  {
    hide Book, Hour, Charges, Total, Paced;
    HourMonotone(gateAt, later);
    WindowIsTotal(before, limits, gateAt);
    if Hour(later) != Hour(gateAt) {
      if before != [] {
        HourMonotone(before[|before| - 1].Ends(), gateAt);
      }
      NotReached(before, limits, later);
    }
  }

  /** No hour ever takes more attempts than a limit that is set: even when calls are gated in one hour
      and charged in a later one, and whatever units are charged in between. */
  lemma {:induction false} HourlyLimitHolds(spends: seq<Spend>, limits: Limits, hour: int)
    requires Paced(spends, limits) && limits.maxAttempts.Some? && limits.maxAttempts.value >= 0
    ensures Total(Charges(spends), hour).attempts <= limits.maxAttempts.value
  {
    hide Book, BudgetAllows, Hour, Charges, Total;
    if spends == [] {
      NothingCharged(hour);
    } else {
      var before, last := spends[..|spends| - 1], spends[|spends| - 1];
      HourlyLimitHolds(before, limits, hour);
      LastCharge(spends, hour);
      if last.Call? && Hour(last.chargeAt) == hour {
        GateLeavesRoom(before, limits, last.gateAt, last.chargeAt);
      }
    }
  }

  lemma NothingCharged(hour: int)
    ensures Total(Charges([]), hour) == ZERO
  {
  }

  lemma OneMoreIndex(n: nat, p: int -> bool)
    ensures |set i | 0 <= i < n + 1 && p(i)| == |set i | 0 <= i < n && p(i)| + if p(n) then 1 else 0
  {
    var before := set i | 0 <= i < n && p(i);
    assert (set i | 0 <= i < n + 1 && p(i)) == if p(n) then before + {n} else before;
  }

  /** An hour's total counts the calls charged in it and the units settled in it. */
  lemma {:induction false} TotalCounts(spends: seq<Spend>, hour: int)
    ensures Total(Charges(spends), hour).attempts
         == |set i | 0 <= i < |spends| && spends[i].Call? && Hour(spends[i].chargeAt) == hour|
    ensures Total(Charges(spends), hour).units
         == |set i | 0 <= i < |spends| && spends[i].Settle? && Hour(spends[i].at) == hour|
  {
    hide Hour, Charges, Total;
    if spends == [] {
      NothingCharged(hour);
    } else {
      var n := |spends| - 1;
      var before := spends[..n];
      TotalCounts(before, hour);
      LastCharge(spends, hour);
      CountsOneMore(spends, hour);
    }
  }

  lemma CountsOneMore(spends: seq<Spend>, hour: int)
    requires spends != []
    ensures var before, last := spends[..|spends| - 1], spends[|spends| - 1];
            && |set i | 0 <= i < |spends| && spends[i].Call? && Hour(spends[i].chargeAt) == hour|
               == |set i | 0 <= i < |before| && before[i].Call? && Hour(before[i].chargeAt) == hour|
                  + (if last.Call? && Hour(last.chargeAt) == hour then 1 else 0)
            && |set i | 0 <= i < |spends| && spends[i].Settle? && Hour(spends[i].at) == hour|
               == |set i | 0 <= i < |before| && before[i].Settle? && Hour(before[i].at) == hour|
                  + (if last.Settle? && Hour(last.at) == hour then 1 else 0)
  {
    hide Hour;
    var n := |spends| - 1;
    var before := spends[..n];
    var called := (i: int) => 0 <= i < |spends| && spends[i].Call? && Hour(spends[i].chargeAt) == hour;
    var settled := (i: int) => 0 <= i < |spends| && spends[i].Settle? && Hour(spends[i].at) == hour;
    OneMoreIndex(n, called);
    OneMoreIndex(n, settled);
    assert (set i | 0 <= i < |spends| && spends[i].Call? && Hour(spends[i].chargeAt) == hour)
        == set i | 0 <= i < n + 1 && called(i);
    assert (set i | 0 <= i < n && before[i].Call? && Hour(before[i].chargeAt) == hour)
        == set i | 0 <= i < n && called(i);
    assert (set i | 0 <= i < |spends| && spends[i].Settle? && Hour(spends[i].at) == hour)
        == set i | 0 <= i < n + 1 && settled(i);
    assert (set i | 0 <= i < n && before[i].Settle? && Hour(before[i].at) == hour)
        == set i | 0 <= i < n && settled(i);
  }

  // ---------------------------------------------------------------------------
  // The hourly limit on units
  // ---------------------------------------------------------------------------

  /** The gate's own check on units would have passed when this unit was charged. */
  ghost predicate UnitRoom(before: seq<Spend>, limits: Limits, at: real)
    requires limits.maxUnits.Some?
  {
    WindowOf(Book(FRESH_LEDGER, Charges(before)), Hour(at)).units < limits.maxUnits.value
  }

  /** Unit charges pass no gate, so the unit limit holds in an hour exactly when every unit charged in
      it found, at that moment, the room the gate asks of a call. */
  lemma {:induction false} UnitLimitHoldsExactly(spends: seq<Spend>, limits: Limits, hour: int)
    requires Paced(spends, limits) && limits.maxUnits.Some? && limits.maxUnits.value >= 0
    ensures Total(Charges(spends), hour).units <= limits.maxUnits.value <==>
              forall i :: 0 <= i < |spends| && spends[i].Settle? && Hour(spends[i].at) == hour ==>
                UnitRoom(spends[..i], limits, spends[i].at)
  {
    hide Book, BudgetAllows, Hour, Charges, Total, WindowOf;
    if spends == [] {
      NothingCharged(hour);
    } else {
      var n := |spends| - 1;
      var before, last := spends[..n], spends[n];
      UnitLimitHoldsExactly(before, limits, hour);
      LastCharge(spends, hour);
      forall i | 0 <= i < n
        ensures before[..i] == spends[..i] && before[i] == spends[i]
      {
      }
      if last.Settle? && Hour(last.at) == hour {
        WindowIsTotal(before, limits, last.at);
      }
    }
  }

  /** A call was made since the last unit was charged. */
  predicate CalledSince(spends: seq<Spend>) { spends != [] && spends[|spends| - 1].Call? }

  /** Every unit is charged after a call made for it. */
  predicate EachUnitCalled(spends: seq<Spend>) {
    forall i :: 0 <= i < |spends| && spends[i].Settle? ==> CalledSince(spends[..i])
  }

  /** In particular it holds in every hour when each unit is charged right after a call made for it; a unit
      that is parked, settles on a packet that cannot be built, or is submitted again, makes none. */
  lemma {:induction false} UnitLimitHoldsWhenCalled(spends: seq<Spend>, limits: Limits, hour: int)
    requires Paced(spends, limits) && limits.maxUnits.Some? && limits.maxUnits.value >= 0 && EachUnitCalled(spends)
    ensures Total(Charges(spends), hour).units <= limits.maxUnits.value
  {
    hide Book, BudgetAllows, Hour, Charges, Total;
    if spends == [] {
      NothingCharged(hour);
    } else {
      var n := |spends| - 1;
      var before, last := spends[..n], spends[n];
      forall i | 0 <= i < n
        ensures before[..i] == spends[..i] && before[i] == spends[i]
      {
      }
      UnitLimitHoldsWhenCalled(before, limits, hour);
      LastCharge(spends, hour);
      if last.Settle? && Hour(last.at) == hour {
        CallLeftRoom(before, limits, last.at);
      }
    }
  }

  lemma CallLeftRoom(spends: seq<Spend>, limits: Limits, at: real)
    requires Paced(spends, limits) && CalledSince(spends) && spends[|spends| - 1].Ends() <= at && limits.maxUnits.Some?
    ensures Total(Charges(spends), Hour(at)).units < limits.maxUnits.value
  {
    hide Book, BudgetAllows, Hour, Charges, Total;
    var before, call := spends[..|spends| - 1], spends[|spends| - 1];
    GateLeavesRoom(before, limits, call.gateAt, at);
    LastCharge(spends, Hour(at));
  }

  /** Units that settle without a call. */
  function Settles(n: nat, at: real): seq<Spend> {
    if n == 0 then [] else Settles(n - 1, at) + [Settle(at)]
  }

  lemma SettlesUnfold(n: nat, at: real)
    requires n > 0
    ensures Settles(n, at) != [] && Settles(n, at)[|Settles(n, at)| - 1] == Settle(at)
    ensures Settles(n, at)[..|Settles(n, at)| - 1] == Settles(n - 1, at)
  {
  }

  /** Without a call for each it does not hold: whatever the limits, any number of units settles within
      one hour. */
  lemma {:induction false} UnitLimitIsPassed(n: nat, limits: Limits, at: real)
    ensures Paced(Settles(n, at), limits) && Total(Charges(Settles(n, at)), Hour(at)).units == n
  {
    hide Book, BudgetAllows, Hour, Charges, Total, Settles;
    if n == 0 {
      NothingCharged(Hour(at));
      NoSettles(at);
    } else {
      SettlesUnfold(n, at);
      UnitLimitIsPassed(n - 1, limits, at);
      if n > 1 {
        SettlesUnfold(n - 1, at);
      } else {
        NoSettles(at);
      }
      LastCharge(Settles(n, at), Hour(at));
    }
  }

  lemma NoSettles(at: real)
    ensures Settles(0, at) == []
  {
  }

  // ---------------------------------------------------------------------------
  // The rollback freeze
  // ---------------------------------------------------------------------------

  /** The latest time any charge was made at. */
  function Latest(history: seq<Entry>): real
    requires history != []
  {
    var last := history[|history| - 1].at;
    if |history| == 1 then last else Max(last, Latest(history[..|history| - 1]))
  }

  lemma {:induction false} MarkIsLatest(history: seq<Entry>)
    requires history != [] && forall e :: e in history ==> e.at > 0.0
    ensures Book(FRESH_LEDGER, history).lastSeen == Some(Latest(history)) && Latest(history) > 0.0
  {
    var before, last := history[..|history| - 1], history[|history| - 1];
    assert last in history;
    if before != [] {
      assert forall e :: e in before ==> e in history;
      MarkIsLatest(before);
    } else {
      assert history[..0] == [] && Book(FRESH_LEDGER, []) == FRESH_LEDGER;
    }
  }

  /** How one charge moves the mark and the freeze. */
  lemma ChargeFreezes(l: Ledger, at: real, c: Counts)
    requires l.lastSeen.Some? && l.lastSeen.value > 0.0
    ensures at <= l.lastSeen.value ==> Charged(l, at, c).lastSeen == l.lastSeen
    ensures at < l.lastSeen.value - CLOCK_SKEW_SECONDS || (l.freeze && at <= l.lastSeen.value) ==>
              Charged(l, at, c).freeze
  {
    hide Recent, Hour, Plus;
  }

  /** A charge more than the tolerated skew behind the latest time freezes the budget, and from then
      on, whatever else is charged, no call is allowed at any time that is not past that latest
      time, as long as a limit is set. */
  lemma {:induction false} FreezeHolds(history: seq<Entry>, more: seq<Entry>, limits: Limits, now: real)
    requires |history| >= 2 && forall e :: e in history + more ==> e.at > 0.0
    requires history[|history| - 1].at < Latest(history[..|history| - 1]) - CLOCK_SKEW_SECONDS
    requires forall e :: e in more ==> e.at <= Latest(history)
    requires limits.maxAttempts.Some? || limits.maxUnits.Some?
    requires now <= Latest(history)
    ensures !BudgetAllows(Book(FRESH_LEDGER, history + more), limits, now)
    ensures Book(FRESH_LEDGER, history + more).freeze
    ensures Book(FRESH_LEDGER, history + more).lastSeen == Some(Latest(history))
  {
    hide Charged, Book, BudgetAllows;
    var all := history + more;
    forall e | e in history ensures e.at > 0.0 { assert e in all; }
    if more == [] {
      assert all == history;
      var before, last := history[..|history| - 1], history[|history| - 1];
      forall e | e in before ensures e.at > 0.0 { assert e in history; }
      MarkIsLatest(before);
      MarkIsLatest(history);
      ChargeFreezes(Book(FRESH_LEDGER, before), last.at, last.counts);
      Booked(history);
    } else {
      var rest, last := more[..|more| - 1], more[|more| - 1];
      assert all[..|all| - 1] == history + rest;
      forall e | e in history + rest ensures e.at > 0.0 { assert e in all; }
      FreezeHolds(history, rest, limits, now);
      MarkIsLatest(history);
      assert last in more;
      ChargeFreezes(Book(FRESH_LEDGER, history + rest), last.at, last.counts);
      Booked(all);
    }
    FrozenRefuses(Book(FRESH_LEDGER, all), limits, now);
  }

  lemma Booked(history: seq<Entry>)
    requires history != []
    ensures var last := history[|history| - 1];
            Book(FRESH_LEDGER, history) == Charged(Book(FRESH_LEDGER, history[..|history| - 1]), last.at, last.counts)
  {
  }

  lemma FrozenRefuses(l: Ledger, limits: Limits, now: real)
    requires l.freeze && l.lastSeen.Some? && now <= l.lastSeen.value
    requires (limits.maxAttempts.Some? || limits.maxUnits.Some?)
    ensures !BudgetAllows(l, limits, now)
  {
  }

  lemma ChargeThaws(l: Ledger, at: real, c: Counts)
    requires l.lastSeen.Some? && l.lastSeen.value > 0.0 && at > l.lastSeen.value
    ensures !Charged(l, at, c).freeze
  {
    hide Recent, Hour, Plus;
  }

  /** The freeze recovers without an operator: past the latest charge the gate looks only at the
      window's room, and the next charge clears the freeze. */
  lemma FreezeRecovers(history: seq<Entry>, limits: Limits, now: real, c: Counts)
    requires history != [] && (forall e :: e in history ==> e.at > 0.0) && now > Latest(history)
    ensures var l := Book(FRESH_LEDGER, history);
            && (BudgetAllows(l, limits, now) <==>
                  && (limits.maxAttempts.Some? ==> WindowOf(l, Hour(now)).attempts < limits.maxAttempts.value)
                  && (limits.maxUnits.Some? ==> WindowOf(l, Hour(now)).units < limits.maxUnits.value))
            && !Book(FRESH_LEDGER, history + [Entry(now, c)]).freeze
  {
    hide Charged, Book, WindowOf, Hour;
    MarkIsLatest(history);
    ChargeThaws(Book(FRESH_LEDGER, history), now, c);
    Booked(history + [Entry(now, c)]);
    assert (history + [Entry(now, c)])[..|history|] == history;
  }

  lemma {:induction false} LatestBounds(history: seq<Entry>)
    requires history != []
    ensures forall e :: e in history ==> e.at <= Latest(history)
    ensures exists e :: e in history && e.at == Latest(history)
  {
    var before, last := history[..|history| - 1], history[|history| - 1];
    assert last in history;
    if before != [] {
      LatestBounds(before);
      var e :| e in before && e.at == Latest(before);
      assert e in history;
      assert forall x :: x in history ==> x in before || x == last;
    }
  }

  /** The i-th charge came more than five seconds behind one before it, and none since has come past
      every charge before it. */
  predicate FrozenBy(history: seq<Entry>, i: int) {
    && 0 < i < |history| && history[i].at < Latest(history[..i]) - 5.0
    && forall j :: i < j < |history| ==> history[j].at <= Latest(history[..i])
  }

  lemma FrozenNow(before: seq<Entry>, last: Entry)
    requires before != []
    ensures FrozenBy(before + [last], |before|) <==> last.at < Latest(before) - 5.0
  {
    hide Latest;
    assert (before + [last])[..|before|] == before;
  }

  lemma FrozenStays(before: seq<Entry>, last: Entry, i: int)
    requires before != [] && i != |before|
    ensures FrozenBy(before + [last], i) <==> FrozenBy(before, i) && last.at <= Latest(before)
  {
    hide Latest;
    var history := before + [last];
    if 0 < i < |before| {
      assert history[..i] == before[..i] && history[i] == before[i] && history[|before|] == last;
      if FrozenBy(before, i) && last.at <= Latest(before) {
        LatestStays(before, i);
        forall j | i < j < |history|
          ensures history[j].at <= Latest(before[..i])
        {
          assert j < |before| ==> history[j] == before[j];
        }
      } else if FrozenBy(history, i) {
        forall j | i < j < |before|
          ensures before[j].at <= Latest(before[..i])
        {
          assert history[j] == before[j];
        }
        assert before[i].at <= Latest(before[..i]);
        LatestStays(before, i);
      }
    }
  }

  /** Over every history: the budget is frozen exactly when some charge came more than five seconds
      behind a charge before it, and none since has come past every charge before that one. */
  lemma {:induction false} FrozenExactly(history: seq<Entry>)
    requires forall e :: e in history ==> e.at > 0.0
    ensures Book(FRESH_LEDGER, history).freeze <==> exists i: int :: FrozenBy(history, i)
  {
    hide Book, Charged, Latest, FrozenBy;
    if history == [] {
      NothingBooked();
    } else {
      var n := |history| - 1;
      var before, last := history[..n], history[n];
      assert history == before + [last];
      assert forall e :: e in before ==> e in history;
      FrozenExactly(before);
      Booked(history);
      if before == [] {
        NothingBooked();
        FirstCharge(last);
      } else {
        MarkIsLatest(before);
        ChargeFreezesExactly(Book(FRESH_LEDGER, before), last.at, last.counts);
        forall i: int
          ensures FrozenBy(history, i) <==>
                    if i == n then last.at < Latest(before) - 5.0 else FrozenBy(before, i) && last.at <= Latest(before)
        {
          if i == n {
            FrozenNow(before, last);
          } else {
            FrozenStays(before, last, i);
          }
        }
        if last.at < Latest(before) - 5.0 {
          assert FrozenBy(history, n);
        } else if i: int :| FrozenBy(before, i) && last.at <= Latest(before) {
          FrozenByMeans(before, i);
          assert FrozenBy(history, i);
        }
      }
    }
  }

  lemma FrozenByMeans(history: seq<Entry>, i: int)
    ensures FrozenBy(history, i) <==>
              0 < i < |history| && history[i].at < Latest(history[..i]) - 5.0 &&
              forall j :: i < j < |history| ==> history[j].at <= Latest(history[..i])
  {
  }

  /** Charges that are not past the latest time leave it where it is. */
  lemma {:induction false} LatestStays(history: seq<Entry>, n: nat)
    requires 0 < n <= |history| && forall j :: n <= j < |history| ==> history[j].at <= Latest(history[..n])
    ensures Latest(history) == Latest(history[..n])
  {
    if n == |history| {
      assert history[..n] == history;
    } else {
      var before := history[..|history| - 1];
      assert before[..n] == history[..n];
      LatestStays(before, n);
    }
  }

  lemma NothingBooked()
    ensures Book(FRESH_LEDGER, []) == FRESH_LEDGER
    ensures forall i: int :: !FrozenBy([], i)
  {
  }

  lemma FirstCharge(e: Entry)
    ensures !Charged(FRESH_LEDGER, e.at, e.counts).freeze
    ensures forall i: int :: !FrozenBy([e], i)
  {
  }

  lemma ChargeFreezesExactly(l: Ledger, at: real, c: Counts)
    requires l.lastSeen.Some? && l.lastSeen.value > 0.0
    ensures Charged(l, at, c).freeze <==>
              at < l.lastSeen.value - 5.0 || (l.freeze && at <= l.lastSeen.value)
  {
    hide Recent, Hour, Plus;
  }

  /** Over every history: a call is allowed exactly when no limit is set, or the budget is not frozen at
      this time and what the window of this hour remembers leaves room under each limit that is set. */
  lemma AllowedExactly(history: seq<Entry>, limits: Limits, now: real)
    requires forall e :: e in history ==> e.at > 0.0
    ensures BudgetAllows(Book(FRESH_LEDGER, history), limits, now) <==>
              || (limits.maxAttempts.None? && limits.maxUnits.None?)
              || (&& !(exists i :: 0 < i < |history| && history[i].at < Latest(history[..i]) - 5.0 &&
                         (forall j :: i < j < |history| ==> history[j].at <= Latest(history[..i])) &&
                         now <= Latest(history))
                  && (limits.maxAttempts.Some? ==>
                        Remembered(history, Hour(now)).attempts < limits.maxAttempts.value)
                  && (limits.maxUnits.Some? ==> Remembered(history, Hour(now)).units < limits.maxUnits.value))
  {
    hide Book, Latest, Hour, WindowOf, Remembered;
    FrozenExactly(history);
    forall i: int
      ensures FrozenBy(history, i) <==>
                0 < i < |history| && history[i].at < Latest(history[..i]) - 5.0 &&
                forall j :: i < j < |history| ==> history[j].at <= Latest(history[..i])
    {
      FrozenByMeans(history, i);
    }
    if i: int :| FrozenBy(history, i) {
      assert history[i].at < Latest(history[..i]) - 5.0;
    }
    if history == [] {
      NothingBooked();
    } else {
      MarkIsLatest(history);
    }
    WindowsRemember(history, Hour(now));
  }
}
