/** Bundle events: what the validator accepts, and the bisecting index that detectors share.

    Source: `_validate_events` of `tools/saipal_engine/bundle.py`; `EventIndex`,
    `detect_active_work_preemption`, `detect_source_closure_false_green` of
    `tools/saipal_engine/detectors.py`. */
module Events {
  import opened Options

  datatype Kind = COMMAND | PHASE_CHANGE | STATE_SNAPSHOT | SESSION_BOUNDARY | SOURCE_EVENT | OTHER_EVENT

  /** `work` is the active work a snapshot shows, when it shows one. */
  datatype Event = Event(no: int, kind: Kind, work: Option<string>, toPhase: Option<string>)

  predicate Sorted(a: seq<int>) { forall i, j :: 0 <= i < j < |a| ==> a[i] <= a[j] }

  predicate Increasing(events: seq<Event>) { forall i, j :: 0 <= i < j < |events| ==> events[i].no < events[j].no }

  // ---------------------------------------------------------------------------
  // The validator's sequence check
  // ---------------------------------------------------------------------------

  /** The `seq` field of a raw event. */
  datatype RawSeq = Number(n: int) | NotANumber

  /** It accepts exactly the lists of strictly increasing natural numbers. A bad number still moves
      the watermark, so one bad event can be reported more than once, but never missed. */
  method ValidateSeqs(raw: seq<RawSeq>) returns (problems: nat)
    ensures problems == 0 <==>
              && (forall i :: 0 <= i < |raw| ==> raw[i].Number? && raw[i].n >= 0)
              && (forall i, j :: 0 <= i < j < |raw| ==> raw[i].n < raw[j].n)
  {
    problems := 0;
    var previous: Option<int> := None;
    for i := 0 to |raw|
      invariant problems == 0 ==>
                  && (forall k :: 0 <= k < i ==> raw[k].Number? && raw[k].n >= 0)
                  && (forall k, l :: 0 <= k < l < i ==> raw[k].n < raw[l].n)
                  && previous == (if i == 0 then None else Some(raw[i - 1].n))
      invariant problems > 0 ==>
                  !((forall k :: 0 <= k < i ==> raw[k].Number? && raw[k].n >= 0)
                    && (forall k, l :: 0 <= k < l < i ==> raw[k].n < raw[l].n))
      invariant previous.Some? ==> exists k :: 0 <= k < i && raw[k].Number? && raw[k].n == previous.value
    {
      if raw[i].NotANumber? {
        problems := problems + 1;
      } else if raw[i].n < 0 {
        problems := problems + 1;
      } else if previous.Some? && raw[i].n <= previous.value {
        problems := problems + 1;
      }
      if raw[i].Number? && raw[i].n >= 0 {
        previous := Some(raw[i].n);
      }
    }
  }

  // ---------------------------------------------------------------------------
  // Bisection against the scan
  // ---------------------------------------------------------------------------

  function Nos(events: seq<Event>): seq<int> { seq(|events|, i requires 0 <= i < |events| => events[i].no) }

  /** `bisect_left` on `a[lo..hi]`. */
  function BisectLeft(a: seq<int>, x: int, lo: nat, hi: nat): (r: nat)
    requires lo <= hi <= |a|
    ensures lo <= r <= hi
    ensures Sorted(a) ==> (forall i :: lo <= i < r ==> a[i] < x) && (forall i :: r <= i < hi ==> a[i] >= x)
    decreases hi - lo
  {
    if lo == hi then lo
    else
      var mid := (lo + hi) / 2;
      if a[mid] < x then BisectLeft(a, x, mid + 1, hi) else BisectLeft(a, x, lo, mid)
  }

  /** `bisect_right` on `a[lo..hi]`. */
  function BisectRight(a: seq<int>, x: int, lo: nat, hi: nat): (r: nat)
    requires lo <= hi <= |a|
    ensures lo <= r <= hi
    ensures Sorted(a) ==> (forall i :: lo <= i < r ==> a[i] <= x) && (forall i :: r <= i < hi ==> a[i] > x)
    decreases hi - lo
  {
    if lo == hi then lo
    else
      var mid := (lo + hi) / 2;
      if x < a[mid] then BisectRight(a, x, lo, mid) else BisectRight(a, x, mid + 1, hi)
  }

  function Slice(events: seq<Event>, start: int, end: int): seq<Event> {
    var a := Nos(events);
    var lo, hi := BisectLeft(a, start, 0, |a|), BisectRight(a, end, 0, |a|);
    if lo <= hi then events[lo..hi] else []
  }

  /** The scan the index replaces. */
  function Scan(events: seq<Event>, start: int, end: int): seq<Event> {
    if events == [] then []
    else
      var last := events[|events| - 1];
      Scan(events[..|events| - 1], start, end) + if start <= last.no <= end then [last] else []
  }

  lemma {:induction false} ScanRange(events: seq<Event>, start: int, end: int, lo: nat, hi: nat)
    requires lo <= hi <= |events|
    requires forall i :: 0 <= i < |events| ==> (start <= events[i].no <= end <==> lo <= i < hi)
    ensures Scan(events, start, end) == events[lo..hi]
  {
    if events != [] {
      var n := |events| - 1;
      var before := events[..n];
      if hi <= n {
        ScanRange(before, start, end, lo, hi);
      } else if lo <= n {
        ScanRange(before, start, end, lo, n);
        assert events[lo..hi] == before[lo..n] + [events[n]];
      } else {
        ScanRange(before, start, end, n, n);
      }
    }
  }

  lemma {:induction false} ScanEmpty(events: seq<Event>, start: int, end: int)
    requires forall i :: 0 <= i < |events| ==> !(start <= events[i].no <= end)
    ensures Scan(events, start, end) == []
  {
    if events != [] {
      ScanEmpty(events[..|events| - 1], start, end);
    }
  }

  lemma {:induction false} SliceIsScan(events: seq<Event>, start: int, end: int)
    requires Sorted(Nos(events))
    ensures Slice(events, start, end) == Scan(events, start, end)
  {
    var a := Nos(events);
    var lo, hi := BisectLeft(a, start, 0, |a|), BisectRight(a, end, 0, |a|);
    forall i | 0 <= i < |events|
      ensures start <= events[i].no <= end <==> lo <= i < hi
    {
      assert a[i] == events[i].no;
    }
    if lo <= hi {
      ScanRange(events, start, end, lo, hi);
    } else {
      ScanEmpty(events, start, end);
    }
  }

  /** Every element of a scan is in range, and an element in range is in the scan. */
  lemma {:induction false} ScanHolds(events: seq<Event>, start: int, end: int)
    ensures forall e :: e in Scan(events, start, end) <==> e in events && start <= e.no <= end
  {
    if events != [] {
      ScanHolds(events[..|events| - 1], start, end);
      assert events == events[..|events| - 1] + [events[|events| - 1]];
    }
  }

  lemma {:induction false} BisectLeftLow(a: seq<int>, x: int, hi: nat)
    requires hi <= |a| && forall i :: 0 <= i < hi ==> x <= a[i]
    ensures BisectLeft(a, x, 0, hi) == 0
  {
    if hi > 0 {
      BisectLeftLow(a, x, hi / 2);
    }
  }

  function Least(a: seq<int>): (m: int)
    ensures forall i :: 0 <= i < |a| ==> m <= a[i]
  {
    if a == [] then 0 else var m := Least(a[..|a| - 1]); if a[|a| - 1] < m then a[|a| - 1] else m
  }

  /** The index answers every query as the scan does exactly when the events are in order. */
  lemma SliceIsScanExactly(events: seq<Event>)
    ensures (forall start, end :: Slice(events, start, end) == Scan(events, start, end)) <==> Sorted(Nos(events))
  {
    var a := Nos(events);
    if Sorted(a) {
      forall start, end
        ensures Slice(events, start, end) == Scan(events, start, end)
      {
        SliceIsScan(events, start, end);
      }
    } else {
      var i, j :| 0 <= i < j < |a| && a[i] > a[j];
      Misordered(events, i, j);
    }
  }

  /** An event that stands before a smaller one is answered wrongly by one query. */
  lemma Misordered(events: seq<Event>, i: nat, j: nat)
    requires i < j < |events| && events[i].no > events[j].no
    ensures Slice(events, Least(Nos(events)), events[j].no) != Scan(events, Least(Nos(events)), events[j].no)
  {
    var a := Nos(events);
    var start, end := Least(a), events[j].no;
    var hi := BisectRight(a, end, 0, |a|);
    BisectLeftLow(a, start, |a|);
    ScanHolds(events, start, end);
    var slice, scan := Slice(events, start, end), Scan(events, start, end);
    assert slice == events[..hi];
    assert a[j] == events[j].no;
    forall k | 0 <= k < |events|
      ensures start <= events[k].no
    {
      assert a[k] == events[k].no;
    }
    if k: nat :| k < hi && events[k].no > end {
      assert slice[k] == events[k] && events[k] in slice && events[k] !in scan;
    } else {
      assert hi <= i;
      ScanLonger(events, start, end, hi, j);
    }
  }

  /** A scan that finds something beyond a prefix it keeps whole is longer than the prefix. */
  lemma {:induction false} ScanLonger(events: seq<Event>, start: int, end: int, hi: nat, j: nat)
    requires hi <= j < |events| && start <= events[j].no <= end
    requires forall k :: 0 <= k < hi ==> start <= events[k].no <= end
    ensures |Scan(events, start, end)| > hi
  {
    var n := |events| - 1;
    var before := events[..n];
    if j < n {
      ScanLonger(before, start, end, hi, j);
    } else {
      ScanAtLeast(before, start, end, hi);
    }
  }

  lemma {:induction false} ScanAtLeast(events: seq<Event>, start: int, end: int, hi: nat)
    requires hi <= |events| && forall k :: 0 <= k < hi ==> start <= events[k].no <= end
    ensures |Scan(events, start, end)| >= hi
  {
    if hi < |events| {
      ScanAtLeast(events[..|events| - 1], start, end, hi);
    } else if hi > 0 {
      ScanAtLeast(events[..|events| - 1], start, end, hi - 1);
    }
  }

  // ---------------------------------------------------------------------------
  // The shared index
  // ---------------------------------------------------------------------------

  /** The first event after `no` that satisfies the predicate. */
  function FirstAfter(events: seq<Event>, no: int, p: Event -> bool): Option<Event> {
    if events == [] then None
    else if events[0].no > no && p(events[0]) then Some(events[0]) else FirstAfter(events[1..], no, p)
  }

  lemma {:induction false} FirstAfterFinds(events: seq<Event>, no: int, p: Event -> bool)
    ensures FirstAfter(events, no, p).Some? <==> exists e :: e in events && e.no > no && p(e)
    ensures FirstAfter(events, no, p).Some? ==>
              && FirstAfter(events, no, p).value in events && FirstAfter(events, no, p).value.no > no
              && p(FirstAfter(events, no, p).value)
    ensures FirstAfter(events, no, p).Some? ==>
              exists i :: 0 <= i < |events| && events[i] == FirstAfter(events, no, p).value &&
                forall j :: 0 <= j < i ==> !(events[j].no > no && p(events[j]))
  {
    if events != [] {
      FirstAfterFinds(events[1..], no, p);
      assert events == [events[0]] + events[1..];
      if events[0].no > no && p(events[0]) {
        assert events[0] == FirstAfter(events, no, p).value;
      } else if FirstAfter(events, no, p).Some? {
        var i :| 0 <= i < |events[1..]| && events[1..][i] == FirstAfter(events[1..], no, p).value &&
          forall j :: 0 <= j < i ==> !(events[1..][j].no > no && p(events[1..][j]));
        assert events[i + 1] == FirstAfter(events, no, p).value;
        forall j | 0 <= j < i + 1
          ensures !(events[j].no > no && p(events[j]))
        {
          assert j > 0 ==> events[j] == events[1..][j - 1];
        }
      }
    }
  }

  class EventIndex {
    const events: seq<Event>
    var spans: map<(int, int), seq<Event>>

    /** The memo holds only right answers. */
    predicate Valid()
      reads this
    {
      Increasing(events) && forall key :: key in spans ==> spans[key] == Scan(events, key.0, key.1)
    }

    constructor (events: seq<Event>)
      requires Increasing(events)
      ensures Valid() && this.events == events && spans == map[]
    {
      this.events, spans := events, map[];
    }

    /** Whatever was asked before, the answer is the scan's. */
    method Span(start: int, end: int) returns (window: seq<Event>)
      requires Valid()
      modifies this
      ensures Valid() && window == Scan(events, start, end)
    {
      if (start, end) in spans {
        return spans[(start, end)];
      }
      var a := Nos(events);
      assert Sorted(a);
      SliceIsScan(events, start, end);
      var lo, hi := BisectLeft(a, start, 0, |a|), BisectRight(a, end, 0, |a|);
      window := if lo <= hi then events[lo..hi] else [];
      spans := spans[(start, end) := window];
    }

    /** Bounded by the tail, and it stops at the first hit. */
    method First(no: int, p: Event -> bool) returns (r: Option<Event>)
      requires Valid()
      ensures r == FirstAfter(events, no, p)
    {
      var a := Nos(events);
      assert Sorted(a);
      var at := BisectRight(a, no, 0, |a|);
      SkipBefore(events, no, p, at);
      var i := at;
      while i < |events|
        invariant at <= i <= |events|
        invariant FirstAfter(events[at..], no, p) == FirstAfter(events[i..], no, p)
      {
        assert a[i] == events[i].no;
        if p(events[i]) {
          return Some(events[i]);
        }
        assert events[i..][1..] == events[i + 1..];
        i := i + 1;
      }
      return None;
    }
  }

  lemma {:induction false} SkipBefore(events: seq<Event>, no: int, p: Event -> bool, at: nat)
    requires at <= |events| && forall i :: 0 <= i < at ==> Nos(events)[i] <= no
    ensures FirstAfter(events, no, p) == FirstAfter(events[at..], no, p)
  {
    if at > 0 {
      var rest := events[1..];
      forall i | 0 <= i < at - 1
        ensures Nos(rest)[i] <= no
      {
        assert Nos(rest)[i] == Nos(events)[i + 1];
      }
      assert Nos(events)[0] == events[0].no;
      SkipBefore(rest, no, p, at - 1);
      assert rest[at - 1..] == events[at..];
    }
  }

  // ---------------------------------------------------------------------------
  // Two detectors over the index
  // ---------------------------------------------------------------------------

  predicate Shows(e: Event) { e.kind == STATE_SNAPSHOT && e.work.Some? }

  /** The work last shown among the first `n` events. */
  function LastShown(span: seq<Event>, n: nat): Option<string>
    requires n <= |span|
  {
    if n == 0 then None else if Shows(span[n - 1]) then span[n - 1].work else LastShown(span, n - 1)
  }

  /** The event shows work other than the one shown before it. */
  predicate IsSwitch(span: seq<Event>, k: nat)
    requires k < |span|
  {
    Shows(span[k]) && LastShown(span, k).Some? && LastShown(span, k) != span[k].work
  }

  function Switches(span: seq<Event>, n: nat): seq<int>
    requires n <= |span|
  {
    if n == 0 then [] else Switches(span, n - 1) + if IsSwitch(span, n - 1) then [span[n - 1].no] else []
  }

  predicate Terminal(e: Event) { e.kind == SESSION_BOUNDARY || (e.kind == PHASE_CHANGE && e.toPhase == Some("IDLE")) }

  /** A switch is a drift unless a terminal event follows anywhere, or nothing follows in the span. */
  predicate Open(events: seq<Event>, span: seq<Event>, no: int) {
    FirstAfter(events, no, Terminal).None? && exists e :: e in span && e.no > no
  }

  /** The first open switch. */
  function FirstOpen(events: seq<Event>, span: seq<Event>, switches: seq<int>): Option<int> {
    if switches == [] then None
    else if Open(events, span, switches[0]) then Some(switches[0]) else FirstOpen(events, span, switches[1..])
  }

  function Preemption(events: seq<Event>, start: int, end: int): Option<int> {
    var span := Scan(events, start, end);
    FirstOpen(events, span, Switches(span, |span|))
  }

  method DetectActiveWorkPreemption(view: EventIndex, start: int, end: int) returns (r: Option<int>)
    requires view.Valid()
    modifies view
    ensures view.Valid() && r == Preemption(view.events, start, end)
  {
    var span := view.Span(start, end);
    var seen: Option<string> := None;
    var switches: seq<int> := [];
    for i := 0 to |span|
      invariant view.Valid() && seen == LastShown(span, i) && switches == Switches(span, i)
    {
      if Shows(span[i]) {
        if seen.Some? && seen != span[i].work {
          switches := switches + [span[i].no];
        }
        seen := span[i].work;
      }
    }
    for i := 0 to |switches|
      invariant view.Valid()
      invariant FirstOpen(view.events, span, switches) == FirstOpen(view.events, span, switches[i..])
    {
      var terminal := view.First(switches[i], Terminal);
      assert switches[i..][1..] == switches[i + 1..];
      if terminal.None? && exists k :: 0 <= k < |span| && span[k].no > switches[i] {
        return Some(switches[i]);
      }
    }
    return None;
  }

  predicate Closes(e: Event) { e.kind == SESSION_BOUNDARY || e.kind == PHASE_CHANGE }

  function LastSource(span: seq<Event>, n: nat): Option<Event>
    requires n <= |span|
  {
    if n == 0 then None else if span[n - 1].kind == SOURCE_EVENT then Some(span[n - 1]) else LastSource(span, n - 1)
  }

  function FalseGreen(events: seq<Event>, start: int, end: int, terminalEpisode: bool): Option<int> {
    var span := Scan(events, start, end);
    var last := LastSource(span, |span|);
    if terminalEpisode || last.None? || FirstAfter(events, last.value.no, Closes).Some? then None
    else Some(last.value.no)
  }

  method DetectSourceClosure(view: EventIndex, start: int, end: int, terminalEpisode: bool) returns (r: Option<int>)
    requires view.Valid()
    modifies view
    ensures view.Valid() && r == FalseGreen(view.events, start, end, terminalEpisode)
  {
    var span := view.Span(start, end);
    if terminalEpisode {
      return None;
    }
    var last: Option<Event> := None;
    for i := 0 to |span|
      invariant view.Valid() && last == LastSource(span, i)
    {
      if span[i].kind == SOURCE_EVENT {
        last := Some(span[i]);
      }
    }
    if last.None? {
      return None;
    }
    var closure := view.First(last.value.no, Closes);
    return if closure.Some? then None else Some(last.value.no);
  }

  /** The work shown before an event is that of the last event before it that shows any. */
  lemma {:induction false} ShownMeans(span: seq<Event>, n: nat)
    requires n <= |span|
    ensures LastShown(span, n).Some? <==> exists j: nat :: j < n && Shows(span[j])
    ensures LastShown(span, n).Some? ==>
              exists j: nat :: j < n && Shows(span[j]) && span[j].work == LastShown(span, n)
                               && forall m :: j < m < n ==> !Shows(span[m])
  {
    if n > 0 {
      ShownMeans(span, n - 1);
    }
  }

  /** A switch: a snapshot that shows work, and the snapshot before it that showed any, with none in
      between, showed other work. */
  lemma SwitchMeans(span: seq<Event>, k: nat)
    requires k < |span|
    ensures IsSwitch(span, k) <==>
              && span[k].kind == STATE_SNAPSHOT && span[k].work.Some?
              && exists j :: 0 <= j < k && span[j].kind == STATE_SNAPSHOT && span[j].work.Some? &&
                   span[j].work != span[k].work &&
                   forall m :: j < m < k ==> !(span[m].kind == STATE_SNAPSHOT && span[m].work.Some?)
  {
    hide LastShown;
    ShownMeans(span, k);
    if IsSwitch(span, k) {
      var j: nat :| j < k && Shows(span[j]) && span[j].work == LastShown(span, k) &&
        forall m :: j < m < k ==> !Shows(span[m]);
      forall m | j < m < k
        ensures !(span[m].kind == STATE_SNAPSHOT && span[m].work.Some?)
      {
        assert !Shows(span[m]);
      }
    } else if j :| 0 <= j < k && span[j].kind == STATE_SNAPSHOT && span[j].work.Some? &&
                   span[j].work != span[k].work &&
                   forall m :: j < m < k ==> !(span[m].kind == STATE_SNAPSHOT && span[m].work.Some?) {
      assert Shows(span[j]);
    }
  }

  /** The switch has a session boundary or a return to IDLE after it anywhere in the bundle, or ends the
      span. */
  predicate Settled(events: seq<Event>, span: seq<Event>, no: int) {
    || (exists e :: e in events && e.no > no &&
          (e.kind == SESSION_BOUNDARY || (e.kind == PHASE_CHANGE && e.toPhase == Some("IDLE"))))
    || (forall e :: e in span ==> e.no <= no)
  }

  lemma SettledMeans(events: seq<Event>, span: seq<Event>, no: int)
    ensures Settled(events, span, no) <==> !Open(events, span, no)
  {
    FirstAfterFinds(events, no, Terminal);
  }

  /** What a reported preemption means: it is a switch of the span, no session boundary or return to
      IDLE comes after it in the whole bundle, the span goes on, and no switch before it is like that. */
  lemma PreemptionMeans(events: seq<Event>, start: int, end: int) returns (k: nat)
    requires Preemption(events, start, end).Some?
    ensures var span, no := Scan(events, start, end), Preemption(events, start, end).value;
            && k < |span| && IsSwitch(span, k) && span[k].no == no
            && (forall e :: e in events && e.no > no ==>
                  e.kind != SESSION_BOUNDARY && !(e.kind == PHASE_CHANGE && e.toPhase == Some("IDLE")))
            && (exists e :: e in span && e.no > no)
            && forall j :: 0 <= j < k && IsSwitch(span, j) ==>
                 || (exists e :: e in events && e.no > span[j].no &&
                       (e.kind == SESSION_BOUNDARY || (e.kind == PHASE_CHANGE && e.toPhase == Some("IDLE"))))
                 || (forall e :: e in span ==> e.no <= span[j].no)
  {
    hide IsSwitch, Switches, FirstOpen, Open;
    var span := Scan(events, start, end);
    var i := FirstOpenAt(events, span, Switches(span, |span|));
    k := SwitchAt(span, |span|, i);
    SettledMeans(events, span, span[k].no);
    forall j | 0 <= j < k && IsSwitch(span, j)
      ensures Settled(events, span, span[j].no)
    {
      SwitchIndex(span, |span|, j);
      SwitchIndex(span, k, j);
      SettledMeans(events, span, span[j].no);
    }
  }

  /** When nothing is reported, every switch has such an event after it, or ends its span. */
  lemma NoPreemptionMeans(events: seq<Event>, start: int, end: int, k: nat)
    requires Preemption(events, start, end).None?
    requires k < |Scan(events, start, end)| && IsSwitch(Scan(events, start, end), k)
    ensures var span := Scan(events, start, end);
            || (exists e :: e in events && e.no > span[k].no &&
                  (e.kind == SESSION_BOUNDARY || (e.kind == PHASE_CHANGE && e.toPhase == Some("IDLE"))))
            || (forall e :: e in span ==> e.no <= span[k].no)
  {
    hide IsSwitch, Switches, FirstOpen, Open;
    var span := Scan(events, start, end);
    SwitchIndex(span, |span|, k);
    NoneOpen(events, span, Switches(span, |span|), |Switches(span, k)|);
    SettledMeans(events, span, span[k].no);
  }

  /** A switch stands in the list behind those before it. */
  lemma {:induction false} SwitchIndex(span: seq<Event>, n: nat, k: nat)
    requires k < n <= |span| && IsSwitch(span, k)
    ensures |Switches(span, k)| < |Switches(span, n)| && Switches(span, n)[|Switches(span, k)|] == span[k].no
  {
    hide IsSwitch;
    if k < n - 1 {
      SwitchIndex(span, n - 1, k);
    }
  }

  lemma {:induction false} NoneOpen(events: seq<Event>, span: seq<Event>, switches: seq<int>, i: nat)
    requires FirstOpen(events, span, switches).None? && i < |switches|
    ensures !Open(events, span, switches[i])
  {
    if i > 0 {
      NoneOpen(events, span, switches[1..], i - 1);
    }
  }

  predicate IsLastSource(span: seq<Event>, k: nat) {
    k < |span| && span[k].kind == SOURCE_EVENT && forall m :: k < m < |span| ==> span[m].kind != SOURCE_EVENT
  }

  lemma {:induction false} LastSourceIs(span: seq<Event>, n: nat) returns (k: nat)
    requires n <= |span| && forall m :: n <= m < |span| ==> span[m].kind != SOURCE_EVENT
    ensures LastSource(span, n).None? ==> forall m :: 0 <= m < |span| ==> span[m].kind != SOURCE_EVENT
    ensures LastSource(span, n).Some? ==> IsLastSource(span, k) && span[k] == LastSource(span, n).value
  {
    if n > 0 && span[n - 1].kind != SOURCE_EVENT {
      k := LastSourceIs(span, n - 1);
    } else {
      k := if n > 0 then n - 1 else 0;
    }
  }

  /** A false green is reported exactly when the episode is not terminal, its span has a source event,
      and after the last one no boundary or phase change comes in the whole bundle. */
  lemma FalseGreenMeans(events: seq<Event>, start: int, end: int, terminalEpisode: bool)
    ensures var span, r := Scan(events, start, end), FalseGreen(events, start, end, terminalEpisode);
            r.Some? <==>
              && !terminalEpisode
              && exists k: nat :: IsLastSource(span, k)
                                  && forall e :: e in events && e.no > span[k].no ==>
                                       e.kind != SESSION_BOUNDARY && e.kind != PHASE_CHANGE
    ensures var span, r := Scan(events, start, end), FalseGreen(events, start, end, terminalEpisode);
            r.Some? ==>
              exists k :: 0 <= k < |span| && span[k].kind == SOURCE_EVENT && span[k].no == r.value &&
                forall m :: k < m < |span| ==> span[m].kind != SOURCE_EVENT
  {
    var span := Scan(events, start, end);
    var last := LastSource(span, |span|);
    var j := LastSourceIs(span, |span|);
    if last.Some? {
      FirstAfterFinds(events, last.value.no, Closes);
      assert forall k: nat :: IsLastSource(span, k) ==> k == j;
    }
  }

  lemma {:induction false} FirstOpenAt(events: seq<Event>, span: seq<Event>, switches: seq<int>) returns (i: nat)
    requires FirstOpen(events, span, switches).Some?
    ensures i < |switches| && FirstOpen(events, span, switches) == Some(switches[i]) && Open(events, span, switches[i])
    ensures forall j :: 0 <= j < i ==> !Open(events, span, switches[j])
  {
    hide Open;
    if Open(events, span, switches[0]) {
      i := 0;
    } else {
      var j := FirstOpenAt(events, span, switches[1..]);
      i := j + 1;
      forall m | 0 <= m < i
        ensures !Open(events, span, switches[m])
      {
        assert m > 0 ==> switches[m] == switches[1..][m - 1];
      }
    }
  }

  lemma {:induction false} SwitchAt(span: seq<Event>, n: nat, i: nat) returns (k: nat)
    requires n <= |span| && i < |Switches(span, n)|
    ensures k < n && IsSwitch(span, k) && span[k].no == Switches(span, n)[i] && i == |Switches(span, k)|
  {
    hide IsSwitch;
    if i < |Switches(span, n - 1)| {
      k := SwitchAt(span, n - 1, i);
    } else {
      k := n - 1;
    }
  }

  // ---------------------------------------------------------------------------
  // Any detectors on one shared index
  // ---------------------------------------------------------------------------

  datatype Query = AskSpan(start: int, end: int) | AskFirst(no: int, p: Event -> bool) | Stop(result: Option<int>)

  datatype Reply = Window(span: seq<Event>) | Hit(event: Option<Event>)

  /** What a detector asks the index next, or answers, after the replies it has had. */
  type Detector = seq<Reply> -> Query

  /** What a detector answers within `limit` more queries when each is a scan of the events. */
  function Answers(d: Detector, events: seq<Event>, heard: seq<Reply>, limit: nat): Option<int>
    decreases limit
  {
    if limit == 0 then None
    else match d(heard)
         case Stop(result) => result
         case AskSpan(start, end) => Answers(d, events, heard + [Window(Scan(events, start, end))], limit - 1)
         case AskFirst(no, p) => Answers(d, events, heard + [Hit(FirstAfter(events, no, p))], limit - 1)
  }

  method Detect(view: EventIndex, d: Detector, limit: nat) returns (r: Option<int>)
    requires view.Valid()
    modifies view
    ensures view.Valid() && r == Answers(d, view.events, [], limit)
  {
    var heard: seq<Reply> := [];
    for i := 0 to limit
      invariant view.Valid() && Answers(d, view.events, heard, limit - i) == Answers(d, view.events, [], limit)
    {
      match d(heard) {
        case Stop(result) => return result;
        case AskSpan(start, end) =>
          var window := view.Span(start, end);
          heard := heard + [Window(window)];
        case AskFirst(no, p) =>
          var hit := view.First(no, p);
          heard := heard + [Hit(hit)];
      }
    }
    return None;
  }

  /** What the detectors find, in the registry's order. */
  function Findings(detectors: seq<Detector>, events: seq<Event>, limit: nat): seq<int> {
    if detectors == [] then []
    else
      var n := |detectors| - 1;
      Findings(detectors[..n], events, limit)
      + match Answers(detectors[n], events, [], limit) case Some(no) => [no] case None => []
  }

  method DetectAll(view: EventIndex, detectors: seq<Detector>, limit: nat) returns (found: seq<int>)
    requires view.Valid()
    modifies view
    ensures view.Valid() && found == Findings(detectors, view.events, limit)
  {
    found := [];
    assert detectors[..0] == [];
    for i := 0 to |detectors|
      invariant view.Valid() && found == Findings(detectors[..i], view.events, limit)
    {
      assert detectors[..i + 1][..i] == detectors[..i];
      var r := Detect(view, detectors[i], limit);
      if r.Some? {
        found := found + [r.value];
      }
    }
    assert detectors[..|detectors|] == detectors;
  }

  /** Whatever detectors run, in whatever order, and whatever was asked of the index before them: on a
      shared index they find exactly what each finds on a fresh one, and what plain scans give. */
  method SharedAgreesWithFresh(shared: EventIndex, detectors: seq<Detector>, limit: nat)
    returns (a: seq<int>, b: seq<int>)
    requires shared.Valid()
    modifies shared
    ensures a == b == Findings(detectors, shared.events, limit)
  {
    a := DetectAll(shared, detectors, limit);
    b := [];
    assert detectors[..0] == [];
    for i := 0 to |detectors|
      invariant b == Findings(detectors[..i], shared.events, limit)
    {
      assert detectors[..i + 1][..i] == detectors[..i];
      var own := new EventIndex(shared.events);
      var r := Detect(own, detectors[i], limit);
      if r.Some? {
        b := b + [r.value];
      }
    }
    assert detectors[..|detectors|] == detectors;
  }

  /** A detector that looks at its span and nothing else: the command route, the phase legality and the
      idle continue. */
  function OfSpan(start: int, end: int, judge: seq<Event> -> Option<int>): Detector {
    (heard: seq<Reply>) => if heard == [] || !heard[0].Window? then AskSpan(start, end) else Stop(judge(heard[0].span))
  }

  lemma OfSpanJudges(events: seq<Event>, start: int, end: int, judge: seq<Event> -> Option<int>, limit: nat)
    requires limit >= 2
    ensures Answers(OfSpan(start, end, judge), events, [], limit) == judge(Scan(events, start, end))
  {
    var d, first := OfSpan(start, end, judge), [Window(Scan(events, start, end))];
    assert [] + first == first;
    assert Answers(d, events, [], limit) == Answers(d, events, first, limit - 1);
  }

  function ClosureAsks(start: int, end: int, terminalEpisode: bool): Detector {
    (heard: seq<Reply>) =>
      if heard == [] || !heard[0].Window? then AskSpan(start, end)
      else
        var last := LastSource(heard[0].span, |heard[0].span|);
        if terminalEpisode || last.None? then Stop(None)
        else if |heard| == 1 || !heard[1].Hit? then AskFirst(last.value.no, Closes)
        else Stop(if heard[1].event.Some? then None else Some(last.value.no))
  }

  /** The two detectors above are such detectors. */
  lemma ClosureAnswers(events: seq<Event>, start: int, end: int, terminalEpisode: bool, limit: nat)
    requires limit >= 3
    ensures Answers(ClosureAsks(start, end, terminalEpisode), events, [], limit)
         == FalseGreen(events, start, end, terminalEpisode)
  {
    var d, span := ClosureAsks(start, end, terminalEpisode), Scan(events, start, end);
    var first := [Window(span)];
    assert [] + first == first;
    assert Answers(d, events, [], limit) == Answers(d, events, first, limit - 1);
    var last := LastSource(span, |span|);
    if !terminalEpisode && last.Some? {
      var both := first + [Hit(FirstAfter(events, last.value.no, Closes))];
      assert Answers(d, events, first, limit - 1) == Answers(d, events, both, limit - 2);
    }
  }

  /** It asks about each switch in turn, until one is open. */
  function PreemptionAsks(start: int, end: int): Detector {
    (heard: seq<Reply>) =>
      if heard == [] || !heard[0].Window? then AskSpan(start, end)
      else
        var span, asked := heard[0].span, |heard| - 1;
        var switches := Switches(span, |span|);
        if 0 < asked <= |switches| && heard[asked].Hit? && heard[asked].event.None?
           && (exists e :: e in span && e.no > switches[asked - 1])
        then Stop(Some(switches[asked - 1]))
        else if asked < |switches| then AskFirst(switches[asked], Terminal)
        else Stop(None)
  }

  lemma PreemptionAnswers(events: seq<Event>, start: int, end: int, limit: nat)
    requires limit >= |Scan(events, start, end)| + 2
    ensures Answers(PreemptionAsks(start, end), events, [], limit) == Preemption(events, start, end)
  {
    var d, span := PreemptionAsks(start, end), Scan(events, start, end);
    var first := [Window(span)];
    assert [] + first == first;
    assert Answers(d, events, [], limit) == Answers(d, events, first, limit - 1);
    FewSwitches(span, |span|);
    AsksInTurn(events, start, end, first, 0, limit - 1);
  }

  lemma {:induction false} FewSwitches(span: seq<Event>, n: nat)
    requires n <= |span|
    ensures |Switches(span, n)| <= n
  {
    if n > 0 {
      FewSwitches(span, n - 1);
    }
  }

  /** One query of a detector. */
  lemma OneQuery(d: Detector, events: seq<Event>, heard: seq<Reply>, limit: nat)
    requires limit > 0
    ensures d(heard).Stop? ==> Answers(d, events, heard, limit) == d(heard).result
    ensures d(heard).AskFirst? ==>
              Answers(d, events, heard, limit)
              == Answers(d, events, heard + [Hit(FirstAfter(events, d(heard).no, d(heard).p))], limit - 1)
  {
  }

  /** What it asks after the replies to its span and its first `i` switches. */
  lemma AsksNext(start: int, end: int, span: seq<Event>, heard: seq<Reply>, i: nat)
    requires var switches := Switches(span, |span|);
             i <= |switches| && |heard| == i + 1 && heard[0] == Window(span) && (i > 0 ==> heard[i].Hit?)
    ensures var switches := Switches(span, |span|);
            var found := i > 0 && heard[i].event.None? && exists e :: e in span && e.no > switches[i - 1];
            PreemptionAsks(start, end)(heard) == if found then Stop(Some(switches[i - 1]))
                                                 else if i < |switches| then AskFirst(switches[i], Terminal)
                                                 else Stop(None)
  {
    hide Switches;
  }

  /** From its `i`-th switch on, when none before was open. */
  lemma {:induction false} AsksInTurn(events: seq<Event>, start: int, end: int, heard: seq<Reply>, i: nat, limit: nat)
    requires var span := Scan(events, start, end);
             var switches := Switches(span, |span|);
             && i <= |switches| && limit > |switches| - i
             && |heard| == i + 1 && heard[0] == Window(span)
             && (i > 0 ==>
                   && heard[i] == Hit(FirstAfter(events, switches[i - 1], Terminal))
                   && !Open(events, span, switches[i - 1]))
    ensures var span := Scan(events, start, end);
            var switches := Switches(span, |span|);
            Answers(PreemptionAsks(start, end), events, heard, limit) == FirstOpen(events, span, switches[i..])
    decreases limit
  {
    hide Answers, PreemptionAsks, Scan, Switches, FirstAfter;
    var d, span := PreemptionAsks(start, end), Scan(events, start, end);
    var switches := Switches(span, |span|);
    AsksNext(start, end, span, heard, i);
    OneQuery(d, events, heard, limit);
    if i < |switches| {
      var next := heard + [Hit(FirstAfter(events, switches[i], Terminal))];
      assert switches[i..][1..] == switches[i + 1..];
      AsksNext(start, end, span, next, i + 1);
      if Open(events, span, switches[i]) {
        OneQuery(d, events, next, limit - 1);
      } else {
        AsksInTurn(events, start, end, next, i + 1, limit - 1);
      }
    }
  }
}
