/** Evidence paging: an episode is handed over in consecutive bounded windows, and no event is
    hidden behind one that is never offered.

    Source: `slice_count`, `episode_slice_count`, `_episode_events`, `freshest_records` of
    `tools/saipal_engine/carrier.py`. */
module Carrier {
  import opened Options
  import opened Events

  /** How many bounded windows a span of `total` events needs. */
  function SliceCount(total: int, limit: int): (n: nat)
    ensures n >= 1
  {
    if total <= 0 || limit <= 0 then 1 else CeilDiv(total, limit)
  }

  function CeilDiv(total: int, limit: int): (n: nat)
    requires total > 0 && limit > 0
    ensures n >= 1 && (n - 1) * limit < total <= n * limit
  {
    DivRange(total + limit - 1, limit);
    (total + limit - 1) / limit
  }

  lemma DivRange(x: int, d: int)
    requires x >= 0 && d > 0
    ensures (x / d) * d <= x < (x / d) * d + d && x / d >= 0
  {
  }

  /** An episode, with its span size when intake recorded one. */
  datatype Episode = Episode(start: int, end: int, eventCount: Option<int>)

  function EpisodeSliceCount(ep: Option<Episode>, limit: int): nat {
    if ep.None? then 1
    else SliceCount(if ep.value.eventCount.Some? then ep.value.eventCount.value
                    else ep.value.end - ep.value.start + 1, limit)
  }

  /** The identity of a slice. */
  datatype SliceInfo = SliceInfo(index: nat, count: nat, offset: nat, spanCount: nat, start: Option<int>,
                                 end: Option<int>, final: bool)

  datatype Page = Page(window: seq<Event>, truncated: bool, info: SliceInfo)

  function Clamp(index: int, count: nat): nat
    requires count >= 1
  {
    if index < 0 then 0 else if index > count - 1 then count - 1 else index
  }

  function Min(a: int, b: int): int { if a <= b then a else b }

  /** One bounded slice of the span. */
  function PageOf(span: seq<Event>, limit: int, sliceIndex: int): Page {
    var total := SliceCount(|span|, limit);
    var index := Clamp(sliceIndex, total);
    var offset := if limit > 0 then Min(index * limit, |span|) else 0;
    var stop := if limit > 0 then Min(index * limit + limit, |span|) else |span|;
    OffsetInRange(|span|, limit, index);
    var window := span[offset..stop];
    Page(window, (if limit > 0 then index * limit else 0) + |window| < |span|,
         SliceInfo(index, total, if limit > 0 then index * limit else 0, |span|,
                   if window != [] then Some(window[0].no) else None,
                   if window != [] then Some(window[|window| - 1].no) else None,
                   index >= total - 1))
  }

  lemma OffsetInRange(n: nat, limit: int, index: nat)
    requires index < SliceCount(n, limit)
    ensures limit > 0 ==> 0 <= index * limit <= n
    ensures limit > 0 && index < SliceCount(n, limit) - 1 ==> (index + 1) * limit < n
    ensures limit > 0 && index == SliceCount(n, limit) - 1 ==> n <= (index + 1) * limit
    ensures limit > 0 && n > 0 ==> index * limit < n
  {
    if limit > 0 && n > 0 {
      var count := SliceCount(n, limit);
      MulMonotone(index, count - 1, limit);
      if index < count - 1 {
        MulMonotone(index + 1, count - 1, limit);
      }
    }
  }

  lemma MulMonotone(a: int, b: int, d: int)
    requires 0 <= a <= b && d > 0
    ensures 0 <= a * d <= b * d
  {
  }

  /** The carrier's page of an episode of a bundle. */
  function EpisodeEvents(events: seq<Event>, ep: Episode, limit: int, sliceIndex: int): Page {
    PageOf(Scan(events, ep.start, ep.end), limit, sliceIndex)
  }

  // ---------------------------------------------------------------------------
  // Slices partition the span
  // ---------------------------------------------------------------------------

  /** The windows of the first `n` indices, joined. */
  function Windows(span: seq<Event>, limit: int, n: nat): seq<Event> {
    if n == 0 then [] else Windows(span, limit, n - 1) + PageOf(span, limit, n - 1).window
  }

  lemma {:induction false} WindowsJoin(span: seq<Event>, limit: int, n: nat)
    requires limit > 0 && n <= SliceCount(|span|, limit)
    ensures n * limit >= 0 && Windows(span, limit, n) == span[..Min(n * limit, |span|)]
  {
    hide CeilDiv, SliceCount, PageOf;
    if n > 0 {
      WindowsJoin(span, limit, n - 1);
      PageSpans(span, limit, n - 1);
      var from, to := (n - 1) * limit, Min(n * limit, |span|);
      assert span[..from] + span[from..to] == span[..to];
    }
  }

  lemma PageSpans(span: seq<Event>, limit: int, k: nat)
    requires limit > 0 && k < SliceCount(|span|, limit)
    ensures 0 <= k * limit <= Min((k + 1) * limit, |span|) && k * limit <= |span|
    ensures PageOf(span, limit, k).window == span[k * limit..Min((k + 1) * limit, |span|)]
  {
    hide CeilDiv, SliceCount;
    OffsetInRange(|span|, limit, k);
    assert (k + 1) * limit == k * limit + limit;
  }

  /** The windows of the indices 0 to count-1, in order, are exactly the span, each event once. */
  lemma {:induction false} SlicesPartition(span: seq<Event>, limit: int)
    ensures Windows(span, limit, SliceCount(|span|, limit)) == span
  {
    var count := SliceCount(|span|, limit);
    if limit > 0 {
      WindowsJoin(span, limit, count);
      OffsetInRange(|span|, limit, count - 1);
      assert (count - 1 + 1) * limit == count * limit;
      assert span[..|span|] == span;
    } else {
      assert Windows(span, limit, 1) == Windows(span, limit, 0) + PageOf(span, limit, 0).window;
    }
  }

  /** A page keeps to the limit, is never empty unless the span is, and says that more remains
      exactly when it is not the final slice. */
  lemma {:induction false} PageBounds(span: seq<Event>, limit: int, sliceIndex: int)
    ensures var p := PageOf(span, limit, sliceIndex);
            && (limit > 0 ==> |p.window| <= limit)
            && (p.window == [] <==> span == [])
            && (p.truncated <==> !p.info.final)
            && (p.info.final <==> sliceIndex >= p.info.count - 1 || p.info.count == 1)
            && p.info.index < p.info.count
  {
    var index := Clamp(sliceIndex, SliceCount(|span|, limit));
    OffsetInRange(|span|, limit, index);
    assert (index + 1) * limit == index * limit + limit;
  }

  /** What a page says of itself is true: how many slices of at most the limit the span needs, which of
      them this is, an index below the first or past the last being read as that one, where its window
      starts in the span, and the numbers of its first and last event. */
  lemma PageIdentity(span: seq<Event>, limit: int, sliceIndex: int)
    ensures var p := PageOf(span, limit, sliceIndex);
            && (if limit > 0 && span != [] then (p.info.count - 1) * limit < |span| <= p.info.count * limit
                else p.info.count == 1)
            && p.info.index == (if sliceIndex < 0 then 0
                                else if sliceIndex < p.info.count then sliceIndex else p.info.count - 1)
            && p.info.spanCount == |span|
            && p.info.offset == (if limit > 0 then p.info.index * limit else 0)
            && p.info.offset + |p.window| <= |span|
            && p.window == span[p.info.offset..p.info.offset + |p.window|]
            && (limit > 0 && p.info.index < p.info.count - 1 ==> |p.window| == limit)
            && p.info.start == (if p.window == [] then None else Some(p.window[0].no))
            && p.info.end == (if p.window == [] then None else Some(p.window[|p.window| - 1].no))
  {
    hide CeilDiv, SliceCount, PageOf;
    CountIsCeiling(|span|, limit);
    PageClamped(span, limit, sliceIndex);
    PageFields(span, limit, Clamp(sliceIndex, SliceCount(|span|, limit)));
  }

  lemma PageClamped(span: seq<Event>, limit: int, sliceIndex: int)
    ensures PageOf(span, limit, sliceIndex) == PageOf(span, limit, Clamp(sliceIndex, SliceCount(|span|, limit)))
  {
    hide CeilDiv, SliceCount;
  }

  lemma PageFields(span: seq<Event>, limit: int, index: nat)
    requires index < SliceCount(|span|, limit)
    ensures var p := PageOf(span, limit, index);
            && p.info.count == SliceCount(|span|, limit) && p.info.index == index && p.info.spanCount == |span|
            && p.info.offset == (if limit > 0 then index * limit else 0)
            && p.info.offset + |p.window| <= |span|
            && p.window == span[p.info.offset..p.info.offset + |p.window|]
            && (limit > 0 && index < p.info.count - 1 ==> |p.window| == limit)
            && p.info.start == (if p.window == [] then None else Some(p.window[0].no))
            && p.info.end == (if p.window == [] then None else Some(p.window[|p.window| - 1].no))
  {
    hide CeilDiv, SliceCount;
    OffsetInRange(|span|, limit, index);
    if limit > 0 {
      PageSpans(span, limit, index);
      assert (index + 1) * limit == index * limit + limit;
    } else {
      CountIsCeiling(|span|, limit);
    }
  }

  lemma CountIsCeiling(total: int, limit: int)
    ensures var n := SliceCount(total, limit);
            if limit > 0 && total > 0 then (n - 1) * limit < total <= n * limit else n == 1
  {
  }

  /** The slices an episode is counted with: as many as its recorded number of events needs, or else the
      width of its span; one at least, and one when there is no episode. */
  lemma EpisodeSlicesExactly(ep: Option<Episode>, limit: int)
    ensures var n := EpisodeSliceCount(ep, limit);
            && (ep.None? ==> n == 1)
            && (ep.Some? ==>
                  var total := if ep.value.eventCount.Some? then ep.value.eventCount.value
                               else ep.value.end - ep.value.start + 1;
                  if limit > 0 && total > 0 then (n - 1) * limit < total <= n * limit else n == 1)
  {
    hide CeilDiv, SliceCount;
    if ep.Some? {
      CountIsCeiling(if ep.value.eventCount.Some? then ep.value.eventCount.value
                     else ep.value.end - ep.value.start + 1, limit);
    }
  }

  // ---------------------------------------------------------------------------
  // No event is hidden
  // ---------------------------------------------------------------------------

  lemma CeilMonotone(a: int, b: int, limit: int)
    requires a <= b
    ensures SliceCount(a, limit) <= SliceCount(b, limit)
  {
    if a > 0 && limit > 0 {
      var m, n := CeilDiv(a, limit), CeilDiv(b, limit);
      if n < m {
        MulMonotone(n, m - 1, limit);
      }
    }
  }

  /** Strictly increasing numbers between two bounds are at most as many as the width between them. */
  lemma {:induction false} Pigeonhole(span: seq<Event>, start: int, end: int)
    requires Increasing(span) && forall e :: e in span ==> start <= e.no <= end
    ensures span != [] ==> |span| <= span[|span| - 1].no - start + 1
  {
    if |span| > 1 {
      var before := span[..|span| - 1];
      forall e | e in before
        ensures start <= e.no <= end
      {
        assert e in span;
      }
      Pigeonhole(before, start, end);
      assert before[|before| - 1].no < span[|span| - 1].no;
    } else if |span| == 1 {
      assert span[0] in span;
    }
  }

  lemma {:induction false} ScanIncreasing(events: seq<Event>, start: int, end: int)
    requires Increasing(events)
    ensures Increasing(Scan(events, start, end))
  {
    if events != [] {
      var before := events[..|events| - 1];
      ScanIncreasing(before, start, end);
      ScanHolds(before, start, end);
      var s := Scan(before, start, end);
      forall i | 0 <= i < |s|
        ensures s[i].no < events[|events| - 1].no
      {
        assert s[i] in before;
        var k :| 0 <= k < |before| && before[k] == s[i];
        assert events[k].no < events[|events| - 1].no;
      }
    }
  }

  /** When the size was not recorded, the width of the span stands in, and is never below the real
      count of slices. */
  lemma FallbackCovers(events: seq<Event>, ep: Episode, limit: int)
    requires Increasing(events) && ep.eventCount.None?
    ensures EpisodeSliceCount(Some(ep), limit) >= SliceCount(|Scan(events, ep.start, ep.end)|, limit)
  {
    hide Scan, Increasing, SliceCount;
    SpanFitsWidth(events, ep.start, ep.end);
    var n := |Scan(events, ep.start, ep.end)|;
    if n > 0 {
      CeilMonotone(n, ep.end - ep.start + 1, limit);
    } else {
      NoSlices(ep.end - ep.start + 1, limit);
    }
  }

  lemma NoSlices(width: int, limit: int)
    ensures SliceCount(width, limit) >= SliceCount(0, limit)
  {
  }

  lemma SpanFitsWidth(events: seq<Event>, start: int, end: int)
    requires Increasing(events)
    ensures var n := |Scan(events, start, end)|; n > 0 ==> n <= end - start + 1
  {
    hide Scan;
    var span := Scan(events, start, end);
    ScanIncreasing(events, start, end);
    ScanHolds(events, start, end);
    if span != [] {
      Pigeonhole(span, start, end);
      assert span[|span| - 1] in span;
    }
  }

  /** The window that holds the event at a position. */
  lemma Holder(span: seq<Event>, limit: int, at: nat) returns (k: nat)
    requires at < |span| && limit > 0
    ensures k < SliceCount(|span|, limit) && k * limit <= at < (k + 1) * limit
  {
    k := at / limit;
    DivRange(at, limit);
    assert (k + 1) * limit == k * limit + limit;
    var n := SliceCount(|span|, limit);
    if n <= k {
      MulMonotone(n, k, limit);
    }
  }

  /** The event at a position is in one of the first `offered` pages. */
  ghost predicate Offered(span: seq<Event>, limit: int, offered: nat, at: nat)
    requires at < |span|
  {
    exists k: nat :: k < offered && var p := PageOf(span, limit, k); p.info.offset <= at < p.info.offset + |p.window|
  }

  /** Every event of a span is on some page of the cursor's walk exactly when the walk is at least as
      long as the real count of slices. */
  lemma OffersAllExactly(span: seq<Event>, limit: int, offered: nat)
    requires limit > 0 && offered >= 1 && span != []
    ensures (forall at: nat :: at < |span| ==> Offered(span, limit, offered, at))
            <==> offered >= SliceCount(|span|, limit)
  {
    var count := SliceCount(|span|, limit);
    if offered >= count {
      forall at: nat | at < |span|
        ensures Offered(span, limit, offered, at)
      {
        var k := Holder(span, limit, at);
        PageAt(span, limit, k);
      }
    } else {
      OffsetInRange(|span|, limit, count - 1);
      var at := (count - 1) * limit;
      forall k: nat | k < offered
        ensures var p := PageOf(span, limit, k); p.info.offset + |p.window| <= at
      {
        PageAt(span, limit, k);
        MulMonotone(k + 1, count - 1, limit);
      }
      assert !Offered(span, limit, offered, at);
    }
  }

  lemma PageAt(span: seq<Event>, limit: int, k: nat)
    requires limit > 0 && k < SliceCount(|span|, limit)
    ensures var p := PageOf(span, limit, k);
            p.info.offset == k * limit && p.info.offset + |p.window| == Min((k + 1) * limit, |span|)
  {
    OffsetInRange(|span|, limit, k);
    assert (k + 1) * limit == k * limit + limit;
  }

  /** A page holds the events at its positions. */
  lemma OnPage(span: seq<Event>, limit: int, k: nat, at: nat)
    requires limit > 0 && at < |span|
    requires var p := PageOf(span, limit, k); p.info.offset <= at < p.info.offset + |p.window|
    ensures span[at] in PageOf(span, limit, k).window
  {
    var index := Clamp(k, SliceCount(|span|, limit));
    OffsetInRange(|span|, limit, index);
    assert (index + 1) * limit == index * limit + limit;
    var p := PageOf(span, limit, k);
    assert p.window[at - p.info.offset] == span[at];
  }

  lemma OfferedPage(span: seq<Event>, limit: int, count: nat, at: nat) returns (k: nat)
    requires limit > 0 && at < |span| && Offered(span, limit, count, at)
    ensures k < count && span[at] in PageOf(span, limit, k).window
  {
    hide PageOf;
    k :| k < count && var p := PageOf(span, limit, k); p.info.offset <= at < p.info.offset + |p.window|;
    OnPage(span, limit, k, at);
  }

  /** With the fallback, clamped cursors offer every event of every episode the validator accepts. */
  lemma FallbackHidesNothing(events: seq<Event>, ep: Episode, limit: int, at: nat)
    requires Increasing(events) && ep.eventCount.None? && limit > 0
    requires at < |Scan(events, ep.start, ep.end)|
    ensures exists k: nat :: k < EpisodeSliceCount(Some(ep), limit) &&
                             Scan(events, ep.start, ep.end)[at] in EpisodeEvents(events, ep, limit, k).window
  {
    hide Scan, PageOf, EpisodeSliceCount, Increasing, Offered;
    var span, count := Scan(events, ep.start, ep.end), EpisodeSliceCount(Some(ep), limit);
    FallbackCovers(events, ep, limit);
    OffersAllExactly(span, limit, count);
    assert Offered(span, limit, count, at);
    var k := OfferedPage(span, limit, count, at);
    assert EpisodeEvents(events, ep, limit, k) == PageOf(span, limit, k);
  }

  // ---------------------------------------------------------------------------
  // One record per session
  // ---------------------------------------------------------------------------

  datatype SessionRecord<+T> = SessionRecord(session: string, generation: int, content: T)

  /** The first record among those of the highest generation of its session. */
  ghost predicate Freshest<T>(records: seq<SessionRecord<T>>, i: nat)
    requires i < |records|
  {
    && (forall k :: 0 <= k < |records| && records[k].session == records[i].session ==>
          records[k].generation <= records[i].generation)
    && (forall k :: 0 <= k < i && records[k].session == records[i].session ==>
          records[k].generation < records[i].generation)
  }

  predicate Names<T>(records: seq<SessionRecord<T>>, session: string) {
    exists i :: 0 <= i < |records| && records[i].session == session
  }

  /** The sessions in the order they are first met. */
  function Sessions<T>(records: seq<SessionRecord<T>>): (order: seq<string>)
    ensures forall s :: s in order <==> Names(records, s)
    ensures forall i, j :: 0 <= i < j < |order| ==> order[i] != order[j]
  {
    if records == [] then []
    else
      var n := |records| - 1;
      var before := Sessions(records[..n]);
      assert forall s :: Names(records, s) <==> Names(records[..n], s) || records[n].session == s by {
        OneMoreNamed(records);
      }
      if records[n].session in before then before else before + [records[n].session]
  }

  lemma OneMoreNamed<T>(records: seq<SessionRecord<T>>)
    requires records != []
    ensures var n := |records| - 1;
            forall s :: Names(records, s) <==> Names(records[..n], s) || records[n].session == s
  {
    var n := |records| - 1;
    forall s | Names(records[..n], s)
      ensures Names(records, s)
    {
      var i :| 0 <= i < n && records[..n][i].session == s;
      assert records[i].session == s;
    }
  }

  lemma NextSession<T>(records: seq<SessionRecord<T>>, i: nat)
    requires i < |records|
    ensures var before, s := Sessions(records[..i]), records[i].session;
            Sessions(records[..i + 1]) == if s in before then before else before + [s]
  {
    assert records[..i + 1][..i] == records[..i];
  }

  /** A record stays the freshest until a newer one of its session comes. */
  lemma StaysFreshest<T>(records: seq<SessionRecord<T>>, i: nat, b: nat)
    requires b < i < |records| && Freshest(records[..i], b)
    ensures records[i].session != records[b].session || records[i].generation <= records[b].generation ==>
              Freshest(records[..i + 1], b)
    ensures records[i].session == records[b].session && records[i].generation > records[b].generation ==>
              Freshest(records[..i + 1], i)
  {
    var now, was := records[..i + 1], records[..i];
    forall k | 0 <= k < i
      ensures now[k] == was[k]
    {
    }
  }

  lemma FirstIsFreshest<T>(records: seq<SessionRecord<T>>, i: nat)
    requires i < |records| && records[i].session !in Sessions(records[..i])
    ensures Freshest(records[..i + 1], i)
  {
    hide Sessions;
    var now := records[..i + 1];
    forall k | 0 <= k < i
      ensures now[k].session != records[i].session
    {
      assert records[..i][k] == records[k];
      assert Names(records[..i], records[k].session);
    }
  }

  /** Two freshest records of one session are the same record. */
  lemma OneFreshest<T>(records: seq<SessionRecord<T>>, i: nat, b: nat)
    requires i < |records| && b < |records| && records[i].session == records[b].session
    requires Freshest(records, i) && Freshest(records, b)
    ensures i == b
  {
  }

  /** Exactly one record stays per session, the first of its newest generation, in the order the
      sessions are first met. */
  method FreshestRecords<T>(records: seq<SessionRecord<T>>) returns (best: map<string, nat>, order: seq<string>)
    ensures order == Sessions(records) && forall s :: s in best <==> s in order
    ensures forall s :: s in best ==>
              best[s] < |records| && records[best[s]].session == s && Freshest(records, best[s])
    ensures forall i :: 0 <= i < |records| && Freshest(records, i) ==>
              records[i].session in best && best[records[i].session] == i
  {
    hide Sessions, Freshest;
    NoSessions(records[..0]);
    best, order := map[], [];
    for i := 0 to |records|
      invariant order == Sessions(records[..i]) && forall s :: s in best <==> s in order
      invariant forall s :: s in best ==>
                  best[s] < i && records[best[s]].session == s && Freshest(records[..i], best[s])
    {
      NextSession(records, i);
      forall s | s in best
        ensures best[s] < i && records[best[s]].session == s && Freshest(records[..i], best[s])
        ensures s != records[i].session || records[i].generation <= records[best[s]].generation ==>
                  Freshest(records[..i + 1], best[s])
        ensures s == records[i].session && records[i].generation > records[best[s]].generation ==>
                  Freshest(records[..i + 1], i)
      {
        StaysFreshest(records, i, best[s]);
      }
      var s := records[i].session;
      if s !in best {
        FirstIsFreshest(records, i);
        order, best := order + [s], best[s := i];
      } else if records[i].generation > records[best[s]].generation {
        best := best[s := i];
      }
    }
    assert records[..|records|] == records;
    forall i | 0 <= i < |records| && Freshest(records, i)
      ensures records[i].session in best && best[records[i].session] == i
    {
      assert Names(records, records[i].session);
      OneFreshest(records, i, best[records[i].session]);
    }
  }

  lemma FreshestMeans<T>(records: seq<SessionRecord<T>>, i: nat)
    requires i < |records| && Freshest(records, i)
    ensures forall k :: 0 <= k < |records| && records[k].session == records[i].session ==>
              && records[k].generation <= records[i].generation
              && (k < i ==> records[k].generation < records[i].generation)
  {
  }

  lemma MetIsListed<T>(records: seq<SessionRecord<T>>, n: nat, b: nat)
    requires b < n <= |records|
    ensures records[b].session in Sessions(records[..n])
  {
    assert records[..n][b] == records[b];
    assert Names(records[..n], records[b].session);
  }

  /** Of two sessions, the one listed first is met first in the records. */
  lemma {:induction false} SessionsInOrder<T>(records: seq<SessionRecord<T>>, i: nat, j: nat)
    requires i < j < |Sessions(records)|
    ensures exists a :: 0 <= a < |records| && records[a].session == Sessions(records)[i] &&
              forall b :: 0 <= b < |records| && records[b].session == Sessions(records)[j] ==> a < b
  {
    var n := |records| - 1;
    var before := records[..n];
    NextSession(records, n);
    assert records[..n + 1] == records;
    var x, y := Sessions(records)[i], Sessions(records)[j];
    if j < |Sessions(before)| {
      SessionsInOrder(before, i, j);
      var a :| 0 <= a < |before| && before[a].session == x &&
        forall b :: 0 <= b < |before| && before[b].session == y ==> a < b;
      assert records[a] == before[a];
      forall b | 0 <= b < |records| && records[b].session == y
        ensures a < b
      {
        assert b < n ==> before[b].session == y;
      }
    } else {
      assert x in Sessions(before) && y !in Sessions(before);
      var a :| 0 <= a < |before| && before[a].session == x;
      assert records[a].session == x;
      forall b | 0 <= b < |records| && records[b].session == y
        ensures a < b
      {
        if b < n {
          MetIsListed(records, n, b);
        }
      }
    }
  }

  lemma NoSessions<T>(records: seq<SessionRecord<T>>)
    requires records == []
    ensures Sessions(records) == []
  {
  }
}
