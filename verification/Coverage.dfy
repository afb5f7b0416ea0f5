/** Semantic coverage: what the receipts say has been judged, slice by slice.

    Source: `_receipts_by_session`, `_slice_of`, `session_coverage`, `coverage` of
    `tools/saipal_engine/coverage.py`. */
module Coverage {
  import opened Options
  import Carrier

  /** A receipt: the slice it answered, and whether against final evidence. A slice below zero, or
      none, is read as slice 0. */
  datatype Receipt = Receipt(slice: Option<int>, final: bool)

  function SliceOf(r: Receipt): nat { if r.slice.None? || r.slice.value < 0 then 0 else r.slice.value }

  /** An episode with the number of slices it is handed over in, at least one. */
  datatype Episode = Episode(index: int, expected: nat)

  type Receipts = map<int, seq<Receipt>>

  function Entries(rs: Receipts, e: Episode): seq<Receipt> { if e.index in rs then rs[e.index] else [] }

  function Judged(entries: seq<Receipt>): set<nat> { set r | r in entries && r.final :: SliceOf(r) }

  function Started(entries: seq<Receipt>): set<nat> { (set r | r in entries :: SliceOf(r)) - Judged(entries) }

  function Within(s: set<nat>, n: nat): set<nat> { set i | i in s && i < n }

  function Slots(n: nat): (s: set<nat>)
    ensures |s| == n
    ensures forall i: nat :: i in s <==> i < n
  {
    if n == 0 then {} else Slots(n - 1) + {n - 1}
  }

  datatype Tally = Tally(final: nat, provisional: nat, slices: nat, slicesFinal: nat, slicesProvisional: nat)

  function Add(t: Tally, e: Episode, entries: seq<Receipt>): Tally {
    var covered := Within(Judged(entries), e.expected);
    var complete := e.expected > 0 && |covered| == e.expected;
    Tally(t.final + (if complete then 1 else 0),
          t.provisional + (if !complete && entries != [] then 1 else 0),
          t.slices + e.expected,
          t.slicesFinal + |covered|,
          t.slicesProvisional + |Within(Started(entries), e.expected)|)
  }

  function TallyOf(es: seq<Episode>, rs: Receipts): Tally {
    if es == [] then Tally(0, 0, 0, 0, 0)
    else Add(TallyOf(es[..|es| - 1], rs), es[|es| - 1], Entries(rs, es[|es| - 1]))
  }

  datatype Row = Row(
    episodes: nat, final: nat, provisional: nat, pending: nat, needsFinalReview: nat,
    slices: nat, slicesFinal: nat, slicesProvisional: nat, slicesPending: nat,
    claimedExhausted: bool, trulyExhausted: bool)

  function Max0(x: int): nat { if x > 0 then x else 0 }

  predicate HasFinal(entries: seq<Receipt>, slice: nat) { exists r :: r in entries && r.final && SliceOf(r) == slice }

  /** Every slice of the episode has a final receipt. */
  predicate FullyJudged(e: Episode, rs: Receipts) {
    e.expected > 0 && forall i: nat :: i < e.expected ==> HasFinal(Entries(rs, e), i)
  }

  // ---------------------------------------------------------------------------
  // Sets of slices
  // ---------------------------------------------------------------------------

  /** Counting the covered slices to the expected number is the same as every slice being judged. */
  lemma CompleteExactly(e: Episode, rs: Receipts)
    ensures e.expected > 0 && |Within(Judged(Entries(rs, e)), e.expected)| == e.expected <==> FullyJudged(e, rs)
  {
    var entries := Entries(rs, e);
    var covered := Within(Judged(entries), e.expected);
    SubsetSize(covered, Slots(e.expected));
    forall i: nat
      ensures i in Judged(entries) <==> HasFinal(entries, i)
    {
    }
    if FullyJudged(e, rs) {
      assert covered == Slots(e.expected);
    }
    if covered == Slots(e.expected) {
      forall i: nat | i < e.expected
        ensures HasFinal(entries, i)
      {
        assert i in covered;
      }
    }
  }

  /** The counted slices of an episode: those with a final receipt, and those with receipts of which
      none is final. */
  lemma CountedSlices(e: Episode, entries: seq<Receipt>, i: nat)
    ensures i in Within(Judged(entries), e.expected) <==> i < e.expected && HasFinal(entries, i)
    ensures i in Within(Started(entries), e.expected) <==>
              i < e.expected && !HasFinal(entries, i) && exists r :: r in entries && SliceOf(r) == i
  {
  }

  /** Final and provisional slices of an episode are different slices of it. */
  lemma SlicesFit(e: Episode, entries: seq<Receipt>)
    ensures |Within(Judged(entries), e.expected)| + |Within(Started(entries), e.expected)| <= e.expected
  {
    var f, s := Within(Judged(entries), e.expected), Within(Started(entries), e.expected);
    assert f * s == {};
    SubsetSize(f + s, Slots(e.expected));
    assert |f + s| == |f| + |s|;
  }

  // ---------------------------------------------------------------------------
  // One session
  // ---------------------------------------------------------------------------

  lemma {:induction false} TallyFits(es: seq<Episode>, rs: Receipts)
    ensures var t := TallyOf(es, rs); t.final + t.provisional <= |es| && t.slicesFinal + t.slicesProvisional <= t.slices
  {
    if es != [] {
      TallyFits(es[..|es| - 1], rs);
      SlicesFit(es[|es| - 1], Entries(rs, es[|es| - 1]));
    }
  }

  /** The episodes whose every slice is judged. */
  function Complete(es: seq<Episode>, rs: Receipts): (s: set<nat>)
    ensures forall k: nat :: k in s <==>
              k < |es| && es[k].expected > 0 && forall i: nat :: i < es[k].expected ==> HasFinal(Entries(rs, es[k]), i)
    ensures forall k: nat :: k in s <==> k < |es| && FullyJudged(es[k], rs)
  {
    if es == [] then {}
    else Complete(es[..|es| - 1], rs) + if FullyJudged(es[|es| - 1], rs) then {|es| - 1} else {}
  }

  /** The episodes with some work recorded and no conclusion. */
  function Unfinished(es: seq<Episode>, rs: Receipts): (s: set<nat>)
    ensures forall k: nat :: k in s <==>
              && k < |es| && es[k].index in rs && rs[es[k].index] != []
              && (es[k].expected == 0 || exists i: nat :: i < es[k].expected && !HasFinal(Entries(rs, es[k]), i))
    ensures forall k: nat :: k in s <==> k < |es| && !FullyJudged(es[k], rs) && Entries(rs, es[k]) != []
  {
    if es == [] then {}
    else
      var e := es[|es| - 1];
      Unfinished(es[..|es| - 1], rs) + if !FullyJudged(e, rs) && Entries(rs, e) != [] then {|es| - 1} else {}
  }

  lemma OneMoreCounted(es: seq<Episode>, rs: Receipts)
    requires es != []
    ensures var e, t, before := es[|es| - 1], TallyOf(es, rs), TallyOf(es[..|es| - 1], rs);
            && t.final == before.final + (if FullyJudged(e, rs) then 1 else 0)
            && t.provisional == before.provisional + (if !FullyJudged(e, rs) && Entries(rs, e) != [] then 1 else 0)
  {
    hide FullyJudged, Judged, Started, Within;
    CompleteExactly(es[|es| - 1], rs);
  }

  lemma OneMoreComplete(es: seq<Episode>, rs: Receipts)
    requires es != []
    ensures var e, before := es[|es| - 1], es[..|es| - 1];
            && |Complete(es, rs)| == |Complete(before, rs)| + (if FullyJudged(e, rs) then 1 else 0)
            && |Unfinished(es, rs)|
               == |Unfinished(before, rs)| + (if !FullyJudged(e, rs) && Entries(rs, e) != [] then 1 else 0)
  {
    hide FullyJudged, Entries;
    var n := |es| - 1;
    assert n !in Complete(es[..n], rs) && n !in Unfinished(es[..n], rs);
  }

  /** The tally counts what it says: complete episodes, and unfinished ones. */
  lemma {:induction false} CountsMean(es: seq<Episode>, rs: Receipts)
    ensures TallyOf(es, rs).final == |Complete(es, rs)| && TallyOf(es, rs).provisional == |Unfinished(es, rs)|
  {
    hide FullyJudged, Add;
    if es == [] {
      assert Complete(es, rs) == {} && Unfinished(es, rs) == {};
    } else {
      CountsMean(es[..|es| - 1], rs);
      OneMoreCounted(es, rs);
      OneMoreComplete(es, rs);
    }
  }

  lemma {:induction false} FinalExactly(es: seq<Episode>, rs: Receipts)
    ensures TallyOf(es, rs).final <= |es|
    ensures TallyOf(es, rs).final == |es| <==> forall k :: 0 <= k < |es| ==> FullyJudged(es[k], rs)
  {
    hide FullyJudged;
    if es != [] {
      FinalExactly(es[..|es| - 1], rs);
      CompleteExactly(es[|es| - 1], rs);
    }
  }

  /** Coverage conserves: final, provisional and pending episodes make up the total, and the slices
      likewise, so the clamps at zero never act; and a session is truly exhausted exactly when it
      has episodes and every slice of every one of them has a final receipt. */
  method SessionCoverage(es: seq<Episode>, rs: Receipts, claimedExhausted: bool) returns (row: Row)
    ensures row.episodes == |es| == row.final + row.provisional + row.pending == row.final + row.needsFinalReview
    ensures row.slices == row.slicesFinal + row.slicesProvisional + row.slicesPending
    ensures row.final == |Complete(es, rs)| && row.provisional == |Unfinished(es, rs)|
    ensures row.trulyExhausted <==> es != [] && forall k :: 0 <= k < |es| ==> FullyJudged(es[k], rs)
    ensures row.trulyExhausted <==>
              es != [] && forall k :: 0 <= k < |es| ==>
                es[k].expected > 0 && forall i: nat :: i < es[k].expected ==> HasFinal(Entries(rs, es[k]), i)
    ensures TallyOf(es, rs) == Tally(row.final, row.provisional, row.slices, row.slicesFinal, row.slicesProvisional)
    ensures row.claimedExhausted == claimedExhausted
  {
    hide FullyJudged, Judged, Started, Within, Complete, Unfinished, HasFinal;
    var final: nat, provisional: nat, slices: nat, slicesFinal: nat, slicesProvisional: nat := 0, 0, 0, 0, 0;
    for i := 0 to |es|
      invariant TallyOf(es[..i], rs) == Tally(final, provisional, slices, slicesFinal, slicesProvisional)
    {
      assert es[..i + 1][..i] == es[..i];
      var entries := Entries(rs, es[i]);
      var expected := es[i].expected;
      slices := slices + expected;
      var covered := Within(Judged(entries), expected);
      slicesFinal := slicesFinal + |covered|;
      slicesProvisional := slicesProvisional + |Within(Started(entries), expected)|;
      if expected > 0 && |covered| == expected {
        final := final + 1;
      } else if entries != [] {
        provisional := provisional + 1;
      }
    }
    assert es[..|es|] == es;
    TallyFits(es, rs);
    CountsMean(es, rs);
    FinalExactly(es, rs);
    ExhaustedMeans(es, rs);
    row := Row(|es|, final, provisional, Max0(|es| - final - provisional), Max0(|es| - final),
               slices, slicesFinal, slicesProvisional, Max0(slices - slicesFinal - slicesProvisional),
               claimedExhausted, |es| > 0 && final == |es|);
  }

  lemma ExhaustedMeans(es: seq<Episode>, rs: Receipts)
    ensures (forall k :: 0 <= k < |es| ==> FullyJudged(es[k], rs)) <==>
            forall k :: 0 <= k < |es| ==>
              es[k].expected > 0 && forall i: nat :: i < es[k].expected ==> HasFinal(Entries(rs, es[k]), i)
  {
    hide HasFinal, Entries;
  }

  /** A slice of an episode has a final receipt exactly when one of the receipts under the episode's
      index is final and names the slice; one that names none, or one below zero, names slice 0. */
  lemma FinalReceiptMeans(e: Episode, rs: Receipts, i: nat)
    ensures HasFinal(Entries(rs, e), i) <==>
              && e.index in rs
              && (exists r :: r in rs[e.index] && r.final &&
                    (if r.slice.None? || r.slice.value < 0 then 0 else r.slice.value) == i)
  {
    if e.index in rs {
      if r :| r in rs[e.index] && r.final && (if r.slice.None? || r.slice.value < 0 then 0 else r.slice.value) == i {
        assert SliceOf(r) == i;
      }
    }
  }

  function Sum(ns: seq<nat>): nat { if ns == [] then 0 else Sum(ns[..|ns| - 1]) + ns[|ns| - 1] }

  /** The slices of an episode with a final receipt. */
  ghost function FinalSlices(e: Episode, rs: Receipts): (s: set<nat>)
    ensures forall i: nat :: i in s <==> i < e.expected && HasFinal(Entries(rs, e), i)
  {
    set i | i in Slots(e.expected) && HasFinal(Entries(rs, e), i)
  }

  /** The slices of an episode with receipts of which none is final. */
  ghost function ProvisionalSlices(e: Episode, rs: Receipts): (s: set<nat>)
    ensures forall i: nat :: i in s <==>
              && i < e.expected && !HasFinal(Entries(rs, e), i)
              && exists r :: r in Entries(rs, e) && SliceOf(r) == i
  {
    set i | && i in Slots(e.expected) && !HasFinal(Entries(rs, e), i)
            && exists r :: r in Entries(rs, e) && SliceOf(r) == i
  }

  lemma SlicesOfLast(es: seq<Episode>, rs: Receipts)
    requires es != []
    ensures var e, t, before := es[|es| - 1], TallyOf(es, rs), TallyOf(es[..|es| - 1], rs);
            && t.slices == before.slices + e.expected
            && t.slicesFinal == before.slicesFinal + |FinalSlices(e, rs)|
            && t.slicesProvisional == before.slicesProvisional + |ProvisionalSlices(e, rs)|
  {
    hide Judged, Started, Within, HasFinal, SliceOf, FinalSlices, ProvisionalSlices;
    var e := es[|es| - 1];
    var entries := Entries(rs, e);
    forall i: nat
      ensures i in Within(Judged(entries), e.expected) <==> i in FinalSlices(e, rs)
      ensures i in Within(Started(entries), e.expected) <==> i in ProvisionalSlices(e, rs)
    {
      CountedSlices(e, entries, i);
    }
    assert FinalSlices(e, rs) == Within(Judged(entries), e.expected);
    assert ProvisionalSlices(e, rs) == Within(Started(entries), e.expected);
  }

  lemma SumOfMore(ns: seq<nat>, n: nat)
    ensures Sum(ns + [n]) == Sum(ns) + n
  {
    assert (ns + [n])[..|ns|] == ns;
  }

  /** The slice counts are the sums over the episodes: of the slices they are handed over in, of those
      with a final receipt, and of those with receipts of which none is final. */
  lemma {:induction false} SlicesCounted(es: seq<Episode>, rs: Receipts)
    ensures TallyOf(es, rs).slices == Sum(seq(|es|, k requires 0 <= k < |es| => es[k].expected))
    ensures TallyOf(es, rs).slicesFinal == Sum(seq(|es|, k requires 0 <= k < |es| => |FinalSlices(es[k], rs)|))
    ensures TallyOf(es, rs).slicesProvisional
         == Sum(seq(|es|, k requires 0 <= k < |es| => |ProvisionalSlices(es[k], rs)|))
  {
    hide TallyOf, FinalSlices, ProvisionalSlices, Sum;
    if es == [] {
      NothingCounted(rs);
    } else {
      var n := |es| - 1;
      var before, e := es[..n], es[n];
      SlicesCounted(before, rs);
      SlicesOfLast(es, rs);
      var slices := seq(n, k requires 0 <= k < n => before[k].expected);
      var final := seq(n, k requires 0 <= k < n => |FinalSlices(before[k], rs)|);
      var provisional := seq(n, k requires 0 <= k < n => |ProvisionalSlices(before[k], rs)|);
      SumOfMore(slices, e.expected);
      SumOfMore(final, |FinalSlices(e, rs)|);
      SumOfMore(provisional, |ProvisionalSlices(e, rs)|);
      assert seq(|es|, k requires 0 <= k < |es| => es[k].expected) == slices + [e.expected];
      assert seq(|es|, k requires 0 <= k < |es| => |FinalSlices(es[k], rs)|) == final + [|FinalSlices(e, rs)|];
      assert seq(|es|, k requires 0 <= k < |es| => |ProvisionalSlices(es[k], rs)|)
          == provisional + [|ProvisionalSlices(e, rs)|];
    }
  }

  lemma NothingCounted(rs: Receipts)
    ensures TallyOf([], rs) == Tally(0, 0, 0, 0, 0) && Sum([]) == 0
  {
  }

  // ---------------------------------------------------------------------------
  // More receipts
  // ---------------------------------------------------------------------------

  /** Every receipt of the first is one of the second. */
  ghost predicate Grows(rs: Receipts, more: Receipts) {
    forall i :: i in rs ==> i in more && forall r :: r in rs[i] ==> r in more[i]
  }

  lemma CoveredGrows(e: Episode, rs: Receipts, more: Receipts)
    requires Grows(rs, more)
    ensures |Within(Judged(Entries(rs, e)), e.expected)| <= |Within(Judged(Entries(more, e)), e.expected)| <= e.expected
  {
    var a, b := Within(Judged(Entries(rs, e)), e.expected), Within(Judged(Entries(more, e)), e.expected);
    SubsetSize(a, b);
    SubsetSize(b, Slots(e.expected));
  }

  /** Adding receipts never lowers a final count, of episodes or of slices. */
  lemma {:induction false} FinalOnlyGrows(es: seq<Episode>, rs: Receipts, more: Receipts)
    requires Grows(rs, more)
    ensures TallyOf(es, rs).final <= TallyOf(es, more).final
    ensures TallyOf(es, rs).slicesFinal <= TallyOf(es, more).slicesFinal
    ensures TallyOf(es, rs).slices == TallyOf(es, more).slices
  {
    hide Grows, Judged, Started, Within;
    if es != [] {
      FinalOnlyGrows(es[..|es| - 1], rs, more);
      CoveredGrows(es[|es| - 1], rs, more);
    }
  }

  // ---------------------------------------------------------------------------
  // Every session
  // ---------------------------------------------------------------------------

  /** A line of the receipts ledger; without a readable episode index it is skipped. */
  datatype Line = Line(session: string, episode: Option<int>, receipt: Receipt)

  function For(lines: seq<Line>, session: string, episode: int): seq<Receipt> {
    if lines == [] then []
    else
      var before, last := For(lines[..|lines| - 1], session, episode), lines[|lines| - 1];
      if last.session == session && last.episode == Some(episode) then before + [last.receipt] else before
  }

  /** The receipts under a session and an episode are those of its lines, one for each. */
  lemma {:induction false} ForMeans(lines: seq<Line>, session: string, episode: int)
    ensures forall r :: r in For(lines, session, episode) <==>
              exists k :: 0 <= k < |lines| && lines[k].session == session && lines[k].episode == Some(episode) &&
                lines[k].receipt == r
  {
    if lines != [] {
      var n := |lines| - 1;
      ForMeans(lines[..n], session, episode);
      forall k | 0 <= k < n
        ensures lines[..n][k] == lines[k]
      {
      }
    }
  }

  lemma {:induction false} ForCounts(lines: seq<Line>, session: string, episode: int)
    ensures |For(lines, session, episode)|
         == Sum(seq(|lines|, k requires 0 <= k < |lines| =>
                  if lines[k].session == session && lines[k].episode == Some(episode) then 1 else 0))
  {
    hide Sum;
    if lines == [] {
      NothingCounted(map[]);
    } else {
      var n := |lines| - 1;
      var before, last := lines[..n], lines[n];
      ForCounts(before, session, episode);
      var ones := seq(n, k requires 0 <= k < n =>
                        if before[k].session == session && before[k].episode == Some(episode) then 1 else 0);
      var one := if last.session == session && last.episode == Some(episode) then 1 else 0;
      SumOfMore(ones, one);
      assert seq(|lines|, k requires 0 <= k < |lines| =>
                   if lines[k].session == session && lines[k].episode == Some(episode) then 1 else 0)
          == ones + [one];
    }
  }

  /** Grouping loses no receipt and moves none to another unit. */
  method ReceiptsBySession(lines: seq<Line>) returns (out: map<string, Receipts>)
    ensures forall s, i :: (if s in out && i in out[s] then out[s][i] else []) == For(lines, s, i)
  {
    out := map[];
    for k := 0 to |lines|
      invariant forall s, i :: (if s in out && i in out[s] then out[s][i] else []) == For(lines[..k], s, i)
    {
      assert lines[..k + 1][..k] == lines[..k];
      var line := lines[k];
      if line.episode.Some? {
        var i := line.episode.value;
        var session: Receipts := if line.session in out then out[line.session] else map[];
        var entries := if i in session then session[i] else [];
        assert entries == For(lines[..k], line.session, i);
        out := out[line.session := session[i := entries + [line.receipt]]];
      }
    }
    assert lines[..|lines|] == lines;
  }

  /** What the index keeps of a session: its episodes, and whether its cursor says they are all done. */
  datatype Indexed = Indexed(episodes: seq<Episode>, exhausted: bool)

  type Record = Carrier.SessionRecord<Indexed>

  predicate Answers(line: Line, session: string, episode: int, slice: nat) {
    line.session == session && line.episode == Some(episode) && line.receipt.final && SliceOf(line.receipt) == slice
  }

  predicate Answered(lines: seq<Line>, session: string, episode: int, slice: nat) {
    exists k :: 0 <= k < |lines| && Answers(lines[k], session, episode, slice)
  }

  /** The ledger holds a final receipt for every slice of the episode. */
  predicate JudgedBy(lines: seq<Line>, session: string, e: Episode) {
    e.expected > 0 && forall i: nat :: i < e.expected ==> Answered(lines, session, e.index, i)
  }

  /** It has episodes, and every one of them is judged. */
  predicate AllJudged(lines: seq<Line>, record: Record) {
    record.content.episodes != [] &&
    forall k :: 0 <= k < |record.content.episodes| ==> JudgedBy(lines, record.session, record.content.episodes[k])
  }

  /** That is: for every slice of every episode, some line of the ledger is a final receipt for the
      session's episode and slice. */
  lemma AllJudgedMeans(lines: seq<Line>, record: Record)
    ensures AllJudged(lines, record) <==>
              && record.content.episodes != []
              && forall k :: 0 <= k < |record.content.episodes| ==>
                   var e := record.content.episodes[k];
                   e.expected > 0 &&
                   forall i: nat :: i < e.expected ==> Answered(lines, record.session, e.index, i)
    ensures forall episode, i :: Answered(lines, record.session, episode, i) <==>
              exists l :: 0 <= l < |lines| && lines[l].session == record.session &&
                lines[l].episode == Some(episode) && lines[l].receipt.final && SliceOf(lines[l].receipt) == i
  {
    hide SliceOf;
    forall episode, i
      ensures Answered(lines, record.session, episode, i) <==>
              exists l :: 0 <= l < |lines| && lines[l].session == record.session &&
                lines[l].episode == Some(episode) && lines[l].receipt.final && SliceOf(lines[l].receipt) == i
    {
      if l :| 0 <= l < |lines| && lines[l].session == record.session &&
              lines[l].episode == Some(episode) && lines[l].receipt.final && SliceOf(lines[l].receipt) == i {
        assert Answers(lines[l], record.session, episode, i);
      }
    }
  }

  ghost function JudgedEpisodes(lines: seq<Line>, record: Record): set<nat> {
    set k: nat | k < |record.content.episodes| && JudgedBy(lines, record.session, record.content.episodes[k])
  }

  predicate Conserves(row: Row) {
    && row.episodes == row.final + row.provisional + row.pending
    && row.slices == row.slicesFinal + row.slicesProvisional + row.slicesPending
  }

  /** The row says of the session what the ledger does. */
  ghost predicate Describes(row: Row, record: Record, lines: seq<Line>) {
    && Conserves(row) && row.episodes == |record.content.episodes|
    && row.final == |JudgedEpisodes(lines, record)|
    && row.claimedExhausted == record.content.exhausted
    && (row.trulyExhausted <==> AllJudged(lines, record))
  }

  lemma DescribesMeans(row: Row, record: Record, lines: seq<Line>)
    requires Describes(row, record, lines)
    ensures row.episodes == |record.content.episodes| == row.final + row.provisional + row.pending
    ensures row.slices == row.slicesFinal + row.slicesProvisional + row.slicesPending
    ensures row.final
         == |set k: nat | k < |record.content.episodes| && JudgedBy(lines, record.session, record.content.episodes[k])|
    ensures row.claimedExhausted == record.content.exhausted && (row.trulyExhausted <==> AllJudged(lines, record))
  {
    hide JudgedBy, AllJudged;
  }

  /** The entries of a session are its lines. */
  ghost predicate Groups(rs: Receipts, lines: seq<Line>, session: string) {
    forall i :: (if i in rs then rs[i] else []) == For(lines, session, i)
  }

  lemma {:induction false} ForAnswers(lines: seq<Line>, session: string, episode: int, slice: nat)
    ensures HasFinal(For(lines, session, episode), slice) <==> Answered(lines, session, episode, slice)
  {
    if lines != [] {
      var n := |lines| - 1;
      var before, last := lines[..n], lines[n];
      ForAnswers(before, session, episode, slice);
      assert Answered(lines, session, episode, slice) <==>
               Answered(before, session, episode, slice) || Answers(last, session, episode, slice) by {
        if k :| 0 <= k < n && Answers(before[k], session, episode, slice) {
          assert Answers(lines[k], session, episode, slice);
        }
      }
    }
  }

  lemma JudgedAlike(rs: Receipts, lines: seq<Line>, session: string, e: Episode)
    requires Groups(rs, lines, session)
    ensures FullyJudged(e, rs) <==> JudgedBy(lines, session, e)
  {
    hide For, HasFinal, Answered;
    assert Entries(rs, e) == For(lines, session, e.index);
    forall i: nat
      ensures HasFinal(Entries(rs, e), i) <==> Answered(lines, session, e.index, i)
    {
      ForAnswers(lines, session, e.index, i);
    }
  }

  lemma CompleteAlike(rs: Receipts, lines: seq<Line>, record: Record)
    requires Groups(rs, lines, record.session)
    ensures Complete(record.content.episodes, rs) == JudgedEpisodes(lines, record)
    ensures AllJudged(lines, record) <==>
              && record.content.episodes != []
              && forall k :: 0 <= k < |record.content.episodes| ==> FullyJudged(record.content.episodes[k], rs)
  {
    hide Complete, FullyJudged, JudgedBy, Groups;
    var es := record.content.episodes;
    forall k | 0 <= k < |es|
      ensures FullyJudged(es[k], rs) <==> JudgedBy(lines, record.session, es[k])
    {
      JudgedAlike(rs, lines, record.session, es[k]);
    }
  }

  datatype Totals = Totals(
    episodes: nat, final: nat, provisional: nat, pending: nat,
    slices: nat, slicesFinal: nat, slicesProvisional: nat, slicesPending: nat, exhausted: nat)

  const NO_TOTALS := Totals(0, 0, 0, 0, 0, 0, 0, 0, 0)

  function AddRow(t: Totals, row: Row): Totals {
    Totals(t.episodes + row.episodes, t.final + row.final, t.provisional + row.provisional, t.pending + row.pending,
           t.slices + row.slices, t.slicesFinal + row.slicesFinal, t.slicesProvisional + row.slicesProvisional,
           t.slicesPending + row.slicesPending, t.exhausted + (if row.trulyExhausted then 1 else 0))
  }

  function TotalsOf(rows: seq<Row>): Totals {
    if rows == [] then NO_TOTALS else AddRow(TotalsOf(rows[..|rows| - 1]), rows[|rows| - 1])
  }

  /** The totals conserve as each row does, and every session counts as exhausted exactly when every row
      says it is. */
  lemma {:induction false} TotalsConserve(rows: seq<Row>)
    requires forall row :: row in rows ==> Conserves(row)
    ensures var t := TotalsOf(rows);
            && t.episodes == t.final + t.provisional + t.pending
            && t.slices == t.slicesFinal + t.slicesProvisional + t.slicesPending
            && t.exhausted <= |rows|
            && (t.exhausted == |rows| <==> forall row :: row in rows ==> row.trulyExhausted)
  {
    if rows != [] {
      var before, last := rows[..|rows| - 1], rows[|rows| - 1];
      assert rows == before + [last] && last in rows;
      TotalsConserve(before);
    }
  }

  function Column(rows: seq<Row>, f: Row -> nat): seq<nat> {
    seq(|rows|, k requires 0 <= k < |rows| => f(rows[k]))
  }

  lemma {:induction false} ColumnSum(rows: seq<Row>, f: Row -> nat, total: Totals -> nat)
    requires total(NO_TOTALS) == 0 && forall t, row :: total(AddRow(t, row)) == total(t) + f(row)
    ensures total(TotalsOf(rows)) == Sum(Column(rows, f))
  {
    hide AddRow;
    if rows != [] {
      var n := |rows| - 1;
      ColumnSum(rows[..n], f, total);
      SumOfMore(Column(rows[..n], f), f(rows[n]));
      assert Column(rows, f) == Column(rows[..n], f) + [f(rows[n])];
    }
  }

  /** Each total is the sum of its column. */
  lemma TotalsSum(rows: seq<Row>)
    ensures var t := TotalsOf(rows);
            && t.episodes == Sum(seq(|rows|, k requires 0 <= k < |rows| => rows[k].episodes))
            && t.final == Sum(seq(|rows|, k requires 0 <= k < |rows| => rows[k].final))
            && t.provisional == Sum(seq(|rows|, k requires 0 <= k < |rows| => rows[k].provisional))
            && t.slices == Sum(seq(|rows|, k requires 0 <= k < |rows| => rows[k].slices))
            && t.slicesFinal == Sum(seq(|rows|, k requires 0 <= k < |rows| => rows[k].slicesFinal))
            && t.slicesProvisional == Sum(seq(|rows|, k requires 0 <= k < |rows| => rows[k].slicesProvisional))
            && t.exhausted == Sum(seq(|rows|, k requires 0 <= k < |rows| => if rows[k].trulyExhausted then 1 else 0))
  {
    hide Sum, TotalsOf;
    var episodes, final, provisional := (r: Row) => r.episodes, (r: Row) => r.final, (r: Row) => r.provisional;
    var slices, slicesFinal := (r: Row) => r.slices, (r: Row) => r.slicesFinal;
    var slicesProvisional, exhausted :=
      (r: Row) => r.slicesProvisional, (r: Row) => (if r.trulyExhausted then 1 else 0) as nat;
    ColumnSum(rows, episodes, (t: Totals) => t.episodes);
    ColumnSum(rows, final, (t: Totals) => t.final);
    ColumnSum(rows, provisional, (t: Totals) => t.provisional);
    ColumnSum(rows, slices, (t: Totals) => t.slices);
    ColumnSum(rows, slicesFinal, (t: Totals) => t.slicesFinal);
    ColumnSum(rows, slicesProvisional, (t: Totals) => t.slicesProvisional);
    ColumnSum(rows, exhausted, (t: Totals) => t.exhausted);
    assert Column(rows, episodes) == seq(|rows|, k requires 0 <= k < |rows| => rows[k].episodes);
    assert Column(rows, final) == seq(|rows|, k requires 0 <= k < |rows| => rows[k].final);
    assert Column(rows, provisional) == seq(|rows|, k requires 0 <= k < |rows| => rows[k].provisional);
    assert Column(rows, slices) == seq(|rows|, k requires 0 <= k < |rows| => rows[k].slices);
    assert Column(rows, slicesFinal) == seq(|rows|, k requires 0 <= k < |rows| => rows[k].slicesFinal);
    assert Column(rows, slicesProvisional) == seq(|rows|, k requires 0 <= k < |rows| => rows[k].slicesProvisional);
    assert Column(rows, exhausted)
        == seq(|rows|, k requires 0 <= k < |rows| => if rows[k].trulyExhausted then 1 else 0);
  }

  lemma NoRows()
    ensures TotalsOf([]) == NO_TOTALS
  {
  }

  lemma MoreTotals(rows: seq<Row>, row: Row)
    ensures TotalsOf(rows + [row]) == AddRow(TotalsOf(rows), row)
  {
    assert (rows + [row])[..|rows|] == rows;
  }

  /** The row of one session, from its receipts. */
  method RowOf(rs: Receipts, ghost lines: seq<Line>, record: Record) returns (row: Row)
    requires Groups(rs, lines, record.session)
    ensures Describes(row, record, lines)
  {
    hide Complete, Unfinished, FullyJudged, AllJudged, JudgedEpisodes, Groups, TallyOf;
    row := SessionCoverage(record.content.episodes, rs, record.content.exhausted);
    CompleteAlike(rs, lines, record);
  }

  /** The coverage of every indexed session: one row for the freshest record of each, in the index's
      order. A session is reported as claiming more than its receipts exactly when its freshest record
      claims exhaustion and the ledger lacks a final receipt for some slice of some episode of it, or
      it has no episodes at all. */
  method Report(lines: seq<Line>, records: seq<Record>)
    returns (sessions: seq<string>, rows: seq<Row>, totals: Totals, discrepancies: seq<string>)
    ensures sessions == Carrier.Sessions(records) && |rows| == |sessions|
    ensures forall i, k | 0 <= i < |records| && 0 <= k < |rows|
                          && Carrier.Freshest(records, i) && records[i].session == sessions[k]
              :: Describes(rows[k], records[i], lines)
    ensures totals == TotalsOf(rows)
    ensures totals.episodes == totals.final + totals.provisional + totals.pending
    ensures totals.slices == totals.slicesFinal + totals.slicesProvisional + totals.slicesPending
    ensures forall i :: 0 <= i < |records| && Carrier.Freshest(records, i) ==>
              (records[i].session in discrepancies <==> records[i].content.exhausted && !AllJudged(lines, records[i]))
    ensures forall s :: s in discrepancies ==> s in sessions
  {
    hide Carrier.Sessions, Carrier.Freshest, For, AllJudged, JudgedEpisodes, Conserves, TotalsOf, AddRow;
    NoRows();
    var receipts := ReceiptsBySession(lines);
    var best;
    best, sessions := Carrier.FreshestRecords(records);
    rows, totals, discrepancies := [], NO_TOTALS, [];
    for k := 0 to |sessions|
      invariant |rows| == k && totals == TotalsOf(rows)
      invariant forall j :: 0 <= j < k ==> Describes(rows[j], records[best[sessions[j]]], lines)
      invariant forall s :: s in discrepancies <==>
                  exists j :: 0 <= j < k && s == sessions[j] && rows[j].claimedExhausted && !rows[j].trulyExhausted
    {
      var record := records[best[sessions[k]]];
      var rs: Receipts := if sessions[k] in receipts then receipts[sessions[k]] else map[];
      assert Groups(rs, lines, record.session);
      var row := RowOf(rs, lines, record);
      MoreTotals(rows, row);
      rows, totals := rows + [row], AddRow(totals, row);
      if row.claimedExhausted && !row.trulyExhausted {
        discrepancies := discrepancies + [sessions[k]];
      }
    }
    TotalsConserve(rows);
  }
}
