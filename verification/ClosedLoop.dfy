/** The closed-loop ledger: audits linked to findings, and an append-only trail of maintainer
    verdicts.

    Source: `link_finding_audit`, `import_maintainer_disposition`, `import_disposition_file` of
    `tools/saipal_engine/closedloop.py`. Timestamps are left out. */
module ClosedLoop {
  import opened Options

  datatype Disposition =
    | CONFIRMED_PROTOCOL_DEFECT | ENGINE_FIX | ADAPTER_FIX | HARNESS_FIX | TEST_ONLY | DOCUMENTATION_ONLY
    | MODEL_GUIDANCE | NO_CHANGE | REJECTED_FINDING | NOT_APPLICABLE | DUPLICATE | SUPERSEDED
    | Unlisted(name: string)

  /** A verdict as imported: an absent receipt or work id keeps what the link already has. */
  datatype Verdict = Verdict(disposition: Disposition, fix: Option<string>, receipt: Option<string>,
                             work: Option<string>)

  datatype Link = Link(
    finding: string, audit: int, sha: string,
    current: Option<Verdict>, history: seq<Verdict>)

  datatype Error = UnknownDisposition | NotLinked | AlreadyLinked | Malformed | Contradictory

  datatype Result<+T> = Ok(value: T) | Err(error: Error)

  // ---------------------------------------------------------------------------
  // One link
  // ---------------------------------------------------------------------------

  function Or(a: Option<string>, b: Option<string>): Option<string> { if a.Some? then a else b }

  /** The verdict with what it leaves open carried forward. */
  function Carried(prior: Option<Verdict>, v: Verdict): Verdict {
    if prior.None? then v else v.(receipt := Or(v.receipt, prior.value.receipt), work := Or(v.work, prior.value.work))
  }

  /** A repeated verdict changes nothing; a new one moves the old into history. */
  function Revised(l: Link, v: Verdict): Link {
    var merged := Carried(l.current, v);
    if l.current == Some(merged) then l
    else l.(current := Some(merged), history := if l.current.Some? then l.history + [l.current.value] else l.history)
  }

  /** Everything that was ever decided, in order. */
  function Trail(l: Link): seq<Verdict> { if l.current.Some? then l.history + [l.current.value] else l.history }

  /** The imports of a link as verdicts, each with what it left open carried forward. */
  function CarriedLog(log: seq<Verdict>): (r: seq<Verdict>)
    ensures |r| == |log|
  {
    if log == [] then []
    else
      var before := CarriedLog(log[..|log| - 1]);
      before + [Carried(if before == [] then None else Some(before[|before| - 1]), log[|log| - 1])]
  }

  function Dedup(vs: seq<Verdict>): seq<Verdict> {
    if |vs| <= 1 then vs
    else if vs[|vs| - 1] == vs[|vs| - 2] then Dedup(vs[..|vs| - 1])
    else Dedup(vs[..|vs| - 1]) + [vs[|vs| - 1]]
  }

  lemma {:induction false} DedupLast(vs: seq<Verdict>)
    requires vs != []
    ensures Dedup(vs) != [] && Dedup(vs)[|Dedup(vs)| - 1] == vs[|vs| - 1]
  {
    if |vs| > 1 {
      DedupLast(vs[..|vs| - 1]);
    }
  }

  // ---------------------------------------------------------------------------
  // The ledger as values
  // ---------------------------------------------------------------------------

  type Links = seq<Link>

  predicate Unique(links: Links) { forall i, j :: 0 <= i < j < |links| ==> links[i].audit != links[j].audit }

  predicate Linked(links: Links, audit: int) { exists i :: 0 <= i < |links| && links[i].audit == audit }

  /** The first entry with this audit number, or the length. */
  function IndexOf(links: Links, audit: int): (i: nat)
    ensures i <= |links|
    ensures i < |links| ==> links[i].audit == audit
    ensures forall k :: 0 <= k < i ==> links[k].audit != audit
  {
    if links == [] then 0 else if links[0].audit == audit then 0 else 1 + IndexOf(links[1..], audit)
  }

  function LinkAudit(links: Links, finding: string, audit: int, sha: string): Result<Links> {
    var i := IndexOf(links, audit);
    if i == |links| then Ok(links + [Link(finding, audit, sha, None, [])])
    else if links[i].finding == finding && links[i].sha == sha then Ok(links)
    else Err(AlreadyLinked)
  }

  function Import(links: Links, audit: int, v: Verdict): Result<Links> {
    if v.disposition.Unlisted? then Err(UnknownDisposition)
    else
      var i := IndexOf(links, audit);
      if i == |links| then Err(NotLinked) else Ok(links[i := Revised(links[i], v)])
  }

  /** One row of a disposition file. */
  datatype Row = Row(audit: int, v: Verdict) | BadRow

  predicate Agrees(previous: Verdict, v: Verdict) {
    && previous.disposition == v.disposition && previous.receipt == v.receipt && previous.work == v.work
    && (v.fix.Some? ==> previous.fix == v.fix)
  }

  /** The last row before this one that decides the same audit. */
  function Previous(rows: seq<Row>, audit: int): Option<Verdict> {
    if rows == [] then None
    else
      var last := rows[|rows| - 1];
      if last.Row? && last.audit == audit then Some(last.v) else Previous(rows[..|rows| - 1], audit)
  }

  function RowError(links: Links, before: seq<Row>, row: Row): Option<Error> {
    if row.BadRow? then Some(Malformed)
    else if row.v.disposition.Unlisted? then Some(UnknownDisposition)
    else if Previous(before, row.audit).Some? && !Agrees(Previous(before, row.audit).value, row.v)
    then Some(Contradictory)
    else if !Linked(links, row.audit) then Some(NotLinked)
    else None
  }

  /** What is wrong with a file: the error of its first bad row. */
  function FileError(links: Links, rows: seq<Row>): Option<Error> {
    if rows == [] then None
    else
      var before := FileError(links, rows[..|rows| - 1]);
      if before.Some? then before else RowError(links, rows[..|rows| - 1], rows[|rows| - 1])
  }

  /** The rows imported one at a time. */
  function ImportEach(links: Links, rows: seq<Row>): Result<Links> {
    if rows == [] then Ok(links)
    else match ImportEach(links, rows[..|rows| - 1])
         case Err(e) => Err(e)
         case Ok(l) => if rows[|rows| - 1].BadRow? then Err(Malformed)
                       else Import(l, rows[|rows| - 1].audit, rows[|rows| - 1].v)
  }

  function ImportFile(links: Links, rows: seq<Row>): Result<Links> {
    var e := FileError(links, rows);
    if e.Some? then Err(e.value) else ImportEach(links, rows)
  }

  lemma IndexUnique(links: Links, i: nat)
    requires Unique(links) && i < |links|
    ensures IndexOf(links, links[i].audit) == i
  {
  }

  predicate SameAudits(a: Links, b: Links) { |a| == |b| && forall i :: 0 <= i < |a| ==> a[i].audit == b[i].audit }

  /** A file without errors imports row by row without errors, so an accepted batch equals the fold
      of single imports. */
  lemma {:induction false} AcceptedIsFold(links: Links, rows: seq<Row>)
    requires FileError(links, rows).None?
    ensures ImportEach(links, rows).Ok? && SameAudits(links, ImportEach(links, rows).value)
  {
    if rows != [] {
      var before, row := rows[..|rows| - 1], rows[|rows| - 1];
      AcceptedIsFold(links, before);
      var l := ImportEach(links, before).value;
      assert RowError(links, before, row).None?;
      var i :| 0 <= i < |links| && links[i].audit == row.audit;
      assert l[i].audit == row.audit;
    }
  }

  /** The row decides an audit otherwise than the last row before it that decides the same audit. */
  predicate Contradicts(rows: seq<Row>, i: nat)
    requires i < |rows|
  {
    && rows[i].Row? && Previous(rows[..i], rows[i].audit).Some?
    && !Agrees(Previous(rows[..i], rows[i].audit).value, rows[i].v)
  }

  lemma {:induction false} ImportsFindLinks(links: Links, rows: seq<Row>)
    requires ImportEach(links, rows).Ok?
    ensures SameAudits(links, ImportEach(links, rows).value)
    ensures rows != [] ==>
              var row := rows[|rows| - 1];
              row.Row? && !row.v.disposition.Unlisted? && Linked(links, row.audit)
  {
    if rows != [] {
      var before, row := rows[..|rows| - 1], rows[|rows| - 1];
      ImportsFindLinks(links, before);
      var i := IndexOf(ImportEach(links, before).value, row.audit);
      assert links[i].audit == row.audit;
    }
  }

  /** The converse: rows that import one at a time without error make a file that is refused exactly
      when one of them contradicts the last row of its audit before it. */
  lemma {:induction false} RefusedOnlyForContradiction(links: Links, rows: seq<Row>)
    requires ImportEach(links, rows).Ok?
    ensures FileError(links, rows).None? || FileError(links, rows) == Some(Contradictory)
    ensures FileError(links, rows) == Some(Contradictory) <==> exists i: nat :: i < |rows| && Contradicts(rows, i)
  {
    hide Import, IndexOf, Linked, Agrees, Previous;
    if rows != [] {
      var n := |rows| - 1;
      var before := rows[..n];
      ImportsFindLinks(links, rows);
      RefusedOnlyForContradiction(links, before);
      forall k: nat | k < n
        ensures Contradicts(before, k) <==> Contradicts(rows, k)
      {
        assert before[..k] == rows[..k];
      }
      if i: nat :| i < n && Contradicts(before, i) {
        assert Contradicts(rows, i);
      }
      assert RowError(links, before, rows[n]) == if Contradicts(rows, n) then Some(Contradictory) else None;
    }
  }

  /** The last row of an audit is one of its rows, and none comes after it. */
  lemma {:induction false} PreviousIs(rows: seq<Row>, audit: int)
    ensures Previous(rows, audit).None? ==> forall i :: 0 <= i < |rows| && rows[i].Row? ==> rows[i].audit != audit
    ensures Previous(rows, audit).Some? ==>
              exists i :: 0 <= i < |rows| && rows[i] == Row(audit, Previous(rows, audit).value) &&
                forall k :: i < k < |rows| && rows[k].Row? ==> rows[k].audit != audit
  {
    if rows != [] {
      var before, last := rows[..|rows| - 1], rows[|rows| - 1];
      if last.Row? && last.audit == audit {
        assert rows[|rows| - 1] == Row(audit, Previous(rows, audit).value);
      } else {
        PreviousIs(before, audit);
        if Previous(before, audit).Some? {
          var i :| 0 <= i < |before| && before[i] == Row(audit, Previous(before, audit).value) &&
            forall k :: i < k < |before| && before[k].Row? ==> before[k].audit != audit;
          assert rows[i] == before[i];
        }
      }
    }
  }

  /** A file is accepted exactly when every row has a listed disposition for a linked audit, and any two
      rows of one audit agree: in disposition, receipt and work, and in the fix version wherever the
      later one gives it. */
  lemma {:induction false} AcceptedExactly(links: Links, rows: seq<Row>)
    ensures FileError(links, rows).None? <==>
            && (forall i :: 0 <= i < |rows| ==>
                  rows[i].Row? && !rows[i].v.disposition.Unlisted? &&
                  exists k :: 0 <= k < |links| && links[k].audit == rows[i].audit)
            && (forall i, j :: 0 <= i < j < |rows| && rows[i].Row? && rows[j].Row? && rows[i].audit == rows[j].audit ==>
                  && rows[i].v.disposition == rows[j].v.disposition && rows[i].v.receipt == rows[j].v.receipt
                  && rows[i].v.work == rows[j].v.work && (rows[j].v.fix.Some? ==> rows[i].v.fix == rows[j].v.fix))
  {
    hide Previous;
    if rows != [] {
      var n := |rows| - 1;
      var before, row := rows[..n], rows[n];
      AcceptedExactly(links, before);
      if row.Row? {
        PreviousIs(before, row.audit);
      }
    }
  }

  /** A file is refused with the error of its first bad row, and the first thing that is wrong with that
      row: its form, its disposition, a row of its audit before it that it does not agree with, or that
      its audit is not linked. */
  lemma {:induction false} RefusedWith(links: Links, rows: seq<Row>) returns (n: nat)
    requires FileError(links, rows).Some?
    ensures n < |rows| && FileError(links, rows[..n]).None?
    ensures var e, row := FileError(links, rows).value, rows[n];
            && (e == Malformed <==> row.BadRow?)
            && (row.Row? ==>
                  && (e == UnknownDisposition <==> row.v.disposition.Unlisted?)
                  && (e == Contradictory || e == NotLinked || e == UnknownDisposition)
                  && (e == Contradictory <==>
                        && !row.v.disposition.Unlisted?
                        && exists i :: 0 <= i < n && rows[i].Row? && rows[i].audit == row.audit &&
                             (|| rows[i].v.disposition != row.v.disposition || rows[i].v.receipt != row.v.receipt
                              || rows[i].v.work != row.v.work
                              || (row.v.fix.Some? && rows[i].v.fix != row.v.fix)))
                  && (e == NotLinked ==> forall k :: 0 <= k < |links| ==> links[k].audit != row.audit))
  {
    hide Previous;
    var before, row := rows[..|rows| - 1], rows[|rows| - 1];
    if FileError(links, before).Some? {
      n := RefusedWith(links, before);
      assert rows[..n] == before[..n];
    } else {
      n := |rows| - 1;
      AcceptedExactly(links, before);
      if row.Row? {
        PreviousIs(before, row.audit);
      }
    }
  }

  // ---------------------------------------------------------------------------
  // When a file decides each audit once
  // ---------------------------------------------------------------------------

  /** The first row of each audit. */
  function Firsts(rows: seq<Row>): seq<Row> {
    if rows == [] then []
    else
      var before, last := rows[..|rows| - 1], rows[|rows| - 1];
      if last.Row? && Previous(before, last.audit).Some? then Firsts(before) else Firsts(before) + [last]
  }

  /** The row leaves open the fix version that the last row of its audit gave. */
  predicate DropsFix(rows: seq<Row>, i: nat)
    requires i < |rows|
  {
    && rows[i].Row? && rows[i].v.fix.None?
    && Previous(rows[..i], rows[i].audit).Some? && Previous(rows[..i], rows[i].audit).value.fix.Some?
  }

  /** Importing the verdict over this one changes nothing. */
  predicate Matches(current: Option<Verdict>, v: Verdict) {
    && current.Some? && current.value.disposition == v.disposition && current.value.fix == v.fix
    && (v.receipt.Some? ==> current.value.receipt == v.receipt) && (v.work.Some? ==> current.value.work == v.work)
  }

  lemma RevisedMatches(l: Link, v: Verdict)
    ensures Matches(Revised(l, v).current, v)
    ensures Matches(l.current, v) ==> Revised(l, v) == l
  {
  }

  lemma OneMoreImport(links: Links, rows: seq<Row>, row: Row, i: nat)
    requires Unique(links) && ImportEach(links, rows).Ok? && SameAudits(links, ImportEach(links, rows).value)
    requires i < |links| && row.Row? && links[i].audit == row.audit && !row.v.disposition.Unlisted?
    ensures var l := ImportEach(links, rows).value;
            ImportEach(links, rows + [row]) == Ok(l[i := Revised(l[i], row.v)])
  {
    hide Revised;
    var l := ImportEach(links, rows).value;
    assert (rows + [row])[..|rows|] == rows;
    IndexUnique(l, i);
  }

  /** The last row of a file without errors: what it is, and the entry it decides. */
  lemma LastRow(links: Links, rows: seq<Row>) returns (i: nat)
    requires FileError(links, rows).None? && rows != []
    ensures var before, row := rows[..|rows| - 1], rows[|rows| - 1];
            && FileError(links, before).None? && RowError(links, before, row).None?
            && row.Row? && !row.v.disposition.Unlisted? && rows == before + [row]
            && i < |links| && links[i].audit == row.audit
  {
    var before, row := rows[..|rows| - 1], rows[|rows| - 1];
    assert RowError(links, before, row).None?;
    i :| 0 <= i < |links| && links[i].audit == row.audit;
  }

  /** Each link stands as its last row decided it. */
  lemma {:induction false} DecidedByLast(links: Links, rows: seq<Row>, i: nat)
    requires Unique(links) && FileError(links, rows).None? && i < |links|
    ensures ImportEach(links, rows).Ok? && SameAudits(links, ImportEach(links, rows).value)
    ensures var last := Previous(rows, links[i].audit);
            last.Some? ==> Matches(ImportEach(links, rows).value[i].current, last.value)
  {
    hide FileError, Matches, Revised, RowError;
    AcceptedIsFold(links, rows);
    if rows == [] {
    } else {
      var at := LastRow(links, rows);
      var before, row := rows[..|rows| - 1], rows[|rows| - 1];
      DecidedByLast(links, before, i);
      OneMoreImport(links, before, row, at);
      RevisedMatches(ImportEach(links, before).value[at], row.v);
    }
  }

  /** What the first rows say of an audit against what the last row says. */
  lemma {:induction false} FirstAndLast(links: Links, rows: seq<Row>, audit: int)
    requires FileError(links, rows).None?
    ensures FileError(links, Firsts(rows)).None?
    ensures var first, last := Previous(Firsts(rows), audit), Previous(rows, audit);
            && (first.Some? <==> last.Some?)
            && (last.Some? ==> first.value.fix == last.value.fix || (first.value.fix.Some? && last.value.fix.None?))
            && (last.Some? && first.value.fix != last.value.fix ==> exists i: nat :: i < |rows| && DropsFix(rows, i))
  {
    hide FileError;
    if rows == [] {
      NoRowsNoError(links);
    } else {
      var at := LastRow(links, rows);
      var n := |rows| - 1;
      var before, row := rows[..n], rows[n];
      FirstAndLast(links, before, audit);
      FirstAndLast(links, before, row.audit);
      if i: nat :| i < n && DropsFix(before, i) {
        assert before[..i] == rows[..i];
        assert DropsFix(rows, i);
      }
      if Previous(before, row.audit).None? {
        assert Firsts(rows)[..|Firsts(before)|] == Firsts(before);
        ErrorFree(links, Firsts(before), row);
      } else if audit == row.audit && row.v.fix.None? && Previous(before, audit).value.fix.Some? {
        assert DropsFix(rows, n);
      }
    }
  }

  lemma NoRowsNoError(links: Links)
    ensures FileError(links, []).None?
  {
  }

  lemma ErrorFree(links: Links, rows: seq<Row>, row: Row)
    requires FileError(links, rows).None? && RowError(links, rows, row).None?
    ensures FileError(links, rows + [row]).None?
  {
    assert (rows + [row])[..|rows|] == rows;
  }

  /** A dropped fix stays dropped: no later row of an accepted file gives it again. */
  lemma {:induction false} DroppedStays(links: Links, rows: seq<Row>, i: nat)
    requires FileError(links, rows).None? && i < |rows| && DropsFix(rows, i)
    ensures var a := rows[i].audit;
            && Previous(rows, a).Some? && Previous(rows, a).value.fix.None?
            && Previous(Firsts(rows), a).Some? && Previous(Firsts(rows), a).value.fix.Some?
    decreases |rows|
  {
    hide FileError;
    var at := LastRow(links, rows);
    var n := |rows| - 1;
    var before, row, a := rows[..n], rows[n], rows[i].audit;
    FirstAndLast(links, before, a);
    if i < n {
      assert before[..i] == rows[..i];
      DroppedStays(links, before, i);
    }
    if Previous(before, row.audit).None? {
      assert Firsts(rows)[..|Firsts(before)|] == Firsts(before);
    }
  }

  /** An accepted file decides each audit once, as its first row says, exactly when no row leaves open a
      fix version that the last row of its audit gave. */
  lemma {:induction false} DecidesOnceExactly(links: Links, rows: seq<Row>)
    requires Unique(links) && FileError(links, rows).None?
    ensures ImportEach(links, rows) == ImportEach(links, Firsts(rows)) <==>
              forall i: nat :: i < |rows| ==> !DropsFix(rows, i)
  {
    hide FileError, ImportEach, Matches;
    if i: nat :| i < |rows| && DropsFix(rows, i) {
      DroppedStays(links, rows, i);
      FirstAndLast(links, rows, rows[i].audit);
      var at := EntryOf(links, rows, i);
      DecidedByLast(links, rows, at);
      DecidedByLast(links, Firsts(rows), at);
      MatchesFix(ImportEach(links, rows).value[at].current, Previous(rows, rows[i].audit).value);
      MatchesFix(ImportEach(links, Firsts(rows)).value[at].current, Previous(Firsts(rows), rows[i].audit).value);
    } else {
      NoDropFirsts(links, rows);
    }
  }

  lemma MatchesFix(current: Option<Verdict>, v: Verdict)
    requires Matches(current, v)
    ensures current.Some? && current.value.fix == v.fix
  {
  }

  lemma {:induction false} EntryOf(links: Links, rows: seq<Row>, i: nat) returns (at: nat)
    requires FileError(links, rows).None? && i < |rows|
    ensures rows[i].Row? && at < |links| && links[at].audit == rows[i].audit
    decreases |rows|
  {
    hide FileError;
    at := LastRow(links, rows);
    if i < |rows| - 1 {
      at := EntryOf(links, rows[..|rows| - 1], i);
    }
  }

  lemma {:induction false} NoDropFirsts(links: Links, rows: seq<Row>)
    requires Unique(links) && FileError(links, rows).None?
    requires forall i: nat :: i < |rows| ==> !DropsFix(rows, i)
    ensures ImportEach(links, rows) == ImportEach(links, Firsts(rows))
  {
    hide FileError, ImportEach, Matches, Revised;
    if rows == [] {
    } else {
      var at := LastRow(links, rows);
      var n := |rows| - 1;
      var before, row := rows[..n], rows[n];
      forall i: nat | i < n
        ensures !DropsFix(before, i)
      {
        assert before[..i] == rows[..i];
        assert !DropsFix(rows, i);
      }
      NoDropFirsts(links, before);
      DecidedByLast(links, before, at);
      OneMoreImport(links, before, row, at);
      var l := ImportEach(links, before).value;
      if Previous(before, row.audit).Some? {
        assert !DropsFix(rows, n);
        AgreedMatches(l[at].current, Previous(before, row.audit).value, row.v);
        RevisedMatches(l[at], row.v);
        assert l[at := l[at]] == l;
      } else {
        OneMoreImport(links, Firsts(before), row, at);
      }
    }
  }

  lemma AgreedMatches(current: Option<Verdict>, previous: Verdict, v: Verdict)
    requires Matches(current, previous) && Agrees(previous, v) && !(v.fix.None? && previous.fix.Some?)
    ensures Matches(current, v)
  {
  }

  /** Such a file: its second row drops the fix version without counting as contradictory, and the batch
      records a revision that takes the fix back. */
  lemma DroppedFixIsARevision(links: Links, i: nat, fix: string)
    requires Unique(links) && i < |links| && links[i].current.None?
    ensures var v := Verdict(ENGINE_FIX, Some(fix), None, None);
            var rows := [Row(links[i].audit, v), Row(links[i].audit, v.(fix := None))];
            && ImportFile(links, rows).Ok? && |ImportFile(links, rows).value| == |links|
            && Trail(ImportFile(links, rows).value[i]) == links[i].history + [v, v.(fix := None)]
  {
    var v := Verdict(ENGINE_FIX, Some(fix), None, None);
    var first, second := Row(links[i].audit, v), Row(links[i].audit, v.(fix := None));
    var rows := [first, second];
    assert rows[..1] == [first] && [first][..0] == [];
    assert Linked(links, links[i].audit);
    IndexUnique(links, i);
    var once := links[i := Revised(links[i], v)];
    assert Previous([first], links[i].audit) == Some(v);
    assert FileError(links, [first]) == None;
    assert ImportEach(links, [first]) == Ok(once);
    assert Unique(once) && once[i].audit == links[i].audit;
    IndexUnique(once, i);
  }

  // ---------------------------------------------------------------------------
  // The ledger file
  // ---------------------------------------------------------------------------

  class LinkFile {
    var disk: Links

    predicate Valid()
      reads this
    {
      Unique(disk)
    }

    constructor ()
      ensures Valid() && disk == []
    {
      disk := [];
    }

    /** Repeating a link writes nothing; another identity for a bound audit is refused. */
    method LinkFindingAudit(finding: string, audit: int, sha: string) returns (r: Result<Link>)
      requires Valid()
      modifies this
      ensures Valid() && r.Ok? == LinkAudit(old(disk), finding, audit, sha).Ok?
      ensures disk == if r.Ok? then LinkAudit(old(disk), finding, audit, sha).value else old(disk)
      ensures r.Ok? ==> r.value in disk && r.value.finding == finding && r.value.audit == audit && r.value.sha == sha
      ensures r.Err? ==> exists l :: l in disk && l.audit == audit && (l.finding != finding || l.sha != sha)
      ensures r.Err? ==> r.error == AlreadyLinked && disk == old(disk)
      ensures (forall l :: l in old(disk) ==> l.audit != audit) ==>
                r == Ok(Link(finding, audit, sha, None, [])) && disk == old(disk) + [r.value]
      ensures r.Ok? && (exists l :: l in old(disk) && l.audit == audit) ==> disk == old(disk)
    {
      for i := 0 to |disk|
        invariant forall k :: 0 <= k < i ==> disk[k].audit != audit
        invariant disk == old(disk)
      {
        if disk[i].audit == audit {
          IndexUnique(disk, i);
          if disk[i].finding == finding && disk[i].sha == sha {
            return Ok(disk[i]);
          }
          assert disk[i] in disk;
          return Err(AlreadyLinked);
        }
      }
      var link := Link(finding, audit, sha, None, []);
      disk := disk + [link];
      return Ok(link);
    }

    /** A verdict for the first link of that audit, appended to its trail. */
    method ImportMaintainerDisposition(audit: int, v: Verdict) returns (r: Result<Link>)
      requires Valid()
      modifies this
      ensures Valid()
      ensures match Import(old(disk), audit, v)
              case Ok(links) => disk == links && IndexOf(disk, audit) < |disk| && r == Ok(disk[IndexOf(disk, audit)])
              case Err(e) => disk == old(disk) && r == Err(e)
      ensures r.Err? ==> disk == old(disk)
      ensures r == Err(UnknownDisposition) <==> v.disposition.Unlisted?
      ensures r == Err(NotLinked) <==> !v.disposition.Unlisted? && forall l :: l in old(disk) ==> l.audit != audit
      ensures r.Err? ==> r.error == UnknownDisposition || r.error == NotLinked
      ensures r.Ok? ==> |disk| == |old(disk)| && forall i :: 0 <= i < |disk| ==>
                var l := old(disk)[i];
                if l.audit != audit then disk[i] == l
                else
                  && disk[i] == r.value && r.value.current.Some?
                  && r.value.finding == l.finding && r.value.audit == l.audit && r.value.sha == l.sha
                  && r.value.current.value.disposition == v.disposition && r.value.current.value.fix == v.fix
                  && r.value.current.value.receipt
                     == (if v.receipt.None? && l.current.Some? then l.current.value.receipt else v.receipt)
                  && r.value.current.value.work == (if v.work.None? && l.current.Some? then l.current.value.work
                                                    else v.work)
                  && r.value.history == if l.current.None? || r.value.current == l.current then l.history
                                        else l.history + [l.current.value]
    {
      if v.disposition.Unlisted? {
        return Err(UnknownDisposition);
      }
      var found := 0;
      while found < |disk| && disk[found].audit != audit
        invariant found <= |disk| && forall k :: 0 <= k < found ==> disk[k].audit != audit
      {
        found := found + 1;
      }
      if found == |disk| {
        return Err(NotLinked);
      }
      IndexUnique(disk, found);
      var link := Revise(disk[found], v);
      disk := disk[found := link];
      IndexUnique(disk, found);
      return Ok(link);
    }

    /** Validate every row against one snapshot, then apply them all in memory and save once. */
    method ImportDispositionFile(rows: seq<Row>) returns (r: Result<nat>)
      requires Valid()
      modifies this
      ensures Valid()
      ensures match ImportFile(old(disk), rows)
              case Ok(links) => disk == links && r == Ok(|rows|)
              case Err(e) => disk == old(disk) && r == Err(e)
      ensures r.Ok? <==>
              && (forall i :: 0 <= i < |rows| ==>
                    rows[i].Row? && !rows[i].v.disposition.Unlisted? &&
                    exists k :: 0 <= k < |old(disk)| && old(disk)[k].audit == rows[i].audit)
              && (forall i, j :: 0 <= i < j < |rows| && rows[i].Row? && rows[j].Row?
                                 && rows[i].audit == rows[j].audit ==>
                    && rows[i].v.disposition == rows[j].v.disposition && rows[i].v.receipt == rows[j].v.receipt
                    && rows[i].v.work == rows[j].v.work && (rows[j].v.fix.Some? ==> rows[i].v.fix == rows[j].v.fix))
      ensures r.Err? ==> disk == old(disk)
    {
      AcceptedExactly(disk, rows);
      var plan := Validate(disk, rows);
      if plan.Err? {
        return Err(plan.error);
      }
      var links := disk;
      for i := 0 to |rows|
        invariant disk == old(disk) && Unique(links) && SameAudits(disk, links)
        invariant ImportEach(disk, rows[..i]) == Ok(links)
      {
        assert rows[..i + 1][..i] == rows[..i];
        var at := plan.value[i];
        IndexUnique(links, at);
        var link := Revise(links[at], rows[i].v);
        links := links[at := link];
      }
      assert rows[..|rows|] == rows;
      disk := links;
      return Ok(|rows|);
    }
  }

  /** The revision as it is made in place, field by field. */
  method Revise(link: Link, v: Verdict) returns (r: Link)
    ensures r == Revised(link, v)
    ensures r.finding == link.finding && r.audit == link.audit && r.sha == link.sha
    ensures r.current.Some? && r.current.value.disposition == v.disposition && r.current.value.fix == v.fix
    ensures r.current.value.receipt == if v.receipt.None? && link.current.Some? then link.current.value.receipt
                                       else v.receipt
    ensures r.current.value.work == if v.work.None? && link.current.Some? then link.current.value.work else v.work
    ensures r.history == if link.current.None? || r.current == link.current then link.history
                         else link.history + [link.current.value]
  {
    r := link;
    var receipt := if v.receipt.Some? || link.current.None? then v.receipt else link.current.value.receipt;
    var work := if v.work.Some? || link.current.None? then v.work else link.current.value.work;
    var proposed := Verdict(v.disposition, v.fix, receipt, work);
    if link.current.Some? && link.current.value == proposed {
      return;
    }
    if link.current.Some? {
      r := r.(history := r.history + [link.current.value]);
    }
    r := r.(current := Some(proposed));
  }

  /** For each audit number the last entry that has it. */
  method ByAudit(links: Links) returns (byAudit: map<int, nat>)
    ensures forall a :: a in byAudit <==> Linked(links, a)
    ensures forall a :: a in byAudit ==>
              && byAudit[a] < |links| && links[byAudit[a]].audit == a
              && forall k :: byAudit[a] < k < |links| ==> links[k].audit != a
  {
    byAudit := map[];
    for i := 0 to |links|
      invariant forall a :: a in byAudit <==> exists k :: 0 <= k < i && links[k].audit == a
      invariant forall a :: a in byAudit ==>
                  && byAudit[a] < i && links[byAudit[a]].audit == a
                  && forall k :: byAudit[a] < k < i ==> links[k].audit != a
    {
      byAudit := byAudit[links[i].audit := i];
    }
  }

  /** The plan of a file: for each row the entry it decides, looked up in a table that keeps the last
      entry of each audit number. */
  method Validate(links: Links, rows: seq<Row>) returns (plan: Result<seq<nat>>)
    requires Unique(links)
    ensures match FileError(links, rows)
            case None => plan.Ok? && |plan.value| == |rows|
                         && forall i :: 0 <= i < |rows| ==>
                              rows[i].Row? && plan.value[i] < |links| && links[plan.value[i]].audit == rows[i].audit
                                                            && !rows[i].v.disposition.Unlisted?
            case Some(e) => plan == Err(e)
  {
    hide Agrees;
    var byAudit := ByAudit(links);
    var entries: seq<nat> := [];
    var decisions: map<int, Verdict> := map[];
    for i := 0 to |rows|
      invariant FileError(links, rows[..i]).None? && |entries| == i
      invariant forall a :: if a in decisions then Previous(rows[..i], a) == Some(decisions[a])
                            else Previous(rows[..i], a).None?
      invariant forall k :: 0 <= k < i ==>
                  rows[k].Row? && entries[k] < |links| && links[entries[k]].audit == rows[k].audit
                                           && !rows[k].v.disposition.Unlisted?
    {
      var row := rows[i];
      assert rows[..i + 1][..i] == rows[..i];
      FileErrorStays(links, rows, i + 1);
      if row.BadRow? {
        return Err(Malformed);
      }
      if row.v.disposition.Unlisted? {
        return Err(UnknownDisposition);
      }
      if row.audit in decisions && !Agrees(decisions[row.audit], row.v) {
        return Err(Contradictory);
      }
      if row.audit !in byAudit {
        return Err(NotLinked);
      }
      decisions := decisions[row.audit := row.v];
      entries := entries + [byAudit[row.audit]];
    }
    assert rows[..|rows|] == rows;
    return Ok(entries);
  }

  lemma {:induction false} FileErrorStays(links: Links, rows: seq<Row>, n: nat)
    requires n <= |rows|
    ensures FileError(links, rows[..n]).Some? ==> FileError(links, rows) == FileError(links, rows[..n])
    decreases |rows| - n
  {
    if n < |rows| {
      assert rows[..n + 1][..n] == rows[..n];
      FileErrorStays(links, rows, n + 1);
    } else {
      assert rows[..n] == rows;
    }
  }

  // ---------------------------------------------------------------------------
  // Replay
  // ---------------------------------------------------------------------------

  datatype Op =
    | LinkOp(finding: string, audit: int, sha: string)
    | ImportOp(audit: int, v: Verdict)
    | FileOp(rows: seq<Row>)

  function Do(links: Links, op: Op): Links {
    var r := match op
             case LinkOp(f, a, s) => LinkAudit(links, f, a, s)
             case ImportOp(a, v) => Import(links, a, v)
             case FileOp(rows) => ImportFile(links, rows);
    if r.Ok? then r.value else links
  }

  function DoAll(ops: seq<Op>): Links { if ops == [] then [] else Do(DoAll(ops[..|ops| - 1]), ops[|ops| - 1]) }

  /** The verdicts a file holds for one audit, in order. */
  function RowsFor(rows: seq<Row>, audit: int): seq<Verdict> {
    if rows == [] then []
    else
      var before, last := RowsFor(rows[..|rows| - 1], audit), rows[|rows| - 1];
      if last.Row? && last.audit == audit then before + [last.v] else before
  }

  /** What one operation adds to the log of an audit: its verdicts for it, if it was accepted. */
  function Accepted(links: Links, op: Op, audit: int): seq<Verdict> {
    match op
    case LinkOp(_, _, _) => []
    case ImportOp(a, v) => if a == audit && Import(links, a, v).Ok? then [v] else []
    case FileOp(rows) => if ImportFile(links, rows).Ok? then RowsFor(rows, audit) else []
  }

  /** The accepted imports of one audit. */
  function LogOf(ops: seq<Op>, audit: int): seq<Verdict> {
    if ops == [] then []
    else LogOf(ops[..|ops| - 1], audit) + Accepted(DoAll(ops[..|ops| - 1]), ops[|ops| - 1], audit)
  }

  /** The link is what its imports made of it. */
  predicate Replays(l: Link, log: seq<Verdict>) {
    && Trail(l) == Dedup(CarriedLog(log))
    && (l.current.None? <==> log == [])
    && (log != [] ==> l.current == Some(CarriedLog(log)[|log| - 1]))
  }

  lemma RevisedReplays(l: Link, log: seq<Verdict>, v: Verdict)
    requires Replays(l, log)
    ensures Replays(Revised(l, v), log + [v]) && Trail(l) <= Trail(Revised(l, v))
  {
    assert (log + [v])[..|log|] == log;
    var c, c' := CarriedLog(log), CarriedLog(log + [v]);
    assert c' == c + [Carried(l.current, v)];
    assert c'[..|c'| - 1] == c;
    if log == [] {
      assert l.history == [];
    }
  }

  predicate ReplaysFor(links: Links, audit: int, log: seq<Verdict>) {
    && Unique(links)
    && (!Linked(links, audit) ==> log == [])
    && (forall i :: 0 <= i < |links| && links[i].audit == audit ==> Replays(links[i], log))
  }

  lemma ImportReplays(links: Links, a: int, v: Verdict, audit: int, log: seq<Verdict>)
    requires ReplaysFor(links, audit, log) && Import(links, a, v).Ok?
    ensures ReplaysFor(Import(links, a, v).value, audit, if a == audit then log + [v] else log)
    ensures SameAudits(links, Import(links, a, v).value)
    ensures forall i :: 0 <= i < |links| ==> Trail(links[i]) <= Trail(Import(links, a, v).value[i])
  {
    hide *;
    var l', at := ImportAt(links, a, v);
    RevisedAt(links, at, v, audit, log);
  }

  lemma ImportAt(links: Links, a: int, v: Verdict) returns (l': Links, at: nat)
    requires Import(links, a, v).Ok?
    ensures l' == Import(links, a, v).value
    ensures at < |links| && links[at].audit == a && l' == links[at := Revised(links[at], v)]
  {
    hide Revised;
    l', at := Import(links, a, v).value, IndexOf(links, a);
  }

  /** Revising the one link of an audit appends to that audit's trail and to no other. */
  lemma RevisedAt(links: Links, at: nat, v: Verdict, audit: int, log: seq<Verdict>)
    requires at < |links| && ReplaysFor(links, audit, log)
    ensures var l' := links[at := Revised(links[at], v)];
            && ReplaysFor(l', audit, if links[at].audit == audit then log + [v] else log)
            && SameAudits(links, l')
            && forall i :: 0 <= i < |links| ==> Trail(links[i]) <= Trail(l'[i])
  {
    hide Replays, Revised, Trail;
    TrailGrows(links[at], v);
    var l' := links[at := Revised(links[at], v)];
    if links[at].audit == audit {
      RevisedReplays(links[at], log, v);
      assert Linked(l', audit) by { assert l'[at].audit == audit; }
    } else if Linked(links, audit) {
      var i :| 0 <= i < |links| && links[i].audit == audit;
      assert l'[i].audit == audit;
    }
  }

  lemma TrailGrows(l: Link, v: Verdict)
    ensures Trail(l) <= Trail(Revised(l, v)) && Revised(l, v).audit == l.audit
  {
  }

  /** Importing rows one at a time appends exactly the rows of each audit to its trail. */
  lemma {:induction false} EachReplays(links: Links, rows: seq<Row>, audit: int, log: seq<Verdict>)
    requires ReplaysFor(links, audit, log) && ImportEach(links, rows).Ok?
    ensures ReplaysFor(ImportEach(links, rows).value, audit, log + RowsFor(rows, audit))
    ensures SameAudits(links, ImportEach(links, rows).value)
    ensures forall i :: 0 <= i < |links| ==> Trail(links[i]) <= Trail(ImportEach(links, rows).value[i])
  {
    hide ReplaysFor, Import, Trail;
    if rows == [] {
      assert log + RowsFor(rows, audit) == log;
    } else {
      var before, row := rows[..|rows| - 1], rows[|rows| - 1];
      EachReplays(links, before, audit, log);
      ImportReplays(ImportEach(links, before).value, row.audit, row.v, audit, log + RowsFor(before, audit));
      assert row.audit == audit ==> log + RowsFor(rows, audit) == log + RowsFor(before, audit) + [row.v];
    }
  }

  lemma LinkReplays(links: Links, finding: string, a: int, sha: string, audit: int, log: seq<Verdict>)
    requires ReplaysFor(links, audit, log) && LinkAudit(links, finding, a, sha).Ok?
    ensures ReplaysFor(LinkAudit(links, finding, a, sha).value, audit, log)
    ensures links <= LinkAudit(links, finding, a, sha).value
  {
    var l' := LinkAudit(links, finding, a, sha).value;
    if |l'| > |links| {
      if a == audit {
        assert !Linked(links, audit);
        assert Replays(l'[|links|], []);
      }
      if Linked(links, audit) {
        var i :| 0 <= i < |links| && links[i].audit == audit;
        assert l'[i].audit == audit;
      }
    }
  }

  lemma OpReplays(links: Links, op: Op, audit: int, log: seq<Verdict>)
    requires ReplaysFor(links, audit, log)
    ensures ReplaysFor(Do(links, op), audit, log + Accepted(links, op, audit))
    ensures |links| <= |Do(links, op)| && forall i :: 0 <= i < |links| ==> Trail(links[i]) <= Trail(Do(links, op)[i])
  {
    hide ReplaysFor, Trail, Import, LinkAudit, ImportEach, FileError;
    assert log + [] == log;
    if op.LinkOp? {
      if LinkAudit(links, op.finding, op.audit, op.sha).Ok? {
        LinkReplays(links, op.finding, op.audit, op.sha, audit, log);
      }
    } else if op.ImportOp? {
      if Import(links, op.audit, op.v).Ok? {
        ImportReplays(links, op.audit, op.v, audit, log);
      }
    } else if ImportFile(links, op.rows).Ok? {
      EachReplays(links, op.rows, audit, log);
    }
  }

  /** Replay. Whatever links, imports and files came before: audit numbers are unique, so first-match
      and last-match lookups agree; and for each audit the history followed by the current verdict is
      its log of accepted imports, carried forward, with consecutive duplicates removed. */
  lemma {:induction false} TrailReplaysLog(ops: seq<Op>, audit: int)
    ensures ReplaysFor(DoAll(ops), audit, LogOf(ops, audit))
  {
    hide ReplaysFor, Do, Accepted;
    if ops == [] {
      NothingLinked(audit);
    } else {
      var before := ops[..|ops| - 1];
      TrailReplaysLog(before, audit);
      OpReplays(DoAll(before), ops[|ops| - 1], audit, LogOf(before, audit));
    }
  }

  lemma NothingLinked(audit: int)
    ensures ReplaysFor([], audit, [])
  {
  }

  /** The last value that the log gives, if any does. */
  predicate LastGiven(given: seq<Option<string>>, r: Option<string>) {
    if r.None? then forall k :: 0 <= k < |given| ==> given[k].None?
    else exists j :: 0 <= j < |given| && given[j] == r && forall k :: j < k < |given| ==> given[k].None?
  }

  function Receipts(log: seq<Verdict>): seq<Option<string>> { seq(|log|, i requires 0 <= i < |log| => log[i].receipt) }

  function Works(log: seq<Verdict>): seq<Option<string>> { seq(|log|, i requires 0 <= i < |log| => log[i].work) }

  lemma OneMoreGiven(given: seq<Option<string>>, r: Option<string>, more: Option<string>)
    requires LastGiven(given, r)
    ensures LastGiven(given + [more], if more.Some? then more else r)
  {
    var all := given + [more];
    if more.Some? {
      assert all[|given|] == more;
    } else if r.Some? {
      var j :| 0 <= j < |given| && given[j] == r && forall k :: j < k < |given| ==> given[k].None?;
      assert all[j] == r;
    }
  }

  lemma {:induction false} CarriedMeans(log: seq<Verdict>)
    requires log != []
    ensures var c, last := CarriedLog(log)[|log| - 1], log[|log| - 1];
            && c.disposition == last.disposition && c.fix == last.fix
            && LastGiven(Receipts(log), c.receipt) && LastGiven(Works(log), c.work)
  {
    hide LastGiven;
    var before, last := log[..|log| - 1], log[|log| - 1];
    assert Receipts(log) == Receipts(before) + [last.receipt] && Works(log) == Works(before) + [last.work];
    if before == [] {
      NoneGiven();
      OneMoreGiven([], None, last.receipt);
      OneMoreGiven([], None, last.work);
      assert Receipts(before) == [] && Works(before) == [];
    } else {
      CarriedMeans(before);
      var c := CarriedLog(before)[|before| - 1];
      OneMoreGiven(Receipts(before), c.receipt, last.receipt);
      OneMoreGiven(Works(before), c.work, last.work);
    }
  }

  lemma NoneGiven()
    ensures LastGiven([], None)
  {
  }

  /** Whatever was linked, imported and read from files: a link has a verdict exactly when its audit has
      an accepted import. Its disposition and fix version are those of the last one, its receipt and
      work id the last that any of them gave, even across a change of disposition. */
  lemma CurrentMeans(ops: seq<Op>, i: nat)
    requires i < |DoAll(ops)|
    ensures var l := DoAll(ops)[i];
            var log := LogOf(ops, l.audit);
            && (l.current.Some? <==> log != [])
            && (log != [] ==>
                  && l.current.value.disposition == log[|log| - 1].disposition
                  && l.current.value.fix == log[|log| - 1].fix
                  && LastGiven(seq(|log|, k requires 0 <= k < |log| => log[k].receipt), l.current.value.receipt)
                  && LastGiven(seq(|log|, k requires 0 <= k < |log| => log[k].work), l.current.value.work))
  {
    hide DoAll, LogOf, CarriedLog, LastGiven, Dedup;
    var l := DoAll(ops)[i];
    var log := LogOf(ops, l.audit);
    TrailReplaysLog(ops, l.audit);
    if log != [] {
      CarriedMeans(log);
      assert Receipts(log) == seq(|log|, k requires 0 <= k < |log| => log[k].receipt);
      assert Works(log) == seq(|log|, k requires 0 <= k < |log| => log[k].work);
    }
  }

  /** No trail repeats a verdict right after itself. */
  lemma {:induction false} DedupMoves(vs: seq<Verdict>)
    ensures forall i :: 0 < i < |Dedup(vs)| ==> Dedup(vs)[i] != Dedup(vs)[i - 1]
  {
    if |vs| > 1 {
      DedupMoves(vs[..|vs| - 1]);
      DedupLast(vs[..|vs| - 1]);
    }
  }

  /** Over every run: no decision of a trail repeats the one before it. */
  lemma TrailsMove(ops: seq<Op>, i: nat)
    requires i < |DoAll(ops)|
    ensures var t := Trail(DoAll(ops)[i]);
            forall k :: 0 < k < |t| ==> t[k] != t[k - 1]
  {
    hide DoAll, LogOf, CarriedLog, Dedup, Trail;
    TrailReplaysLog(ops, DoAll(ops)[i].audit);
    DedupMoves(CarriedLog(LogOf(ops, DoAll(ops)[i].audit)));
  }

  /** No operation takes a decision back: every trail only grows. */
  lemma TrailsOnlyGrow(ops: seq<Op>, op: Op, i: nat)
    requires i < |DoAll(ops)|
    ensures i < |Do(DoAll(ops), op)| && Trail(DoAll(ops)[i]) <= Trail(Do(DoAll(ops), op)[i])
  {
    hide ReplaysFor, Do, Trail, Accepted;
    var audit := DoAll(ops)[i].audit;
    TrailReplaysLog(ops, audit);
    OpReplays(DoAll(ops), op, audit, LogOf(ops, audit));
  }

  /** A refused operation changes nothing. */
  lemma RefusalChangesNothing(links: Links, rows: seq<Row>)
    ensures FileError(links, rows).Some? ==> Do(links, FileOp(rows)) == links
    ensures FileError(links, rows).None? ==>
              ImportEach(links, rows).Ok? && Do(links, FileOp(rows)) == ImportEach(links, rows).value
  {
    hide FileError, ImportEach;
    if FileError(links, rows).None? {
      AcceptedIsFold(links, rows);
    }
  }
}
