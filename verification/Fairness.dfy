/** Fair-share scheduling: one queue ticket per waiting session, oldest ticket first.

    Source: `tools/saipal_analyst/fairness.py`, with `_reconcile_done_receipt_claims` and the ranking
    of `_allocate` in `tools/saipal_analyst/worker.py`. */
module Fairness {
  import opened Options

  type Id = string

  datatype Claim = Claim(served: nat, ticket: int, digest: string)

  datatype Queue = Queue(sessions: map<Id, Claim>, next: int, sequence: seq<Id>)

  const FRESH := Queue(map[], 1, [])
  const MAX_SERVICE_SEQUENCE := 64
  const LAST_RANK := 1000000000000

  /** One entry of the eligible dictionary, in its order. */
  datatype Eligible = Eligible(id: Id, digest: string)

  predicate Distinct(es: seq<Eligible>) { forall i, j :: 0 <= i < j < |es| ==> es[i].id != es[j].id }

  predicate Among(id: Id, es: seq<Eligible>) { exists i :: 0 <= i < |es| && es[i].id == id }

  // ---------------------------------------------------------------------------
  // The operations on values
  // ---------------------------------------------------------------------------

  function Mint(q: Queue, e: Eligible): Queue {
    if e.id !in q.sessions then
      q.(sessions := q.sessions[e.id := Claim(0, q.next, e.digest)], next := q.next + 1)
    else if q.sessions[e.id].digest != e.digest then
      q.(sessions := q.sessions[e.id := q.sessions[e.id].(ticket := q.next, digest := e.digest)], next := q.next + 1)
    else q
  }

  function MintAll(q: Queue, es: seq<Eligible>): Queue {
    if es == [] then q else Mint(MintAll(q, es[..|es| - 1]), es[|es| - 1])
  }

  function Dropped(c: Claim): Claim { c.(ticket := 0, digest := "") }

  function Retire(q: Queue, es: seq<Eligible>): Queue {
    q.(sessions := map id | id in q.sessions :: if Among(id, es) then q.sessions[id] else Dropped(q.sessions[id]))
  }

  function Synced(q: Queue, es: seq<Eligible>): Queue { Retire(MintAll(q, es), es) }

  /** A receipt was committed for the session, and its record is missing or exhausted. */
  predicate Closed(receipted: set<Id>, finished: set<Id>, id: Id) { id in receipted && id in finished }

  /** Between the scan and the ranking every ticket of a closed session is taken back. */
  function Reconciled(q: Queue, receipted: set<Id>, finished: set<Id>): Queue {
    q.(sessions := map id | id in q.sessions ::
         if Closed(receipted, finished, id) && q.sessions[id].ticket != 0 then Dropped(q.sessions[id])
         else q.sessions[id])
  }

  function LastServices(s: seq<Id>): seq<Id> {
    if |s| <= MAX_SERVICE_SEQUENCE then s else s[|s| - MAX_SERVICE_SEQUENCE..]
  }

  function Serviced(q: Queue, id: Id): Queue {
    var was := if id in q.sessions then q.sessions[id] else Claim(0, 0, "");
    q.(sessions := q.sessions[id := Dropped(was).(served := was.served + 1)],
       sequence := LastServices(q.sequence + [id]))
  }

  /** A missing or zero ticket sorts last, never as oldest. */
  function Rank(q: Queue, id: Id): int {
    if id in q.sessions && q.sessions[id].ticket > 0 then q.sessions[id].ticket else LAST_RANK
  }

  // ---------------------------------------------------------------------------
  // The operations as the source runs them
  // ---------------------------------------------------------------------------

  class FairnessFile {
    var disk: Queue

    constructor ()
      ensures disk == FRESH
    {
      disk := FRESH;
    }

    /** Every eligible session gets a claim: a fresh tail ticket unless it already waits with the
        same unit. */
    method EnsureClaims(es: seq<Eligible>) returns (state: Queue, changed: bool)
      ensures state == MintAll(disk, es)
      ensures changed <==> state != disk
      ensures state.next >= disk.next && (state.next == disk.next ==> state == disk)
    {
      state, changed := disk, false;
      for i := 0 to |es|
        invariant state == MintAll(disk, es[..i])
        invariant changed <==> state != disk
        invariant state.next >= disk.next && (state.next == disk.next ==> state == disk)
      {
        var e := es[i];
        assert es[..i + 1][..i] == es[..i];
        if e.id !in state.sessions {
          state := state.(sessions := state.sessions[e.id := Claim(0, state.next, e.digest)], next := state.next + 1);
          changed := true;
        } else if state.sessions[e.id].digest != e.digest {
          var claim := state.sessions[e.id].(ticket := state.next, digest := e.digest);
          state := state.(sessions := state.sessions[e.id := claim], next := state.next + 1);
          changed := true;
        }
      }
      assert es[..|es|] == es;
    }

    /** A session that is no longer eligible keeps its served count and loses its claim. */
    method RetireClaims(minted: Queue, es: seq<Eligible>) returns (state: Queue, retired: bool)
      ensures state == Retire(minted, es)
      ensures retired <==> state != minted
    {
      state, retired := minted, false;
      var rest := state.sessions.Keys;
      while rest != {}
        invariant rest <= state.sessions.Keys == minted.sessions.Keys
        invariant state == minted.(sessions := state.sessions)
        invariant forall id :: id in minted.sessions ==>
                    state.sessions[id] == if id in rest || Among(id, es) then minted.sessions[id]
                                          else Dropped(minted.sessions[id])
        invariant retired <==> exists id :: id in minted.sessions && state.sessions[id] != minted.sessions[id]
        decreases |rest|
      {
        var id :| id in rest;
        rest := rest - {id};
        if !Among(id, es) && (state.sessions[id].ticket != 0 || state.sessions[id].digest != "") {
          state := state.(sessions := state.sessions[id := Dropped(state.sessions[id])]);
          assert state.sessions[id] != minted.sessions[id];
          retired := true;
        }
      }
    }

    /** Reconcile the claims with the sessions that are eligible now; write only on change. */
    method SyncEligibility(es: seq<Eligible>) returns (state: Queue, changed: bool)
      modifies this
      ensures state == Synced(old(disk), es) == disk
      ensures changed <==> disk != old(disk)
    {
      state, changed := EnsureClaims(es);
      var minted := state;
      var retired;
      state, retired := RetireClaims(minted, es);
      changed := changed || retired;
      if changed {
        disk := state;
      }
    }

    /** Claims whose receipt committed while the fairness file was not written are taken back; the
        file is written again only on change. */
    method ReconcileDoneClaims(receipted: set<Id>, finished: set<Id>) returns (state: Queue, changed: bool)
      modifies this
      ensures state == Reconciled(old(disk), receipted, finished) == disk
      ensures changed <==> disk != old(disk)
    {
      state, changed := disk, false;
      var rest := state.sessions.Keys;
      while rest != {}
        invariant rest <= state.sessions.Keys == disk.sessions.Keys && disk == old(disk)
        invariant state == disk.(sessions := state.sessions)
        invariant forall id :: id in disk.sessions ==>
                    state.sessions[id] ==
                    if id !in rest && Closed(receipted, finished, id) && disk.sessions[id].ticket != 0
                    then Dropped(disk.sessions[id]) else disk.sessions[id]
        invariant changed <==> exists id :: id in disk.sessions && state.sessions[id] != disk.sessions[id]
        decreases |rest|
      {
        var id :| id in rest;
        rest := rest - {id};
        if Closed(receipted, finished, id) && state.sessions[id].ticket != 0 {
          state := state.(sessions := state.sessions[id := Dropped(state.sessions[id])]);
          assert state.sessions[id] != disk.sessions[id];
          changed := true;
        }
      }
      if changed {
        disk := state;
      }
    }

    /** The claims an allocation ranks by: the scan, then the reconciliation. */
    method ClaimsToRank(t: Turn) returns (state: Queue)
      modifies this
      ensures state == Allocated(old(disk), t) == disk
    {
      var changed;
      state, changed := SyncEligibility(t.es);
      state, changed := ReconcileDoneClaims(t.receipted, t.finished);
    }

    /** One unit served: telemetry plus one, claim retired. */
    method RecordService(id: Id)
      modifies this
      ensures disk == Serviced(old(disk), id)
    {
      var was := if id in disk.sessions then disk.sessions[id] else Claim(0, 0, "");
      was := was.(served := was.served + 1, ticket := 0, digest := "");
      var sequence := disk.sequence + [id];
      if |sequence| > MAX_SERVICE_SEQUENCE {
        sequence := sequence[|sequence| - MAX_SERVICE_SEQUENCE..];
      }
      disk := disk.(sessions := disk.sessions[id := was], sequence := sequence);
    }
  }

  // ---------------------------------------------------------------------------
  // What every queue looks like
  // ---------------------------------------------------------------------------

  predicate TicketFits(q: Queue, id: Id)
    requires id in q.sessions
  {
    && 0 <= q.sessions[id].ticket < q.next
    && (q.sessions[id].ticket == 0 ==> q.sessions[id].digest == "")
  }

  /** Tickets lie below the next one, no two waiting sessions share one, and a session without a
      ticket holds no claim. */
  predicate Sound(q: Queue) {
    && q.next >= 1
    && (forall id :: id in q.sessions ==> TicketFits(q, id))
    && (forall a, b :: a in q.sessions && b in q.sessions && a != b && q.sessions[a].ticket > 0 ==>
          q.sessions[a].ticket != q.sessions[b].ticket)
  }

  /** A v1 file carries its served counts over, and no claim. */
  function MigrateV1(served: map<Id, nat>, sequence: seq<Id>): Queue {
    FRESH.(sessions := map id | id in served :: Claim(served[id], 0, ""), sequence := LastServices(sequence))
  }

  /** No v1 debt comes along: a migrated queue is sound, nobody in it holds a ticket, every session
      keeps its count, and its first scan tickets the eligible sessions in scan order. */
  lemma MigratedStartsEven(served: map<Id, nat>, sequence: seq<Id>, es: seq<Eligible>, k: nat)
    requires Distinct(es) && k < |es| && forall e :: e in es ==> e.digest != ""
    ensures Sound(MigrateV1(served, sequence))
    ensures forall id :: id in served ==> MigrateV1(served, sequence).sessions[id] == Claim(served[id], 0, "")
    ensures MigrateV1(served, sequence).sequence == if |sequence| <= 64 then sequence else sequence[|sequence| - 64..]
    ensures MintAll(MigrateV1(served, sequence), es[..k]).next == k + 1
    ensures var m := MintAll(MigrateV1(served, sequence), es);
            es[k].id in m.sessions && m.sessions[es[k].id].ticket == k + 1
  {
    MintsInOrder(MigrateV1(served, sequence), es, k, k);
    MintsInOrder(MigrateV1(served, sequence), es, |es|, k);
    assert es[..|es|] == es;
  }

  /** Over a queue without claims the first `n` eligible sessions get the next `n` tickets, in order. */
  lemma {:induction false} MintsInOrder(q: Queue, es: seq<Eligible>, n: nat, k: nat)
    requires n <= |es| && Distinct(es) && forall e :: e in es ==> e.digest != ""
    requires forall id :: id in q.sessions ==> q.sessions[id].digest == ""
    ensures var m := MintAll(q, es[..n]);
            && m.next == q.next + n
            && (k < n ==> es[k].id in m.sessions && m.sessions[es[k].id].ticket == q.next + k)
            && (n <= k < |es| && es[k].id in m.sessions ==> m.sessions[es[k].id].digest == "")
  {
    if n > 0 {
      assert es[..n][..n - 1] == es[..n - 1];
      MintsInOrder(q, es, n - 1, k);
      MintsInOrder(q, es, n - 1, n - 1);
      assert es[n - 1] in es;
    }
  }

  lemma MintSound(q: Queue, e: Eligible)
    requires Sound(q)
    ensures Sound(Mint(q, e)) && Mint(q, e).next >= q.next
  {
    var m := Mint(q, e);
    forall id | id in m.sessions
      ensures TicketFits(m, id)
    {
      assert id in q.sessions ==> TicketFits(q, id);
    }
  }

  lemma {:induction false} MintAllSound(q: Queue, es: seq<Eligible>)
    requires Sound(q)
    ensures Sound(MintAll(q, es)) && MintAll(q, es).next >= q.next
  {
    if es != [] {
      MintAllSound(q, es[..|es| - 1]);
      MintSound(MintAll(q, es[..|es| - 1]), es[|es| - 1]);
    }
  }

  lemma RetireSound(q: Queue, es: seq<Eligible>)
    requires Sound(q)
    ensures Sound(Retire(q, es))
  {
    var r := Retire(q, es);
    forall id | id in r.sessions
      ensures TicketFits(r, id)
    {
      assert TicketFits(q, id);
    }
  }

  lemma ServicedSound(q: Queue, id: Id)
    requires Sound(q)
    ensures Sound(Serviced(q, id))
  {
    var r := Serviced(q, id);
    forall k | k in r.sessions
      ensures TicketFits(r, k)
    {
      assert k in q.sessions ==> TicketFits(q, k);
    }
  }

  lemma SyncSound(q: Queue, es: seq<Eligible>)
    requires Sound(q)
    ensures Sound(Synced(q, es))
  {
    MintAllSound(q, es);
    RetireSound(MintAll(q, es), es);
  }

  // ---------------------------------------------------------------------------
  // What one synchronization does to each session
  // ---------------------------------------------------------------------------

  /** An eligible session keeps its ticket exactly when it already waits with the same digest. */
  predicate Settled(q: Queue, e: Eligible) { e.id in q.sessions && q.sessions[e.id].digest == e.digest }

  lemma {:induction false} MintAllElse(q: Queue, es: seq<Eligible>, id: Id)
    requires !Among(id, es)
    ensures id in MintAll(q, es).sessions <==> id in q.sessions
    ensures id in q.sessions ==> MintAll(q, es).sessions[id] == q.sessions[id]
  {
    if es != [] {
      var before := es[..|es| - 1];
      assert forall i :: 0 <= i < |before| ==> before[i] == es[i];
      MintAllElse(q, before, id);
      assert es[|es| - 1].id != id;
    }
  }

  lemma {:induction false} MintAllAt(q: Queue, es: seq<Eligible>, k: nat)
    requires Distinct(es) && k < |es| && Sound(q)
    ensures var m := MintAll(q, es); var e := es[k];
            && e.id in m.sessions && m.sessions[e.id].digest == e.digest
            && (if Settled(q, e) then m.sessions[e.id] == q.sessions[e.id]
                else q.next <= m.sessions[e.id].ticket < m.next)
  {
    hide Sound;
    var before, last := es[..|es| - 1], es[|es| - 1];
    assert Distinct(before);
    MintAllSound(q, before);
    if k == |es| - 1 {
      assert !Among(last.id, before);
      MintAllElse(q, before, last.id);
    } else {
      MintAllAt(q, before, k);
      assert before[k] == es[k] && last.id != es[k].id;
    }
  }

  /** After a synchronization: every eligible session claims its unit; one that already waited with
      that unit keeps its place; any other stands behind all who waited before; and a session that
      is not eligible holds no ticket. */
  lemma SyncPlaces(q: Queue, es: seq<Eligible>)
    requires Sound(q) && Distinct(es)
    ensures var s := Synced(q, es);
            && (forall k :: 0 <= k < |es| ==>
                  && es[k].id in s.sessions && s.sessions[es[k].id].digest == es[k].digest
                  && (if es[k].id in q.sessions && q.sessions[es[k].id].digest == es[k].digest
                      then s.sessions[es[k].id] == q.sessions[es[k].id]
                      else q.next <= s.sessions[es[k].id].ticket < s.next))
            && (forall id :: id in s.sessions && (forall k :: 0 <= k < |es| ==> es[k].id != id) ==>
                  s.sessions[id].ticket == 0 && s.sessions[id].digest == "")
  {
    forall k | 0 <= k < |es|
      ensures var s := Synced(q, es);
              && es[k].id in s.sessions && s.sessions[es[k].id].digest == es[k].digest
              && (if Settled(q, es[k]) then s.sessions[es[k].id] == q.sessions[es[k].id]
                  else q.next <= s.sessions[es[k].id].ticket < s.next)
    {
      MintAllAt(q, es, k);
      assert Among(es[k].id, es);
    }
  }

  /** Of two sessions that a scan tickets anew, the one scanned first gets the older ticket. */
  lemma {:induction false} ScanOrder(q: Queue, es: seq<Eligible>, i: nat, j: nat)
    requires Sound(q) && Distinct(es) && i < j < |es|
    requires es[i].id in q.sessions ==> q.sessions[es[i].id].digest != es[i].digest
    requires es[j].id in q.sessions ==> q.sessions[es[j].id].digest != es[j].digest
    ensures var s := Synced(q, es).sessions;
            es[i].id in s && es[j].id in s && s[es[i].id].ticket < s[es[j].id].ticket
  {
    hide Sound;
    var before, last := es[..j], es[j];
    MintedBefore(q, es, i, j);
    assert Among(es[i].id, es) && Among(es[j].id, es);
  }

  lemma {:induction false} MintedBefore(q: Queue, es: seq<Eligible>, i: nat, j: nat)
    requires Sound(q) && Distinct(es) && i < j < |es| && !Settled(q, es[i]) && !Settled(q, es[j])
    ensures var m := MintAll(q, es).sessions;
            es[i].id in m && es[j].id in m && m[es[i].id].ticket < m[es[j].id].ticket
  {
    hide Sound;
    var before, last := es[..|es| - 1], es[|es| - 1];
    assert Distinct(before) && forall k :: 0 <= k < |before| ==> before[k] == es[k];
    MintAllSound(q, before);
    if j == |es| - 1 {
      assert !Among(last.id, before);
      MintAllElse(q, before, last.id);
      MintAllAt(q, before, i);
    } else {
      MintedBefore(q, before, i, j);
    }
  }

  /** One claim: a new session starts at the tail with nothing served, one that waits for another unit
      moves to the tail, and one that waits for this unit stays. */
  lemma MintExactly(q: Queue, e: Eligible)
    ensures Mint(q, e).sequence == q.sequence && e.id in Mint(q, e).sessions
    ensures forall id :: id != e.id ==> (id in Mint(q, e).sessions <==> id in q.sessions)
                                        && (id in q.sessions ==> Mint(q, e).sessions[id] == q.sessions[id])
    ensures if e.id in q.sessions && q.sessions[e.id].digest == e.digest then Mint(q, e) == q
            else
              && Mint(q, e).next == q.next + 1
              && Mint(q, e).sessions[e.id].ticket == q.next && Mint(q, e).sessions[e.id].digest == e.digest
              && Mint(q, e).sessions[e.id].served == if e.id in q.sessions then q.sessions[e.id].served else 0
  {
  }

  /** What the reconciliation takes back: the tickets of sessions with a receipt whose record is missing
      or exhausted, and nothing else. */
  lemma ReconciledExactly(q: Queue, receipted: set<Id>, finished: set<Id>)
    ensures var r := Reconciled(q, receipted, finished);
            && r.next == q.next && r.sequence == q.sequence && r.sessions.Keys == q.sessions.Keys
            && forall id :: id in q.sessions ==>
                 r.sessions[id] ==
                 if id in receipted && id in finished && q.sessions[id].ticket != 0
                 then Claim(q.sessions[id].served, 0, "") else q.sessions[id]
  {
  }

  /** A service counts one, gives the claim up, and is remembered among the last 64. */
  lemma ServicedExactly(q: Queue, id: Id)
    ensures var r := Serviced(q, id);
            && r.next == q.next
            && r.sequence == (if |q.sequence| < 64 then q.sequence else q.sequence[|q.sequence| - 63..]) + [id]
            && r.sessions == q.sessions[id := Claim((if id in q.sessions then q.sessions[id].served else 0) + 1, 0, "")]
  {
  }

  /** After a synchronization a session has a positive ticket exactly when it is eligible, but for
      one case: a known session without a claim whose unit digest is the empty text. */
  lemma PositiveExactlyEligible(q: Queue, es: seq<Eligible>, id: Id)
    requires Sound(q) && Distinct(es) && id in Synced(q, es).sessions
    ensures Synced(q, es).sessions[id].ticket > 0 <==>
              exists k :: 0 <= k < |es| && es[k].id == id
                          && !(es[k].digest == "" && id in q.sessions && q.sessions[id].ticket == 0)
  {
    SyncPlaces(q, es);
    if Among(id, es) {
      var k :| 0 <= k < |es| && es[k].id == id;
      assert id in q.sessions ==> TicketFits(q, id);
      if Synced(q, es).sessions[id].ticket > 0 && Settled(q, es[k]) {
        assert q.sessions[id].ticket > 0;
      }
    }
  }

  lemma {:induction false} MintAllSettled(q: Queue, es: seq<Eligible>)
    requires forall k :: 0 <= k < |es| ==> Settled(q, es[k])
    ensures MintAll(q, es) == q
  {
    if es != [] {
      MintAllSettled(q, es[..|es| - 1]);
      assert Settled(q, es[|es| - 1]);
    }
  }

  /** A repeated scan changes nothing, so it writes nothing. */
  lemma SyncIdempotent(q: Queue, es: seq<Eligible>)
    requires Sound(q) && Distinct(es)
    ensures Synced(Synced(q, es), es) == Synced(q, es)
  {
    SyncPlaces(q, es);
    var s := Synced(q, es);
    MintAllSettled(s, es);
    assert Retire(s, es).sessions == s.sessions;
  }

  // ---------------------------------------------------------------------------
  // One allocation
  // ---------------------------------------------------------------------------

  /** A runnable unit the allocator may return; FINAL ones form the first band, PROVISIONAL ones the
      second. */
  datatype Candidate = Candidate(id: Id, final: bool)

  /** One allocation and what came of it: the scan, the sessions with receipts, the sessions whose
      record is missing or exhausted, the units it may return, the session whose unit it returned,
      and whether that unit was served. Only a unit that came to DONE is served. */
  datatype Turn = Turn(
    es: seq<Eligible>, receipted: set<Id>, finished: set<Id>,
    candidates: seq<Candidate>, picked: Option<Id>, served: bool)

  function Allocated(q: Queue, t: Turn): Queue { Reconciled(Synced(q, t.es), t.receipted, t.finished) }

  lemma AllocatedSound(q: Queue, t: Turn)
    requires Sound(q)
    ensures Sound(Allocated(q, t))
  {
    hide Synced;
    SyncSound(q, t.es);
    var s, r := Synced(q, t.es), Allocated(q, t);
    forall id | id in r.sessions
      ensures TicketFits(r, id)
    {
      assert TicketFits(s, id);
    }
  }

  /** At the ranking a session holds a positive ticket exactly when the scan left it one and it is not
      closed; so, unit digests never being empty, exactly when it is eligible and has no receipt or
      still has something to do. */
  lemma PositiveAtRanking(q: Queue, t: Turn, id: Id)
    requires Sound(q) && Distinct(t.es) && id in Allocated(q, t).sessions && forall e :: e in t.es ==> e.digest != ""
    ensures Allocated(q, t).sessions[id].ticket > 0 <==>
              (exists k :: 0 <= k < |t.es| && t.es[k].id == id) && !(id in t.receipted && id in t.finished)
  {
    hide Synced, Sound;
    PositiveExactlyEligible(q, t.es, id);
    SyncPlacesSound(q, t.es, id);
    if Among(id, t.es) {
      var k :| 0 <= k < |t.es| && t.es[k].id == id;
      assert t.es[k] in t.es;
    }
  }

  lemma SyncPlacesSound(q: Queue, es: seq<Eligible>, id: Id)
    requires Sound(q) && id in Synced(q, es).sessions
    ensures Synced(q, es).sessions[id].ticket >= 0
  {
    hide Synced;
    SyncSound(q, es);
    assert TicketFits(Synced(q, es), id);
  }

  /** A repeated allocation changes nothing, and so writes nothing, exactly when no eligible session is
      closed; each closed one is ticketed and untied again on every allocation. */
  lemma AllocationRepeatsExactly(q: Queue, t: Turn)
    requires Sound(q) && Distinct(t.es) && forall e :: e in t.es ==> e.digest != ""
    ensures Allocated(Allocated(q, t), t) == Allocated(q, t) <==>
              forall e :: e in t.es ==> !(e.id in t.receipted && e.id in t.finished)
  {
    hide Sound, Allocated;
    if e :| e in t.es && Closed(t.receipted, t.finished, e.id) {
      ClosedMoves(q, t, e);
    } else {
      OpenRepeats(q, t);
    }
  }

  lemma ClosedMoves(q: Queue, t: Turn, e: Eligible)
    requires Sound(q) && Distinct(t.es) && (forall x :: x in t.es ==> x.digest != "")
    requires e in t.es && Closed(t.receipted, t.finished, e.id)
    ensures Allocated(Allocated(q, t), t) != Allocated(q, t)
  {
    hide Sound, MintAll;
    var a := Allocated(q, t);
    SyncPlaces(q, t.es);
    AllocatedSound(q, t);
    var k :| 0 <= k < |t.es| && t.es[k] == e;
    SyncPlacesSound(q, t.es, e.id);
    ClosedHasNoDigest(q, t, e.id);
    assert !Settled(a, e);
    MintMoves(a, t.es, k);
    assert Allocated(a, t).next != a.next;
  }

  lemma OpenRepeats(q: Queue, t: Turn)
    requires Sound(q) && Distinct(t.es)
    requires forall e :: e in t.es ==> !Closed(t.receipted, t.finished, e.id)
    ensures Allocated(Allocated(q, t), t) == Allocated(q, t)
  {
    hide Sound, MintAll, Closed;
    var a := Allocated(q, t);
    SyncPlaces(q, t.es);
    forall k | 0 <= k < |t.es|
      ensures Settled(a, t.es[k])
    {
      assert t.es[k] in t.es;
    }
    MintAllSettled(a, t.es);
    forall id | id in a.sessions
      ensures Allocated(a, t).sessions[id] == a.sessions[id]
    {
      if !Among(id, t.es) {
        assert Synced(q, t.es).sessions[id].ticket == 0;
      }
    }
    assert Allocated(a, t).sessions == a.sessions;
  }

  lemma ClosedHasNoDigest(q: Queue, t: Turn, id: Id)
    requires Sound(q) && id in Allocated(q, t).sessions && Closed(t.receipted, t.finished, id)
    ensures Allocated(q, t).sessions[id].ticket == 0 && Allocated(q, t).sessions[id].digest == ""
  {
    hide Synced;
    SyncSound(q, t.es);
    assert TicketFits(Synced(q, t.es), id);
  }

  /** An eligible session that is not settled moves the ticket counter. */
  lemma {:induction false} MintMoves(q: Queue, es: seq<Eligible>, k: nat)
    requires Sound(q) && Distinct(es) && k < |es| && !Settled(q, es[k])
    ensures MintAll(q, es).next > q.next
  {
    hide Sound;
    MintAllAt(q, es, k);
  }

  // ---------------------------------------------------------------------------
  // Bounded waiting
  // ---------------------------------------------------------------------------

  /** No other candidate stands before it: by band, then by ticket. */
  predicate First(q: Queue, cs: seq<Candidate>, c: Candidate) {
    forall o :: o in cs ==> (c.final && !o.final) || (c.final == o.final && Rank(q, c.id) <= Rank(q, o.id))
  }

  /** The unit returned belongs to a first candidate as the queue stands at the ranking. */
  ghost predicate Lawful(q: Queue, t: Turn) {
    && Distinct(t.es)
    && (forall e :: e in t.es ==> e.digest != "")
    && (forall c :: c in t.candidates ==> Among(c.id, t.es))
    && (t.served ==> t.picked.Some?)
    && (t.picked.Some? ==>
          exists c :: c in t.candidates && c.id == t.picked.value && First(Allocated(q, t), t.candidates, c))
  }

  function After(q: Queue, t: Turn): Queue {
    if t.picked.Some? && t.served then Serviced(Allocated(q, t), t.picked.value) else Allocated(q, t)
  }

  function AfterAll(q: Queue, turns: seq<Turn>): Queue {
    if turns == [] then q else After(AfterAll(q, turns[..|turns| - 1]), turns[|turns| - 1])
  }

  /** How often a unit was returned. */
  function Picks(turns: seq<Turn>): nat {
    if turns == [] then 0
    else Picks(turns[..|turns| - 1]) + if turns[|turns| - 1].picked.Some? then 1 else 0
  }

  /** How often one was served. */
  function Services(turns: seq<Turn>): nat {
    if turns == [] then 0
    else
      var last := turns[|turns| - 1];
      Services(turns[..|turns| - 1]) + if last.picked.Some? && last.served then 1 else 0
  }

  predicate Unserved(t: Turn) { t.picked.Some? && !t.served }

  /** The unit returned was not served, and the next scan finds the same unit of that session eligible
      and not closed: its claim keeps its place. */
  predicate Keeps(t: Turn, next: Turn) {
    Unserved(t) && exists e ::
      e in t.es && e in next.es && t.picked == Some(e.id) && !Closed(next.receipted, next.finished, e.id)
  }

  /** How often an allocation found the unit returned before it still in its place. */
  function Kept(turns: seq<Turn>): nat {
    if |turns| <= 1 then 0
    else Kept(turns[..|turns| - 1]) + if Keeps(turns[|turns| - 2], turns[|turns| - 1]) then 1 else 0
  }

  /** The sessions that wait with an older ticket. */
  function Ahead(q: Queue, x: Id): set<Id>
    requires x in q.sessions
  {
    set id | id in q.sessions && 0 < q.sessions[id].ticket < q.sessions[x].ticket
  }

  /** The session is waiting for this unit. */
  predicate Waiting(q: Queue, x: Eligible) { Settled(q, x) && q.sessions[x.id].ticket > 0 }

  /** The session is eligible with an unchanged unit, runnable as FINAL, not closed, and not the one
      returned. */
  predicate Passed(t: Turn, x: Eligible) {
    && x in t.es && Candidate(x.id, true) in t.candidates
    && !Closed(t.receipted, t.finished, x.id) && t.picked != Some(x.id)
  }

  /** The rank given to a missing ticket is still last. */
  predicate LastIsLast(ticket: int, t: Turn) {
    ticket < LAST_RANK || forall c :: c in t.candidates ==> !Closed(t.receipted, t.finished, c.id)
  }

  lemma SyncKeepsWaiting(q: Queue, es: seq<Eligible>, x: Eligible)
    requires Sound(q) && Distinct(es) && x in es && Waiting(q, x)
    ensures Waiting(Synced(q, es), x) && Ahead(Synced(q, es), x.id) <= Ahead(q, x.id)
    ensures Synced(q, es).sessions[x.id] == q.sessions[x.id]
  {
    SyncPlaces(q, es);
    var s := Synced(q, es);
    assert TicketFits(q, x.id);
    forall id | id in Ahead(s, x.id)
      ensures id in Ahead(q, x.id)
    {
      assert Among(id, es);
      var k :| 0 <= k < |es| && es[k].id == id;
      assert Settled(q, es[k]);
    }
  }

  lemma AllocationKeepsWaiting(q: Queue, t: Turn, x: Eligible)
    requires Sound(q) && Distinct(t.es) && Waiting(q, x) && Passed(t, x)
    ensures Waiting(Allocated(q, t), x) && Ahead(Allocated(q, t), x.id) <= Ahead(q, x.id)
    ensures Allocated(q, t).sessions[x.id] == q.sessions[x.id]
  {
    hide Synced, Sound;
    SyncKeepsWaiting(q, t.es, x);
  }

  /** The session returned instead stands ahead at the ranking, waiting for a unit of the scan. */
  lemma PickedWasAhead(q: Queue, t: Turn, x: Eligible)
    requires Sound(q) && Lawful(q, t) && Waiting(q, x) && Passed(t, x) && t.picked.Some?
    requires LastIsLast(q.sessions[x.id].ticket, t)
    ensures x.id in Allocated(q, t).sessions && t.picked.value in Ahead(Allocated(q, t), x.id)
    ensures exists e :: e in t.es && e.id == t.picked.value && Settled(Allocated(q, t), e)
  {
    hide Allocated, Sound;
    var a, y := Allocated(q, t), t.picked.value;
    AllocationKeepsWaiting(q, t, x);
    AllocatedSound(q, t);
    var c :| c in t.candidates && c.id == y && First(a, t.candidates, c);
    assert Among(c.id, t.es);
    Claimed(q, t, y);
    PositiveAtRanking(q, t, y);
    assert Candidate(x.id, true) in t.candidates;
    TicketsDiffer(a, y, x.id);
  }

  lemma TicketsDiffer(q: Queue, a: Id, b: Id)
    requires Sound(q) && a in q.sessions && b in q.sessions && a != b && q.sessions[a].ticket > 0
    ensures q.sessions[a].ticket != q.sessions[b].ticket
  {
  }

  /** An eligible session has a claim on its unit at the ranking, unless it is closed. */
  lemma Claimed(q: Queue, t: Turn, y: Id)
    requires Sound(q) && Distinct(t.es) && Among(y, t.es)
    ensures y in Allocated(q, t).sessions
    ensures exists e :: e in t.es && e.id == y && (!Closed(t.receipted, t.finished, y) ==> Settled(Allocated(q, t), e))
  {
    hide Synced, Sound;
    SyncPlaces(q, t.es);
    var k :| 0 <= k < |t.es| && t.es[k].id == y;
    assert t.es[k] in t.es && t.es[k].id in Synced(q, t.es).sessions;
  }

  /** A session that waited for a unit the next scan does not find, or finds closed, is no longer ahead. */
  lemma ReleasedFallsBack(q: Queue, t: Turn, x: Eligible, y: Eligible)
    requires Sound(q) && Distinct(t.es) && Waiting(q, x) && Passed(t, x)
    requires Settled(q, y) && (y !in t.es || Closed(t.receipted, t.finished, y.id))
    ensures x.id in Allocated(q, t).sessions && y.id !in Ahead(Allocated(q, t), x.id)
  {
    hide Synced;
    AllocationKeepsWaiting(q, t, x);
    SyncPlaces(q, t.es);
    var s := Synced(q, t.es);
    assert TicketFits(q, x.id);
    if y.id in s.sessions && Among(y.id, t.es) && !Closed(t.receipted, t.finished, y.id) {
      var k :| 0 <= k < |t.es| && t.es[k].id == y.id;
      assert t.es[k] in t.es && t.es[k].digest != y.digest;
      assert !Settled(q, t.es[k]);
    }
  }

  lemma ServiceFallsBack(a: Queue, x: Eligible, y: Id)
    requires Waiting(a, x) && y != x.id
    ensures Waiting(Serviced(a, y), x) && Serviced(a, y).sessions[x.id] == a.sessions[x.id]
    ensures Ahead(Serviced(a, y), x.id) <= Ahead(a, x.id) - {y}
  {
  }

  /** Everything one turn does to those ahead: a unit returned before and released goes, and a unit
      served now goes. */
  lemma TurnAdvances(q: Queue, t: Turn, x: Eligible, y: Option<Eligible>)
    requires Sound(q) && Lawful(q, t) && Waiting(q, x) && Passed(t, x) && LastIsLast(q.sessions[x.id].ticket, t)
    requires y.Some? ==> Settled(q, y.value) && y.value.id in Ahead(q, x.id)
    requires y.Some? ==> y.value !in t.es || Closed(t.receipted, t.finished, y.value.id)
    ensures Sound(After(q, t)) && Waiting(After(q, t), x) && After(q, t).sessions[x.id] == q.sessions[x.id]
    ensures |Ahead(After(q, t), x.id)| + (if y.Some? then 1 else 0) + (if t.picked.Some? && t.served then 1 else 0)
         <= |Ahead(q, x.id)|
    ensures Unserved(t) ==>
              t.picked.value in Ahead(After(q, t), x.id)
              && exists e :: e in t.es && e.id == t.picked.value && Settled(After(q, t), e)
  {
    hide Allocated, Sound, Serviced, Lawful, Passed, LastIsLast;
    var a := Allocated(q, t);
    LawfulDistinct(q, t, x);
    AllocatedSound(q, t);
    AllocationKeepsWaiting(q, t, x);
    if y.Some? {
      ReleasedFallsBack(q, t, x, y.value);
      SubsetSize(Ahead(a, x.id), Ahead(q, x.id) - {y.value.id});
    } else {
      SubsetSize(Ahead(a, x.id), Ahead(q, x.id));
    }
    if t.picked.Some? {
      PickedWasAhead(q, t, x);
      if t.served {
        ServicedSound(a, t.picked.value);
        ServiceFallsBack(a, x, t.picked.value);
        SubsetSize(Ahead(After(q, t), x.id), Ahead(a, x.id) - {t.picked.value});
      }
    }
  }

  lemma LawfulDistinct(q: Queue, t: Turn, x: Eligible)
    requires Lawful(q, t) && Passed(t, x)
    ensures Distinct(t.es) && t.picked != Some(x.id)
  {
  }

  ghost predicate Waits(q: Queue, turns: seq<Turn>, x: Eligible)
    requires x.id in q.sessions
  {
    forall i :: 0 <= i < |turns| ==>
      Lawful(AfterAll(q, turns[..i]), turns[i]) && Passed(turns[i], x) && LastIsLast(q.sessions[x.id].ticket, turns[i])
  }

  /** Bounded waiting. While a session stays eligible with an unchanged unit, runnable as FINAL, not
      closed, and is not itself returned: at most as many services go to others as there were older
      tickets when it was ticketed, however many newcomers arrive; and as many units are returned,
      but for those that an allocation found still in their place because a drive of them had come
      to nothing. */
  lemma {:induction false} BoundedWaiting(q: Queue, turns: seq<Turn>, x: Eligible)
    requires Sound(q) && Waiting(q, x) && x.id in q.sessions && Waits(q, turns, x)
    ensures var a := AfterAll(q, turns);
            && Sound(a) && Waiting(a, x) && a.sessions[x.id] == q.sessions[x.id]
            && Services(turns) + |Ahead(a, x.id)| <= |Ahead(q, x.id)|
            && Picks(turns) + |Ahead(a, x.id)|
                 <= |Ahead(q, x.id)| + Kept(turns) + (if turns != [] && Unserved(turns[|turns| - 1]) then 1 else 0)
            && (turns != [] && Unserved(turns[|turns| - 1]) ==>
                  var last := turns[|turns| - 1];
                  last.picked.value in Ahead(a, x.id)
                  && exists e :: e in last.es && e.id == last.picked.value && Settled(a, e))
  {
    hide Sound, Lawful, Passed, Allocated, After, Ahead, Settled, Closed;
    if turns != [] {
      var before, last := turns[..|turns| - 1], turns[|turns| - 1];
      WaitsBefore(q, turns, x);
      BoundedWaiting(q, before, x);
      var y := Released(before, last, AfterAll(q, before));
      TurnAdvances(AfterAll(q, before), last, x, y);
    }
  }

  lemma WaitsBefore(q: Queue, turns: seq<Turn>, x: Eligible)
    requires turns != [] && x.id in q.sessions && Waits(q, turns, x)
    ensures var before := turns[..|turns| - 1];
            && Waits(q, before, x)
            && Lawful(AfterAll(q, before), turns[|before|]) && Passed(turns[|before|], x)
            && LastIsLast(q.sessions[x.id].ticket, turns[|before|])
  {
    hide Lawful, Passed, LastIsLast;
    var before := turns[..|turns| - 1];
    forall i | 0 <= i < |before|
      ensures before[..i] == turns[..i] && before[i] == turns[i]
    {
    }
  }

  /** The unit returned last and not kept, if there is one. */
  lemma Released(before: seq<Turn>, last: Turn, q: Queue) returns (y: Option<Eligible>)
    requires before != [] && Unserved(before[|before| - 1]) ==>
               var t := before[|before| - 1]; exists e :: e in t.es && e.id == t.picked.value && Settled(q, e)
    ensures y.Some? <==> before != [] && Unserved(before[|before| - 1]) && !Keeps(before[|before| - 1], last)
    ensures y.Some? ==>
              && Settled(q, y.value) && y.value.id == before[|before| - 1].picked.value
              && (y.value !in last.es || Closed(last.receipted, last.finished, y.value.id))
  {
    hide Settled;
    y := None;
    if before != [] && Unserved(before[|before| - 1]) && !Keeps(before[|before| - 1], last) {
      var t := before[|before| - 1];
      var e :| e in t.es && e.id == t.picked.value && Settled(q, e);
      y := Some(e);
    }
  }

  // ---------------------------------------------------------------------------
  // The conditions are needed
  // ---------------------------------------------------------------------------

  /** A closed session is passed over whenever an open one of the first band is there with a ticket
      below the last rank: however long it has been eligible, it is ranked as if never ticketed. */
  lemma ClosedIsPassed(q: Queue, t: Turn, x: Id, o: Candidate)
    requires Sound(q) && Lawful(q, t) && Closed(t.receipted, t.finished, x) && Among(x, t.es)
    requires o in t.candidates && o.final && !Closed(t.receipted, t.finished, o.id)
    requires o.id in Allocated(q, t).sessions && Allocated(q, t).sessions[o.id].ticket < 1000000000000
    ensures t.picked != Some(x)
  {
    hide Allocated, Sound;
    assert Among(o.id, t.es);
    Claimed(q, t, x);
    PositiveAtRanking(q, t, o.id);
    PositiveAtRanking(q, t, x);
  }

  const STUCK := Eligible("a", "u")
  const OTHER := Eligible("b", "v")
  const BOTH := [Candidate("a", true), Candidate("b", true)]

  /** The last unit of session "a" has its receipt and not its DONE, so the session is exhausted and
      its recovery unit eligible; session "b" is served, and comes back with its next unit. */
  const CLOSED_TURN := Turn([STUCK, OTHER], {"a"}, {"a"}, BOTH, Some("b"), true)

  function Repeat(t: Turn, n: nat): seq<Turn> { if n == 0 then [] else Repeat(t, n - 1) + [t] }

  /** The queue after `n` such turns. */
  function Starved(n: nat): Queue {
    Queue(if n == 0 then map[] else map["a" := Claim(0, 0, ""), "b" := Claim(n, 0, "")], 2 * n + 1,
          AfterAll(FRESH, Repeat(CLOSED_TURN, n)).sequence)
  }

  lemma StarvedMints(n: nat)
    ensures var m := MintAll(Starved(n), [STUCK, OTHER]);
            && m.sessions == map["a" := Claim(0, 2 * n + 1, "u"), "b" := Claim(n, 2 * n + 2, "v")]
            && m.next == 2 * n + 3 && m.sequence == Starved(n).sequence
  {
    hide LastServices, AfterAll;
    var es := [STUCK, OTHER];
    assert es[..1] == [STUCK] && [STUCK][..0] == [];
    var one := Mint(Starved(n), STUCK);
    assert MintAll(Starved(n), [STUCK]) == one;
    assert MintAll(Starved(n), es) == Mint(one, OTHER);
  }

  lemma StarvedClaims(n: nat)
    ensures var a := Allocated(Starved(n), CLOSED_TURN);
            && a.sessions == map["a" := Claim(0, 0, ""), "b" := Claim(n, 2 * n + 2, "v")]
            && a.next == 2 * n + 3 && a.sequence == Starved(n).sequence
  {
    hide MintAll, Starved;
    StarvedMints(n);
    var es := [STUCK, OTHER];
    assert es[0].id == "a" && es[1].id == "b";
    assert Among("a", es) && Among("b", es);
  }

  lemma StarvedStep(n: nat)
    requires 2 * n + 2 <= LAST_RANK
    ensures After(Starved(n), CLOSED_TURN) == Starved(n + 1).(sequence := LastServices(Starved(n).sequence + ["b"]))
    ensures Lawful(Starved(n), CLOSED_TURN)
  {
    hide LastServices, AfterAll, Allocated;
    StarvedClaims(n);
    var es := [STUCK, OTHER];
    assert es[0].id == "a" && es[1].id == "b";
    assert Among("a", es) && Among("b", es);
    assert First(Allocated(Starved(n), CLOSED_TURN), BOTH, Candidate("b", true));
  }

  lemma {:induction false} RepeatPrefix(t: Turn, n: nat, i: nat)
    requires i <= n
    ensures |Repeat(t, n)| == n && Repeat(t, n)[..i] == Repeat(t, i) && (i < n ==> Repeat(t, n)[i] == t)
  {
    if i == n {
      RepeatLength(t, n);
    } else {
      RepeatPrefix(t, n - 1, i);
      RepeatLength(t, n);
    }
  }

  lemma {:induction false} RepeatLength(t: Turn, n: nat)
    ensures |Repeat(t, n)| == n
  {
    if n > 0 {
      RepeatLength(t, n - 1);
    }
  }

  lemma OneMoreTurn(q: Queue, t: Turn, n: nat)
    ensures AfterAll(q, Repeat(t, n + 1)) == After(AfterAll(q, Repeat(t, n)), t)
    ensures Services(Repeat(t, n + 1)) == Services(Repeat(t, n)) + if t.picked.Some? && t.served then 1 else 0
    ensures Picks(Repeat(t, n + 1)) == Picks(Repeat(t, n)) + if t.picked.Some? then 1 else 0
  {
    hide After;
    var before := Repeat(t, n);
    assert (before + [t])[..|before|] == before;
  }

  lemma {:induction false} StarvedAfter(n: nat)
    requires 2 * n <= LAST_RANK
    ensures AfterAll(FRESH, Repeat(CLOSED_TURN, n)) == Starved(n) && Services(Repeat(CLOSED_TURN, n)) == n
  {
    hide Lawful, After, LastServices, AfterAll, Repeat, Services;
    if n == 0 {
      NoTurns(FRESH, CLOSED_TURN);
    } else {
      StarvedAfter(n - 1);
      StarvedStep(n - 1);
      ServedB(n - 1);
      OneMoreTurn(FRESH, CLOSED_TURN, n - 1);
    }
  }

  lemma NoTurns(q: Queue, t: Turn)
    ensures AfterAll(q, Repeat(t, 0)) == q && Services(Repeat(t, 0)) == 0 && Picks(Repeat(t, 0)) == 0
  {
  }

  /** A run in which the recovery unit of an exhausted session is eligible at every allocation and is
      passed over every time, by a session that was ticketed after it every time. */
  lemma RecoveryUnitIsStarved(n: nat, i: nat)
    requires 2 * n <= LAST_RANK && i < n
    ensures var turns := Repeat(CLOSED_TURN, n);
            && |turns| == n == Services(turns)
            && Lawful(AfterAll(FRESH, turns[..i]), turns[i])
            && STUCK in turns[i].es && Candidate("a", true) in turns[i].candidates && turns[i].picked == Some("b")
  {
    hide Lawful, AfterAll, Repeat, Services;
    RepeatPrefix(CLOSED_TURN, n, i);
    StarvedAfter(n);
    StarvedAfter(i);
    StarvedStep(i);
    assert CLOSED_TURN.es[0] == STUCK && BOTH[0] == Candidate("a", true);
  }

  lemma ServedB(n: nat)
    ensures AfterAll(FRESH, Repeat(CLOSED_TURN, n + 1)).sequence
         == LastServices(AfterAll(FRESH, Repeat(CLOSED_TURN, n)).sequence + ["b"])
  {
    hide Allocated, LastServices;
    var before := Repeat(CLOSED_TURN, n);
    assert (before + [CLOSED_TURN])[..|before|] == before;
    AllocatedKeepsSequence(AfterAll(FRESH, before), CLOSED_TURN);
  }

  lemma AllocatedKeepsSequence(q: Queue, t: Turn)
    ensures Allocated(q, t).sequence == q.sequence
  {
    hide MintAll, Among;
    SyncKeepsServed(q, t.es, "");
  }

  /** The drive of session "a" comes to nothing, a kernel refusal that raises for one, and leaves its
      unit as it was. */
  const REFUSED_TURN := Turn([STUCK, OTHER], {}, {}, BOTH, Some("a"), false)

  const QUEUED := Queue(map["a" := Claim(0, 1, "u"), "b" := Claim(0, 2, "v")], 3, [])

  lemma QueuedStays()
    ensures Allocated(QUEUED, REFUSED_TURN) == QUEUED && Distinct([STUCK, OTHER])
    ensures Among("a", [STUCK, OTHER]) && Among("b", [STUCK, OTHER])
  {
    var es := [STUCK, OTHER];
    assert es[0] == STUCK && es[1] == OTHER;
    forall k | 0 <= k < |es| ensures Settled(QUEUED, es[k]) {}
    MintAllSettled(QUEUED, es);
    assert Retire(QUEUED, es).sessions == QUEUED.sessions;
    assert Allocated(QUEUED, REFUSED_TURN).sessions == QUEUED.sessions;
  }

  lemma RefusedStep()
    ensures After(QUEUED, REFUSED_TURN) == QUEUED && Lawful(QUEUED, REFUSED_TURN)
    ensures Sound(QUEUED) && Waiting(QUEUED, OTHER) && Passed(REFUSED_TURN, OTHER) && Keeps(REFUSED_TURN, REFUSED_TURN)
  {
    hide Allocated, Among;
    QueuedStays();
    var es := [STUCK, OTHER];
    assert es[0] == STUCK && es[1] == OTHER && STUCK in es && OTHER in es;
    assert BOTH[0] == Candidate("a", true) && BOTH[1] == Candidate("b", true);
    assert First(QUEUED, BOTH, Candidate("a", true));
  }

  lemma {:induction false} RefusedAfter(n: nat)
    ensures var turns := Repeat(REFUSED_TURN, n);
            AfterAll(QUEUED, turns) == QUEUED && Picks(turns) == n && Services(turns) == 0
  {
    hide Lawful, After, Passed, AfterAll, Repeat, Services, Picks;
    if n == 0 {
      NoTurns(QUEUED, REFUSED_TURN);
    } else {
      RefusedAfter(n - 1);
      RefusedStep();
      OneMoreTurn(QUEUED, REFUSED_TURN, n - 1);
    }
  }

  /** The exception is needed: a unit that is refused again and again keeps the oldest ticket and is
      returned every time, while nothing is served and the next in line waits. */
  lemma RefusalLoopHoldsTheQueue(n: nat)
    ensures var turns := Repeat(REFUSED_TURN, n);
            && |turns| == n == Picks(turns) && Services(turns) == 0 && AfterAll(QUEUED, turns) == QUEUED
            && OTHER.id in QUEUED.sessions && Waits(QUEUED, turns, OTHER)
  {
    hide Lawful, AfterAll, Passed, Repeat, Services, Picks;
    RefusedStep();
    RefusedAfter(n);
    RepeatPrefix(REFUSED_TURN, n, n);
    forall i | 0 <= i < n
      ensures Repeat(REFUSED_TURN, n)[i] == REFUSED_TURN && AfterAll(QUEUED, Repeat(REFUSED_TURN, n)[..i]) == QUEUED
    {
      RepeatPrefix(REFUSED_TURN, n, i);
      RefusedAfter(i);
    }
  }

  // ---------------------------------------------------------------------------
  // Telemetry
  // ---------------------------------------------------------------------------

  function Served(q: Queue, x: Id): nat { if x in q.sessions then q.sessions[x].served else 0 }

  /** The services of a run, in order. */
  function ServiceLog(turns: seq<Turn>): seq<Id> {
    if turns == [] then []
    else
      var last := turns[|turns| - 1];
      ServiceLog(turns[..|turns| - 1]) + if last.picked.Some? && last.served then [last.picked.value] else []
  }

  function Count(log: seq<Id>, x: Id): nat {
    if log == [] then 0 else Count(log[..|log| - 1], x) + if log[|log| - 1] == x then 1 else 0
  }

  lemma {:induction false} SyncKeepsServed(q: Queue, es: seq<Eligible>, x: Id)
    ensures Served(MintAll(q, es), x) == Served(q, x) && MintAll(q, es).sequence == q.sequence
  {
    if es != [] {
      SyncKeepsServed(q, es[..|es| - 1], x);
    }
  }

  lemma ServedOnce(q: Queue, t: Turn, x: Id)
    ensures Served(After(q, t), x) == Served(q, x) + if t.served && t.picked == Some(x) then 1 else 0
    ensures After(q, t).sequence
         == if t.picked.Some? && t.served then LastServices(q.sequence + [t.picked.value]) else q.sequence
  {
    hide MintAll, LastServices, Among;
    SyncKeepsServed(q, t.es, x);
  }

  lemma LastOfLast(log: seq<Id>, x: Id)
    ensures LastServices(LastServices(log) + [x]) == LastServices(log + [x])
  {
  }

  lemma CountMore(log: seq<Id>, y: Id, x: Id)
    ensures Count(log + [y], x) == Count(log, x) + if y == x then 1 else 0
  {
    assert (log + [y])[..|log|] == log;
  }

  /** The lifetime count of a session is exactly how often it was served, and the service sequence is
      the last 64 services; neither is touched by a scan, and neither is ever a rank. */
  lemma {:induction false} TelemetryIsExact(turns: seq<Turn>, x: Id)
    ensures Served(AfterAll(FRESH, turns), x) == Count(ServiceLog(turns), x)
    ensures AfterAll(FRESH, turns).sequence == LastServices(ServiceLog(turns))
  {
    hide After, LastServices, Count, Served;
    if turns == [] {
      NothingServed(x);
    } else {
      var before, last := turns[..|turns| - 1], turns[|turns| - 1];
      TelemetryIsExact(before, x);
      ServedOnce(AfterAll(FRESH, before), last, x);
      if last.picked.Some? && last.served {
        CountMore(ServiceLog(before), last.picked.value, x);
        LastOfLast(ServiceLog(before), last.picked.value);
      } else {
        assert ServiceLog(before) + [] == ServiceLog(before);
      }
    }
  }

  lemma NothingServed(x: Id)
    ensures Served(FRESH, x) == Count([], x) && LastServices([]) == FRESH.sequence
  {
  }
}
