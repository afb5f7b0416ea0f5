/** Provenance of a whole journal: the run prologue rebuilds missing records, then compacts what is
    settled.

    Source: `reconcile_provenance`, `missing_links`, `record_provenance` of
    `tools/saipal_analyst/provenance.py`; `done_provenance_ready`, `compact_done_jobs` of
    `tools/saipal_analyst/jobs.py`; the prologue of `investigate` in
    `tools/saipal_analyst/worker.py`. A receipt is known by the candidate it was given for. */
module Provenance {
  import opened Options
  import opened Deliberation
  import opened Jobs
  import opened Driver

  type JobId = string
  type Journal = map<JobId, Job>
  type Records = map<Candidate, Record>

  /** The job is DONE and names a receipt. */
  predicate Settled(j: Job) { j.stage == DONE && j.receipt.Some? }

  /** DONE receipts whose provenance record is absent. */
  function MissingLinks(journal: Journal, records: Records): set<JobId> {
    set id | id in journal && Settled(journal[id]) && journal[id].receipt.value !in records
  }

  predicate ProvenanceReady(j: Job, receipts: Option<set<Candidate>>) {
    Settled(j) && (receipts.Some? ==> j.receipt.value in receipts.value)
  }

  /** What compaction leaves of a job. */
  function Compacted(j: Job, receipts: Option<set<Candidate>>): Job {
    if ProvenanceReady(j, receipts) then CompactDone(j) else j
  }

  /** The last proof of every DONE job: its payload, or the record of its receipt. */
  ghost predicate LastProofKept(journal: Journal, records: Records) {
    forall id :: id in journal && Settled(journal[id]) ==>
      journal[id].candidate.Some? || journal[id].receipt.value in records
  }

  function CompactedAll(journal: Journal, receipts: Option<set<Candidate>>): Journal {
    map id | id in journal :: Compacted(journal[id], receipts)
  }

  /** A job is compacted exactly when it is DONE with a receipt, one of those in hand when there are any. */
  lemma CompactedExactly(j: Job, receipts: Option<set<Candidate>>)
    ensures Compacted(j, receipts)
         == if j.stage == DONE && j.receipt.Some? && (receipts.None? || j.receipt.value in receipts.value)
            then CompactDone(j) else j
  {
  }

  /** Compacting a journal keeps the last proof of every job exactly when each settled one has its record,
      or holds its payload and is not compacted. */
  lemma CompactionKeepsProofExactly(journal: Journal, records: Records, receipts: Option<set<Candidate>>)
    ensures LastProofKept(CompactedAll(journal, receipts), records) <==>
              forall id :: id in journal && Settled(journal[id]) ==>
                || journal[id].receipt.value in records
                || (journal[id].candidate.Some? && !ProvenanceReady(journal[id], receipts))
  {
    var after := CompactedAll(journal, receipts);
    forall id | id in journal
      ensures after[id].stage == journal[id].stage && after[id].receipt == journal[id].receipt
      ensures after[id].candidate == if ProvenanceReady(journal[id], receipts) then None else journal[id].candidate
    {
    }
  }

  /** The record was computed from a DONE job of the journal that still held its payload. */
  ghost predicate FromPayload(journal: Journal, receipt: Candidate, rec: Record) {
    exists id :: id in journal && Settled(journal[id]) && journal[id].receipt.value == receipt
                 && journal[id].candidate.Some? && rec == RecordOf(journal[id])
  }

  class AnalystHome {
    var journal: Journal
    var records: Records

    constructor (journal: Journal, records: Records)
      ensures this.journal == journal && this.records == records
    {
      this.journal, this.records := journal, records;
    }

    /** Rebuild, from journal facts alone, the record of every DONE receipt that has none. It never
        rewrites a record, leaves no missing link, and, as long as every DONE job keeps its last
        proof, computes each new record from a job that still holds its payload. */
    method Reconcile() returns (repaired: nat)
      modifies this`records
      ensures forall r :: r in old(records) ==> r in records && records[r] == old(records)[r]
      ensures MissingLinks(journal, records) == {}
      ensures forall id :: id in journal && journal[id].stage == DONE && journal[id].receipt.Some? ==>
                journal[id].receipt.value in records
      ensures repaired == |records| - old(|records|)
      ensures repaired == 0 <==> MissingLinks(journal, old(records)) == {}
      ensures repaired == 0 ==> records == old(records)
      ensures LastProofKept(journal, old(records)) ==>
                && LastProofKept(journal, records)
                && forall r :: r in records && r !in old(records) ==> FromPayload(journal, r, records[r])
    {
      hide RecordOf;
      repaired := 0;
      var rest := journal.Keys;
      while rest != {}
        invariant rest <= journal.Keys
        invariant forall r :: r in old(records) ==> r in records && records[r] == old(records)[r]
        invariant forall id :: id in journal && id !in rest && Settled(journal[id]) ==>
                    journal[id].receipt.value in records
        invariant repaired == |records| - |old(records)| && (repaired == 0 ==> records == old(records))
        invariant repaired > 0 ==> MissingLinks(journal, old(records)) != {}
        invariant LastProofKept(journal, old(records)) ==>
                    forall r :: r in records && r !in old(records) ==> FromPayload(journal, r, records[r])
        decreases |rest|
      {
        var id :| id in rest;
        rest := rest - {id};
        var job := journal[id];
        if job.stage == DONE && job.receipt.Some? && job.receipt.value !in records {
          assert id in MissingLinks(journal, old(records));
          records := records[job.receipt.value := RecordOf(job)];
          repaired := repaired + 1;
        }
      }
    }

    /** Compact every provably settled DONE job. Nothing else is touched; a job that is already a
        tombstone is not counted. Against receipts that all have a record it keeps the last proof of
        every job that had one; without a receipt set it trusts its caller, and keeps them exactly
        when no record was missing. */
    method CompactDoneJobs(receipts: Option<set<Candidate>>) returns (compacted: nat)
      modifies this`journal
      ensures journal.Keys == old(journal).Keys
      ensures forall id :: id in journal ==> journal[id] == Compacted(old(journal)[id], receipts)
      ensures compacted == 0 <==> journal == old(journal)
      ensures receipts.Some? && receipts.value <= records.Keys ==>
                (LastProofKept(journal, records) <==> LastProofKept(old(journal), records))
      ensures receipts.None? ==> (LastProofKept(journal, records) <==> MissingLinks(old(journal), records) == {})
    {
      hide CompactDone, LastProofKept, MissingLinks, Compacted, ProvenanceReady, Tombstone, CompactedAll;
      ProofAfter(journal, records, receipts);
      compacted := 0;
      var rest := journal.Keys;
      while rest != {}
        invariant rest <= journal.Keys == old(journal).Keys
        invariant forall id :: id in journal ==>
                    journal[id] == if id in rest then old(journal)[id] else Compacted(old(journal)[id], receipts)
        invariant compacted == 0 <==> journal == old(journal)
        decreases |rest|
      {
        var id :| id in rest;
        rest := rest - {id};
        CompactedFacts(journal[id], receipts);
        if ProvenanceReady(journal[id], receipts) && !Tombstone(journal[id]) {
          journal := journal[id := CompactDone(journal[id])];
          compacted := compacted + 1;
          assert journal[id] != old(journal)[id];
        }
      }
      AllCompacted(old(journal), journal, receipts);
    }

    /** The prologue of every run: reconcile, then compact against the ledger as it then is; when
        the ledger cannot be written, or cannot be read back, nothing is compacted. It keeps the
        last proof of every job, and when both work every settled job ends as a tombstone behind
        its record. */
    method Prologue(writable: bool, readable: bool)
      requires LastProofKept(journal, records)
      modifies this
      ensures LastProofKept(journal, records)
      ensures journal.Keys == old(journal).Keys
      ensures writable ==> MissingLinks(journal, records) == {}
      ensures writable && readable ==> forall id :: id in journal && Settled(journal[id]) ==> Tombstone(journal[id])
      ensures forall r :: r in records && r !in old(records) ==> FromPayload(old(journal), r, records[r])
      ensures forall r :: r in old(records) ==> r in records && records[r] == old(records)[r]
      ensures !writable ==> records == old(records)
      ensures !(writable && readable) ==> journal == old(journal)
      ensures forall id :: id in journal && !Settled(old(journal)[id]) ==> journal[id] == old(journal)[id]
    {
      hide RecordOf, LastProofKept, MissingLinks, Compacted, FromPayload, Tombstone, Settled;
      var receipts: set<Candidate> := {};
      if writable {
        var repaired := Reconcile();
        if readable {
          receipts := records.Keys;
        }
      }
      label Reconciled:
      var compacted := CompactDoneJobs(Some(receipts));
      forall id | id in journal
        ensures journal[id].stage == old(journal)[id].stage && journal[id].receipt == old(journal)[id].receipt
        ensures !Settled(old(journal)[id]) || !(writable && readable) ==> journal[id] == old(journal)[id]
        ensures writable && readable && Settled(journal[id]) ==> Tombstone(journal[id])
      {
        CompactedFacts(old(journal)[id], Some(receipts));
        if writable && readable && Settled(old(journal)[id]) {
          NoneMissing(old(journal), records, id);
          assert receipts == records.Keys;
        }
      }
      SameMissing(old(journal), journal, records);
    }
  }

  lemma NoneMissing(journal: Journal, records: Records, id: JobId)
    requires MissingLinks(journal, records) == {} && id in journal && Settled(journal[id])
    ensures journal[id].receipt.value in records
  {
    assert id !in MissingLinks(journal, records);
  }

  lemma SameMissing(before: Journal, after: Journal, records: Records)
    requires before.Keys == after.Keys
    requires forall id :: id in before ==>
               after[id].stage == before[id].stage && after[id].receipt == before[id].receipt
    ensures MissingLinks(after, records) == MissingLinks(before, records)
  {
  }

  lemma CompactedFacts(j: Job, receipts: Option<set<Candidate>>)
    ensures Compacted(j, receipts).stage == j.stage && Compacted(j, receipts).receipt == j.receipt
    ensures Settled(Compacted(j, receipts)) <==> Settled(j)
    ensures !Settled(j) ==> Compacted(j, receipts) == j
    ensures if ProvenanceReady(j, receipts) && !Tombstone(j)
            then Compacted(j, receipts) == CompactDone(j) && CompactDone(j) != j
            else Compacted(j, receipts) == j
    ensures ProvenanceReady(j, receipts) ==> Tombstone(Compacted(j, receipts))
    ensures receipts == Some({}) ==> Compacted(j, receipts) == j
    ensures receipts.Some? && Settled(j) && j.receipt.value in receipts.value ==> Tombstone(Compacted(j, receipts))
  {
  }

  lemma AllCompacted(before: Journal, after: Journal, receipts: Option<set<Candidate>>)
    requires after.Keys == before.Keys && forall id :: id in after ==> after[id] == Compacted(before[id], receipts)
    ensures after == CompactedAll(before, receipts)
  {
  }

  lemma ProofAfter(journal: Journal, records: Records, receipts: Option<set<Candidate>>)
    ensures receipts.Some? && receipts.value <= records.Keys ==>
              (LastProofKept(CompactedAll(journal, receipts), records) <==> LastProofKept(journal, records))
    ensures receipts.None? ==>
              (LastProofKept(CompactedAll(journal, receipts), records) <==> MissingLinks(journal, records) == {})
  {
    hide Compacted;
    CompactionKeepsProofExactly(journal, records, receipts);
    if id :| id in MissingLinks(journal, records) {
      assert id in journal && Settled(journal[id]);
    } else {
      forall id | id in journal && Settled(journal[id])
        ensures journal[id].receipt.value in records
      {
        assert id !in MissingLinks(journal, records);
      }
    }
  }

  /** The path a record shows is cut short once the payload is gone: of a critic who agreed nothing
      is left to see. So a record must be written before compaction. */
  lemma CompactionShortensPath(j: Job)
    requires j.stage == DONE
    ensures DeliberationPath(CompactDone(j)) == DeliberationPath(j) <==>
              (j.report.None? && !Has(j.critic.reply)) && (Has(j.finalizer.reply) ==> j.finalizerDigest.Some?)
  {
  }
}
