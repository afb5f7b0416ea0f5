# SAIPAL: the durable analyst and its ledgers

SAIPAL's analyst takes one unit of session evidence at a time through a paid deliberation:
investigator, critic when the policy asks for one, finalizer when the critic objects, then submit.
Every paid reply is journaled before it is read, and a restart must neither pay twice nor let a
verdict through that the straight-line deliberation would not have returned. Around that driver
stand the slice loop that spends a budget, the fair-share queue, the budget ledger with its circuit
breaker, the requeue pass, the closed-loop verdict ledger, and the evidence side: paging, the event
index, the bundle cache, coverage and provenance.

This project models those parts in Dafny and proves what they promise over every input, every run
and every interleaving. The model is an arbitrary function from role and prompt to text; parsing and
validating a reply are arbitrary partial functions; digests are injective, so a digest is represented
by the text it digests. Everything outside one drive (gates, transport outcomes, kernel answers, the
clock) is an input.

How the files are layered:

- `Deliberation`, `Jobs`: the decision as a value and as the source runs it; the job machine.
- `Driver`: the driver as a step system with a disk and a memory that a crash drops. One step is one
  journal write or one outside interaction, so a crash between any two of them is a run of it.
- `DriverShape`, `DriverTrace`, `DriverSpend`, `DriverPayment`, `DriverReplay`, `DriverIdentity`,
  `DriverRefinement`, `DriverGate`, `DriverSettlement`, `DriverOutcome`: what holds in every run of
  that system.
- `Worker`: the driver as imperative code over one journal entry. Each method is proved to make steps
  of the step system, from any durable state a run (crashes included) can leave, so the theorems
  above are theorems about this code. Its two writes of "resume a binding block, then fail to build
  the packet" are one step of the system; the state between them is what the step with a good packet
  leaves, followed by a crash.
- `SliceLoop`, `Fairness`, `Ledger`, `Budgets`, `Circuits`, `SourceCircuits`, `LedgerTxn`, `Requeue`, `ClosedLoop`,
  `Events`, `Carrier`, `BundleCache`, `Coverage`, `Provenance`: one module per remaining part.

## What the proofs found

Where a promise does not hold as written, the exact condition under which it holds is proved beside
a concrete run that breaks it.

- A blank reply counts as text for the transport (`tools/saipal_analyst/openai_compatible.py:167-178`)
  but as missing for the journal. So a role that has been called can be called again without a requeue
  exactly when its reply is missing or blank, what it was wanted for (candidate, report, finalizer
  digest) is not there, and the unit is neither settled nor parked (`BoughtAgainExactly`,
  `BlankReplyIsBoughtAgain`). A critic's or finalizer's blank reply is known, and still a crash before
  it is judged parks the unit as unknown (`BlankVerdictParks`). `BoundedSpend` has a term for blanks.
- An attempt whose outcome is unknown can be repeated. A first call that is lost strands its unit, and
  a stranded unit sends nothing until the allocator overwrites its stage with a binding block
  (`tools/saipal_analyst/worker.py:710`) or its packet fails (`HeldStays`, `HeldLeavesExactly`). After a
  binding block the driver resumes before the call and makes it again, under the same identity and
  without ever parking (`LostFirstCallGoesOutAgain`; `BindingBlockRepeatsCall` is a run of ten events).
  A lost repair goes out again on the very next drive (`LostRepairGoesOutAgain`, `LostRepairRepeats`):
  `next_action` sees only that the first reply is there (`tools/saipal_analyst/jobs.py:611-621`).
  Without a binding block and a requeue these repairs, of the investigator or of a reply that is not
  blank, are exactly the lost requests that can be repeated (`LostRequestRepeatsExactly`); once binding
  blocks are allowed every lost request can be (`EveryLostRequestCanRepeat`).
- The identity of an attempt that failed with a known outcome stays on the job
  (`tools/saipal_analyst/jobs.py:530-544`), so a budget stop before the next call parks the unit as if
  its outcome were unknown (`BudgetStopParks`, `KnownFailureLeavesIdentity`).
- Two transports share an identity exactly when they ask the same role the same thing with no counted
  failure from the one to the other (`IdentityRepeatsExactly`). It happens after a lost request, after a
  blank reply (`BlankRepeatsIdentity`) and after a requeue, which clears the identities but not the
  counter they are derived from (`RequeueRepeatsIdentity`), and otherwise never (`IdentitiesDistinct`).
- A packet that cannot be built overwrites REMOTE_OUTCOME_UNKNOWN with BLOCKED
  (`tools/saipal_analyst/worker.py:964-970`), and a requeue then wakes the unit
  (`ParkedLeavesExactly`).
- `finalizer_on_disagreement` reads as off when absent in `tools/saipal_analyst/deliberation.py:269`
  and as on in `tools/saipal_analyst/worker.py:1159`; the configuration check requires the key
  (`tools/saipal_analyst/config.py:218-222`). `DefaultsDisagreeExactly` says when that matters.
- `SUBMITTING -> RETRY_WAIT` is asked for at `tools/saipal_analyst/worker.py:1251` and forbidden at
  `tools/saipal_analyst/jobs.py:84`: a kernel refusal inside the allowance always raises, is never
  counted, and so never uses the allowance up (`OnlyRefusalsRaise`). Turning the critic off under a
  job that is in the middle of its critic raises too (`PolicyChangeRaises`).
- Two sleeps in a row are possible in a slice, when the unit waited for loses its binding meanwhile
  (`SecondSleepExactly`, `TwoSleepsInARow`). The slice still ends.
- The hourly windows forget an hour after any charge at another hour than it and the next, so a clock
  that steps back across an hour loses counts (`WindowsRemember`, `RemembersAllExactly`,
  `RollbackForgets`).
- The rollback freeze ends strictly past the latest charge, where the comment at
  `tools/saipal_analyst/budgets.py:259-267` says reaching it is enough (`FrozenExactly`, `AllowedExactly`).
- The hourly limit on units is not enforced where units are charged
  (`tools/saipal_analyst/worker.py:843-850`): it holds in an hour exactly when every unit charged in it
  found the room the gate asks of a call (`UnitLimitHoldsExactly`). Units that settle without a call
  pass it in any number (`UnitLimitIsPassed`). The limit on attempts holds whatever units are charged in
  between (`HourlyLimitHolds`).
- An allocation unties the claim of every session that has a receipt and is exhausted or no longer
  indexed (`tools/saipal_analyst/worker.py:676-683`), also when the session still has a recovery unit,
  as after a crash between its last receipt and DONE. Such a unit is ticketed and untied on every
  allocation, ranks last, and can be passed for ever (`PositiveAtRanking`, `AllocationRepeatsExactly`,
  `ClosedIsPassed`, `RecoveryUnitIsStarved`). A unit whose drive keeps coming to nothing keeps the
  oldest ticket and is returned every time (`RefusalLoopHoldsTheQueue`). The wait is bounded for the
  rest (`BoundedWaiting`).
- A success does not shorten the next circuit trip: `open_seconds` is never reset
  (`tools/saipal_analyst/budgets.py:412-430`), so the k-th trip is as long as the k-th ever
  (`KthTripLasts`). Failures that are the job's own count towards the threshold
  (`JobScopedStillCounts`). A source's trips are not shortened by a new configuration either
  (`KthSourceTripLasts`), and a source can be half open without five failures behind it
  (`HalfOpenWithoutStreak`): it has five exactly when its last opening was a timed trip, or a
  configuration failure that was itself at least the fifth of its streak (`HalfOpenHasFiveExactly`). A
  failed probe reopens it exactly when it is at least the fifth (`FailedProbe`). The demotion of a source does not look at the time again under the fence
  (`DemoteRechecks`), so it can half-open a circuit another writer has just tripped.
- The requeue allowance counts a history that is cut to eight entries, so it binds exactly up to
  eight (`AllowanceBinds`, `LargerAllowanceNeverBinds`); the dry run and the real run agree on
  everything but `requeues_spent` (`PlansAgree`, `SpentDiffers`).
- A disposition file may hold two rows for one audit that differ in a dropped fix version; it is
  accepted and records a revision that takes the fix back (`DroppedFixIsARevision`). An accepted file
  decides each audit once exactly when no row leaves open a fix that the last row of its audit gave
  (`DecidesOnceExactly`).
- A bundle file replaced between its stat and its read can make a cache hit answer where a fresh load
  refuses; the answer still has the digest that was asked for (`ReplacedBetweenStatAndRead`). An entry
  written again for a path already cached keeps its old place in the eviction order.

## Model

| member | source | states |
|---|---|---|
| Deliberation.Investigation.TryWithRepair | tools/saipal_analyst/deliberation.py:91-117 | one call and at most one repair; the value, the calls made and the count of invalid outputs |
| Deliberation.Investigation.ResolveDisagreement | tools/saipal_analyst/deliberation.py:249-286 | an agreeing critic, or an insufficient one on NO_DRIFT, keeps the candidate and calls nobody; otherwise the finalizer decides or nothing stands |
| Deliberation.Investigation.ResumeFromCandidate | tools/saipal_analyst/deliberation.py:159-236 | a recovery passes the same gates, reusing a kept critic report; the calls made, the steps recorded, the verdicts before and after, and blocked exactly when no candidate stands |
| Deliberation.Investigation.RunInvestigation | tools/saipal_analyst/deliberation.py:69-156 | the deliberation returns the decided candidate and blocks exactly when there is none; the exact calls, at most six, the steps and the verdicts before and after |
| Deliberation.RecoveryDecidesAlike | tools/saipal_analyst/deliberation.py:159-236 | recovery with the critic's own report, or with none kept, decides as the full run does |
| Deliberation.RecoveryKeepsGate | tools/saipal_analyst/deliberation.py:159-236 | with the critic on, a DRIFT verdict out of any recovery is agreed by its critic or is the validated finalizer output |
| Deliberation.DefaultsDisagreeExactly | tools/saipal_analyst/worker.py:1159 | the two defaults of the finalizer switch decide alike exactly when the key is present, no dispute arises, or the finalizer fails anyway |
| Deliberation.AnswersExactly | tools/saipal_analyst/deliberation.py:91-117 | a role's validated answer is its accepted reply, or with a repair allowed the accepted repair of its refused one; those are the calls it costs |
| Deliberation.NoDriftMeetsItsCritic | tools/saipal_analyst/output.py:178-183 | a NO_DRIFT candidate of a high-signal or sampled unit stands exactly with its critic's word, agreeing or insufficient, else the finalizer's output does or nothing; of any other unit it stands and nobody is asked |
| Deliberation.DriftMeetsItsCritic | tools/saipal_analyst/output.py:173-177 | a DRIFT candidate stands exactly with its critic's agreement when the policy asks for it, else the finalizer's output does or nothing; any other verdict is never put to a critic |
| Deliberation.DecideIsGates | tools/saipal_analyst/deliberation.py:69-156 | the full run is those gates after the investigator's validated answer |
| Deliberation.PathTellsCalls | tools/saipal_analyst/deliberation.py:249-286 | the recorded steps show the calls: a critic step exactly when the critic was called, a finalizer's decision exactly when its output stands |
| Jobs.ResumeIsLegal | tools/saipal_analyst/jobs.py:565-585 | a waiting or reactivated job always resumes at a stage the table allows and from which something can be done |
| Jobs.ResumesAt | tools/saipal_analyst/jobs.py:565-585 | which artifacts prove which stage, each as an if-and-only-if; a blank reply proves nothing |
| Jobs.ActsOn | tools/saipal_analyst/jobs.py:587-625 | what each next action is taken on, each as an if-and-only-if; an attempt is ambiguous exactly when its identity is there and its reply is missing or blank |
| Jobs.EnteredFrom | tools/saipal_analyst/jobs.py:75-97 | the transition table read the other way: from where each stage is entered |
| Jobs.ClearedCallsAfresh | tools/saipal_analyst/requeue.py:269-284 | a requeued job is READY with no payload, its next action is a fresh call, and of what it was only the cumulative counters and a receipt are left |
| DriverShape.WellFormedRun | tools/saipal_analyst/worker.py:916-1307 | in every reachable state each stage holds the artifacts it needs, and memory differs from disk only between receipt and DONE |
| DriverShape.FramedDrive | tools/saipal_analyst/worker.py:1038-1215 | judging and staging send nothing, charge nothing and touch no paid text; they hand over to submit at most once |
| DriverTrace.TracedRun | tools/saipal_analyst/worker.py:1382-1398 | over every run a reply is kept under the identity made durable for it, critics and finalizers are asked only what some policy wants, and a repair quotes the reply that was refused |
| DriverRefinement.SlotAnswers | tools/saipal_analyst/worker.py:992-1036 | validating durable texts with the one durable repair computes the role's answer |
| DriverRefinement.RefinesStep | tools/saipal_analyst/worker.py:916-1292 | every step keeps each artifact equal to what the straight-line decision would have produced |
| DriverRefinement.DriverRefinesDecision | tools/saipal_analyst/worker.py:916-1292 | over every run with crashes, failures, blocks and requeues only the decided candidate is ever submitted, DONE means it was, and blocked on output means there is none |
| DriverGate.CriticGate | tools/saipal_analyst/worker.py:1099-1215 | with `critic_on_drift` on, every DRIFT candidate handed to submit is the validated finalizer output, or its own critic was asked about it and agreed |
| DriverGate.NoDriftGate | tools/saipal_analyst/output.py:178-183 | over every run whose policies send clean units of this kind to the critic, every NO_DRIFT candidate handed to submit is the validated finalizer output, or its own critic was asked about it and agreed or found nothing |
| DriverGate.NoCriticWithoutReason | tools/saipal_analyst/output.py:173-183 | over every run, when no policy asks for it, no critic call is ever made about a candidate of that verdict |
| DriverPayment.NoSilentRepayment | tools/saipal_analyst/worker.py:978-990 | once a role's reply is durable and not blank, or what it was wanted for is there, or the unit is settled or parked, no run without a requeue makes its first call again |
| DriverPayment.CrashParks | tools/saipal_analyst/worker.py:1382-1396 | a crash while a first call is marked or out, followed at once by a drive whose packet can be built, parks the unit without a transport |
| DriverPayment.ParkedStays | tools/saipal_analyst/worker.py:1043-1056 | a parked unit stays parked and sends nothing whatever happens, as long as packets can be built |
| DriverPayment.ParkedLeavesExactly | tools/saipal_analyst/worker.py:962-970 | a parked unit is left exactly by a drive whose packet cannot be built, and a requeue then calls afresh |
| DriverPayment.BudgetStopParks | tools/saipal_analyst/jobs.py:607-621 | a budget stop before a call parks the unit exactly when an identity is already on the slot |
| DriverPayment.KnownFailureLeavesIdentity | tools/saipal_analyst/jobs.py:530-544 | a run with nothing lost reaches a call with a stale identity on its slot |
| DriverPayment.BlankReplyIsBoughtAgain | tools/saipal_analyst/openai_compatible.py:167-178 | a run with nothing lost or requeued pays for the same first call twice after a blank reply |
| DriverReplay.HeldStays | tools/saipal_analyst/worker.py:1043-1056 | over every run a stranded or parked unit stays so and sends nothing, until a binding block or a failing packet |
| DriverReplay.HeldLeavesExactly | tools/saipal_analyst/worker.py:703-715 | at rest it is released exactly by a binding block before it is parked, or by a packet that cannot be built |
| DriverReplay.StrandedIsHeld | tools/saipal_analyst/jobs.py:607-621 | such a unit is parked, or at a calling stage with an identity and no usable reply |
| DriverReplay.LossStrandsExactly | tools/saipal_analyst/jobs.py:607-621 | losing a request strands the unit exactly when it is a first call, or the repair of a critic's or finalizer's blank reply |
| DriverReplay.LostRequestRepeatsExactly | tools/saipal_analyst/jobs.py:587-625 | over every run, without a binding block and a requeue, a lost request can be made again exactly when it is a repair of the investigator or of a reply that is not blank |
| DriverReplay.LostRepairGoesOutAgain | tools/saipal_analyst/worker.py:992-1036 | the next drive makes such a lost repair again under its identity |
| DriverReplay.LostFirstCallGoesOutAgain | tools/saipal_analyst/jobs.py:565-585 | a binding block before the next drive lets every lost first call be made again under its identity |
| DriverReplay.LostBlankRepairGoesOutAgain | tools/saipal_analyst/jobs.py:565-585 | behind a binding block the lost repair of a critic's or finalizer's blank reply is made again once the first call is blank again |
| DriverReplay.EveryLostRequestCanRepeat | tools/saipal_analyst/jobs.py:565-625 | over every run, with binding blocks allowed, every lost request can be made again without a requeue and under the same policy |
| DriverReplay.BoughtAgainExactly | tools/saipal_analyst/jobs.py:565-585 | for each role, over every run: its first call can be made again without a requeue exactly when its reply is missing or blank, its artifact absent and the unit neither settled nor parked |
| DriverReplay.BlankVerdictParks | tools/saipal_analyst/jobs.py:614-621 | a crash before a critic's or finalizer's kept reply is judged parks the unit exactly when the reply is blank |
| DriverReplay.BindingBlockRepeatsCall | tools/saipal_analyst/worker.py:703-715 | a run of ten events without a requeue sends one investigator request twice |
| DriverReplay.LostRepairRepeats | tools/saipal_analyst/worker.py:992-1036 | a run with no binding block, blank reply or requeue sends one repair request twice |
| DriverIdentity.IdentityRepeatsExactly | tools/saipal_analyst/jobs.py:530-544 | two transports of any run carry the same identity exactly when they ask the same role the same thing with no counted failure between; without a requeue the first was then lost or its reply blank |
| DriverIdentity.IdentitiesDistinct | tools/saipal_analyst/jobs.py:530-544 | with nothing lost, blank or requeued, no two transports of a run carry the same identity |
| DriverIdentity.BlankRepeatsIdentity | tools/saipal_analyst/jobs.py:565-585 | a run in which a blank reply is bought again under the same identity |
| DriverIdentity.RequeueRepeatsIdentity | tools/saipal_analyst/requeue.py:270-276 | a run whose requeued call goes out under the identity of the refused one |
| DriverSpend.SpendStep | tools/saipal_analyst/worker.py:1456-1484 | every step keeps the measure of transports made, slots open and retries left |
| DriverSpend.BoundedSpend | tools/saipal_analyst/worker.py:992-1036 | over every run at most 6(1+R) + retries transports, plus one per lost outcome and blank reply; every transport is charged once or is among the lost |
| DriverSettlement.LastProofSurvives | tools/saipal_analyst/worker.py:1255-1283 | through crashes between receipt, provenance, DONE and compaction, a DONE job is still the job submitted or its receipt has a record computed from it |
| DriverSettlement.RecordShowsDeliberation | tools/saipal_analyst/provenance.py:186-213 | over every run a record has the digests and counters of a job that was handed over with its candidate, and names exactly the roles that left something behind, in their order |
| DriverOutcome.OnlyRefusalsRaise | tools/saipal_analyst/worker.py:1228-1253 | under one policy a drive leaves the transition table exactly on a kernel refusal within the allowance, which writes nothing and is never counted |
| DriverOutcome.PolicyChangeRaises | tools/saipal_analyst/worker.py:1099-1107 | a drive resumed in the middle of a critic raises exactly when the policy no longer wants one |
| DriverOutcome.UndisturbedDriveDecides | tools/saipal_analyst/worker.py:1038-1292 | the undisturbed drive of a new job has settled after 73 steps, for good, exactly as the straight-line decision says |
| Worker.UnitDriver.DriveUnit | tools/saipal_analyst/worker.py:916-1307 | from any durable state a drive ends with an outcome that matches the journal, within the call budget; what it leaves when the binding is lost, the packet cannot be built, a retry is not due or an attempt is ambiguous; with a truthful transport it is what the decision says, and in a benign world with six calls to spare it is parked if found ambiguous and else settled as decided |
| Worker.UnitDriver.Drive | tools/saipal_analyst/worker.py:1038-1307 | the action loop ends, falls through in the order the next action prescribes, waits only after a call, and in a benign world parks, hands over or blocks on output; a drive that may not start leaves exactly its block |
| Worker.UnitDriver.Act | tools/saipal_analyst/worker.py:1038-1307 | from the loop head of any drive the same holds |
| Worker.UnitDriver.Proceed | tools/saipal_analyst/worker.py:1058-1292 | from any action that is neither to wait nor to park the drive runs through to the hand-over or a stop |
| Worker.UnitDriver.Begin | tools/saipal_analyst/worker.py:937-970 | the prologue stays blocked exactly when the binding is still lost, else reactivates, blocks exactly on a bad packet, or is on its way |
| Worker.UnitDriver.GuardedCall | tools/saipal_analyst/worker.py:1317-1453 | gates, then durable identity, then one transport with exactly one charge, or the drive stops: exactly what gate and wire say |
| Worker.UnitDriver.PassGates | tools/saipal_analyst/worker.py:1317-1381 | the gates are passed exactly with calls to spare and an open door; a closed one ends the drive and sends nothing |
| Worker.UnitDriver.Transport | tools/saipal_analyst/worker.py:1399-1453 | the request that leaves is the one marked, and its outcome is returned only once its charge is durable |
| Worker.UnitDriver.MarkAttempt | tools/saipal_analyst/worker.py:1382-1398 | the identity of the request is on disk before the transport, and nothing else of the job changes but its error |
| Worker.UnitDriver.KeepRaw | tools/saipal_analyst/worker.py:978-990 | the paid text is durable before it is parsed, together with the repair counter when it is a repair |
| Worker.UnitDriver.ValidateWithRepair | tools/saipal_analyst/worker.py:992-1036 | the verdict on the durable texts after at most one repair call; a transport failure spends no repair |
| Worker.UnitDriver.AskRepair | tools/saipal_analyst/worker.py:992-1036 | the one repair call and the verdict on its durable text |
| Worker.UnitDriver.TransportFailure | tools/saipal_analyst/worker.py:1456-1484 | waits exactly when the failure is retryable and the allowance is not used up, else blocks, never as an output failure |
| Worker.UnitDriver.Validate | tools/saipal_analyst/worker.py:1069-1097 | the investigator's text becomes the candidate, or the unit ends as the transport or its output says |
| Worker.UnitDriver.Critique | tools/saipal_analyst/worker.py:1099-1145 | the critic gate ends at submit or finalize, as the next action of the job says; which candidates pass it unasked is `SkipCritic`'s condition, and `DriverGate` says what that means for every run |
| Worker.UnitDriver.FinalizeUnit | tools/saipal_analyst/worker.py:1147-1211 | a disputed candidate goes to the finalizer when it is on, blocks when it is off, and an undisputed one stands |
| Worker.UnitDriver.SubmitUnit | tools/saipal_analyst/worker.py:1213-1292 | the outcome per kernel answer; DONE carries the candidate's receipt, its record and a tombstone when provenance was written |
| Worker.UnitDriver.AnswerKernel | tools/saipal_analyst/worker.py:1228-1253 | stale settles, a refusal beyond the allowance blocks, one within it raises and leaves the journal as it was |
| Worker.UnitDriver.Commit | tools/saipal_analyst/worker.py:1255-1283 | provenance, DONE and tombstone in that order |
| Worker.UnitDriver.Park | tools/saipal_analyst/worker.py:1043-1056 | an attempt of unknown outcome is parked without a transport |
| Worker.UnitDriver.Resume | tools/saipal_analyst/worker.py:1294-1300 | a due retry resumes at a drivable stage, durably |
| SliceLoop.EarliestRetry | tools/saipal_analyst/worker.py:898-908 | the least due time of the waiting jobs, or none when none waits |
| SliceLoop.Slice.Run | tools/saipal_analyst/worker.py:718-895 | the slice always ends; its states are one turn apart, each as the turn prescribes, until one ends it or the units are used up; units, calls and requested sleep are within budget, settled units are charged, sleeps are bounded, and the stop reason says what was achieved |
| SliceLoop.Slice.TakeTurn | tools/saipal_analyst/worker.py:747-868 | every turn settles a unit, spends a call or makes a retry due, or stops; the journal, the counters and the clocks after it are those the turn prescribes |
| SliceLoop.AsDriven | tools/saipal_analyst/worker.py:812-834 | a drive of a unit meets what the slice asks of one: it keeps within the calls left and waits only after a call |
| SliceLoop.Slice.DriveUnitTurn | tools/saipal_analyst/worker.py:747-868 | a turn that drives a real unit moves the slice on or stops it, and both count the same calls |
| SliceLoop.Slice.Await | tools/saipal_analyst/worker.py:759-771 | the slice sleeps exactly when some waiting job is due ahead of now, none is due earlier, and the wait is within the wall budget left; then for exactly the wait, which frees a waiting unit, and else it stops for the retry and changes nothing |
| SliceLoop.WaitTurnMeans | tools/saipal_analyst/worker.py:759-772 | the same against the earliest due time: whether the slice sleeps, where its clocks stand afterwards, and that nothing else moves |
| SliceLoop.TraceMeans | tools/saipal_analyst/worker.py:718-895 | the states of a slice, turn by turn: none but the last turn ends it, every turn is taken with units left, and the reason at the limit |
| SliceLoop.Slice.DriveAndBook | tools/saipal_analyst/worker.py:812-868 | the turn of a drive: the entry written, the counters moved, and whether the slice goes on, for every outcome and for a charge that fails |
| SliceLoop.SecondSleepExactly | tools/saipal_analyst/worker.py:759-771 | a second sleep in a row happens exactly when allocation blocked every retry that had come due and another is ahead |
| SliceLoop.TwoSleepsInARow | tools/saipal_analyst/worker.py:690-715 | a journal on which it does happen |
| Fairness.FairnessFile.SyncEligibility | tools/saipal_analyst/fairness.py:187-241 | the claims after a scan, and that something is written exactly when something changed |
| Fairness.FairnessFile.RecordService | tools/saipal_analyst/fairness.py:244-264 | a service retires the claim, counts it, and keeps the last 64 |
| Fairness.SyncSound | tools/saipal_analyst/fairness.py:187-241 | tickets stay distinct, below the next one, and absent without a claim |
| Fairness.ServicedSound | tools/saipal_analyst/fairness.py:244-264 | a service keeps the same invariant |
| Fairness.SyncPlaces | tools/saipal_analyst/fairness.py:193-210 | a session waiting with the same unit keeps its place, any other eligible one stands behind all, the rest hold no ticket |
| Fairness.ScanOrder | tools/saipal_analyst/fairness.py:193-206 | of two sessions ticketed anew in one scan the one scanned first gets the older ticket |
| Fairness.FairnessFile.ReconcileDoneClaims | tools/saipal_analyst/worker.py:641-687 | a claim is untied exactly when its session has a receipt and its record is missing or exhausted |
| Fairness.FairnessFile.ClaimsToRank | tools/saipal_analyst/worker.py:618-619 | the claims an allocation ranks by: synchronized, then reconciled |
| Fairness.PositiveExactlyEligible | tools/saipal_analyst/fairness.py:172-184 | after a scan a ticket is positive exactly for eligible sessions, but for an empty unit digest |
| Fairness.PositiveAtRanking | tools/saipal_analyst/worker.py:618-625 | at the ranking a ticket is positive exactly for eligible sessions that have no receipt, or an indexed record that is not exhausted |
| Fairness.AllocationRepeatsExactly | tools/saipal_analyst/worker.py:618-619 | a repeated allocation changes nothing exactly when no eligible session is closed in that sense |
| Fairness.AllocatedSound | tools/saipal_analyst/worker.py:618-619 | an allocation keeps tickets distinct, below the next one, and absent without a claim |
| Fairness.MigratedStartsEven | tools/saipal_analyst/fairness.py:60-80 | after a migration nobody inherits a place: sessions are ticketed in the order of the scan, whatever they were served before |
| Fairness.SyncIdempotent | tools/saipal_analyst/fairness.py:208-210 | a repeated scan changes nothing |
| Fairness.BoundedWaiting | tools/saipal_analyst/worker.py:618-639 | while a session stays eligible with its unit, not closed and not returned, the services to others are at most the older tickets, and so are the units returned but for those still in place after a drive that came to nothing |
| Fairness.ClosedIsPassed | tools/saipal_analyst/worker.py:676-683 | a closed session is never returned while an open one of the first band is there |
| Fairness.RecoveryUnitIsStarved | tools/saipal_analyst/worker.py:565-625 | a run that passes the recovery unit of an exhausted session at every allocation |
| Fairness.RefusalLoopHoldsTheQueue | tools/saipal_analyst/worker.py:1228-1253 | a run in which a refused unit is returned every time and nothing is served |
| Fairness.TelemetryIsExact | tools/saipal_analyst/fairness.py:153-159 | the lifetime count is exactly how often a session was served, and the sequence is the last 64 services |
| Budgets.LedgerFile.Window | tools/saipal_analyst/budgets.py:239-256 | only the current and the previous hour stay, and the current one exists |
| Budgets.LedgerFile.RecordConsumption | tools/saipal_analyst/budgets.py:276-305 | the charge, the mark and the freeze |
| Budgets.WindowsRemember | tools/saipal_analyst/budgets.py:239-256 | for any clock a window holds its hour's charges since it was last forgotten, and at most two are held |
| Budgets.RemembersAllExactly | tools/saipal_analyst/budgets.py:244-246 | that is the full history exactly when nothing had been charged to the hour whenever it was forgotten |
| Budgets.WindowsRefineHistory | tools/saipal_analyst/budgets.py:239-256 | under a clock that never steps back the current and previous windows are the full history |
| Budgets.RollbackForgets | tools/saipal_analyst/budgets.py:244-246 | a clock stepping back across an hour loses an attempt |
| Budgets.HourlyLimitHolds | tools/saipal_analyst/budgets.py:327-351 | no hour takes more attempts than its limit, even when calls are charged in a later hour than they were gated in, whatever units are charged in between |
| Budgets.UnitLimitHoldsExactly | tools/saipal_analyst/worker.py:843-850 | an hour keeps to its limit on units exactly when every unit charged in it found the room the gate asks of a call |
| Budgets.UnitLimitHoldsWhenCalled | tools/saipal_analyst/worker.py:836-850 | so it does when each unit is charged right after a call made for it |
| Budgets.UnitLimitIsPassed | tools/saipal_analyst/worker.py:843-850 | units that settle without a call are charged in any number within one hour, whatever the limits |
| Budgets.FreezeHolds | tools/saipal_analyst/budgets.py:288-300 | after a rollback beyond the skew no call is allowed until time passes the latest charge |
| Budgets.FreezeRecovers | tools/saipal_analyst/budgets.py:259-273 | past the latest charge the gate looks only at the room left, and the next charge clears the freeze |
| Budgets.FrozenExactly | tools/saipal_analyst/budgets.py:288-300 | over every history the budget is frozen exactly when some charge came more than five seconds behind one before it and none since came past every charge before that |
| Budgets.AllowedExactly | tools/saipal_analyst/budgets.py:327-351 | over every history a call is allowed exactly when no limit is set, or the freeze does not hold at this time and what the hour's window remembers leaves room under each limit |
| Budgets.TotalCounts | tools/saipal_analyst/worker.py:843-850 | an hour's total counts the calls charged in it and the units settled in it |
| Budgets.HourExactly | tools/saipal_analyst/budgets.py:239-256 | an hour is the 3600 seconds from its start on |
| Circuits.BackendCircuit.MayCall | tools/saipal_analyst/budgets.py:391-409 | CLOSED and HALF_OPEN allow every call; a timed OPEN allows exactly from its time on and is half open then; an untimed one allows exactly another configuration |
| Circuits.BackendCircuit.RecordFailure | tools/saipal_analyst/budgets.py:445-501 | the circuit after a failure of each class, field by field |
| Circuits.BackendCircuit.RecordSuccess | tools/saipal_analyst/budgets.py:412-430 | a success closes and clears the count, and keeps the length of the next trip |
| Circuits.CircuitTracks | tools/saipal_analyst/budgets.py:412-501 | over every signal sequence the circuit is determined by the streak of failures and the number of trips |
| Circuits.KthTripLasts | tools/saipal_analyst/budgets.py:480-489 | the k-th timed trip lasts min(300 * 2^(k-1), 1800) seconds |
| Circuits.TripsExactly | tools/saipal_analyst/budgets.py:480-489 | a retryable failure trips exactly from the fifth failure in a row on, so a failed probe reopens |
| Circuits.NoLongRefusal | tools/saipal_analyst/budgets.py:391-409 | no timed OPEN refuses later than 1800 seconds after it opened |
| Circuits.JobScopedStaysClosed | tools/saipal_analyst/budgets.py:433-442 | PERMANENT and LIMIT failures and successes never leave CLOSED |
| Circuits.AuthLatches | tools/saipal_analyst/budgets.py:396-403 | after an AUTH failure, with nothing but probes and the job's own failures since, a call is allowed at any time exactly under another configuration |
| Circuits.JobScopedStillCounts | tools/saipal_analyst/budgets.py:466-467 | four failures of the job's own leave the circuit one retryable failure from opening |
| Circuits.RefusedExactly | tools/saipal_analyst/budgets.py:391-409 | over every signal sequence a call is refused exactly when some failure opened the circuit, nothing since ended that or opened it anew, and it was AUTH under this configuration or a timed trip whose time is not over |
| Circuits.TimedTripRefusesExactly | tools/saipal_analyst/budgets.py:400-405 | after the k-th timed trip, with nothing but the job's own failures and early probes since, every call is refused for exactly min(300 * 2^(k-1), 1800) seconds |
| SourceCircuits.SourceBoard.RecordFailure | tools/saipal_analyst/budgets.py:560-620 | the circuit of the source after a failure, field by field, every other source's as it was |
| SourceCircuits.SourceBoard.MayDispatch | tools/saipal_analyst/budgets.py:645-696 | a source may dispatch exactly when it is not open, or is open under another configuration, or its time is up or its path back; a refusal changes nothing, an admitted probe half-opens |
| SourceCircuits.SourceBoard.RecordSuccess | tools/saipal_analyst/budgets.py:623-638 | a success closes a known source, keeps the length of its next trip, and does nothing for an unknown one |
| SourceCircuits.SourceTracks | tools/saipal_analyst/budgets.py:560-638 | over every sequence of reports the failure count is the streak since the last success or new configuration, and the next trip's length follows the trips so far |
| SourceCircuits.KthSourceTripLasts | tools/saipal_analyst/budgets.py:609-617 | the k-th timed trip of a source lasts min(300 * 2^(k-1), 1800) seconds over its whole life |
| SourceCircuits.NewConfigurationIsAdmitted | tools/saipal_analyst/budgets.py:587-594 | a changed configuration is admitted at once and starts with nothing counted against it |
| SourceCircuits.DeadConfigurationStaysOpen | tools/saipal_analyst/budgets.py:676-692 | a source whose path is gone is refused at every later time without any change, and half opens when the path is back |
| SourceCircuits.SourceTripsExactly | tools/saipal_analyst/budgets.py:605-617 | a transient failure opens a source that is not timed for a time exactly when it is at least the fifth since the last success or new configuration |
| SourceCircuits.FailedProbe | tools/saipal_analyst/budgets.py:587-617 | for every half-open source: a transient failure reopens it exactly when it is at least the fifth of its streak, else leaves it half open, or closed under a new configuration |
| SourceCircuits.HalfOpenHasFiveExactly | tools/saipal_analyst/budgets.py:560-717 | over every sequence of reports, an open or half-open source has five failures behind it exactly when its last opening was a timed trip, or a configuration failure that was at least the fifth of its streak |
| SourceCircuits.HalfOpenWithoutStreak | tools/saipal_analyst/budgets.py:676-692 | a run that is half open after one failure, and after a failed probe |
| SourceCircuits.RefusedExactly | tools/saipal_analyst/budgets.py:645-696 | over every sequence of reports a source is refused exactly when a failure opened it, nothing since ended that or opened it anew, the question is under the pinned configuration, and the path is still gone or the k-th trip's min(300 * 2^(k-1), 1800) seconds are not over |
| SourceCircuits.AskedExactly | tools/saipal_analyst/budgets.py:645-717 | an ask changes a source exactly when it is admitted under the pinned configuration while open, and then half-opens it |
| SourceCircuits.TimedTripRefusesExactly | tools/saipal_analyst/budgets.py:693-696 | after the k-th timed trip an ask under the pinned configuration is refused and changes nothing for exactly that long, and from then on is admitted and finds it half open |
| LedgerTxn.Linearizable | tools/saipal_analyst/budgets.py:148-189 | for any writers and interleaving the ledger is the fold of the committed mutations in fence order |
| LedgerTxn.OnlySavesCommit | tools/saipal_analyst/budgets.py:173-189 | a commit is exactly a save on the ledger as it then stands; nothing else touches it |
| LedgerTxn.GivesUpAfterFifty | tools/saipal_analyst/budgets.py:172-189 | a writer gives up exactly after fifty refusals |
| LedgerTxn.StartsExactly | tools/saipal_analyst/budgets.py:504-527 | a probe waits for the fence exactly when the unlocked read finds a due OPEN, and a busy writer starts nothing |
| LedgerTxn.LedgerHome.MutateLedger | tools/saipal_analyst/budgets.py:148-189 | the transaction commits at the first free attempt of fifty, on top of what others committed, or not at all |
| LedgerTxn.WindowsAreTheirOwn | tools/saipal_analyst/budgets.py:276-305 | windows, mark and freeze are those of the charges alone |
| LedgerTxn.BackendIsItsOwn | tools/saipal_analyst/budgets.py:412-527 | the backend circuit is that of the backend signals alone |
| LedgerTxn.SourcesAreTheirOwn | tools/saipal_analyst/budgets.py:560-717 | a source's circuit depends only on what concerns that source |
| LedgerTxn.SourceIsItsOwn | tools/saipal_analyst/budgets.py:560-717 | and is that of the reports about it, so what holds of a source for every sequence of reports holds under every interleaving |
| LedgerTxn.NoLostCharge | tools/saipal_analyst/budgets.py:148-189 | no interleaving loses a committed charge |
| LedgerTxn.ProbeRechecks | tools/saipal_analyst/budgets.py:504-527 | a saved probe half-opens exactly a due OPEN; a circuit another writer closed stays closed |
| LedgerTxn.DemoteRechecks | tools/saipal_analyst/budgets.py:699-717 | a saved demotion half-opens exactly an OPEN of the same configuration, whatever its time |
| LedgerTxn.HalfOpenHasStreak | tools/saipal_analyst/budgets.py:504-527 | HALF_OPEN implies five failures in a row, under any interleaving |
| Requeue.ApplyIsDriverStep | tools/saipal_analyst/requeue.py:233-284 | a requeue does to the job what the driver's Requeue step does to its disk |
| Requeue.Journal.Plan | tools/saipal_analyst/requeue.py:294-377 | the report, and a unit changed exactly when the run applies, the unit is owed a requeue, and fewer than `limit` owed units stand before it |
| Requeue.OwedExactly | tools/saipal_analyst/requeue.py:204-345 | a unit is owed one exactly when it is blocked for a class asked for, or any, its session indexed, or no index given, and it is forced, or has allowance left and new material |
| Requeue.ReportExactly | tools/saipal_analyst/requeue.py:294-377 | the first owed units up to the limit are listed as requeued with their counters, the other owed ones remain, and every other unit is refused or passed over for its own reason |
| Requeue.LeftExactly | tools/saipal_analyst/requeue.py:204-345 | which reason that is, for every unit that is not owed a requeue |
| Requeue.ChangedExactly | tools/saipal_analyst/requeue.py:294-377 | the same of the specification: changed exactly when owed and within the limit |
| Requeue.RequeueIsRecorded | tools/saipal_analyst/requeue.py:233-284 | a requeue adds one entry for the refusal it clears and keeps the seven before it |
| Requeue.PlansAgree | tools/saipal_analyst/requeue.py:294-377 | the dry run lists the same requeued, refused, not-applicable and remaining jobs as the real run |
| Requeue.SpentDiffers | tools/saipal_analyst/requeue.py:351-376 | their spent counters differ by the requeue just made, up to the history bound |
| Requeue.PlanConserves | tools/saipal_analyst/requeue.py:308-377 | scanned is the sum of the four, and the limit is kept |
| Requeue.ChangedAreReported | tools/saipal_analyst/requeue.py:361-376 | a real run reports exactly the units it changed, in order |
| Requeue.AllowanceBinds | tools/saipal_analyst/requeue.py:218-223 | an allowance of at most eight bounds the unforced requeues of a unit's whole life |
| Requeue.LargerAllowanceNeverBinds | tools/saipal_analyst/requeue.py:269 | a larger one admits any number of them |
| Requeue.MaterialAlwaysMoves | tools/saipal_analyst/requeue.py:224-229 | an unforced requeue never repeats the material recorded before it |
| ClosedLoop.LinkFile.LinkFindingAudit | tools/saipal_engine/closedloop.py:63-115 | repeating a link writes nothing, another identity for a bound audit is refused, a new one is appended |
| ClosedLoop.LinkFile.ImportMaintainerDisposition | tools/saipal_engine/closedloop.py:118-199 | a verdict revises the link of its audit, field by field, or is refused for an unlisted disposition or an unlinked audit and changes nothing |
| ClosedLoop.LinkFile.ImportDispositionFile | tools/saipal_engine/closedloop.py:202-306 | a file is imported as a whole or changes nothing; it is accepted exactly when every row is listed and linked and any two rows of one audit agree |
| ClosedLoop.Validate | tools/saipal_engine/closedloop.py:222-262 | the error of the first bad row, or the entry each row decides |
| ClosedLoop.Revise | tools/saipal_engine/closedloop.py:167-197 | disposition and fix version are the verdict's, receipt and work id carry forward, the superseded verdict is appended, and a repeated one leaves the link alone |
| ClosedLoop.AcceptedIsFold | tools/saipal_engine/closedloop.py:264-306 | an accepted file imports row by row without error |
| ClosedLoop.AcceptedExactly | tools/saipal_engine/closedloop.py:231-262 | a file has no error exactly when every row has a listed disposition for a linked audit and any two rows of one audit agree in disposition, receipt and work id, and in the fix version wherever the later one gives it |
| ClosedLoop.RefusedWith | tools/saipal_engine/closedloop.py:231-262 | otherwise the error is that of the first bad row, and the first thing wrong with it |
| ClosedLoop.RefusedOnlyForContradiction | tools/saipal_engine/closedloop.py:244-250 | rows that import one at a time are refused as a file exactly when one contradicts the last row of its audit before it, and for nothing else |
| ClosedLoop.DecidesOnceExactly | tools/saipal_engine/closedloop.py:202-306 | an accepted file imports as the first row of each audit alone would, exactly when no row leaves open a fix that the last row of its audit gave |
| ClosedLoop.DecidedByLast | tools/saipal_engine/closedloop.py:264-306 | after an accepted file each link stands as its last row decided it |
| ClosedLoop.DroppedFixIsARevision | tools/saipal_engine/closedloop.py:245 | a file that is accepted and decides its audit twice |
| ClosedLoop.TrailReplaysLog | tools/saipal_engine/closedloop.py:63-306 | after any operations audit numbers are unique and each trail is the audit's import log, carried forward, without consecutive duplicates |
| ClosedLoop.CurrentMeans | tools/saipal_engine/closedloop.py:165-197 | after any operations a link's disposition and fix version are those of its last accepted import, its receipt and work id the last that any import gave |
| ClosedLoop.TrailsMove | tools/saipal_engine/closedloop.py:171-190 | no decision of a trail repeats the one before it |
| ClosedLoop.TrailsOnlyGrow | tools/saipal_engine/closedloop.py:176-190 | no operation takes a decision back |
| ClosedLoop.RefusalChangesNothing | tools/saipal_engine/closedloop.py:202-306 | a refused file changes nothing, an accepted one is the fold of single imports |
| Events.ValidateSeqs | tools/saipal_engine/bundle.py:155-190 | the validator accepts exactly strictly increasing natural numbers |
| Events.SliceIsScan | tools/saipal_engine/detectors.py:117-127 | on ordered events a span by bisection is the inclusive filter |
| Events.SliceIsScanExactly | tools/saipal_engine/detectors.py:94-107 | bisection answers every query as the filter does exactly when the events are in order |
| Events.EventIndex.Span | tools/saipal_engine/detectors.py:117-127 | whatever was asked before, the memo answers as the filter does |
| Events.EventIndex.First | tools/saipal_engine/detectors.py:129-139 | the first match after a sequence number |
| Events.FirstAfterFinds | tools/saipal_engine/detectors.py:129-139 | a match is found exactly when one exists, and it is the first |
| Events.DetectActiveWorkPreemption | tools/saipal_engine/detectors.py:310-368 | the two loops find the first open work switch of the span |
| Events.PreemptionMeans | tools/saipal_engine/detectors.py:326-356 | such a finding is a switch with nothing terminal after it in the whole bundle and something after it in the span, and no switch before it is like that |
| Events.NoPreemptionMeans | tools/saipal_engine/detectors.py:343-368 | without a finding every switch has a terminal event after it or ends its span |
| Events.SwitchMeans | tools/saipal_engine/detectors.py:326-338 | a switch is a snapshot that shows work where the last one before it that showed any showed other work |
| Events.FalseGreenMeans | tools/saipal_engine/detectors.py:430-465 | a finding exactly when the last source event of a non-terminal span has nothing closing after it; it names that event |
| Events.DetectSourceClosure | tools/saipal_engine/detectors.py:420-465 | the last source event of the span with nothing closing after it |
| Events.Detect | tools/saipal_engine/detectors.py:142-144 | any detector that asks the index for spans and first matches answers as it would over plain scans |
| Events.DetectAll | tools/saipal_engine/detectors.py:468-492 | the findings of all detectors, in the registry's order |
| Events.SharedAgreesWithFresh | tools/saipal_engine/detectors.py:468-492 | any detectors on a shared index, whatever it was asked before, find what they find each on a fresh one |
| Events.OfSpanJudges | tools/saipal_engine/detectors.py:147-154 | a detector that looks only at its span answers what it says of the filtered span |
| Events.ClosureAnswers | tools/saipal_engine/detectors.py:420-465 | the source closure detector is such a detector |
| Events.PreemptionAnswers | tools/saipal_engine/detectors.py:310-368 | so is the work preemption detector, which asks about each switch in turn |
| Carrier.SlicesPartition | tools/saipal_engine/carrier.py:293-327 | the windows of all indices concatenate to exactly the span |
| Carrier.PageBounds | tools/saipal_engine/carrier.py:293-327 | a page keeps to the limit, and is truncated exactly when it is not final |
| Carrier.PageIdentity | tools/saipal_engine/carrier.py:305-327 | what a page says of itself: how many slices the span needs, which this is, any index read as one of them, where the window stands, and the numbers it starts and ends with |
| Carrier.EpisodeSlicesExactly | tools/saipal_engine/carrier.py:191-204 | an episode counts as many slices as its recorded number of events needs, or else the width of its span; one at least |
| Carrier.FallbackCovers | tools/saipal_engine/carrier.py:191-204 | the width fallback is never below the real slice count |
| Carrier.OffersAllExactly | tools/saipal_engine/carrier.py:293-327 | every event is offered exactly when the cursor walks at least the real number of slices |
| Carrier.FallbackHidesNothing | tools/saipal_engine/carrier.py:191-204 | with the fallback, every event of an accepted bundle's episode is in the carrier's page of some slice it counts |
| Carrier.FreshestRecords | tools/saipal_engine/carrier.py:173-188 | one record per session, the first of its newest generation, in the order the sessions are first met |
| Carrier.SessionsInOrder | tools/saipal_engine/carrier.py:183-188 | of two sessions the one listed first is met first |
| BundleCache.Cache.Probe | tools/saipal_engine/bundle.py:348-363 | a hit agrees on path, stat, digest and policy, and becomes the most recent |
| BundleCache.Cache.Put | tools/saipal_engine/bundle.py:366-375 | at most four entries; an entry of a path already held keeps its place, otherwise the oldest goes first |
| BundleCache.Cache.LoadVerified | tools/saipal_engine/bundle.py:406-439 | only a bundle with the expected digest, validated under this policy, is returned; with one-file observations it equals a fresh load |
| BundleCache.Cache.LoadFile | tools/saipal_engine/bundle.py:378-403 | without an expected digest always a full parse; with one-file observations a hit equals it |
| BundleCache.ReplacedBetweenStatAndRead | tools/saipal_engine/bundle.py:423-439 | a replacement between stat and read makes a hit differ from a fresh load, though not in digest |
| Coverage.SessionCoverage | tools/saipal_engine/coverage.py:57-119 | episodes and slices are conserved without the clamps acting, and truly exhausted means every episode has a slice and every slice of it a final receipt |
| Coverage.CompleteExactly | tools/saipal_engine/coverage.py:84-98 | counting covered slices to the expected number means every slice is covered |
| Coverage.CountedSlices | tools/saipal_engine/coverage.py:84-98 | the slices counted final and provisional are those with a final receipt, and those with receipts but no final one |
| Coverage.CountsMean | tools/saipal_engine/coverage.py:79-102 | the counts are the numbers of complete and of unfinished episodes |
| Coverage.SlicesCounted | tools/saipal_engine/coverage.py:79-102 | the slice counts are the sums over the episodes of their slices, those with a final receipt, and those with receipts of which none is final |
| Coverage.FinalReceiptMeans | tools/saipal_engine/coverage.py:49-54 | which receipts are final for a slice; one that names none, or one below zero, is for slice 0 |
| Coverage.FinalOnlyGrows | tools/saipal_engine/coverage.py:57-119 | adding receipts never lowers a final count |
| Coverage.ReceiptsBySession | tools/saipal_engine/coverage.py:32-46 | grouping loses no receipt and moves none |
| Coverage.ForMeans | tools/saipal_engine/coverage.py:32-46 | the receipts of a unit are those of its lines |
| Coverage.Report | tools/saipal_engine/coverage.py:122-162 | one row for the freshest record of each session, true to the ledger; a session is listed as claiming more than its receipts exactly when its freshest record claims exhaustion and some slice of some episode lacks a final receipt, or it has no episodes |
| Coverage.AllJudgedMeans | tools/saipal_engine/coverage.py:122-162 | the ledger covers a session exactly when it has episodes and some line is a final receipt for each slice of each |
| Coverage.TotalsSum | tools/saipal_engine/coverage.py:148-162 | each total is the sum of its column |
| Coverage.TotalsConserve | tools/saipal_engine/coverage.py:148-162 | the totals conserve as the rows do, and count every session exhausted exactly when every row says so |
| Provenance.AnalystHome.Reconcile | tools/saipal_analyst/provenance.py:153-183 | no record is rewritten, no link stays missing, a second pass does nothing, and new records come from jobs that hold their payload |
| Provenance.AnalystHome.CompactDoneJobs | tools/saipal_analyst/jobs.py:198-219 | exactly the settled DONE jobs become tombstones; against real receipts the journal keeps every last proof it had, without them exactly when no record was missing |
| Provenance.AnalystHome.Prologue | tools/saipal_analyst/worker.py:247-282 | reconcile then compact keeps the last proof of every job, and compacts nothing when the ledger fails |
| Provenance.CompactionKeepsProofExactly | tools/saipal_analyst/jobs.py:169-177 | compacting a journal keeps the last proof of every job exactly when each settled one has its record, or holds its payload and is not compacted |
| Provenance.CompactionShortensPath | tools/saipal_analyst/provenance.py:206-213 | the path computed after compaction is the full one exactly when no critic spoke and a finalizer reply has its digest |

## Left out

- DriverRefinement.DriverRefinesDecision: one policy that names its finalizer switch, and one deterministic model, for the whole run; a policy that changes between drives has no single straight-line decision to agree with.
- DriverOutcome.OnlyRefusalsRaise: one policy for the whole run; `PolicyChangeRaises` says what happens when it changes in the middle of a critic.
- Fairness.BoundedWaiting: for FINAL units, the first band; PROVISIONAL units wait behind every FINAL one by design. A session that is closed, or whose own unit is the one returned, is not waiting in its sense.
- DriverReplay.LostFirstCallGoesOutAgain: which units the allocator finds unbound is an input; that it finds this one so between two drives is the run's own event.
- SliceLoop.Slice.Run: which unit the allocator picks, and that the wall clock does not step back during a slice, are taken as given; the allocator's classification of sessions is not modelled.
- BundleCache.Cache.LoadVerified: that equal stat tuples mean equal bytes is a condition of the equality with a fresh load, not of the digest guarantee.
- The REMOTE_OUTCOME_POSSIBLE annotation and the list of ambiguous attempt ids: written for the operator and read by no decision; the model clears the error class when an attempt is marked, as memory does.
- The due check of `next_action` uses the wall clock rather than the injected one; the model takes its answer as an input of each step.
- Retry backoff delays, timeouts, response size caps and usage totals in summaries.
- The submit kernel, the writer fence, the home lock and the session index: not part of this model. Submit is taken to be idempotent on a candidate, so a receipt is known by its candidate.
- Save failures of the journal itself: a drive that cannot write ends as a crash does.
- The `attempts` counter of a job and the candidate digest, the reason and the stage in a requeue's history entry: read by no decision.
- Timestamps in histories, ledgers and provenance records.
- What `detect_command_route`, `detect_phase_illegality` and `detect_false_continue_idle` look for in their span: they are detectors of `Events.OfSpan` with an arbitrary judgement.
- Coverage.Report: receipt counts and cursor positions per row, which are copied through; an episode's slice count is an input of the row.
- `next_unit`, `find_unit`, the tail watermark and cursor updates: ordering and selection beyond what paging and fairness need.
- Files on disk as bytes: JSON, canonical encoding, schema checks and path handling are the arbitrary parser of `BundleCache` and the values everywhere else.
- `supervisor`, `authority`, the command line, the renderers and the other configuration modules.
