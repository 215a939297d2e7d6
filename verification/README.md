# Verified model of the experiment's protocols and evidence pipeline

The repository runs a robot-policy experiment whose results are only worth something if its
long, crash-prone jobs leave evidence that can be trusted afterwards. This project models the
parts where that trust is earned, and proves what they promise.

The core is the protocol that stops a running serial scorer at a clean log boundary and hands
the rest of the manifest to two workers
(`ops/calibration_two_worker_continuation_18d6494.py`). It is modelled in five pieces:

- `SignalProtocol`: any number of coordinators, in any of the three modes, dying and
  restarting anywhere; who may send SIGINT and SIGTERM.
- `CutoverBoundary`: the scorer's publish-then-log steps interleaved with coordinators that
  sample, wait, and compare; what a frozen inventory is.
- `EpisodePublication`, `WorkerProtocol`, `ContinuationWorker`: private staging, prepared
  receipt, no-replace rename, promotion receipt; as one durable step relation, as a transition
  system of two crashing workers, and as the loop a worker runs between two crashes.
- `PlanReceipt`: the shards, the modes, the costs and the execution receipt.
- `LogScanner`: the byte scanner over a growing log and the later check of what it found.

Around it stand the causal-evidence pipeline (`PairEligibility`, `PairSelection`, `PairPlan`,
`RandomControls`, `CausalReceipt`, `DoseReceipt`), the evaluator's AUROC sweep (`Auroc`), the
pair inventory (`PairInventory`), content-addressed publication by concurrent processes
(`ContentPublication`), the framed provenance stream (`Provenance`), the activation reference
(`ActivationReference`) and the metadata audit (`MetadataDiff`). `Sequences`, `Sorting`,
`Numbers`, `EvidenceStats` and `Wrappers` are shared.

State machines are values with a step function, an inductive invariant and theorems over all
runs. Code that works by changing things in place is a method or a class proved against a
specification that is stated without it.

Six promises turn out not to hold of the code as it is. Each has a lemma or a method that
says exactly when it does, and the ones that fail along a run have a lemma with such a run:

- a worker that dies between its rename and its last unlock or prune leaves a directory that
  the run's final staging check rejects forever (`WorkerProtocol.StagingAcceptedExactly`,
  `PlanReceipt.RunClosesExactly`; the runs `WorkerProtocol.StuckRun`,
  `PlanReceipt.UnclosedRun`);
- two looks at the log size do not stop a baseline from being sampled between a publication
  and its log line, and such a baseline is refused (`CutoverBoundary.RefusesLineExactly`; the
  run `CutoverBoundary.RefusingRun`);
- a crash inside the write of a random-control chunk leaves a file that every later run turns
  down, so a resumed run finishes if and only if no crash struck there
  (`RandomControls.Progress.Resume`);
- the evaluator refuses rows and summaries inside a tolerance of 1e-12 that the producer grants
  (`CausalReceipt.AcceptedExactly`; the rows `CausalReceipt.ToleratedThenRefused`);
- a publisher that dies between taking the lock and renaming blocks its digest for good
  (`ContentPublication.CanReturnExactly`; the run `ContentPublication.OrphaningRun`);
- the audit's second metadata comparison can fail after the first passed, on the sign of a
  zero or on an infinite number (`MetadataDiff.AuditMetadata`; the sidecars
  `MetadataDiff.SecondComparisonCanFail` and `MetadataDiff.InfinityCanRaise`).

One rule (`AMENDMENTS.md:517`) is kept by checks far from the place they protect: this program
never credits an exit to SIGINT once SIGTERM was delivered, because recovery accepts only a root
of the program before the amendment and `resume` only a root of this one
(`SignalProtocol.NoFalseAttribution`). What remains possible is a coordinator of the earlier
program that is still waiting (`SignalProtocol.CreditExactly`).

## Model

| member | source | states |
|---|---|---|
| `SignalProtocol.InvRun` | ops/calibration_two_worker_continuation_18d6494.py:972-1503 | The invariant over receipts, delivered signals and coordinator positions holds in every state of every run of interleaved, crashing, restarting coordinators. |
| `SignalProtocol.EachSignalAtMostOnce` | ops/calibration_two_worker_continuation_18d6494.py:1043-1093 | In every run SIGINT is sent at most once and SIGTERM at most once: no two steps of a run both send the same signal. |
| `SignalProtocol.SentByWriter` | ops/calibration_two_worker_continuation_18d6494.py:1043-1093 | Every signal of a run goes to a live scorer, in a step of the coordinator that wrote the intent, while there is no dispatch receipt. |
| `SignalProtocol.SigintGetsThrough` | ops/calibration_two_worker_continuation_18d6494.py:972-1093 | From every reachable state, a coordinator that looks at the attempts of a live scorer and finds none delivers SIGINT exactly once, leaves its intent and the dispatch receipt, and once the scorer is gone writes the receipt that credits SIGINT. |
| `SignalProtocol.CutoverGetsThrough` | ops/calibration_two_worker_continuation_18d6494.py:2674-2793 | From every reachable state without an execution root, an undisturbed cutover records the log size it began at and the next line as its boundary, delivers SIGINT once, and credits the exit. |
| `SignalProtocol.CutoverBeginsExactly` | ops/calibration_two_worker_continuation_18d6494.py:2674-2694 | A cutover begins if and only if the scorer lives and there is no execution root; a refused one changes nothing. |
| `SignalProtocol.DispatchMeansOneDelivery` | ops/calibration_two_worker_continuation_18d6494.py:972-1042 | A dispatched receipt, for either signal, implies exactly one delivery: at an earlier step of the run, or, for SIGINT in a root that the earlier program left, before the run. |
| `SignalProtocol.IneffectiveAfterDelivery` | ops/calibration_two_worker_continuation_18d6494.py:1176-1238 | When the receipt that declares SIGINT ineffective exists, SIGINT had been delivered when the log was no longer than the receipt records. |
| `SignalProtocol.ResumeExactly` | ops/calibration_two_worker_continuation_18d6494.py:3535-3608 | From every reachable state with a live scorer, an undisturbed resume delivers SIGINT if and only if the root is this program's and holds neither intent nor dispatch receipt, by the boundary on record or else one new line; after a dispatched SIGINT it awaits the exit, otherwise it stops and no receipt of the attempt changes. |
| `SignalProtocol.ResumeStoppedExactly` | ops/calibration_two_worker_continuation_18d6494.py:3443-3490 | From every reachable state with the scorer gone, a resume credits the exit to SIGINT if and only if the root is this program's and holds the dispatch receipt; otherwise the world is unchanged. |
| `SignalProtocol.ResumedBoundaryFresh` | ops/calibration_two_worker_continuation_18d6494.py:3569-3607 | In every run, the boundary a resume records is a line that lies between the log size when that resume began and the present one, of a live scorer. |
| `SignalProtocol.RecoverExactly` | ops/calibration_two_worker_continuation_18d6494.py:1096-1403 | From every reachable state with a live scorer, an undisturbed recovery delivers SIGTERM if and only if the original attempt is as the amendment describes it, the scorer ignores SIGINT and no SIGTERM intent is on record; it takes up the receipts an earlier recovery left. |
| `SignalProtocol.RecoverStoppedExactly` | ops/calibration_two_worker_continuation_18d6494.py:1406-1503 | From every reachable state with the scorer gone, a recovery writes the SIGTERM exit receipt if and only if the dispatch receipt is there and the original attempt is still as described; otherwise the world is unchanged. |
| `SignalProtocol.AwaitingExactly` | ops/calibration_two_worker_continuation_18d6494.py:889-931 | A coordinator awaiting the exit changes nothing while the scorer lives, and then writes the receipt of its own signal and no other. |
| `SignalProtocol.ScansExactly` | ops/calibration_two_worker_continuation_18d6494.py:766-800 | A line makes a difference exactly to a coordinator of a live scorer that listens from the line's start or earlier, and to nobody else; it records the line and looks at the signal attempts, or stops when its boundary receipt is already there. |
| `SignalProtocol.StandsStillExactly` | ops/calibration_two_worker_continuation_18d6494.py:972-1403 | A step leaves a coordinator where it is, with nothing changed, if and only if it waits for a line or for the exit of a live scorer, or is through with signalling; everywhere else it goes on or stops. |
| `SignalProtocol.TermOnlyAfterFreshBoundary` | ops/calibration_two_worker_continuation_18d6494.py:1294-1403 | SIGTERM is sent only to a live scorer that ignores SIGINT, in a root of the earlier program, after a dispatched SIGINT, its ineffective receipt, a recovery intent and a recovery boundary logged after the SIGINT. |
| `SignalProtocol.AmbiguousIntentBlocks` | ops/calibration_two_worker_continuation_18d6494.py:1096-1173 | An intent whose writer died before the dispatch receipt stays ambiguous: for SIGINT no signal of either kind is ever sent again, for SIGTERM no second SIGTERM. |
| `SignalProtocol.OnlyEarlierCoordinators` | ops/calibration_two_worker_continuation_18d6494.py:1096-1121 | In a root of the earlier program, whoever stands in the SIGINT attempt is a coordinator of that program, there since the run began and never down since. |
| `SignalProtocol.NoFalseAttribution` | ops/calibration_two_worker_continuation_18d6494.py:3443-3453 | In every run, the receipt that credits SIGINT is never written after a delivered SIGTERM by a coordinator of this program; only one of the earlier program, running since before the run and never down, could. |
| `SignalProtocol.NeverCreditedAfterSigterm` | AMENDMENTS.md:510-518 | If no coordinator of the earlier program was left at the start, the receipt that credits SIGINT never appears after a delivered SIGTERM. |
| `SignalProtocol.CreditExactly` | ops/calibration_two_worker_continuation_18d6494.py:972-1038 | After SIGTERM and before that receipt, some continuation writes it if and only if a coordinator awaits the exit of the SIGINT attempt or is one look away from it. |
| `SignalProtocol.CutoverRun` | ops/calibration_two_worker_continuation_18d6494.py:2674-2793 | A concrete cutover that goes through, from nothing to the receipt that credits SIGINT. |
| `SignalProtocol.RecoveryRun` | ops/calibration_two_worker_continuation_18d6494.py:1294-1403 | A concrete recovery that goes through, from the root the amendment describes to the dispatched SIGTERM. |
| `CutoverBoundary.InvRun` | ops/calibration_two_worker_continuation_18d6494.py:819-886 | Every sampled baseline, boundary receipt and waiting coordinator stays consistent with the score root and the log under every interleaving and crash. |
| `CutoverBoundary.AcceptedIsExact` | ops/calibration_two_worker_continuation_18d6494.py:2690-2742 | When the checks accept, the scorer is gone for good, the frozen inventory is what the score root holds from then on, it is exactly one manifest episode longer than the baseline, that episode has the logged hash, the line carries its count and the manifest's size, and the baseline was not sampled between a publication and its log line. |
| `CutoverBoundary.RefusesLineExactly` | ops/calibration_two_worker_continuation_18d6494.py:840-866 | A waiting coordinator turns the first logged line down if and only if its baseline holds one episode more than were published before the start or logged up to its offset, which is to say it was sampled between a publication and its log line; otherwise it records the boundary and goes on to stop the scorer. |
| `CutoverBoundary.RefusingRun` | ops/calibration_two_worker_continuation_18d6494.py:819-866 | A concrete run of an orderly scorer and one coordinator in which that happens. |
| `CutoverBoundary.AcceptsExactly` | ops/calibration_two_worker_continuation_18d6494.py:868-886 | The comparison after the exit accepts if and only if nothing was left locked or staged and exactly one episode past the baseline is published. |
| `CutoverBoundary.StopsExactly` | ops/calibration_two_worker_continuation_18d6494.py:2690-2742 | From every reachable state of an orderly scorer that is dead, a coordinator that goes by a boundary ends, two turns later, in acceptance of what is published if and only if no residue is left and exactly one episode past the baseline is published, and otherwise in refusal. |
| `CutoverBoundary.AcceptingRun` | ops/calibration_two_worker_continuation_18d6494.py:2690-2742 | A concrete cutover from the empty root to the accepted boundary and the frozen inventory. |
| `CutoverBoundary.SamplesExactly` | ops/calibration_two_worker_continuation_18d6494.py:819-837 | From every reachable state, an undisturbed coordinator of a live scorer obtains what is published, bound to the log as it stands, if and only if nothing is locked or staged. |
| `CutoverBoundary.SampleRetried` | ops/calibration_two_worker_continuation_18d6494.py:819-837 | A sample that the log outran is thrown away and taken again while the scorer lives. |
| `CutoverBoundary.NothingFromTheDead` | ops/calibration_two_worker_continuation_18d6494.py:766-837 | A coordinator without a boundary on record gets none from a scorer that is gone. |
| `CutoverBoundary.RestartLosesNothing` | ops/calibration_two_worker_continuation_18d6494.py:3535-3608 | A coordinator that dies while it waits for the exit is back exactly where it was when it resumes from the boundary on record. |
| `CutoverBoundary.ScorerAdvances` | ops/calibration_score_18d6494.py:270-340 | The scorer skips an episode that is published and otherwise publishes it first and logs it then, the line carrying the hash, the count so far and the total. |
| `CutoverBoundary.PrefixExactly` | ops/calibration_two_worker_continuation_18d6494.py:2794-2802 | Comparing the present ids with a manifest slice of the same length decides whether the inventory is exactly that manifest prefix. |
| `EpisodePublication.AbandonedValidExactly` | ops/calibration_two_worker_continuation_18d6494.py:1827-1846 | Once an episode is published, the staging check accepts its attempts if and only if no emptied, unreceipted attempt directory is left. |
| `WorkerProtocol.InvRun` | ops/calibration_two_worker_continuation_18d6494.py:1881-2081 | The invariant of two interleaved workers, crashing and restarting anywhere, holds in every state of every run. |
| `WorkerProtocol.PublishedChain` | ops/calibration_two_worker_continuation_18d6494.py:1868-1878 | For every assigned episode in every reachable state a destination has a prepared receipt of its owner with exactly its content, and a promotion receipt implies both. |
| `WorkerProtocol.PublishedForGood` | ops/calibration_two_worker_continuation_18d6494.py:1516-1537 | Receipts and destinations, once there, are the same in every later state. |
| `WorkerProtocol.FrozenUntouched` | ops/calibration_two_worker_continuation_18d6494.py:537-548 | Frozen destinations keep their cutover content throughout every run. |
| `WorkerProtocol.OnlyTheOwnerPublishes` | ops/calibration_two_worker_continuation_18d6494.py:2058-2081 | A step that makes a destination appear is a step of the worker whose shard has the episode. |
| `WorkerProtocol.OnlyExhaustionRaises` | ops/calibration_two_worker_continuation_18d6494.py:1788-1824 | The errors for a disappeared prepared sidecar, several completed sidecars or an unreceipted destination are never raised; a worker stops early only when an episode has used up its 999 attempts. |
| `WorkerProtocol.BudgetSpent` | ops/calibration_two_worker_continuation_18d6494.py:1942-2081 | While a worker runs undisturbed, each of its steps is paid for by a decreasing whole-shard measure. |
| `WorkerProtocol.RestartPromotesShard` | ops/calibration_two_worker_continuation_18d6494.py:1942-2081 | From every reachable state, a restarted worker that takes enough steps without crashing has every episode of its shard promoted with receipt and content in agreement, unless an episode has used up its attempt numbers. |
| `WorkerProtocol.DoneMeansPromoted` | ops/calibration_two_worker_continuation_18d6494.py:2072-2121 | A worker that is done has promoted every episode of its shard, each destination holding the promoted content. |
| `WorkerProtocol.TaintExactly` | ops/calibration_two_worker_continuation_18d6494.py:2066-2071 | An episode's staging is tainted if and only if its worker once crashed between the rename and the removal of the lock, or between that and the prune. |
| `WorkerProtocol.StagingAcceptedExactly` | ops/calibration_two_worker_continuation_18d6494.py:1827-1846 | When both workers are done, the run's staging check passes if and only if no such crash ever happened. |
| `WorkerProtocol.StuckRun` | ops/calibration_two_worker_continuation_18d6494.py:2066-2071 | A concrete run in which a worker dies between the scorer's rename and its unlock, both workers then finish with everything promoted, and the staging check fails. |
| `ContinuationWorker.Worker.Run` | ops/calibration_two_worker_continuation_18d6494.py:1942-2121 | The worker's loop, from any state a crash left: every episode of the shard ends promoted with the prepared, staged or fresh content, nothing else changes, or it stops at an episode with no attempt number left. |
| `ContinuationWorker.Worker.PublishEpisode` | ops/calibration_two_worker_continuation_18d6494.py:1942-2081 | One turn of the loop: the episode is promoted with the content it must have, other episodes are untouched. |
| `ContinuationWorker.Worker.MakeNextAttempt` | ops/calibration_two_worker_continuation_18d6494.py:1788-1824 | The new attempt takes the smallest free number from 1 to 999. |
| `PlanReceipt.ClassifySerialModes` | ops/calibration_two_worker_continuation_18d6494.py:1605-1621 | Fails exactly when publication times do not increase; otherwise a record is contended if and only if some instant of its interval lies in the benchmark's. |
| `PlanReceipt.MissingExactly` | ops/calibration_two_worker_continuation_18d6494.py:1644-1651 | The rest of the manifest holds exactly the ids that are not completed, once each and in manifest order. |
| `PlanReceipt.ShardsPartition` | ops/calibration_two_worker_continuation_18d6494.py:1644-1651 | The alternating shards are disjoint, without repetition, cover exactly what is not completed, and their sizes differ by at most one. |
| `PlanReceipt.PlanPartitionsManifest` | ops/calibration_two_worker_continuation_18d6494.py:1636-1720 | Frozen prefix and shards partition the manifest: position by position, who has each episode. |
| `PlanReceipt.AggregateCosts` | ops/calibration_two_worker_continuation_18d6494.py:2281-2317 | The loop over the inventory gives each mode the sums and maxima of exactly its own records. |
| `PlanReceipt.StratumSums` | ops/calibration_two_worker_continuation_18d6494.py:2281-2317 | Every count and cost of a mode's aggregate is the sum of that field over the mode's own records. |
| `PlanReceipt.StrataAddUp` | ops/calibration_two_worker_continuation_18d6494.py:2281-2317 | The aggregates of the three modes combine to the aggregate of the whole inventory. |
| `PlanReceipt.PeakIsLargest` | ops/calibration_two_worker_continuation_18d6494.py:2281-2317 | Both peaks of a mode's aggregate bound those of the mode's records, and each is zero or reached by one of them. |
| `PlanReceipt.TotalPeakIsLargest` | ops/calibration_two_worker_continuation_18d6494.py:2281-2317 | The same of both peaks over the whole inventory. |
| `PlanReceipt.CloseRun` | ops/calibration_two_worker_continuation_18d6494.py:2490-2576 | The execution receipt is written if and only if promotions, both staging roots, inventory, frozen records and modes all pass their checks; it then has one entry per inventory record and the aggregate of each mode. |
| `PlanReceipt.ReceiptCoversManifest` | ops/calibration_two_worker_continuation_18d6494.py:2490-2576 | Entry by entry an execution receipt names the manifest in order, with the inventory's digest, states and cost; a frozen episode has the digests it had at the cutover and its serial mode, every other one is a two-worker episode of the worker that promoted it. |
| `PlanReceipt.WorkerPlanOk` | ops/calibration_two_worker_continuation_18d6494.py:1902-1908 | A plan made at a cutover has what the worker protocol relies on: two shards without repetition or overlap, outside the frozen inventory. |
| `PlanReceipt.RunClosesExactly` | ops/calibration_two_worker_continuation_18d6494.py:2490-2576 | After both workers of a plan made at a cutover finish, every check passes by itself except the one on staging, so the receipt is written if and only if no worker died in one of the two windows. |
| `PlanReceipt.UnclosedRun` | ops/calibration_two_worker_continuation_18d6494.py:2490-2576 | A concrete run of two episodes after which no receipt is written although every other check passes. |
| `LogScanner.WaitForScoreCompleted` | ops/calibration_two_worker_continuation_18d6494.py:766-800 | The incremental scanner, with its buffer and its arithmetic on file positions, gives what rereading everything after every chunk gives. |
| `LogScanner.ChunksIrrelevant` | ops/calibration_two_worker_continuation_18d6494.py:776-800 | However the bytes are cut into chunks, the outcome is the first wanted line of what was read while the scorer lived, and otherwise the reason for giving up. |
| `LogScanner.FirstRecordIsFirst` | ops/calibration_two_worker_continuation_18d6494.py:784-799 | The record is the first complete wanted line and its offsets enclose exactly that line and its newline; there is no record if and only if no complete line is wanted. |
| `LogScanner.RevalidatesRecord` | ops/calibration_two_worker_continuation_18d6494.py:2955-2972 | Whatever record is presented, the later check passes if and only if its line and newline stand at the start offset, the line decodes to what the record says, and it reaches the end offset or, short of it, the end of the log. |
| `LogScanner.RevalidatesExactly` | ops/calibration_two_worker_continuation_18d6494.py:2955-2972 | A returned record passes the later check of a log if and only if the log still has that line and newline at its offsets. |
| `LogScanner.AppendOnlyRevalidates` | ops/calibration_two_worker_continuation_18d6494.py:2955-2972 | As long as the log only grew, the later check succeeds. |
| `Auroc.WeightedAuroc` | ops/locked_test_evaluate.py:1303-1326 | One pass over tie blocks of any ascending arrangement gives the number whose product with both class weights is the weighted sum over all positive/negative pairs, ties counted half; it fails exactly when a class has no weight. |
| `Auroc.OrderIrrelevant` | ops/locked_test_evaluate.py:1309-1312 | The value does not depend on the order of the rows or on how ties are sorted. |
| `Auroc.Extremes` | ops/locked_test_evaluate.py:1303-1326 | Positives all above negatives give 1, all below give 0, all tied give one half. |
| `Auroc.BetweenZeroAndOne` | ops/locked_test_evaluate.py:1326 | With weights that are not negative the value lies in [0, 1]. |
| `PairEligibility.JudgedSymmetric` | src/mech_int_vla/causal.py:491-559 | Eligibility, reasons, distance and angle do not depend on which state is asked about first. |
| `PairEligibility.FoldedEven` | src/mech_int_vla/causal.py:473-488 | The folded angle of a difference and of its negative are equal. |
| `PairInventory.EligibleIsKept` | ops/calibration_pair_inventory_18d6494.py:151-211 | Every eligible pair has equal bucket keys and passes the slackened prefilter. |
| `PairInventory.EligiblePairs` | ops/calibration_pair_inventory_18d6494.py:162-233 | Each eligible unordered pair is confirmed exactly once with the frozen rule's angle and distance, nothing else is, and the comparisons count exactly the pairs of states with equal keys. |
| `PairInventory.ScanBucket` | ops/calibration_pair_inventory_18d6494.py:172-232 | Inside one bucket of n states the same, at n(n-1)/2 comparisons. |
| `PairSelection.FastPairs` | ops/locked_test_causal.py:204-240 | Fails exactly on duplicate identities; otherwise returns the greedy selection of the candidates. |
| `PairSelection.GreedyExplained` | ops/locked_test_causal.py:204-240 | In terms of states, digests and judged distances alone: each greedy pair joins two idle states, serves the first in line by (digest of seed and identity, identity) that any idle state suits, and no idle state that suits is nearer, or as near with a smaller identity; below the limit no state can be served. |
| `PairSelection.SelectPairs` | src/mech_int_vla/causal.py:562-653 | The form that judges all edges first returns a greedy selection of the same kind, and fails exactly on a bad limit or duplicate identities. |
| `PairSelection.GreedyUnique` | ops/locked_test_causal.py:215-240 | There is only one greedy selection. |
| `PairSelection.OrderIrrelevant` | ops/locked_test_causal.py:209-213 | Permuting the candidates does not change the selection. |
| `PairSelection.FastIsReference` | ops/locked_test_causal.py:204-240 | What the fast form selects equals what the materialised form selects. |
| `PairSelection.SelectionSound` | ops/locked_test_causal.py:215-240 | The pairs are vertex-disjoint and eligible, at most the limit, and below the limit no two leftover states are eligible. |
| `PairSelection.RuleSymmetric` | src/mech_int_vla/causal.py:606-613 | The frozen rule has the symmetry that looking edges up in sorted order needs. |
| `PairPlan.MatchedDonors` | ops/locked_test_causal.py:255-298 | Each confirmatory recipient gets the nearest control donor that is neither reserved nor used by an earlier row of its seed, nearest in judged distance and then identity, and none exactly when no such state is control-eligible. |
| `PairPlan.BuildPairPlan` | ops/locked_test_causal.py:301-359 | The plan is the one the candidates determine, said of states, distances and digests; it fails exactly on duplicates, when a seed with k pairs has fewer than 20 + k candidates, or when a planned recipient has no usable episode. |
| `PairPlan.PlanExplained` | ops/locked_test_causal.py:301-359 | Sixty slots, each carrying its number, seed, condition and the episode of its recipient; a slot with a donor is an eligible greedy pair at its own orientation, with the nearest control donor open to it, or none only if no open state is eligible; a slot without one takes the first idle state in line. |
| `PairPlan.PlanSound` | ops/locked_test_evaluate.py:602 | Sixty slots, seed number index div 20; within a seed twenty distinct recipients, no state in two pairs, control donors eligible, distinct and never a reserved recipient; a null donor exactly on fillers. |
| `RandomControls.Progress.Load` | ops/locked_test_causal.py:952-981 | Succeeds exactly when every chunk file holds its whole chunk, and then knows exactly their values; otherwise it reports the first bad file, as unreadable when that one is torn. The duplicate-index error cannot happen. |
| `RandomControls.Progress.WriteChunk` | ops/locked_test_causal.py:984-1000 | Refuses an incomplete chunk; only checks again when the file exists; otherwise stores exactly the chunk, or leaves the file torn when a crash strikes before its last byte. |
| `RandomControls.Progress.Run` | ops/locked_test_causal.py:1207-1254 | For any total and chunk size: over whole chunks a run finishes exactly when the crash it meets lies beyond its work, with the checkpointed value or the effect of every control; cut short between effects it has only added whole chunks of effects, and inside a chunk write one torn file besides; it fails with no error, and neither ordering error can be raised. Over a bad chunk it refuses and changes nothing. |
| `RandomControls.Progress.Resume` | ops/locked_test_causal.py:172-179 | After any number of runs cut short anywhere, a last run finishes if and only if none was cut short inside a chunk write, and then reports what one uninterrupted run would have reported; otherwise it fails on the unreadable file. |
| `RandomControls.ExpectedStable` | ops/locked_test_causal.py:1240-1250 | Checkpoints written on the way do not change what must be reported. |
| `EvidenceStats.MedianRange` | ops/locked_test_causal.py:415-423 | A median is finite when all values are, and not negative when none is. |
| `EvidenceStats.MedianInTheMiddle` | ops/locked_test_causal.py:415-423 | Of values put in ascending order, the median of an odd number is the middle one and that of an even number the mean of the two middle ones, infinite if one of them is. |
| `EvidenceStats.MeanIsRate` | ops/locked_test_evaluate.py:781-782 | The evaluator's quotient of a sum and a length is the producer's mean. |
| `CausalReceipt.ValidateCausal` | ops/locked_test_evaluate.py:587-868 | The row loop and the summary checks accept exactly the rows and summaries that pass each check against what the rows say. |
| `CausalReceipt.RowsAgree` | ops/locked_test_evaluate.py:587-760 | Outside the producer's tolerances, the evaluator accepts exactly the rows a producer can write. |
| `CausalReceipt.OnlyProducedAccepted` | ops/locked_test_evaluate.py:763-868 | An accepted summary is the producer's summary of the rows, up to the evaluator's tolerance on real numbers; its random-control flag is the strict comparison. |
| `CausalReceipt.SummaryAcceptedExactly` | ops/locked_test_evaluate.py:763-848 | Of a producer's summary everything agrees with the recomputation, except that the random-control flag differs when the median effect is above its threshold by no more than the producer's tolerance. |
| `CausalReceipt.PooledAlike` | ops/locked_test_evaluate.py:811 | The evaluator's medians over the columns of its separate list of control effects are those of the producer's matrix. |
| `CausalReceipt.SeedsAlike` | ops/locked_test_evaluate.py:817-825 | Counting seeds over effects picked by seed gives what the producer counts over rows grouped by seed. |
| `CausalReceipt.AcceptedExactly` | ops/locked_test_causal.py:388-505 | For all sixty rows as the producer leaves them, the evaluator accepts if and only if no pair angle, patched distance or median effect lies inside a tolerance that only the producer grants; the empty and the single-cluster case included. |
| `CausalReceipt.ToleratedThenRefused` | src/mech_int_vla/causal.py:792-801 | Two concrete receipts the producer writes and the evaluator refuses. |
| `DoseReceipt.SummarizeDose` | ops/locked_test_causal.py:1560-1598 | Writes the sixteen items of the 2 x 8 grid in order, or fails exactly when some valid row lacks a dose. |
| `DoseReceipt.ValidateDose` | ops/locked_test_evaluate.py:966-1091 | The row loop, the item loop and the grid comparison accept exactly the item lists that pass each check against the rows of their cell. |
| `DoseReceipt.RowAcceptedExactly` | ops/locked_test_causal.py:1490-1557 | The evaluator accepts exactly the rows that can be written as dose evidence of their slot. |
| `DoseReceipt.ProducedAccepted` | ops/locked_test_evaluate.py:1033-1091 | Every dose summary of sixty well-formed rows passes the evaluator, empty conditions and infinite medians included. |
| `DoseReceipt.OnlyProducedAccepted` | ops/locked_test_evaluate.py:1033-1091 | An accepted dose summary is the producer's, up to the evaluator's tolerance on rates and medians, with rates in [0, 1]. |
| `ContentPublication.InvRun` | ops/locked_test_score.py:576-628 | The invariant of any number of interleaved, crashing publishers holds in every state of every run. |
| `ContentPublication.NeverPartial` | ops/locked_test_score.py:606-628 | The destination is never partial, is created by at most one rename, and never changes once it is there. |
| `ContentPublication.ReturnedExact` | ops/locked_test_score.py:585-600 | A call that returned finds exactly the payload in place, then and ever after. |
| `ContentPublication.OneHolder` | ops/locked_test_score.py:601-611 | At most one call is between taking and removing the lock, and at most one directory is staged. |
| `ContentPublication.WaiterReturns` | ops/locked_test_score.py:585-603 | Once the payload is in place, a call that waits for it has a continuation that returns. |
| `ContentPublication.WaitsOn` | ops/locked_test_score.py:601-611 | As long as nothing is in place a waiting call goes on waiting, and it raises when its time is up; neither changes the root. |
| `ContentPublication.ChecksExactly` | ops/locked_test_score.py:549-573 | A call that has listed a root goes on if and only if the lock it listed is still there and every staged directory it listed still is and had its lock listed first. |
| `ContentPublication.RacingRun` | ops/locked_test_score.py:549-573 | For every value, a concrete run of two calls in which one raises with nothing wrong, because the other takes the lock and stages between its listings. |
| `ContentPublication.CanReturnExactly` | ops/locked_test_score.py:603-611 | From a reachable state some call can still return if and only if the payload is in place, or nothing is and the lock is free or its holder alive. |
| `ContentPublication.OrphaningRun` | ops/locked_test_score.py:603-611 | For every value, a concrete run after which no call of any process can ever return. |
| `Provenance.DecodeEncoded` | src/mech_int_vla/provenance.py:130-158 | The stream decodes back to its domain, paths and contents, for all lengths below 2^64. |
| `Provenance.EncodeDecoded` | src/mech_int_vla/provenance.py:130-158 | Only streams that encode something decode, so decoding and encoding are inverse. |
| `Provenance.StreamsDiffer` | src/mech_int_vla/provenance.py:130-158 | Equal streams mean equal domains, file lists and contents. |
| `Provenance.FrameRoundTrip` | src/mech_int_vla/provenance.py:269-273 | A frame is read back whatever follows it. |
| `Provenance.FromTo` | src/mech_int_vla/provenance.py:272 | Reading a big-endian integer back gives the integer. |
| `Provenance.PathAcceptedExactly` | src/mech_int_vla/provenance.py:178-195 | A path passes if and only if no component is empty, "." or "..", or it is "." itself. |
| `Provenance.AllowlistedStream` | src/mech_int_vla/provenance.py:130-158 | The digest is fed exactly the encoding of the files, or the call fails on a bad allowlist, an unstable snapshot or an oversized frame. |
| `ActivationReference.ValidateSpans` | ops/build_calibration_activation_reference.py:398-463 | The span loop accepts exactly the episode lists that tile the rows in order with the right identities. |
| `ActivationReference.RowsDetermined` | ops/build_calibration_activation_reference.py:398-463 | Every row lies in the span of exactly one episode, the one it names, with its base-init id and the stride times its offset as control step. |
| `ActivationReference.RowIdentitiesUnique` | ops/build_calibration_activation_reference.py:806-818 | No two rows share an episode id and a control step. |
| `ActivationReference.Build` | ops/build_calibration_activation_reference.py:897-989 | The concatenation loop places each sidecar's rows after those of the sidecars before it and lists their spans. |
| `ActivationReference.BuiltTilesExactly` | ops/build_calibration_activation_reference.py:897-989 | What the builder writes is accepted if and only if there is an episode and every sidecar's steps are 0, stride, 2 stride and so on, with base-init ids that are not negative. |
| `MetadataDiff.DifferencesEmpty` | ops/audit_scoring_schedule_equivalence_18d6494.py:142-178 | Nothing is reported if and only if the two trees are equal but for the signs of zeros and hold no NaN. |
| `MetadataDiff.MembersInside` | ops/audit_scoring_schedule_equivalence_18d6494.py:147-162 | If all differences lie below one member, all other members are equal but for the signs of zeros, and the differences are those of that member. |
| `MetadataDiff.OverwrittenSame` | ops/audit_scoring_schedule_equivalence_18d6494.py:277-290 | When files/primitives_sha256 is the only reported path, overwriting it succeeds in both trees and leaves them equal but for the signs of zeros. |
| `MetadataDiff.AuditMetadata` | ops/audit_scoring_schedule_equivalence_18d6494.py:277-290 | Once the first comparison passes, the second raises if and only if a number of the overwritten trees is not finite, and otherwise fails if and only if they have a negative zero in different places. |
| `MetadataDiff.FiniteExactly` | ops/audit_scoring_schedule_equivalence_18d6494.py:80-87 | A tree has canonical text if and only if no infinity and no NaN can be reached in it. |
| `MetadataDiff.SecondComparisonCanFail` | ops/audit_scoring_schedule_equivalence_18d6494.py:277-290 | Two concrete sidecars that pass the first comparison and fail the second. |
| `MetadataDiff.InfinityCanRaise` | ops/audit_scoring_schedule_equivalence_18d6494.py:80-87 | Two concrete sidecars that pass the first comparison and have no canonical text. |

## Left out

- Atomic writes: every exclusive write of a receipt or a staged file of the continuation protocol either happens or does not; a crash in the middle of one is not modelled there (`ContentPublication` models it byte by byte, `RandomControls` as a torn file).
- The program before the recovery amendment is not in the repository; coordinators of it that are still running are taken to go on as the same code would.
- Outside interference: nobody but the modelled processes touches the files, and the files keep what was written.
- Digests and formats: SHA-256, JSON and NPZ are library code; contents stand for their digests.
- Processes: `/proc`, pidfds, signal masks and timeouts; a process is alive or gone, and a wait that times out is a crash of the waiting coordinator.
- `_assert_execution_control_state` and the path and argument checks before each mode: they only refuse more.
- Foreign calls: simulator, policy, patching and scoring are uninterpreted functions of an index or an episode.
- Floating point: reals throughout, with an explicit infinity for ratios and explicit negative zeros, infinities and NaN in JSON; rounding, and NaN elsewhere, are not modelled.
- The scripts that render figures and reports, benchmark telemetry and launchers: they would only add easy members.
- SignalProtocol.CutoverGetsThrough: the checks of a boundary line against its baseline are in `CutoverBoundary` (`CutoverBoundary.RefusesLineExactly`); a line that is read here is one that passes them.
- CutoverBoundary.AcceptedIsExact: the log is a list of lines there, not bytes; `LogScanner` has the bytes. The checks on the resource lock of the next phase are left out.
- EpisodePublication.AbandonedValidExactly: pruning several empty directories is one step.
- WorkerProtocol.RestartPromotesShard: progress is stated up to the promotion of every assigned episode; that the run then closes is `PlanReceipt.RunClosesExactly`.
- PairEligibility.JudgedSymmetric: angles are in degrees, the Euclidean distance is a parameter that is only assumed symmetric and not negative, and the matching distance is kept squared, which orders the same way.
- PairInventory.EligiblePairs: the counter of exclusion reasons, which covers only pairs the prefilter let through, is not modelled.
- PairInventory.EligibleIsKept: how many pairs the prefilter drops is a matter of speed only and is not stated.
- PairSelection.FastPairs: identities are numbers in place of strings; only their order is used.
- PairSelection.SelectPairs: the counts of possible and eligible edges and of exclusion reasons are not part of the result.
- RandomControls.Progress.Load: a file cut short is taken to be unreadable, since an archive ends with its directory; effects are finite.
- CausalReceipt.ValidateCausal: checks of key sets, digests, candidate identities and the fixed markers are left out, as is the binding to the manifest.
- CausalReceipt.AcceptedExactly: the percentile and the cluster bootstrap are parameters, called by both sides on the same list.
- ContentPublication.NeverPartial: the safety checks of one listing are one step, and symbolic links are not modelled.
- ActivationReference.Build: the 16- and 32-bit array types, the vectors and the natural geometry arrays are not modelled.
- Provenance.AllowlistedStream: reading a file through a stable descriptor is represented by the identities before and after.
