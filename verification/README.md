# ai.ubq.fi release operations: a Dafny model

Five parts of the repository are modelled here, each with what it promises proved for every input,
every run or every reachable state.

- **First Bun cutover and its recovery.** `CutoverTransition.dfy` is the phase machine with failing
  and cancelled effects. `Cutover.dfy` is the disk, the launcher, the gateway and the supervisor as
  one transition system: the supervisor may die and the machine may reboot between any two durable
  effects, a journal write may be lost or may land and still throw, and a running gateway writes at
  any time. `CutoverOperator.dfy` is the recovery as a program whose every statement is a step of
  that system, with a failure possible at each; `CutoverRuns.dfy` holds two runs of the system.
- **Release operations under one deploy lock.** `ReleaseJournal.dfy` holds receipts, pins and the
  journal that writes them one after the other; `Retention.dfy` the pruning of release directories;
  `ReleaseOps.dfy` the bound driver, the ordinary deploy, the cutover's claim and pruning as one
  transition system with a crash possible between any two writes; `ReleasePrograms.dfy` the driver
  and the deploy as programs over it; `ReleaseFaults.dfy` the faults it allows; `StuckDeploys.dfy` the deploys that no retry can take up;
  `CodecFallback.dfy` the rule against falling back to a legacy release.
- **Journal-metrics join.** `Telemetry.dfy` (slices and ledgers), `Join.dfy` (what a join means),
  `JoinPass.dfy` (the passes that compute it), `Windows.dfy` (completed windows), `Collector.dfy`
  (scanning under a read budget), `Sampling.dfy` (checkpoints, pruning, whole runs of samples).
- **Write-scope rollback of a workspace tree**: `FileTree.dfy` (a tree with links, and what lstat says
  in it) and `Workspace.dfy`.
- **Two standalone functions**: the canonical serializer (`Canonical.dfy`) with a reader of JSON to
  compare it with (`JsonReader.dfy`), and the collection of schema properties over a possibly cyclic graph (`SpecDrift.dfy`).

`Runs.dfy` holds what runs of any transition system have in common, `Wrappers.dfy` what all modules share. The crash-prone protocols are transition systems because a crash can fall between any two writes; the
classes beside them run the same steps in the source's own control flow. File digests are equality of
contents, a codec conversion keeps the contents, and `localeCompare` is any strict total order.

## What the proofs found

- **Rollback can stop half way** (`benchmarks/fixture.ts:774-781`). An lstat that fails with anything but
  ENOENT throws, and the rest of the workspace stays unrestored; the comment at 362-368 promises that
  every unauthorized change is restored. A path below an entry that the command turned into a file always
  stops it (`FileAncestorStops`); where every ancestor of every unauthorized path is a directory or missing
  it never stops (`PlainTreesNeverStop`); a link on the way is decided by what it leads to in the tree that
  the rollback has made by then (`LinkAncestorDecides`). `EnforceWriteScope` gives the exact condition as a
  function of the snapshot, the tree the command left and the restoration order. That condition is not one on
  the tree the command left: `RestoredTargetStops` is an input that nothing obstructs and that stops all
  the same, `RestoredTargetHeals` one whose only obstruction is gone in time.
- **Opaque entries stay lost**: a deleted socket or fifo is not recreated, and a second enforcement is
  clean exactly when no unauthorized path was one (`EnforcementIsStable`, `OpaqueEntryIsLost`).
- **The two flags for an attempted start can differ**: the running recovery is told that no start was
  attempted while a later process reads that one was, exactly when the write of `starting` itself threw
  (`AttemptFlagsAgree`). The recovery is safe under either.
- **A recovery can refuse although Bun still holds the latest write**: when a rollback receipt is older than
  Bun's last write (`StaleReceiptRefuses`), and after `legacy_starting` was recorded and Bun was launched
  again before the prior release was reselected (`RelaunchAfterIntentRefuses`, `ops/cutover-recovery.ts:66`).
  Both are reached by runs given step by step; `Recoverable` is the exact condition.
- **An ordinary deploy can get stuck for good**: no deploy of any revision is activated any more and its
  receipt keeps the bound driver and the cutover out. `StuckExactly` gives the states, `StuckForGood` that
  they last. A crash right after the first saved receipt is enough (`CrashAfterReceiptIsStuck`), because
  `ops/deploy.ts:195` takes the retry for an unexplained one. No crash is needed either: the health check of
  the previous release is asked again after the receipt was saved (`ops/deploy.ts:201`), before the block
  that would roll back, and its failure leaves the same state (`FailedProbeIsStuck`; `Deploy` states it as an
  outcome of its own). No pin of the bound driver is stuck that way (`ReleaseAnyPin`).
- **A bound operation can fall back to a legacy release after Bun was started**, which `ops/README.md:149`
  rules out. The flag that guards the fallback is local to one `activate` call (`ops/vps-release-driver.ts:246`):
  the fallback is refused exactly when that very call asked for a restart, or is a `restore`
  (`ReselectsExactly`, `GuardedCallStays`). A second call that resumes at `candidate_ready` and fails to reload
  the ingress goes back (`ResumedCallFallsBack`, a run from every first state with a legacy release selected).
- **Pruning does not protect a pending ordinary deploy**: its previous release is deleted exactly when the
  candidate is selected and enough directories are newer (`PreviousIsPrunable`), such states are reached
  (`PendingPreviousIsPruned`), and then the deploy is stuck (`PrunedPreviousIsStuck`). The selector itself
  never dangles (`ProtectedReleasesStay`).

## Model

| member | source | states |
|---|---|---|
| `CutoverTransition.Supervisor.Execute` | ops/cutover-transition.ts:25-63 | for every pattern of failing effects and cancellation times: the calls made are a prefix of the forward script that ends at the first failure or at the first record after the signal, followed, once `stopping` was recorded, by the recovery calls, and the end follows from them |
| `CutoverTransition.Supervisor.Persist` | ops/first-bun-cutover.ts:195-207 | a record changes the journal object before it writes; memory and disk stay functions of the calls made, also when the write throws before or after it lands |
| `CutoverTransition.Supervisor.Forward` | ops/cutover-transition.ts:26-50 | the flags the catch clause reads: `stopping` exactly when its record succeeded, `startupAttempted` exactly when `start` was called |
| `CutoverTransition.Supervisor.Recovered` | ops/cutover-transition.ts:51-61 | the recovery ignores the signal; each outcome of its effects has its own end, also the failure of the last record |
| `CutoverTransition.IntentsAreDurable` | ops/cutover-transition.ts:36-47 | `stop` is called only with `stopping` on disk, `start` only with `starting` and the attempt on disk |
| `CutoverTransition.StoppingAfterPreflight` | ops/cutover-transition.ts:33-36 | `stopping` is recorded only after a preflight that was done |
| `CutoverTransition.ConvertAfterPreserve` | ops/cutover-transition.ts:37-40 | the conversion starts only after the stopped state was preserved, with `stopped` on disk |
| `CutoverTransition.StartAfterConvert` | ops/cutover-transition.ts:40-46 | `start` comes only after a conversion that was done, with `converted` on disk before it |
| `CutoverTransition.AcceptedAfterVerify` | ops/cutover-transition.ts:45-50 | `accepted` is recorded only after a verification that was done after `start` |
| `CutoverTransition.CrashFindsTheStop` | ops/first-bun-cutover.ts:391-414 | wherever the supervisor dies after calling `stop`, the journal on disk is past `prepared` |
| `CutoverTransition.CrashFindsTheStart` | ops/first-bun-cutover.ts:195-207 | wherever it dies after calling `start`, the attempt is on disk |
| `CutoverTransition.RecoveryAtMostOnce` | ops/cutover-transition.ts:51-58 | recovery runs at most once, after `recovering` was recorded, with true exactly when `start` was called, and such a run is never accepted |
| `CutoverTransition.EndsMean` | ops/cutover-transition.ts:47-58 | accepted exactly when every call succeeded, and then no recovery ran and `accepted` is on disk; rolled back only with the recovery done and on disk |
| `CutoverTransition.StopIsAcceptedOrRecovered` | ops/cutover-transition.ts:51-54 | a refused run stopped nothing; a run that called `stop` is accepted or turns to recovery |
| `CutoverTransition.AttemptFlagsAgree` | ops/first-bun-cutover.ts:195-207 | the flag in the running process and the flag on disk differ exactly when the write of `starting` threw |
| `Cutover.LatestWriteSurvives` | ops/cutover-recovery.ts:63-151 | in every reachable state one of the two stores holds the latest write, the running gateway's store does, and so does the store of whatever the launcher would start now; Deno never creates an empty store |
| `Cutover.LegacyStartsOnlyWhenProved` | ops/cutover-recovery.ts:131-151 | a recovery that announces the legacy start, reselects the prior release or starts it has a legacy store that holds the latest write |
| `Cutover.SettledPhasesMean` | ops/first-bun-cutover.ts:391-397 | `rolled_back` on disk means the prior release is selected and its store is the latest; `accepted` means the candidate and Bun's store |
| `Cutover.SettlementIsFinal` | ops/first-bun-cutover.ts:391-397 | a settled operation stays settled, and its selector stays, through launches, writes and reboots |
| `Cutover.PreparedLeavesBaseline` | ops/cutover-recovery.ts:31-61 | a journal at `prepared` always meets the checks that its recovery entry makes on journal, selector and stores |
| `Cutover.NextKeeps` | ops/first-bun-cutover.ts:195-303 | every step of supervisor, launcher, gateway, crash and reboot keeps the invariant that locates the latest write |
| `Cutover.LaunchKeeps` | ops/launch-vps.sh:19-35 | a launch, or a launcher that dies before it execs, keeps the invariant: Deno runs only without a Bun store or on an adopted rollback, and Bun only without an adoption (ops/launch-service.ts:38) |
| `Cutover.DenoStartsExactly` | ops/verify-legacy-rollback.ts:12-55 | with the prior release selected, the launcher can start Deno exactly without a Bun store, or with a legacy store and a rollback receipt that was made from Bun's main file, no log beside it, and that is adopted or describes the legacy main file |
| `Cutover.BunStartsExactly` | ops/launch-service.ts:38 | with the candidate selected, it can start Bun exactly when there is a Bun store, never Deno, and drops the adoption |
| `Cutover.LegacyComesUp` | ops/launch-vps.sh:19-35 | in every reachable state that is down, not held and has the prior release selected with its store as the authority, a launch ends with Deno up on the latest write |
| `Cutover.CandidateComesUp` | ops/launch-vps.sh:19-35 | in every reachable state that is down, not held and has the candidate selected, a launch ends with Bun up on the latest write |
| `Cutover.RecordMayEnd` | ops/first-bun-cutover.ts:195-207 | what a record may do, at every point: be written, be written and throw all the same, or be lost; which phase and flags it leaves on disk and in memory, and where an error leads |
| `Cutover.EffectMayFail` | src/kv-conversion/convert.ts:269-283 | every effect of cutover and recovery may throw, and a converter in the middle goes on to take its own files away |
| `Cutover.ConversionIsUndone` | src/kv-conversion/convert.ts:269-283 | a forward conversion that fails after it published its store or its receipt takes exactly these away and turns to recovery |
| `Cutover.GatewayMayAct` | ops/launch-vps.sh:19-35 | at any time while it runs, the gateway may write anything, move its log into its main file, or die |
| `Cutover.AdoptingKeeps` | ops/verify-legacy-rollback.ts:12-55 | publishing the adoption, and moving an unstarted Bun store aside, make the legacy store the authority only when it holds the latest write |
| `Cutover.RevertingKeeps` | ops/cutover-recovery.ts:68-94 | no point of the conversion back, with its destination published before its receipt, can lose the latest write |
| `CutoverOperator.Operator.RecoverCutoverLatest` | ops/cutover-recovery.ts:131-151 | with a failure possible at every point: it ends with the prior release selected, released and authoritative exactly when `Recoverable` held before it and nothing failed on its route, and gives up otherwise; every intermediate state is a step of the system |
| `CutoverOperator.Operator.RestoreLatestBun` | ops/cutover-recovery.ts:63-98 | proves the latest Bun state into the legacy store exactly when the state is recoverable and nothing fails on the way |
| `CutoverOperator.Operator.BringUpToDate` | ops/cutover-recovery.ts:68-94 | succeeds exactly when a Bun store exists, no older receipt stands in the way and nothing fails, and then the rollback verification passes |
| `CutoverOperator.Operator.Convert` | src/kv-conversion/convert.ts:269-283 | a converter that fails takes its own files away again; otherwise destination and receipt describe Bun's store |
| `CutoverRuns.StaleReceiptRefuses` | ops/cutover-recovery.ts:73-94 | a run of crashes, relaunch and write reaches a state in which the recovery refuses although Bun's store is the latest |
| `CutoverRuns.RelaunchAfterIntentRefuses` | ops/cutover-recovery.ts:66 | another, through an announced legacy start, for any later write |
| `CutoverOperator.Operator.RecoverFirstBunCutover` | ops/first-bun-cutover.ts:364-453 | a missing, prepared or settled journal is left alone and answered by its health checks; any other becomes `rolled_back` exactly when it was recoverable and nothing failed, and ends unproved, recorded or not, otherwise |
| `CutoverOperator.Operator.PerformFirstBunCutover` | ops/first-bun-cutover.ts:213-303 | with no failure, the cutover ends accepted with both stores holding the latest write |
| `ReleaseJournal.VpsOperationJournal.Write` | ops/vps-release-journal.ts:133-157 | exactly the admissible receipts are written; pin first, receipt second; every state of the two files that a crash could expose has at most one pin and a pin for every unsettled receipt |
| `ReleaseJournal.VpsOperationJournal.ReleasePin` | ops/vps-release-journal.ts:158-168 | releases exactly on a settled receipt with its own pin, and keeps that rule |
| `ReleaseJournal.WritingKeepsSingleOwner` | ops/vps-release-journal.ts:133-157 | both writes keep the single-owner rule for any caller |
| `ReleaseJournal.ReleasingKeepsSingleOwner` | ops/vps-release-journal.ts:158-168 | so does a release |
| `ReleaseJournal.OneUnsettledOperation` | ops/vps-release-journal.ts:142-155 | at most one unsettled operation |
| `ReleaseJournal.JournaledMeans` | ops/vps-release-contract.ts:257-315 | what each receipt in the journal vouches for, whoever wrote it: its own releases, the proofs, intent, settlement and error that its phase requires |
| `ReleaseJournal.FailureWithoutIntent` | ops/vps-release-journal.ts:84-105 | a failure without any intent is admitted only on top of the untouched first receipt, as its second, with the error and the settlement on it |
| `ReleaseJournal.SettledIsNeverReopened` | ops/vps-release-journal.ts:84-105 | nothing may follow a settled receipt, so an operation without its pin never writes again |
| `Retention.ReleaseStore.PruneReleases` | ops/release-retention.ts:56-92 | deletes exactly the entries that are not running, not pinned, and have at least `keep` others modified later, or at the same time with a smaller name; a dry run reports the same and deletes nothing; a negative count is refused |
| `Retention.PlaceIsRank` | ops/release-retention.ts:78-79 | the place in the sorted list is the number of entries with a greater modification time, or the same one and a smaller name |
| `Retention.SortNewestFirst` | ops/release-retention.ts:78 | descending modification times, equal ones in ascending names, the same entries |
| `Retention.OlderGoesFirst` | ops/release-retention.ts:78-89 | of two entries that nothing protects, the older is never kept when the newer is removed |
| `StuckDeploys.StuckExactly` | ops/deploy.ts:190-226 | no deploy of any revision activates exactly when the pending candidate is gone, or selected without its previous release, or unselected without a rollback on record and not a first one that was never restarted |
| `StuckDeploys.ActivatesExactly` | ops/deploy.ts:340-363 | a deploy activates exactly when its release is new and nothing is pending, or when it is the pending candidate, not stuck, and a previous release of a selected candidate still serves |
| `StuckDeploys.StuckForGood` | ops/deploy.ts:298-328 | such a state lasts through every later step, with the same receipt and selector and no other owner |
| `StuckDeploys.CrashAfterReceiptIsStuck` | ops/deploy.ts:193-203 | a crash after the first saved receipt reaches one from every first state with a release selected |
| `StuckDeploys.FailedProbeIsStuck` | ops/deploy.ts:193-203 | so does a failing health check after the receipt, by steps of the deploy alone |
| `CodecFallback.ReselectsExactly` | ops/vps-release-driver.ts:271-276 | the driver may go back to the prior release exactly unless its own call restarted the candidate, or restores, across codecs |
| `CodecFallback.GuardedCallStays` | ops/vps-release-driver.ts:245-269 | over all runs, no step of such a call selects the legacy prior |
| `CodecFallback.ResumedCallFallsBack` | ops/vps-release-driver.ts:246-264 | a run in which Bun was restarted and a later call goes back to the legacy release |
| `StuckDeploys.PruneTakesPrevious` | ops/release-retention.ts:64-66 | with a deploy pending, pruning may take its previous release exactly when the candidate is selected |
| `StuckDeploys.PreviousIsPrunable` | ops/release-retention.ts:78-89 | and does so exactly when, moreover, at least `keep` directories are newer |
| `StuckDeploys.PrunableIsAStep` | ops/release-retention.ts:81-89 | whatever the pruning loop deletes, the transition system may delete |
| `StuckDeploys.PrunedPreviousIsStuck` | ops/deploy.ts:212-221 | then no deploy of any revision activates |
| `StuckDeploys.PendingPreviousIsPruned` | ops/release-retention.ts:64-66 | such a state is reached from every first state with a release selected |
| `ReleaseOps.PinnedSelector` | ops/vps-release-driver.ts:229-334 | over all runs with crashes: while pinned the selector is prior or candidate; candidate only under a durable intent; selected, candidate_ready, ingress_applied and accepted imply the candidate; rolled_back implies the prior and healthy proofs of it on both surfaces |
| `ReleaseOps.OneOwner` | ops/vps-release-journal.ts:133-168 | at every instant at most one pin, every unsettled receipt has its own, two unsettled operations are one |
| `ReleaseOps.OwnersExclude` | ops/deploy.ts:379-391 | no reachable state has both a pin and a deploy recovery receipt, across deploy, driver (ops/vps-release-driver.ts:162) and cutover (ops/first-bun-cutover.ts:121-131) |
| `ReleaseOps.ProtectedReleasesStay` | ops/release-retention.ts:56-92 | no number of pruning runs removes the selected release or a pinned candidate or prior |
| `ReleaseOps.IngressNeverRegresses` | ops/deploy.ts:223-245 | across failed and retried deploys an applied ingress never regresses and the candidate stays selected until acceptance |
| `ReleaseOps.FirstDeploymentStaysSelected` | ops/deploy.ts:247-264 | once a restart was issued for a first deployment, no later run clears its selector before acceptance |
| `ReleaseOps.ReceiptsOnlyAdvance` | ops/vps-release-journal.ts:84-105 | candidate and prior never change, sequences only grow, a terminal receipt is final |
| `ReleaseOps.ReceiptsInOrder` | ops/vps-release-driver.ts:223-334 | over all runs: which phase carries a promotion and which a rollback intent, which carry proofs and which an error, and that observations speak of the receipt's own candidate and a restoration of its own prior release (ops/vps-release-contract.ts:257-315) |
| `ReleaseOps.NextKeeps` | ops/vps-release-driver.ts:144-334 | every step of driver, deploy, cutover claim and pruning, and a crash, keep the invariant |
| `ReleaseOps.DriverRecordsKeeps` | ops/vps-release-driver.ts:223-225 | so does each receipt write, between its two files, lost, or done and thrown |
| `ReleaseOps.DeployActsKeeps` | ops/deploy.ts:193-328 | so does each effect and each decision of the ordinary deploy and its recovery |
| `ReleaseOps.CutoverKeeps` | ops/first-bun-cutover.ts:121-188 | so do the cutover's claim of the pins file and its selector changes |
| `ReleaseFaults.ReceiptMayEnd` | ops/vps-release-driver.ts:223-225 | at every record of the driver, the receipt may be written, be written and throw, or be lost, and where each leads; no other file changes |
| `ReleaseFaults.SaveMayEnd` | ops/deploy.ts:193-264 | the same for every save of the ordinary deploy, with its copy in memory changed first |
| `ReleaseFaults.CutoverMayRun` | ops/first-bun-cutover.ts:121-188 | from every idle state without an owner the cutover can claim the pins file, select its candidate, crash, and be taken up again to go back |
| `ReleasePrograms.DriverWritesAreAdmitted` | ops/vps-release-contract.ts:247-331 | the journal and the parser never refuse a receipt the driver writes on top of the one it read |
| `ReleasePrograms.LockHolder.Prepare` | ops/vps-release-driver.ts:144-212 | refused exactly for a failing outside check, a receipt with another prior, a pending deploy, another selector, another owner or a candidate equal to the prior; otherwise the pin, also one that a crash left, and then the first receipt; the selector is not moved |
| `ReleasePrograms.LockHolder.Activate` | ops/vps-release-driver.ts:229-270 | refused exactly on terminal or rolling-back phases, a prepared receipt whose selector moved and a failing check; otherwise, for every answer of the outside world: the candidate with its ingress applied; the candidate still selected with the rollback pending, exactly when the way back crosses codecs and this call restarted the candidate; or the prior release, rolled back or pending |
| `ReleasePrograms.LockHolder.Restore` | ops/vps-release-driver.ts:285-294 | refused exactly once accepted or failed; across codecs the selector stays and the rollback is pending; otherwise the prior release is selected again, and `rolled_back` carries both healthy proofs |
| `ReleasePrograms.LockHolder.RestoreOwned` | ops/vps-release-driver.ts:271-284 | nothing moves exactly when the call restarted the candidate, or is a restoration, and the way back crosses codecs (ops/vps-release-store.ts:239-249); otherwise the selector is back at the prior, and the receipt is `rolled_back` only if its health was proved |
| `ReleasePrograms.LockHolder.Settle` | ops/vps-release-driver.ts:295-334 | refused exactly when the settlement is not verified, the phase and proofs of the receipt do not support the disposition or an acceptance cannot be proved again; otherwise the receipt is settled, its error kept or set as the disposition says, with the pin gone, also when an earlier crash came between the two |
| `ReleasePrograms.LockHolder.ReleaseAnyPin` | ops/vps-release-driver.ts:295-334 | no pin of a bound operation is stuck: from every reachable state between calls it can be released without moving the selector |
| `ReleasePrograms.LockHolder.RestoreAndRelease` | ops/vps-release-driver.ts:285-334 | and where the prior release can be proved healthy, it can be selected again first |
| `ReleasePrograms.LockHolder.Release` | ops/vps-release-journal.ts:158-168 | the pin left by the operation is never found to be another's |
| `ReleasePrograms.LockHolder.Deploy` | ops/deploy.ts:340-391 | for fresh deploys and retries: activates exactly when the checks before the first write pass, no pin is there, the release, its receipt and the selector are explained, and the check of a previous release after that passes; when only the last one fails, a fresh deploy has left its release and a stuck receipt with the selector unmoved; in every other case nothing changes |
| `ReleasePrograms.LockHolder.RunActivation` | ops/deploy.ts:298-328 | for every answer of the outside world: accepted exactly when the candidate came up and ingress and public identity were proved; an ingress applied by this run or before it keeps the candidate; otherwise the previous selector is back, `rolled_back` exactly when no restart was attempted or the restoration was proved, except after a restart without a previous release or with a legacy one, which keeps the candidate and its receipt |
| `ReleasePrograms.LockHolder.StartCandidate` | ops/deploy.ts:228-245 | ready exactly when reload and readiness succeed; the receipt, flags and selector it leaves, with an applied ingress keeping its phase |
| `ReleasePrograms.LockHolder.RestorePrevious` | ops/deploy.ts:256-281 | nothing moves exactly when a restart was attempted and there is no previous release or a legacy one (269-270); otherwise the previous selector comes back, and `rolled_back` waits for a proof only after a restart |
| `Telemetry.TiledSlices` | ops/vps-metrics-join.ts:57-68 | the pass computes the tiling function |
| `Telemetry.TilesAreAChain` | ops/vps-metrics-join.ts:57-68 | a tiling found is ledger slices laid end to end over the whole range |
| `Telemetry.ChainIsFound` | ops/vps-metrics-join.ts:57-68 | and any such chain in the ledger is the one found |
| `Telemetry.ChainReadsTheJournal` | ops/vps-release-metrics.ts:165-178 | however a range was cut into proven slices, their events are the journal's events in the range, the same number of them |
| `Telemetry.Ledger.Insert` | ops/vps-metrics-join.ts:78-83 | inserts in order and refuses exactly an overlap |
| `Join.SummaryIsDetermined` | ops/vps-release-metrics.ts:203-227 | a set of finished requests has one summary |
| `Join.TimeoutsAtMostTotal` | ops/vps-release-metrics.ts:375-388 | timeouts never exceed failures, for any list of kinds |
| `Join.SummaryMeans` | ops/vps-release-metrics.ts:203-227 | each count is the size of a set of finished requests: those with a status of 500 and more, streams that failed, every failure kind with its requests |
| `Join.TimeoutsMean` | ops/vps-release-metrics.ts:375-388 | the timeouts are the finished requests whose failure kind is in the given list |
| `Join.LessByCharacters` | ops/vps-release-metrics.ts:215 | kinds are compared at the first character that differs, a proper prefix coming first |
| `JoinPass.IndexEvents` | ops/vps-release-metrics.ts:165-178 | refuses exactly on too many events or contradicting facts, and otherwise indexes every admission and terminal |
| `JoinPass.CollectMembers` | ops/vps-release-metrics.ts:179-186 | the members are the admissions of the window with their terminals, each once; pending exactly when one has none |
| `JoinPass.FindOrphanFloor` | ops/vps-release-metrics.ts:187-194 | the greatest of the floor and the times of unexplained terminals less their latency in microseconds and one slice, nothing without such a terminal, and a refusal exactly when one has no latency |
| `JoinPass.FindTerminalLost` | ops/vps-release-metrics.ts:196-202 | lost exactly when an open admission precedes the latest exit mark |
| `JoinPass.JoinTiles` | ops/vps-release-metrics.ts:179-202 | joining shared slices refuses and reports exactly what the undivided journal over the range implies |
| `JoinPass.LifecycleReadsTheJournal` | ops/vps-release-metrics.ts:195 | the latest mark over the slices speaks for every mark of the journal in the range |
| `JoinPass.SortKinds` | ops/vps-release-metrics.ts:215 | kinds strictly ascending, each with its count |
| `JoinPass.Summarize` | ops/vps-release-metrics.ts:203-227 | counts are sizes of sets of finished requests, and always pass the checks made when a summary is stored (ops/vps-metrics-join.ts:158-174) |
| `Windows.WideningKeepsFinished` | ops/vps-release-metrics.ts:179-202 | reading more of a consistent journal changes no count of a completed window and loses no terminal |
| `Windows.CompletionsAgree` | ops/vps-release-metrics.ts:334-352 | two completions of a window over any two ranges have the same counts |
| `Windows.RequestsAreAdmissions` | ops/vps-release-metrics.ts:203-227 | a completed window counts exactly the distinct requests admitted in it |
| `Windows.WindowsAddUp` | ops/vps-release-metrics.ts:203-227 | any run of adjacent completed windows counts exactly the distinct admissions of their union |
| `Windows.SearchEndsInTime` | ops/vps-release-metrics.ts:334-352 | if every terminal's admission lies within its latency, in microseconds, plus one slice, the backward search never reaches the point of giving it up |
| `Collector.EdgesAreBoundaries` | ops/vps-release-metrics.ts:229-236 | the edges of a proven range lie inside no slice |
| `Collector.Anchor` | ops/vps-release-metrics.ts:229-236 | a new window inside a proven slice starts from that slice, any other is left as it is; afterwards both edges are free |
| `Collector.AdoptionAdvances` | ops/vps-release-metrics.ts:303-308 | a slice of the cohort's boot at an edge extends the proven range, which stays tiled with both edges free |
| `Collector.GapIsFree` | ops/vps-release-metrics.ts:319-331 | the interval to read is not empty, meets no slice, and ends at the floor or the end of the journal, after one slice, or at a neighbouring slice |
| `Collector.Examine` | ops/vps-release-metrics.ts:334-350 | lost, finished and unjoinable are decided exactly by the journal over the scanned range; the admission of an unexplained terminal is given up exactly when the scan has gone back to the floor, or past the terminal's time less latency and one slice; otherwise it names the direction to go on |
| `Collector.VpsJournalMetrics.Read` | ops/vps-release-metrics.ts:291-302 | one read is charged to tick and cohort; too many rows are refused (ops/vps-release-metrics.ts:130); the slice kept never collides with the ledger |
| `Collector.VpsJournalMetrics.ReadGap` | ops/vps-release-metrics.ts:319-331 | one read at one edge, never empty, disjoint from every slice and as long as floor, slice length and neighbours allow |
| `Collector.VpsJournalMetrics.Extend` | ops/vps-release-metrics.ts:310-333 | one slice at one edge; stops only at the end of the available journal, out of share or out of time; the measure of unread budget plus unadopted slices drops |
| `Collector.ForwardIsNeeded` | ops/vps-release-metrics.ts:338-349 | where every request has ended by some time, a window that is explained and covered up to it is settled, so the scan never goes further |
| `Collector.VpsJournalMetrics.Scan` | ops/vps-release-metrics.ts:334-352 | terminates; what it settles is true of the journal; it waits only while nothing settles the window and it cannot go on; each refusal has its cause; a tick never exceeds its global or per-cohort share |
| `Sampling.Prune` | ops/vps-metrics-join.ts:92-100 | each ledger keeps exactly the slices that end after its keep mark, and goes when it keeps none |
| `Sampling.KeepFrom` | ops/vps-metrics-join.ts:94-96 | the least of the ledger's mark and the scan starts of its open windows |
| `Sampling.PruningKeepsTilings` | ops/vps-metrics-join.ts:84-100 | pruning leaves the tiling of every collecting cohort unchanged, also when its ledger is dropped |
| `Sampling.PruningKeepsCheckpoint` | ops/vps-metrics-join.ts:92-100 | and keeps the checkpoint valid |
| `Sampling.StoreNeverRefuses` | ops/vps-metrics-join.ts:122-197 | every checkpoint the collector produces passes the structural checks of slice, ledger, cohort and summary, a ledger exactly while it is within the cap on slices |
| `Sampling.AcceptedIsUsable` | ops/vps-metrics-join.ts:122-197 | and the checks ask for enough: every checkpoint that they accept and that is true of the journal is one the collector can go on from |
| `Sampling.AcceptedLedgerInTimeOrder` | ops/vps-metrics-join.ts:122-158 | in an accepted ledger the events and exit marks of a later slice come after those of an earlier one |
| `Join.AcceptedKindsAscend` | ops/vps-metrics-join.ts:158-174 | the kinds of an accepted summary ascend, so none comes twice |
| `Join.AcceptedKindsAreFew` | ops/vps-metrics-join.ts:158-174 | and there are at most as many as requests |
| `Sampling.SampleNeverRefused` | ops/vps-release-metrics.ts:375-388 | counts of a stored summary pass the sample checks (ops/vps-release-contract.ts:203), for any timeout kinds |
| `Sampling.Monitor.ScanWindow` | ops/vps-release-metrics.ts:418-425 | touches no other window, does not rescan a final one, refuses only for a cause, keeps the checkpoint valid |
| `Sampling.Monitor.Sample` | ops/vps-release-metrics.ts:389-437 | counts reported are the journal's over some range; a final window repeats its counts; an unstored sample changes nothing; a baseline window is dropped once counted |
| `Sampling.Monitor.Run` | ops/vps-release-metrics.ts:389-437 | so for every sequence of samples over overlapping windows with any budgets, answers, pruning and reloads |
| `Sampling.Monitor.Await` | ops/vps-release-metrics.ts:274-352 | enough ticks settle a window: with no cause to refuse, every request in it ended within the available journal and no tick cut short, after as many ticks as the journal left to read needs, at 16 reads a tick, the window has its final word |
| `Sampling.SamplesAgree` | ops/vps-release-metrics.ts:389-437 | two samples of one window from any two runs over a consistent journal report the same counts |
| `Workspace.ScopeVerdict` | benchmarks/fixture.ts:163-184 | allowed, denied or silent as the last matching pattern says |
| `Workspace.AllowedIsFlat` | benchmarks/fixture.ts:406-416 | the recursive rule for created directories equals one look at everything changed below |
| `Workspace.UnauthorizedMeans` | benchmarks/fixture.ts:406-416 | an allowed path is never unauthorized, a denied one always; one the patterns are silent on is not exactly when it is a created directory with something changed below and nothing unauthorized there |
| `Workspace.FixtureWorkspace.EnforceWriteScope` | benchmarks/fixture.ts:369-395 | clean exactly when every change is allowed; aborts exactly when some unauthorized path cannot be examined on the tree that the paths restored before it have left, and then leaves the rollback of those; otherwise the tree is the rollback of every unauthorized path, in closed form and in the sense of `RollbackExact`, and the violation names the least path in code-unit order that is no directory, or the least of all |
| `Workspace.FixtureWorkspace.RestoreInOrder` | benchmarks/fixture.ts:376-386 | restoring in order gives the closed form for the paths done so far, at the end and where it stops |
| `Workspace.UndoneStep` | benchmarks/fixture.ts:418-456 | one more restoration, no deeper than those before it, keeps the closed form and the shape of the tree |
| `Workspace.UndoneIsRolledBack` | benchmarks/fixture.ts:369-456 | the closed form moves a path only onto its own snapshot state |
| `Workspace.PlainTreesNeverStop` | benchmarks/fixture.ts:458-503 | where every ancestor is a directory or missing, the rollback never stops, for any links elsewhere |
| `Workspace.FileAncestorStops` | benchmarks/fixture.ts:458-503 | an ancestor that became a file or an opaque entry always stops it |
| `Workspace.LinkAncestorDecides` | benchmarks/fixture.ts:458-503 | a link on the way is a real directory again by then, or decides by the lstat of what it leads to in the tree made by then |
| `Workspace.RestoredTargetStops` | benchmarks/fixture.ts:376-386 | an input that nothing obstructs when the command ends, and on which the rollback stops |
| `Workspace.RestoredTargetHeals` | benchmarks/fixture.ts:376-386 | an input whose only obstruction is gone by the time the path is reached |
| `FileTree.FirstNonDirectory` | benchmarks/fixture.ts:774-781 | the first prefix that is not a directory decides an lstat: missing below a missing one, a fault below a file or an opaque entry |
| `FileTree.RelativeLinkLeads` | benchmarks/fixture.ts:774-781 | below real directories, an lstat through a relative link is that of the names of the link read from the link's own directory, each leading `..` from one parent further up, and the rest of the path |
| `FileTree.RootLinkLeads` | benchmarks/fixture.ts:774-781 | through a link to a path from the workspace root, that of this path and the rest |
| `FileTree.OtherLinksLead` | benchmarks/fixture.ts:774-781 | a link out of the workspace, and one too many on the way, are decided without the tree |
| `FileTree.GroundedLstat` | benchmarks/fixture.ts:774-781 | below real directories, lstat answers for the path itself |
| `FileTree.PlainWalk` | benchmarks/fixture.ts:774-781 | ancestors that are directories or missing never make it fail |
| `Workspace.FixtureWorkspace.RestoreEntry` | benchmarks/fixture.ts:418-456 | one path back to its snapshot state, never writing or removing through a link |
| `Workspace.FixtureWorkspace.RestoreRealAncestors` | benchmarks/fixture.ts:520-531 | every ancestor becomes a real directory and nothing else changes |
| `Workspace.FixtureWorkspace.MakeDirectory` | benchmarks/fixture.ts:525-527 | replaces whatever is at the path by a directory and touches nothing else |
| `Workspace.FixtureWorkspace.HasRealDirectoryAncestors` | benchmarks/fixture.ts:505-512 | exactly when every ancestor is a real directory |
| `Workspace.FixtureWorkspace.ReachEveryPrefix` | benchmarks/fixture.ts:458-503 | the walk fails exactly when the lstat of some prefix does |
| `Workspace.RestoredMovesTowardSnapshot` | benchmarks/fixture.ts:418-456 | restoring a path settles it and moves any other path only onto its own snapshot state |
| `Workspace.ReportedPath` | benchmarks/fixture.ts:393-394 | the first path in code-unit order that is not a directory, or the first of all when all are |
| `Workspace.DeepestFirst` | benchmarks/fixture.ts:381-385 | every unauthorized path once, deepest first, then in code-unit order |
| `Workspace.RollbackExact` | benchmarks/fixture.ts:369-456 | what still differs from the snapshot was allowed to change and is as the command left it, or was an opaque entry |
| `Workspace.EnforcementIsStable` | benchmarks/fixture.ts:369-456 | a second enforcement is clean exactly when no unauthorized path was opaque before |
| `Workspace.FileOverDirectoryAborts` | benchmarks/fixture.ts:774-781 | a directory replaced by a file makes the restoration of what was below it throw |
| `Workspace.OpaqueEntryIsLost` | benchmarks/fixture.ts:454-456 | a deleted opaque entry is not restored |
| `Canonical.CanonicalTextsDecide` | ops/vps-release-contract.ts:333-344 | two JSON values have one canonical text exactly when they are equal up to key order |
| `Canonical.TextsArePrefixFree` | ops/vps-release-contract.ts:333-344 | canonical texts followed by a delimiter can be read back: equal concatenations come from equal values |
| `Canonical.StringsArePrefixFree` | ops/vps-release-contract.ts:339-343 | escaped strings determine their text and where they end |
| `Canonical.SameMeansSameText` | ops/vps-release-contract.ts:333-344 | values equal up to key order have the same text |
| `Canonical.SortingOrders` | ops/vps-release-contract.ts:337-339 | keys are sorted by the comparison |
| `JsonReader.CanonicalReadsBack` | ops/vps-release-contract.ts:333-344 | the canonical text is JSON: a reader written apart from the serializer finds in it, with nothing left over, the same value with its keys sorted at every depth |
| `JsonReader.TextsReadBack` | ops/vps-release-contract.ts:333-344 | the same inside a longer text |
| `JsonReader.StringsReadBack` | ops/vps-release-contract.ts:339-343 | every string, surrogates and control characters included, is read back from its quoted form |
| `JsonReader.QuotedIsShortest` | ops/vps-release-contract.ts:339-343 | for a well-formed string no JSON text with that reading is shorter than the quoted form |
| `JsonReader.QuotedIsWellFormed` | ops/vps-release-contract.ts:345-348 | the quoted form has no lone surrogate, so its digest is taken of bytes that determine it |
| `JsonReader.CapitalsAreCopied` | ops/vps-release-contract.ts:339-343 | escapes use lower-case digits |
| `JsonReader.ReadValuesAreValid` | ops/vps-release-contract.ts:333-344 | every value that a reader finds in any text meets the conditions of these laws |
| `JsonReader.RefusedExactly` | ops/vps-release-contract.ts:333-344 | refused exactly when the value is `undefined` or an item or a field value is refused |
| `SpecDrift.CollectProperties` | scripts/check-openai-spec-drift.ts:80-90 | exactly the own properties of every schema reachable through `$ref` and `allOf`; fails exactly when a nameless reference is reachable; terminates on cycles |
| `SpecDrift.Walk.Collect` | scripts/check-openai-spec-drift.ts:80-90 | one call with a shared `seen` set contributes exactly what it met first |
| `SpecDrift.ClosedHoldsPath` | scripts/check-openai-spec-drift.ts:80-90 | a closed `seen` set holds everything reachable from it |

## Left out

- Process spawning, systemd, Caddy, HTTP health probes, sandbox profiles and the lock itself: outcomes
  of the outside world are free, and the lock is exclusive.
- Digests, archives, release manifests, SQLite and the codecs: contents are values, a conversion keeps
  them and may crash between publishing its destination and its receipt.
- Cutover: the copies `legacy-before`, `bun-latest` and those moved aside are not tracked, since no step
  reads them back; coordinator settlement of the cutover's pin is not part of the repository's code.
- Release profiles and schemas: a release is a legacy one or not, and stays so.
- CutoverOperator.Operator.PerformFirstBunCutover: is the run in which nothing fails; the failing ones are
  covered by the transition system and by `CutoverTransition.Supervisor.Execute`.
- ReleasePrograms.DriverWritesAreAdmitted: leaves out timestamps, so that a clock that goes back, which makes
  the journal refuse, is one of the outside failures.
- Collector.VpsJournalMetrics.Read: caps the projected events of one release, where the source caps the raw
  journal lines of the read; more lines than that are an unavailable answer.
- Receipts: timestamps, request digests, controller and driver hashes are not modelled; a receipt with
  an undefined `restart_issued` counts as issued, as the source has it.
- Times in the join are microseconds since the journal's own stamps are; caps on stored bytes, the
  coverage digest, the progress report and checkpoint encryption and expiry are left out.
- Permission modes and glob matching in the workspace rollback: a pattern is any predicate on paths, and
  code-unit order any strict total order.
- Links that lead out of the workspace: whether a walk fails outside is a given of the environment, and a
  walk that leaves does not come back.
- Numbers in the serializer are their JSON tokens (0 and -0 are one, NaN and infinities are not JSON).
- The Mac deploy, native builds, guest probes, replay, auth repair, command-line scripts and benchmark
  metrics: input and output, or easy counting.
