# A verified model of the Cosmos operator's decision logic

The operator runs blockchain nodes on Kubernetes. Its controllers decide which pods to create, delete or update, when
to take a node down for a volume snapshot, when to start a recovery script, which image and halt height a node gets,
and how its storage grows. This project models those decisions in Dafny and proves what they promise over every input
and every sequence of steps. Calls to the API server become inputs or nondeterministic answers; an answer may be an
error although the request took effect. Clocks are inputs.

`dafny verify dfyconfig.toml` checks the whole project.

| file | part of the operator |
|---|---|
| `Names.dfy` | names of pods and volume claims, bytes in and bytes out |
| `Rollout.dfy`, `Diff.dfy` | the disruption budget; creates, deletes and updates between two sets of objects |
| `PodControl.dfy`, `RollingUpdate.dfy`, `PodReconcile.dfy`, `RolloutPlan.dfy` | the pod controller: update phase, what it guarantees, whole reconcile, which pods exactly |
| `StatusCache.dfy`, `Drift.dfy` | the polled node statuses, what the controllers read from them, height drift |
| `SnapshotControl.dfy`, `SnapshotProtocol.dfy` | one scheduled-snapshot reconcile; the two-controller protocol |
| `StatusSync.dfy` | concurrent writers of one CosmosFullNode status |
| `RateLimiter.dfy`, `RecoveryControl.dfy`, `RecoveryRuns.dfy` | the attempt limiter; one stuck-height reconcile; whole runs |
| `Versions.dfy`, `BuildPods.dfy` | version, halt-height and image selection; which pods are built |
| `Storage.dfy`, `PvcControl.dfy` | growing volumes; building, creating, deleting and resizing claims |

## Where the code differs from its documentation or from the obvious claim

- A stored Kubernetes time keeps whole seconds, so an interval of the rate-limit window's length can hold 2·MaxRetries
  attempts, not 2·MaxRetries − 1. `RateLimiter.SlidingBoundExactly` gives the interval lengths for which the smaller
  bound holds: those at most the window's length less what a stored time loses.
- A StuckHeightRecovery leaves the Suspended phase only when looking up its CosmosFullNode fails
  (`RecoveryRuns.LeavingSuspended`); clearing `suspend` alone does nothing.
- A changed height whose status write is lost is forgotten, and the old height can then be declared stuck
  (`RecoveryRuns.LostWriteRun`). `RecoveryRuns.StuckOnlyWhenStuck` therefore speaks of kept observations, and
  `RecoveryRuns.ObservationsAgreeExactly` says that all of them agree iff none was lost.
- A recovery pod deleted by someone else while its attempt is in flight can be launched again on the same attempt
  (`RecoveryRuns.DeletedPodRun`); `RecoveryRuns.LaunchesArePaid` counts those deletions.
- The image check ignores the `containers` map of a version and the image override of an instance, both of which the
  pod builder applies. `Versions.AcceptedExactly`, `Versions.OverrideAcceptedExactly` and
  `Versions.UnreportedAcceptedExactly` say exactly when the two agree at every height.
- The search for a version and the scan agree at every height exactly on strictly ascending lists
  (`Versions.SearchEqualsScanExactly`).
- Auto-scaling promises to patch up to the maximum size, but the request is padded by 2% after capping, so a volume
  ends at 1.02 times the maximum (`Storage.CapIsPadded`). The "already requested" test compares for equality, and
  with the size before capping, so a capped request is repeated (`Storage.RepeatedSignal`).
- `Collect` compacts and extends a slice it shares with the cache. The cache keeps one entry per pod exactly if no
  entry past the number of listed pods is itself listed (`StatusCache.CacheStaysDistinct`), as after a pod was
  recreated; otherwise the next `Collect` counts a pod twice (`StatusCache.SecondCollectExactly`).
- A fullnode reconcile that creates a pod from a read made before the pod was held breaks the snapshot protocol exactly
  if the snapshot has confirmed the pod's deletion by then (`SnapshotProtocol.StaleCreateExactly`), and a snapshot of
  a volume in use can follow (`SnapshotProtocol.StaleReadIsReachable`).
- Pointing a waiting ScheduledVolumeSnapshot at another fullnode confirms the deletion of a pod that is still up
  (`SnapshotProtocol.MovedRefConfirmsEarly`).
- A claim patch that fails is passed over and does not requeue (`PvcControl.SendPatches`).
- The list of deleted claims handed to the status update also names the claims just created (`PvcControl.Reconcile`).

## Model

| member | source | states |
|---|---|---|
| `Names.NormalizeValue` | internal/kube/labels.go:73-97 | the in-place byte filter with its two trimming loops computes the filtered, end-trimmed, middle-cut value |
| `Names.SpliceMiddle` | internal/kube/labels.go:100-112 | the cut keeps limit/2 bytes on the left and the rest on the right, at most `limit` in all |
| `Names.AppendTail` | internal/kube/labels.go:100-112 | copying the tail forward inside the same buffer does not corrupt it |
| `Names.PermittedConcat` | internal/kube/labels.go:74-85 | the filter works byte by byte |
| `Names.PermittedByte` | internal/kube/labels.go:78-84 | a byte passes iff it is alphanumeric or allowed |
| `Names.NormalizeExactly` | internal/kube/labels.go:73-112 | the permitted bytes without punctuation at either end and, if too long, limit/2 bytes of the left and the rest of the right end |
| `Names.ToNameIsValid` | internal/kube/labels.go:50-52 | at most 253 bytes, permitted bytes only, alphanumeric ends |
| `Names.ToNameFixedPoints` | internal/kube/labels.go:50-52 | a name is left unchanged iff it is legal |
| `Names.ToNameIdempotent` | internal/kube/labels.go:50-52 | normalising twice is normalising once |
| `Names.InstanceNameKeepsOrdinal` | internal/fullnode/labels.go:39-45 | the decimal ordinal is recovered from a pod name, even after middle truncation |
| `Names.PvcNameKeepsOrdinal` | internal/fullnode/pvc_builder.go:99-102 | the same for claim names |
| `Names.DecimalRoundTrip` | internal/fullnode/labels.go:43-45 | printing an ordinal and reading it back is the identity |
| `Names.InstanceNameInjective` | internal/fullnode/labels.go:39-45 | two ordinals share a pod name iff they are equal, for every CRD name |
| `Names.PvcNameInjective` | internal/fullnode/pvc_builder.go:99-102 | two ordinals share a claim name iff they are equal |
| `Names.NamesSurviveNormalizeMetadata` | internal/kube/labels.go:57-70 | the name looked up before metadata normalisation is the name the object ends with |
| `Rollout.ComputeRollout` | internal/kube/rollout.go:18-47 | the largest number that may be taken down while the floor stays ready; the clauses fix the value |
| `Rollout.UnavailableExactly` | internal/kube/rollout.go:26-36 | a quarter by default, percentages rounded down, at least 1 |
| `Diff.ToSet` | internal/diff/diff.go:130-146 | the map has as many entries as the list iff no key repeats |
| `Diff.SortResources` | internal/diff/diff.go:148-153 | the same resources, ascending by ordinal |
| `Diff.Missing` | internal/diff/diff.go:60-86 | exactly the resources the other side lacks, sorted, in any map order |
| `Diff.Changed` | internal/diff/diff.go:94-116 | exactly the wanted resources with another revision, sorted |
| `Diff.New` | internal/diff/diff.go:34-51 | panics iff a key repeats; otherwise the three lists are exactly the missing, surplus and outdated resources |
| `Diff.Partition` | internal/diff/diff.go:34-116 | every key is in exactly one of creates, deletes, updates and unchanged |
| `Diff.Converges` | internal/diff/diff.go:34-116 | once a diff is carried out, a diff against the same want is empty |
| `Diff.OrderIndependent` | internal/diff/diff.go:60-116 | creates and updates do not depend on the map iteration order |
| `PodControl.DeleteAndMark` | internal/fullnode/pod_control.go:139-144 | one deletion and its mark in the status map, whether or not the API call fails |
| `PodControl.Survey` | internal/fullnode/pod_control.go:105-154 | counts of in-sync and reachable pods, the bypass deletions and the pods set aside, all as the plan says |
| `PodControl.DeleteBudgeted` | internal/fullnode/pod_control.go:175-190 | deletes a prefix of the pods set aside, within the budget |
| `PodControl.RollOut` | internal/fullnode/pod_control.go:104-199 | carries out a prefix of the plan; fails iff a call did, and otherwise carries out all of it and requeues iff an outdated pod is left |
| `RolloutPlan.PlanExactly` | internal/fullnode/pod_control.go:113-190 | a pod is deleted iff it is out of reach and waits for another image, or the budget left by those reaches its place in the queue |
| `RolloutPlan.ReadyMeans` | internal/fullnode/pod_control.go:156-161 | the ready count is the number of live in-sync pods or, with none, of live pods with an error-free status |
| `RolloutPlan.WithinBudget` | internal/fullnode/pod_control.go:163-190 | of the reachable or image-keeping pods exactly as many are deleted as the budget has room for |
| `RolloutPlan.MarksExactly` | internal/fullnode/pod_control.go:142-143 | every deleted pod is marked with the reason, every other status entry stays |
| `RollingUpdate.TerminateCost` | internal/fullnode/pod_control.go:175-190 | a deletion costs one in-sync pod iff the pod was in sync |
| `RollingUpdate.BypassOutOfSync` | internal/fullnode/pod_control.go:131-147 | the upgrade bypass for unreachable pods never takes down an in-sync pod |
| `RollingUpdate.FloorKept` | internal/fullnode/pod_control.go:104-199 | a round, cut short anywhere, leaves min(in sync before, replicas − max(1, maxUnavailable)) in sync |
| `RollingUpdate.FloorOverRuns` | internal/fullnode/pod_control.go:104-199 | over any run availability falls below the floor only by what other causes took from below it |
| `RollingUpdate.MarksKeepCount` | internal/fullnode/pod_control.go:142-143 | marking deleted pods does not change which remaining pods count as in sync |
| `RollingUpdate.ProgressExactly` | internal/fullnode/pod_control.go:156-190 | a round deletes something iff a pod is bypassed, or one waits and more are ready than the floor |
| `RollingUpdate.UpdateCount` | internal/fullnode/pod_control.go:104-154 | there are as many updates as outdated pods |
| `RollingUpdate.HealthyPlan` | internal/fullnode/pod_control.go:104-199 | with all replicas in sync the plan is the first min(outdated, max(1, maxUnavailable)) outdated pods |
| `RollingUpdate.BehindAfter` | internal/fullnode/pod_control.go:104-199 | the outdated pods after a round are those before it that the round left alone |
| `RollingUpdate.OneRound` | internal/fullnode/pod_control.go:104-199 | an error-free round of the plan, its pods recreated in any list order: that many fewer are outdated; requeue iff some were left alone |
| `RollingUpdate.RolloutConverges` | internal/fullnode/pod_control.go:99-202 | after k such rounds max(0, outdated − k·max(1, maxUnavailable)) are outdated, strictly fewer each round; requeue is false exactly in the round that deletes the rest |
| `PodReconcile.PlanCovers` | internal/fullnode/pod_control.go:165-195 | as many deletions as updates iff every outdated pod is deleted |
| `PodReconcile.CoveredIsSettled` | internal/fullnode/pod_control.go:192-202 | with every outdated pod deleted the cluster matches the spec or is on its way |
| `PodReconcile.Scale` | internal/fullnode/pod_control.go:69-97 | scaling never touches a wanted pod and, unless a call fails, creates every missing pod, deletes every surplus one and drops its status |
| `PodReconcile.Update` | internal/fullnode/pod_control.go:104-199 | the update phase follows the plan, all of it unless a call fails; no requeue and no error means settled |
| `PodReconcile.Reconcile` | internal/fullnode/pod_control.go:48-203 | scaling excludes updating; fails iff a call did; otherwise each phase is carried out in full and requeue is false exactly when nothing is left |
| `StatusCache.IntersectPods` | internal/cosmos/status_collection.go:71-90 | compacts the kept items in place and leaves the rest of the backing array |
| `StatusCache.UpsertPod` | internal/cosmos/status_collection.go:55-67 | replaces the pod of an item with the same UID, else appends an errored item; what the backing array holds afterwards |
| `StatusCache.Collect` | internal/cosmos/cache_controller.go:169-180 | the cached collection narrowed to the listed pods and completed; what the shared backing array holds afterwards |
| `StatusCache.CollectedExactly` | internal/cosmos/status_collection.go:55-90 | one item per listed UID, survivors as polled, newcomers errored |
| `StatusCache.CollectedSize` | internal/cosmos/cache_controller.go:169-180 | as many items as listed pods |
| `StatusCache.CacheStaysDistinct` | internal/cosmos/cache_controller.go:169-180 | after the whole call the cache shows distinct UIDs iff no cached item past the number of listed pods is listed |
| `StatusCache.SecondCollectExactly` | internal/cosmos/cache_controller.go:169-180 | the next collection counts each pod once iff the same holds |
| `StatusCache.SecondCollectCountsTwice` | internal/cosmos/cache_controller.go:169-180 | a synced pod reported twice |
| `StatusCache.SyncInfoStatus` | internal/fullnode/status.go:25-50 | the status map, later items winning |
| `StatusCache.SyncedExactly` | internal/cosmos/status_collection.go:98-110 | exactly the items polled without an error and caught up, in order |
| `StatusCache.EntryMeans` | internal/fullnode/status.go:34-47 | the entry of a listed pod says what was polled from its own UID, and is an error otherwise |
| `StatusCache.SyncInfoTrustworthy` | internal/fullnode/status.go:25-50 | an entry for exactly the listed pods, never in sync and in error, in sync iff a status of that very UID says it has caught up |
| `Drift.NoUnderflow` | internal/fullnode/drift_detection.go:32-48 | no height exceeds the maximum, so the unsigned subtraction cannot wrap |
| `Drift.LaggingExactly` | internal/fullnode/drift_detection.go:32-48 | the first min(m, b) synced pods, in order, that trail the maximum by the threshold: m do, b is the budget |
| `Drift.MitigatesExactly` | internal/fullnode/drift_detection.go:37-47 | something is returned iff a synced pod lags and more pods are available than the floor |
| `Drift.ReturnedAreLagging` | internal/fullnode/drift_detection.go:32-48 | every returned pod is synced and trails the maximum by the threshold |
| `Drift.TopIsSpared` | internal/fullnode/drift_detection.go:32-48 | with a threshold of at least 1 no pod at the maximum height is returned |
| `Drift.DriftKeepsFloor` | internal/fullnode/drift_detection.go:32-48 | deleting the result leaves min(available, floor) available synced pods |
| `SnapshotControl.FindCandidate` | internal/volsnapshot/vol_snapshot_control.go:54-93 | none iff fewer are synced than minAvailable (2 by default) or the fixed ordinal is not among them; else that ordinal, or the first |
| `SnapshotControl.SourceKeyInjective` | internal/volsnapshot/fullnode_control.go:91-95 | snapshots of one namespace share a status key iff they are the same |
| `SnapshotControl.ScheduledSnapshot.Reconcile` | controllers/scheduledvolumesnapshot_controller.go:86-206 | one reconcile is exactly one step of the phase machine |
| `SnapshotProtocol.NobodyMounts` | internal/fullnode/pvc_builder.go:99-102 | with the candidate pod gone no other pod mounts its claim |
| `SnapshotProtocol.StepStaysCoherent` | controllers/scheduledvolumesnapshot_controller.go:99-206 | one reconcile keeps phase, candidate, hold and listed pods consistent, whatever the API answers |
| `SnapshotProtocol.StepKeepsInv` | controllers/scheduledvolumesnapshot_controller.go:86-206 | every step of either controller, of users and of the cluster keeps the protocol's invariant |
| `SnapshotProtocol.RunKeepsInv` | controllers/scheduledvolumesnapshot_controller.go:86-206 | it holds in every reachable state |
| `SnapshotProtocol.QuietVolumes` | controllers/scheduledvolumesnapshot_controller.go:146-163 | every snapshot ever requested was requested unsuspended and, in a deletePod cycle, with no pod on the volume |
| `SnapshotProtocol.CandidateStaysGone` | internal/fullnode/build_pods.go:20-37 | from confirmed deletion to release the candidate pod does not exist and its claim is unused |
| `SnapshotProtocol.HoldsMatchPhases` | internal/volsnapshot/fullnode_control.go:33-70 | a hold names its own candidate, stands in the post-signal phases of deletePod cycles, never while waiting, searching or suspended |
| `SnapshotProtocol.NeverDereferencesNil` | controllers/scheduledvolumesnapshot_controller.go:99-206 | candidate and last snapshot are set wherever they are dereferenced |
| `SnapshotProtocol.CycleBeginsExactly` | controllers/scheduledvolumesnapshot_controller.go:99-153 | each phase up to the snapshot is entered iff its own reason holds |
| `SnapshotProtocol.CycleEndsExactly` | controllers/scheduledvolumesnapshot_controller.go:155-190 | each phase from the snapshot on is entered iff its own reason holds; restoring only once it is ready or gone |
| `SnapshotProtocol.WritesExactly` | controllers/scheduledvolumesnapshot_controller.go:123-163 | when a snapshot is requested, its name stored and a candidate chosen |
| `SnapshotProtocol.HoldsExactly` | internal/volsnapshot/fullnode_control.go:33-52 | when the hold is set and when it is removed |
| `SnapshotProtocol.SuspendRestores` | internal/volsnapshot/status.go:11-28 | a suspended reconcile requests nothing and gives the pod back |
| `SnapshotProtocol.MissingCRDsDoNothing` | controllers/scheduledvolumesnapshot_controller.go:89-94 | without the CRDs only the phase changes |
| `SnapshotProtocol.HeldUntilReady` | controllers/scheduledvolumesnapshot_controller.go:165-206 | on every run a hold is released only by its own snapshot, because Suspend was set or the snapshot was reported ready or gone |
| `SnapshotProtocol.DeletePodCycleCompletes` | controllers/scheduledvolumesnapshot_controller.go:123-190 | with calls acknowledged a deletePod cycle holds its candidate, waits while the pod is listed, requests one snapshot once it is gone, releases the hold and leaves other holds alone |
| `SnapshotProtocol.PlainCycleCompletes` | controllers/scheduledvolumesnapshot_controller.go:123-190 | a cycle without deletePod requests one snapshot and touches no hold |
| `SnapshotProtocol.MovedRefConfirmsEarly` | internal/volsnapshot/fullnode_control.go:75-89 | pointing a waiting snapshot at another fullnode confirms at once and requests a snapshot of a volume in use |
| `SnapshotProtocol.StaleCreateExactly` | internal/fullnode/build_pods.go:20-37 | creating a pod from a stale read is harmless iff no snapshot holds it with confirmed deletion |
| `SnapshotProtocol.StaleReadIsReachable` | internal/fullnode/build_pods.go:20-37 | a run on which a stale read leads to a snapshot request while a pod mounts the volume |
| `StatusSync.PutHeights` | controllers/cosmosfullnode_controller.go:238-245 | heights plus one for every pod that reported, others kept |
| `StatusSync.DropSizes` | controllers/cosmosfullnode_controller.go:246-250 | drops exactly the listed claims' requests |
| `StatusSync.StatusObject.UpdateFromReconcile` | controllers/cosmosfullnode_controller.go:232-251 | which status fields a fullnode reconcile touches, and how |
| `StatusSync.StatusObject.RequestResize` | internal/fullnode/pvc_auto_scaler.go:99-107 | adds its requests and touches nothing else |
| `StatusSync.StepKeepsInv` | internal/fullnode/status_client.go:42-55 | mutual exclusion, one write per turn, each write on the version it read |
| `StatusSync.NoLostUpdate` | internal/fullnode/status_client.go:42-55 | for every interleaving the stored status is all accepted updates applied one by one, in acquire order |
| `StatusSync.LastSignalWins` | internal/volsnapshot/fullnode_control.go:33-52 | a hold is decided by its own snapshot's last signal, whatever others wrote |
| `StatusSync.LastSizeWins` | internal/fullnode/pvc_auto_scaler.go:99-107 | a requested size survives all but a later request or the clean-up naming that claim |
| `StatusSync.LastHeightWins` | controllers/cosmosfullnode_controller.go:238-245 | a height is one above what the last reconcile reported or what was patched since, and survives writers without one |
| `StatusSync.LastReconcileWins` | controllers/cosmosfullnode_controller.go:232-237 | phase, message, peers and sync info are those of the last fullnode update |
| `RateLimiter.AttemptKeeps` | internal/stuckheight/rate_limiter.go:41-118 | a permitted attempt keeps every window within the maximum and windows a length apart |
| `RateLimiter.CounterBounded` | internal/stuckheight/rate_limiter.go:71-83 | the counter is at most the maximum, and zero iff there is no window |
| `RateLimiter.SlidingGap` | internal/stuckheight/rate_limiter.go:41-118 | 2·max attempts in a row span a window's length, less precision and skew |
| `RateLimiter.SlidingRateBound` | internal/stuckheight/rate_limiter.go:41-118 | any interval that long holds at most 2·max − 1 attempts |
| `RateLimiter.SlidingBoundExactly` | internal/stuckheight/rate_limiter.go:41-118 | intervals of length d hold at most 2·max − 1 attempts on every run iff d is at most the window less the precision of stored times |
| `RateLimiter.SlidingBoundIsSharp` | internal/stuckheight/rate_limiter.go:41-118 | 2·max − 1 is attained for every maximum |
| `RateLimiter.TruncationOvershoots` | internal/stuckheight/rate_limiter.go:89-118 | a longer interval can hold 2·max attempts, for every maximum, window and precision |
| `RateLimiter.DefaultRate` | internal/stuckheight/rate_limiter.go:27-30 | by default at most five attempts in every interval of up to 299.000000001 seconds, and six in some longer one |
| `RecoveryControl.CheckStuckHeight` | internal/stuckheight/height_monitor.go:41-89 | stuck iff a nonzero picked height equals the stored one and its time is old enough |
| `RecoveryControl.StuckHeightRecovery.Reconcile` | controllers/stuckheightrecovery_controller.go:74-149 | one reconcile is exactly one step of the ten-phase machine |
| `RecoveryRuns.StepStaysFaithful` | controllers/stuckheightrecovery_controller.go:159-178 | the stored height and time are those of the last change among kept observations |
| `RecoveryRuns.StepStaysPaid` | controllers/stuckheightrecovery_controller.go:201-357 | every launch is covered by an attempt or a disturbance, in every step |
| `RecoveryRuns.StepKeepsCycle` | controllers/stuckheightrecovery_controller.go:201-311 | an attempt in flight has its snapshot taken, then ready, in order |
| `RecoveryRuns.StepKeepsRate` | controllers/stuckheightrecovery_controller.go:207-225 | every step keeps the rate-limit history |
| `RecoveryRuns.RateBound` | controllers/stuckheightrecovery_controller.go:207-225 | over every run: counter within the maximum, every tumbling window too, and the sliding bound |
| `RecoveryRuns.StuckOnlyWhenStuck` | internal/stuckheight/height_monitor.go:51-88 | a height declared stuck was observed long enough before, with no other kept observation since |
| `RecoveryRuns.ObservationsAgreeExactly` | internal/stuckheight/height_monitor.go:51-88 | all observations before a declaration, back to the one that justifies it, agree iff none was lost |
| `RecoveryRuns.LostExactly` | controllers/stuckheightrecovery_controller.go:159-178 | an observation is lost iff it differs from the stored height and its write does not take effect |
| `RecoveryRuns.KnownHeightHasTime` | internal/stuckheight/height_monitor.go:77-80 | the branch for a known height without a time is unreachable |
| `RecoveryRuns.LaunchesArePaid` | controllers/stuckheightrecovery_controller.go:201-357 | launches never outnumber recorded attempts plus pods deleted by others mid-attempt |
| `RecoveryRuns.SnapshotFirst` | controllers/stuckheightrecovery_controller.go:245-357 | an attempt begun with CreateVolumeSnapshot launches only after a snapshot of the claim it mounts was ready |
| `RecoveryRuns.LeavingSuspended` | controllers/stuckheightrecovery_controller.go:90-149 | Suspended is left iff the fullnode lookup fails while not suspended and the write takes effect |
| `RecoveryRuns.SuspendFreezes` | controllers/stuckheightrecovery_controller.go:90-101 | a suspended reconcile changes nothing but the phase, to Suspended |
| `RecoveryRuns.NothingWhileSuspended` | controllers/stuckheightrecovery_controller.go:90-116 | on every run every observation, attempt, snapshot and launch comes from an unsuspended reconcile that found the fullnode |
| `RecoveryRuns.PhasesEnteredExactly` | controllers/stuckheightrecovery_controller.go:118-461 | the exact condition under which each phase is entered |
| `RecoveryRuns.NamesFollowPhases` | controllers/stuckheightrecovery_controller.go:152-430 | which pod and snapshot names the status holds: set on entering a phase, cleared on returning to monitoring |
| `RecoveryRuns.LostWriteHidesChange` | controllers/stuckheightrecovery_controller.go:167-178 | from any monitoring state a lost write makes a changed height look unchanged |
| `RecoveryRuns.LostWriteRun` | controllers/stuckheightrecovery_controller.go:152-199 | a run from a fresh start that declares a height stuck across a different observation |
| `RecoveryRuns.DeletedPodLaunchesTwice` | controllers/stuckheightrecovery_controller.go:330-354 | from any running attempt a lost write and a deleted pod launch twice |
| `RecoveryRuns.DeletedPodRun` | controllers/stuckheightrecovery_controller.go:201-357 | a run from a fresh start with one recorded attempt and two launches |
| `Versions.FindVersion` | internal/fullnode/pod_builder.go:213-224 | the first listed among the highest upgrades at or below the height |
| `Versions.HaltHeight` | internal/fullnode/configmap_builder.go:42-62 | the loop with its break and last-index reset yields the next listed upgrade above the height, if it asks to halt |
| `Versions.CheckVersion` | cmd/versioncheck.go:169-186 | accepts a pod iff its node image is that of the last version passed, or the template's |
| `Versions.SearchEqualsScanExactly` | internal/fullnode/pod_builder.go:213-224 | the scan finds the version of the search at every height iff upgrade heights strictly ascend |
| `Versions.HaltIsAhead` | internal/fullnode/configmap_builder.go:47-61 | for any list a nonzero halt height is above the node's height |
| `Versions.NoPlanKeepsHalt` | internal/fullnode/configmap_builder.go:42-62 | without versions the configured halt height stays |
| `Versions.HaltIsNextUpgrade` | internal/fullnode/configmap_builder.go:47-61 | ascending lists: the least upgrade above; the selected version is constant before it and changes at it |
| `Versions.NoHaltExactly` | internal/fullnode/configmap_builder.go:47-61 | no halt iff every halting upgrade ahead is preceded by one that does not halt |
| `Versions.SetImage` | internal/fullnode/build_pods.go:63-77 | overwrites the first container of that name and no other |
| `Versions.SetImages` | internal/fullnode/build_pods.go:44-60 | overwrites each named container, whatever the map order |
| `Versions.SetChainContainerImages` | internal/fullnode/build_pods.go:41-61 | a version's own entry for the node container beats its image |
| `Versions.BuildImages` | internal/fullnode/pod_builder.go:243-264 | version images at the reported height, then the instance override |
| `Versions.BuiltNodeImage` | internal/fullnode/pod_builder.go:243-264 | what the node container of a built pod runs |
| `Versions.InitImageAt` | internal/fullnode/build_pods.go:44-77 | what the chain-init container runs |
| `Versions.AcceptedIsVerdict` | cmd/versioncheck.go:169-186 | acceptance of a built pod is agreement of built and scanned image |
| `Versions.AcceptedExactly` | cmd/versioncheck.go:169-175 | built pods are accepted at every height iff no version gives the node container another image |
| `Versions.OverrideAcceptedExactly` | internal/fullnode/pod_builder.go:252-264 | an override is accepted at every height iff all versions, and the template below them, run it |
| `Versions.UnreportedAcceptedExactly` | internal/fullnode/pod_builder.go:243-250 | an unreported node's pod is accepted at every height iff all versions run the template's image |
| `BuildPods.PodCandidates` | internal/fullnode/build_pods.go:79-85 | exactly the pods named by some hold |
| `BuildPods.BuildPods` | internal/fullnode/build_pods.go:15-39 | exactly the enabled, unheld instances, ordered, under names that never repeat |
| `BuildPods.BuildsWhatTheProtocolAllows` | internal/fullnode/build_pods.go:20-37 | these are the pods the snapshot protocol lets the controller create |
| `Storage.AutoScaleStatus.SignalPVCResize` | internal/fullnode/pvc_auto_scaler.go:44-108 | which sizes are requested, when it patches and when it reports an error |
| `Storage.PatchedExactly` | internal/fullnode/pvc_auto_scaler.go:58-93 | a claim is patched iff a usage of it is at the trigger, below any maximum and not requested already, with the size its last such usage wants |
| `Storage.JudgeMeans` | internal/fullnode/pvc_auto_scaler.go:59-93 | the size asked for in arithmetic: capacity in whole bytes plus the rounded percentage or the amount, at most the maximum; the error case |
| `Storage.RequestIsLargest` | internal/fullnode/pvc_builder.go:104-133 | a request is the largest of the template, the existing size and 102 hundredths of what was requested |
| `Storage.StepStaysBounded` | internal/fullnode/pvc_builder.go:104-133 | every step keeps capacity between where it began and the limit |
| `Storage.NeverShrinks` | internal/fullnode/pvc_builder.go:52-67 | over every run capacity never shrinks |
| `Storage.StaysBounded` | internal/fullnode/pvc_auto_scaler.go:77-87 | over every run capacity stays within the initial size, the template and 1.02 times the maximum, or a larger request pending at the start |
| `Storage.IncrementGrows` | internal/fullnode/pvc_auto_scaler.go:110-134 | a later signal adds at least the first increment |
| `Storage.GrowthIsPaid` | internal/fullnode/pvc_builder.go:117-130 | a growth step adds an increment or is the one that reaches the template or the maximum |
| `Storage.FinitelyManyGrowths` | internal/fullnode/pvc_auto_scaler.go:58-134 | with a maximum and a positive increment the number of growth steps is bounded, one more if a request was pending |
| `Storage.CapIsPadded` | internal/fullnode/pvc_builder.go:119-124 | a capped request ends at 1.02 times the maximum |
| `Storage.RepeatedSignal` | internal/fullnode/pvc_auto_scaler.go:70-87 | a repeated signal is silent iff the request was not cut down by the cap |
| `PvcControl.SameSource` | internal/fullnode/pvc_control.go:213-231 | two references compare equal iff group, kind and name agree |
| `PvcControl.DataSources` | internal/fullnode/pvc_control.go:52-80 | a source for new claims and for claims whose source changed, for no others |
| `PvcControl.PvcResources` | internal/fullnode/pvc_builder.go:104-133 | the data source's size, or the largest of template, padded request and existing size |
| `PvcControl.BuildPVCs` | internal/fullnode/pvc_builder.go:24-91 | one claim per enabled instance, ordered, under names that never repeat |
| `PvcControl.RebuiltKeeps` | internal/fullnode/pvc_builder.go:57-66 | a bound claim with an unchanged source is rebuilt with that source and never smaller |
| `PvcControl.BodyExactly` | internal/fullnode/pvc_builder.go:52-81 | a new or changed source is used, else what the claim has, and the template for a new claim |
| `PvcControl.PodsHaveClaims` | internal/fullnode/pvc_builder.go:93-97 | the claim of every built pod is wanted; a claim without an enabled pod means that only the pod is disabled |
| `PvcControl.PvcInUse` | internal/fullnode/pvc_control.go:116-133 | in use iff some pod terminates or mounts the claim |
| `PvcControl.SendDeletes` | internal/fullnode/pvc_control.go:115-146 | deletes a prefix, none in use, and waits at the first that is |
| `PvcControl.Carry` | internal/fullnode/pvc_control.go:87-188 | creates, then deletes, and patches only with nothing to create or delete and every claim bound; nothing is put off without a failure, a claim in use or Retain |
| `PvcControl.Reconcile` | internal/fullnode/pvc_control.go:40-188 | the same for the computed diff; Retain never deletes; no requeue and no error only when nothing is left to create or delete and all patches were sent |

## Left out

- RollingUpdate.RolloutConverges: assumes that every replica exists and each recreated pod is in sync before the next round, since disabled and withheld instances count as replicas.
- PodControl.RollOut: requires a status entry for every planned pod, because the source dereferences it; `StatusCache.SyncInfoTrustworthy` supplies it. The same holds of `PodReconcile.Update` and `PodReconcile.Reconcile`.
- Diff.Changed: the resource version, UID and owner references copied onto an updated object are not modelled.
- Diff.OrderIndependent: says nothing about deletes, whose ordinals may repeat.
- StatusCache.Collect: the mutex around the cache and the poller's goroutines are not modelled; a poll replaces the collection.
- SnapshotProtocol.QuietVolumes: a snapshot reconcile with its status write is one step, and so are the read and the creation of a pod by the fullnode controller; deleting a ScheduledVolumeSnapshot while it holds a pod is not modelled, and its fullNodeRef does not change.
- SnapshotProtocol.StepKeepsInv: user edits of fullNodeRef are not among the steps, because they break the invariant (`SnapshotProtocol.MovedRefConfirmsEarly`).
- StatusSync.NoLostUpdate: the direct height patch of the version check is one atomic merge.
- RecoveryRuns.RateBound: the limits are fixed during a run and each reconcile reads the current status.
- RecoveryRuns.SnapshotFirst: the chain-home claim of a pod is fixed by its name.
- Storage.FinitelyManyGrowths: a signal sees the current capacity.
- PvcControl.Reconcile: does not say whether a size patch took effect; the source does not find out either.
- Storage.IncrementGrows: the rounding of 64-bit floating point in the percentage is taken as exact.
- PvcControl.PvcResources: a template without any requests, whose nil map the source would write to, counts as a size of zero.
- Versions.AcceptedExactly: the template's image is the one the node container has after the user's merge patch.
- Invalid `maxUnavailable` strings, which make the rollout computation panic.
- `Invalidate` of the cache controller, which edits copies and has no effect.
- `DeleteOldSnapshots`, cron parsing, and the deletion of finished snapshots: short list and date handling.
- Liveness: neither a suspended recovery nor a recovery whose fixed pod name is taken makes progress.
- The StatefulJob controller, services, RBAC, node keys, peers, config files, pod contents and merge patches: data without a hard property.
- HTTP, disk usage and Comet status calls, events, logs and status messages: inputs and outputs only.
