# Verified models of the SeaweedFS CSI driver

This project models the parts of the SeaweedFS CSI node driver and of its mount supervisor that
decide when a mount may be started, killed, replaced or cleaned up, and the algorithms with a
promise of their own around them, and proves in Dafny what the code relies on.

Protocols between threads are transition systems: a state, the atomic actions of every thread,
and an environment that acts between any two of them. Their theorems hold in every reachable
state or over every run. Sequential code is written as methods that are proved against
specification functions; lemmas then say what those functions mean.

| file | what it models |
|---|---|
| `ManagerProtocol.dfy` | Mount, Unmount, the process watcher and wait of the mount manager, for one volume |
| `KeyedLocks.dfy` | the mount manager's keyMutex and the driver's KeyMutex with RemoveMutex |
| `ProbeRegistry.dfy` | the single-flight registry of probes of one path |
| `ComposedProbes.dfy` | a health probe and the statfs probe inside it, each shared through its own registry |
| `Health.dfy`, `HealthMonitor.dfy` | health counters, and the monitor over time with its hung rule |
| `RecoveryLog.dfy` | the log of everything done to one volume, and what holds over every run |
| `NodeRecovery.dfy` | stage, publish, unpublish, unstage, restart, publish retry and recovery of one volume |
| `CacheSweep.dfy` | the sweep of orphaned caches against stages, unstages, adoptions and recoveries |
| `OutputLines.dfy` | the line splitter and the bounded memory of a mount process's output |
| `MountInfo.dfy`, `ContainerRepair.dfy` | reading mountinfo, and the repair of dead mounts in containers |
| `OciLayers.dfy` | OCI whiteouts in the inspection of packaged images |
| `Promotion.dfy` | promotion of a release that may be interrupted at any call |
| `BucketEmptying.dfy` | paged emptying and deletion of a bucket volume |
| `VolumeAttributes.dfy` | VolumeAttributesClass parameters from acceptance to the staged context |
| `Common.dfy` | an optional value and sums over sequences |

`dafny verify dfyconfig.toml` checks everything.

## What the proofs found

The model follows the code where the code and its comments differ:

- A process whose stop timed out while it was being started is alive and recorded nowhere. Once it
  exits, its cleanup can unmount the target of a newer process. The driver itself unmounts the target
  before it stages anew, while the manager still records a running process: the next Mount answers that
  the volume is mounted although nothing is (`ManagerProtocol.OutsideUnmountIsUnnoticed`). As long as no
  running mount has been lost and no further process is abandoned, "already mounted" is true exactly
  unless the mount was unmounted from outside, if and only if every abandoned process has cleaned up
  (`ManagerProtocol.AbandonedProcessIsTheOnlyThreat`).
- The driver's RemoveMutex always lets a newcomer take a fresh lock beside the thread that is about to
  unlock and return. Two threads can work on the key together exactly when another thread was already
  waiting on the deleted lock (`KeyedLocks.RemovalCollidesIffWaiter`). Operations of one volume excluding
  each other is therefore an assumption of the driver's models, and a theorem only for the mount manager.
- The comment on the cache sweep says that a volume that is staged or being staged, and one whose mount
  accepts connections, keeps its cache. NodePublishVolume records a volume it adopts without holding cacheMu, and
  recovery starts mounts without it, so a sweep under way can move the cache of such a volume
  (`CacheSweep.SweepCanTakeAdoptedCache`). A stage that fails can leave its mount running unrecorded
  (`CacheSweep.SweepCanTakeStrayCache`), and an unstage that does not stop the mount process removes its local
  socket all the same (`CacheSweep.SweepCanTakeUnstagedCache`); a sweep then moves the cache the mount still uses.
  `CacheSweep.SweepTakesCacheInUseIff` says exactly when a cache in use is taken; recorded volumes that were not
  adopted during the sweep, and volumes between mounting and being recorded, keep theirs.
- A stage or a publish of an untracked volume treats a slow staging mount like a dead one and unmounts
  it first, although the health monitor's comment says that a slow mount must never be torn down
  (`NodeRecovery.TrackTakesServingMountIffSlow`, and `NodeRecovery.SlowMountIsTaken` for the run).
- A restart tracks every publish path it finds as writable. A re-bind keeps the flag kubelet asked for if
  and only if no restart has restored the path since, or the flag was writable
  (`RecoveryLog.RebindKeepsFlagIff`, and `NodeRecovery.RestartLosesReadOnly` for the run).
- NodeUnpublishVolume promises that a withdrawn path is not bound again even if its cleanup fails. A
  restart that still finds the path restores it, and nothing else does without a new publish
  (`RecoveryLog.WithdrawnPathIsBoundAgainIffRestored`, and `NodeRecovery.RestartUndoesUnpublish` for the run).
- The line splitter emits a stream's lines for every cutting into writes if and only if every line is
  shorter than the limit and the last, unterminated one is shorter or just reaches it without ending
  in a carriage return (`OutputLines.CuttingIsIrrelevantIffFits`).
- The mountinfo parser assumes that escaped fields hold no white space. The kernel does not escape a
  carriage return or a Unicode space in a root or a mountpoint, at which the parser splits
  (`MountInfo.ReadBackIffPrintable` gives the exact condition).
- The repair of container mounts decides by a listed entry and by the answer of whatever lies on top
  of it, so with stacked mounts it can replace another volume's mount (`ContainerRepair.StackedForeignMountIsReplaced`,
  and `ContainerRepair.TopIsReplacedIff` for the exact condition).
- The lazy unmount of a dead container mount takes every mount nested below it along. A live foreign mount
  there is lost (`ContainerRepair.NestedForeignMountIsLost`), and so is a dead sub-path mount of the same volume, whichever
  of the two is listed first (`ContainerRepair.NestedSubPathIsLost`). A mount survives, or is replaced in
  place, if and only if no repaired mountpoint lies strictly above it
  (`ContainerRepair.PassReplacesExactlyDeadMounts`).
- The image inspection departs from a full tree exactly on the layers of `OciLayers.Misread`: a later member
  replaces a directory above the file or needs one at the file, or a whiteout without a name stands in the root.
- A recovery stages from a context into which every class staged before was merged. It is refused exactly
  when the new class switches one of writebackCache and dlm on and is silent about the other one, which
  the last earlier class that sets it switched on (`VolumeAttributes.RestageRefusedIffFeaturesMeet`), although
  all of them were accepted.

## Model

| member | source | states |
|---|---|---|
| ManagerProtocol.StepPreservesInv | pkg/mountmanager/manager.go:73-202 | every atomic action of Mount, Unmount, the watcher, wait and the environment keeps the invariant: lock ownership matches the calls in their critical sections, entries name their process and have a watcher, the one unfinished tracked process is the newest and is owned, and a weed mount belongs to a process that brought it up |
| ManagerProtocol.AtMostOneLiveProcess | pkg/mountmanager/manager.go:73-125 | in every interleaving at most one process outside the abandoned set is not done, and it is the newest |
| ManagerProtocol.CleanupNeverAfterNewerStart | pkg/mountmanager/manager.go:379-402 | the unmount after a tracked process's exit never runs once a newer process was started |
| ManagerProtocol.CacheRemovedOnlyWhenQuiet | pkg/mountmanager/manager.go:166-173 | Unmount removes the cache directory only when every process not abandoned is done |
| ManagerProtocol.OnlyDoneEntriesAreRemoved | pkg/mountmanager/manager.go:132-142 | neither the watcher nor the unconditional deletes ever remove or replace an entry whose own process is not done |
| ManagerProtocol.LiveEntryIsMounted | pkg/mountmanager/manager.go:85-104 | without abandoned processes, a recorded entry with a running process is backed by that process's mount if and only if nobody outside the manager has unmounted it |
| ManagerProtocol.LiveProcessKeepsCache | pkg/mountmanager/manager.go:170-173 | an unfinished tracked process has its cache directory if and only if nobody outside the manager has removed it |
| ManagerProtocol.RefinesAtomicMap | pkg/mountmanager/manager.go:73-202 | every action is a run of events of an atomic map from volume to target with spontaneous crashes: a live entry is reused or conflicts, never replaced |
| ManagerProtocol.ReplyIsItsEvent | pkg/mountmanager/manager.go:85-124 | each call is decided once, by an action of its own whose event carries the reply it returns |
| ManagerProtocol.StepUsesUpWork | pkg/mountmanager/process_linux.go:39-60 | every action but a new call uses up a measure, the two bounded waits of stop included |
| ManagerProtocol.RunsAreBounded | pkg/mountmanager/manager.go:73-202 | without new calls no run is longer than the work left at its start |
| ManagerProtocol.NoDeadlock | pkg/mountmanager/manager.go:73-202 | in every reachable state that is not finished the manager can act or a process can exit |
| ManagerProtocol.CallsAreNeverBlocked | pkg/mountmanager/manager.go:73-202 | while a call has not returned, the manager can act without a process that comes up or exits: no call blocks beside a running mount |
| ManagerProtocol.FreshMount | pkg/mountmanager/manager.go:106-124 | a Mount of an idle volume can run to a recorded entry with a process that is up |
| ManagerProtocol.MountOverDeadEntry | pkg/mountmanager/manager.go:85-124 | from every reachable state with the lock free and a recorded process that has exited, a Mount of any request can run to a recorded entry of a new process that is up and mounted, and to the reply Mounted |
| ManagerProtocol.UnmountTakesEntryDown | pkg/mountmanager/manager.go:145-181 | from every reachable state with the lock free and an entry, an Unmount can run to the reply Unmounted, with the process done, its cache and its entry gone, and its mount gone if it was running |
| ManagerProtocol.CallFailsIff | pkg/mountmanager/manager.go:106-109 | over every run a Mount answers MountFailed if and only if its clean or start failed, its own process exited before it was up or its wait timed out, and an Unmount StopTimedOut if and only if its second wait timed out |
| ManagerProtocol.MountGoesIff | pkg/mountmanager/manager.go:399-401 | a mount goes if and only if somebody outside unmounts it, or a process's cleanup or a Mount's clean of that target succeeds |
| ManagerProtocol.CacheGoesIff | pkg/mountmanager/manager.go:170-173 | a cache directory goes if and only if somebody outside removes it or the Unmount of its entry does |
| ManagerProtocol.AbandonedOnlyAfterTimeout | pkg/mountmanager/manager.go:349-361 | over every run a process is abandoned only if the wait for its mount timed out, never because it exited early |
| ManagerProtocol.AbandonedProcessUnmountsLiveEntry | pkg/mountmanager/manager.go:356-359 | from an idle volume an abandoned process that has not cleaned up can take a later live entry's mount away |
| ManagerProtocol.AbandonedProcessIsTheOnlyThreat | pkg/mountmanager/manager.go:345-361 | from any state in which no running tracked process has lost its mount, and without abandoning another one: every live entry to come is mounted exactly unless its mount is unmounted from outside, if and only if every abandoned process has cleaned up |
| ManagerProtocol.Quiesce | pkg/mountmanager/manager.go:73-202 | from every state the volume can become idle while an abandoned process lives on |
| ManagerProtocol.OutsideUnmountIsUnnoticed | pkg/mountmanager/manager.go:99-102 | a Mount answers "already mounted" with nothing mounted, after the driver unmounted the target of a live entry |
| ManagerProtocol.AbandonmentIsReachable | pkg/mountmanager/manager.go:345-361 | one Mount whose process neither mounts nor stops in time leads to such a state |
| KeyedLocks.NeverDeletedLocksExclude | pkg/mountmanager/keymutex.go:14-17 | locks that are never deleted exclude: in no run are two threads between lock and unlock of one key |
| KeyedLocks.WaiterFreeRunsExclude | pkg/driver/utils.go:271-279 | over every run: as long as no lock is deleted under a waiter, no two threads work on one key |
| KeyedLocks.FreeKeyIsLocked | pkg/mountmanager/keymutex.go:14-17 | a key that nobody holds can be locked and unlocked at once |
| KeyedLocks.LockIsHandedOver | pkg/mountmanager/keymutex.go:14-17 | whoever asks for a key that another thread works under waits for that thread, and enters with the same lock after its unlock |
| KeyedLocks.NewcomerOverlapsRemover | pkg/driver/nodeserver.go:569-574 | deleting a held lock always lets a newcomer hold a fresh one before the remover has unlocked |
| KeyedLocks.WaiterCollides | pkg/driver/utils.go:271-279 | deleting a lock on which another thread waits lets two threads work on the key |
| KeyedLocks.RemovalCollidesIffWaiter | pkg/driver/utils.go:271-279 | deleting a held lock can lead to two threads working on the key, before or after the unlock, if and only if another thread already waits on it |
| Health.VolumeHealth.NoteUnhealthy | pkg/driver/volume.go:144-146 | the streak grows by one and its new value is returned; nothing else changes |
| Health.VolumeHealth.NoteHealthy | pkg/driver/volume.go:149-152 | the streak and the abnormal mark are cleared; the fail count stays |
| Health.VolumeHealth.PerformVolumeHealthCheck | pkg/driver/health_monitor.go:254-290 | one check moves the counters and chooses the recovery as the specification functions do |
| Health.CountersSummarizeHistory | pkg/driver/health_monitor.go:254-290 | after any verdicts the streak is the trailing run of not healthy checks, the fail count the trailing run of dead ones modulo three, and abnormal implies a streak of at least three |
| Health.RecoveryFiresExactly | pkg/driver/health_monitor.go:254-290 | recovery as dead fires exactly when the trailing dead run reaches a positive multiple of three, recovery as hung exactly on a slow check with a streak of three and a probe unanswered too long |
| Health.AbnormalIffRecoveredSince | pkg/driver/health_monitor.go:271-290 | a volume is marked abnormal if and only if some check since it was last healthy has made the monitor recover it |
| ProbeRegistry.StepPreservesInv | pkg/driver/mount_util.go:44-77 | every action of callers, probes and resets keeps the registry's invariant |
| ProbeRegistry.AnswersAreNoOlderThanReset | pkg/driver/mount_util.go:70-77 | a call made after a reset never returns an answer about a mount from before that reset |
| ProbeRegistry.BlockedProbesAreBounded | pkg/driver/mount_util.go:44-68 | probe goroutines of a path number at most one more than the resets |
| ProbeRegistry.OneProbePerReset | pkg/driver/mount_util.go:44-68 | between two resets at most one probe runs |
| ProbeRegistry.OrphansNeverUnregisterAnother | pkg/driver/mount_util.go:54-57 | a registered probe leaves only by a reset or by itself once closed; an orphan never removes it |
| ProbeRegistry.NewCallsShareTheBlockedProbe | pkg/driver/mount_util.go:44-61 | while a current probe is unanswered every call waits for it and none starts another |
| ProbeRegistry.CallersHearWhatWasReturned | pkg/driver/mount_util.go:44-68 | over every run a caller is answered only what the system call of some probe returned, of the mount that probe reached |
| ProbeRegistry.WaitsEndWithAnswerOrTimeout | pkg/driver/mount_util.go:60-67 | a wait ends with an answer if and only if the probe is closed then, and without one only after the deadline |
| ProbeRegistry.CallIsAnswered | pkg/driver/mount_util.go:44-68 | a call that finds no probe can run to an answer of a probe of its own, and leaves the registry empty |
| ProbeRegistry.RemountIsSeen | pkg/driver/mount_util.go:70-77 | however long an old probe stays blocked: after a detach and a reset a call can be answered of the new mount |
| ProbeRegistry.BlockedCallTimesOut | pkg/driver/mount_util.go:60-67 | beside a probe that never answers a call can end exactly from its deadline on |
| ProbeRegistry.UnansweredMeans | pkg/driver/mount_util.go:79-93 | a path is unanswered for longer than a bound if and only if its registered probe is open and older |
| ComposedProbes.StepPreservesInv | pkg/driver/health_monitor.go:145-191 | every step of both registries, of the health probes and of the two deletions of a reset keeps the composed invariant |
| ComposedProbes.VerdictsAreNoOlderThanReset | pkg/driver/mount_util.go:70-77 | a verdict other than slow, given to a call made after a reset had finished, describes no mount from before that reset began, even if a statfs probe that an earlier caller started has answered it |
| ComposedProbes.VerdictsWereSeen | pkg/driver/health_monitor.go:145-191 | over every run a verdict other than slow was told to the health probe or to the statfs probe inside it, by the very mount it is credited to |
| ComposedProbes.RemountIsSeen | pkg/driver/mount_util.go:70-77 | however long probes of the old mount stay blocked in either registry: after a detach and a reset a call can be given the verdict on the new mount |
| ComposedProbes.LookIsTold | pkg/driver/health_monitor.go:183-191 | what the path's own checks tell without asking the mount is told as it is |
| ComposedProbes.SilenceIsSlow | pkg/driver/health_monitor.go:154-170 | a health probe whose statfs wait runs out is answered slow while that statfs probe stays blocked |
| HealthMonitor.StepPreservesInv | pkg/driver/health_monitor.go:145-300 | every step of sweeps, checks, probes and volume replacement keeps the monitor's invariant |
| HealthMonitor.AtMostOneCheckInFlight | pkg/driver/health_monitor.go:222-239 | at most one check of a volume is in flight |
| HealthMonitor.HungNeedsUnansweredProbe | pkg/driver/health_monitor.go:145-177 | treating a mount as hung takes one single probe unanswered longer than hungAfter and three unhealthy checks in a row |
| HealthMonitor.CheckCountsItsProbe | pkg/driver/health_monitor.go:163-176 | a check counts exactly the answer of its probe; without one, or with a slow one, it counts as slow, unanswered for longer than a bound if and only if its health probe or the registered statfs probe is open and older; no other history changes |
| HealthMonitor.HungExactlyWhenUnanswered | pkg/driver/health_monitor.go:254-274 | a check treats the mount as hung if and only if its probe told neither healthy nor dead, the two checks before it were not healthy, and its health probe or the registered statfs probe is unanswered longer than hungAfter |
| HealthMonitor.DeadExactlyAtThirdAnswer | pkg/driver/health_monitor.go:275-289 | a check treats the mount as dead if and only if its probe answered dead and this is the third such check in a row, or the sixth, and so on |
| HealthMonitor.SweepStartsCheckUnlessInFlight | pkg/driver/health_monitor.go:222-239 | a sweep starts a check exactly when none is in flight |
| HealthMonitor.CheckDecidesByItsDeadline | pkg/driver/health_monitor.go:163-176 | whatever its probe does, a check can decide once its timeout has passed, which is never further off than the timeout |
| HealthMonitor.DeadMountIsRecovered | pkg/driver/health_monitor.go:275-289 | a mount whose probes answer dead is recovered as dead by the third check of its Volume |
| HealthMonitor.HungMountIsRecovered | pkg/driver/health_monitor.go:254-274 | a mount whose statfs probe never answers is recovered as hung by the third check of its Volume once that probe is older than hungAfter |
| HealthMonitor.PromptProbesNeverHung | pkg/driver/health_monitor.go:254-273 | if every probe completes within hungAfter of its start, no number of sweeps, timeouts and shared probes ever leads to the hung recovery |
| RecoveryLog.OutstandingMeans | pkg/driver/nodeserver.go:286-290 | a path is outstanding if and only if a publish of it was accepted or restored and nothing since withdrew it, and it has the flag of the last such event |
| RecoveryLog.RebindsOnlyOutstanding | pkg/driver/nodeserver.go:368-377 | over every run a retry or a recovery binds only paths of which a publish was accepted or restored and since when kubelet has begun no unpublish, with the flag they are tracked with |
| RecoveryLog.RebindKeepsFlagIff | pkg/driver/staging_recovery.go:133-134 | over every run a re-bind has the flag of the last accepted publish if and only if no restart has restored the path since or that flag was writable |
| RecoveryLog.WithdrawnPathIsBoundAgainIffRestored | pkg/driver/nodeserver.go:368-377 | over every run, once an unpublish began, even a failed one, a retry may bind the path without a new publish if and only if a restart has restored it since |
| RecoveryLog.DigestMeans | pkg/driver/health_monitor.go:616-643 | what the digest says of the operation under way is what its events since it began say |
| RecoveryLog.AppearedMeans | pkg/driver/health_monitor.go:566-570 | the digest holds exactly the mounts that appeared after everything that has observed the path |
| RecoveryLog.MountsAppearOnce | pkg/driver/health_monitor.go:566-570 | every mount appears once, so where it appears is where it was first mounted |
| RecoveryLog.UnbindsOnlyAfterRestage | pkg/driver/health_monitor.go:531-533 | over every run a recovery unmounts a publish bind only after its re-stage succeeded |
| RecoveryLog.TeardownSparesServingMounts | pkg/driver/health_monitor.go:566-607 | given sound dead verdicts and an environment that may mount anew at any time: over every run, a serving mount that a recovery, other than of a hung one, stops or detaches, and any mount that a recovery cleans or displaces, was first mounted after everything that had observed the path: the rechecks, the guard, the detach and the last look at the mount table |
| RecoveryLog.TeardownIsOrdered | pkg/driver/health_monitor.go:553-614 | over every run each step of a teardown follows the one that permits it: a stop its recheck, a detach the second recheck and the guard, a cleanup the detach and the last look at the table, a re-stage the cleanup |
| RecoveryLog.RecoveryBindsNewMounts | pkg/driver/health_monitor.go:616-643 | over every run what a recovery binds, if anything is mounted, was mounted after the path was last observed |
| RecoveryLog.KubeletTakesOnlySlowMounts | pkg/driver/mount_util_linux.go:145-157 | over every run a serving mount that a stage or a publish of an untracked volume unmounts had answered slow, or appeared after the check |
| NodeRecovery.TrackTakesServingMountIffSlow | pkg/driver/mount_util_linux.go:31-38 | on given inputs a stage or a publish of an untracked volume takes the serving mount it finds if and only if the check was slow and the unmount succeeds |
| RecoveryLog.RechecksNeverReuseStaleProbes | pkg/driver/health_monitor.go:561-592 | between a recovery's stop or detach of a mount and the next recheck the probes in flight are forgotten |
| NodeRecovery.NodeServer.Recheck | pkg/driver/health_monitor.go:464-467 | confirmed exactly when dead, or slow beyond the bound of a hung recovery, on given inputs too; then without a bound a mount that serves appeared after the check |
| NodeRecovery.NodeServer.GuardMounted | pkg/driver/health_monitor.go:576-587 | passes exactly unless the table can be read, reports a mount, and statfs proves it neither dead nor hung; then without a bound a mount that serves appeared after the guard, or after the recheck if the table could not be read |
| NodeRecovery.NodeServer.AskManagerToUnmount | pkg/driver/health_monitor.go:553-564 | after a successful stop the probes are reset; a failed stop is what aborts; exactly what is mounted then on given inputs |
| NodeRecovery.NodeServer.DetachStaging | pkg/driver/health_monitor.go:588-592 | on success whatever is mounted afterwards appeared after the detach, and the probes are reset |
| NodeRecovery.NodeServer.ReportsMounted | pkg/driver/health_monitor.go:598-601 | a table that can be read and reports nothing means that nothing was mounted |
| NodeRecovery.NodeServer.CleanupStaging | pkg/driver/health_monitor.go:603-607 | on success whatever is mounted afterwards is new |
| NodeRecovery.NodeServer.StageNewVolume | pkg/driver/nodeserver.go:631-685 | success means only that the mount service answered so; what is mounted then is what was, or new, after a recovery's teardown it is new, and on given inputs it is stated |
| NodeRecovery.NodeServer.TearDownStalePublishBind | pkg/driver/health_monitor.go:382-395 | true if and only if the unmount takes a bind, or the cleanup unmounts what is there and removes the path; then nothing is bound any more, else the old bind or none, and the path is reported |
| NodeRecovery.NodeServer.CheckMount | pkg/driver/mount_util_linux.go:222-241 | a corrupted mount is first unmounted; tells exactly whether the path can be used and whether something is mounted |
| NodeRecovery.NodeServer.Publish | pkg/driver/volume.go:88-102 | exactly whether it succeeds and what it leaves at the path: a corrupted bind is replaced, another one counts as published, a free path is bound to what is mounted; never a second bind |
| NodeRecovery.NodeServer.RestoreFromDisk | pkg/driver/staging_recovery.go:36-137 | after a restart the volume is tracked with exactly the publish paths found on disk, all as writable; a tracked one stays |
| NodeRecovery.NodeServer.IsHealthy | pkg/driver/nodeserver.go:302-307 | tracking is not readiness: only a healthy answer passes |
| NodeRecovery.NodeServer.ClearStaging | pkg/driver/nodeserver.go:174-181 | exactly what is mounted then and whether it succeeded: a mount that is there is unmounted first, whether it serves or not, and success means that nothing is mounted and the path is gone, or that it answered dead and the cleanup was skipped |
| NodeRecovery.NodeServer.TrackOrRestage | pkg/driver/nodeserver.go:158-200 | an untracked volume is tracked only from a healthy mount, without an unmounter, or after a stage that followed the clearing of the path, with a context and an unmounter |
| NodeRecovery.NodeServer.NodeStageVolume | pkg/driver/nodeserver.go:142-203 | a tracked volume stays as it is and is accepted exactly if it is healthy; success on an untracked one tracks it without publish paths; success of either means healthy or just staged; and what is mounted and how the volume is tracked after given inputs |
| NodeRecovery.NodeServer.NodePublishVolume | pkg/driver/nodeserver.go:230-295 | on success the path is bound, tracked and outstanding with its flag, and a free path holds what is mounted at the staging path; on failure a tracked volume and the outstanding paths are as before; with nothing happening on its own an untracked volume is published on a free path exactly if it can be tracked and bound |
| NodeRecovery.NodeServer.PublishAndTrack | pkg/driver/nodeserver.go:284-290 | the path is tracked and outstanding exactly if the publish succeeded |
| NodeRecovery.NodeServer.NodeUnpublishVolume | pkg/driver/nodeserver.go:350-382 | the path is withdrawn first and stays withdrawn if its cleanup fails; it fails exactly if something stays mounted, or the path can be neither removed nor moved aside |
| NodeRecovery.NodeServer.NodeUnstageVolume | pkg/driver/nodeserver.go:546-575 | success of a tracked volume leaves nothing mounted and resets the probes; the volume is forgotten exactly if unstaging succeeds, which a volume that is not tracked always does |
| NodeRecovery.NodeServer.RetryPublishPaths | pkg/driver/health_monitor.go:401-444 | nothing changes if the staging path answers dead; else of each tracked path that answers dead the bind is torn down and, if nothing is left mounted, made again with its flag or reported, and all others stay |
| NodeRecovery.NodeServer.TearDownStaging | pkg/driver/health_monitor.go:553-607 | either the staging path was cleaned, or an exit is returned together with the event that explains it; which of them is exactly the first obstacle in the order of the steps, for all inputs |
| NodeRecovery.NodeServer.StopAndTearDown | pkg/driver/health_monitor.go:540-607 | a hung volume without an unmounter is torn down only after the mount service stopped its process |
| NodeRecovery.NodeServer.UnbindAll | pkg/driver/health_monitor.go:616-624 | after step 4 exactly the paths whose teardown leaves something mounted are reported and hold their old bind or none, and the others hold no bind |
| NodeRecovery.NodeServer.RebindAll | pkg/driver/health_monitor.go:626-643 | after step 5 every path is tracked with its flag; a path has failed if and only if it was not unmounted or its bind failed, and is then left alone, and every other one holds one bind of a new mount or of the bare directory |
| NodeRecovery.NodeServer.RestageAndReplace | pkg/driver/health_monitor.go:609-646 | a failed re-stage leaves the volume and every bind as they were; after a successful one a path has failed if and only if its teardown left something mounted or its bind failed |
| NodeRecovery.NodeServer.RecoverVolumeAs | pkg/driver/health_monitor.go:457-669 | all or nothing, decided exactly for all inputs: every abort has its reason and leaves the volume, its publishes and all binds unchanged; on completion the same paths and flags are tracked, a path has failed if and only if its teardown left something mounted or its bind failed, and each other one holds one bind of a mount newer than any the recovery found, or of the bare directory if nothing is mounted; with confirming verdicts, working calls and nothing happening in between it answers Recovered({}) and every path holds just the mount it brought up |
| NodeRecovery.RecoverySparesHealthyAndSlow | pkg/driver/health_monitor.go:464-493 | a recovery is not confirmed if and only if its check answers healthy, or slow without having been unanswered past the bound of a hung one |
| NodeRecovery.WorkingRecoverySucceeds | pkg/driver/health_monitor.go:457-669 | with nothing happening on its own, verdicts that confirm at both rechecks, a guard that passes and working calls, no reason to give up is left, whether or not the stop takes the mount away, and no path fails |
| NodeRecovery.SlowMountIsTaken | pkg/driver/nodeserver.go:158-187 | a run from the start: staged, restarted, found slow, and the serving mount is unmounted |
| NodeRecovery.RestartLosesReadOnly | pkg/driver/staging_recovery.go:133-134 | a run from the start: published read-only, restarted, and bound writable by a retry |
| NodeRecovery.RestartUndoesUnpublish | pkg/driver/staging_recovery.go:114-134 | a run from the start: an unpublish whose cleanup fails, a restart, and a retry that binds the path again |
| CacheSweep.StepPreservesInv | pkg/driver/utils.go:59-136 | every action of stages, unstages, recoveries, adoptions and sweeps keeps the locks, mounts and sweeps consistent |
| CacheSweep.SweepSparesCachesInUse | pkg/driver/utils.go:89-136 | no step of a sweep moves or deletes the cache of a volume between mounting and being recorded, of a recorded one unless it was adopted during the sweep, or of another one whose mount runs unless a failed stage or an unstage left it behind |
| CacheSweep.SweepTakesCacheInUseIff | pkg/driver/utils.go:94-133 | a step of a sweep takes the cache of a recorded or mounted volume if and only if it decides on one that is unlisted, unserved and not staged for kubelet, and either adopted during the sweep or left running unrecorded by a failed stage or an unstage |
| CacheSweep.SweepTakesExactlyOrphans | pkg/driver/utils.go:108-134 | whatever the name: a sweep moves its directory aside, the same directory under the free name, and owes its deletion, if and only if it is there, neither the shared chunks nor a leftover, its volume not kept, not served and not staged by kubelet; a leftover is owed; no other name changes |
| CacheSweep.SweepListsEverything | pkg/driver/utils.go:94-107 | a sweep keeps exactly the recorded volumes and decides on every name that is there |
| CacheSweep.SweepGetsLockIff | pkg/driver/utils.go:90-93 | a sweep gets its lock if and only if no stage is under way and no other sweep decides; else it ends and changes nothing |
| CacheSweep.SweepRemovesOrphans | pkg/driver/utils.go:63-136 | over every run of a whole sweep, whatever else goes on: the cache of a volume that nobody records, serves or works on meanwhile is gone when the sweep is over, unless kubelet has the volume staged or the move or the deletion failed |
| CacheSweep.SweepDeletesWhatItOwes | pkg/driver/utils.go:74-84 | over every run: what a sweep has moved aside, and every leftover it has listed, is gone when the sweep is over, unless its deletion failed |
| CacheSweep.SweepLeavesExactlyCachesInUse | pkg/driver/utils.go:63-136 | a sweep that is left alone can run to its end, with exactly the shared chunks and the caches of recorded volumes and of served mounts left, each the directory it was |
| CacheSweep.DeletionSparesAllCaches | pkg/driver/utils.go:67-78 | the deletion outside the lock touches no directory under a cache name, whoever created it since |
| CacheSweep.SweepSparesSharedChunks | pkg/driver/utils.go:109-112 | no step of a sweep touches the shared chunk cache |
| CacheSweep.StagesDoNotWaitForDeletion | pkg/driver/cache_sweep.go:13-19 | a stage gets its lock at once when no sweep is deciding, whatever is being deleted |
| CacheSweep.StageCompletes | pkg/driver/nodeserver.go:142-203 | unless a sweep decides, a stage can run to its end: the volume is recorded and its mount uses its cache directory, the old one if there was one |
| CacheSweep.RecoveryCompletes | pkg/driver/health_monitor.go:553-646 | a recovery can run to its end: the mount is restarted on a new cache directory |
| CacheSweep.UnstageCompletes | pkg/driver/nodeserver.go:546-575 | an unstage can run to its end: the volume is not recorded, its mount stopped and its cache gone |
| CacheSweep.UnstageLeavesMountBehind | pkg/driver/nodeserver.go:546-575 | an unstage that only unmounts the path, or of a volume that is not recorded, removes cache and socket although the mount process runs on |
| CacheSweep.FailedStopChangesNothing | pkg/driver/health_monitor.go:553-564 | a stop that fails ends a recovery, or the unstage of a recorded volume, and changes nothing |
| CacheSweep.MountStopsIff | pkg/driver/health_monitor.go:553-564 | a mount process stops if and only if it crashes or a recovery or an unstage stops it |
| CacheSweep.MountStartsIff | pkg/driver/nodeserver.go:183-186 | a mount process starts if and only if a stage or a recovery starts it |
| CacheSweep.ServedIff | pkg/driver/utils.go:152-171 | in every reachable state: a mount is served if and only if it has begun to accept connections since it started, and no unstage has removed its socket |
| CacheSweep.StrayIff | pkg/driver/nodeserver.go:671-679 | in every reachable state: a running mount counts as left behind if and only if a failed stage left it running or an unstage removed its socket since it started |
| CacheSweep.AdoptedIff | pkg/driver/nodeserver.go:246-253 | a volume counts as adopted if and only if a publish has recorded it since a sweep last listed |
| CacheSweep.RecordedIff | pkg/driver/nodeserver.go:200-203 | a volume is recorded if and only if a stage or a publish has recorded it and no unstage has forgotten it since |
| CacheSweep.DirectoryGoesIff | pkg/driver/utils.go:195-213 | but for the moves of a sweep, a directory goes if and only if a recovery or an unstage removes its cache or a sweep deletes its reserved name |
| CacheSweep.SweepCanTakeAdoptedCache | pkg/driver/nodeserver.go:246-253 | a reachable sweep moves the cache of a recorded volume with a running mount that was adopted without the lock |
| CacheSweep.SweepCanTakeStrayCache | pkg/driver/nodeserver.go:671-679 | a reachable sweep moves the cache of a running mount that a failed stage left behind, with nothing adopted |
| CacheSweep.SweepCanTakeUnstagedCache | pkg/driver/utils.go:195-218 | a reachable sweep moves the cache of a running mount whose socket an unstage removed, with nothing adopted and no failed stage |
| OutputLines.ProcessOutput.Add | pkg/mountmanager/manager.go:423-436 | head and tail stay the first five and the last five of the lines after them |
| OutputLines.ProcessOutput.Summarize | pkg/mountmanager/manager.go:438-453 | nothing is lost up to ten lines; beyond, exactly all but the first and last five are counted as omitted |
| OutputLines.LineWriter.Write | pkg/mountmanager/manager.go:464-480 | one write emits exactly the lines it completes, and leaves a buffer without newline and below the limit |
| OutputLines.LineWriter.Flush | pkg/mountmanager/manager.go:483-490 | what is left is emitted as one line and the buffer is empty |
| OutputLines.ScanTakesApart | pkg/mountmanager/manager.go:464-480 | the lines and the rest put together again are the stream, and none of them holds a newline |
| OutputLines.TrimsOneCarriageReturn | pkg/mountmanager/manager.go:477-477 | one carriage return at the end of a line goes, and nothing else |
| OutputLines.FittingStreamsSplit | pkg/mountmanager/manager.go:464-490 | a stream that fits comes out as its lines however it is cut into writes |
| OutputLines.UnfitStreamsMisSplit | pkg/mountmanager/manager.go:471-474 | a stream that does not fit has a cut into two writes that emits other lines |
| OutputLines.CuttingIsIrrelevantIffFits | pkg/mountmanager/manager.go:455-490 | the cutting of a stream into writes does not matter if and only if the stream fits |
| MountInfo.UnescapeMountField | pkg/driver/container_remount_linux.go:348-364 | the loop decodes octal escapes, a byte modulo 256 each, and keeps unknown sequences |
| MountInfo.UnescapeInvertsEscape | pkg/driver/container_remount_linux.go:339-364 | unescaping inverts every octal escaping that includes the backslash, for every byte string |
| MountInfo.ParseFields | pkg/driver/container_remount_linux.go:305-334 | the separator is the first lone dash from the seventh field on; missing fields are empty |
| MountInfo.ParseMountInfoReader | pkg/driver/container_remount_linux.go:296-337 | the entries of all lines with at least seven fields, in order |
| MountInfo.WordsOfJoin | pkg/driver/container_remount_linux.go:300-303 | words joined by spaces are the fields found again |
| MountInfo.SpacesAreUnicodeSpaces | pkg/driver/container_remount_linux.go:300-300 | text in UTF-8 is split exactly at the white space of Unicode, for every code point below 0x10000 |
| MountInfo.LineReadBack | pkg/driver/container_remount_linux.go:300-334 | a printed line with any number of optional fields is read back |
| MountInfo.ParseInvertsPrint | pkg/driver/container_remount_linux.go:296-337 | parsing inverts printing for every list of entries |
| MountInfo.ReadBackIffPrintable | pkg/driver/container_remount_linux.go:300-347 | a line with an absolute root and an absolute mountpoint is read back if and only if the only white space in both is space, tab and newline |
| ContainerRepair.SourcePathIsFilerPath | pkg/driver/container_remount_linux.go:157-162 | of a source written by weed mount exactly the filer path is found |
| ContainerRepair.SameFilesystemIffSamePath | pkg/driver/container_remount_linux.go:142-154 | two mounts are of one filesystem if and only if their filer paths are equal, whatever their filer addresses |
| ContainerRepair.SameFilesystemIsEquivalence | pkg/driver/container_remount_linux.go:145-154 | an equivalence on the sources that are not empty |
| ContainerRepair.RepairIsForDeadMountsOfThePath | pkg/driver/container_remount_linux.go:114-126 | for sources as weed mount writes them, a mount needs repair if and only if it is a FUSE mount other than the control filesystem, of the staged filer path, on another device, and answers with one of the two errors of a connection that is gone |
| ContainerRepair.ReadOnlyIffListed | pkg/driver/container_remount_linux.go:273-280 | for every list of options without commas, the options joined by commas are read-only if and only if "ro" is one of them |
| ContainerRepair.BelowMeans | pkg/driver/container_remount_linux.go:516-521 | below a path lies exactly what goes on with a slash, and below the root every other absolute path |
| ContainerRepair.BindShowsSubPath | pkg/driver/container_remount_linux.go:466-470 | a replacement shows the directory of the staging mount, or what lies below it at the sub-path |
| ContainerRepair.Container.RemountViaSetns | pkg/driver/container_remount_linux.go:449-537 | the detach takes what is mounted below along; and what each failure leaves: nothing changed before the detach, a lost mount after it, a writable one if only the read-only flag failed |
| ContainerRepair.Container.Repair | pkg/driver/container_remount_linux.go:109-138 | the loop over the listed mounts is the pass the lemmas speak of |
| ContainerRepair.PassDecidesEachMount | pkg/driver/container_remount_linux.go:114-136 | with one mount per mountpoint, failures included: nothing is left below a mount that was detached, and elsewhere each mount's fate depends on that mount alone |
| ContainerRepair.PassCountsRepairs | pkg/driver/container_remount_linux.go:133-139 | the count is the number of mounts that needed repair and were not taken along by one repaired before |
| ContainerRepair.PassReplacesExactlyDeadMounts | pkg/driver/container_remount_linux.go:72-140 | a mount is lost if and only if a repaired mountpoint lies strictly above it; otherwise the FUSE mounts of the staged filesystem on another device that answered dead are replaced in place, each keeping its directory and read-only flag, and all others stay |
| ContainerRepair.NestedForeignMountIsLost | pkg/driver/container_remount_linux.go:516-521 | a live foreign mount nested below a dead mount of the volume is lost with it |
| ContainerRepair.NestedSubPathIsLost | pkg/driver/container_remount_linux.go:516-521 | a dead sub-path mount nested below another dead mount of the volume is lost, whichever is listed first |
| ContainerRepair.SecondPassReplacesNothing | pkg/driver/container_remount_linux.go:72-140 | a later pass replaces nothing |
| ContainerRepair.ServingMountpointsAreKept | pkg/driver/container_remount_linux.go:119-127 | even with stacked mounts and failures, a mountpoint that does not answer dead keeps what it holds, unless a mount to repair is listed strictly above it where a dead mount answers |
| ContainerRepair.TopIsReplacedIff | pkg/driver/container_remount_linux.go:114-133 | with stacked mounts, a pass replaces the topmost mount of a path if and only if it answers dead and something listed at the path is a mount to repair, unless the same holds strictly above: then the whole stack is lost |
| ContainerRepair.StackedForeignMountIsReplaced | pkg/driver/container_remount_linux.go:119-133 | where mounts are stacked another filesystem's mount on top can be replaced |
| ContainerRepair.MountEntryAt | pkg/driver/container_remount_linux.go:166-182 | the entry listed last at a path, or none if there is none |
| ContainerRepair.RepairStaleContainerMounts | pkg/driver/container_remount_linux.go:94-140 | every container is repaired by itself and counted; none without a FUSE staging mount |
| OciLayers.PrefixIsBelow | test/kubernetes_lab/package_images.py:92-93 | a name with a slash appended is a prefix exactly of the names whose components lie below it |
| OciLayers.RemovesIsHides | test/kubernetes_lab/package_images.py:85-93 | the string test for whiteouts removes exactly what the whiteout hides, and at most the opaque directory itself besides |
| OciLayers.NameIsThePath | test/kubernetes_lab/package_images.py:85-85 | a member has the same name with and without a leading "./" and any number of slashes |
| OciLayers.DeleteRemoved | test/kubernetes_lab/package_images.py:89-93 | of the observed files exactly those a whiteout removes are dropped |
| OciLayers.RemoveWhitedOut | test/kubernetes_lab/package_images.py:84-93 | after the first pass exactly the files removed by no whiteout of the layer are left |
| OciLayers.WriteMember | test/kubernetes_lab/package_images.py:94-101 | a member is refused exactly if it has an expected name and is no regular file; otherwise that file alone gets its digest |
| OciLayers.WriteMembers | test/kubernetes_lab/package_images.py:94-101 | after the second pass each expected file has the digest of its last member in the layer |
| OciLayers.InspectLayers | test/kubernetes_lab/package_images.py:77-103 | refused exactly when some layer has an expected name that is no regular file; otherwise each file is followed through all layers |
| OciLayers.FileAfterPuts | test/kubernetes_lab/package_images.py:94-101 | in the full tree a file has the digest of its last member unless a later member buries it |
| OciLayers.LayerAgreesIffNotMisread | test/kubernetes_lab/package_images.py:81-101 | on one layer the inspection agrees with the full tree if and only if the layer is not misread |
| OciLayers.InspectionAgreesWithTree | test/kubernetes_lab/package_images.py:77-101 | through faithful layers the inspection reports the digest the full tree holds |
| OciLayers.AgreementBreaksExactlyWhereMisread | test/kubernetes_lab/package_images.py:77-101 | while both agree, the next layer keeps them in agreement if and only if it is not misread |
| OciLayers.ReplacedDirectoryIsMisread | test/kubernetes_lab/package_images.py:94-101 | a directory replaced by a link still seems to hold the file |
| OciLayers.AcceptedIffTreeHoldsExpected | test/kubernetes_lab/package_images.py:102-103 | through faithful layers the observed files equal the expected ones if and only if the full tree holds each of them |
| OciLayers.ReferenceIsTree | test/kubernetes_lab/package_images.py:82-83 | in the reference only directories have anything below them |
| Promotion.PlanIsSeparate | hack/release/promote.py:30-36 | the targets of a plan differ from one another and from every source |
| Promotion.PlanCopiesEveryPlatform | hack/release/promote.py:30-36 | for every repository and platform suffix the plan pairs the candidate's image with the release's, of the same repository and suffix, and nothing else |
| Promotion.ReleasesAreVersions | hack/release/promote.py:21-21 | v, a three-part version, -appmana.post. and a number make a release tag |
| Promotion.ReleaseParts | hack/release/promote.py:21-21 | and every release tag is made of such parts |
| Promotion.CandidatesNameBuilds | hack/release/promote.py:22-22 | candidate-, forty hexadecimal digits and two numbers make a candidate tag |
| Promotion.CandidateParts | hack/release/promote.py:22-22 | and every candidate tag is made of such parts |
| Promotion.RunKeepsPromotable | hack/release/promote.py:74-94 | whatever a run leaves is as promotable as before, with the same pins |
| Promotion.InterruptionsDoNotMatter | hack/release/promote.py:74-94 | after any number of interrupted runs the pins are those of an uninterrupted first run, and no tag was moved |
| Promotion.Registry.DigestOrNone | hack/release/promote.py:65-71 | a missing reference is told apart from a failed call |
| Promotion.Registry.Tag | hack/release/promote.py:87-88 | a tag call may take effect although it fails |
| Promotion.Registry.Check | hack/release/promote.py:76-85 | the first pass succeeds if and only if every candidate exists, every target is absent or equal and every call of it worked, and changes no tag |
| Promotion.Registry.TagAndConfirm | hack/release/promote.py:87-92 | at most the one absent target is tagged, with its candidate's digest, and success confirms it and means that every call worked |
| Promotion.Registry.PromotePairs | hack/release/promote.py:76-94 | no tag is moved, none is written unless all checks held at the start, and it succeeds if and only if they held and every call worked, with the pins and all targets tagged |
| Promotion.Registry.Promote | hack/release/promote.py:74-94 | the same for the plan of a release; malformed tags change nothing |
| BucketEmptying.DeletingBehindCursorKeepsPages | pkg/driver/controllerserver.go:232-250 | deleting names up to the cursor leaves every page after it as it was |
| BucketEmptying.PageIsPrefix | pkg/driver/controllerserver.go:289-311 | a page of names after the cursor is their beginning, full exactly when more remain, and those lie after its last name |
| BucketEmptying.Filer.ListChildren | pkg/driver/controllerserver.go:289-311 | the first names after the cursor and whether more remain, or the error |
| BucketEmptying.Filer.DeleteChild | pkg/driver/controllerserver.go:260-265 | exactly the named child goes, and the call may fail after that |
| BucketEmptying.Filer.DeletePage | pkg/driver/controllerserver.go:241-245 | a page is deleted in order up to the first failure |
| BucketEmptying.Filer.EmptyPageByPage | pkg/driver/controllerserver.go:232-250 | terminates; succeeds if and only if every call worked; each child is deleted exactly once, in order; after an error the deleted and the remaining ones make up the whole list but for one unconfirmed child |
| BucketEmptying.Filer.EmptyBucketChildren | pkg/driver/controllerserver.go:223-251 | only a volume directly in the bucket directory is emptied |
| BucketEmptying.Filer.DeleteVolume | pkg/driver/controllerserver.go:171-215 | the directory goes only after every child of a bucket was deleted with confirmation, and the persisted attributes only after the directory, without failing the call; it succeeds if and only if the request is valid, the place is known and every call worked |
| VolumeAttributes.ValidateConstrainedParameterValues | pkg/driver/controllerserver.go:499-509 | valid exactly if every recognized key has a value its kind allows |
| VolumeAttributes.ValidateMutableParameters | pkg/driver/controllerserver.go:471-493 | valid exactly if all keys are mutable, all values allowed and the exclusive features are not combined |
| VolumeAttributes.MutableKeysAreListed | pkg/driver/controllerserver.go:421-445 | the mutable keys are exactly the listed ones, and the capacity is none of them |
| VolumeAttributes.ValuesAllowed | pkg/driver/controllerserver.go:447-466 | what each parameter may be set to: integer keys an optional sign and digits that fit into 64 bits, boolean keys the spellings of true and false, the data locality one of two words in any case, the others anything |
| VolumeAttributes.IntegersReadBack | pkg/driver/controllerserver.go:456-459 | every 64-bit integer written in decimal, with a sign or without, is read back, and no larger one is |
| VolumeAttributes.BooleansReadBack | pkg/driver/controllerserver.go:460-463 | the spellings of true and of false: as a digit, or as a word or its first letter, in small letters, capitals or capitalized |
| VolumeAttributes.MergePersistedVolumeAttributes | pkg/driver/vacstore.go:228-236 | the loop overlays exactly the mutable persisted keys |
| VolumeAttributes.AcceptedIffStagesValid | pkg/driver/controllerserver.go:538-564 | mutable parameters are accepted if and only if staging from the static attributes and from an empty context would both pass |
| VolumeAttributes.LastSettingMeans | pkg/driver/vacstore.go:228-236 | the last setting of a chain is that of the last class that sets the key |
| VolumeAttributes.MergedLookup | pkg/driver/nodeserver.go:632-639 | after any chain of merges a mutable key has its last setting, or else the base's value |
| VolumeAttributes.RefusedIffBothLeftOn | pkg/driver/nodeserver.go:640-648 | a stage with any chain of accepted classes is refused if and only if the chain leaves both exclusive features on |
| VolumeAttributes.RestageRefusedIffFeaturesMeet | pkg/driver/health_monitor.go:609-614 | after any chain of accepted classes staged one after the other, the next accepted class is refused if and only if it switches one exclusive feature on and is silent about the other one, which the last earlier class that sets it, or else the base, switched on |
| VolumeAttributes.LockManagerThenWritebackIsRefused | pkg/driver/health_monitor.go:609-614 | dlm followed by writebackCache is such a pair |
| VolumeAttributes.EarlierClassesSurviveIff | pkg/driver/nodeserver.go:632-639 | the recovery's context equals the one a fresh stage would build if and only if what the earlier classes leave behind, where the new one is silent, is what the base says |
| VolumeAttributes.StagedStructureIsTheContexts | pkg/driver/vacstore.go:225-236 | every structural key but the capacity has the value of the static attributes |
| VolumeAttributes.VolumeAttributesClasses.Write | pkg/driver/vacstore.go:207-217 | the whole entry is replaced, also by a call that fails after taking effect |
| VolumeAttributes.VolumeAttributesClasses.ControllerModifyVolume | pkg/driver/controllerserver.go:530-586 | each code returned exactly when it should; only accepted parameters are ever persisted |
| VolumeAttributes.VolumeAttributesClasses.MutableAttributes | pkg/driver/controllerserver.go:547-555 | the mutable part of the static attributes |
| VolumeAttributes.VolumeAttributesClasses.ResolveVolumeCapacity | pkg/driver/nodeserver.go:695-713 | the orchestrator's capacity wins; otherwise an unreadable one in the context is an error |
| VolumeAttributes.CapacityReadsBack | pkg/driver/nodeserver.go:704-713 | a capacity in the context is read back, a negative one is no capacity, an empty one is none given |
| VolumeAttributes.VolumeAttributesClasses.MergedContext | pkg/driver/nodeserver.go:632-648 | the persisted entry on top of the context, and whether both validations pass |
| VolumeAttributes.VolumeAttributesClasses.StageContext | pkg/driver/nodeserver.go:631-655 | with a persisted entry, staging from the static attributes or from an empty context always passes both validations |
| VolumeAttributes.VolumeAttributesClasses.Delete | pkg/driver/vacstore.go:220-223 | the entry goes with the volume |

## Left out

- Transports, Kubernetes clients, TLS, tokens and the filer's own calls: their results are arbitrary choices or parameters.
- Kernel mounts, setns and the mount library: an abstract mount table, with assumed contracts for unmount, lazy detach and cleanup.
- ContainerRepair.PassDecidesEachMount: a mount below a path is taken to be attached to what lies on top there; mounts that a later one above has shadowed are not modelled.
- The manager, the locks, the probe registries, the monitor and the cache sweep are transition systems on values: update in place appears as the next state, and two volumes that share one target are not modelled.
- Soundness of a dead verdict is assumed, of a check as of the mount table guard: the mount does not serve at the instant the verdict speaks of. Some stat errors that are not corruption also count as dead (pkg/driver/mount_util_linux.go:57-58), and a statfs probe that blocked on an old mount can answer for it after a new one came up by itself.
- Mutual exclusion of driver operations on one volume is assumed, see `KeyedLocks.RemovalCollidesIffWaiter`.
- NodeRecovery.NodeServer.AskManagerToUnmount: whether the stop takes the mount away is an input, since the mount service's cleanup may fail and a new mount may come up; the recovery does not rely on it.
- NodeRecovery.NodeServer.DetachStaging: the staging path holds one mount; a second one stacked under it, which a detach would reveal, is not modelled, and with one the age of a mount that is cleaned is bounded only if the mount table could be read.
- NodeRecovery.NodeServer.StageNewVolume: does not promise a mount, since the mount service may answer that the volume is mounted although nothing is (`ManagerProtocol.OutsideUnmountIsUnnoticed`).
- NodeRecovery.NodeServer.NodeUnstageVolume: for a volume that is not tracked the cleanup is an attempt, so success says nothing of the mount then.
- RecoveryLog.RechecksNeverReuseStaleProbes: covers stops and detaches of recoveries; a stage or an unstage of kubelet that unmounts and then fails resets no probe.
- ComposedProbes.VerdictsAreNoOlderThanReset: covers resets that ran to their end; a panic between the two deletions is not modelled.
- NodeRecovery.NodeServer.RecoverVolumeAs: leaves out the remount inside containers by device; the repair pass by source is `ContainerRepair`.
- CacheSweep.SweepListsEverything: a cache base that cannot be read, after which a sweep takes nothing, is not modelled.
- SHA-256 names of cache directories: a volume is identified by its hash, so hash collisions are not modelled; whether kubelet still has a staging directory is an arbitrary choice of the sweep, and a mount that accepts connections is assumed to answer the sweep's dial.
- ManagerProtocol.AbandonedProcessIsTheOnlyThreat: others may unmount a target at any time; that others mount something there is not modelled.
- RecoveryLog.WithdrawnPathIsBoundAgainIffRestored: whether a restart finds the path depends on what a failed cleanup left on disk, and is an input.
- OutputLines.ProcessOutput.Summarize: does not model the text that joins the lines, because the count and the kept lines are the promise.
- MountInfo.ParseMountInfoReader: does not model the scanner's limit on the length of a line.
- MountInfo.ReadBackIffPrintable: is stated for absolute paths, since one that begins with white space can be read back by coincidence with the fields after it.
- ContainerRepair.RepairStaleContainerMounts: takes the containers of the pod and their listings as given; finding processes under /proc is not modelled, and paths are joined without cleaning.
- OciLayers.InspectLayers: leaves out the manifest, the digests of blobs and the platform checks; names with inner empty or dot components and links in directories are taken as they stand.
- Promotion.Registry.Promote: leaves out release notes and other writers to the registry, and tags with digits that are not ASCII.
- BucketEmptying.Filer.DeleteVolume: takes from outside whether the volume lies directly in the bucket directory; other clients do not create children while it runs, and children without a name are not listed.
- VolumeAttributes.VolumeAttributesClasses.StageContext: ends before the mount command is built; the case of data locality names is folded for ASCII only.
- Goroutine scheduling delay, wrap-around of 32-bit counters and panics of probes.
- Windows, the WinFsp installer, Dockerfiles, manifests, the lab's qualification tests and the scripts around them.
- Mount argument filtering, quota rounding, endpoint parsing, topology keys and mount-roots files: they would add only easy members.
