/**
 The sweep of orphaned cache directories against stages, unstages and recoveries of any number
 of volumes.  A stage holds cacheMu for reading from before its mount starts until its volume
 is recorded; the sweep tries to take it for writing, decides and renames orphans aside under
 it, and deletes what it renamed after releasing it.  Operations on one volume exclude each
 other by the per-volume mutex, which is assumed here.
 */
module CacheSweep {
  import opened Common

  /**
   A name under the cache base: the hash of a volume, the shared chunk cache, a directory a sweep
   moved aside (removingCachePrefix), or anything else.  A volume is identified by its hash, of
   which the sweep needs only that it is none of the other kinds.
   */
  datatype Name = Cache(volume: nat) | Chunks | Removing(stamp: nat) | Other(id: nat)

  /** The next action of a stage, unstage or recovery of the volume with a given cache name. */
  datatype Pc =
    | StageLock(v: nat)
    | StageMount(v: nat)
    | StageRecord(v: nat)
    | StageRelease(v: nat)
    | RecoverStop(v: nat)
    | RecoverMount(v: nat)
    | UnstageStop(v: nat)
    | UnstageCache(v: nat)
    | UnstageForget(v: nat)
    | PublishAdopt(v: nat)
    | Over

  /** A sweep: trying the lock, listing, deciding on each listed name, deleting. */
  datatype Sweep =
    | TryLock
    | Keeping
    | Deciding(keep: set<nat>, names: set<Name>, detached: set<Name>)
    | Deleting(detached: set<Name>)
    | Swept

  /**
   `dirs` maps the names under the cache base to directory identities; `mounts` the volumes whose
   mount process runs to the directory it uses; `accepting` those that accept connections on
   their local socket; `recorded` is the volumes map; `mutex` the volumes some call works on;
   `adopted` the volumes recorded without cacheMu since a sweep last listed the recorded ones;
   `stray` those whose running mount was left behind by a stage that failed or that the restart of
   the node plugin cut off, or by an unstage that removed the local socket.
   */
  datatype State = State(
    dirs: map<Name, nat>,
    nextDir: nat,
    mounts: map<nat, nat>,
    accepting: set<nat>,
    recorded: set<nat>,
    adopted: set<nat>,
    stray: set<nat>,
    mutex: map<nat, nat>,
    readers: set<nat>,
    writer: Option<nat>,
    calls: seq<Pc>,
    sweeps: seq<Sweep>)

  /**
   Whether an operation succeeds, or a stage finds a healthy mount to record as it is, or a stage
   fails although its mount runs: setting the quota failed and so did unstaging, or the mount
   service could not stop a process that did not come up in time.  An unstage leaves the process
   running too when it only unmounts the path of a volume without an unmounter.
   */
  datatype Choice = Ok | Err | Adopt | LeftRunning

  datatype Action =
    | CallStage(v: nat)
    | CallRecover(v: nat)
    | CallUnstage(v: nat)
    | CallPublish(v: nat)
    | Run(call: nat, choice: Choice)
    | Accept(v: nat)
    | Crash(v: nat)
    | StartSweep
    | SweepLock(sweep: nat)
    | SweepKeep(sweep: nat)
    | SweepDecide(sweep: nat, name: Name, skip: bool, aside: Name)
    | SweepUnlock(sweep: nat)
    | SweepDelete(sweep: nat, path: Name, ok: bool)
    | SweepEnd(sweep: nat)

  /** The volume a call works on. */
  function VolumeOf(pc: Pc): Option<nat> {
    if pc.Over? then None else Some(pc.v)
  }

  /** A stage that holds cacheMu for reading. */
  predicate Reading(pc: Pc) {
    pc.StageMount? || pc.StageRecord? || pc.StageRelease?
  }

  predicate HoldsWriter(sw: Sweep) {
    sw.Keeping? || sw.Deciding?
  }

  predicate Enabled(s: State, a: Action) {
    match a
    case CallStage(v) => v !in s.mutex && v !in s.recorded
    case CallRecover(v) => v !in s.mutex && v in s.recorded
    case CallUnstage(v) => v !in s.mutex
    case CallPublish(v) => v !in s.mutex && v !in s.recorded
    case Run(c, choice) =>
      && c < |s.calls| && !s.calls[c].Over?
      && (s.calls[c].StageLock? ==> s.writer.None?)
      && (choice.Adopt? ==> s.calls[c].StageMount? && s.calls[c].v in s.accepting)
      && (choice.LeftRunning? ==> s.calls[c].StageMount? || s.calls[c].RecoverMount? || s.calls[c].UnstageStop?)
      && (s.calls[c].PublishAdopt? && choice.Ok? ==> s.calls[c].v in s.accepting)
    case Accept(v) => v in s.mounts
    case Crash(v) => v in s.mounts
    case StartSweep => true
    case SweepLock(w) => w < |s.sweeps| && s.sweeps[w].TryLock?
    case SweepKeep(w) => w < |s.sweeps| && s.sweeps[w].Keeping?
    case SweepDecide(w, name, _, aside) =>
      && w < |s.sweeps| && s.sweeps[w].Deciding? && name in s.sweeps[w].names
      && aside.Removing?
    case SweepUnlock(w) => w < |s.sweeps| && s.sweeps[w].Deciding? && s.sweeps[w].names == {}
    case SweepDelete(w, path, _) => w < |s.sweeps| && s.sweeps[w].Deleting? && path in s.sweeps[w].detached
    case SweepEnd(w) => w < |s.sweeps| && s.sweeps[w].Deleting? && s.sweeps[w].detached == {}
  }

  function Enter(s: State, v: nat, pc: Pc): State {
    s.(mutex := s.mutex[v := |s.calls|], calls := s.calls + [pc])
  }

  function Goto(s: State, c: nat, pc: Pc): State
    requires c < |s.calls|
  {
    s.(calls := s.calls[c := pc])
  }

  function Leave(s: State, c: nat, v: nat): State
    requires c < |s.calls|
  {
    Goto(s, c, Over).(mutex := s.mutex - {v})
  }

  /** MkdirAll of the cache directory, then a mount process that uses it, not accepting yet. */
  function StartMount(s: State, v: nat): State {
    var made := if Cache(v) in s.dirs then s else s.(dirs := s.dirs[Cache(v) := s.nextDir], nextDir := s.nextDir + 1);
    made.(mounts := s.mounts[v := made.dirs[Cache(v)]], accepting := s.accepting - {v}, stray := s.stray - {v})
  }

  function StopMount(s: State, v: nat): State {
    s.(mounts := s.mounts - {v}, accepting := s.accepting - {v}, stray := s.stray - {v})
  }

  /** What the call does next. */
  function NextPc(s: State, c: nat, choice: Choice): Pc
    requires Enabled(s, Run(c, choice))
  {
    match s.calls[c]
    case StageLock(v) => StageMount(v)
    case StageMount(v) => if choice.Ok? || choice.Adopt? then StageRecord(v) else StageRelease(v)
    case StageRecord(v) => StageRelease(v)
    case RecoverStop(v) => if choice.Ok? then RecoverMount(v) else Over
    // An unrecorded volume loses its cache directory even if its mount cannot be removed.
    case UnstageStop(v) => if choice.Ok? || choice.LeftRunning? || v !in s.recorded then UnstageCache(v) else Over
    case UnstageCache(v) => UnstageForget(v)
    case _ => Over
  }

  /** The local socket goes whatever becomes of the cache directory; a process that runs on is stray. */
  function RemoveResources(s: State, v: nat, cacheGone: bool): State {
    s.(dirs := if cacheGone then s.dirs - {Cache(v)} else s.dirs,
    accepting := s.accepting - {v},
    stray := if v in s.mounts then s.stray + {v} else s.stray)
  }

  /** What the action does to everything but the calls and the mutex. */
  function Effect(s: State, c: nat, choice: Choice): State
    requires Enabled(s, Run(c, choice))
  {
    match s.calls[c]
    case StageLock(_) => s.(readers := s.readers + {c})
    case StageMount(v) =>
      if choice.Ok? then StartMount(s, v)
      else if choice.LeftRunning? then StartMount(s, v).(stray := s.stray + {v})
      else s
    case StageRecord(v) => s.(recorded := s.recorded + {v})
    case StageRelease(_) => s.(readers := s.readers - {c})
    // The mount service stops the process and removes its cache directory.
    case RecoverStop(v) => if choice.Ok? then StopMount(s, v).(dirs := s.dirs - {Cache(v)}) else s
    case RecoverMount(v) => if choice.Ok? || choice.LeftRunning? then StartMount(s, v) else s
    case UnstageStop(v) => if choice.Ok? then StopMount(s, v) else s
    case UnstageCache(v) => RemoveResources(s, v, choice.Ok?)
    case UnstageForget(v) => s.(recorded := s.recorded - {v})
    // NodePublishVolume records a volume with a healthy mount without holding cacheMu.
    case PublishAdopt(v) => if choice.Ok? then s.(recorded := s.recorded + {v}, adopted := s.adopted + {v}) else s
    case Over => s
  }

  function Move(s: State, c: nat, v: nat, pc: Pc): State
    requires c < |s.calls|
  {
    if pc.Over? then Leave(s, c, v) else Goto(s, c, pc)
  }

  /** One action of a call. */
  function RunApply(s: State, c: nat, choice: Choice): State
    requires Enabled(s, Run(c, choice))
  {
    Move(Effect(s, c, choice), c, s.calls[c].v, NextPc(s, c, choice))
  }

  /** The sweep keeps a name of a recorded volume, of a served mount, or that it chooses to skip. */
  predicate Keeps(s: State, keep: set<nat>, name: Name, skip: bool) {
    name.Chunks? || skip || (name.Cache? && (name.volume in keep || name.volume in s.accepting))
  }

  function SetSweep(s: State, w: nat, sw: Sweep): State
    requires w < |s.sweeps|
  {
    s.(sweeps := s.sweeps[w := sw])
  }

  function Apply(s: State, a: Action): State
    requires Enabled(s, a)
  {
    match a
    case CallStage(v) => Enter(s, v, StageLock(v))
    case CallRecover(v) => Enter(s, v, RecoverStop(v))
    case CallUnstage(v) => Enter(s, v, UnstageStop(v))
    case CallPublish(v) => Enter(s, v, PublishAdopt(v))
    case Run(c, choice) => RunApply(s, c, choice)
    case Accept(v) => s.(accepting := s.accepting + {v})
    case Crash(v) => StopMount(s, v)
    case StartSweep => s.(sweeps := s.sweeps + [TryLock])
    case SweepLock(w) =>
      if s.writer.Some? || s.readers != {} then SetSweep(s, w, Swept)
      else SetSweep(s, w, Keeping).(writer := Some(w))
    case SweepKeep(w) => SetSweep(s, w, Deciding(s.recorded, s.dirs.Keys, {})).(adopted := {})
    case SweepDecide(w, name, skip, aside) =>
      var sw := s.sweeps[w];
      if name.Removing? then
        SetSweep(s, w, sw.(names := sw.names - {name}, detached := sw.detached + {name}))
      else if Keeps(s, sw.keep, name, skip) || name !in s.dirs || aside in s.dirs then
        SetSweep(s, w, sw.(names := sw.names - {name}))
      else
        SetSweep(s, w, sw.(names := sw.names - {name}, detached := sw.detached + {aside})).(
        dirs := (s.dirs - {name})[aside := s.dirs[name]])
    case SweepUnlock(w) => SetSweep(s, w, Deleting(s.sweeps[w].detached)).(writer := None)
    case SweepDelete(w, path, ok) =>
      // A directory whose deletion failed is left to the next sweep.
      SetSweep(s, w, Deleting(s.sweeps[w].detached - {path})).(dirs := if ok then s.dirs - {path} else s.dirs)
    case SweepEnd(w) => SetSweep(s, w, Swept)
  }

  predicate Executable(s: State, run: seq<Action>)
    decreases |run|
  {
    run == [] || (Enabled(s, run[0]) && Executable(Apply(s, run[0]), run[1..]))
  }

  function Exec(s: State, run: seq<Action>): State
    requires Executable(s, run)
    decreases |run|
  {
    if run == [] then s else Exec(Apply(s, run[0]), run[1..])
  }

  /** A node plugin that starts: mounts that survived its restart accept connections, or were still starting. */
  predicate Init(s: State) {
    && s.mutex == map[] && s.readers == {} && s.writer.None? && s.calls == [] && s.sweeps == []
    && s.accepting <= s.mounts.Keys && s.stray == s.mounts.Keys - s.accepting && DirsInv(s)
  }

  // ----- the invariant -----

  /** No two names are the same directory, and new directories are new. */
  predicate DirsInv(s: State) {
    && (forall n | n in s.dirs :: s.dirs[n] < s.nextDir)
    && (forall n, m | n in s.dirs && m in s.dirs && n != m :: s.dirs[n] != s.dirs[m])
  }

  /** The locks are held by the calls and sweeps that are between their lock and unlock. */
  predicate LockInv(s: State) {
    && (forall c | 0 <= c < |s.calls| :: c in s.readers <==> Reading(s.calls[c]))
    && (forall c | c in s.readers :: c < |s.calls|)
    && (forall w | 0 <= w < |s.sweeps| :: s.writer == Some(w) <==> HoldsWriter(s.sweeps[w]))
    && (s.writer.Some? ==> s.readers == {} && s.writer.value < |s.sweeps|)
    && (forall c | 0 <= c < |s.calls| && !s.calls[c].Over? :: s.calls[c].v in s.mutex && s.mutex[s.calls[c].v] == c)
    && (forall v | v in s.mutex :: s.mutex[v] < |s.calls| && VolumeOf(s.calls[s.mutex[v]]) == Some(v))
  }

  /** A stage under way is about to record the volume it mounted. */
  predicate BeingRecorded(s: State, v: nat) {
    v in s.mutex && s.mutex[v] < |s.calls| && s.calls[s.mutex[v]] == StageRecord(v)
  }

  /** A mount is recorded, about to be, or accepts connections, unless it is stray. */
  predicate MountInv(s: State) {
    && (forall v | v in s.accepting :: v in s.mounts)
    && (forall v | v in s.mounts :: v in s.recorded || v in s.accepting || BeingRecorded(s, v) || v in s.stray)
    && (forall c | 0 <= c < |s.calls| && (s.calls[c].RecoverStop? || s.calls[c].RecoverMount?) :: s.calls[c].v in s.recorded)
    && (forall c | 0 <= c < |s.calls| && s.calls[c].UnstageForget? && s.calls[c].v in s.mounts :: s.calls[c].v in s.stray)
  }

  /** A deciding sweep keeps every recorded volume not adopted; sweeps detach reserved names only. */
  predicate SweepInv(s: State) {
    && (forall w | 0 <= w < |s.sweeps| && s.sweeps[w].Deciding? :: s.recorded <= s.sweeps[w].keep + s.adopted)
    && (forall w | 0 <= w < |s.sweeps| && (s.sweeps[w].Deciding? || s.sweeps[w].Deleting?) ::
          forall path | path in s.sweeps[w].detached :: path.Removing?)
  }

  predicate Inv(s: State) {
    LockInv(s) && MountInv(s) && SweepInv(s)
  }

  predicate IsSweepStep(a: Action) {
    a.SweepLock? || a.SweepKeep? || a.SweepDecide? || a.SweepUnlock? || a.SweepDelete? || a.SweepEnd?
  }

  lemma EnterPreservesInv(s: State, v: nat, pc: Pc)
    requires Inv(s) && v !in s.mutex && VolumeOf(pc) == Some(v)
    requires pc.StageLock? || pc.UnstageStop? || pc.PublishAdopt? || (pc.RecoverStop? && v in s.recorded)
    ensures Inv(Enter(s, v, pc))
  {
  }

  /** A call that moves on without taking or releasing a lock keeps the locks consistent. */
  lemma GotoKeepsLocks(s: State, c: nat, pc: Pc)
    requires LockInv(s) && c < |s.calls| && !s.calls[c].Over?
    requires VolumeOf(pc) == VolumeOf(s.calls[c]) && Reading(pc) == Reading(s.calls[c])
    ensures LockInv(Goto(s, c, pc))
  {
  }

  lemma LeaveKeepsLocks(s: State, c: nat)
    requires LockInv(s) && c < |s.calls| && !s.calls[c].Over? && !Reading(s.calls[c])
    ensures LockInv(Leave(s, c, s.calls[c].v))
  {
  }

  lemma StageLockPreservesInv(s: State, c: nat, choice: Choice)
    requires Inv(s) && Enabled(s, Run(c, choice)) && s.calls[c].StageLock?
    ensures Inv(RunApply(s, c, choice))
  {
  }

  lemma StageReleaseKeepsLocks(s: State, c: nat, choice: Choice)
    requires LockInv(s) && Enabled(s, Run(c, choice)) && s.calls[c].StageRelease?
    ensures LockInv(RunApply(s, c, choice))
  {
    assert c in s.readers;
  }

  lemma StageReleasePreservesInv(s: State, c: nat, choice: Choice)
    requires Inv(s) && Enabled(s, Run(c, choice)) && s.calls[c].StageRelease?
    ensures Inv(RunApply(s, c, choice))
  {
    StageReleaseKeepsLocks(s, c, choice);
  }

  lemma StageKeepsMounts(s: State, c: nat, choice: Choice)
    requires Inv(s) && Enabled(s, Run(c, choice)) && (s.calls[c].StageMount? || s.calls[c].StageRecord?)
    ensures MountInv(RunApply(s, c, choice))
  {
    assert s.mutex[s.calls[c].v] == c;
  }

  lemma RecoverStopKeepsMounts(s: State, c: nat, choice: Choice)
    requires Inv(s) && Enabled(s, Run(c, choice)) && s.calls[c].RecoverStop?
    ensures MountInv(RunApply(s, c, choice))
  {
    assert s.mutex[s.calls[c].v] == c;
  }

  lemma RecoverMountKeepsMounts(s: State, c: nat, choice: Choice)
    requires Inv(s) && Enabled(s, Run(c, choice)) && s.calls[c].RecoverMount?
    ensures MountInv(RunApply(s, c, choice))
  {
    assert s.mutex[s.calls[c].v] == c;
  }

  lemma UnstageStopKeepsMounts(s: State, c: nat, choice: Choice)
    requires Inv(s) && Enabled(s, Run(c, choice)) && s.calls[c].UnstageStop?
    ensures MountInv(RunApply(s, c, choice))
  {
    assert s.mutex[s.calls[c].v] == c;
  }

  lemma UnstageKeepsMounts(s: State, c: nat, choice: Choice)
    requires Inv(s) && Enabled(s, Run(c, choice)) && (s.calls[c].UnstageCache? || s.calls[c].UnstageForget?)
    ensures MountInv(RunApply(s, c, choice))
  {
    assert s.mutex[s.calls[c].v] == c;
  }

  lemma AdoptKeepsMounts(s: State, c: nat, choice: Choice)
    requires Inv(s) && Enabled(s, Run(c, choice)) && s.calls[c].PublishAdopt?
    ensures MountInv(RunApply(s, c, choice))
  {
    assert s.mutex[s.calls[c].v] == c;
  }

  /** What a deciding sweep keeps still covers what is recorded if only adopted volumes are new. */
  lemma SweepsFrame(s: State, s': State)
    requires SweepInv(s) && s'.sweeps == s.sweeps && s.adopted <= s'.adopted
    requires s'.recorded <= s.recorded + s'.adopted
    ensures SweepInv(s')
  {
  }

  /** No sweep is deciding while a stage records its volume. */
  lemma RecordKeepsSweeps(s: State, c: nat, choice: Choice)
    requires Inv(s) && Enabled(s, Run(c, choice)) && s.calls[c].StageRecord?
    ensures SweepInv(RunApply(s, c, choice))
  {
    assert c in s.readers;
    assert forall w | 0 <= w < |s.sweeps| :: !HoldsWriter(s.sweeps[w]);
  }

  lemma EffectKeepsSweeps(s: State, c: nat, choice: Choice)
    requires SweepInv(s) && Enabled(s, Run(c, choice)) && !s.calls[c].StageRecord?
    ensures SweepInv(Effect(s, c, choice))
  {
    SweepsFrame(s, Effect(s, c, choice));
  }

  lemma RunKeepsSweeps(s: State, c: nat, choice: Choice)
    requires Inv(s) && Enabled(s, Run(c, choice))
    ensures SweepInv(RunApply(s, c, choice))
  {
    if s.calls[c].StageRecord? {
      RecordKeepsSweeps(s, c, choice);
    } else {
      EffectKeepsSweeps(s, c, choice);
      SweepsFrame(Effect(s, c, choice), RunApply(s, c, choice));
    }
  }

  /** The locks look only at the calls, the sweeps and who holds what. */
  lemma LocksFrame(s: State, s': State)
    requires LockInv(s)
    requires s'.calls == s.calls && s'.sweeps == s.sweeps && s'.readers == s.readers && s'.writer == s.writer && s'.mutex == s.mutex
    ensures LockInv(s')
  {
  }

  lemma EffectLeavesLocks(s: State, c: nat, choice: Choice)
    requires Enabled(s, Run(c, choice)) && !s.calls[c].StageLock? && !s.calls[c].StageRelease?
    ensures var s' := Effect(s, c, choice);
            s'.calls == s.calls && s'.sweeps == s.sweeps && s'.readers == s.readers && s'.writer == s.writer && s'.mutex == s.mutex
  {
  }

  /** Only a stage that takes or releases cacheMu changes who holds what. */
  lemma EffectKeepsLocks(s: State, c: nat, choice: Choice)
    requires LockInv(s) && Enabled(s, Run(c, choice)) && !s.calls[c].StageLock? && !s.calls[c].StageRelease?
    ensures LockInv(Effect(s, c, choice)) && Effect(s, c, choice).calls == s.calls
  {
    EffectLeavesLocks(s, c, choice);
    LocksFrame(s, Effect(s, c, choice));
  }

  lemma RunKeepsLocks(s: State, c: nat, choice: Choice)
    requires LockInv(s) && Enabled(s, Run(c, choice)) && !s.calls[c].StageLock? && !s.calls[c].StageRelease?
    ensures LockInv(RunApply(s, c, choice))
  {
    var after, pc := Effect(s, c, choice), NextPc(s, c, choice);
    EffectKeepsLocks(s, c, choice);
    if pc.Over? {
      LeaveKeepsLocks(after, c);
    } else {
      GotoKeepsLocks(after, c, pc);
    }
  }

  lemma RunPreservesInv(s: State, c: nat, choice: Choice)
    requires Inv(s) && Enabled(s, Run(c, choice))
    ensures Inv(RunApply(s, c, choice))
  {
    if s.calls[c].StageLock? {
      StageLockPreservesInv(s, c, choice);
    } else if s.calls[c].StageRelease? {
      StageReleasePreservesInv(s, c, choice);
    } else {
      RunKeepsLocks(s, c, choice);
      RunKeepsSweeps(s, c, choice);
      if s.calls[c].StageMount? || s.calls[c].StageRecord? {
        StageKeepsMounts(s, c, choice);
      } else if s.calls[c].RecoverStop? {
        RecoverStopKeepsMounts(s, c, choice);
      } else if s.calls[c].RecoverMount? {
        RecoverMountKeepsMounts(s, c, choice);
      } else if s.calls[c].UnstageStop? {
        UnstageStopKeepsMounts(s, c, choice);
      } else if s.calls[c].PublishAdopt? {
        AdoptKeepsMounts(s, c, choice);
      } else {
        UnstageKeepsMounts(s, c, choice);
      }
    }
  }

  /** A sweep that moves on without taking or releasing the lock keeps the locks consistent. */
  lemma SetSweepKeepsLocks(s: State, w: nat, sw: Sweep)
    requires LockInv(s) && w < |s.sweeps| && HoldsWriter(sw) == HoldsWriter(s.sweeps[w])
    ensures LockInv(SetSweep(s, w, sw))
  {
  }

  lemma DecideKeepsLocks(s: State, w: nat, name: Name, skip: bool, aside: Name)
    requires LockInv(s) && Enabled(s, SweepDecide(w, name, skip, aside))
    ensures LockInv(Apply(s, SweepDecide(w, name, skip, aside)))
  {
    var s' := Apply(s, SweepDecide(w, name, skip, aside));
    SetSweepKeepsLocks(s, w, s'.sweeps[w]);
    LocksFrame(SetSweep(s, w, s'.sweeps[w]), s');
  }

  lemma MovingKeepsLocks(s: State, a: Action)
    requires LockInv(s) && Enabled(s, a) && (a.SweepKeep? || a.SweepDelete? || a.SweepEnd?)
    ensures LockInv(Apply(s, a))
  {
    var s' := Apply(s, a);
    SetSweepKeepsLocks(s, a.sweep, s'.sweeps[a.sweep]);
    LocksFrame(SetSweep(s, a.sweep, s'.sweeps[a.sweep]), s');
  }

  lemma SweepKeepsLocks(s: State, a: Action)
    requires LockInv(s) && Enabled(s, a) && (a.StartSweep? || IsSweepStep(a))
    ensures LockInv(Apply(s, a))
  {
    if a.SweepDecide? {
      DecideKeepsLocks(s, a.sweep, a.name, a.skip, a.aside);
    } else if a.SweepKeep? || a.SweepDelete? || a.SweepEnd? {
      MovingKeepsLocks(s, a);
    }
  }

  lemma SweepKeepsMounts(s: State, a: Action)
    requires MountInv(s) && Enabled(s, a) && (a.StartSweep? || IsSweepStep(a))
    ensures MountInv(Apply(s, a))
  {
    var s' := Apply(s, a);
    assert s'.calls == s.calls && s'.mounts == s.mounts && s'.recorded == s.recorded;
    assert s'.mutex == s.mutex && s'.accepting == s.accepting;
  }

  lemma ListingKeepsSweeps(s: State, w: nat)
    requires Inv(s) && Enabled(s, SweepKeep(w))
    ensures SweepInv(Apply(s, SweepKeep(w)))
  {
    assert forall u | 0 <= u < |s.sweeps| && HoldsWriter(s.sweeps[u]) :: u == w;
  }

  lemma DecidingKeepsSweeps(s: State, a: Action)
    requires SweepInv(s) && Enabled(s, a) && (a.SweepDecide? || a.SweepDelete? || a.SweepUnlock?)
    ensures SweepInv(Apply(s, a))
  {
  }

  lemma SweepKeepsSweeps(s: State, a: Action)
    requires Inv(s) && Enabled(s, a) && (a.StartSweep? || IsSweepStep(a))
    ensures SweepInv(Apply(s, a))
  {
    if a.SweepKeep? {
      ListingKeepsSweeps(s, a.sweep);
    } else if a.SweepDecide? || a.SweepDelete? || a.SweepUnlock? {
      DecidingKeepsSweeps(s, a);
    }
  }

  lemma StepPreservesInv(s: State, a: Action)
    requires Inv(s) && Enabled(s, a)
    ensures Inv(Apply(s, a))
  {
    if a.CallStage? {
      EnterPreservesInv(s, a.v, StageLock(a.v));
    } else if a.CallRecover? {
      EnterPreservesInv(s, a.v, RecoverStop(a.v));
    } else if a.CallUnstage? {
      EnterPreservesInv(s, a.v, UnstageStop(a.v));
    } else if a.CallPublish? {
      EnterPreservesInv(s, a.v, PublishAdopt(a.v));
    } else if a.Run? {
      RunPreservesInv(s, a.call, a.choice);
    } else if !a.Accept? && !a.Crash? {
      SweepKeepsLocks(s, a);
      SweepKeepsMounts(s, a);
      SweepKeepsSweeps(s, a);
    }
  }

  lemma {:induction false} ExecPreservesInv(s: State, run: seq<Action>)
    requires Inv(s) && Executable(s, run)
    ensures Inv(Exec(s, run))
    decreases |run|
  {
    if run != [] {
      StepPreservesInv(s, run[0]);
      ExecPreservesInv(Apply(s, run[0]), run[1..]);
    }
  }

  ghost predicate Reachable(s: State) {
    exists s0: State, run: seq<Action> :: Init(s0) && Executable(s0, run) && Exec(s0, run) == s
  }

  lemma ReachableInv(s: State)
    requires Reachable(s)
    ensures Inv(s)
  {
    var s0: State, run: seq<Action> :| Init(s0) && Executable(s0, run) && Exec(s0, run) == s;
    ExecPreservesInv(s0, run);
  }

  // ----- what no sweep does, in every interleaving -----

  /** The directory at a name is the same one as before. */
  predicate SameDir(s: State, s': State, name: Name) {
    (name in s.dirs <==> name in s'.dirs) && (name in s.dirs ==> s'.dirs[name] == s.dirs[name])
  }

  lemma NobodyRecordsUnderSweep(s: State, v: nat)
    requires LockInv(s) && s.readers == {}
    ensures !BeingRecorded(s, v)
  {
    assert v in s.mutex && s.mutex[v] < |s.calls| ==> !Reading(s.calls[s.mutex[v]]);
  }

  /** Recorded with cacheMu held or before the sweep listed, or not left running by a stage or an unstage. */
  predicate Protected(s: State, v: nat) {
    || BeingRecorded(s, v)
    || (v in s.recorded && v !in s.adopted)
    || (v !in s.recorded && v in s.mounts && v !in s.stray)
  }

  /**
   No sweep moves or deletes the cache directory of a volume between mounting and being recorded, of
   a recorded one, unless it was adopted during the sweep, or of any other one whose mount runs,
   unless a failed stage or an unstage left it behind.
   */
  lemma SweepSparesCachesInUse(s: State, a: Action, v: nat)
    requires Reachable(s) && Enabled(s, a) && IsSweepStep(a) && Protected(s, v)
    ensures SameDir(s, Apply(s, a), Cache(v))
  {
    ReachableInv(s);
    if a.SweepDecide? {
      assert s.writer == Some(a.sweep) && s.readers == {};
      assert !BeingRecorded(s, v) by {
        NobodyRecordsUnderSweep(s, v);
      }
    }
  }

  /**
   Exactly when a step of a sweep takes a cache in use: it decides on the cache of a volume that was
   adopted after the sweep listed the volumes, or whose mount a failed stage or an unstage left running
   unrecorded, that does not accept connections and that kubelet has not staged, and the name to move it to is free.
   */
  lemma SweepTakesCacheInUseIff(s: State, a: Action, v: nat)
    requires Reachable(s) && Enabled(s, a) && IsSweepStep(a) && (v in s.recorded || v in s.mounts)
    ensures !SameDir(s, Apply(s, a), Cache(v)) <==>
            && a.SweepDecide? && a.name == Cache(v) && Cache(v) in s.dirs && a.aside !in s.dirs
            && (if v in s.recorded then v in s.adopted else v in s.stray)
            && v !in s.sweeps[a.sweep].keep && v !in s.accepting && !a.skip
  {
    ReachableInv(s);
    if Protected(s, v) {
      SweepSparesCachesInUse(s, a, v);
      assert a.SweepDecide? ==> !BeingRecorded(s, v) by {
        if a.SweepDecide? {
          assert s.writer == Some(a.sweep) && s.readers == {};
          NobodyRecordsUnderSweep(s, v);
        }
      }
    }
  }

  /** The deletion that runs without the lock touches no cache directory, whoever made it. */
  lemma DeletionSparesAllCaches(s: State, w: nat, path: Name, ok: bool, v: nat)
    requires Reachable(s) && Enabled(s, SweepDelete(w, path, ok))
    ensures SameDir(s, Apply(s, SweepDelete(w, path, ok)), Cache(v))
  {
    ReachableInv(s);
  }

  lemma SweepSparesSharedChunks(s: State, a: Action)
    requires Reachable(s) && Enabled(s, a) && IsSweepStep(a)
    ensures SameDir(s, Apply(s, a), Chunks)
  {
    ReachableInv(s);
  }

  /** No stage waits for a deletion: with no sweep deciding, a stage gets its lock at once. */
  lemma StagesDoNotWaitForDeletion(s: State, c: nat)
    requires Reachable(s) && c < |s.calls| && s.calls[c].StageLock?
    requires forall w | 0 <= w < |s.sweeps| :: !HoldsWriter(s.sweeps[w])
    ensures Enabled(s, Run(c, Ok))
  {
    ReachableInv(s);
  }

  // ----- what a sweep takes -----

  /**
   What a sweep does with a name it has listed: it moves the directory to the free name aside, and
   owes its deletion, if and only if the name is neither the shared chunks nor a leftover and its
   volume is not kept, does not accept connections and is not staged by kubelet; it owes the
   deletion of a leftover; and no other name changes.
   */
  lemma SweepTakesExactlyOrphans(s: State, w: nat, name: Name, skip: bool, aside: Name)
    requires Enabled(s, SweepDecide(w, name, skip, aside))
    ensures var s', sw := Apply(s, SweepDecide(w, name, skip, aside)), s.sweeps[w];
            var kept := name.Cache? && (name.volume in sw.keep || name.volume in s.accepting);
            && s'.sweeps[w].Deciding? && s'.sweeps[w].names == sw.names - {name}
            && (forall n | n != name && n != aside :: SameDir(s, s', n))
            && (if (name.Cache? || name.Other?) && name in s.dirs && !kept && !skip && aside !in s.dirs then
                  && name !in s'.dirs && aside in s'.dirs && s'.dirs[aside] == s.dirs[name]
                  && s'.sweeps[w].detached == sw.detached + {aside}
                else
                  && SameDir(s, s', name) && SameDir(s, s', aside)
                  && s'.sweeps[w].detached == sw.detached + if name.Removing? then {name} else {})
  {
  }

  /** A sweep gets its lock if and only if no stage is under way and no other sweep decides; else it ends at once. */
  lemma SweepGetsLockIff(s: State, w: nat)
    requires Reachable(s) && Enabled(s, SweepLock(w))
    ensures var s' := Apply(s, SweepLock(w));
            if (exists c :: 0 <= c < |s.calls| && Reading(s.calls[c])) || (exists u :: 0 <= u < |s.sweeps| && HoldsWriter(s.sweeps[u]))
            then s' == s.(sweeps := s.sweeps[w := Swept])
            else s' == s.(sweeps := s.sweeps[w := Keeping], writer := Some(w))
  {
    ReachableInv(s);
    if c :| c in s.readers {
      assert Reading(s.calls[c]);
    }
    assert s.writer.Some? ==> HoldsWriter(s.sweeps[s.writer.value]);
  }

  /** A sweep that lists keeps exactly the recorded volumes, and decides on every name. */
  lemma SweepListsEverything(s: State, w: nat, name: Name, v: nat)
    requires Enabled(s, SweepKeep(w))
    ensures var sw := Apply(s, SweepKeep(w)).sweeps[w];
            sw.Deciding? && (v in sw.keep <==> v in s.recorded) && (name in sw.names <==> name in s.dirs) && sw.detached == {}
  {
  }

  /** Every other directory stays, and the one at a new name is new. */
  predicate DirsGrow(s: State, s': State) {
    && s.nextDir <= s'.nextDir
    && (forall n | n in s'.dirs :: (n in s.dirs && s'.dirs[n] == s.dirs[n]) || (n !in s.dirs && s'.dirs[n] == s.nextDir < s'.nextDir))
    && (forall n, m | n in s'.dirs && m in s'.dirs && n !in s.dirs && m !in s.dirs :: n == m)
  }

  lemma CallsGrowDirs(s: State, a: Action)
    requires Enabled(s, a) && !IsSweepStep(a)
    ensures DirsGrow(s, Apply(s, a))
  {
    if a.Run? {
      var s' := Effect(s, a.call, a.choice);
      assert Apply(s, a).dirs == s'.dirs && Apply(s, a).nextDir == s'.nextDir;
    }
  }

  lemma SweepKeepsDirs(s: State, a: Action)
    requires DirsInv(s) && Enabled(s, a) && IsSweepStep(a)
    ensures DirsInv(Apply(s, a)) && s.nextDir == Apply(s, a).nextDir
  {
  }

  lemma GrownDirs(s: State, s': State)
    requires DirsInv(s) && DirsGrow(s, s')
    ensures DirsInv(s')
  {
  }

  lemma StepKeepsDirs(s: State, a: Action)
    requires DirsInv(s) && Enabled(s, a)
    ensures DirsInv(Apply(s, a)) && s.nextDir <= Apply(s, a).nextDir
  {
    if IsSweepStep(a) {
      SweepKeepsDirs(s, a);
    } else {
      CallsGrowDirs(s, a);
      GrownDirs(s, Apply(s, a));
    }
  }

  lemma {:induction false} ExecKeepsDirs(s: State, run: seq<Action>)
    requires DirsInv(s) && Executable(s, run)
    ensures DirsInv(Exec(s, run))
    decreases |run|
  {
    if run != [] {
      StepKeepsDirs(s, run[0]);
      ExecKeepsDirs(Apply(s, run[0]), run[1..]);
    }
  }

  /** The sweep will still delete what is at this reserved name. */
  predicate Owes(sw: Sweep, n: Name) {
    n.Removing? && ((sw.Deciding? && (n in sw.names || n in sw.detached)) || (sw.Deleting? && n in sw.detached))
  }

  /** A directory is only where the sweep will still delete it, or gone. */
  predicate Doomed(s: State, w: nat, dir: nat) {
    w < |s.sweeps| && dir < s.nextDir && forall n | n in s.dirs && s.dirs[n] == dir :: Owes(s.sweeps[w], n)
  }

  /** The action fails to delete the directory. */
  predicate FailsToDelete(s: State, a: Action, dir: nat) {
    a.SweepDelete? && !a.ok && a.path in s.dirs && s.dirs[a.path] == dir
  }

  lemma SweepsStay(s: State, a: Action, w: nat)
    requires Enabled(s, a) && !IsSweepStep(a) && w < |s.sweeps|
    ensures w < |Apply(s, a).sweeps| && Apply(s, a).sweeps[w] == s.sweeps[w]
  {
    if a.Run? {
      assert Effect(s, a.call, a.choice).sweeps == s.sweeps;
    }
  }

  lemma SweepKeepsDoomed(s: State, a: Action, w: nat, dir: nat)
    requires Enabled(s, a) && IsSweepStep(a) && Doomed(s, w, dir) && !FailsToDelete(s, a, dir)
    ensures Doomed(Apply(s, a), w, dir)
  {
    var s' := Apply(s, a);
    assert a.SweepDecide? && a.name in s.dirs && s.dirs[a.name] == dir ==> Owes(s.sweeps[w], a.name);
    assert forall n | n in s'.dirs && s'.dirs[n] == dir :: n in s.dirs && s.dirs[n] == dir;
  }

  lemma DoomedStays(s: State, a: Action, w: nat, dir: nat)
    requires Enabled(s, a) && Doomed(s, w, dir) && !FailsToDelete(s, a, dir)
    ensures Doomed(Apply(s, a), w, dir)
  {
    if IsSweepStep(a) {
      SweepKeepsDoomed(s, a, w, dir);
    } else {
      CallsGrowDirs(s, a);
      SweepsStay(s, a, w);
    }
  }

  /** Nothing touches the volume: no call works on it, and it is neither recorded nor served. */
  predicate Orphan(s: State, v: nat) {
    v !in s.recorded && v !in s.accepting && v !in s.mutex
  }

  /** Somebody begins to work on the volume, or its mount begins to accept connections. */
  predicate Touches(a: Action, v: nat) {
    (a.CallStage? || a.CallRecover? || a.CallUnstage? || a.CallPublish? || a.Accept?) && a.v == v
  }

  /** The sweep has the lock and has yet to decide on the cache of the volume, the given directory. */
  predicate Awaits(s: State, w: nat, v: nat, dir: nat) {
    && w < |s.sweeps| && Cache(v) in s.dirs && s.dirs[Cache(v)] == dir
    && (s.sweeps[w].Keeping? || (s.sweeps[w].Deciding? && Cache(v) in s.sweeps[w].names && v !in s.sweeps[w].keep))
  }

  /** The cache is skipped, as kubelet has staged the volume, or cannot be moved, or cannot be deleted. */
  predicate Spares(s: State, a: Action, v: nat, dir: nat) {
    (a.SweepDecide? && a.name == Cache(v) && (a.skip || a.aside in s.dirs)) || FailsToDelete(s, a, dir)
  }

  lemma EffectLeavesOthers(s: State, c: nat, choice: Choice, v: nat)
    requires Enabled(s, Run(c, choice)) && s.calls[c].v != v
    ensures var s' := Effect(s, c, choice);
            && SameDir(s, s', Cache(v)) && s'.mutex == s.mutex && s'.calls == s.calls
            && (v in s'.recorded <==> v in s.recorded) && (v in s'.accepting <==> v in s.accepting)
  {
  }

  /** A call of another volume leaves this one and its cache alone. */
  lemma OthersLeaveOrphan(s: State, c: nat, choice: Choice, v: nat)
    requires LockInv(s) && Enabled(s, Run(c, choice)) && Orphan(s, v)
    ensures Orphan(RunApply(s, c, choice), v) && SameDir(s, RunApply(s, c, choice), Cache(v))
  {
    assert s.calls[c].v in s.mutex;
    EffectLeavesOthers(s, c, choice, v);
  }

  lemma OrphanStays(s: State, a: Action, v: nat)
    requires LockInv(s) && Enabled(s, a) && Orphan(s, v) && !Touches(a, v)
    ensures Orphan(Apply(s, a), v) && (!IsSweepStep(a) ==> SameDir(s, Apply(s, a), Cache(v)))
  {
    if a.Run? {
      OthersLeaveOrphan(s, a.call, a.choice, v);
    }
  }

  lemma SweepGetsToCache(s: State, a: Action, w: nat, v: nat, dir: nat)
    requires LockInv(s) && DirsInv(s) && Enabled(s, a) && Orphan(s, v) && Awaits(s, w, v, dir) && IsSweepStep(a)
    requires !Spares(s, a, v, dir)
    ensures Awaits(Apply(s, a), w, v, dir) || Doomed(Apply(s, a), w, dir)
  {
    assert s.writer == Some(w);
  }

  predicate Untouched(run: seq<Action>, v: nat) {
    forall a | a in run :: !Touches(a, v)
  }

  predicate NeverSpares(s: State, run: seq<Action>, v: nat, dir: nat)
    requires Executable(s, run)
    decreases |run|
  {
    run == [] || (!Spares(s, run[0], v, dir) && NeverSpares(Apply(s, run[0]), run[1..], v, dir))
  }

  lemma {:induction false} OrphanIsTaken(s: State, run: seq<Action>, w: nat, v: nat, dir: nat)
    requires Inv(s) && DirsInv(s) && Executable(s, run) && Orphan(s, v) && Untouched(run, v)
    requires Awaits(s, w, v, dir) || Doomed(s, w, dir)
    requires NeverSpares(s, run, v, dir)
    ensures Awaits(Exec(s, run), w, v, dir) || Doomed(Exec(s, run), w, dir)
    decreases |run|
  {
    if run != [] {
      var a := run[0];
      assert a in run;
      StepPreservesInv(s, a);
      StepKeepsDirs(s, a);
      OrphanStays(s, a, v);
      if Doomed(s, w, dir) {
        DoomedStays(s, a, w, dir);
      } else if IsSweepStep(a) {
        SweepGetsToCache(s, a, w, v, dir);
      } else {
        SweepsStay(s, a, w);
      }
      OrphanIsTaken(Apply(s, a), run[1..], w, v, dir);
    }
  }

  /**
   Over every run of a whole sweep, whatever else goes on: a cache directory that is there when the
   sweep has its lock, and whose volume nobody records, serves or works on meanwhile, is gone when
   the sweep is over, unless kubelet has the volume staged, or the move or the deletion failed.
   */
  lemma SweepRemovesOrphans(s: State, run: seq<Action>, w: nat, v: nat)
    requires Reachable(s) && Executable(s, run)
    requires w < |s.sweeps| && s.sweeps[w].Keeping? && Cache(v) in s.dirs && Orphan(s, v) && Untouched(run, v)
    requires NeverSpares(s, run, v, s.dirs[Cache(v)])
    requires w < |Exec(s, run).sweeps| && Exec(s, run).sweeps[w].Swept?
    ensures s.dirs[Cache(v)] !in Exec(s, run).dirs.Values
  {
    ReachableInv(s);
    ReachableDirs(s);
    OrphanIsTaken(s, run, w, v, s.dirs[Cache(v)]);
  }

  lemma ReachableDirs(s: State)
    requires Reachable(s)
    ensures DirsInv(s)
  {
    var s0: State, run: seq<Action> :| Init(s0) && Executable(s0, run) && Exec(s0, run) == s;
    ExecKeepsDirs(s0, run);
  }

  predicate NeverFailsToDelete(s: State, run: seq<Action>, dir: nat)
    requires Executable(s, run)
    decreases |run|
  {
    run == [] || (!FailsToDelete(s, run[0], dir) && NeverFailsToDelete(Apply(s, run[0]), run[1..], dir))
  }

  lemma {:induction false} DoomedStaysDoomed(s: State, run: seq<Action>, w: nat, dir: nat)
    requires Executable(s, run) && Doomed(s, w, dir) && NeverFailsToDelete(s, run, dir)
    ensures Doomed(Exec(s, run), w, dir)
    decreases |run|
  {
    if run != [] {
      DoomedStays(s, run[0], w, dir);
      DoomedStaysDoomed(Apply(s, run[0]), run[1..], w, dir);
    }
  }

  /**
   Over every run: whatever a sweep has moved aside, and every leftover of an earlier sweep it has
   listed, is gone when the sweep is over, unless its deletion failed.
   */
  lemma SweepDeletesWhatItOwes(s: State, run: seq<Action>, w: nat, n: Name)
    requires Reachable(s) && Executable(s, run) && n in s.dirs
    requires w < |s.sweeps| && Owes(s.sweeps[w], n)
    requires NeverFailsToDelete(s, run, s.dirs[n])
    requires w < |Exec(s, run).sweeps| && Exec(s, run).sweeps[w].Swept?
    ensures s.dirs[n] !in Exec(s, run).dirs.Values
  {
    ReachableDirs(s);
    DoomedStaysDoomed(s, run, w, s.dirs[n]);
  }

  // ----- the volumes adopted during a sweep -----

  lemma {:induction false} ExecAppend(s: State, run: seq<Action>, a: Action)
    requires Executable(s, run) && Enabled(Exec(s, run), a)
    ensures Executable(s, run + [a]) && Exec(s, run + [a]) == Apply(Exec(s, run), a)
    decreases |run|
  {
    if run == [] {
      assert [a][1..] == [];
    } else {
      ExecAppend(Apply(s, run[0]), run[1..], a);
      assert (run + [a])[1..] == run[1..] + [a];
    }
  }

  lemma ReachableStep(s: State, a: Action)
    requires Reachable(s) && Enabled(s, a)
    ensures Reachable(Apply(s, a))
  {
    var s0: State, run: seq<Action> :| Init(s0) && Executable(s0, run) && Exec(s0, run) == s;
    ExecAppend(s0, run, a);
  }

  // ----- what stages, unstages and recoveries achieve -----

  ghost predicate Leads(s: State, x: State) {
    exists run: seq<Action> :: Executable(s, run) && Exec(s, run) == x
  }

  lemma LeadsStep(s: State, x: State, a: Action)
    requires Leads(s, x) && Enabled(x, a)
    ensures Leads(s, Apply(x, a))
  {
    var run: seq<Action> :| Executable(s, run) && Exec(s, run) == x;
    ExecAppend(s, run, a);
  }

  lemma LeadsNowhere(s: State)
    ensures Leads(s, s)
  {
    assert Executable(s, []) && Exec(s, []) == s;
  }

  /** Unless a sweep decides, a stage can run to its end: the volume is recorded, and its mount uses its cache. */
  lemma StageCompletes(s: State, v: nat) returns (x: State)
    requires s.writer.None? && v !in s.mutex && v !in s.recorded
    ensures Leads(s, x) && x.recorded == s.recorded + {v} && v !in x.mutex && x.calls == s.calls + [Over]
    ensures Cache(v) in x.dirs && v in x.mounts && x.mounts[v] == x.dirs[Cache(v)] && (Cache(v) in s.dirs ==> x.dirs == s.dirs)
    ensures v !in x.accepting && v !in x.stray
  {
    var c := |s.calls|;
    var run := [ CallStage(v), Run(c, Ok), Run(c, Ok), Run(c, Ok), Run(c, Ok) ];
    var pcs := [ StageLock(v), StageMount(v), StageRecord(v), StageRelease(v), Over ];
    x := s;
    LeadsNowhere(s);
    for i := 0 to |run|
      invariant Leads(s, x) && x.calls == (if i == 0 then s.calls else s.calls + [pcs[i - 1]]) && x.writer.None?
      invariant (v in x.mutex <==> 0 < i < 5) && x.recorded == if i < 4 then s.recorded else s.recorded + {v}
      invariant i < 3 || Cache(v) in s.dirs ==> x.dirs == s.dirs
      invariant i >= 3 ==> Cache(v) in x.dirs && v in x.mounts && x.mounts[v] == x.dirs[Cache(v)] && v !in x.accepting && v !in x.stray
    {
      LeadsStep(s, x, run[i]);
      x := Apply(x, run[i]);
    }
  }

  /** An unstage can run to its end: the volume is not recorded, its mount has stopped and its cache is gone. */
  lemma UnstageCompletes(s: State, v: nat) returns (x: State)
    requires v !in s.mutex
    ensures Leads(s, x) && x.recorded == s.recorded - {v} && v !in x.mutex && x.calls == s.calls + [Over]
    ensures v !in x.mounts && v !in x.accepting && x.dirs == s.dirs - {Cache(v)}
  {
    var c := |s.calls|;
    var run := [ CallUnstage(v), Run(c, Ok), Run(c, Ok), Run(c, Ok) ];
    var pcs := [ UnstageStop(v), UnstageCache(v), UnstageForget(v), Over ];
    x := s;
    LeadsNowhere(s);
    for i := 0 to |run|
      invariant Leads(s, x) && x.calls == if i == 0 then s.calls else s.calls + [pcs[i - 1]]
      invariant (v in x.mutex <==> 0 < i < 4) && x.recorded == if i < 4 then s.recorded else s.recorded - {v}
      invariant x.dirs == if i < 3 then s.dirs else s.dirs - {Cache(v)}
      invariant i >= 2 ==> v !in x.mounts && v !in x.accepting
    {
      LeadsStep(s, x, run[i]);
      x := Apply(x, run[i]);
    }
  }

  /** A recovery can run to its end: the mount has been restarted on a new cache directory. */
  lemma RecoveryCompletes(s: State, v: nat) returns (x: State)
    requires v !in s.mutex && v in s.recorded
    ensures Leads(s, x) && x.recorded == s.recorded && v !in x.mutex && x.calls == s.calls + [Over]
    ensures v in x.mounts && x.mounts[v] == s.nextDir && x.dirs == s.dirs[Cache(v) := s.nextDir] && v !in x.accepting && v !in x.stray
  {
    var c := |s.calls|;
    var run := [ CallRecover(v), Run(c, Ok), Run(c, Ok) ];
    var pcs := [ RecoverStop(v), RecoverMount(v), Over ];
    x := s;
    LeadsNowhere(s);
    for i := 0 to |run|
      invariant Leads(s, x) && x.calls == (if i == 0 then s.calls else s.calls + [pcs[i - 1]]) && x.recorded == s.recorded
      invariant (v in x.mutex <==> 0 < i < 3) && (i < 3 ==> x.nextDir == s.nextDir)
      invariant x.dirs == if i < 2 then s.dirs else if i == 2 then s.dirs - {Cache(v)} else s.dirs[Cache(v) := s.nextDir]
      invariant i == 3 ==> v in x.mounts && x.mounts[v] == s.nextDir && v !in x.accepting && v !in x.stray
    {
      LeadsStep(s, x, run[i]);
      x := Apply(x, run[i]);
    }
  }

  /**
   An unstage that only unmounts the path, or of a volume that is not recorded, goes on although the
   mount process runs: the cache and the socket are gone, and the mount is left behind.
   */
  lemma UnstageLeavesMountBehind(s: State, v: nat, stop: Choice) returns (x: State)
    requires v !in s.mutex && (stop.LeftRunning? || (stop.Err? && v !in s.recorded))
    ensures Leads(s, x) && x.recorded == s.recorded - {v} && v !in x.mutex && x.calls == s.calls + [Over]
    ensures x.mounts == s.mounts && x.dirs == s.dirs - {Cache(v)} && v !in x.accepting && (v in s.mounts ==> v in x.stray)
  {
    var c := |s.calls|;
    var run := [ CallUnstage(v), Run(c, stop), Run(c, Ok), Run(c, Ok) ];
    var pcs := [ UnstageStop(v), UnstageCache(v), UnstageForget(v), Over ];
    x := s;
    LeadsNowhere(s);
    for i := 0 to |run|
      invariant Leads(s, x) && x.calls == if i == 0 then s.calls else s.calls + [pcs[i - 1]]
      invariant (v in x.mutex <==> 0 < i < 4) && x.mounts == s.mounts
      invariant x.recorded == if i < 4 then s.recorded else s.recorded - {v}
      invariant x.dirs == if i < 3 then s.dirs else s.dirs - {Cache(v)}
      invariant i >= 3 ==> v !in x.accepting && (v in s.mounts ==> v in x.stray)
    {
      LeadsStep(s, x, run[i]);
      x := Apply(x, run[i]);
    }
  }

  /** A stop that fails ends a recovery, or an unstage of a recorded volume, and changes nothing. */
  lemma FailedStopChangesNothing(s: State, c: nat, choice: Choice)
    requires Enabled(s, Run(c, choice)) && (choice.Err? || choice.Adopt?)
    requires s.calls[c].RecoverStop? || (s.calls[c].UnstageStop? && s.calls[c].v in s.recorded)
    ensures Apply(s, Run(c, choice)) == s.(calls := s.calls[c := Over], mutex := s.mutex - {s.calls[c].v})
  {
  }

  /** A stage or a recovery starts the mount process of the volume. */
  predicate StartsMount(s: State, a: Action, v: nat) {
    && a.Run? && a.call < |s.calls| && (a.choice.Ok? || a.choice.LeftRunning?)
    && (s.calls[a.call] == StageMount(v) || s.calls[a.call] == RecoverMount(v))
  }

  /** The unstage of the volume removes its local socket. */
  predicate RemovesSocket(s: State, a: Action, v: nat) {
    a.Run? && a.call < |s.calls| && s.calls[a.call] == UnstageCache(v)
  }

  /** A call moves on without changing what its action did. */
  lemma RunHasItsEffect(s: State, c: nat, choice: Choice)
    requires Enabled(s, Run(c, choice))
    ensures var x, s' := Apply(s, Run(c, choice)), Effect(s, c, choice);
            && x.mounts == s'.mounts && x.accepting == s'.accepting && x.stray == s'.stray && x.adopted == s'.adopted
            && x.recorded == s'.recorded && x.dirs == s'.dirs
  {
  }

  lemma EffectOnMounts(s: State, c: nat, choice: Choice, v: nat)
    requires Enabled(s, Run(c, choice))
    ensures v in Effect(s, c, choice).mounts <==>
              || StartsMount(s, Run(c, choice), v)
              || (v in s.mounts && !(choice.Ok? && (s.calls[c] == RecoverStop(v) || s.calls[c] == UnstageStop(v))))
  {
  }

  lemma EffectOnServed(s: State, c: nat, choice: Choice, v: nat)
    requires Enabled(s, Run(c, choice)) && s.accepting <= s.mounts.Keys
    ensures v in Effect(s, c, choice).accepting <==>
              && v in s.accepting && !StartsMount(s, Run(c, choice), v) && !RemovesSocket(s, Run(c, choice), v)
              && !(choice.Ok? && (s.calls[c] == RecoverStop(v) || s.calls[c] == UnstageStop(v)))
  {
  }

  lemma EffectOnStray(s: State, c: nat, choice: Choice, v: nat)
    requires Enabled(s, Run(c, choice))
    ensures v in Effect(s, c, choice).stray <==>
              || (choice.LeftRunning? && s.calls[c] == StageMount(v))
              || (RemovesSocket(s, Run(c, choice), v) && v in s.mounts)
              || (v in s.stray && !StartsMount(s, Run(c, choice), v)
                  && !(choice.Ok? && (s.calls[c] == RecoverStop(v) || s.calls[c] == UnstageStop(v))))
  {
  }

  lemma EffectOnRecords(s: State, c: nat, choice: Choice, v: nat)
    requires Enabled(s, Run(c, choice))
    ensures var adopts := choice.Ok? && s.calls[c] == PublishAdopt(v);
            && (v in Effect(s, c, choice).adopted <==> adopts || v in s.adopted)
            && (v in Effect(s, c, choice).recorded <==>
                s.calls[c] == StageRecord(v) || adopts || (v in s.recorded && s.calls[c] != UnstageForget(v)))
  {
  }

  lemma EffectOnDirs(s: State, c: nat, choice: Choice, n: Name)
    requires Enabled(s, Run(c, choice)) && n in s.dirs
    ensures n !in Effect(s, c, choice).dirs <==>
              choice.Ok? && n.Cache? && (s.calls[c] == RecoverStop(n.volume) || s.calls[c] == UnstageCache(n.volume))
  {
  }

  /** A mount process stops if and only if it crashes, or a recovery or an unstage stops it. */
  lemma MountStopsIff(s: State, a: Action, v: nat)
    requires Enabled(s, a) && v in s.mounts
    ensures v !in Apply(s, a).mounts <==>
              || a == Crash(v)
              || (a.Run? && a.choice.Ok? && (s.calls[a.call] == RecoverStop(v) || s.calls[a.call] == UnstageStop(v)))
  {
    if a.Run? {
      RunHasItsEffect(s, a.call, a.choice);
      EffectOnMounts(s, a.call, a.choice, v);
    }
  }

  /** A mount process starts if and only if a stage or a recovery starts it. */
  lemma MountStartsIff(s: State, a: Action, v: nat)
    requires Enabled(s, a) && v !in s.mounts
    ensures v in Apply(s, a).mounts <==> StartsMount(s, a, v)
  {
    if a.Run? {
      RunHasItsEffect(s, a.call, a.choice);
      EffectOnMounts(s, a.call, a.choice, v);
    }
  }

  /** Which mounts are served: those that have begun to accept connections since they started, and kept their socket. */
  lemma ServedIff(s: State, a: Action, v: nat)
    requires Reachable(s) && Enabled(s, a)
    ensures v in Apply(s, a).accepting <==>
              a == Accept(v) || (v in s.accepting && v in Apply(s, a).mounts && !StartsMount(s, a, v) && !RemovesSocket(s, a, v))
  {
    ServedMountsRun(s);
    if a.Run? {
      RunHasItsEffect(s, a.call, a.choice);
      EffectOnMounts(s, a.call, a.choice, v);
      EffectOnServed(s, a.call, a.choice, v);
    }
  }

  lemma ServedMountsRun(s: State)
    requires Reachable(s)
    ensures s.accepting <= s.mounts.Keys
  {
    ReachableInv(s);
  }

  lemma StrayStep(s: State, a: Action, v: nat)
    requires Enabled(s, a) && s.stray <= s.mounts.Keys
    ensures v in Apply(s, a).stray <==>
              || (a.Run? && a.choice.LeftRunning? && s.calls[a.call] == StageMount(v))
              || (RemovesSocket(s, a, v) && v in s.mounts)
              || (v in s.stray && v in Apply(s, a).mounts && !StartsMount(s, a, v))
    ensures v in Apply(s, a).stray ==> v in Apply(s, a).mounts
  {
    if a.Run? {
      RunHasItsEffect(s, a.call, a.choice);
      EffectOnMounts(s, a.call, a.choice, v);
      EffectOnStray(s, a.call, a.choice, v);
    }
  }

  lemma {:induction false} ExecKeepsStray(s: State, run: seq<Action>)
    requires s.stray <= s.mounts.Keys && Executable(s, run)
    ensures Exec(s, run).stray <= Exec(s, run).mounts.Keys
    decreases |run|
  {
    if run != [] {
      forall v | v in Apply(s, run[0]).stray
        ensures v in Apply(s, run[0]).mounts
      {
        StrayStep(s, run[0], v);
      }
      ExecKeepsStray(Apply(s, run[0]), run[1..]);
    }
  }

  lemma ReachableStray(s: State)
    requires Reachable(s)
    ensures s.stray <= s.mounts.Keys
  {
    var s0: State, run: seq<Action> :| Init(s0) && Executable(s0, run) && Exec(s0, run) == s;
    ExecKeepsStray(s0, run);
  }

  /** Which mounts are stray: those a failed stage left running or an unstage took the socket from, since they started. */
  lemma StrayIff(s: State, a: Action, v: nat)
    requires Reachable(s) && Enabled(s, a)
    ensures v in Apply(s, a).stray <==>
              || (a.Run? && a.choice.LeftRunning? && s.calls[a.call] == StageMount(v))
              || (RemovesSocket(s, a, v) && v in s.mounts)
              || (v in s.stray && v in Apply(s, a).mounts && !StartsMount(s, a, v))
  {
    ReachableStray(s);
    StrayStep(s, a, v);
  }

  /** Which volumes count as adopted: those a publish has recorded since a sweep last listed. */
  lemma AdoptedIff(s: State, a: Action, v: nat)
    requires Enabled(s, a)
    ensures v in Apply(s, a).adopted <==>
              (a.Run? && a.choice.Ok? && s.calls[a.call] == PublishAdopt(v)) || (v in s.adopted && !a.SweepKeep?)
  {
    if a.Run? {
      RunHasItsEffect(s, a.call, a.choice);
      EffectOnRecords(s, a.call, a.choice, v);
    }
  }

  /** Which volumes are recorded: those a stage or a publish has recorded, until an unstage forgets them. */
  lemma RecordedIff(s: State, a: Action, v: nat)
    requires Enabled(s, a)
    ensures v in Apply(s, a).recorded <==>
              || (a.Run? && (s.calls[a.call] == StageRecord(v) || (a.choice.Ok? && s.calls[a.call] == PublishAdopt(v))))
              || (v in s.recorded && !(a.Run? && s.calls[a.call] == UnstageForget(v)))
  {
    if a.Run? {
      RunHasItsEffect(s, a.call, a.choice);
      EffectOnRecords(s, a.call, a.choice, v);
    }
  }

  /** What besides a sweep's decision removes a directory: a recovery or an unstage its cache, a deletion a reserved name. */
  lemma DirectoryGoesIff(s: State, a: Action, n: Name)
    requires Enabled(s, a) && !a.SweepDecide? && n in s.dirs
    ensures n !in Apply(s, a).dirs <==>
              || (a.Run? && a.choice.Ok? && n.Cache? && (s.calls[a.call] == RecoverStop(n.volume) || s.calls[a.call] == UnstageCache(n.volume)))
              || (a.SweepDelete? && a.ok && a.path == n)
  {
    if a.Run? {
      RunHasItsEffect(s, a.call, a.choice);
      EffectOnDirs(s, a.call, a.choice, n);
    }
  }

  // ----- a whole sweep -----

  lemma {:induction false} StampAbove(names: set<Name>) returns (stamp: nat)
    ensures forall n | n in names && n.Removing? :: n.stamp < stamp
    decreases |names|
  {
    stamp := 0;
    if n :| n in names {
      var rest := StampAbove(names - {n});
      stamp := if n.Removing? && rest <= n.stamp then n.stamp + 1 else rest;
      assert forall m | m in names && m.Removing? :: m == n || m in names - {n};
    }
  }

  /** The names a sweep leaves: the shared chunks, and the caches of recorded volumes and of served mounts. */
  predicate Stays(s: State, n: Name) {
    n.Chunks? || (n.Cache? && (n.volume in s.recorded || n.volume in s.accepting))
  }

  /** How far the sweep has come: what it has decided on is kept or moved aside, the rest as it was. */
  ghost predicate Decided(s: State, x: State, w: nat)
    requires w < |s.sweeps|
  {
    && |x.sweeps| == |s.sweeps| && x.sweeps[w].Deciding? && x.sweeps[w].keep == s.recorded
    && x == s.(dirs := x.dirs, adopted := {}, sweeps := s.sweeps[w := x.sweeps[w]])
    && x.sweeps[w].names <= s.dirs.Keys
    && (forall n | n in x.sweeps[w].detached :: n.Removing?)
    && (forall n | n in x.dirs && n.Removing? :: n in x.sweeps[w].names || n in x.sweeps[w].detached)
    && (forall n: Name | !n.Removing? :: n in x.dirs <==> n in s.dirs && (Stays(s, n) || n in x.sweeps[w].names))
    && (forall n | n in x.dirs && !n.Removing? :: x.dirs[n] == s.dirs[n])
  }

  lemma DecideOne(s: State, x: State, w: nat, name: Name, aside: Name)
    requires w < |s.sweeps| && Decided(s, x, w) && name in x.sweeps[w].names
    requires aside.Removing? && aside !in x.dirs
    ensures Enabled(x, SweepDecide(w, name, false, aside))
    ensures Decided(s, Apply(x, SweepDecide(w, name, false, aside)), w)
    ensures Apply(x, SweepDecide(w, name, false, aside)).sweeps[w].names == x.sweeps[w].names - {name}
  {
  }

  lemma SweepDecides(s: State, w: nat) returns (x: State)
    requires w < |s.sweeps| && s.sweeps[w].Keeping?
    ensures Leads(s, x) && Decided(s, x, w) && x.sweeps[w].names == {}
  {
    LeadsNowhere(s);
    LeadsStep(s, s, SweepKeep(w));
    x := Apply(s, SweepKeep(w));
    while x.sweeps[w].names != {}
      invariant Leads(s, x) && Decided(s, x, w)
      decreases |x.sweeps[w].names|
    {
      var name :| name in x.sweeps[w].names;
      var stamp := StampAbove(x.dirs.Keys);
      DecideOne(s, x, w, name, Removing(stamp));
      LeadsStep(s, x, SweepDecide(w, name, false, Removing(stamp)));
      x := Apply(x, SweepDecide(w, name, false, Removing(stamp)));
    }
  }

  /**
   A sweep that has its lock and is left alone ends with exactly the shared chunks and the caches of
   recorded volumes and of served mounts, each the directory it was: every other name is gone.
   */
  lemma SweepLeavesExactlyCachesInUse(s: State, w: nat) returns (x: State)
    requires w < |s.sweeps| && s.sweeps[w].Keeping?
    ensures Leads(s, x) && x == s.(dirs := x.dirs, adopted := {}, writer := None, sweeps := s.sweeps[w := Swept])
    ensures forall n :: n in x.dirs <==> n in s.dirs && Stays(s, n)
    ensures forall n | n in x.dirs :: x.dirs[n] == s.dirs[n]
  {
    var decided := SweepDecides(s, w);
    LeadsStep(s, decided, SweepUnlock(w));
    x := Apply(decided, SweepUnlock(w));
    while x.sweeps[w].detached != {}
      invariant Leads(s, x) && |x.sweeps| == |s.sweeps| && x.sweeps[w].Deleting?
      invariant x == decided.(dirs := x.dirs, writer := None, sweeps := s.sweeps[w := x.sweeps[w]])
      invariant forall n | n in x.sweeps[w].detached :: n.Removing?
      invariant forall n | n in x.dirs && n.Removing? :: n in x.sweeps[w].detached
      invariant forall n: Name | !n.Removing? :: n in x.dirs <==> n in s.dirs && Stays(s, n)
      invariant forall n | n in x.dirs && !n.Removing? :: x.dirs[n] == s.dirs[n]
      decreases |x.sweeps[w].detached|
    {
      var path :| path in x.sweeps[w].detached;
      LeadsStep(s, x, SweepDelete(w, path, true));
      x := Apply(x, SweepDelete(w, path, true));
    }
    LeadsStep(s, x, SweepEnd(w));
    x := Apply(x, SweepEnd(w));
  }

  // ----- the gaps -----

  /** A mount that survived a restart of the node plugin, and a sweep that has listed the volumes. */
  const LISTED := State(map[Cache(0) := 0], 1, map[0 := 0], {0}, {}, {}, {}, map[], {}, Some(0), [],
                        [Deciding({}, {Cache(0)}, {})])

  /** The first sweep of a run gets its lock. */
  lemma SweepLocks(s: State)
    requires Reachable(s) && s.writer.None? && s.readers == {} && s.sweeps == []
    ensures Reachable(s.(writer := Some(0), sweeps := [Keeping]))
  {
    ReachableStep(s, StartSweep);
    ReachableStep(s.(sweeps := [TryLock]), SweepLock(0));
  }

  /** And lists the one directory there is. */
  lemma SweepLists(s: State)
    requires Reachable(s) && s.writer.None? && s.readers == {} && s.sweeps == [] && s.adopted == {} && s.dirs.Keys == {Cache(0)}
    ensures Reachable(s.(writer := Some(0), sweeps := [Deciding(s.recorded, {Cache(0)}, {})]))
  {
    SweepLocks(s);
    var locked := s.(writer := Some(0), sweeps := [Keeping]);
    ReachableStep(locked, SweepKeep(0));
    assert Apply(locked, SweepKeep(0)) == s.(writer := Some(0), sweeps := [Deciding(s.recorded, {Cache(0)}, {})]);
  }

  lemma ListingIsReachable()
    ensures Reachable(LISTED)
  {
    var s0 := LISTED.(writer := None, sweeps := []);
    assert Init(s0) && Executable(s0, []) && Exec(s0, []) == s0;
    assert s0.dirs.Keys == {Cache(0)};
    SweepLists(s0);
  }

  lemma PublishIsReachable()
    ensures Reachable(LISTED.(mutex := map[0 := 0], calls := [PublishAdopt(0)]))
  {
    ListingIsReachable();
    ReachableStep(LISTED, CallPublish(0));
    assert Enter(LISTED, 0, PublishAdopt(0)).calls == [PublishAdopt(0)];
  }

  /** A publish adopts the volume. */
  lemma AdoptionIsReachable()
    ensures Reachable(LISTED.(calls := [Over], recorded := {0}, adopted := {0}))
  {
    PublishIsReachable();
    var s := LISTED.(mutex := map[0 := 0], calls := [PublishAdopt(0)]);
    ReachableStep(s, Run(0, Ok));
    assert s.mutex - {0} == map[];
    assert Leave(s, 0, 0).calls == [Over];
  }

  /** Its mount crashes. */
  lemma AdoptedVolumeCrashes() returns (s: State)
    ensures Reachable(s)
    ensures s == LISTED.(calls := [Over], recorded := {0}, adopted := {0}, mounts := map[], accepting := {})
  {
    AdoptionIsReachable();
    s := LISTED.(calls := [Over], recorded := {0}, adopted := {0});
    ReachableStep(s, Crash(0));
    s := s.(mounts := map[], accepting := {});
    assert LISTED.mounts - {0} == map[];
  }

  /** A recovery begins. */
  lemma AdoptedVolumeIsRecovered() returns (s: State)
    ensures Reachable(s)
    ensures s == LISTED.(mounts := map[], accepting := {}, recorded := {0}, adopted := {0}, mutex := map[0 := 1],
                         calls := [Over, RecoverStop(0)])
  {
    var s1 := AdoptedVolumeCrashes();
    ReachableStep(s1, CallRecover(0));
    s := s1.(mutex := map[0 := 1], calls := [Over, RecoverStop(0)]);
  }

  /** And stops what is left of it. */
  lemma AdoptedVolumeIsStopped() returns (s: State)
    ensures Reachable(s)
    ensures s == State(map[], 1, map[], {}, {0}, {0}, {}, map[0 := 1], {}, Some(0), [Over, RecoverMount(0)], LISTED.sweeps)
  {
    var s2 := AdoptedVolumeIsRecovered();
    ReachableStep(s2, Run(1, Ok));
    s := s2.(calls := [Over, RecoverMount(0)], dirs := map[]);
    assert s2.dirs - {Cache(0)} == map[] && s2.mounts - {0} == map[] && Apply(s2, Run(1, Ok)) == s;
  }

  /** And its mount starts anew, not accepting yet, in a new directory. */
  lemma AdoptedVolumeIsRestarted()
    ensures Reachable(State(map[Cache(0) := 1], 2, map[0 := 1], {}, {0}, {0}, {}, map[], {}, Some(0), [Over, Over], LISTED.sweeps))
  {
    var s := AdoptedVolumeIsStopped();
    ReachableStep(s, Run(1, Ok));
    assert StartMount(s, 0).dirs == map[Cache(0) := 1] && StartMount(s, 0).mounts == map[0 := 1];
    assert Leave(StartMount(s, 0), 1, 0).calls == [Over, Over] && s.mutex - {0} == map[];
  }

  /**
   Adoption is the gap: a volume recorded without cacheMu while a sweep decides can crash and be
   recovered, and the sweep then moves the directory its new mount has just started to use.
   */
  lemma SweepCanTakeAdoptedCache()
    ensures exists s: State, a: Action, v: nat ::
              && Reachable(s) && Enabled(s, a) && IsSweepStep(a) && v in s.adopted
              && v in s.recorded && v in s.mounts && !SameDir(s, Apply(s, a), Cache(v))
  {
    AdoptedVolumeIsRestarted();
    var s := State(map[Cache(0) := 1], 2, map[0 := 1], {}, {0}, {0}, {}, map[], {}, Some(0), [Over, Over], LISTED.sweeps);
    var a := SweepDecide(0, Cache(0), false, Removing(0));
    assert Removing(0) !in s.dirs;
    assert Enabled(s, a) && !SameDir(s, Apply(s, a), Cache(0));
  }

  // ----- the mounts that stages and unstages leave behind -----

  const NOTHING := State(map[], 0, map[], {}, {}, {}, {}, map[], {}, None, [], [])

  /** A stage that has started its mount, failed and released cacheMu. */
  const FAILED := State(map[Cache(0) := 0], 1, map[0 := 0], {}, {}, {}, {0}, map[], {}, None, [Over], [])

  lemma StageIsReachable()
    ensures Reachable(NOTHING.(mutex := map[0 := 0], readers := {0}, calls := [StageMount(0)]))
  {
    assert Init(NOTHING) && Executable(NOTHING, []) && Exec(NOTHING, []) == NOTHING;
    ReachableStep(NOTHING, CallStage(0));
    var s := NOTHING.(mutex := map[0 := 0], calls := [StageLock(0)]);
    assert Enter(NOTHING, 0, StageLock(0)).calls == [StageLock(0)];
    ReachableStep(s, Run(0, Ok));
    assert Goto(s, 0, StageMount(0)).calls == [StageMount(0)];
  }

  lemma StageFails()
    ensures Reachable(FAILED.(mutex := map[0 := 0], readers := {0}, calls := [StageRelease(0)]))
  {
    StageIsReachable();
    var s := NOTHING.(mutex := map[0 := 0], readers := {0}, calls := [StageMount(0)]);
    ReachableStep(s, Run(0, LeftRunning));
    assert Goto(StartMount(s, 0), 0, StageRelease(0)).calls == [StageRelease(0)];
    assert Apply(s, Run(0, LeftRunning)) == FAILED.(mutex := map[0 := 0], readers := {0}, calls := [StageRelease(0)]);
  }

  lemma FailedStageIsReachable()
    ensures Reachable(FAILED)
  {
    StageFails();
    var failed := FAILED.(mutex := map[0 := 0], readers := {0}, calls := [StageRelease(0)]);
    ReachableStep(failed, Run(0, Ok));
    assert failed.mutex - {0} == map[] && failed.readers - {0} == {};
    assert Leave(failed, 0, 0).calls == [Over];
  }

  /**
   A stage that fails with its mount still running is the other gap: nothing was adopted, and the
   next sweep moves the directory the mount uses.
   */
  lemma SweepCanTakeStrayCache()
    ensures exists s: State, a: Action, v: nat ::
              && Reachable(s) && Enabled(s, a) && IsSweepStep(a) && s.adopted == {}
              && v in s.stray && v in s.mounts && !SameDir(s, Apply(s, a), Cache(v))
  {
    FailedStageIsReachable();
    assert FAILED.dirs.Keys == {Cache(0)};
    SweepLists(FAILED);
    var s := FAILED.(writer := Some(0), sweeps := [Deciding({}, {Cache(0)}, {})]);
    var a := SweepDecide(0, Cache(0), false, Removing(0));
    assert Removing(0) !in s.dirs;
    assert Enabled(s, a) && !SameDir(s, Apply(s, a), Cache(0));
  }

  /** A mount that survived a restart, and an unstage that could neither unmount it nor remove its cache. */
  const UNSTAGED := State(map[Cache(0) := 0], 1, map[0 := 0], {}, {}, {}, {0}, map[], {}, None, [Over], [])

  lemma UnstageBegins()
    ensures Reachable(UNSTAGED.(accepting := {0}, stray := {}, mutex := map[0 := 0], calls := [UnstageStop(0)]))
  {
    var s0 := UNSTAGED.(accepting := {0}, stray := {}, calls := []);
    assert s0.mounts.Keys == {0};
    assert Init(s0) && Executable(s0, []) && Exec(s0, []) == s0;
    ReachableStep(s0, CallUnstage(0));
    assert Enter(s0, 0, UnstageStop(0)).calls == [UnstageStop(0)];
  }

  lemma UnstageIsReachable()
    ensures Reachable(UNSTAGED.(accepting := {0}, stray := {}, mutex := map[0 := 0], calls := [UnstageCache(0)]))
  {
    UnstageBegins();
    var s := UNSTAGED.(accepting := {0}, stray := {}, mutex := map[0 := 0], calls := [UnstageStop(0)]);
    ReachableStep(s, Run(0, Err));
    assert Goto(s, 0, UnstageCache(0)).calls == [UnstageCache(0)];
  }

  lemma SocketRemovalIsReachable()
    ensures Reachable(UNSTAGED.(mutex := map[0 := 0], calls := [UnstageForget(0)]))
  {
    UnstageIsReachable();
    var s := UNSTAGED.(accepting := {0}, stray := {}, mutex := map[0 := 0], calls := [UnstageCache(0)]);
    ReachableStep(s, Run(0, Err));
    assert RemoveResources(s, 0, false).accepting == {} && RemoveResources(s, 0, false).stray == {0};
    assert Goto(s, 0, UnstageForget(0)).calls == [UnstageForget(0)];
  }

  lemma FailedUnstageIsReachable()
    ensures Reachable(UNSTAGED)
  {
    SocketRemovalIsReachable();
    var s := UNSTAGED.(mutex := map[0 := 0], calls := [UnstageForget(0)]);
    ReachableStep(s, Run(0, Ok));
    assert s.mutex - {0} == map[] && s.recorded - {0} == {};
    assert Leave(s, 0, 0).calls == [Over];
  }

  /**
   The third gap: a mount that accepted connections loses its socket to an unstage that fails to
   unmount it, and the next sweep moves the directory the mount still uses; no stage has ever failed.
   */
  lemma SweepCanTakeUnstagedCache()
    ensures exists s: State, a: Action, v: nat ::
              && Reachable(s) && Enabled(s, a) && IsSweepStep(a) && s.adopted == {} && s.calls == [Over]
              && v in s.mounts && v !in s.recorded && !SameDir(s, Apply(s, a), Cache(v))
  {
    FailedUnstageIsReachable();
    assert UNSTAGED.dirs.Keys == {Cache(0)};
    SweepLists(UNSTAGED);
    var s := UNSTAGED.(writer := Some(0), sweeps := [Deciding({}, {Cache(0)}, {})]);
    var a := SweepDecide(0, Cache(0), false, Removing(0));
    assert Removing(0) !in s.dirs;
    assert Enabled(s, a) && !SameDir(s, Apply(s, a), Cache(0));
  }
}
