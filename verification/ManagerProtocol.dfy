/**
 The mount manager for one volume: any number of Mount and Unmount calls, the goroutine that
 waits for each weed mount process, and the watcher of each recorded entry, interleaved one
 atomic action at a time.  The environment decides when a process brings its mount up, when it
 exits, which system calls fail or time out, and when somebody else unmounts a path, as the
 driver does before it stages a volume anew, or removes a cache directory, as the driver does when
 it unstages a volume and when it sweeps.
 */
module ManagerProtocol {
  import opened Common

  // ----- state -----

  /** How far a process and its wait() goroutine have come: still running, `exited` closed, the
      mount point cleaned up, `done` closed. */
  datatype Phase = Alive | Exited | Cleaned | Done

  /** A started weed mount process; `up` once it has mounted its target. */
  datatype Process = Process(target: string, cacheDir: string, phase: Phase, up: bool)

  /** A mountEntry.  A process is recorded at most once, so `pid` is the entry's identity. */
  datatype Entry = Entry(pid: nat, target: string, cacheDir: string)

  datatype Request = Request(target: string, cacheDir: string)

  /** Who owns the topmost mount at a path. */
  datatype Owner = Foreign | Weed(pid: nat)

  datatype Reply = Mounted | Conflict | MountFailed | Unmounted | StopTimedOut

  /** The next atomic action of a call.  Everything from Look on runs under the volume's lock. */
  datatype Pc =
    | MountLock(req: Request)
    | MountLook(req: Request)
    | MountSelect(req: Request, e: Entry)
    | MountAwaitDone(req: Request, e: Entry)
    | MountForget(req: Request, e: Entry)
    | MountClean(req: Request)
    | MountStart(req: Request)
    | MountWait(req: Request, pid: nat)
    | MountExitedEarly(pid: nat)
    | MountStop(pid: nat, killed: bool)
    | MountRecord(req: Request, pid: nat)
    | MountWatch(e: Entry)
    | UnmountLock
    | UnmountLook
    | UnmountStop(e: Entry, killed: bool)
    | UnmountCache(e: Entry)
    | UnmountForget(e: Entry)
    | Leave(reply: Reply)
    | Returned(reply: Reply)

  /**
   `procs` is in starting order, so a newer process has a greater index.  `abandoned` holds the
   processes whose stop() timed out while they were being started: alive but recorded nowhere.
   `outside` holds the processes whose mount somebody other than the manager has unmounted, and
   `uncached` those whose cache directory somebody else has removed.
   */
  datatype State = State(
    procs: seq<Process>,
    entry: Option<Entry>,
    lock: Option<nat>,
    calls: seq<Pc>,
    watchers: set<nat>,
    abandoned: set<nat>,
    fuse: map<string, Owner>,
    caches: set<string>,
    outside: set<nat>,
    uncached: set<nat>)

  /** How the system call or the select of an action turns out. */
  datatype Choice = Ok | Err | Timeout

  datatype Action =
    | CallMount(req: Request)
    | CallUnmount
    | Run(call: nat, choice: Choice)
    | MountUp(pid: nat)
    | Exit(pid: nat)
    | Cleanup(pid: nat, ok: bool)
    | CloseDone(pid: nat)
    | Watch(pid: nat)
    | HostUnmount(path: string)
    | RemoveCache(dir: string)

  predicate Init(s: State) {
    && s.procs == [] && s.entry.None? && s.lock.None? && s.calls == []
    && s.watchers == {} && s.abandoned == {} && s.caches == {} && s.outside == {} && s.uncached == {}
    && forall path | path in s.fuse :: s.fuse[path].Foreign?
  }

  predicate IsDone(s: State, pid: nat) {
    pid < |s.procs| && s.procs[pid].phase.Done?
  }

  // ----- transitions -----

  predicate RunEnabled(s: State, call: nat, c: Choice) {
    call < |s.calls| &&
    match s.calls[call]
    case MountLock(_) => c.Ok? && s.lock.None?
    case UnmountLock => c.Ok? && s.lock.None?
    case MountSelect(_, e) => c.Ok? && e.pid < |s.procs|
    case MountAwaitDone(_, e) => c.Ok? && IsDone(s, e.pid)
    case MountClean(_) => !c.Timeout?
    case MountStart(_) => !c.Timeout?
    case MountWait(req, pid) =>
      pid < |s.procs| && (c.Timeout? || (c.Ok? && req.target in s.fuse) || (c.Err? && !s.procs[pid].phase.Alive?))
    case MountExitedEarly(pid) => c.Ok? && IsDone(s, pid)
    case MountStop(pid, _) => c.Timeout? || (c.Ok? && IsDone(s, pid))
    case UnmountStop(e, _) => c.Timeout? || (c.Ok? && IsDone(s, e.pid))
    case UnmountCache(_) => !c.Timeout?
    case Returned(_) => false
    case _ => c.Ok?
  }

  predicate Enabled(s: State, a: Action) {
    match a
    case CallMount(_) => true
    case CallUnmount => true
    case Run(call, c) => RunEnabled(s, call, c)
    case MountUp(p) => p < |s.procs| && s.procs[p].phase.Alive? && !s.procs[p].up
    case Exit(p) => p < |s.procs| && s.procs[p].phase.Alive?
    case Cleanup(p, _) => p < |s.procs| && s.procs[p].phase.Exited?
    case CloseDone(p) => p < |s.procs| && s.procs[p].phase.Cleaned?
    case Watch(p) => p in s.watchers && IsDone(s, p)
    case HostUnmount(path) => path in s.fuse
    case RemoveCache(dir) => dir in s.caches
  }

  /** What the call does next. */
  function NextPc(s: State, call: nat, c: Choice): Pc
    requires RunEnabled(s, call, c)
  {
    match s.calls[call]
    case MountLock(req) => MountLook(req)
    case MountLook(req) => if s.entry.Some? then MountSelect(req, s.entry.value) else MountClean(req)
    case MountSelect(req, e) =>
      if !s.procs[e.pid].phase.Alive? then MountAwaitDone(req, e)
      else Leave(if e.target == req.target then Mounted else Conflict)
    case MountAwaitDone(req, e) => MountForget(req, e)
    case MountForget(req, _) => MountClean(req)
    case MountClean(req) => if c.Ok? then MountStart(req) else Leave(MountFailed)
    case MountStart(req) => if c.Ok? then MountWait(req, |s.procs|) else Leave(MountFailed)
    case MountWait(req, pid) =>
      if c.Ok? then MountRecord(req, pid)
      else if c.Err? then MountExitedEarly(pid)
      else MountStop(pid, false)
    case MountExitedEarly(_) => Leave(MountFailed)
    case MountStop(pid, killed) => if c.Timeout? && !killed then MountStop(pid, true) else Leave(MountFailed)
    case MountRecord(req, pid) => MountWatch(Entry(pid, req.target, req.cacheDir))
    case MountWatch(_) => Leave(Mounted)
    case UnmountLock => UnmountLook
    case UnmountLook => if s.entry.Some? then UnmountStop(s.entry.value, false) else Leave(Unmounted)
    case UnmountStop(e, killed) =>
      if c.Ok? then UnmountCache(e) else if killed then Leave(StopTimedOut) else UnmountStop(e, true)
    case UnmountCache(e) => UnmountForget(e)
    case UnmountForget(_) => Leave(Unmounted)
    case Leave(r) => Returned(r)
  }

  /** What the action does to everything but the calls. */
  function Effect(s: State, call: nat, c: Choice): State
    requires RunEnabled(s, call, c)
  {
    match s.calls[call]
    case MountLock(_) => s.(lock := Some(call))
    case UnmountLock => s.(lock := Some(call))
    case MountForget(_, _) => s.(entry := None)
    case MountClean(req) => if c.Ok? then s.(fuse := s.fuse - {req.target}) else s
    case MountStart(req) =>
      if c.Ok? then
        s.(procs := s.procs + [Process(req.target, req.cacheDir, Alive, false)],
        caches := s.caches + {req.cacheDir})
      else s
    case MountStop(pid, killed) => if c.Timeout? && killed then s.(abandoned := s.abandoned + {pid}) else s
    case MountRecord(req, pid) => s.(entry := Some(Entry(pid, req.target, req.cacheDir)))
    case MountWatch(e) => s.(watchers := s.watchers + {e.pid})
    case UnmountCache(e) => if c.Ok? then s.(caches := s.caches - {e.cacheDir}) else s
    case UnmountForget(_) => s.(entry := None)
    case Leave(_) => s.(lock := None)
    case _ => s
  }

  /** One atomic action of a call. */
  function RunApply(s: State, call: nat, c: Choice): State
    requires RunEnabled(s, call, c)
  {
    Effect(s, call, c).(calls := s.calls[call := NextPc(s, call, c)])
  }

  function SetPhase(s: State, p: nat, phase: Phase): State
    requires p < |s.procs|
  {
    s.(procs := s.procs[p := s.procs[p].(phase := phase)])
  }

  function Apply(s: State, a: Action): State
    requires Enabled(s, a)
  {
    match a
    case CallMount(req) => s.(calls := s.calls + [MountLock(req)])
    case CallUnmount => s.(calls := s.calls + [UnmountLock])
    case Run(call, c) => RunApply(s, call, c)
    case MountUp(p) =>
      s.(procs := s.procs[p := s.procs[p].(up := true)], fuse := s.fuse[s.procs[p].target := Weed(p)])
    case Exit(p) => SetPhase(s, p, Exited)
    case Cleanup(p, ok) =>
      SetPhase(s, p, Cleaned).(fuse := if ok then s.fuse - {s.procs[p].target} else s.fuse)
    case CloseDone(p) => SetPhase(s, p, Done)
    case Watch(p) =>
      s.(watchers := s.watchers - {p},
      entry := if s.entry.Some? && s.entry.value.pid == p then None else s.entry)
    case HostUnmount(path) =>
      s.(fuse := s.fuse - {path},
      outside := if s.fuse[path].Weed? then s.outside + {s.fuse[path].pid} else s.outside)
    case RemoveCache(dir) =>
      s.(caches := s.caches - {dir},
      uncached := s.uncached + set p | 0 <= p < |s.procs| && s.procs[p].cacheDir == dir)
  }

  predicate Executable(s: State, run: seq<Action>)
    decreases |run|
  {
    run == [] || (Enabled(s, run[0]) && Executable(Apply(s, run[0]), run[1..]))
  }

  function Exec(s: State, run: seq<Action>): State
    requires Executable(s, run)
    decreases |run|
  {
    if run == [] then s else Exec(Apply(s, run[0]), run[1..])
  }

  ghost predicate Reachable(s: State) {
    exists s0: State, run: seq<Action> :: Init(s0) && Executable(s0, run) && Exec(s0, run) == s
  }

  // ----- the invariant -----

  predicate InCritical(pc: Pc) {
    !pc.MountLock? && !pc.UnmountLock? && !pc.Returned?
  }

  /** The process a call has started and not yet recorded. */
  function PendingPid(pc: Pc): Option<nat> {
    match pc
    case MountWait(_, pid) => Some(pid)
    case MountExitedEarly(pid) => Some(pid)
    case MountStop(pid, _) => Some(pid)
    case MountRecord(_, pid) => Some(pid)
    case _ => None
  }

  /** Exactly the calls past their lock step and before their return hold the lock. */
  predicate LockInv(s: State) {
    && (s.lock.Some? ==> s.lock.value < |s.calls|)
    && forall t | 0 <= t < |s.calls| :: InCritical(s.calls[t]) <==> s.lock == Some(t)
  }

  predicate ValidEntry(s: State, e: Entry) {
    && e.pid < |s.procs| && e.pid !in s.abandoned
    && s.procs[e.pid].target == e.target && s.procs[e.pid].cacheDir == e.cacheDir
  }

  /** What a call that read `e` from the map may still rely on. */
  predicate HeldEntry(s: State, e: Entry) {
    ValidEntry(s, e) && (s.entry == Some(e) || (s.entry.None? && IsDone(s, e.pid)))
  }

  predicate PendingProcess(s: State, pid: nat) {
    s.entry.None? && pid == |s.procs| - 1 && pid !in s.abandoned && pid !in s.watchers
  }

  predicate MatchesRequest(s: State, pid: nat, req: Request) {
    pid < |s.procs| && s.procs[pid].target == req.target && s.procs[pid].cacheDir == req.cacheDir
  }

  predicate PcInv(s: State, pc: Pc) {
    match pc
    case MountSelect(_, e) => HeldEntry(s, e)
    case MountAwaitDone(_, e) => HeldEntry(s, e) && !s.procs[e.pid].phase.Alive?
    case MountForget(_, e) => HeldEntry(s, e) && IsDone(s, e.pid)
    case MountClean(_) => s.entry.None?
    case MountStart(_) => s.entry.None?
    case MountWait(req, pid) => PendingProcess(s, pid) && MatchesRequest(s, pid, req)
    case MountExitedEarly(pid) => PendingProcess(s, pid) && !s.procs[pid].phase.Alive?
    case MountStop(pid, _) => PendingProcess(s, pid)
    case MountRecord(req, pid) => PendingProcess(s, pid) && MatchesRequest(s, pid, req)
    case MountWatch(e) => s.entry == Some(e) && e.pid !in s.watchers
    case UnmountStop(e, _) => HeldEntry(s, e)
    case UnmountCache(e) => HeldEntry(s, e) && IsDone(s, e.pid)
    case UnmountForget(e) => HeldEntry(s, e) && IsDone(s, e.pid)
    case _ => true
  }

  predicate HolderInv(s: State) {
    s.lock.Some? && s.lock.value < |s.calls| ==> PcInv(s, s.calls[s.lock.value])
  }

  /** Every recorded entry has its watcher, or is about to. */
  predicate WatchInv(s: State) {
    s.entry.Some? ==>
      || s.entry.value.pid in s.watchers
      || (s.lock.Some? && s.lock.value < |s.calls| && s.calls[s.lock.value] == MountWatch(s.entry.value))
  }

  /** A weed mount belongs to a process that brought it up there, and a mount taken from outside is gone. */
  predicate OwnerInv(s: State) {
    && (forall path | path in s.fuse && s.fuse[path].Weed? ::
          var p := s.fuse[path].pid;
          p < |s.procs| && s.procs[p].up && s.procs[p].target == path && p !in s.outside)
    && (forall p | p in s.outside :: p < |s.procs| && s.procs[p].up)
  }

  /** The process is recorded, or the lock holder started it and has not recorded it yet. */
  predicate Owned(s: State, pid: nat) {
    || (s.entry.Some? && s.entry.value.pid == pid)
    || (s.lock.Some? && s.lock.value < |s.calls| && PendingPid(s.calls[s.lock.value]) == Some(pid))
  }

  /** A process that is neither done nor abandoned is the newest one, and somebody owns it. */
  predicate ProcInv(s: State) {
    forall p | 0 <= p < |s.procs| && p !in s.abandoned && !s.procs[p].phase.Done? ::
      p == |s.procs| - 1 && Owned(s, p)
  }

  predicate EntryInv(s: State) {
    && (s.entry.Some? ==> ValidEntry(s, s.entry.value))
    && (forall p | p in s.watchers :: p < |s.procs|)
    && (forall p | p in s.abandoned :: p < |s.procs|)
  }

  predicate Inv(s: State) {
    LockInv(s) && EntryInv(s) && HolderInv(s) && ProcInv(s) && WatchInv(s) && OwnerInv(s)
  }

  // ----- the invariant is inductive -----

  lemma InitInv(s: State)
    requires Init(s)
    ensures Inv(s)
  {
  }

  /** Owned looks only at the entry, the lock and the holder's action. */
  lemma OnlyHolderPending(s: State, call: nat)
    requires Inv(s) && call < |s.calls| && InCritical(s.calls[call])
    ensures s.lock == Some(call)
    ensures forall p :: Owned(s, p) <==>
                        (s.entry.Some? && s.entry.value.pid == p) || PendingPid(s.calls[call]) == Some(p)
  {
  }

  lemma AcquirePreserves(s: State, call: nat, c: Choice)
    requires Inv(s) && RunEnabled(s, call, c)
    requires s.calls[call].MountLock? || s.calls[call].UnmountLock?
    ensures Inv(RunApply(s, call, c))
  {
  }

  lemma MountPreserves(s: State, call: nat, c: Choice)
    requires Inv(s) && RunEnabled(s, call, c)
    requires var pc := s.calls[call];
             pc.MountLook? || pc.MountSelect? || pc.MountAwaitDone? || pc.MountForget? || pc.MountClean? || pc.MountStart?
    ensures Inv(RunApply(s, call, c))
  {
    OnlyHolderPending(s, call);
  }

  lemma WaitPreserves(s: State, call: nat, c: Choice)
    requires Inv(s) && RunEnabled(s, call, c)
    requires var pc := s.calls[call]; pc.MountWait? || pc.MountExitedEarly? || pc.MountStop?
    ensures Inv(RunApply(s, call, c))
  {
    OnlyHolderPending(s, call);
  }

  lemma RecordPreserves(s: State, call: nat, c: Choice)
    requires Inv(s) && RunEnabled(s, call, c)
    requires var pc := s.calls[call]; pc.MountRecord? || pc.MountWatch? || pc.Leave?
    ensures Inv(RunApply(s, call, c))
  {
    OnlyHolderPending(s, call);
  }

  lemma UnmountPreserves(s: State, call: nat, c: Choice)
    requires Inv(s) && RunEnabled(s, call, c)
    requires var pc := s.calls[call];
             pc.UnmountLook? || pc.UnmountStop? || pc.UnmountCache? || pc.UnmountForget?
    ensures Inv(RunApply(s, call, c))
  {
    OnlyHolderPending(s, call);
  }

  lemma HostUnmountPreserves(s: State, path: string)
    requires Inv(s) && Enabled(s, HostUnmount(path))
    ensures Inv(Apply(s, HostUnmount(path)))
  {
  }

  lemma RemoveCachePreserves(s: State, dir: string)
    requires Inv(s) && Enabled(s, RemoveCache(dir))
    ensures Inv(Apply(s, RemoveCache(dir)))
  {
  }

  lemma MountUpPreserves(s: State, p: nat)
    requires Inv(s) && Enabled(s, MountUp(p))
    ensures Inv(Apply(s, MountUp(p)))
  {
  }

  lemma PhasePreserves(s: State, p: nat, phase: Phase)
    requires Inv(s) && p < |s.procs| && !s.procs[p].phase.Done? && !phase.Alive?
    ensures Inv(SetPhase(s, p, phase))
  {
  }

  lemma ProcessPreserves(s: State, a: Action)
    requires Inv(s) && Enabled(s, a)
    requires a.MountUp? || a.Exit? || a.Cleanup? || a.CloseDone?
    ensures Inv(Apply(s, a))
  {
    if a.MountUp? {
      MountUpPreserves(s, a.pid);
    } else if a.Exit? {
      PhasePreserves(s, a.pid, Exited);
    } else if a.Cleanup? {
      PhasePreserves(s, a.pid, Cleaned);
    } else {
      PhasePreserves(s, a.pid, Done);
    }
  }

  lemma WatchPreserves(s: State, p: nat)
    requires Inv(s) && Enabled(s, Watch(p))
    ensures Inv(Apply(s, Watch(p)))
  {
  }

  lemma RunPreserves(s: State, call: nat, c: Choice)
    requires Inv(s) && RunEnabled(s, call, c)
    ensures Inv(RunApply(s, call, c))
  {
    var pc := s.calls[call];
    if pc.MountLock? || pc.UnmountLock? {
      AcquirePreserves(s, call, c);
    } else if pc.MountLook? || pc.MountSelect? || pc.MountAwaitDone? || pc.MountForget? || pc.MountClean? || pc.MountStart? {
      MountPreserves(s, call, c);
    } else if pc.UnmountLook? || pc.UnmountStop? || pc.UnmountCache? || pc.UnmountForget? {
      UnmountPreserves(s, call, c);
    } else if pc.MountWait? || pc.MountExitedEarly? || pc.MountStop? {
      WaitPreserves(s, call, c);
    } else {
      RecordPreserves(s, call, c);
    }
  }

  lemma CallPreserves(s: State, a: Action)
    requires Inv(s) && (a.CallMount? || a.CallUnmount?)
    ensures Inv(Apply(s, a))
  {
  }

  /** Every atomic action keeps the invariant. */
  lemma StepPreservesInv(s: State, a: Action)
    requires Inv(s) && Enabled(s, a)
    ensures Inv(Apply(s, a))
  {
    if a.Run? {
      RunPreserves(s, a.call, a.choice);
    } else if a.CallMount? || a.CallUnmount? {
      CallPreserves(s, a);
    } else if a.Watch? {
      WatchPreserves(s, a.pid);
    } else if a.HostUnmount? {
      HostUnmountPreserves(s, a.path);
    } else if a.RemoveCache? {
      RemoveCachePreserves(s, a.dir);
    } else {
      ProcessPreserves(s, a);
    }
  }

  lemma {:induction false} ExecPreservesInv(s: State, run: seq<Action>)
    requires Inv(s) && Executable(s, run)
    ensures Inv(Exec(s, run))
    decreases |run|
  {
    if run != [] {
      StepPreservesInv(s, run[0]);
      ExecPreservesInv(Apply(s, run[0]), run[1..]);
    }
  }

  lemma ReachableInv(s: State)
    requires Reachable(s)
    ensures Inv(s)
  {
    var s0: State, run: seq<Action> :| Init(s0) && Executable(s0, run) && Exec(s0, run) == s;
    InitInv(s0);
    ExecPreservesInv(s0, run);
  }

  // ----- safety in every interleaving -----

  /** At most one process outside the abandoned set is not done, and it is the newest process. */
  lemma AtMostOneLiveProcess(s: State, p: nat, q: nat)
    requires Reachable(s)
    requires p < |s.procs| && p !in s.abandoned && !s.procs[p].phase.Done?
    requires q < |s.procs| && q !in s.abandoned && !s.procs[q].phase.Done?
    ensures p == q == |s.procs| - 1
  {
    ReachableInv(s);
  }

  /** The post-exit unmount of an older process never runs after a newer one was started. */
  lemma CleanupNeverAfterNewerStart(s: State, p: nat, ok: bool)
    requires Reachable(s) && Enabled(s, Cleanup(p, ok)) && p !in s.abandoned
    ensures p == |s.procs| - 1
  {
    ReachableInv(s);
  }

  /** Unmount removes the cache directory only when every process not abandoned is done. */
  lemma CacheRemovedOnlyWhenQuiet(s: State, call: nat, p: nat)
    requires Reachable(s) && call < |s.calls| && s.calls[call].UnmountCache?
    requires p < |s.procs| && p !in s.abandoned
    ensures IsDone(s, p)
  {
    ReachableInv(s);
    OnlyHolderPending(s, call);
  }

  /**
   Whatever removes an entry (the watcher by identity, or the unconditional deletes of Mount
   and Unmount) removes one whose own process is done; no action replaces one entry by another.
   */
  lemma OnlyDoneEntriesAreRemoved(s: State, a: Action)
    requires Reachable(s) && Enabled(s, a) && s.entry.Some?
    ensures Apply(s, a).entry == s.entry || (Apply(s, a).entry.None? && IsDone(s, s.entry.value.pid))
  {
    ReachableInv(s);
    if a.Run? && InCritical(s.calls[a.call]) {
      OnlyHolderPending(s, a.call);
    }
  }

  // ----- the mount and the cache of a live entry -----

  /** Every abandoned process has run its post-exit cleanup. */
  predicate AbandonedCleaned(s: State) {
    forall p | p in s.abandoned && p < |s.procs| :: s.procs[p].phase.Cleaned? || s.procs[p].phase.Done?
  }

  /** The process's own mount is on top at its target. */
  predicate MountStands(s: State, p: nat) {
    p < |s.procs| && s.procs[p].target in s.fuse && s.fuse[s.procs[p].target] == Weed(p)
  }

  /** The mount of a running process that is up stands, unless it was taken from outside. */
  predicate FuseInv(s: State) {
    && (forall p | 0 <= p < |s.procs| && p !in s.abandoned && s.procs[p].phase.Alive? && s.procs[p].up ::
          MountStands(s, p) <==> p !in s.outside)
    && (LiveEntry(s) ==> s.procs[s.entry.value.pid].up)
    && (s.lock.Some? && s.lock.value < |s.calls| ==>
          match s.calls[s.lock.value]
          case MountStart(req) => req.target !in s.fuse
          case MountWait(req, pid) => req.target in s.fuse && pid < |s.procs| ==> s.procs[pid].up
          case MountRecord(_, pid) => pid < |s.procs| && s.procs[pid].phase.Alive? ==> s.procs[pid].up
          case _ => true)
  }

  /** The volume is recorded as mounted by a running process. */
  predicate LiveEntry(s: State) {
    s.entry.Some? && s.entry.value.pid < |s.procs| && s.procs[s.entry.value.pid].phase.Alive?
  }

  lemma RunPreservesFuse(s: State, call: nat, c: Choice)
    requires Inv(s) && FuseInv(s) && RunEnabled(s, call, c) && AbandonedCleaned(s)
    requires RunApply(s, call, c).abandoned == s.abandoned
    ensures FuseInv(RunApply(s, call, c))
  {
    if InCritical(s.calls[call]) {
      OnlyHolderPending(s, call);
    }
  }

  lemma ProcessPreservesFuse(s: State, a: Action)
    requires Inv(s) && FuseInv(s) && Enabled(s, a) && AbandonedCleaned(s)
    requires a.MountUp? || a.Exit? || a.Cleanup? || a.CloseDone?
    ensures FuseInv(Apply(s, a)) && AbandonedCleaned(Apply(s, a))
  {
  }

  lemma OutsidePreservesFuse(s: State, a: Action)
    requires Inv(s) && FuseInv(s) && Enabled(s, a) && AbandonedCleaned(s)
    requires a.CallMount? || a.CallUnmount? || a.Watch? || a.HostUnmount? || a.RemoveCache?
    ensures FuseInv(Apply(s, a)) && AbandonedCleaned(Apply(s, a))
  {
  }

  lemma AbandonedStayCleaned(s: State, call: nat, c: Choice)
    requires Inv(s) && RunEnabled(s, call, c) && AbandonedCleaned(s) && RunApply(s, call, c).abandoned == s.abandoned
    ensures AbandonedCleaned(RunApply(s, call, c))
  {
  }

  lemma StepPreservesFuse(s: State, a: Action)
    requires Inv(s) && FuseInv(s) && Enabled(s, a) && AbandonedCleaned(s) && Apply(s, a).abandoned == s.abandoned
    ensures FuseInv(Apply(s, a)) && AbandonedCleaned(Apply(s, a))
  {
    if a.Run? {
      RunPreservesFuse(s, a.call, a.choice);
      AbandonedStayCleaned(s, a.call, a.choice);
    } else if a.MountUp? || a.Exit? || a.Cleanup? || a.CloseDone? {
      ProcessPreservesFuse(s, a);
    } else {
      OutsidePreservesFuse(s, a);
    }
  }

  lemma StepKeepsAbandoned(s: State, a: Action)
    requires Enabled(s, a)
    ensures s.abandoned <= Apply(s, a).abandoned
  {
  }

  lemma {:induction false} ExecKeepsAbandoned(s: State, run: seq<Action>)
    requires Executable(s, run)
    ensures s.abandoned <= Exec(s, run).abandoned
    decreases |run|
  {
    if run != [] {
      StepKeepsAbandoned(s, run[0]);
      ExecKeepsAbandoned(Apply(s, run[0]), run[1..]);
    }
  }

  lemma {:induction false} ExecPreservesFuse(s: State, run: seq<Action>)
    requires Inv(s) && FuseInv(s) && AbandonedCleaned(s)
    requires Executable(s, run) && Exec(s, run).abandoned == s.abandoned
    ensures FuseInv(Exec(s, run))
    decreases |run|
  {
    if run != [] {
      var next := Apply(s, run[0]);
      StepKeepsAbandoned(s, run[0]);
      ExecKeepsAbandoned(next, run[1..]);
      StepPreservesInv(s, run[0]);
      StepPreservesFuse(s, run[0]);
      ExecPreservesFuse(next, run[1..]);
    }
  }

  /**
   While no process was ever abandoned, "already mounted" and "mounted" are true when they are
   answered if and only if nobody else has unmounted the mount: the recorded entry of a running
   process is backed by that very process's mount exactly unless it was taken from outside.
   */
  lemma LiveEntryIsMounted(s: State)
    requires Reachable(s) && s.abandoned == {} && LiveEntry(s)
    ensures s.procs[s.entry.value.pid].target == s.entry.value.target
    ensures MountStands(s, s.entry.value.pid) <==> s.entry.value.pid !in s.outside
  {
    var s0: State, run: seq<Action> :| Init(s0) && Executable(s0, run) && Exec(s0, run) == s;
    InitInv(s0);
    ExecPreservesInv(s0, run);
    ExecPreservesFuse(s0, run);
  }

  /** An unfinished tracked process has its cache directory exactly unless it was taken from outside. */
  predicate CacheInv(s: State) {
    && (forall p | 0 <= p < |s.procs| && p !in s.abandoned && !s.procs[p].phase.Done? ::
          s.procs[p].cacheDir in s.caches <==> p !in s.uncached)
    && (forall p | p in s.uncached :: p < |s.procs|)
  }

  lemma RunPreservesCache(s: State, call: nat, c: Choice)
    requires Inv(s) && CacheInv(s) && RunEnabled(s, call, c)
    ensures CacheInv(RunApply(s, call, c))
  {
    if InCritical(s.calls[call]) {
      OnlyHolderPending(s, call);
    }
  }

  lemma StepPreservesCache(s: State, a: Action)
    requires Inv(s) && CacheInv(s) && Enabled(s, a)
    ensures CacheInv(Apply(s, a))
  {
    if a.Run? {
      RunPreservesCache(s, a.call, a.choice);
    }
  }

  lemma {:induction false} ExecPreservesCache(s: State, run: seq<Action>)
    requires Inv(s) && CacheInv(s) && Executable(s, run)
    ensures CacheInv(Exec(s, run))
    decreases |run|
  {
    if run != [] {
      StepPreservesInv(s, run[0]);
      StepPreservesCache(s, run[0]);
      ExecPreservesCache(Apply(s, run[0]), run[1..]);
    }
  }

  /**
   A process that is neither done nor abandoned has its cache directory if and only if nobody but
   the manager has removed it: the manager itself never does.
   */
  lemma LiveProcessKeepsCache(s: State, p: nat)
    requires Reachable(s) && p < |s.procs| && p !in s.abandoned && !s.procs[p].phase.Done?
    ensures s.procs[p].cacheDir in s.caches <==> p !in s.uncached
  {
    var s0: State, run: seq<Action> :| Init(s0) && Executable(s0, run) && Exec(s0, run) == s;
    InitInv(s0);
    ExecPreservesCache(s0, run);
  }

  // ----- refinement of an atomic map with crashes -----

  /** The target the volume is mounted at: that of the entry, while its process runs. */
  function Abstract(s: State): Option<string> {
    if s.entry.Some? && s.entry.value.pid < |s.procs| && s.procs[s.entry.value.pid].phase.Alive?
    then Some(s.entry.value.target) else None
  }

  datatype Event = Crash | Answer(reply: Reply, target: string)

  /** One event of the atomic map. */
  predicate AtomicStep(m: Option<string>, ev: Event, m': Option<string>) {
    match ev
    case Crash => m.Some? && m'.None?
    case Answer(Mounted, t) => (m.None? || m == Some(t)) && m' == Some(t)
    case Answer(Conflict, t) => m.Some? && m.value != t && m' == m
    case Answer(Unmounted, _) => m'.None?
    case Answer(_, _) => m' == m
  }

  ghost predicate AtomicRun(m: Option<string>, events: seq<Event>, m': Option<string>)
    decreases |events|
  {
    match |events|
    case 0 => m == m'
    case 1 => AtomicStep(m, events[0], m')
    case _ => exists mid :: AtomicStep(m, events[0], mid) && AtomicRun(mid, events[1..], m')
  }

  /** The reply a call is bound to give, once it is decided. */
  function Decided(pc: Pc): Option<Reply> {
    match pc
    case MountWatch(_) => Some(Mounted)
    case Leave(r) => Some(r)
    case Returned(r) => Some(r)
    case _ => None
  }

  /** The target a Mount asks for; irrelevant to Unmount. */
  function TargetOf(pc: Pc): string {
    match pc
    case MountSelect(req, _) => req.target
    case MountRecord(req, _) => req.target
    case _ => ""
  }

  /** The events an action stands for: the decision of a call, and the crash of the live entry. */
  function Events(s: State, a: Action): seq<Event>
    requires Enabled(s, a)
  {
    match a
    case Exit(p) => if s.entry.Some? && s.entry.value.pid == p then [Crash] else []
    case Run(call, c) =>
      var decided := Decided(NextPc(s, call, c));
      if Decided(s.calls[call]).None? && decided.Some? then
        [Answer(decided.value, TargetOf(s.calls[call]))] +
        (if s.calls[call].MountRecord? && Abstract(RunApply(s, call, c)).None? then [Crash] else [])
      else []
    case _ => []
  }

  lemma RunRefines(s: State, call: nat, c: Choice)
    requires Inv(s) && RunEnabled(s, call, c)
    ensures AtomicRun(Abstract(s), Events(s, Run(call, c)), Abstract(RunApply(s, call, c)))
  {
    var s', events := RunApply(s, call, c), Events(s, Run(call, c));
    if InCritical(s.calls[call]) {
      OnlyHolderPending(s, call);
    }
    if |events| == 2 {
      var t := events[0].target;
      assert AtomicStep(Abstract(s), events[0], Some(t));
      assert AtomicStep(Some(t), events[1], Abstract(s'));
      assert AtomicRun(Some(t), events[1..], Abstract(s'));
    }
  }

  /** Every action is a run of events of the atomic map: the manager refines it. */
  lemma RefinesAtomicMap(s: State, a: Action)
    requires Reachable(s) && Enabled(s, a)
    ensures AtomicRun(Abstract(s), Events(s, a), Abstract(Apply(s, a)))
  {
    ReachableInv(s);
    match a
    case Run(call, c) => RunRefines(s, call, c);
    case _ =>
  }

  /**
   A call is decided once, by an action of its own, whose first event carries the reply the
   call later returns.
   */
  lemma ReplyIsItsEvent(s: State, a: Action, t: nat)
    requires Enabled(s, a) && t < |s.calls|
    ensures var before, after := Decided(s.calls[t]), Decided(Apply(s, a).calls[t]);
            if before.Some? then after == before
            else (after.Some? ==>
                    && a.Run? && a.call == t && Events(s, a) != []
                    && Events(s, a)[0] == Answer(after.value, TargetOf(s.calls[t])))
  {
  }

  // ----- termination and absence of deadlock -----

  function CallWork(pc: Pc): nat {
    match pc
    case MountLock(_) => 20
    case MountLook(_) => 19
    case MountSelect(_, _) => 18
    case MountAwaitDone(_, _) => 17
    case MountForget(_, _) => 16
    case MountClean(_) => 15
    case MountStart(_) => 14
    case MountWait(_, _) => 7
    case MountExitedEarly(_) => 2
    case MountStop(_, killed) => if killed then 2 else 3
    case MountRecord(_, _) => 4
    case MountWatch(_) => 3
    case UnmountLock => 7
    case UnmountLook => 6
    case UnmountStop(_, killed) => if killed then 4 else 5
    case UnmountCache(_) => 3
    case UnmountForget(_) => 2
    case Leave(_) => 1
    case Returned(_) => 0
  }

  function ProcessWork(p: Process): nat {
    match p.phase
    case Alive => if p.up then 3 else 5
    case Exited => 2
    case Cleaned => 1
    case Done => 0
  }

  /** A bound on the actions still to come unless new calls arrive. */
  function Work(s: State): nat {
    Sum(CallWork, s.calls) + Sum(ProcessWork, s.procs) + |s.watchers| + |s.fuse.Keys| + |s.caches|
  }

  /** The work an action of a call adds elsewhere: a process to wait for and its cache, or a watcher. */
  function AddedWork(pc: Pc, c: Choice): nat {
    if pc.MountStart? && c.Ok? then 6 else if pc.MountWatch? then 1 else 0
  }

  lemma CallUsesUpWork(s: State, call: nat, c: Choice)
    requires RunEnabled(s, call, c)
    ensures CallWork(NextPc(s, call, c)) + AddedWork(s.calls[call], c) < CallWork(s.calls[call])
  {
  }

  lemma FewerMounts(fuse: map<string, Owner>, path: string)
    ensures |(fuse - {path}).Keys| <= |fuse.Keys|
    ensures path in fuse ==> |(fuse - {path}).Keys| < |fuse.Keys|
  {
    assert (fuse - {path}).Keys == fuse.Keys - {path};
  }

  lemma OneMoreMount(fuse: map<string, Owner>, path: string, owner: Owner)
    ensures |fuse[path := owner].Keys| <= |fuse.Keys| + 1
  {
    assert fuse[path := owner].Keys == fuse.Keys + {path};
  }

  lemma FewerCaches(caches: set<string>, dir: string)
    ensures |caches - {dir}| <= |caches| && (dir in caches ==> |caches - {dir}| < |caches|)
  {
  }

  lemma EffectAddsWork(s: State, call: nat, c: Choice)
    requires RunEnabled(s, call, c)
    ensures var s' := Effect(s, call, c);
            Sum(ProcessWork, s'.procs) + |s'.watchers| + |s'.fuse.Keys| + |s'.caches|
            <= Sum(ProcessWork, s.procs) + |s.watchers| + |s.fuse.Keys| + |s.caches| + AddedWork(s.calls[call], c)
  {
    var pc := s.calls[call];
    if pc.MountStart? && c.Ok? {
      SumAppend(ProcessWork, s.procs, Process(pc.req.target, pc.req.cacheDir, Alive, false));
      assert |s.caches + {pc.req.cacheDir}| <= |s.caches| + 1;
    } else if pc.UnmountCache? {
      FewerCaches(s.caches, pc.e.cacheDir);
    } else if pc.MountWatch? {
      assert |s.watchers + {pc.e.pid}| <= |s.watchers| + 1;
    } else if pc.MountClean? {
      FewerMounts(s.fuse, pc.req.target);
    }
  }

  lemma RunUsesUpWork(s: State, call: nat, c: Choice)
    requires RunEnabled(s, call, c)
    ensures Work(RunApply(s, call, c)) < Work(s)
  {
    SumUpdate(CallWork, s.calls, call, NextPc(s, call, c));
    CallUsesUpWork(s, call, c);
    EffectAddsWork(s, call, c);
  }

  lemma PhaseUsesUpWork(s: State, p: nat, phase: Phase)
    requires p < |s.procs| && ProcessWork(s.procs[p].(phase := phase)) < ProcessWork(s.procs[p])
    ensures Work(SetPhase(s, p, phase)) < Work(s)
  {
    SumUpdate(ProcessWork, s.procs, p, s.procs[p].(phase := phase));
  }

  lemma MountUpUsesUpWork(s: State, p: nat)
    requires Enabled(s, MountUp(p))
    ensures Work(Apply(s, MountUp(p))) < Work(s)
  {
    SumUpdate(ProcessWork, s.procs, p, s.procs[p].(up := true));
    OneMoreMount(s.fuse, s.procs[p].target, Weed(p));
  }

  lemma CleanupUsesUpWork(s: State, p: nat, ok: bool)
    requires Enabled(s, Cleanup(p, ok))
    ensures Work(Apply(s, Cleanup(p, ok))) < Work(s)
  {
    PhaseUsesUpWork(s, p, Cleaned);
    FewerMounts(s.fuse, s.procs[p].target);
  }

  lemma StepUsesUpWork(s: State, a: Action)
    requires Enabled(s, a) && !a.CallMount? && !a.CallUnmount?
    ensures Work(Apply(s, a)) < Work(s)
  {
    if a.Run? {
      RunUsesUpWork(s, a.call, a.choice);
    } else if a.HostUnmount? {
      FewerMounts(s.fuse, a.path);
    } else if a.RemoveCache? {
      FewerCaches(s.caches, a.dir);
    } else if a.MountUp? {
      MountUpUsesUpWork(s, a.pid);
    } else if a.Exit? {
      PhaseUsesUpWork(s, a.pid, Exited);
    } else if a.Cleanup? {
      CleanupUsesUpWork(s, a.pid, a.ok);
    } else if a.CloseDone? {
      PhaseUsesUpWork(s, a.pid, Done);
    }
  }

  /** Without new calls no run is longer than the work left at its start. */
  lemma {:induction false} RunsAreBounded(s: State, run: seq<Action>)
    requires Executable(s, run)
    requires forall a | a in run :: !a.CallMount? && !a.CallUnmount?
    ensures |run| + Work(Exec(s, run)) <= Work(s)
    decreases |run|
  {
    if run != [] {
      StepUsesUpWork(s, run[0]);
      RunsAreBounded(Apply(s, run[0]), run[1..]);
    }
  }

  predicate Finished(s: State) {
    && (forall p | 0 <= p < |s.procs| :: s.procs[p].phase.Done?)
    && (forall t | 0 <= t < |s.calls| :: s.calls[t].Returned?)
    && s.watchers == {}
  }

  /** The lock holder's next action, once no process is left running. */
  lemma HolderCanRun(s: State)
    requires Inv(s) && s.lock.Some?
    requires forall p | 0 <= p < |s.procs| :: s.procs[p].phase.Done?
    ensures exists c :: Enabled(s, Run(s.lock.value, c))
  {
    var call := s.lock.value;
    if s.calls[call].MountWait? {
      assert Enabled(s, Run(call, Timeout));
    } else {
      assert Enabled(s, Run(call, Ok));
    }
  }

  /** What the manager's own threads do, and not a caller, an outsider or a running process. */
  predicate OwnAction(a: Action) {
    a.Run? || a.Cleanup? || a.CloseDone? || a.Watch?
  }

  /** Unless everything is finished, some action other than a new call or an outside unmount is possible. */
  lemma NoDeadlock(s: State)
    requires Reachable(s) && !Finished(s)
    ensures exists a: Action :: Enabled(s, a) && (OwnAction(a) || a.Exit?)
  {
    ReachableInv(s);
    if p :| 0 <= p < |s.procs| && !s.procs[p].phase.Done? {
      if s.procs[p].phase.Alive? {
        assert Enabled(s, Exit(p));
      } else if s.procs[p].phase.Exited? {
        assert Enabled(s, Cleanup(p, true));
      } else {
        assert Enabled(s, CloseDone(p));
      }
    } else if s.lock.Some? {
      HolderCanRun(s);
      var c :| Enabled(s, Run(s.lock.value, c));
    } else if t :| 0 <= t < |s.calls| && !s.calls[t].Returned? {
      assert Enabled(s, Run(t, Ok));
    } else {
      var p :| p in s.watchers;
      assert Enabled(s, Watch(p));
    }
  }

  /** A process that has exited and that somebody waits for moves on by itself. */
  lemma ExitedProcessMovesOn(s: State, p: nat)
    requires p < |s.procs| && !s.procs[p].phase.Alive? && !s.procs[p].phase.Done?
    ensures exists a: Action :: Enabled(s, a) && OwnAction(a)
  {
    if s.procs[p].phase.Exited? {
      assert Enabled(s, Cleanup(p, true));
    } else {
      assert Enabled(s, CloseDone(p));
    }
  }

  /**
   No call is ever blocked, not even beside a mount that runs forever: while one has not returned,
   the manager can act without a process that comes up or exits.
   */
  lemma CallsAreNeverBlocked(s: State, t: nat)
    requires Reachable(s) && t < |s.calls| && !s.calls[t].Returned?
    ensures exists a: Action :: Enabled(s, a) && OwnAction(a)
  {
    ReachableInv(s);
    if s.lock.None? {
      assert Enabled(s, Run(t, Ok));
    } else {
      var call := s.lock.value;
      var pc := s.calls[call];
      if pc.MountAwaitDone? && !IsDone(s, pc.e.pid) {
        ExitedProcessMovesOn(s, pc.e.pid);
      } else if pc.MountExitedEarly? && !IsDone(s, pc.pid) {
        ExitedProcessMovesOn(s, pc.pid);
      } else if pc.MountWait? || pc.MountStop? || pc.UnmountStop? {
        assert Enabled(s, Run(call, Timeout));
      } else {
        assert Enabled(s, Run(call, Ok));
      }
    }
  }

  // ----- what an abandoned process can do -----

  ghost predicate Leads(s: State, s': State) {
    exists run: seq<Action> :: Executable(s, run) && Exec(s, run) == s'
  }

  lemma {:induction false} ExecAppend(s: State, run: seq<Action>, a: Action)
    requires Executable(s, run) && Enabled(Exec(s, run), a)
    ensures Executable(s, run + [a]) && Exec(s, run + [a]) == Apply(Exec(s, run), a)
    decreases |run|
  {
    if run == [] {
      assert [a][1..] == [];
    } else {
      ExecAppend(Apply(s, run[0]), run[1..], a);
      assert (run + [a])[1..] == run[1..] + [a];
    }
  }

  lemma LeadsStep(s: State, m: State, a: Action)
    requires Leads(s, m) && Enabled(m, a)
    ensures Leads(s, Apply(m, a))
  {
    var run: seq<Action> :| Executable(s, run) && Exec(s, run) == m;
    ExecAppend(s, run, a);
  }

  predicate Idle(s: State) {
    s.lock.None? && s.entry.None?
  }

  /** A fresh Mount of an idle volume, up to the process it waits for. */
  lemma FreshStart(o: State, s: State, req: Request) returns (x: State)
    requires Leads(o, s) && Idle(s)
    ensures Leads(o, x) && x.abandoned == s.abandoned && x.outside == s.outside && x.entry.None?
    ensures x.procs == s.procs + [Process(req.target, req.cacheDir, Alive, false)]
    ensures |x.calls| == |s.calls| + 1 && x.lock == Some(|s.calls|) && x.calls[|s.calls|] == MountWait(req, |s.procs|)
  {
    var n := |s.calls|;
    var run := [ CallMount(req), Run(n, Ok), Run(n, Ok), Run(n, Ok), Run(n, Ok) ];
    var pcs := [ MountLock(req), MountLook(req), MountClean(req), MountStart(req), MountWait(req, |s.procs|) ];
    x := s;
    for i := 0 to |run|
      invariant Leads(o, x) && x.abandoned == s.abandoned && x.outside == s.outside && x.entry.None?
      invariant |x.calls| == if i == 0 then n else n + 1
      invariant i > 0 ==> x.calls[n] == pcs[i - 1]
      invariant x.lock == if i <= 1 then None else Some(n)
      invariant x.procs == if i < 5 then s.procs else s.procs + [Process(req.target, req.cacheDir, Alive, false)]
    {
      LeadsStep(o, x, run[i]);
      x := Apply(x, run[i]);
    }
  }

  /** A fresh Mount of an idle volume that succeeds, up to its recorded entry. */
  lemma FreshMount(o: State, s: State, req: Request) returns (x: State)
    requires Leads(o, s) && Idle(s)
    ensures Leads(o, x) && x.abandoned == s.abandoned && x.outside == s.outside
    ensures x.procs == s.procs + [Process(req.target, req.cacheDir, Alive, true)]
    ensures x.entry == Some(Entry(|s.procs|, req.target, req.cacheDir))
    ensures |x.calls| == |s.calls| + 1 && x.calls[|s.calls|] == MountWatch(x.entry.value) && MountStands(x, |s.procs|)
  {
    var n, m := |s.calls|, |s.procs|;
    x := FreshStart(o, s, req);
    LeadsStep(o, x, MountUp(m));
    x := Apply(x, MountUp(m));
    assert x.procs == s.procs + [Process(req.target, req.cacheDir, Alive, true)];
    LeadsStep(o, x, Run(n, Ok));
    x := Apply(x, Run(n, Ok));
    LeadsStep(o, x, Run(n, Ok));
    x := Apply(x, Run(n, Ok));
  }

  // ----- what Mount and Unmount achieve -----

  /** A process runs out: it exits, its target is unmounted, and `done` is closed. */
  lemma ProcessFinishes(o: State, s: State, p: nat) returns (x: State)
    requires Leads(o, s) && p < |s.procs|
    ensures Leads(o, x) && x == s.(procs := s.procs[p := s.procs[p].(phase := Done)], fuse := x.fuse)
    ensures s.procs[p].phase.Alive? || s.procs[p].phase.Exited? ==> s.procs[p].target !in x.fuse
  {
    x := s;
    if x.procs[p].phase.Alive? {
      LeadsStep(o, x, Exit(p));
      x := Apply(x, Exit(p));
    }
    if x.procs[p].phase.Exited? {
      LeadsStep(o, x, Cleanup(p, true));
      x := Apply(x, Cleanup(p, true));
    }
    if x.procs[p].phase.Cleaned? {
      LeadsStep(o, x, CloseDone(p));
      x := Apply(x, CloseDone(p));
    }
  }

  /** A Mount that is past the recorded entry can run to a mounted process of its own, and to its reply. */
  lemma FinishMount(o: State, s: State, n: nat, req: Request) returns (x: State)
    requires Leads(o, s) && s.entry.None? && s.lock == Some(n) && n < |s.calls| && s.calls[n] == MountClean(req)
    ensures Leads(o, x) && x.abandoned == s.abandoned && x.lock.None? && x.calls == s.calls[n := Returned(Mounted)]
    ensures x.procs == s.procs + [Process(req.target, req.cacheDir, Alive, true)] && MountStands(x, |s.procs|)
    ensures x.entry == Some(Entry(|s.procs|, req.target, req.cacheDir)) && |s.procs| in x.watchers
  {
    var m := |s.procs|;
    var e := Entry(m, req.target, req.cacheDir);
    var run := [ Run(n, Ok), Run(n, Ok), MountUp(m), Run(n, Ok), Run(n, Ok), Run(n, Ok), Run(n, Ok) ];
    var pcs := [
      MountClean(req), MountStart(req), MountWait(req, m), MountWait(req, m), MountRecord(req, m), MountWatch(e), Leave(Mounted),
      Returned(Mounted) ];
    x := s;
    for i := 0 to |run|
      invariant Leads(o, x) && x.abandoned == s.abandoned && x.lock == if i == 7 then None else Some(n)
      invariant x.calls == s.calls[n := pcs[i]]
      invariant x.procs == if i < 2 then s.procs else s.procs + [Process(req.target, req.cacheDir, Alive, i > 2)]
      invariant i > 2 ==> MountStands(x, m)
      invariant x.entry == if i < 5 then None else Some(e)
      invariant i > 5 ==> m in x.watchers
    {
      LeadsStep(o, x, run[i]);
      x := Apply(x, run[i]);
    }
  }

  /** The entry is still recorded although its process has exited. */
  predicate DeadEntry(s: State) {
    s.entry.Some? && s.entry.value.pid < |s.procs| && !s.procs[s.entry.value.pid].phase.Alive?
  }

  /** A Mount that finds a dead entry, up to the step at which it has waited for the process and dropped the entry. */
  lemma DropDeadEntry(s: State, req: Request) returns (x: State)
    requires Inv(s) && s.lock.None? && DeadEntry(s)
    ensures Leads(s, x) && x.abandoned == s.abandoned && x.entry.None? && x.lock == Some(|s.calls|)
    ensures x.calls == s.calls + [MountClean(req)]
    ensures x.procs == s.procs[s.entry.value.pid := s.procs[s.entry.value.pid].(phase := Done)]
  {
    var n, e := |s.calls|, s.entry.value;
    var run := [ CallMount(req), Run(n, Ok), Run(n, Ok), Run(n, Ok) ];
    var pcs := [ MountLock(req), MountLook(req), MountSelect(req, e), MountAwaitDone(req, e) ];
    x := s;
    assert Executable(s, []) && Exec(s, []) == s;
    for i := 0 to |run|
      invariant Leads(s, x) && x == s.(lock := x.lock, calls := x.calls)
      invariant x.lock == if i <= 1 then None else Some(n)
      invariant x.calls == if i == 0 then s.calls else s.calls + [pcs[i - 1]]
    {
      LeadsStep(s, x, run[i]);
      x := Apply(x, run[i]);
    }
    x := ProcessFinishes(s, x, e.pid);
    LeadsStep(s, x, Run(n, Ok));
    x := Apply(x, Run(n, Ok));
    LeadsStep(s, x, Run(n, Ok));
    x := Apply(x, Run(n, Ok));
  }

  /**
   A dead entry never stands in the way of a Mount: with the lock free, a Mount of any request can
   run to a recorded entry of a new process that is up and mounted, and to the reply Mounted.
   */
  lemma MountOverDeadEntry(s: State, req: Request) returns (x: State)
    requires Reachable(s) && s.lock.None? && DeadEntry(s)
    ensures Leads(s, x) && x.abandoned == s.abandoned && LiveEntry(x)
    ensures x.calls == s.calls + [Returned(Mounted)]
    ensures |x.procs| == |s.procs| + 1 && x.procs[|s.procs|] == Process(req.target, req.cacheDir, Alive, true)
    ensures x.entry == Some(Entry(|s.procs|, req.target, req.cacheDir)) && MountStands(x, |s.procs|)
  {
    ReachableInv(s);
    x := DropDeadEntry(s, req);
    x := FinishMount(s, x, |s.calls|, req);
  }

  /** An Unmount of a recorded volume, up to the step at which it waits for the process. */
  lemma StopEntry(s: State) returns (x: State)
    requires s.lock.None? && s.entry.Some?
    ensures Leads(s, x) && x == s.(lock := Some(|s.calls|), calls := s.calls + [UnmountStop(s.entry.value, false)])
  {
    var n, e := |s.calls|, s.entry.value;
    var run := [ CallUnmount, Run(n, Ok), Run(n, Ok) ];
    var pcs := [ UnmountLock, UnmountLook, UnmountStop(e, false) ];
    x := s;
    assert Executable(s, []) && Exec(s, []) == s;
    for i := 0 to |run|
      invariant Leads(s, x) && x == s.(lock := x.lock, calls := x.calls)
      invariant x.lock == if i <= 1 then None else Some(n)
      invariant x.calls == if i == 0 then s.calls else s.calls + [pcs[i - 1]]
    {
      LeadsStep(s, x, run[i]);
      x := Apply(x, run[i]);
    }
  }

  /**
   An Unmount takes a recorded volume down: with the lock free it can run to the reply Unmounted,
   its process done, its mount gone if the process was still running, its cache gone and its entry
   gone.
   */
  lemma UnmountTakesEntryDown(s: State) returns (x: State)
    requires Reachable(s) && s.lock.None? && s.entry.Some?
    ensures Leads(s, x) && x.abandoned == s.abandoned && x.lock.None?
    ensures x.calls == s.calls + [Returned(Unmounted)]
    ensures IsDone(x, s.entry.value.pid) && x.entry.None? && x.caches == s.caches - {s.entry.value.cacheDir}
    ensures LiveEntry(s) ==> s.entry.value.target !in x.fuse
  {
    ReachableInv(s);
    var n, e := |s.calls|, s.entry.value;
    x := StopEntry(s);
    x := ProcessFinishes(s, x, e.pid);
    var procs, fuse := x.procs, x.fuse;
    var pcs := [ UnmountStop(e, false), UnmountCache(e), UnmountForget(e), Leave(Unmounted), Returned(Unmounted) ];
    for i := 0 to 4
      invariant Leads(s, x) && x.abandoned == s.abandoned && x.procs == procs && x.fuse == fuse
      invariant x.calls == s.calls + [pcs[i]]
      invariant x.lock == if i == 4 then None else Some(n)
      invariant x.caches == if i < 2 then s.caches else s.caches - {e.cacheDir}
      invariant x.entry == if i < 3 then Some(e) else None
    {
      LeadsStep(s, x, Run(n, Ok));
      x := Apply(x, Run(n, Ok));
    }
  }

  /** The reply a call gives that has failed at an action: none if the action does not fail it. */
  function Failure(s: State, a: Action, t: nat): Option<Reply> {
    if !a.Run? || a.call != t || t >= |s.calls| then None else
    match s.calls[t]
    case MountClean(_) => if a.choice.Err? then Some(MountFailed) else None
    case MountStart(_) => if a.choice.Err? then Some(MountFailed) else None
    case MountWait(_, pid) =>
      var exitedEarly := a.choice.Err? && pid < |s.procs| && !s.procs[pid].phase.Alive?;
      if a.choice.Timeout? || exitedEarly then Some(MountFailed) else None
    case UnmountStop(_, killed) => if killed && a.choice.Timeout? then Some(StopTimedOut) else None
    case _ => None
  }

  /** Somewhere in the run an action fails the call, so that its reply is `r`. */
  predicate FailsOnTheWay(s: State, run: seq<Action>, t: nat, r: Reply)
    requires Executable(s, run)
    decreases |run|
  {
    run != [] && (Failure(s, run[0], t) == Some(r) || FailsOnTheWay(Apply(s, run[0]), run[1..], t, r))
  }

  /** The call can only answer `r` from here on. */
  predicate Doomed(s: State, t: nat, r: Reply) {
    t < |s.calls| &&
    match s.calls[t]
    case MountExitedEarly(_) => r.MountFailed?
    case MountStop(_, _) => r.MountFailed?
    case Leave(reply) => reply == r
    case Returned(reply) => reply == r
    case _ => false
  }

  lemma StepDooms(s: State, a: Action, t: nat, r: Reply)
    requires Enabled(s, a) && (r.MountFailed? || r.StopTimedOut?)
    ensures Doomed(Apply(s, a), t, r) <==> Doomed(s, t, r) || Failure(s, a, t) == Some(r)
  {
  }

  lemma {:induction false} RunDooms(s: State, run: seq<Action>, t: nat, r: Reply)
    requires Executable(s, run) && (r.MountFailed? || r.StopTimedOut?)
    ensures Doomed(Exec(s, run), t, r) <==> Doomed(s, t, r) || FailsOnTheWay(s, run, t, r)
    decreases |run|
  {
    if run != [] {
      StepDooms(s, run[0], t, r);
      RunDooms(Apply(s, run[0]), run[1..], t, r);
    }
  }

  /**
   Over every run, whatever else goes on: a Mount answers MountFailed if and only if its clean or
   its start failed, its own process exited before it was up, or its wait timed out; an Unmount
   answers StopTimedOut if and only if its second wait for the process timed out.
   */
  lemma CallFailsIff(s: State, run: seq<Action>, t: nat, r: Reply)
    requires Init(s) && Executable(s, run) && t < |Exec(s, run).calls| && Exec(s, run).calls[t].Returned?
    requires r.MountFailed? || r.StopTimedOut?
    ensures Exec(s, run).calls[t].reply == r <==> FailsOnTheWay(s, run, t, r)
  {
    RunDooms(s, run, t, r);
  }

  /**
   A mount goes if and only if somebody outside unmounts it, or the cleanup of a process at that
   target or the clean of a Mount for that target succeeds.
   */
  lemma MountGoesIff(s: State, a: Action, path: string)
    requires Enabled(s, a) && path in s.fuse
    ensures path !in Apply(s, a).fuse <==>
              || a == HostUnmount(path)
              || (a.Cleanup? && a.ok && s.procs[a.pid].target == path)
              || (a.Run? && a.choice.Ok? && s.calls[a.call].MountClean? && s.calls[a.call].req.target == path)
  {
  }

  /** A cache directory goes if and only if somebody outside removes it, or an Unmount of its entry does. */
  lemma CacheGoesIff(s: State, a: Action, dir: string)
    requires Enabled(s, a) && dir in s.caches
    ensures dir !in Apply(s, a).caches <==>
              || a == RemoveCache(dir)
              || (a.Run? && a.choice.Ok? && s.calls[a.call].UnmountCache? && s.calls[a.call].e.cacheDir == dir)
  {
  }

  /** Some call is stopping the process it has started. */
  predicate BeingStopped(s: State, p: nat) {
    exists t | 0 <= t < |s.calls| :: s.calls[t].MountStop? && s.calls[t].pid == p
  }

  /** The wait of a call for the mount of this process times out. */
  predicate WaitTimesOut(s: State, a: Action, p: nat) {
    a.Run? && a.choice.Timeout? && a.call < |s.calls| && s.calls[a.call].MountWait? && s.calls[a.call].pid == p
  }

  predicate TimesOutOnTheWay(s: State, run: seq<Action>, p: nat)
    requires Executable(s, run)
    decreases |run|
  {
    run != [] && (WaitTimesOut(s, run[0], p) || TimesOutOnTheWay(Apply(s, run[0]), run[1..], p))
  }

  lemma StoppedOnlyAfterTimeout(s: State, a: Action, p: nat)
    requires Enabled(s, a) && (p in Apply(s, a).abandoned || BeingStopped(Apply(s, a), p))
    ensures p in s.abandoned || BeingStopped(s, p) || WaitTimesOut(s, a, p)
  {
  }

  lemma {:induction false} RunAbandonsOnlyAfterTimeout(s: State, run: seq<Action>, p: nat)
    requires Executable(s, run) && (p in Exec(s, run).abandoned || BeingStopped(Exec(s, run), p))
    ensures p in s.abandoned || BeingStopped(s, p) || TimesOutOnTheWay(s, run, p)
    decreases |run|
  {
    if run != [] {
      RunAbandonsOnlyAfterTimeout(Apply(s, run[0]), run[1..], p);
      if p in Apply(s, run[0]).abandoned || BeingStopped(Apply(s, run[0]), p) {
        StoppedOnlyAfterTimeout(s, run[0], p);
      }
    }
  }

  /** Over every run a process is abandoned only if the wait for its mount has timed out: never because it exited early. */
  lemma AbandonedOnlyAfterTimeout(s: State, run: seq<Action>, p: nat)
    requires Init(s) && Executable(s, run) && p in Exec(s, run).abandoned
    ensures TimesOutOnTheWay(s, run, p)
  {
    RunAbandonsOnlyAfterTimeout(s, run, p);
  }

  /** The mount of a live entry is unmounted from outside once its Mount has returned. */
  lemma MountIsTakenOutside(o: State, s: State, req: Request) returns (x: State)
    requires Leads(o, s) && Idle(s)
    ensures Leads(o, x) && x.abandoned == s.abandoned && LiveEntry(x) && x.lock.None?
    ensures x.entry == Some(Entry(|s.procs|, req.target, req.cacheDir)) && req.target !in x.fuse && |x.calls| == |s.calls| + 1
  {
    var n := |s.calls|;
    x := FreshMount(o, s, req);
    var entry := x.entry;
    var run := [ Run(n, Ok), Run(n, Ok), HostUnmount(req.target) ];
    var pcs := [ MountWatch(entry.value), Leave(Mounted), Returned(Mounted), Returned(Mounted) ];
    for i := 0 to |run|
      invariant Leads(o, x) && x.abandoned == s.abandoned && LiveEntry(x) && x.entry == entry
      invariant |x.calls| == n + 1 && x.calls[n] == pcs[i] && (i >= 2 ==> x.lock.None?)
      invariant if i <= 2 then req.target in x.fuse else req.target !in x.fuse
    {
      LeadsStep(o, x, run[i]);
      x := Apply(x, run[i]);
    }
  }

  /**
   The next Mount still answers that the volume is mounted: nothing is mounted then, although no
   process was abandoned.
   */
  lemma OutsideUnmountIsUnnoticed(o: State, s: State, req: Request) returns (x: State)
    requires Leads(o, s) && Idle(s)
    ensures Leads(o, x) && x.abandoned == s.abandoned && LiveEntry(x) && x.entry.value.target == req.target
    ensures req.target !in x.fuse && |x.calls| == |s.calls| + 2 && x.calls[|s.calls| + 1] == Leave(Mounted)
  {
    x := MountIsTakenOutside(o, s, req);
    var n, entry := |s.calls| + 1, x.entry;
    var run := [ CallMount(req), Run(n, Ok), Run(n, Ok), Run(n, Ok) ];
    var pcs := [ MountLock(req), MountLook(req), MountSelect(req, entry.value), Leave(Mounted) ];
    for i := 0 to |run|
      invariant Leads(o, x) && x.abandoned == s.abandoned && LiveEntry(x) && x.entry == entry && req.target !in x.fuse
      invariant |x.calls| == if i == 0 then n else n + 1
      invariant (i > 0 ==> x.calls[n] == pcs[i - 1]) && (i <= 1 ==> x.lock.None?)
    {
      LeadsStep(o, x, run[i]);
      x := Apply(x, run[i]);
    }
  }

  predicate Uncleaned(s: State, p: nat) {
    p in s.abandoned && p < |s.procs| && (s.procs[p].phase.Alive? || s.procs[p].phase.Exited?)
  }

  /** How the lock holder gets on once no process but abandoned ones is left, without starting another. */
  function Finishing(pc: Pc): Choice {
    if pc.MountClean? || pc.MountStart? || pc.MountWait? then Err else Ok
  }

  /** An action that brings a volume closer to being idle and leaves abandoned processes alone. */
  lemma QuiesceStep(s: State, p: nat) returns (a: Action)
    requires Inv(s) && Uncleaned(s, p) && !Idle(s)
    ensures Enabled(s, a) && !a.CallMount? && !a.CallUnmount?
    ensures Apply(s, a).abandoned == s.abandoned && Uncleaned(Apply(s, a), p)
  {
    if q :| 0 <= q < |s.procs| && q !in s.abandoned && !s.procs[q].phase.Done? {
      a := if s.procs[q].phase.Alive? then Exit(q) else if s.procs[q].phase.Exited? then Cleanup(q, true) else CloseDone(q);
    } else if s.lock.Some? {
      a := Run(s.lock.value, Finishing(s.calls[s.lock.value]));
    } else {
      a := Watch(s.entry.value.pid);
    }
  }

  /** From every state the volume can become idle while an abandoned process lives on. */
  lemma Quiesce(s: State, p: nat) returns (x: State)
    requires Inv(s) && Uncleaned(s, p)
    ensures Leads(s, x) && Inv(x) && Idle(x) && Uncleaned(x, p) && x.abandoned == s.abandoned
  {
    x := s;
    assert Executable(s, []) && Exec(s, []) == s;
    while !Idle(x)
      invariant Leads(s, x) && Inv(x) && Uncleaned(x, p) && x.abandoned == s.abandoned
      decreases Work(x)
    {
      var a := QuiesceStep(x, p);
      LeadsStep(s, x, a);
      StepPreservesInv(x, a);
      StepUsesUpWork(x, a);
      x := Apply(x, a);
    }
  }

  /** The live entry's mount is gone, and nobody outside the manager took it. */
  predicate LostWithin(s: State) {
    LiveEntry(s) && !MountStands(s, s.entry.value.pid) && s.entry.value.pid !in s.outside
  }

  lemma AbandonedProcessUnmountsLiveEntry(o: State, s: State, p: nat) returns (x: State)
    requires Leads(o, s) && Idle(s) && Inv(s) && Uncleaned(s, p)
    ensures Leads(o, x) && x.abandoned == s.abandoned && LostWithin(x)
  {
    x := FreshMount(o, s, Request(s.procs[p].target, ""));
    if x.procs[p].phase.Alive? {
      LeadsStep(o, x, Exit(p));
      x := Apply(x, Exit(p));
    }
    LeadsStep(o, x, Cleanup(p, true));
    x := Apply(x, Cleanup(p, true));
  }

  /**
   What can take a live entry's mount away.  From any state in which the mounts of running tracked
   processes stand or were taken from outside, and without abandoning another process: every live
   entry to come is mounted exactly unless its mount is unmounted from outside, if and only if
   every abandoned process has already run its cleanup.
   */
  lemma AbandonedProcessIsTheOnlyThreat(s: State)
    requires Reachable(s) && FuseInv(s)
    ensures AbandonedCleaned(s) <==>
            forall x: State | Leads(s, x) && x.abandoned == s.abandoned && LiveEntry(x) ::
              MountStands(x, x.entry.value.pid) <==> x.entry.value.pid !in x.outside
  {
    ReachableInv(s);
    if AbandonedCleaned(s) {
      forall x: State | Leads(s, x) && x.abandoned == s.abandoned && LiveEntry(x)
        ensures MountStands(x, x.entry.value.pid) <==> x.entry.value.pid !in x.outside
      {
        var run: seq<Action> :| Executable(s, run) && Exec(s, run) == x;
        ExecPreservesInv(s, run);
        ExecPreservesFuse(s, run);
      }
    } else {
      var p :| p in s.abandoned && p < |s.procs| && !s.procs[p].phase.Cleaned? && !s.procs[p].phase.Done?;
      var idle := Quiesce(s, p);
      var x := AbandonedProcessUnmountsLiveEntry(s, idle, p);
    }
  }

  /** In an idle volume no running tracked process is left whose mount could be missing. */
  lemma IdleMountsStand(s: State)
    requires Reachable(s) && Idle(s)
    ensures FuseInv(s)
  {
    ReachableInv(s);
  }

  /** Such a state is reachable: one Mount whose process neither mounts nor stops in time. */
  lemma AbandonmentIsReachable(req: Request) returns (s: State)
    ensures Reachable(s) && Idle(s) && !AbandonedCleaned(s)
  {
    var s0 := State([], None, None, [], {}, {}, map[], {}, {}, {});
    assert Init(s0) && Executable(s0, []) && Exec(s0, []) == s0;
    s := FreshStart(s0, s0, req);
    var run := [ Run(0, Timeout), Run(0, Timeout), Run(0, Timeout), Run(0, Ok) ];
    var pcs := [ MountWait(req, 0), MountStop(0, false), MountStop(0, true), Leave(MountFailed), Returned(MountFailed) ];
    for i := 0 to |run|
      invariant Leads(s0, s) && s.entry.None? && s.procs == [Process(req.target, req.cacheDir, Alive, false)]
      invariant s.calls == [pcs[i]] && (i == 4 ==> s.lock.None?) && (i >= 3 ==> 0 in s.abandoned)
    {
      LeadsStep(s0, s, run[i]);
      s := Apply(s, run[i]);
    }
    assert 0 in s.abandoned && 0 < |s.procs|;
  }
}
