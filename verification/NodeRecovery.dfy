/**
 The node server's handling of one volume: stage, publish, unpublish, unstage, the restart of the
 node plugin, the retry of dead publish binds and the recovery of a dead or hung staging mount.

 Each operation runs under the volume's mutex, so operations do not overlap; between any two
 actions of one, the mount at the staging path may break or go away, and a new one may come up,
 such as that of a Mount call that timed out.  What happens in between and the results of probes,
 of the mount service and of the kernel are inputs of each operation, so that what it does on given
 inputs can be stated.  `log` records everything done, in order.
 */
module NodeRecovery {
  import opened Common
  import opened Health
  import opened RecoveryLog

  /** A tracked volume. */
  datatype Volume = Volume(hasContext: bool, readOnly: bool, hasUnmounter: bool, publishes: map<string, bool>)

  /** What a bind of the staging path holds: the epoch mounted there, or 0 for the bare directory. */
  function SourceEpoch(m: Mount): nat {
    if m.Absent? then 0 else m.epoch
  }

  // ----- inputs -----

  /** What may happen to the mount at the staging path between two actions. */
  datatype Change = Breaks | Vanishes | ComesUp

  /** A check of the staging path: what happens before it, and what it answers as far as that is sound. */
  datatype CheckInput = CheckInput(before: seq<Change>, verdict: Verdict, unanswered: nat)

  /** The clearing of a staging path: whether a failing stat skips it, whether the unmount and the removal succeed. */
  datatype ClearInput = ClearInput(before: seq<Change>, skipped: bool, unmounted: bool, between: seq<Change>, removed: bool)

  /** A stage: whether what is in the way is unmounted, whether a mount comes up, what the mount service answers. */
  datatype StageInput = StageInput(before: seq<Change>, unmounted: bool, mounted: bool, after: seq<Change>, ok: bool)

  datatype TrackInput = TrackInput(check: CheckInput, clear: ClearInput, stage: StageInput)

  /** A bind: whether the target can be checked, is corrupted, can be unmounted then, and is bound. */
  datatype BindInput = BindInput(before: seq<Change>, checked: bool, corrupted: bool, unmounted: bool, bound: bool)

  /** The teardown of a bind: the unmount, and the unmount and removal of the cleanup. */
  datatype TearInput = TearInput(unmounted: bool, cleanupUnmounted: bool, removed: bool)

  datatype RetryInput = RetryInput(verdict: Verdict, tear: TearInput, bind: BindInput)

  /** The stop of the weed process by the mount service: whether its mount goes away, what the call answers. */
  datatype StopInput = StopInput(before: seq<Change>, gone: bool, after: seq<Change>, ok: bool)

  /** The mount table guard: whether the table can be read, and what statfs tells of a mount that is there. */
  datatype GuardInput = GuardInput(before: seq<Change>, readable: bool, verdict: Verdict, unanswered: nat)

  /** The detachment or the cleanup of the staging path: whether it succeeds. */
  datatype RemoveInput = RemoveInput(before: seq<Change>, ok: bool, after: seq<Change>)

  /** The second look into the mount table. */
  datatype ReportInput = ReportInput(before: seq<Change>, readable: bool)

  /** Steps 1 and 2 of a recovery. */
  datatype DownInput = DownInput(
    stop: StopInput, recheck: CheckInput, guard: GuardInput, detach: RemoveInput, report: ReportInput, cleanup: RemoveInput)

  /** Steps 3 to 5: the stage, and for each path the teardown of its bind and the new bind. */
  datatype UpInput = UpInput(stage: StageInput, tears: string -> TearInput, binds: string -> BindInput)

  /** A recovery: its first check, and whether the mount service can be reached. */
  datatype RecoverInput = RecoverInput(recheck: CheckInput, reachable: bool, down: DownInput, up: UpInput)

  /** What the clearing of a staging path leaves mounted, and the number of the next mount. */
  function ClearLeaves(c: ClearInput, m: Mount, next: nat): (r: (Mount, nat))
    ensures c.before == [] && c.between == [] ==> r == (if c.unmounted then Absent else m, next)
  {
    var (found, n) := Changed(m, next, c.before);
    if c.unmounted && !found.Absent? then Changed(Absent, n, c.between) else (found, n)
  }

  function ChangedOnce(m: Mount, next: nat, step: Change): (Mount, nat) {
    match step
    case Breaks => (if m.Serving? then Broken(m.epoch) else m, next)
    case Vanishes => (Absent, next)
    case ComesUp => (Serving(next), next + 1)
  }

  /** What is mounted after some changes, and the number of the mount that comes up next. */
  function Changed(m: Mount, next: nat, steps: seq<Change>): (r: (Mount, nat))
    ensures steps == [] ==> r == (m, next)
  {
    if steps == [] then (m, next)
    else
      var (before, n) := Changed(m, next, steps[..|steps| - 1]);
      ChangedOnce(before, n, steps[|steps| - 1])
  }

  /** The same if in between the mount may be taken away by a call. */
  function ChangedAround(m: Mount, next: nat, before: seq<Change>, taken: bool, after: seq<Change>): (r: (Mount, nat))
    ensures before == [] && after == [] ==> r == (if taken then Absent else m, next)
  {
    var (found, n) := Changed(m, next, before);
    Changed(if taken then Absent else found, n, after)
  }

  /** A dead verdict is sound: it is not given of a mount that serves. */
  function Told(v: Verdict, m: Mount): Verdict {
    if v.Dead? && m.Serving? then Healthy else v
  }

  /** Nothing happens to the mount on its own. */
  predicate Quiet(t: TrackInput) {
    t.check.before == [] && t.clear.before == [] && t.clear.between == [] && t.stage.before == [] && t.stage.after == []
  }

  predicate Skips(t: TrackInput, m: Mount) {
    t.clear.skipped && Told(t.check.verdict, m).Dead?
  }

  /** The clearing leaves nothing mounted and the path gone. */
  predicate Clears(t: TrackInput, m: Mount) {
    t.clear.removed && (m.Absent? || t.clear.unmounted)
  }

  /** What a stage leaves mounted, with nothing happening on its own. */
  function Staged(input: StageInput, m: Mount, next: nat): Mount {
    if input.mounted then Serving(next) else if input.unmounted then Absent else m
  }

  /** What tracking an untracked volume leaves mounted, with nothing happening on its own. */
  function TrackLeaves(t: TrackInput, m: Mount, next: nat): Mount {
    if Told(t.check.verdict, m).Healthy? then m
    else if Skips(t, m) then Staged(t.stage, m, next)
    else
      var cleared := if t.clear.unmounted then Absent else m;
      if Clears(t, m) then Staged(t.stage, cleared, next) else cleared
  }

  predicate Tracks(t: TrackInput, m: Mount) {
    Told(t.check.verdict, m).Healthy? || ((Skips(t, m) || Clears(t, m)) && t.stage.ok)
  }

  /** How the volume is tracked then: adopted from a healthy mount, or as freshly staged. */
  function TrackedAs(t: TrackInput, m: Mount, hasContext: bool, readOnly: bool): Volume {
    if Told(t.check.verdict, m).Healthy? then Volume(hasContext, readOnly, false, map[]) else Volume(true, readOnly, true, map[])
  }

  /** A publish clears the path whatever its stat answers. */
  function NeverSkipping(t: TrackInput): (r: TrackInput)
    ensures !r.clear.skipped && r.check == t.check && r.stage == t.stage
  {
    t.(clear := t.clear.(skipped := false))
  }

  /** The cleanup unmounts what is there. */
  predicate Unmounts(t: TrackInput, m: Mount) {
    !Told(t.check.verdict, m).Healthy? && !Skips(t, m) && t.clear.unmounted && !m.Absent?
  }

  /**
   When a stage or a publish of an untracked volume takes a serving mount: if and only if the check
   answered slow, since that counts as not healthy, and the unmount succeeds.
   */
  lemma TrackTakesServingMountIffSlow(t: TrackInput, m: Mount, next: nat)
    requires m.Serving? && m.epoch < next
    ensures TrackLeaves(t, m, next) != m <==> t.check.verdict.Slow? && t.clear.unmounted
    ensures Unmounts(t, m) <==> t.check.verdict.Slow? && t.clear.unmounted
  {
  }

  /** The teardown of a bind leaves nothing mounted at the path. */
  predicate Gone(t: TearInput, stack: seq<nat>) {
    (t.unmounted && stack != []) || (t.removed && (t.cleanupUnmounted || stack == []))
  }

  /**
   Whether a publish succeeds, and what it leaves at the path: a corrupted bind there is unmounted
   first, any other one counts as published, and where nothing is mounted the source is bound.
   */
  function BindLeaves(b: BindInput, stack: seq<nat>, source: nat): (bool, seq<nat>) {
    if stack != [] && b.corrupted && !b.unmounted then (false, stack)
    else if stack != [] && !b.corrupted then (b.checked, stack)
    else if stack == [] && !b.checked then (false, [])
    else (b.bound, if b.bound then [source] else [])
  }

  /** The path answers dead, its bind can be torn down and a new one made. */
  predicate Rebinds(r: RetryInput) {
    r.verdict.Dead? && r.tear.cleanupUnmounted && r.tear.removed && r.bind.checked && r.bind.bound
  }

  // ----- how the staging mount may change -----

  /** What the environment does between two actions: only mounts it brings up are new, and all are logged. */
  predicate Drift(d: Digest, m: Mount, d': Digest, m': Mount) {
    && d' == d.(appeared := d'.appeared, next := d'.next) && d.appeared <= d'.appeared && d.next <= d'.next
    && (MayBecome(m, m') || (!m'.Absent? && m'.epoch in d'.appeared && d.next <= m'.epoch))
  }

  /** What is mounted is what was there before, or newer than a number. */
  predicate Since(m: Mount, next: nat, m': Mount) {
    MayBecome(m, m') || (!m'.Absent? && m'.epoch >= next)
  }

  /** Nothing is mounted that is older than a number. */
  predicate AtLeast(m: Mount, floor: nat) {
    !m.Absent? ==> m.epoch >= floor
  }

  // ----- how the digest may change -----

  /** The later digest adds the given failed paths, and loses nothing. */
  predicate Extends(d: Digest, d': Digest, failed: set<string>) {
    && d'.outstanding == d.outstanding && d'.failed == d.failed + failed && d'.dead == d.dead && d.next <= d'.next
    && (d.restaged ==> d'.restaged) && (d.stopped ==> d'.stopped)
  }

  /** The later digest has the same outstanding paths, and remembers what was done. */
  predicate Keeps(d: Digest, d': Digest) {
    d'.outstanding == d.outstanding && d.next <= d'.next && (d.restaged ==> d'.restaged) && (d.stopped ==> d'.stopped)
  }

  // ----- publish binds -----

  /** The binds stacked at a path, each with the epoch it holds. */
  function StackAt(binds: map<string, seq<nat>>, path: string): seq<nat> {
    if path in binds then binds[path] else []
  }

  /** The path holds one bind, of a mount not older than a number or of the bare directory. */
  predicate ReboundIn(binds: map<string, seq<nat>>, path: string, floor: nat) {
    var stack := StackAt(binds, path);
    |stack| == 1 && (stack[0] == 0 || stack[0] >= floor)
  }

  /** Only the binds of some paths changed. */
  ghost predicate SameExcept(b: map<string, seq<nat>>, b': map<string, seq<nat>>, paths: set<string>) {
    forall p | p !in paths :: StackAt(b, p) == StackAt(b', p)
  }

  lemma SameExceptTransitive(b: map<string, seq<nat>>, b': map<string, seq<nat>>, b'': map<string, seq<nat>>,
                             paths: set<string>, paths': set<string>)
    requires SameExcept(b, b', paths) && SameExcept(b', b'', paths')
    ensures SameExcept(b, b'', paths + paths')
    ensures paths' <= paths ==> SameExcept(b, b'', paths)
  {
    forall p | p !in paths && p !in paths'
      ensures StackAt(b, p) == StackAt(b'', p)
    {
      assert StackAt(b, p) == StackAt(b', p);
    }
  }

  /** The paths of a map, each once. */
  ghost predicate IsOrder(paths: seq<string>, publishes: map<string, bool>) {
    && (forall p :: p in publishes <==> p in paths)
    && (forall a, b | 0 <= a < b < |paths| :: paths[a] != paths[b])
  }

  /** The tracked paths are outstanding with the flags they are tracked with. */
  predicate Tracked(publishes: map<string, bool>, outstanding: map<string, bool>) {
    forall p | p in publishes :: p in outstanding && outstanding[p] == publishes[p]
  }

  predicate IsWritable(publishes: map<string, bool>, p: string) {
    p in publishes && !publishes[p]
  }

  lemma RestoreKeepsWritable(outstanding: map<string, bool>, p: string)
    ensures IsWritable(FoldOutstanding(outstanding, PublishRestored(p)), p)
    ensures forall q | IsWritable(outstanding, q) :: IsWritable(FoldOutstanding(outstanding, PublishRestored(p)), q)
  {
  }

  // ----- step 4: unmounting the stale binds -----

  /** Of the first n paths exactly those not unmounted are reported as failed. */
  predicate Reports(failed: set<string>, paths: seq<string>, n: nat, unmounted: map<string, bool>)
    requires n <= |paths|
  {
    && (forall j | 0 <= j < n :: paths[j] in unmounted && (unmounted[paths[j]] <==> paths[j] !in failed))
    && (forall p | p in failed :: p in paths[..n])
  }

  /** A path is unmounted if its teardown leaves nothing there; it then holds no bind, else its old one or none. */
  predicate TornPath(b: map<string, seq<nat>>, b': map<string, seq<nat>>, p: string, unmounted: map<string, bool>, t: TearInput) {
    && p in unmounted && unmounted[p] == Gone(t, StackAt(b, p))
    && (StackAt(b', p) == [] || (!unmounted[p] && StackAt(b', p) == StackAt(b, p)))
  }

  /** The first n paths are torn down, the others untouched. */
  predicate TornDown(b: map<string, seq<nat>>, b': map<string, seq<nat>>, paths: seq<string>, n: nat,
                     unmounted: map<string, bool>, tears: string -> TearInput)
    requires n <= |paths|
  {
    && (forall j | 0 <= j < n :: TornPath(b, b', paths[j], unmounted, tears(paths[j])))
    && (forall j | n <= j < |paths| :: StackAt(b', paths[j]) == StackAt(b, paths[j]))
  }

  lemma TornDownStep(b: map<string, seq<nat>>, b': map<string, seq<nat>>, b'': map<string, seq<nat>>, paths: seq<string>, n: nat,
                     unmounted: map<string, bool>, tears: string -> TearInput, gone: bool)
    requires n < |paths| && forall i, j | 0 <= i < j < |paths| :: paths[i] != paths[j]
    requires TornDown(b, b', paths, n, unmounted, tears) && SameExcept(b', b'', {paths[n]})
    requires gone == Gone(tears(paths[n]), StackAt(b', paths[n]))
    requires StackAt(b'', paths[n]) == [] || (!gone && StackAt(b'', paths[n]) == StackAt(b', paths[n]))
    ensures TornDown(b, b'', paths, n + 1, unmounted[paths[n] := gone], tears)
  {
    assert forall j | 0 <= j < |paths| && j != n :: StackAt(b'', paths[j]) == StackAt(b', paths[j]);
    forall j | 0 <= j < n
      ensures TornPath(b, b'', paths[j], unmounted[paths[n] := gone], tears(paths[j]))
    {
      assert TornPath(b, b', paths[j], unmounted, tears(paths[j]));
    }
  }

  lemma ReportsStep(failed: set<string>, paths: seq<string>, n: nat, unmounted: map<string, bool>, gone: bool)
    requires n < |paths| && forall a, b | 0 <= a < b < |paths| :: paths[a] != paths[b]
    requires Reports(failed, paths, n, unmounted)
    ensures Reports(failed + if gone then {} else {paths[n]}, paths, n + 1, unmounted[paths[n] := gone])
  {
    assert paths[..n + 1] == paths[..n] + [paths[n]];
    assert paths[n] !in paths[..n];
  }

  // ----- step 5: binding again -----

  /** Step 5 has handled the first i paths: the digest reports the failed and the stuck ones. */
  predicate Agrees(reported: set<string>, failed: set<string>, paths: seq<string>, i: nat,
                   publishes: map<string, bool>, unmounted: map<string, bool>)
    requires i <= |paths| && forall j | 0 <= j < |paths| :: paths[j] in unmounted
  {
    && (forall p | p in reported :: p in publishes)
    && (forall p | p in failed :: p in publishes)
    && (forall j | 0 <= j < i :: paths[j] in reported <==> paths[j] in failed)
    && (forall j | i <= j < |paths| :: paths[j] in reported <==> !unmounted[paths[j]])
    && (forall j | i <= j < |paths| :: paths[j] !in failed)
  }

  /** The path holds just the given epoch, if one is given. */
  predicate Holds(binds: map<string, seq<nat>>, path: string, held: Option<nat>) {
    held.Some? ==> StackAt(binds, path) == [held.value]
  }

  /** A path fails if it was not unmounted or its bind fails, and is then left alone; else it is bound again. */
  predicate ReboundPath(b: map<string, seq<nat>>, b': map<string, seq<nat>>, p: string, unmounted: bool, failed: bool,
                        input: BindInput, floor: nat, held: Option<nat>)
  {
    && (failed <==> !(unmounted && input.checked && input.bound))
    && (if failed then StackAt(b', p) == StackAt(b, p) else ReboundIn(b', p, floor) && Holds(b', p, held))
  }

  /** Step 5 has handled the first i paths; the others are untouched. */
  predicate BindsDone(b: map<string, seq<nat>>, b': map<string, seq<nat>>, paths: seq<string>, i: nat,
                      unmounted: map<string, bool>, failed: set<string>, inputs: string -> BindInput, floor: nat, held: Option<nat>)
    requires i <= |paths| && forall j | 0 <= j < |paths| :: paths[j] in unmounted
  {
    && (forall j | 0 <= j < i ::
          ReboundPath(b, b', paths[j], unmounted[paths[j]], paths[j] in failed, inputs(paths[j]), floor, held))
    && (forall j | i <= j < |paths| :: StackAt(b', paths[j]) == StackAt(b, paths[j]))
  }

  lemma BindsDoneStep(b: map<string, seq<nat>>, b': map<string, seq<nat>>, b'': map<string, seq<nat>>, paths: seq<string>, i: nat,
                      unmounted: map<string, bool>, failed: set<string>, ok: bool,
                      inputs: string -> BindInput, floor: nat, held: Option<nat>)
    requires i < |paths| && (forall j | 0 <= j < |paths| :: paths[j] in unmounted) && paths[i] !in failed
    requires forall a, b | 0 <= a < b < |paths| :: paths[a] != paths[b]
    requires BindsDone(b, b', paths, i, unmounted, failed, inputs, floor, held) && SameExcept(b', b'', {paths[i]})
    requires ReboundPath(b', b'', paths[i], unmounted[paths[i]], !ok, inputs(paths[i]), floor, held)
    ensures BindsDone(b, b'', paths, i + 1, unmounted, Noting(failed, paths[i], ok), inputs, floor, held)
  {
    assert forall j | 0 <= j < |paths| && j != i :: StackAt(b'', paths[j]) == StackAt(b', paths[j]);
    forall j | 0 <= j < i
      ensures ReboundPath(b, b'', paths[j], unmounted[paths[j]], paths[j] in failed, inputs(paths[j]), floor, held)
    {
      assert ReboundPath(b, b', paths[j], unmounted[paths[j]], paths[j] in failed, inputs(paths[j]), floor, held);
    }
  }

  /** The set with a path added unless it succeeded. */
  function Noting(paths: set<string>, p: string, ok: bool): set<string> {
    if ok then paths else paths + {p}
  }

  lemma AgreesStep(reported: set<string>, failed: set<string>, ok: bool,
                   paths: seq<string>, i: nat, publishes: map<string, bool>, unmounted: map<string, bool>)
    requires i < |paths| && paths[i] in publishes && forall j | 0 <= j < |paths| :: paths[j] in unmounted
    requires forall a, b | 0 <= a < b < |paths| :: paths[a] != paths[b]
    requires Agrees(reported, failed, paths, i, publishes, unmounted) && (ok ==> unmounted[paths[i]])
    ensures Agrees(Noting(reported, paths[i], ok), Noting(failed, paths[i], ok), paths, i + 1, publishes, unmounted)
  {
  }

  /** How far step 5 has come after i paths, from the digest and the binds it began with. */
  ghost predicate Rebinding(
    d: Digest, d': Digest, b: map<string, seq<nat>>, b': map<string, seq<nat>>,
    paths: seq<string>, i: nat, publishes: map<string, bool>, unmounted: map<string, bool>,
    tracked: map<string, bool>, failed: set<string>, inputs: string -> BindInput, floor: nat, held: Option<nat>)
    requires i <= |paths| && forall j | 0 <= j < |paths| :: paths[j] in unmounted
  {
    && Keeps(d, d') && SameExcept(b, b', publishes.Keys)
    && Agrees(d'.failed, failed, paths, i, publishes, unmounted)
    && TracksFirst(tracked, paths, i, publishes)
    && BindsDone(b, b', paths, i, unmounted, failed, inputs, floor, held)
  }

  /** The first i paths are tracked again, with their flags. */
  predicate TracksFirst(tracked: map<string, bool>, paths: seq<string>, i: nat, publishes: map<string, bool>)
    requires i <= |paths|
  {
    && (forall p | p in tracked :: p in publishes && tracked[p] == publishes[p])
    && (forall j | 0 <= j < i :: paths[j] in tracked)
  }

  lemma TracksStep(tracked: map<string, bool>, paths: seq<string>, i: nat, publishes: map<string, bool>)
    requires i < |paths| && paths[i] in publishes && TracksFirst(tracked, paths, i, publishes)
    ensures TracksFirst(tracked[paths[i] := publishes[paths[i]]], paths, i + 1, publishes)
  {
  }

  lemma RebindingStep(
      d: Digest, d': Digest, d'': Digest,
      b: map<string, seq<nat>>, b': map<string, seq<nat>>, b'': map<string, seq<nat>>,
      paths: seq<string>, i: nat, publishes: map<string, bool>, unmounted: map<string, bool>,
      tracked: map<string, bool>, failed: set<string>, ok: bool, inputs: string -> BindInput, floor: nat, held: Option<nat>)
    requires i < |paths| && IsOrder(paths, publishes) && forall j | 0 <= j < |paths| :: paths[j] in unmounted
    requires Rebinding(d, d', b, b', paths, i, publishes, unmounted, tracked, failed, inputs, floor, held)
    requires Keeps(d', d'') && d''.failed == Noting(d'.failed, paths[i], ok)
    requires SameExcept(b', b'', {paths[i]})
    requires ReboundPath(b', b'', paths[i], unmounted[paths[i]], !ok, inputs(paths[i]), floor, held)
    ensures paths[i] in publishes
    ensures Rebinding(d, d'', b, b'', paths, i + 1, publishes, unmounted,
                      tracked[paths[i] := publishes[paths[i]]], Noting(failed, paths[i], ok), inputs, floor, held)
  {
    SameExceptTransitive(b, b', b'', publishes.Keys, {paths[i]});
    BindsDoneStep(b, b', b'', paths, i, unmounted, failed, ok, inputs, floor, held);
    AgreesStep(d'.failed, failed, ok, paths, i, publishes, unmounted);
    TracksStep(tracked, paths, i, publishes);
  }

  lemma RebindingEnds(
      d: Digest, d': Digest, b: map<string, seq<nat>>, b': map<string, seq<nat>>,
      paths: seq<string>, publishes: map<string, bool>, unmounted: map<string, bool>,
      tracked: map<string, bool>, failed: set<string>, inputs: string -> BindInput, floor: nat, held: Option<nat>)
    requires IsOrder(paths, publishes) && forall j | 0 <= j < |paths| :: paths[j] in unmounted
    requires Rebinding(d, d', b, b', paths, |paths|, publishes, unmounted, tracked, failed, inputs, floor, held)
    ensures tracked == publishes && failed == d'.failed <= publishes.Keys
    ensures forall p | p in publishes.Keys ::
              p in unmounted && ReboundPath(b, b', p, unmounted[p], p in failed, inputs(p), floor, held)
  {
    assert tracked.Keys == publishes.Keys;
  }

  /**
   What a completed recovery does to a path, from the stacks before and after: the path has failed
   if and only if its teardown leaves something mounted or its bind fails, and then holds its old
   bind or none; else it holds one bind, of the given epoch if one is given.
   */
  predicate Replaced(b: map<string, seq<nat>>, b': map<string, seq<nat>>, p: string, failed: bool, input: UpInput,
                     floor: nat, held: Option<nat>)
  {
    && (failed <==> !(Gone(input.tears(p), StackAt(b, p)) && input.binds(p).checked && input.binds(p).bound))
    && (if failed then StackAt(b', p) == [] || StackAt(b', p) == StackAt(b, p)
        else ReboundIn(b', p, floor) && Holds(b', p, held))
  }

  lemma TornAndRebound(b: map<string, seq<nat>>, b': map<string, seq<nat>>, b'': map<string, seq<nat>>, paths: seq<string>,
                       publishes: map<string, bool>, unmounted: map<string, bool>, failed: set<string>,
                       input: UpInput, floor: nat, held: Option<nat>)
    requires IsOrder(paths, publishes) && TornDown(b, b', paths, |paths|, unmounted, input.tears)
    requires forall p | p in publishes.Keys ::
               p in unmounted && ReboundPath(b', b'', p, unmounted[p], p in failed, input.binds(p), floor, held)
    ensures forall p | p in publishes.Keys :: Replaced(b, b'', p, p in failed, input, floor, held)
  {
    forall p | p in publishes.Keys
      ensures Replaced(b, b'', p, p in failed, input, floor, held)
    {
      var j :| 0 <= j < |paths| && paths[j] == p;
      assert TornPath(b, b', paths[j], unmounted, input.tears(paths[j]));
      assert ReboundPath(b', b'', p, unmounted[p], p in failed, input.binds(p), floor, held);
    }
  }

  // ----- the retry -----

  /** Every path that answered dead is bound again or reported as failed. */
  predicate BoundOrFailed(d: Digest, binds: map<string, seq<nat>>) {
    forall p | p in d.dead :: p in d.failed || StackAt(binds, p) != []
  }

  /** How far a retry has come, from the digest and the binds it began with; the given paths are still to do. */
  ghost predicate Retried(d: Digest, d': Digest, b: map<string, seq<nat>>, b': map<string, seq<nat>>,
                          publishes: map<string, bool>, todo: set<string>)
  {
    && d'.outstanding == d.outstanding && todo <= publishes.Keys
    && (forall p | p in d'.dead :: p in publishes && p !in todo)
    && SameExcept(b, b', d'.dead) && BoundOrFailed(d', b')
  }

  lemma RetriedStep(d: Digest, d': Digest, d'': Digest,
                    b: map<string, seq<nat>>, b': map<string, seq<nat>>, b'': map<string, seq<nat>>,
                    publishes: map<string, bool>, todo: set<string>, p: string)
    requires p in todo && Retried(d, d', b, b', publishes, todo)
    requires d''.outstanding == d'.outstanding && d'.dead <= d''.dead <= d'.dead + {p} && d'.failed <= d''.failed
    requires SameExcept(b', b'', d''.dead - d'.dead)
    requires p in d''.dead ==> p in d''.failed || StackAt(b'', p) != []
    ensures Retried(d, d'', b, b'', publishes, todo - {p})
  {
    forall q | q !in d''.dead
      ensures StackAt(b, q) == StackAt(b'', q)
    {
      assert StackAt(b, q) == StackAt(b', q);
    }
    forall q | q in d''.dead
      ensures q in d''.failed || StackAt(b'', q) != []
    {
      assert q in d'.dead || q == p;
    }
  }

  /**
   What a retry does to a path: one that answers dead is bound again if its teardown leaves nothing
   mounted and the bind works; if only the bind fails it holds none, else its old bind or none.
   */
  predicate RetriedPath(b: map<string, seq<nat>>, b': map<string, seq<nat>>, p: string, r: RetryInput) {
    var was, now := StackAt(b, p), StackAt(b', p);
    if !r.verdict.Dead? then now == was
    else if Gone(r.tear, was) then |now| == if r.bind.checked && r.bind.bound then 1 else 0
    else now == [] || now == was
  }

  /** The retry has handled all paths but some, and has left these alone. */
  ghost predicate RetriedAll(b: map<string, seq<nat>>, b': map<string, seq<nat>>, dead: set<string>,
                             publishes: map<string, bool>, todo: set<string>, inputs: string -> RetryInput)
  {
    && (forall p | p in publishes && p !in todo :: RetriedPath(b, b', p, inputs(p)) && (p in dead <==> inputs(p).verdict.Dead?))
    && (forall p | p in todo :: StackAt(b', p) == StackAt(b, p))
  }

  lemma RetriedAllStep(b: map<string, seq<nat>>, b': map<string, seq<nat>>, b'': map<string, seq<nat>>,
                       dead: set<string>, dead': set<string>,
                       publishes: map<string, bool>, todo: set<string>, inputs: string -> RetryInput, p: string)
    requires p in todo && RetriedAll(b, b', dead, publishes, todo, inputs)
    requires SameExcept(b', b'', {p}) && RetriedPath(b', b'', p, inputs(p))
    requires dead' == dead + (if inputs(p).verdict.Dead? then {p} else {}) && p !in dead
    ensures RetriedAll(b, b'', dead', publishes, todo - {p}, inputs)
  {
    assert forall q | q != p :: StackAt(b'', q) == StackAt(b', q);
    forall q | q in publishes && q !in todo - {p}
      ensures RetriedPath(b, b'', q, inputs(q)) && (q in dead' <==> inputs(q).verdict.Dead?)
    {
      assert q != p ==> RetriedPath(b, b', q, inputs(q));
    }
  }

  // ----- the node server -----

  /** How recoverVolumeAs ends. */
  datatype Exit =
    | NoVolume | NotConfirmed | NoContext | NoMountService | ManagerUnmountFailed | NotConfirmedAfterUnmount
    | StillMounted | DetachFailed | MountedAfterDetach | CleanupFailed | RestageFailed
    | Recovered(failed: set<string>)

  /** Nothing happens to the mount on its own during steps 1 and 2, and during steps 3 to 5. */
  predicate CalmDown(d: DownInput) {
    && d.stop.before == [] && d.stop.after == [] && d.recheck.before == [] && d.guard.before == []
    && d.detach.before == [] && d.detach.after == [] && d.report.before == [] && d.cleanup.before == [] && d.cleanup.after == []
  }

  ghost predicate CalmUp(u: UpInput) {
    u.stage.before == [] && u.stage.after == [] && forall p :: u.binds(p).before == []
  }

  ghost predicate Calm(r: RecoverInput) {
    r.recheck.before == [] && CalmDown(r.down) && CalmUp(r.up)
  }

  /** A check of the mount confirms a recovery. */
  predicate Confirmed(c: CheckInput, m: Mount, bound: nat) {
    Confirms(Told(c.verdict, m), c.unanswered, bound)
  }

  /** The mount is no obstacle to its detachment: none is reported, or it is proven dead or hung. */
  predicate Passes(g: GuardInput, m: Mount, bound: nat) {
    !g.readable || m.Absent? || Confirms(Told(g.verdict, m), g.unanswered, bound)
  }

  /** What a stop leaves mounted, and the number of the next mount. */
  function Stopped(stop: StopInput, m: Mount, next: nat, stops: bool): (Mount, nat) {
    if stops then ChangedAround(m, next, stop.before, stop.gone, stop.after) else (m, next)
  }

  /** What is mounted at the second recheck, at the guard, after the detach, at the second look, after the cleanup. */
  function AtRecheck(d: DownInput, m: Mount, next: nat, stops: bool): (Mount, nat) {
    var (left, n) := Stopped(d.stop, m, next, stops);
    Changed(left, n, d.recheck.before)
  }

  function AtGuard(d: DownInput, m: Mount, next: nat, stops: bool): (Mount, nat) {
    var (left, n) := AtRecheck(d, m, next, stops);
    Changed(left, n, d.guard.before)
  }

  function AtReport(d: DownInput, m: Mount, next: nat, stops: bool): (Mount, nat) {
    var (left, n) := AtGuard(d, m, next, stops);
    var (detached, n') := ChangedAround(left, n, d.detach.before, true, d.detach.after);
    Changed(detached, n', d.report.before)
  }

  function TakenDown(d: DownInput, m: Mount, next: nat, stops: bool): (Mount, nat) {
    var (left, n) := AtReport(d, m, next, stops);
    ChangedAround(left, n, d.cleanup.before, true, d.cleanup.after)
  }

  /** Why steps 1 and 2 give up, if they do. */
  function DownAborts(d: DownInput, m: Mount, next: nat, bound: nat, stops: bool): Option<Exit> {
    if stops && !d.stop.ok then Some(ManagerUnmountFailed)
    else if !Confirmed(d.recheck, AtRecheck(d, m, next, stops).0, bound) then Some(NotConfirmedAfterUnmount)
    else if !Passes(d.guard, AtGuard(d, m, next, stops).0, bound) then Some(StillMounted)
    else if !d.detach.ok then Some(DetachFailed)
    else if d.report.readable && !AtReport(d, m, next, stops).0.Absent? then Some(MountedAfterDetach)
    else if !d.cleanup.ok then Some(CleanupFailed)
    else None
  }

  /** What is mounted when the recovery of a volume has confirmed its need, and when it stages again. */
  function Found(r: RecoverInput, m: Mount, next: nat): (Mount, nat) {
    Changed(m, next, r.recheck.before)
  }

  function ReadyToStage(r: RecoverInput, vol: Volume, m: Mount, next: nat, bound: nat): (Mount, nat) {
    TakenDown(r.down, Found(r, m, next).0, Found(r, m, next).1, bound > 0 || vol.hasUnmounter)
  }

  /** Why the recovery of a volume gives up, if it does. */
  function RecoveryAborts(r: RecoverInput, vol: Volume, m: Mount, next: nat, bound: nat): Option<Exit> {
    var (found, n) := Found(r, m, next);
    if !Confirmed(r.recheck, found, bound) then Some(NotConfirmed)
    else if !vol.hasContext then Some(NoContext)
    else if bound > 0 && !vol.hasUnmounter && !r.reachable then Some(NoMountService)
    else
      var aborted := DownAborts(r.down, found, n, bound, bound > 0 || vol.hasUnmounter);
      if aborted.Some? then aborted else if !r.up.stage.ok then Some(RestageFailed) else None
  }

  /**
   Every call of a recovery works, and every check of the mount confirms it: where it has an
   unmounter or is hung, whether or not the stop takes the mount away.
   */
  ghost predicate AllWorks(r: RecoverInput, m: Mount, bound: nat) {
    && Confirmed(r.recheck, m, bound) && Confirmed(r.down.recheck, m, bound) && Passes(r.down.guard, m, bound)
    && r.reachable && r.down.stop.ok && r.down.detach.ok && r.down.cleanup.ok && r.up.stage.ok && r.up.stage.mounted
    && (forall p :: r.up.tears(p).unmounted && r.up.tears(p).removed && r.up.binds(p).checked && r.up.binds(p).bound)
  }

  /** A recovery is not confirmed if and only if its check answers healthy, or slow without having waited past the bound of a hung one. */
  lemma RecoverySparesHealthyAndSlow(r: RecoverInput, vol: Volume, m: Mount, next: nat, bound: nat)
    ensures var v := Told(r.recheck.verdict, Found(r, m, next).0);
            RecoveryAborts(r, vol, m, next, bound) == Some(NotConfirmed) <==>
              v.Healthy? || (v.Slow? && (bound == 0 || r.recheck.unanswered <= bound))
  {
  }

  /** With nothing happening on its own, what is found is what was there, and nothing is left in the way. */
  lemma CalmRecovery(r: RecoverInput, vol: Volume, m: Mount, next: nat, bound: nat)
    requires Calm(r)
    ensures Found(r, m, next) == (m, next) && ReadyToStage(r, vol, m, next, bound) == (Absent, next)
    ensures var stops := bound > 0 || vol.hasUnmounter;
            var left := if stops && r.down.stop.gone then Absent else m;
            && AtRecheck(r.down, m, next, stops) == AtGuard(r.down, m, next, stops) == (left, next)
            && AtReport(r.down, m, next, stops) == (Absent, next)
  {
  }

  /** Then it does not give up, and no path fails. */
  lemma WorkingRecoverySucceeds(r: RecoverInput, vol: Volume, m: Mount, next: nat, bound: nat)
    requires Calm(r) && AllWorks(r, m, bound) && vol.hasContext
    ensures RecoveryAborts(r, vol, m, next, bound).None?
    ensures forall p, stack | |stack| <= 1 :: Gone(r.up.tears(p), stack) && r.up.binds(p).checked && r.up.binds(p).bound
  {
    CalmRecovery(r, vol, m, next, bound);
    forall p, stack: seq<nat> | |stack| <= 1
      ensures Gone(r.up.tears(p), stack) && r.up.binds(p).checked && r.up.binds(p).bound
    {
      assert r.up.tears(p).unmounted && r.up.tears(p).removed;
    }
  }

  /** An aborted recovery ends right after the event that made it abort. */
  predicate Explains(e: Option<Event>, exit: Exit, bound: nat) {
    match exit
    case NotConfirmed => e.Some? && e.value.Rechecked? && !IsConfirmation(e, bound)
    case NotConfirmedAfterUnmount => e.Some? && e.value.Rechecked? && !IsConfirmation(e, bound)
    case NoMountService => e == Some(Failed(Reach))
    case ManagerUnmountFailed => e == Some(Failed(StopProcess))
    case StillMounted => e == Some(TableChecked(MountThere(false)))
    case DetachFailed => e == Some(Failed(Detach))
    case MountedAfterDetach => e == Some(Failed(StayUnmounted))
    case CleanupFailed => e == Some(Failed(Cleanup))
    case RestageFailed => e == Some(Failed(Stage))
    case _ => true
  }

  /** The event records that what is mounted is about to be unmounted. */
  predicate Takes(e: Event, m: Mount) {
    match e
    case ManagerUnmount(mount, _) => mount == m
    case Detached(mount, _) => mount == m
    case Cleaned(mount, _) => mount == m
    case KubeletUnmounted(mount) => mount == m
    case Displaced(_, mount) => mount == m
    case Unstaged(mount) => mount == m
    case _ => false
  }

  class NodeServer {
    var volume: Option<Volume>
    var staging: Mount
    var binds: map<string, seq<nat>>
    var log: Log

    /** The digest of the log. */
    function D(): Digest
      reads this`log
    {
      Summary(log)
    }

    /** No second bind is ever stacked, and tracked paths are outstanding with their flags. */
    predicate Sound()
      reads this
    {
      && (forall p | p in binds :: |binds[p]| <= 1)
      && (volume.Some? ==> Tracked(volume.value.publishes, D().outstanding))
      && (!staging.Absent? ==> staging.epoch < D().next)
      && Justifiable(log)
    }

    /** And between two operations no probe of a mount that a recovery stopped or detached is in flight. */
    predicate Valid()
      reads this
    {
      Sound() && !D().stale
    }

    constructor ()
      ensures Valid() && volume.None? && log.Start? && binds == map[] && staging.Absent?
    {
      volume, staging, binds, log := None, Absent, map[], Start;
    }

    // ----- the environment, the probes and the mount service -----

    /** Appends to the log. */
    method Note(e: Event)
      requires Justifiable(log) && Justified(D(), e)
      modifies this`log
      ensures Justifiable(log) && D() == Fold(old(D()), e) && log == Then(old(log), e)
    {
      log := Then(log, e);
    }

    method NotePlain(e: Event)
      requires Sound() && Justified(D(), e) && Plain(e)
      modifies this`log
      ensures Sound() && D() == Advance(old(D()), e) && log == Then(old(log), e)
    {
      PlainFold(D(), e);
      Note(e);
    }

    /** A path that could not be unmounted or bound. */
    method NoteFailedPath(what: Failure)
      requires Sound() && (what.Unbind? || what.Bind?)
      modifies this`log
      ensures Sound() && D() == Advance(old(D()), Failed(what)).(failed := old(D()).failed + {what.path})
      ensures log == Then(old(log), Failed(what))
    {
      Note(Failed(what));
    }

    method HappenOnce(step: Change)
      requires Sound()
      modifies this`staging, this`log
      ensures Sound() && Drift(old(D()), old(staging), D(), staging) && Grows(old(log), log)
      ensures (staging, D().next) == ChangedOnce(old(staging), old(D()).next, step)
    {
      match step {
        case Breaks => staging := if staging.Serving? then Broken(staging.epoch) else staging;
        case Vanishes => Unmount();
        case ComesUp => Appear();
      }
    }

    /** The mount breaks or goes away, or a new one comes up, any number of times. */
    method Happen(steps: seq<Change>)
      requires Sound()
      modifies this`staging, this`log
      ensures Sound() && Drift(old(D()), old(staging), D(), staging) && Grows(old(log), log)
      ensures (staging, D().next) == Changed(old(staging), old(D()).next, steps)
      ensures steps == [] ==> log == old(log)
    {
      for k := 0 to |steps|
        invariant Sound() && Drift(old(D()), old(staging), D(), staging) && Grows(old(log), log)
        invariant (staging, D().next) == Changed(old(staging), old(D()).next, steps[..k])
        invariant k == 0 ==> log == old(log)
      {
        assert steps[..k + 1][..k] == steps[..k];
        ghost var before := log;
        HappenOnce(steps[k]);
        GrowsTransitive(old(log), before, log);
      }
      assert steps[..|steps|] == steps;
    }

    /** Whatever is mounted at the staging path is unmounted. */
    method Unmount()
      requires Sound()
      modifies this`staging
      ensures Sound() && staging.Absent?
    {
      staging := Absent;
    }

    /** The mount at the staging path is unmounted by an action that has just been recorded with it. */
    method TakeMount()
      requires Sound() && log.Then? && Takes(log.event, staging)
      modifies this`staging
      ensures Sound() && staging.Absent?
    {
      Unmount();
    }

    /** A new mount comes up at the staging path. */
    method Appear()
      requires Sound()
      modifies this`staging, this`log
      ensures Sound() && staging == Serving(old(D()).next) && D() == Fold(old(D()), Appeared(old(D()).next))
      ensures log == Then(old(log), Appeared(old(D()).next))
    {
      staging := Serving(D().next);
      Note(Appeared(D().next));
    }

    /** A health check of the staging path. */
    method CheckStaging(c: CheckInput) returns (v: Verdict)
      requires Sound()
      modifies this`staging, this`log
      ensures Sound() && Drift(old(D()), old(staging), D(), staging) && Grows(old(log), log)
      ensures v == Told(c.verdict, staging)
      ensures (staging, D().next) == Changed(old(staging), old(D()).next, c.before)
      ensures c.before == [] ==> log == old(log)
    {
      Happen(c.before);
      v := Told(c.verdict, staging);
    }

    /** recheck: a check of the staging path that may confirm the recovery. */
    method Recheck(bound: nat, c: CheckInput) returns (confirmed: bool)
      requires Valid()
      modifies this`staging, this`log
      ensures Valid() && Since(old(staging), old(D()).next, staging)
      ensures Extends(old(D()), D(), {}) && D().last.Some? && D().last.value.Rechecked?
      ensures confirmed <==> IsConfirmation(D().last, bound)
      ensures confirmed <==> Confirmed(c, staging, bound)
      ensures confirmed && bound == 0 ==> New(D(), staging)
      ensures (staging, D().next) == Changed(old(staging), old(D()).next, c.before)
    {
      var v := CheckStaging(c);
      NotePlain(Rechecked(v, c.unanswered));
      confirmed := Confirms(v, c.unanswered, bound);
    }

    /** requireHealthyStaging, isStagingPathHealthy: whether the staging path answers healthy. */
    method IsHealthy(c: CheckInput) returns (healthy: bool)
      requires Valid()
      modifies this`staging, this`log
      ensures Valid() && Extends(old(D()), D(), {}) && Grows(old(log), log)
      ensures D().last == Some(Rechecked(Told(c.verdict, staging), c.unanswered))
      ensures healthy <==> Told(c.verdict, staging).Healthy?
      ensures Told(c.verdict, staging).Dead? ==> New(D(), staging)
      ensures (staging, D().next) == Changed(old(staging), old(D()).next, c.before)
    {
      var v := CheckStaging(c);
      NotePlain(Rechecked(v, c.unanswered));
      healthy := v.Healthy?;
    }

    /** volumeUnmounterFn: a client that can ask the mount service to stop the volume's process. */
    method ReachMountService(reachable: bool) returns (ok: bool)
      requires Valid()
      modifies this`log
      ensures Valid() && ok == reachable && (ok ==> log == old(log))
      ensures !ok ==> D() == Fold(old(D()), Failed(Reach))
    {
      ok := reachable;
      if !ok {
        NotePlain(Failed(Reach));
      }
    }

    /** The mount service stops the weed process; what is left of its mount is up to it. */
    method AskManagerToUnmount(bound: nat, s: StopInput) returns (ok: bool)
      requires Valid() && IsConfirmation(D().last, bound) && (bound == 0 ==> New(D(), staging))
      modifies this`staging, this`log
      ensures Valid() && Since(old(staging), old(D()).next, staging)
      ensures Extends(old(D()), D(), {}) && D().stopped
      ensures D().last == Some(if ok then ProbesReset else Failed(StopProcess))
      ensures ok == s.ok
      ensures (staging, D().next) == ChangedAround(old(staging), old(D()).next, s.before, s.gone, s.after)
    {
      Happen(s.before);
      Note(ManagerUnmount(staging, bound));
      if s.gone {
        TakeMount();
      }
      Happen(s.after);
      ok := s.ok;
      NotePlain(if ok then ProbesReset else Failed(StopProcess));
    }

    /**
     The mount table guard: a mount it reports must be proven dead, or hung past the bound; a table
     that cannot be read is no obstacle.
     */
    method GuardMounted(bound: nat, g: GuardInput) returns (ok: bool)
      requires Valid() && IsConfirmation(D().last, bound) && (bound == 0 ==> New(D(), staging))
      modifies this`staging, this`log
      ensures Valid() && Since(old(staging), old(D()).next, staging)
      ensures Extends(old(D()), D(), {}) && D().last2 == old(D()).last
      ensures D().last.Some? && D().last.value.TableChecked? && (ok <==> D().last.value.table != MountThere(false))
      ensures ok && bound == 0 ==> New(D(), staging)
      ensures D().last.value.table.NothingMounted? ==> staging.Absent?
      ensures D().last.value.table == MountThere(true) && bound == 0 ==> !staging.Serving?
      ensures ok == Passes(g, staging, bound)
      ensures (staging, D().next) == Changed(old(staging), old(D()).next, g.before)
    {
      Happen(g.before);
      var proven := Confirms(Told(g.verdict, staging), g.unanswered, bound);
      var table := if !g.readable then Unreadable else if staging.Absent? then NothingMounted else MountThere(proven);
      NotePlain(TableChecked(table));
      ok := table != MountThere(false);
    }

    /** A lazy unmount; a path where nothing is mounted counts as detached. */
    method DetachStaging(bound: nat, r: RemoveInput) returns (ok: bool)
      requires Valid() && D().last.Some? && D().last.value.TableChecked? && D().last.value.table != MountThere(false)
      requires IsConfirmation(D().last2, bound) && (bound == 0 ==> New(D(), staging))
      modifies this`staging, this`log
      ensures Valid() && Extends(old(D()), D(), {})
      ensures ok ==> Fresh(D(), staging) && AtLeast(staging, old(D()).next)
      ensures D().last2.Some? && D().last2.value.Detached? && D().last2.value.bound == bound
      ensures D().last == Some(if ok then ProbesReset else Failed(Detach))
      ensures ok == r.ok
      ensures (staging, D().next) == ChangedAround(old(staging), old(D()).next, r.before, ok, r.after)
    {
      Happen(r.before);
      NotePlain(Detached(staging, bound));
      ok := r.ok;
      if ok {
        TakeMount();
      }
      Happen(r.after);
      NotePlain(if ok then ProbesReset else Failed(Detach));
    }

    /** Whether the mount table reports a mount at the staging path; a table that cannot be read does not. */
    method ReportsMounted(r: ReportInput) returns (mounted: bool)
      requires Valid() && Fresh(D(), staging)
      modifies this`staging, this`log
      ensures Valid() && Since(old(staging), old(D()).next, staging)
      ensures Extends(old(D()), D(), {}) && D().last2 == old(D()).last && D().last3 == old(D()).last2
      ensures mounted ==> D().last == Some(Failed(StayUnmounted))
      ensures !mounted ==> D().last.Some? && D().last.value.NotReportedMounted? && Fresh(D(), staging)
      ensures mounted == (r.readable && !staging.Absent?)
      ensures (staging, D().next) == Changed(old(staging), old(D()).next, r.before)
    {
      Happen(r.before);
      mounted := r.readable && !staging.Absent?;
      NotePlain(if mounted then Failed(StayUnmounted) else NotReportedMounted(r.readable));
    }

    /** Unmounts once more and removes the directory, which succeeds only where nothing is mounted. */
    method CleanupStaging(bound: nat, r: RemoveInput) returns (ok: bool)
      requires Valid() && Fresh(D(), staging) && D().last.Some? && D().last.value.NotReportedMounted?
      requires D().last2 == Some(ProbesReset) && D().last3.Some? && D().last3.value.Detached? && D().last3.value.bound == bound
      modifies this`staging, this`log
      ensures Valid() && Extends(old(D()), D(), {})
      ensures ok ==> Fresh(D(), staging) && AtLeast(staging, old(D()).next) && D().last.Some? && D().last.value.Cleaned?
      ensures !ok ==> D().last == Some(Failed(Cleanup))
      ensures ok == r.ok
      ensures (staging, D().next) == ChangedAround(old(staging), old(D()).next, r.before, ok, r.after)
    {
      Happen(r.before);
      NotePlain(Cleaned(staging, bound));
      ok := r.ok;
      if ok {
        TakeMount();
      }
      Happen(r.after);
      if !ok {
        NotePlain(Failed(Cleanup));
      }
    }

    /** Volume.Stage unmounts what it finds at the path before it mounts. */
    method Displace(actor: Actor, before: seq<Change>, unmounted: bool)
      requires Valid() && Prepares(D().last, actor) && New(D(), staging) && (actor.Recovery? ==> Fresh(D(), staging))
      modifies this`staging, this`log
      ensures Valid() && Since(old(staging), old(D()).next, staging) && Grows(old(log), log)
      ensures Extends(old(D()), D(), {}) && MayStage(D(), actor) && (actor.Recovery? ==> Fresh(D(), staging))
      ensures (staging, D().next) == ChangedAround(old(staging), old(D()).next, before, unmounted, [])
    {
      Happen(before);
      if !staging.Absent? && unmounted {
        NotePlain(Displaced(actor, staging));
        TakeMount();
      }
    }

    /** The mount a stage asks for comes up like any other, or does not. */
    method ComeUp(mounted: bool, after: seq<Change>)
      requires Sound()
      modifies this`staging, this`log
      ensures Sound() && Drift(old(D()), old(staging), D(), staging) && Grows(old(log), log)
      ensures (staging, D().next) ==
              if mounted then Changed(Serving(old(D()).next), old(D()).next + 1, after) else Changed(old(staging), old(D()).next, after)
    {
      if mounted {
        Appear();
      }
      ghost var up := log;
      Happen(after);
      GrowsTransitive(old(log), up, log);
    }

    /**
     stageNewVolume: success means that the mount service answered so; it may have found the volume
     mounted already although nothing is.  A failure may leave a mount behind.
     */
    method StageNewVolume(actor: Actor, input: StageInput) returns (ok: bool)
      requires Valid() && Prepares(D().last, actor) && New(D(), staging) && (actor.Recovery? ==> Fresh(D(), staging))
      modifies this`staging, this`log
      ensures Valid() && Since(old(staging), old(D()).next, staging) && Grows(old(log), log)
      ensures Extends(old(D()), D(), {}) && (actor.Recovery? ==> Fresh(D(), staging))
      ensures D().last == Some(if ok then Restaged(actor) else Failed(Stage))
      ensures ok == input.ok && (ok && actor.Recovery? ==> D().restaged)
      ensures input.before == [] && input.after == [] ==> staging == Staged(input, old(staging), old(D()).next)
    {
      Displace(actor, input.before, input.unmounted);
      ghost var displaced := log;
      ComeUp(input.mounted, input.after);
      GrowsTransitive(old(log), displaced, log);
      ok := input.ok;
      Note(if ok then Restaged(actor) else Failed(Stage));
    }

    // ----- publish binds -----

    /** umount of the topmost bind: fails where nothing is mounted. */
    method UnmountPath(path: string, works: bool) returns (ok: bool)
      requires Valid()
      modifies this`binds
      ensures Valid() && SameExcept(old(binds), binds, {path})
      ensures ok == (works && old(StackAt(binds, path)) != [])
      ensures if ok then StackAt(binds, path) == [] else binds == old(binds)
    {
      ok := works && StackAt(binds, path) != [];
      if ok {
        binds := binds[path := StackAt(binds, path)[1..]];
      }
    }

    /** CleanupMountPoint: unmounts, and succeeds only if nothing is mounted and the directory is gone. */
    method CleanupMountPoint(path: string, unmounted: bool, removed: bool) returns (ok: bool)
      requires Valid()
      modifies this`binds
      ensures Valid() && SameExcept(old(binds), binds, {path})
      ensures ok ==> StackAt(binds, path) == []
      ensures ok == (removed && (unmounted || old(StackAt(binds, path)) == []))
      ensures StackAt(binds, path) == if unmounted then [] else old(StackAt(binds, path))
    {
      var _ := UnmountPath(path, unmounted);
      ok := StackAt(binds, path) == [] && removed;
    }

    /** tearDownStalePublishBind: true only if the path is no longer a mount point. */
    method TearDownStalePublishBind(path: string, actor: Actor, t: TearInput) returns (gone: bool)
      requires Valid() && Justified(D(), Unbinding(path, actor))
      modifies this`binds, this`log
      ensures Valid() && SameExcept(old(binds), binds, {path}) && Grows(old(log), log)
      ensures gone == Gone(t, StackAt(old(binds), path)) && Records(log, Unbinding(path, actor))
      ensures StackAt(binds, path) == [] || (!gone && StackAt(binds, path) == StackAt(old(binds), path))
      ensures Extends(old(D()), D(), if gone then {} else {path}) && D().appeared == old(D()).appeared
    {
      NotePlain(Unbinding(path, actor));
      gone := UnmountPath(path, t.unmounted);
      if !gone {
        gone := CleanupMountPoint(path, t.cleanupUnmounted, t.removed);
      }
      if !gone {
        NoteFailedPath(Unbind(path));
      }
    }

    /** checkMount: whether the path is a mount point; a corrupted mount is first unmounted. */
    method CheckMount(path: string, b: BindInput) returns (ok: bool, mounted: bool)
      requires Valid()
      modifies this`binds
      ensures Valid() && SameExcept(old(binds), binds, {path})
      ensures mounted <==> StackAt(binds, path) != []
      ensures old(StackAt(binds, path)) == [] ==> binds == old(binds)
      ensures var clears := b.corrupted && old(StackAt(binds, path)) != [];
              && ok == (if clears then b.unmounted else b.checked)
              && StackAt(binds, path) == if clears && b.unmounted then [] else old(StackAt(binds, path))
    {
      ok := b.checked;
      if b.corrupted && StackAt(binds, path) != [] {
        ok := UnmountPath(path, b.unmounted);
      }
      mounted := StackAt(binds, path) != [];
    }

    /** bindMountFn: binds what is at the staging path onto a path where nothing is mounted. */
    method BindMount(path: string, works: bool)
      requires Valid() && StackAt(binds, path) == []
      modifies this`binds
      ensures Valid() && SameExcept(old(binds), binds, {path})
      ensures if works then StackAt(binds, path) == [SourceEpoch(staging)] else binds == old(binds)
    {
      if works {
        binds := binds[path := [SourceEpoch(staging)]];
      }
    }

    method BindUnlessMounted(path: string, b: BindInput) returns (ok: bool, already: bool)
      requires Valid()
      modifies this`binds
      ensures Valid() && SameExcept(old(binds), binds, {path})
      ensures already ==> ok && StackAt(binds, path) != [] && StackAt(old(binds), path) != []
      ensures ok && !already ==> StackAt(binds, path) == [SourceEpoch(staging)]
      ensures (ok, StackAt(binds, path)) == BindLeaves(b, StackAt(old(binds), path), SourceEpoch(staging))
      ensures StackAt(old(binds), path) == [] && !ok ==> binds == old(binds)
      ensures StackAt(old(binds), path) != [] && !b.corrupted && b.checked ==> already
    {
      var mounted;
      ok, mounted := CheckMount(path, b);
      if ok && mounted {
        return true, true;
      }
      already := false;
      if ok {
        ghost var before := binds;
        BindMount(path, b.bound);
        ok := b.bound;
        SameExceptTransitive(old(binds), before, binds, {path}, {path});
      }
    }

    /** Whether the log may record a bind of what is at the staging path, now or after some drift. */
    predicate MayBind(path: string, actor: Actor, readOnly: bool)
      reads this
    {
      if actor.Kubelet? then Ready(D().last)
      else path in D().outstanding && D().outstanding[path] == readOnly && (actor.Recovery? ==> Fresh(D(), staging))
    }

    method NoteBind(path: string, actor: Actor, readOnly: bool, ok: bool)
      requires Valid() && MayBind(path, actor, readOnly)
      modifies this`log
      ensures Valid() && D().appeared == old(D()).appeared && D().next == old(D()).next
      ensures Extends(old(D()), D(), if ok then {} else {path})
      ensures ok ==> D().last == Some(Bound(path, actor, readOnly, staging))
      ensures log == Then(old(log), if ok then Bound(path, actor, readOnly, staging) else Failed(Bind(path)))
    {
      if ok {
        NotePlain(Bound(path, actor, readOnly, staging));
      } else {
        NoteFailedPath(Bind(path));
      }
    }

    /** Volume.Publish: binds the staging path unless something is mounted at the target already. */
    method Publish(path: string, actor: Actor, readOnly: bool, b: BindInput) returns (ok: bool)
      requires Valid() && MayBind(path, actor, readOnly)
      modifies this`staging, this`binds, this`log
      ensures Valid() && SameExcept(old(binds), binds, {path}) && Since(old(staging), old(D()).next, staging)
      ensures ok ==> StackAt(binds, path) != []
      ensures ok && StackAt(old(binds), path) == [] ==>
                StackAt(binds, path) == [SourceEpoch(staging)] && D().last == Some(Bound(path, actor, readOnly, staging))
      ensures (ok, StackAt(binds, path)) == BindLeaves(b, StackAt(old(binds), path), SourceEpoch(staging))
      ensures StackAt(old(binds), path) == [] && !ok ==> binds == old(binds)
      ensures StackAt(old(binds), path) != [] && !b.corrupted && b.checked ==> D().last == old(D()).last
      ensures ok && StackAt(old(binds), path) == [] ==> Records(log, Bound(path, actor, readOnly, staging))
      ensures Extends(old(D()), D(), if ok then {} else {path}) && Grows(old(log), log)
      ensures actor.Recovery? ==> Fresh(D(), staging)
      ensures (staging, D().next) == Changed(old(staging), old(D()).next, b.before)
    {
      Happen(b.before);
      var already;
      ok, already := BindUnlessMounted(path, b);
      if !already {
        NoteBind(path, actor, readOnly, ok);
      }
    }

    // ----- the operations under the volume's mutex -----

    /** The node plugin restarts and forgets the volume. */
    method Restart()
      requires Valid()
      modifies this`volume
      ensures Valid() && volume.None?
    {
      volume := None;
    }

    /** recoverStagedVolumesFromDisk for this volume: publish paths found on disk are tracked, all as writable. */
    method RestoreFromDisk(paths: set<string>)
      requires Valid()
      modifies this`volume, this`log
      ensures Valid() && (old(volume).Some? ==> volume == old(volume) && log == old(log))
      ensures old(volume).None? ==> volume == Some(Volume(true, false, false, map p | p in paths :: false))
    {
      if volume.Some? {
        return;
      }
      var todo := paths;
      while todo != {}
        invariant Valid() && volume.None?
        invariant forall p | p in paths :: p in todo || IsWritable(D().outstanding, p)
        decreases |todo|
      {
        var p :| p in todo;
        RestoreKeepsWritable(D().outstanding, p);
        Note(PublishRestored(p));
        todo := todo - {p};
      }
      volume := Some(Volume(true, false, false, map p | p in paths :: false));
    }

    /**
     Clears the staging path of an untracked volume that is not healthy: unmounts whatever is there,
     and succeeds if then nothing is.  A stat of the path that fails in an unknown way, which counts
     as dead, skips the cleanup.
     */
    method ClearStaging(c: ClearInput) returns (ok: bool)
      requires Valid() && D().last.Some? && D().last.value.Rechecked? && !D().last.value.verdict.Healthy?
      requires D().last.value.verdict.Dead? ==> New(D(), staging)
      modifies this`staging, this`log
      ensures Valid() && Extends(old(D()), D(), {}) && Grows(old(log), log)
      ensures ok ==> Prepares(D().last, Kubelet) && New(D(), staging)
      ensures var skips := c.skipped && old(D()).last.value.verdict.Dead?;
              && (staging, D().next) == (if skips then (old(staging), old(D()).next) else ClearLeaves(c, old(staging), old(D()).next))
              && ok == (skips || (c.removed && staging.Absent?))
              && (!skips && c.before == [] && c.unmounted && !old(staging).Absent? ==> Records(log, KubeletUnmounted(old(staging))))
      ensures !ok ==> D().last != Some(Cleared)
    {
      if c.skipped && D().last.value.verdict.Dead? {
        return true;
      }
      Happen(c.before);
      ghost var was, taken := staging, !staging.Absent? && c.unmounted;
      ghost var happened := log;
      if c.unmounted && !staging.Absent? {
        NotePlain(KubeletUnmounted(staging));
        TakeMount();
        ghost var noted := log;
        Happen(c.between);
        GrowsTransitive(happened, noted, log);
        GrowsKeepsRecords(noted, log, KubeletUnmounted(was));
      }
      GrowsTransitive(old(log), happened, log);
      ok := c.removed && staging.Absent?;
      if ok {
        NotePlain(Cleared);
      }
    }

    /** Tracks the volume from a healthy mount, or clears the path and stages anew. */
    method TrackOrRestage(hasContext: bool, readOnly: bool, t: TrackInput) returns (ok: bool)
      requires Valid() && volume.None?
      modifies this`volume, this`staging, this`log
      ensures Valid() && Extends(old(D()), D(), {})
      ensures if ok then volume.Some? && volume.value.publishes == map[] else volume.None?
      ensures ok ==> Ready(D().last)
      ensures Quiet(t) ==> staging == TrackLeaves(t, old(staging), old(D()).next) && ok == Tracks(t, old(staging))
      ensures Quiet(t) && ok ==> volume == Some(TrackedAs(t, old(staging), hasContext, readOnly))
      ensures Quiet(t) && Unmounts(t, old(staging)) ==> Records(log, KubeletUnmounted(old(staging)))
    {
      var healthy := IsHealthy(t.check);
      if healthy {
        volume := Some(Volume(hasContext, readOnly, false, map[]));
        return true;
      }
      ghost var was := staging;
      var cleared := ClearStaging(t.clear);
      if !cleared {
        return false;
      }
      ghost var before := log;
      ok := StageNewVolume(Kubelet, t.stage);
      if Quiet(t) && Unmounts(t, was) {
        GrowsKeepsRecords(before, log, KubeletUnmounted(was));
      }
      if ok {
        volume := Some(Volume(true, readOnly, true, map[]));
      }
    }

    method NodeStageVolume(hasContext: bool, readOnly: bool, t: TrackInput) returns (ok: bool)
      requires Valid()
      modifies this`volume, this`staging, this`log
      ensures Valid() && D().outstanding == old(D()).outstanding
      ensures old(volume).Some? || !ok ==> volume == old(volume)
      ensures old(volume).None? && ok ==> volume.Some? && volume.value.publishes == map[]
      ensures ok ==> Ready(D().last)
      ensures old(volume).Some? ==> ok == Told(t.check.verdict, staging).Healthy?
      ensures old(volume).None? && Quiet(t) ==>
                staging == TrackLeaves(t, old(staging), old(D()).next) && ok == Tracks(t, old(staging))
      ensures old(volume).None? && Quiet(t) && ok ==> volume == Some(TrackedAs(t, old(staging), hasContext, readOnly))
      ensures old(volume).None? && Quiet(t) && Unmounts(t, old(staging)) ==> Records(log, KubeletUnmounted(old(staging)))
    {
      if volume.Some? {
        ok := IsHealthy(t.check);
        return;
      }
      ok := TrackOrRestage(hasContext, readOnly, t);
    }

    method NodePublishVolume(path: string, readOnly: bool, hasContext: bool, t: TrackInput, b: BindInput) returns (ok: bool)
      requires Valid()
      modifies this
      ensures Valid() && SameExcept(old(binds), binds, {path})
      ensures ok ==> volume.Some? && StackAt(binds, path) != [] && D().outstanding == old(D()).outstanding[path := readOnly]
      ensures ok ==> volume.value.publishes ==
                       (if old(volume).Some? then old(volume).value.publishes else map[])[path := readOnly]
      ensures ok && StackAt(old(binds), path) == [] ==> StackAt(binds, path) == [SourceEpoch(staging)]
      ensures !ok ==> D().outstanding == old(D()).outstanding
      ensures !ok && old(volume).Some? ==> volume == old(volume)
      ensures old(volume).Some? && t.check.verdict.Healthy? && StackAt(old(binds), path) == [] && b.checked && b.bound ==> ok
      ensures old(volume).None? && Quiet(t) && StackAt(old(binds), path) == [] ==>
                ok == (Tracks(NeverSkipping(t), old(staging)) && b.checked && b.bound)
      ensures old(volume).None? && Quiet(t) && Unmounts(NeverSkipping(t), old(staging)) ==>
                Records(log, KubeletUnmounted(old(staging)))
    {
      ghost var was := staging;
      if volume.Some? {
        var healthy := IsHealthy(t.check);
        if !healthy {
          return false;
        }
      } else {
        var tracked := TrackOrRestage(hasContext, readOnly, NeverSkipping(t));
        if !tracked {
          return false;
        }
      }
      ghost var ready := log;
      ok := PublishAndTrack(path, readOnly, b);
      if Records(ready, KubeletUnmounted(was)) {
        GrowsKeepsRecords(ready, log, KubeletUnmounted(was));
      }
    }

    method PublishAndTrack(path: string, readOnly: bool, b: BindInput) returns (ok: bool)
      requires Valid() && volume.Some? && Ready(D().last)
      modifies this`volume, this`staging, this`binds, this`log
      ensures Valid() && SameExcept(old(binds), binds, {path})
      ensures ok ==> StackAt(binds, path) != [] && D().outstanding == old(D()).outstanding[path := readOnly]
      ensures ok && StackAt(old(binds), path) == [] ==> StackAt(binds, path) == [SourceEpoch(staging)]
      ensures !ok ==> D().outstanding == old(D()).outstanding
      ensures volume == if ok then Some(old(volume).value.(publishes := old(volume).value.publishes[path := readOnly])) else old(volume)
      ensures StackAt(old(binds), path) == [] ==> ok == (b.checked && b.bound)
      ensures Grows(old(log), log)
    {
      ok := Publish(path, Kubelet, readOnly, b);
      if ok {
        Note(PublishAccepted(path, readOnly));
        volume := Some(volume.value.(publishes := volume.value.publishes[path := readOnly]));
      }
    }

    /** The path is withdrawn before its cleanup, and stays withdrawn if the cleanup fails. */
    method NodeUnpublishVolume(path: string, unmounted: bool, removed: bool, moved: bool) returns (ok: bool)
      requires Valid()
      modifies this`volume, this`binds, this`log
      ensures Valid() && SameExcept(old(binds), binds, {path})
      ensures D().outstanding == old(D()).outstanding - {path}
      ensures volume.None? <==> old(volume).None?
      ensures volume.Some? ==> volume.value == old(volume).value.(publishes := old(volume).value.publishes - {path})
      ensures ok && volume.Some? ==> StackAt(binds, path) == []
      ensures ok <==> volume.None? || ((unmounted || StackAt(old(binds), path) == []) && (removed || moved))
    {
      if volume.Some? {
        volume := Some(volume.value.(publishes := volume.value.publishes - {path}));
      }
      Note(UnpublishBegun(path));
      ok := CleanupMountPoint(path, unmounted, removed);
      if volume.None? {
        return true;
      }
      if !ok {
        // quarantineStaleTarget: applies only to a path where nothing is mounted.
        ok := moved && StackAt(binds, path) == [];
      }
    }

    /** Stops or unmounts whatever is staged; success leaves nothing mounted and forgets the probes. */
    method NodeUnstageVolume(before: seq<Change>, gone: bool) returns (ok: bool)
      requires Valid()
      modifies this`volume, this`staging, this`log
      ensures Valid() && D().outstanding == old(D()).outstanding && (ok <==> volume.None?)
      ensures ok <==> gone || old(volume).None?
      ensures ok && old(volume).Some? ==> staging.Absent? && D().last == Some(ProbesReset)
      ensures !ok ==> volume == old(volume)
      ensures (staging, D().next) == ChangedAround(old(staging), old(D()).next, before, gone, [])
      ensures !gone && before == [] ==> log == old(log)
    {
      Happen(before);
      if gone {
        NotePlain(Unstaged(staging));
        TakeMount();
        NotePlain(ProbesReset);
      }
      // Without a tracked volume the cleanup is an attempt.
      ok := gone || volume.None?;
      if ok {
        volume := None;
      }
    }

    /** Re-binds the tracked paths whose bind answered dead, or reports them; everything else stays. */
    method RetryPublishPaths(c: CheckInput, inputs: string -> RetryInput)
      requires Valid()
      modifies this`staging, this`binds, this`log
      ensures Valid() && D().outstanding == old(D()).outstanding
      ensures volume.None? ==> binds == old(binds)
      ensures volume.Some? ==> D().dead <= volume.value.publishes.Keys && SameExcept(old(binds), binds, D().dead)
      ensures volume.Some? ==> BoundOrFailed(D(), binds)
      ensures volume.Some? ==>
                if Told(c.verdict, Changed(old(staging), old(D()).next, c.before).0).Dead?
                then binds == old(binds) && D().dead == {}
                else
                  && (forall p | p in volume.value.publishes && Rebinds(inputs(p)) :: RetryBound(log, p, volume.value.publishes[p]))
                  && RetriedAll(old(binds), binds, D().dead, volume.value.publishes, {}, inputs)
    {
      if volume.None? {
        return;
      }
      Note(Begun(Retry));
      var v := CheckStaging(c);
      if v.Dead? {
        return;
      }
      var todo := volume.value.publishes.Keys;
      while todo != {}
        invariant Valid() && Retried(old(D()), D(), old(binds), binds, volume.value.publishes, todo)
        invariant forall p | p in volume.value.publishes && p !in todo && Rebinds(inputs(p)) :: RetryBound(log, p, volume.value.publishes[p])
        invariant RetriedAll(old(binds), binds, D().dead, volume.value.publishes, todo, inputs)
        decreases |todo|
      {
        var p :| p in todo;
        ghost var digest, before, grown := D(), binds, log;
        RetryPath(p, volume.value.publishes[p], inputs(p));
        RetriedStep(old(D()), digest, D(), old(binds), before, binds, volume.value.publishes, todo, p);
        RetriedAllStep(old(binds), before, binds, digest.dead, D().dead, volume.value.publishes, todo, inputs, p);
        todo := todo - {p};
        forall q | q in volume.value.publishes && q !in todo && q != p && Rebinds(inputs(q))
          ensures RetryBound(log, q, volume.value.publishes[q])
        {
          GrowsKeepsRetryBound(grown, log, q, volume.value.publishes[q]);
        }
      }
    }

    method RetryPath(p: string, readOnly: bool, r: RetryInput)
      requires Valid() && p in D().outstanding && D().outstanding[p] == readOnly && p !in D().dead
      modifies this`staging, this`binds, this`log
      ensures Valid() && D().outstanding == old(D()).outstanding && Grows(old(log), log)
      ensures D().dead == old(D()).dead + if r.verdict.Dead? then {p} else {}
      ensures SameExcept(old(binds), binds, D().dead - old(D()).dead) && SameExcept(old(binds), binds, {p})
      ensures RetriedPath(old(binds), binds, p, r)
      ensures old(D()).failed <= D().failed
      ensures p in D().dead ==> p in D().failed || StackAt(binds, p) != []
      ensures Rebinds(r) ==> RetryBound(log, p, readOnly)
    {
      Note(ProbedPath(p, r.verdict));
      if !r.verdict.Dead? {
        return;
      }
      ghost var probed := log;
      var gone := TearDownStalePublishBind(p, Retry, r.tear);
      ghost var torn := log;
      GrowsTransitive(old(log), probed, torn);
      if gone {
        ghost var before := binds;
        var _ := Publish(p, Retry, readOnly, r.bind);
        SameExceptTransitive(old(binds), before, binds, {p}, {p});
        GrowsTransitive(old(log), torn, log);
      }
      assert D().dead - old(D()).dead == {p} + {p};
    }

    /** The paths to publish again, in the order they are visited. */
    method Collect(publishes: map<string, bool>) returns (paths: seq<string>)
      ensures IsOrder(paths, publishes)
    {
      paths := [];
      var rest := publishes;
      while rest != map[]
        invariant forall p :: p in publishes <==> p in paths || p in rest
        invariant forall a, b | 0 <= a < b < |paths| :: paths[a] != paths[b]
        invariant forall p | p in rest :: p !in paths
        decreases |rest|
      {
        var p :| p in rest;
        paths := paths + [p];
        rest := rest - {p};
      }
    }

    /** Step 4 of a recovery: unmount the stale binds. */
    method UnbindAll(paths: seq<string>, publishes: map<string, bool>, tears: string -> TearInput)
      returns (unmounted: map<string, bool>)
      requires Valid() && D().restaged && D().failed == {} && IsOrder(paths, publishes) && Fresh(D(), staging)
      modifies this`binds, this`log
      ensures Valid() && SameExcept(old(binds), binds, publishes.Keys) && Fresh(D(), staging)
      ensures Keeps(old(D()), D()) && Reports(D().failed, paths, |paths|, unmounted)
      ensures TornDown(old(binds), binds, paths, |paths|, unmounted, tears)
    {
      unmounted := map[];
      for i := 0 to |paths|
        invariant Valid() && D().restaged && SameExcept(old(binds), binds, publishes.Keys) && Fresh(D(), staging)
        invariant Keeps(old(D()), D()) && Reports(D().failed, paths, i, unmounted)
        invariant TornDown(old(binds), binds, paths, i, unmounted, tears)
      {
        ghost var before, failed := binds, D().failed;
        var gone := TearDownStalePublishBind(paths[i], Recovery, tears(paths[i]));
        SameExceptTransitive(old(binds), before, binds, publishes.Keys, {paths[i]});
        ReportsStep(failed, paths, i, unmounted, gone);
        TornDownStep(old(binds), before, binds, paths, i, unmounted, tears, gone);
        unmounted := unmounted[paths[i] := gone];
      }
    }

    /** Publishes a path again if its stale bind was unmounted. */
    method RebindOne(p: string, readOnly: bool, unmounted: bool, b: BindInput, ghost floor: nat, ghost held: Option<nat>)
      returns (ok: bool)
      requires Valid() && MayBind(p, Recovery, readOnly) && AtLeast(staging, floor) && floor <= D().next
      requires if unmounted then StackAt(binds, p) == [] else p in D().failed
      requires held.Some? ==> b.before == [] && held.value == SourceEpoch(staging)
      modifies this`staging, this`binds, this`log
      ensures Valid() && Keeps(old(D()), D()) && Fresh(D(), staging) && AtLeast(staging, floor)
      ensures SameExcept(old(binds), binds, {p}) && ReboundPath(old(binds), binds, p, unmounted, !ok, b, floor, held)
      ensures D().failed == Noting(old(D()).failed, p, ok)
      ensures held.Some? ==> staging == old(staging)
    {
      if !unmounted {
        return false;
      }
      ok := Publish(p, Recovery, readOnly, b);
    }

    /** Step 5 of a recovery: track every path, and publish those that were unmounted. */
    method RebindAll(paths: seq<string>, publishes: map<string, bool>, unmounted: map<string, bool>,
                     inputs: string -> BindInput, ghost floor: nat, ghost held: Option<nat>)
      returns (tracked: map<string, bool>, failed: set<string>)
      requires Valid() && IsOrder(paths, publishes) && Reports(D().failed, paths, |paths|, unmounted)
      requires Tracked(publishes, D().outstanding) && Fresh(D(), staging) && AtLeast(staging, floor) && floor <= D().next
      requires forall j | 0 <= j < |paths| :: unmounted[paths[j]] ==> StackAt(binds, paths[j]) == []
      requires held.Some? ==> held.value == SourceEpoch(staging) && forall p :: inputs(p).before == []
      modifies this`staging, this`binds, this`log
      ensures Valid() && SameExcept(old(binds), binds, publishes.Keys)
      ensures Keeps(old(D()), D()) && tracked == publishes && failed == D().failed <= publishes.Keys
      ensures forall p | p in publishes.Keys ::
                p in unmounted && ReboundPath(old(binds), binds, p, unmounted[p], p in failed, inputs(p), floor, held)
      ensures held.Some? ==> staging == old(staging)
    {
      tracked, failed := map[], {};
      for i := 0 to |paths|
        invariant Valid() && Fresh(D(), staging) && AtLeast(staging, floor)
        invariant Rebinding(old(D()), D(), old(binds), binds, paths, i, publishes, unmounted, tracked, failed, inputs, floor, held)
        invariant held.Some? ==> staging == old(staging)
      {
        var p := paths[i];
        ghost var digest, before := D(), binds;
        var ok := RebindOne(p, publishes[p], unmounted[p], inputs(p), floor, held);
        RebindingStep(old(D()), digest, D(), old(binds), before, binds, paths, i, publishes, unmounted, tracked, failed, ok,
                      inputs, floor, held);
        tracked := tracked[p := publishes[p]];
        failed := Noting(failed, p, ok);
      }
      RebindingEnds(old(D()), D(), old(binds), binds, paths, publishes, unmounted, tracked, failed, inputs, floor, held);
    }

    /** Steps 4 and 5 of a recovery: every bind of the old mount is replaced, or reported failed. */
    method ReplaceBinds(paths: seq<string>, publishes: map<string, bool>, input: UpInput, ghost floor: nat, ghost held: Option<nat>)
      returns (tracked: map<string, bool>, failed: set<string>)
      requires Valid() && IsOrder(paths, publishes) && Tracked(publishes, D().outstanding)
      requires D().restaged && D().failed == {} && Fresh(D(), staging) && AtLeast(staging, floor) && floor <= D().next
      requires held.Some? ==> held.value == SourceEpoch(staging) && forall p :: input.binds(p).before == []
      modifies this`staging, this`binds, this`log
      ensures Valid() && SameExcept(old(binds), binds, publishes.Keys)
      ensures Keeps(old(D()), D()) && tracked == publishes && failed == D().failed <= publishes.Keys
      ensures forall p | p in publishes.Keys :: Replaced(old(binds), binds, p, p in failed, input, floor, held)
      ensures held.Some? ==> staging == old(staging)
    {
      var unmounted := UnbindAll(paths, publishes, input.tears);
      ghost var middle := binds;
      assert forall j | 0 <= j < |paths| :: TornPath(old(binds), middle, paths[j], unmounted, input.tears(paths[j]));
      tracked, failed := RebindAll(paths, publishes, unmounted, input.binds, floor, held);
      SameExceptTransitive(old(binds), middle, binds, publishes.Keys, publishes.Keys);
      TornAndRebound(old(binds), middle, binds, paths, publishes, unmounted, failed, input, floor, held);
    }

    /** Steps 1 and 2 of a recovery: stop, confirm again, guard, detach and clean the staging path. */
    method TearDownStaging(bound: nat, hasUnmounter: bool, d: DownInput) returns (aborted: Option<Exit>)
      requires Valid() && IsConfirmation(D().last, bound) && (bound == 0 ==> New(D(), staging))
      modifies this`staging, this`log
      ensures Valid() && Extends(old(D()), D(), {})
      ensures aborted.Some? ==>
                && aborted.value in {ManagerUnmountFailed, NotConfirmedAfterUnmount, StillMounted, DetachFailed,
                                     MountedAfterDetach, CleanupFailed}
                && Explains(D().last, aborted.value, bound)
      ensures aborted.None? ==>
                && D().last.Some? && D().last.value.Cleaned? && (hasUnmounter ==> D().stopped)
                && Fresh(D(), staging) && AtLeast(staging, old(D()).next)
      ensures aborted == DownAborts(d, old(staging), old(D()).next, bound, hasUnmounter)
      ensures aborted.None? ==> (staging, D().next) == TakenDown(d, old(staging), old(D()).next, hasUnmounter)
    {
      if hasUnmounter {
        var stopped := AskManagerToUnmount(bound, d.stop);
        if !stopped {
          return Some(ManagerUnmountFailed);
        }
      }
      var confirmed := Recheck(bound, d.recheck);
      if !confirmed {
        return Some(NotConfirmedAfterUnmount);
      }
      var guarded := GuardMounted(bound, d.guard);
      if !guarded {
        return Some(StillMounted);
      }
      var detached := DetachStaging(bound, d.detach);
      if !detached {
        return Some(DetachFailed);
      }
      var mounted := ReportsMounted(d.report);
      if mounted {
        return Some(MountedAfterDetach);
      }
      var cleaned := CleanupStaging(bound, d.cleanup);
      if !cleaned {
        return Some(CleanupFailed);
      }
      return None;
    }

    /** A hung volume without an unmounter first needs one from the mount service. */
    method StopAndTearDown(bound: nat, hasUnmounter: bool, reachable: bool, d: DownInput) returns (aborted: Option<Exit>)
      requires Valid() && IsConfirmation(D().last, bound) && (bound == 0 ==> New(D(), staging))
      modifies this`staging, this`log
      ensures Valid() && Extends(old(D()), D(), {})
      ensures aborted.Some? ==>
                && aborted.value in {NoMountService, ManagerUnmountFailed, NotConfirmedAfterUnmount, StillMounted, DetachFailed,
                                     MountedAfterDetach, CleanupFailed}
                && Explains(D().last, aborted.value, bound)
      ensures aborted.Some? && aborted.value.NoMountService? <==> bound > 0 && !hasUnmounter && !reachable
      ensures aborted.None? ==>
                && D().last.Some? && D().last.value.Cleaned? && (bound > 0 || hasUnmounter ==> D().stopped)
                && Fresh(D(), staging) && AtLeast(staging, old(D()).next)
      ensures (bound > 0 && !hasUnmounter ==> reachable) ==>
                aborted == DownAborts(d, old(staging), old(D()).next, bound, bound > 0 || hasUnmounter)
      ensures aborted.None? ==> (staging, D().next) == TakenDown(d, old(staging), old(D()).next, bound > 0 || hasUnmounter)
    {
      var canStop := hasUnmounter;
      if !canStop && bound > 0 {
        canStop := ReachMountService(reachable);
        if !canStop {
          return Some(NoMountService);
        }
      }
      aborted := TearDownStaging(bound, canStop, d);
    }

    /** The first recheck, after which nothing has failed yet. */
    method BeginRecovery(bound: nat, c: CheckInput) returns (confirmed: bool)
      requires Valid()
      modifies this`staging, this`log
      ensures Valid() && D().outstanding == old(D()).outstanding && D().failed == {} && old(D()).next <= D().next
      ensures D().last.Some? && D().last.value.Rechecked?
      ensures confirmed <==> IsConfirmation(D().last, bound)
      ensures confirmed <==> Confirmed(c, staging, bound)
      ensures confirmed && bound == 0 ==> New(D(), staging)
      ensures (staging, D().next) == Changed(old(staging), old(D()).next, c.before)
    {
      Note(Begun(Recovery));
      confirmed := Recheck(bound, c);
    }

    /** Steps 3 to 5 of a recovery: stage again, replace the binds, track the new volume. */
    method RestageAndReplace(paths: seq<string>, input: UpInput, ghost floor: nat) returns (exit: Exit)
      requires Valid() && volume.Some? && volume.value.hasContext && IsOrder(paths, volume.value.publishes)
      requires D().failed == {} && D().last.Some? && D().last.value.Cleaned?
      requires Fresh(D(), staging) && AtLeast(staging, floor) && floor <= D().next
      modifies this
      ensures Valid() && Keeps(old(D()), D()) && exit == (if input.stage.ok then Recovered(D().failed) else RestageFailed)
      ensures exit.RestageFailed? ==> volume == old(volume) && binds == old(binds) && D().last == Some(Failed(Stage))
      ensures exit.Recovered? ==>
                && D().restaged && volume == Some(old(volume).value.(hasUnmounter := true))
                && exit.failed <= volume.value.publishes.Keys
                && SameExcept(old(binds), binds, volume.value.publishes.Keys)
      ensures exit.Recovered? ==>
                forall p | p in volume.value.publishes.Keys ::
                  Replaced(old(binds), binds, p, p in exit.failed, input, floor,
                           if CalmUp(input) then Some(SourceEpoch(staging)) else None)
      ensures CalmUp(input) ==> staging == Staged(input.stage, old(staging), old(D()).next)
    {
      var vol := volume.value;
      var staged := StageNewVolume(Recovery, input.stage);
      if !staged {
        return RestageFailed;
      }
      ghost var held := if CalmUp(input) then Some(SourceEpoch(staging)) else None;
      var tracked, failed := ReplaceBinds(paths, vol.publishes, input, floor, held);
      volume := Some(Volume(true, vol.readOnly, true, tracked));
      return Recovered(failed);
    }

    /**
     Recovers a staging mount that is dead, or hung beyond hungAfter.  Unless it completes, the
     tracked volume and every bind are as before, and the log ends with the reason; when it
     completes, the new volume tracks the same paths with the same flags, each bound to a mount newer
     than any the recovery found, or to the bare directory if nothing is mounted, or listed as failed,
     and exactly the paths whose teardown or bind failed are listed.  It gives up exactly for the
     reasons RecoveryAborts lists; with nothing happening on its own and every call working, it binds
     every path to the one mount it brought up.
     */
    method RecoverVolumeAs(hung: bool, hungAfter: nat, input: RecoverInput) returns (exit: Exit)
      requires Valid() && hungAfter > 0
      modifies this
      ensures Valid() && D().outstanding == old(D()).outstanding
      ensures !exit.Recovered? ==> volume == old(volume) && binds == old(binds)
      ensures !exit.Recovered? ==> Explains(D().last, exit, if hung then hungAfter else 0)
      ensures exit.NoVolume? <==> old(volume).None?
      ensures exit.NoContext? ==> !old(volume).value.hasContext
      ensures exit.NoMountService? ==> hung && !old(volume).value.hasUnmounter
      ensures exit.Recovered? ==>
                && old(volume).Some? && old(volume).value.hasContext
                && volume == Some(old(volume).value.(hasUnmounter := true))
                && exit.failed == D().failed <= volume.value.publishes.Keys
                && SameExcept(old(binds), binds, volume.value.publishes.Keys)
      ensures exit.Recovered? ==>
                forall p | p in volume.value.publishes.Keys ::
                  Replaced(old(binds), binds, p, p in exit.failed, input.up, old(D()).next,
                           if CalmUp(input.up) then Some(SourceEpoch(staging)) else None)
      ensures exit.Recovered? ==> D().restaged && (hung || old(volume).value.hasUnmounter ==> D().stopped)
      ensures old(volume).Some? ==>
                var aborted := RecoveryAborts(input, old(volume).value, old(staging), old(D()).next, if hung then hungAfter else 0);
                if aborted.Some? then exit == aborted.value else exit.Recovered?
      ensures exit.Recovered? && CalmUp(input.up) ==>
                var (cleared, next) := ReadyToStage(input, old(volume).value, old(staging), old(D()).next, if hung then hungAfter else 0);
                staging == Staged(input.up.stage, cleared, next)
      ensures Calm(input) && AllWorks(input, old(staging), if hung then hungAfter else 0) && old(volume).Some? && old(volume).value.hasContext ==>
                && exit == Recovered({}) && staging == Serving(old(D()).next)
                && forall p | p in volume.value.publishes.Keys :: StackAt(binds, p) == [old(D()).next]
    {
      var bound := if hung then hungAfter else 0;
      if volume.None? {
        return NoVolume;
      }
      var vol := volume.value;
      ghost var floor := D().next;
      ghost var found := staging;
      var confirmed := BeginRecovery(bound, input.recheck);
      if !confirmed {
        return NotConfirmed;
      }
      if !vol.hasContext {
        return NoContext;
      }
      var paths := Collect(vol.publishes);
      var aborted := StopAndTearDown(bound, vol.hasUnmounter, input.reachable, input.down);
      if aborted.Some? {
        return aborted.value;
      }
      exit := RestageAndReplace(paths, input.up, floor);
      if Calm(input) && AllWorks(input, found, bound) {
        WorkingRecoverySucceeds(input, vol, found, floor, bound);
        CalmRecovery(input, vol, found, floor, bound);
      }
    }
  }

  // ----- what given inputs lead to -----

  const NOTHING_THERE := CheckInput([], Dead, 0)

  /** A first stage that works: nothing is mounted, the path is cleared, a mount comes up. */
  const WORKING := TrackInput(NOTHING_THERE, ClearInput([], false, true, [], true), StageInput([], true, true, [], true))

  /** The same when the path check is slow. */
  const SLOW := WORKING.(check := CheckInput([], Slow, 0))

  const BINDING := BindInput([], true, false, true, true)

  /** A bind that answers dead, is torn down and made anew. */
  const REBINDING := RetryInput(Dead, TearInput(true, true, true), BINDING)

  method StagedNode() returns (ns: NodeServer)
    ensures fresh(ns) && ns.Valid() && ns.volume.Some? && ns.volume.value.publishes == map[]
    ensures ns.staging.Serving? && ns.binds == map[] && ns.D().outstanding == map[]
  {
    ns := new NodeServer();
    var _ := ns.NodeStageVolume(true, false, WORKING);
  }

  /** A volume is staged and serves, the node plugin restarts, and a stage that finds the mount slow takes it. */
  method SlowMountIsTaken() returns (ns: NodeServer, mount: Mount)
    ensures fresh(ns) && mount.Serving? && Records(ns.log, KubeletUnmounted(mount)) && ns.staging != mount
  {
    ns := StagedNode();
    mount := ns.staging;
    ns.Restart();
    TrackTakesServingMountIffSlow(SLOW, mount, ns.D().next);
    var _ := ns.NodeStageVolume(true, false, SLOW);
  }

  /** A path is published read-only, the node plugin restarts and restores it, and a retry binds it writable. */
  method RestartLosesReadOnly(p: string) returns (ns: NodeServer, published: bool)
    ensures fresh(ns) && published && RetryBound(ns.log, p, false)
  {
    ns := StagedNode();
    published := ns.NodePublishVolume(p, true, true, WORKING.(check := CheckInput([], Healthy, 0)), BINDING);
    ns.Restart();
    ns.RestoreFromDisk({p});
    ns.RetryPublishPaths(CheckInput([], Healthy, 0), q => REBINDING);
  }

  /** A publish is withdrawn, its cleanup fails, the node plugin restarts, and a retry binds the path again. */
  method RestartUndoesUnpublish(p: string) returns (ns: NodeServer, unpublished: bool)
    ensures fresh(ns) && !unpublished && RetryBound(ns.log, p, false)
  {
    ns := StagedNode();
    var _ := ns.NodePublishVolume(p, false, true, WORKING.(check := CheckInput([], Healthy, 0)), BINDING);
    unpublished := ns.NodeUnpublishVolume(p, false, false, false);
    ns.Restart();
    ns.RestoreFromDisk({p});
    ns.RetryPublishPaths(CheckInput([], Healthy, 0), q => REBINDING);
  }
}
