/**
 The health monitor of one volume over time: sweeps that launch at most one check goroutine, a
 check that waits for a shared health probe, and the hung rule that reads how long the health
 probe and the statfs probe of the staging path have gone unanswered.  Both registries run the
 single-flight protocol; any other caller may probe, detach or reset the path at any time.
 Goroutine scheduling delay is left out: a check decides in the instant its wait ends.
 */
module HealthMonitor {
  import opened Common
  import opened Health
  import Registry = ProbeRegistry

  datatype Config = Config(timeout: nat, hungAfter: nat)

  /** The counters of one Volume object and every check they have counted. */
  datatype Volume = Volume(counters: Counters, checks: seq<Check>)

  /** A check goroutine: launched, waiting as a caller of the health registry, decided, over. */
  datatype Goroutine =
    | Launched
    | Waits(volume: nat, caller: nat)
    | Decides(volume: nat, decision: Decision)
    | Ended(decision: Decision)

  /** `active` is the volume's entry in activeRecoveries; the last of `volumes` is the current one. */
  datatype State = State(
    config: Config,
    statfs: Registry.State,
    health: Registry.State,
    active: bool,
    checks: seq<Goroutine>,
    volumes: seq<Volume>)

  datatype Action =
    | Tick
    | StatfsStep(step: Registry.Action)
    | HealthStep(step: Registry.Action)
    | Launch
    | Start(check: nat)
    | Decide(check: nat)
    | End(check: nat)
    | ReplaceVolume

  function InitialState(config: Config, now: nat): State {
    State(config, Registry.InitialState(now, 0), Registry.InitialState(now, 0), false, [], [Volume(FRESH, [])])
  }

  predicate Enabled(s: State, a: Action) {
    match a
    case StatfsStep(step) => !step.Tick? && Registry.Enabled(s.statfs, step)
    case HealthStep(step) =>
      && !step.Tick? && Registry.Enabled(s.health, step)
      && (step.Select? ==> forall g | 0 <= g < |s.checks| && s.checks[g].Waits? :: s.checks[g].caller != step.caller)
    case Start(g) => g < |s.checks| && s.checks[g].Launched? && s.volumes != []
    case Decide(g) =>
      && g < |s.checks| && s.checks[g].Waits?
      && s.checks[g].volume < |s.volumes|
      && Registry.Enabled(s.health, Registry.Select(s.checks[g].caller))
    case End(g) => g < |s.checks| && (s.checks[g].Launched? || s.checks[g].Decides?)
    case _ => true
  }

  /** The result of checkHealthUnanswered when the wait of a check ends. */
  function Outcome(s: State, g: nat): Check
    requires Enabled(s, Decide(g))
  {
    var probe := s.health.probes[s.health.callers[s.checks[g].caller].probe];
    var statfs := Registry.Unanswered(s.statfs);
    if Registry.IsClosed(probe) then
      if probe.answer.Slow? then Check(Slow, statfs) else Check(probe.answer, 0)
    else
      var own := if probe.start <= s.health.now then s.health.now - probe.start else 0;
      Check(Slow, if own >= statfs then own else statfs)
  }

  function Counting(v: Volume, c: Check, hungAfter: nat): Volume {
    Volume(Counted(v.counters, c.verdict, c.unanswered, hungAfter), v.checks + [c])
  }

  function Apply(s: State, a: Action): State
    requires Enabled(s, a)
  {
    match a
    case Tick =>
      s.(statfs := Registry.Apply(s.statfs, Registry.Tick), health := Registry.Apply(s.health, Registry.Tick))
    case StatfsStep(step) => s.(statfs := Registry.Apply(s.statfs, step))
    case HealthStep(step) => s.(health := Registry.Apply(s.health, step))
    case Launch => if s.active then s else s.(active := true, checks := s.checks + [Launched])
    case Start(g) =>
      s.(health := Registry.Apply(s.health, Registry.Call(s.config.timeout)),
      checks := s.checks[g := Waits(|s.volumes| - 1, |s.health.callers|)])
    case Decide(g) =>
      var v, c := s.checks[g].volume, Outcome(s, g);
      var d := Health.Decided(s.volumes[v].counters, c.verdict, c.unanswered, s.config.hungAfter);
      s.(health := Registry.Apply(s.health, Registry.Select(s.checks[g].caller)),
      volumes := s.volumes[v := Counting(s.volumes[v], c, s.config.hungAfter)],
      checks := s.checks[g := Decides(v, d)])
    case End(g) =>
      var d := if s.checks[g].Decides? then s.checks[g].decision else NoRecovery;
      s.(active := false, checks := s.checks[g := Ended(d)])
    case ReplaceVolume => s.(volumes := s.volumes + [Volume(FRESH, [])])
  }

  predicate Executable(s: State, run: seq<Action>)
    decreases |run|
  {
    run == [] || (Enabled(s, run[0]) && Executable(Apply(s, run[0]), run[1..]))
  }

  function Exec(s: State, run: seq<Action>): State
    requires Executable(s, run)
    decreases |run|
  {
    if run == [] then s else Exec(Apply(s, run[0]), run[1..])
  }

  // ----- the invariant -----

  predicate VolumesInv(s: State) {
    && s.volumes != []
    && forall v | 0 <= v < |s.volumes| :: s.volumes[v].counters == After(s.volumes[v].checks, s.config.hungAfter)
  }

  /** The check waits for its health probe, and not longer than its timeout from now on. */
  predicate WaitInv(s: State, volume: nat, caller: nat) {
    && volume < |s.volumes| && caller < |s.health.callers|
    && s.health.callers[caller].Waiting? && s.health.callers[caller].deadline <= s.health.now + s.config.timeout
  }

  /** The goroutine that has not ended is the one `active` stands for. */
  predicate ActiveInv(s: State) {
    && (forall g | 0 <= g < |s.checks| && !s.checks[g].Ended? :: s.active && g == |s.checks| - 1)
    && (s.active ==> s.checks != [] && !s.checks[|s.checks| - 1].Ended?)
    && (forall g | 0 <= g < |s.checks| && s.checks[g].Waits? :: WaitInv(s, s.checks[g].volume, s.checks[g].caller))
  }

  predicate Inv(s: State) {
    && Registry.Inv(s.statfs) && Registry.Inv(s.health) && s.statfs.now == s.health.now
    && VolumesInv(s) && ActiveInv(s)
  }

  lemma RegistryStepPreservesInv(s: State, a: Action)
    requires Inv(s) && Enabled(s, a) && (a.Tick? || a.StatfsStep? || a.HealthStep?)
    ensures Inv(Apply(s, a))
  {
    if a.StatfsStep? {
      Registry.StepPreservesInv(s.statfs, a.step);
    } else if a.HealthStep? {
      Registry.StepPreservesInv(s.health, a.step);
    } else {
      Registry.StepPreservesInv(s.statfs, Registry.Tick);
      Registry.StepPreservesInv(s.health, Registry.Tick);
    }
  }

  lemma DecidePreservesInv(s: State, g: nat)
    requires Inv(s) && Enabled(s, Decide(g))
    ensures Inv(Apply(s, Decide(g)))
  {
    Registry.StepPreservesInv(s.health, Registry.Select(s.checks[g].caller));
    var v := s.volumes[s.checks[g].volume];
    var v' := Counting(v, Outcome(s, g), s.config.hungAfter);
    assert v'.checks[..|v'.checks| - 1] == v.checks;
  }

  lemma StartPreservesInv(s: State, g: nat)
    requires Inv(s) && Enabled(s, Start(g))
    ensures Inv(Apply(s, Start(g)))
  {
    Registry.StepPreservesInv(s.health, Registry.Call(s.config.timeout));
    var s' := Apply(s, Start(g));
    assert s'.volumes == s.volumes && |s'.health.callers| == |s.health.callers| + 1;
    assert forall h | 0 <= h < |s.checks| && h != g :: s'.checks[h] == s.checks[h];
  }

  /** The registries are left alone. */
  lemma OwnStepPreservesInv(s: State, a: Action)
    requires Inv(s) && Enabled(s, a) && (a.Launch? || a.End? || a.ReplaceVolume?)
    ensures Inv(Apply(s, a))
  {
    var s' := Apply(s, a);
    assert s'.statfs == s.statfs && s'.health == s.health;
    assert VolumesInv(s') && ActiveInv(s');
  }

  lemma StepPreservesInv(s: State, a: Action)
    requires Inv(s) && Enabled(s, a)
    ensures Inv(Apply(s, a))
  {
    if a.Tick? || a.StatfsStep? || a.HealthStep? {
      RegistryStepPreservesInv(s, a);
    } else if a.Decide? {
      DecidePreservesInv(s, a.check);
    } else if a.Start? {
      StartPreservesInv(s, a.check);
    } else {
      OwnStepPreservesInv(s, a);
    }
  }

  lemma {:induction false} ExecPreservesInv(s: State, run: seq<Action>)
    requires Inv(s) && Executable(s, run)
    ensures Inv(Exec(s, run))
    decreases |run|
  {
    if run != [] {
      StepPreservesInv(s, run[0]);
      ExecPreservesInv(Apply(s, run[0]), run[1..]);
    }
  }

  ghost predicate Reachable(s: State) {
    exists config: Config, now: nat, run: seq<Action> ::
      Executable(InitialState(config, now), run) && Exec(InitialState(config, now), run) == s
  }

  lemma ReachableInv(s: State)
    requires Reachable(s)
    ensures Inv(s)
  {
    var config: Config, now: nat, run: seq<Action> :|
      Executable(InitialState(config, now), run) && Exec(InitialState(config, now), run) == s;
    ExecPreservesInv(InitialState(config, now), run);
  }

  // ----- what holds in every run -----

  lemma AtMostOneCheckInFlight(s: State, g: nat, h: nat)
    requires Reachable(s) && g < |s.checks| && h < |s.checks| && !s.checks[g].Ended? && !s.checks[h].Ended?
    ensures g == h
  {
    ReachableInv(s);
  }

  /** A sweep starts a check exactly when none is in flight. */
  lemma SweepStartsCheckUnlessInFlight(s: State)
    requires Reachable(s)
    ensures Apply(s, Launch) == if forall g | 0 <= g < |s.checks| :: s.checks[g].Ended? then s.(active := true, checks := s.checks + [Launched]) else s
  {
    ReachableInv(s);
    assert s.active ==> !s.checks[|s.checks| - 1].Ended?;
  }

  /** No probe holds a check up: it can decide once its timeout has passed, and that is never further off than the timeout. */
  lemma CheckDecidesByItsDeadline(s: State, g: nat)
    requires Reachable(s) && g < |s.checks| && s.checks[g].Waits?
    ensures var c := s.checks[g].caller;
            && c < |s.health.callers| && s.health.callers[c].Waiting?
            && s.health.callers[c].deadline <= s.health.now + s.config.timeout
            && (s.health.now >= s.health.callers[c].deadline ==> Enabled(s, Decide(g)))
  {
    ReachableInv(s);
    assert WaitInv(s, s.checks[g].volume, s.checks[g].caller);
  }

  /** Some single probe of a registry is unanswered and has been for longer than the bound. */
  predicate UnansweredLongerThan(r: Registry.State, bound: nat) {
    exists p | 0 <= p < |r.probes| :: !Registry.IsClosed(r.probes[p]) && r.probes[p].start + bound < r.now
  }

  lemma OutcomeNeedsProbe(s: State, g: nat, bound: nat)
    requires Inv(s) && Enabled(s, Decide(g)) && Outcome(s, g).unanswered > bound
    ensures UnansweredLongerThan(s.health, bound) || UnansweredLongerThan(s.statfs, bound)
  {
    var p := s.health.callers[s.checks[g].caller].probe;
    var probe := s.health.probes[p];
    if !Registry.IsClosed(probe) && Outcome(s, g).unanswered == s.health.now - probe.start {
      assert probe.start + bound < s.health.now;
    } else {
      assert Registry.Unanswered(s.statfs) > bound;
      var q := s.statfs.registered.value;
      assert !Registry.IsClosed(s.statfs.probes[q]) && s.statfs.probes[q].start + bound < s.statfs.now;
    }
  }

  /**
   Treating a mount as hung takes one single probe, of health or of statfs, left unanswered
   longer than the bound, and at least three unhealthy checks of the Volume in a row.
   */
  lemma HungNeedsUnansweredProbe(s: State, g: nat)
    requires Reachable(s) && Enabled(s, Decide(g))
    requires Apply(s, Decide(g)).checks[g] == Decides(s.checks[g].volume, RecoverHung)
    ensures UnansweredLongerThan(s.health, s.config.hungAfter) || UnansweredLongerThan(s.statfs, s.config.hungAfter)
    ensures TrailingUnhealthy(Verdicts(Apply(s, Decide(g)).volumes[s.checks[g].volume].checks)) >= UNHEALTHY_THRESHOLD
  {
    ReachableInv(s);
    OutcomeNeedsProbe(s, g, s.config.hungAfter);
    RecoveryFiresExactly(s.volumes[s.checks[g].volume].checks, Outcome(s, g), s.config.hungAfter);
  }

  // ----- what a check counts, and what it decides -----

  /** The health probe a waiting check is attached to. */
  function ProbeOf(s: State, g: nat): Registry.Probe
    requires Enabled(s, Decide(g))
  {
    s.health.probes[s.health.callers[s.checks[g].caller].probe]
  }

  /** The probe has not answered and is older than the bound. */
  predicate OpenBeyond(p: Registry.Probe, now: nat, bound: nat) {
    !Registry.IsClosed(p) && p.start + bound < now
  }

  /** The registered statfs probe has not answered and is older than the bound. */
  predicate StatfsBeyond(s: State, bound: nat) {
    && s.statfs.registered.Some? && s.statfs.registered.value < |s.statfs.probes|
    && OpenBeyond(s.statfs.probes[s.statfs.registered.value], s.statfs.now, bound)
  }

  /** The probe has answered whether the mount is healthy or dead. */
  predicate Tells(p: Registry.Probe) {
    Registry.IsClosed(p) && !p.answer.Slow?
  }

  /**
   A check counts what its probe tells: an answer that is not slow is counted as that answer, and
   anything else as slow, unanswered for longer than a bound if and only if the health probe it
   waits for, or the registered statfs probe, has not answered and is older than that bound.  No
   other Volume's history changes.
   */
  lemma CheckCountsItsProbe(s: State, g: nat)
    requires Reachable(s) && Enabled(s, Decide(g))
    ensures var v, s' := s.checks[g].volume, Apply(s, Decide(g));
            && |s'.volumes| == |s.volumes|
            && (forall u | 0 <= u < |s.volumes| && u != v :: s'.volumes[u] == s.volumes[u])
            && |s'.volumes[v].checks| == |s.volumes[v].checks| + 1
            && s'.volumes[v].checks[..|s.volumes[v].checks|] == s.volumes[v].checks
            && var c := s'.volumes[v].checks[|s.volumes[v].checks|];
               if Tells(ProbeOf(s, g)) then c == Check(ProbeOf(s, g).answer, 0)
               else c.verdict.Slow? &&
                    forall bound: nat ::
                      c.unanswered > bound <==> OpenBeyond(ProbeOf(s, g), s.health.now, bound) || StatfsBeyond(s, bound)
  {
    ReachableInv(s);
    var checks := s.volumes[s.checks[g].volume].checks;
    assert (checks + [Outcome(s, g)])[..|checks|] == checks;
  }

  lemma CountsOneMore(checks: seq<Check>, c: Check)
    ensures TrailingUnhealthy(Verdicts(checks + [c])) == if c.verdict.Healthy? then 0 else 1 + TrailingUnhealthy(Verdicts(checks))
    ensures TrailingDead(Verdicts(checks + [c])) == if c.verdict.Dead? then 1 + TrailingDead(Verdicts(checks)) else 0
  {
    VerdictsPrefix(checks + [c]);
    assert (checks + [c])[..|checks|] == checks;
  }

  /**
   When a check treats the mount as hung: if and only if its probe has not told whether the mount
   is healthy or dead, the two checks of the Volume before it were not healthy either, and the
   health probe it waits for or the registered statfs probe has been unanswered longer than allowed.
   */
  lemma HungExactlyWhenUnanswered(s: State, g: nat)
    requires Reachable(s) && Enabled(s, Decide(g))
    ensures var v := s.checks[g].volume;
            Apply(s, Decide(g)).checks[g] == Decides(v, RecoverHung) <==>
              && !Tells(ProbeOf(s, g))
              && TrailingUnhealthy(Verdicts(s.volumes[v].checks)) >= 2
              && (OpenBeyond(ProbeOf(s, g), s.health.now, s.config.hungAfter) || StatfsBeyond(s, s.config.hungAfter))
  {
    ReachableInv(s);
    var checks, c := s.volumes[s.checks[g].volume].checks, Outcome(s, g);
    RecoveryFiresExactly(checks, c, s.config.hungAfter);
    CountsOneMore(checks, c);
    CheckCountsItsProbe(s, g);
  }

  /**
   When a check treats the mount as dead: if and only if its probe answered dead, and this is the
   third dead check in a row, or the sixth, and so on.
   */
  lemma DeadExactlyAtThirdAnswer(s: State, g: nat)
    requires Reachable(s) && Enabled(s, Decide(g))
    ensures var v := s.checks[g].volume;
            Apply(s, Decide(g)).checks[g] == Decides(v, RecoverDead) <==>
              && Tells(ProbeOf(s, g)) && ProbeOf(s, g).answer.Dead?
              && TrailingDead(Verdicts(s.volumes[v].checks)) % UNHEALTHY_THRESHOLD == 2
  {
    ReachableInv(s);
    var checks, c := s.volumes[s.checks[g].volume].checks, Outcome(s, g);
    RecoveryFiresExactly(checks, c, s.config.hungAfter);
    CountsOneMore(checks, c);
  }

  // ----- dead and hung mounts are recovered -----

  ghost predicate Leads(s: State, x: State) {
    exists run: seq<Action> :: Executable(s, run) && Exec(s, run) == x
  }

  lemma {:induction false} ExecAppend(s: State, run: seq<Action>, a: Action)
    requires Executable(s, run) && Enabled(Exec(s, run), a)
    ensures Executable(s, run + [a]) && Exec(s, run + [a]) == Apply(Exec(s, run), a)
    decreases |run|
  {
    if run == [] {
      assert [a][1..] == [];
    } else {
      ExecAppend(Apply(s, run[0]), run[1..], a);
      assert (run + [a])[1..] == run[1..] + [a];
    }
  }

  lemma LeadsStep(s: State, x: State, a: Action)
    requires Leads(s, x) && Enabled(x, a)
    ensures Leads(s, Apply(x, a))
  {
    var run: seq<Action> :| Executable(s, run) && Exec(s, run) == x;
    ExecAppend(s, run, a);
  }

  /** No check is in flight, and no health probe. */
  predicate Resting(s: State) {
    s.volumes != [] && !s.active && s.health.registered.None?
  }

  /** What a check counts whose probe answers in time: a slow answer with the age of the open statfs probe. */
  function CheckOf(s: State, v: Verdict): Check {
    Check(v, if v.Slow? then Registry.Unanswered(s.statfs) else 0)
  }

  /** What the next check decides if its probe answers in time. */
  function NextDecision(s: State, v: Verdict): Decision
    requires s.volumes != []
  {
    Health.Decided(s.volumes[|s.volumes| - 1].counters, v, CheckOf(s, v).unanswered, s.config.hungAfter)
  }

  /** A sweep starts a check and the check a probe, which answers in time. */
  lemma ProbeAnswers(o: State, s: State, v: Verdict) returns (x: State)
    requires Leads(o, s) && Resting(s)
    ensures var n := |s.health.probes|;
            && Leads(o, x) && x == s.(active := true, health := x.health, checks := x.checks)
            && x.health == s.health.(registered := Some(n), probes := x.health.probes, callers := x.health.callers)
            && x.health.probes == s.health.probes + [Registry.Probe(s.health.now, |s.health.resets|, Registry.Closed, s.health.epoch, v)]
            && x.health.callers == s.health.callers +
                                   [Registry.Waiting(n, s.health.now + s.config.timeout, Registry.Floor(s.health))]
            && x.checks == s.checks + [Waits(|s.volumes| - 1, |s.health.callers|)]
  {
    var g, n := |s.checks|, |s.health.probes|;
    LeadsStep(o, s, Launch);
    var launched := Apply(s, Launch);
    LeadsStep(o, launched, Start(g));
    var started := Apply(launched, Start(g));
    assert started.checks == s.checks + [Waits(|s.volumes| - 1, |s.health.callers|)];
    x := started;
    var steps := [ Registry.Begin(n), Registry.Return(n, v), Registry.Close(n) ];
    var phases := [ Registry.Spawned, Registry.Blocked, Registry.Returned, Registry.Closed ];
    for i := 0 to |steps|
      invariant Leads(o, x) && x == started.(health := started.health.(probes := x.health.probes))
      invariant x.health.probes ==
                s.health.probes + [Registry.Probe(s.health.now, |s.health.resets|, phases[i], if i < 1 then 0 else s.health.epoch,
                                                  if i < 2 then Slow else v)]
    {
      LeadsStep(o, x, HealthStep(steps[i]));
      x := Apply(x, HealthStep(steps[i]));
    }
  }

  /** A whole check, whatever its probe answers. */
  lemma CheckRuns(o: State, s: State, v: Verdict) returns (x: State)
    requires Leads(o, s) && Resting(s)
    ensures Leads(o, x) && Resting(x) && x == s.(health := x.health, checks := x.checks, volumes := x.volumes)
    ensures var u := |s.volumes| - 1; x.volumes == s.volumes[u := Counting(s.volumes[u], CheckOf(s, v), s.config.hungAfter)]
    ensures x.checks == s.checks + [Ended(NextDecision(s, v))]
    ensures x.health.callers == s.health.callers + [Registry.Answered(v, s.health.epoch, Registry.Floor(s.health))]
  {
    var g, n := |s.checks|, |s.health.probes|;
    x := ProbeAnswers(o, s, v);
    LeadsStep(o, x, Decide(g));
    assert Outcome(x, g) == CheckOf(s, v);
    x := Apply(x, Decide(g));
    assert x.checks == s.checks + [Decides(|s.volumes| - 1, NextDecision(s, v))];
    LeadsStep(o, x, End(g));
    x := Apply(x, End(g));
    LeadsStep(o, x, HealthStep(Registry.Unregister(n)));
    x := Apply(x, HealthStep(Registry.Unregister(n)));
  }

  /** A Volume that has just been staged or recovered starts with no checks. */
  lemma VolumeIsNew(s: State) returns (x: State)
    requires Resting(s)
    ensures Leads(s, x) && x == s.(volumes := s.volumes + [Volume(FRESH, [])])
  {
    assert Executable(s, []) && Exec(s, []) == s;
    LeadsStep(s, s, ReplaceVolume);
    x := Apply(s, ReplaceVolume);
  }

  /** Three checks with the same answer, of a new Volume. */
  lemma ThreeChecks(o: State, s: State, v: Verdict) returns (x: State)
    requires Leads(o, s) && Resting(s) && s.volumes[|s.volumes| - 1] == Volume(FRESH, [])
    requires v.Dead? || (v.Slow? && Registry.Unanswered(s.statfs) > s.config.hungAfter)
    ensures Leads(o, x)
    ensures x.checks == s.checks + [Ended(NoRecovery), Ended(NoRecovery), Ended(if v.Dead? then RecoverDead else RecoverHung)]
  {
    x := CheckRuns(o, s, v);
    x := CheckRuns(o, x, v);
    x := CheckRuns(o, x, v);
  }

  /** A mount whose probes answer dead is recovered as dead by the third check of its Volume. */
  lemma DeadMountIsRecovered(s: State) returns (x: State)
    requires Resting(s)
    ensures Leads(s, x) && x.checks == s.checks + [Ended(NoRecovery), Ended(NoRecovery), Ended(RecoverDead)]
  {
    x := VolumeIsNew(s);
    x := ThreeChecks(s, x, Dead);
  }

  lemma TimePasses(o: State, s: State, n: nat) returns (x: State)
    requires Leads(o, s)
    ensures Leads(o, x)
    ensures x == s.(statfs := s.statfs.(now := s.statfs.now + n), health := s.health.(now := s.health.now + n))
  {
    x := s;
    for i := 0 to n
      invariant Leads(o, x)
      invariant x == s.(statfs := s.statfs.(now := s.statfs.now + i), health := s.health.(now := s.health.now + i))
    {
      LeadsStep(o, x, Tick);
      x := Apply(x, Tick);
    }
  }

  /**
   A mount whose statfs probe never answers is recovered as hung: by the third check of its Volume,
   once that one probe is older than allowed, although every health probe answers in time.
   */
  lemma HungMountIsRecovered(s: State, wait: nat) returns (x: State)
    requires Resting(s) && s.statfs.registered.None?
    ensures Leads(s, x) && x.checks == s.checks + [Ended(NoRecovery), Ended(NoRecovery), Ended(RecoverHung)]
  {
    x := VolumeIsNew(s);
    LeadsStep(s, x, StatfsStep(Registry.Call(wait)));
    x := Apply(x, StatfsStep(Registry.Call(wait)));
    x := TimePasses(s, x, s.config.hungAfter + 1);
    assert Registry.Unanswered(x.statfs) == s.config.hungAfter + 1;
    x := ThreeChecks(s, x, Slow);
  }

  /** No probe is unanswered beyond the bound. */
  predicate Prompt(s: State) {
    !UnansweredLongerThan(s.health, s.config.hungAfter) && !UnansweredLongerThan(s.statfs, s.config.hungAfter)
  }

  /** Every probe of the run completes within the bound of its start. */
  predicate PromptRun(s: State, run: seq<Action>)
    requires Executable(s, run)
    decreases |run|
  {
    Prompt(s) && (run == [] || PromptRun(Apply(s, run[0]), run[1..]))
  }

  predicate NeverHung(s: State) {
    forall g | 0 <= g < |s.checks| :: (s.checks[g].Decides? || s.checks[g].Ended?) ==> !s.checks[g].decision.RecoverHung?
  }

  lemma PromptStepIsNotHung(s: State, a: Action)
    requires Inv(s) && Enabled(s, a) && Prompt(s) && NeverHung(s)
    ensures NeverHung(Apply(s, a))
  {
    if a.Decide? {
      if Outcome(s, a.check).unanswered > s.config.hungAfter {
        OutcomeNeedsProbe(s, a.check, s.config.hungAfter);
      }
    }
  }

  /**
   If every probe completes within the bound of its start, no check ever treats the mount as
   hung, over any number of sweeps, timeouts, resets and checks attaching to running probes.
   */
  lemma {:induction false} PromptProbesNeverHung(s: State, run: seq<Action>)
    requires Inv(s) && NeverHung(s) && Executable(s, run) && PromptRun(s, run)
    ensures NeverHung(Exec(s, run))
    decreases |run|
  {
    if run != [] {
      StepPreservesInv(s, run[0]);
      PromptStepIsNotHung(s, run[0]);
      PromptProbesNeverHung(Apply(s, run[0]), run[1..]);
    }
  }
}
