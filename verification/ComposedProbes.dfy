/**
 A health probe of a staging path and the statfs probe inside it.  Both are shared through
 registries of their own: the health probe that answers a caller may itself be answered by a
 statfs probe that an earlier caller started.  resetStatfsProbe deletes from the statfs registry
 first and from the health registry then, as two actions between which anything may happen.
 */
module ComposedProbes {
  import opened Common
  import opened Health
  import Registry = ProbeRegistry

  /**
   What a health probe does: nothing yet, it waits as a caller of the statfs registry, or it has
   concluded, from what it saw of a mount of some epoch or from a statfs wait that ran out.
   */
  datatype Inner = NotBegun | Attached(caller: nat) | Concluded(epoch: Option<nat>)

  /**
   `inner` belongs to the probes of the health registry; `asked` and `floors` to its callers: the
   probe each one waits for, and the newest mount that a reset finished before its call had seen.
   `pending` holds the epoch each reset under way has seen when it began, and `finished` the newest
   epoch seen by the resets that finished, after each of them.
   */
  datatype State = State(
    statfs: Registry.State,
    health: Registry.State,
    inner: seq<Inner>,
    asked: seq<nat>,
    floors: seq<nat>,
    pending: seq<nat>,
    finished: seq<nat>)

  datatype Action =
    | Tick
    | Detach
    | StatfsStep(step: Registry.Action)
    | HealthCall(wait: nat)
    | Look(probe: nat, answer: Verdict)
    | Attach(probe: nat, wait: nat)
    | Conclude(probe: nat)
    | Settle(step: Registry.Action)
    | ResetStatfs
    | ResetHealth(reset: nat)

  function InitialState(now: nat, epoch: nat): State {
    State(Registry.InitialState(now, epoch), Registry.InitialState(now, epoch), [], [], [], [], [])
  }

  function Max(a: nat, b: nat): nat {
    if a < b then b else a
  }

  /** The newest epoch seen by the first n finished resets. */
  function SeenBy(s: State, n: nat): nat
    requires n <= |s.finished|
  {
    if n == 0 then 0 else s.finished[n - 1]
  }

  predicate Enabled(s: State, a: Action) {
    match a
    case StatfsStep(step) =>
      && !step.Tick? && !step.Detach? && !step.Reset? && Registry.Enabled(s.statfs, step)
      && (step.Select? ==> forall h | 0 <= h < |s.inner| :: s.inner[h] != Attached(step.caller))
    case Look(h, v) => Registry.Enabled(s.health, Registry.Begin(h)) && h < |s.inner| && !v.Slow?
    case Attach(h, _) => Registry.Enabled(s.health, Registry.Begin(h)) && h < |s.inner|
    case Conclude(h) =>
      && h < |s.inner| && s.inner[h].Attached? && Registry.Enabled(s.statfs, Registry.Select(s.inner[h].caller))
      && Registry.Enabled(s.health, Registry.Return(h, Slow))
    case Settle(step) => (step.Close? || step.Unregister? || step.Select?) && Registry.Enabled(s.health, step)
    case ResetHealth(r) => r < |s.pending|
    case _ => true
  }

  function Apply(s: State, a: Action): State
    requires Enabled(s, a)
  {
    match a
    case Tick => s.(statfs := Registry.Apply(s.statfs, Registry.Tick), health := Registry.Apply(s.health, Registry.Tick))
    case Detach => s.(statfs := Registry.Apply(s.statfs, Registry.Detach), health := Registry.Apply(s.health, Registry.Detach))
    case StatfsStep(step) => s.(statfs := Registry.Apply(s.statfs, step))
    case HealthCall(wait) =>
      s.(health := Registry.Apply(s.health, Registry.Call(wait)),
      inner := if s.health.registered.Some? then s.inner else s.inner + [NotBegun],
      asked := s.asked + [if s.health.registered.Some? then s.health.registered.value else |s.health.probes|],
      floors := s.floors + [SeenBy(s, |s.finished|)])
    case Look(h, v) =>
      // The path's own checks answer before the statfs probe is asked.
      var begun := Registry.Apply(s.health, Registry.Begin(h));
      s.(health := Registry.Apply(begun, Registry.Return(h, v)), inner := s.inner[h := Concluded(Some(s.health.epoch))])
    case Attach(h, wait) =>
      s.(health := Registry.Apply(s.health, Registry.Begin(h)),
      statfs := Registry.Apply(s.statfs, Registry.Call(wait)),
      inner := s.inner[h := Attached(|s.statfs.callers|)])
    case Conclude(h) =>
      var c := s.inner[h].caller;
      var after := Registry.Apply(s.statfs, Registry.Select(c));
      if after.callers[c].Answered? then
        s.(statfs := after, health := Registry.Apply(s.health, Registry.Return(h, after.callers[c].answer)),
        inner := s.inner[h := Concluded(Some(after.callers[c].epoch))])
      else
        s.(statfs := after, health := Registry.Apply(s.health, Registry.Return(h, Slow)), inner := s.inner[h := Concluded(None)])
    case Settle(step) => s.(health := Registry.Apply(s.health, step))
    case ResetStatfs =>
      s.(statfs := Registry.Apply(s.statfs, Registry.Reset), pending := s.pending + [s.statfs.epoch])
    case ResetHealth(r) =>
      s.(health := Registry.Apply(s.health, Registry.Reset),
      finished := s.finished + [Max(SeenBy(s, |s.finished|), s.pending[r])],
      pending := s.pending[..r] + s.pending[r + 1..])
  }

  predicate Executable(s: State, run: seq<Action>)
    decreases |run|
  {
    run == [] || (Enabled(s, run[0]) && Executable(Apply(s, run[0]), run[1..]))
  }

  function Exec(s: State, run: seq<Action>): State
    requires Executable(s, run)
    decreases |run|
  {
    if run == [] then s else Exec(Apply(s, run[0]), run[1..])
  }

  ghost predicate Reachable(s: State) {
    exists now: nat, epoch: nat, run: seq<Action> ::
      Executable(InitialState(now, epoch), run) && Exec(InitialState(now, epoch), run) == s
  }

  // ----- the invariant -----

  predicate Shaped(s: State) {
    && |s.inner| == |s.health.probes| && |s.asked| == |s.floors| == |s.health.callers|
    && |s.finished| == |s.health.resets|
    && forall h | 0 <= h < |s.health.probes| :: s.health.probes[h].born <= |s.finished|
  }

  predicate RegistriesInv(s: State) {
    Registry.Inv(s.statfs) && Registry.Inv(s.health) && s.statfs.epoch == s.health.epoch
  }

  /** Every reset under way or finished has already reset the statfs registry, at its epoch or later. */
  predicate ResetsInv(s: State) {
    && (forall i | 0 <= i < |s.finished| :: s.finished[i] <= SeenBy(s, |s.finished|))
    && SeenBy(s, |s.finished|) <= Registry.Floor(s.statfs)
    && (forall r | 0 <= r < |s.pending| :: s.pending[r] <= Registry.Floor(s.statfs))
  }

  /** A health probe learns of no mount older than what the resets before its birth have seen. */
  predicate InnerInv(s: State)
    requires Shaped(s)
  {
    && (forall h | 0 <= h < |s.inner| :: Informed(s, h))
    && (forall g, h | 0 <= g < h < |s.inner| && s.inner[g].Attached? && s.inner[h].Attached? :: s.inner[g].caller != s.inner[h].caller)
  }

  predicate Informed(s: State, h: nat)
    requires Shaped(s) && h < |s.inner|
  {
    match s.inner[h]
    case NotBegun => s.health.probes[h].phase.Spawned?
    case Attached(c) =>
      && c < |s.statfs.callers| && s.statfs.callers[c].Waiting?
      && SeenBy(s, s.health.probes[h].born) <= s.statfs.callers[c].floor
    case Concluded(epoch) =>
      if epoch.Some? then SeenBy(s, s.health.probes[h].born) <= epoch.value else s.health.probes[h].answer.Slow?
  }

  /** A probe that has returned has concluded, and an answer is that of the probe asked. */
  predicate AnswersInv(s: State)
    requires Shaped(s)
  {
    && (forall h | 0 <= h < |s.inner| && !s.health.probes[h].phase.Spawned? && !s.health.probes[h].phase.Blocked? ::
          s.inner[h].Concluded?)
    && (forall c | 0 <= c < |s.asked| :: Asked(s, c))
  }

  predicate Asked(s: State, c: nat)
    requires Shaped(s) && c < |s.asked|
  {
    && s.asked[c] < |s.health.probes| && s.floors[c] <= SeenBy(s, s.health.probes[s.asked[c]].born)
    && (s.health.callers[c].Waiting? ==> s.health.callers[c].probe == s.asked[c])
    && (s.health.callers[c].Answered? ==>
          Registry.IsClosed(s.health.probes[s.asked[c]]) && s.health.callers[c].answer == s.health.probes[s.asked[c]].answer)
  }

  /** What the resets, the probes and the callers know, apart from the registries' own invariants. */
  predicate KnowledgeInv(s: State) {
    Shaped(s) && ResetsInv(s) && InnerInv(s) && AnswersInv(s)
  }

  predicate Inv(s: State) {
    RegistriesInv(s) && KnowledgeInv(s)
  }

  // ----- the registries keep their own invariants -----

  lemma HealthStepKeepsRegistries(s: State, a: Action)
    requires RegistriesInv(s) && Enabled(s, a) && (a.HealthCall? || a.Look? || a.Settle?)
    ensures RegistriesInv(Apply(s, a))
  {
    if a.HealthCall? {
      Registry.StepPreservesInv(s.health, Registry.Call(a.wait));
    } else if a.Settle? {
      Registry.StepPreservesInv(s.health, a.step);
    } else {
      Registry.StepPreservesInv(s.health, Registry.Begin(a.probe));
      Registry.StepPreservesInv(Registry.Apply(s.health, Registry.Begin(a.probe)), Registry.Return(a.probe, a.answer));
    }
  }

  lemma JointStepKeepsRegistries(s: State, a: Action)
    requires RegistriesInv(s) && Enabled(s, a) && (a.Attach? || a.Conclude?)
    ensures RegistriesInv(Apply(s, a))
  {
    if a.Attach? {
      Registry.StepPreservesInv(s.health, Registry.Begin(a.probe));
      Registry.StepPreservesInv(s.statfs, Registry.Call(a.wait));
    } else {
      Registry.StepPreservesInv(s.statfs, Registry.Select(s.inner[a.probe].caller));
      Registry.StepPreservesInv(s.health, Registry.Return(a.probe, Apply(s, a).health.probes[a.probe].answer));
    }
  }

  lemma StepKeepsRegistries(s: State, a: Action)
    requires RegistriesInv(s) && Enabled(s, a)
    ensures RegistriesInv(Apply(s, a))
  {
    if a.HealthCall? || a.Look? || a.Settle? {
      HealthStepKeepsRegistries(s, a);
    } else if a.Attach? || a.Conclude? {
      JointStepKeepsRegistries(s, a);
    } else if a.Tick? || a.Detach? {
      Registry.StepPreservesInv(s.statfs, if a.Tick? then Registry.Tick else Registry.Detach);
      Registry.StepPreservesInv(s.health, if a.Tick? then Registry.Tick else Registry.Detach);
    } else if a.StatfsStep? {
      Registry.StepPreservesInv(s.statfs, a.step);
    } else if a.ResetStatfs? {
      Registry.StepPreservesInv(s.statfs, Registry.Reset);
    } else {
      Registry.StepPreservesInv(s.health, Registry.Reset);
    }
  }

  // ----- what is known stays known -----

  /** The epoch at the last statfs reset is no newer than the mount. */
  lemma FloorIsOld(r: Registry.State)
    requires Registry.Inv(r)
    ensures Registry.Floor(r) <= r.epoch
  {
  }

  lemma StatfsStepKeepsKnowledge(s: State, step: Registry.Action)
    requires KnowledgeInv(s) && Enabled(s, StatfsStep(step))
    ensures KnowledgeInv(Apply(s, StatfsStep(step)))
  {
    var s' := Apply(s, StatfsStep(step));
    assert forall c | 0 <= c < |s.statfs.callers| && !(step.Select? && step.caller == c) :: s'.statfs.callers[c] == s.statfs.callers[c];
    assert forall h | 0 <= h < |s.inner| :: Informed(s, h) ==> Informed(s', h);
    assert forall c | 0 <= c < |s.asked| :: Asked(s, c) ==> Asked(s', c);
  }

  lemma HealthCallKeepsKnowledge(s: State, wait: nat)
    requires KnowledgeInv(s)
    requires s.health.registered.Some? ==>
               s.health.registered.value < |s.health.probes| && s.health.probes[s.health.registered.value].born == |s.finished|
    ensures KnowledgeInv(Apply(s, HealthCall(wait)))
  {
    var s' := Apply(s, HealthCall(wait));
    assert forall h | 0 <= h < |s.inner| :: s'.inner[h] == s.inner[h] && s'.health.probes[h] == s.health.probes[h];
    assert Shaped(s');
    assert forall h | 0 <= h < |s.inner| :: Informed(s, h) ==> Informed(s', h);
    assert forall c | 0 <= c < |s.asked| ::
        s'.asked[c] == s.asked[c] && s'.floors[c] == s.floors[c] && s'.health.callers[c] == s.health.callers[c];
    assert forall c | 0 <= c < |s.asked| :: Asked(s, c) ==> Asked(s', c);
  }

  /** One health probe moves on to p, having learned what x says. */
  function Moved(s: State, h: nat, p: Registry.Probe, x: Inner, statfs: Registry.State): State
    requires h < |s.inner| && h < |s.health.probes|
  {
    s.(statfs := statfs, health := s.health.(probes := s.health.probes[h := p]), inner := s.inner[h := x])
  }

  /** Whoever waits in the statfs registry still waits, but for the probe that moves. */
  predicate OthersWait(s: State, h: nat, statfs: Registry.State)
    requires h < |s.inner|
  {
    && |s.statfs.callers| <= |statfs.callers|
    && forall c | 0 <= c < |s.statfs.callers| && s.inner[h] != Attached(c) :: statfs.callers[c] == s.statfs.callers[c]
  }

  lemma ProbeKeepsKnowledge(s: State, h: nat, p: Registry.Probe, x: Inner, statfs: Registry.State)
    requires KnowledgeInv(s) && h < |s.inner| && !Registry.IsClosed(s.health.probes[h])
    requires p.born == s.health.probes[h].born && (p.phase.Blocked? || (p.phase.Returned? && x.Concluded?))
    requires OthersWait(s, h, statfs) && Registry.Floor(statfs) == Registry.Floor(s.statfs)
    requires Informed(Moved(s, h, p, x, statfs), h)
    requires x.Attached? ==> x.caller == |s.statfs.callers|
    ensures KnowledgeInv(Moved(s, h, p, x, statfs))
  {
    var s' := Moved(s, h, p, x, statfs);
    forall g | 0 <= g < |s.inner| && g != h
      ensures Informed(s', g)
    {
      assert Informed(s, g);
    }
    forall c | 0 <= c < |s.asked|
      ensures Asked(s', c)
    {
      assert Asked(s, c);
    }
    forall g | 0 <= g < |s.inner| && s.inner[g].Attached?
      ensures s.inner[g].caller < |s.statfs.callers|
    {
      assert Informed(s, g);
    }
  }

  lemma LookKeepsKnowledge(s: State, h: nat, v: Verdict)
    requires KnowledgeInv(s) && Enabled(s, Look(h, v)) && Registry.Floor(s.statfs) <= s.health.epoch
    ensures KnowledgeInv(Apply(s, Look(h, v)))
  {
    var s' := Apply(s, Look(h, v));
    assert s'.health.probes == s.health.probes[h := s'.health.probes[h]];
    assert s' == Moved(s, h, s'.health.probes[h], s'.inner[h], s'.statfs);
    ProbeKeepsKnowledge(s, h, s'.health.probes[h], s'.inner[h], s'.statfs);
  }

  lemma AttachKeepsKnowledge(s: State, h: nat, wait: nat)
    requires KnowledgeInv(s) && Enabled(s, Attach(h, wait))
    ensures KnowledgeInv(Apply(s, Attach(h, wait)))
  {
    var s' := Apply(s, Attach(h, wait));
    assert s' == Moved(s, h, s'.health.probes[h], s'.inner[h], s'.statfs);
    ResetsAreOrdered(s, s.health.probes[h].born);
    ProbeKeepsKnowledge(s, h, s'.health.probes[h], s'.inner[h], s'.statfs);
  }

  lemma ResetsAreOrdered(s: State, n: nat)
    requires ResetsInv(s) && n <= |s.finished|
    ensures SeenBy(s, n) <= Registry.Floor(s.statfs)
  {
  }

  lemma ConcludeKeepsKnowledge(s: State, h: nat)
    requires KnowledgeInv(s) && Enabled(s, Conclude(h))
    requires var c := Registry.Apply(s.statfs, Registry.Select(s.inner[h].caller)).callers[s.inner[h].caller];
             c.Answered? ==> c.floor <= c.epoch
    ensures KnowledgeInv(Apply(s, Conclude(h)))
  {
    assert Informed(s, h);
    var s' := Apply(s, Conclude(h));
    assert s' == Moved(s, h, s'.health.probes[h], s'.inner[h], s'.statfs);
    ProbeKeepsKnowledge(s, h, s'.health.probes[h], s'.inner[h], s'.statfs);
  }

  /** Time and the mount change no probe and no caller. */
  lemma TimeKeepsKnowledge(s: State, a: Action)
    requires KnowledgeInv(s) && (a.Tick? || a.Detach?)
    ensures KnowledgeInv(Apply(s, a))
  {
    var s' := Apply(s, a);
    assert forall h | 0 <= h < |s.inner| :: Informed(s, h) ==> Informed(s', h);
    assert forall c | 0 <= c < |s.asked| :: Asked(s, c) ==> Asked(s', c);
  }

  lemma SettleKeepsKnowledge(s: State, step: Registry.Action)
    requires KnowledgeInv(s) && Enabled(s, Settle(step))
    ensures KnowledgeInv(Apply(s, Settle(step)))
  {
    var s' := Apply(s, Settle(step));
    assert forall h | 0 <= h < |s.inner| ::
        && s'.health.probes[h].born == s.health.probes[h].born && s'.health.probes[h].answer == s.health.probes[h].answer
        && (s'.health.probes[h].phase == s.health.probes[h].phase || !s.health.probes[h].phase.Spawned?)
        && (Registry.IsClosed(s.health.probes[h]) ==> Registry.IsClosed(s'.health.probes[h]));
    assert forall h | 0 <= h < |s.inner| :: Informed(s, h) ==> Informed(s', h);
    assert forall c | 0 <= c < |s.asked| :: Asked(s, c) ==> Asked(s', c);
  }

  lemma ResetStatfsKeepsKnowledge(s: State)
    requires KnowledgeInv(s) && Registry.Floor(s.statfs) <= s.statfs.epoch
    ensures KnowledgeInv(Apply(s, ResetStatfs))
  {
    var s' := Apply(s, ResetStatfs);
    assert forall h | 0 <= h < |s.inner| :: Informed(s, h) ==> Informed(s', h);
    assert forall c | 0 <= c < |s.asked| :: Asked(s, c) ==> Asked(s', c);
  }

  lemma ResetHealthKeepsKnowledge(s: State, r: nat)
    requires KnowledgeInv(s) && Enabled(s, ResetHealth(r))
    ensures KnowledgeInv(Apply(s, ResetHealth(r)))
  {
    var s' := Apply(s, ResetHealth(r));
    assert forall n | 0 <= n <= |s.finished| :: SeenBy(s', n) == SeenBy(s, n);
    assert forall h | 0 <= h < |s.inner| :: Informed(s, h) ==> Informed(s', h);
    assert forall c | 0 <= c < |s.asked| :: Asked(s, c) ==> Asked(s', c);
  }

  lemma AnswerIsNotOlderThanFloor(r: Registry.State, c: nat)
    requires Registry.Inv(r) && c < |r.callers| && r.callers[c].Answered?
    ensures r.callers[c].floor <= r.callers[c].epoch
  {
  }

  lemma RegisteredIsCurrent(r: Registry.State)
    requires Registry.Inv(r) && r.registered.Some?
    ensures r.registered.value < |r.probes| && r.probes[r.registered.value].born == |r.resets|
  {
  }

  lemma StepPreservesInv(s: State, a: Action)
    requires Inv(s) && Enabled(s, a)
    ensures Inv(Apply(s, a))
  {
    StepKeepsRegistries(s, a);
    FloorIsOld(s.statfs);
    if a.Tick? || a.Detach? {
      TimeKeepsKnowledge(s, a);
    } else if a.StatfsStep? {
      StatfsStepKeepsKnowledge(s, a.step);
    } else if a.HealthCall? {
      if s.health.registered.Some? {
        RegisteredIsCurrent(s.health);
      }
      HealthCallKeepsKnowledge(s, a.wait);
    } else if a.Look? {
      LookKeepsKnowledge(s, a.probe, a.answer);
    } else if a.Attach? {
      AttachKeepsKnowledge(s, a.probe, a.wait);
    } else if a.Conclude? {
      if Apply(s, a).statfs.callers[s.inner[a.probe].caller].Answered? {
        AnswerIsNotOlderThanFloor(Apply(s, a).statfs, s.inner[a.probe].caller);
      }
      ConcludeKeepsKnowledge(s, a.probe);
    } else if a.Settle? {
      SettleKeepsKnowledge(s, a.step);
    } else if a.ResetStatfs? {
      ResetStatfsKeepsKnowledge(s);
    } else if a.ResetHealth? {
      ResetHealthKeepsKnowledge(s, a.reset);
    }
  }

  lemma {:induction false} ExecPreservesInv(s: State, run: seq<Action>)
    requires Inv(s) && Executable(s, run)
    ensures Inv(Exec(s, run))
    decreases |run|
  {
    if run != [] {
      StepPreservesInv(s, run[0]);
      ExecPreservesInv(Apply(s, run[0]), run[1..]);
    }
  }

  // ----- what holds in every interleaving -----

  /**
   A verdict other than slow, given to a call made after a reset had finished, describes no mount
   from before that reset began, whichever statfs probe it came from.
   */
  lemma VerdictsAreNoOlderThanReset(s: State, c: nat)
    requires Reachable(s) && c < |s.health.callers| && s.health.callers[c].Answered? && !s.health.callers[c].answer.Slow?
    ensures c < |s.asked| && c < |s.floors| && s.asked[c] < |s.inner|
    ensures s.inner[s.asked[c]].Concluded? && s.inner[s.asked[c]].epoch.Some?
    ensures s.floors[c] <= s.inner[s.asked[c]].epoch.value
  {
    var now: nat, epoch: nat, run: seq<Action> :|
      Executable(InitialState(now, epoch), run) && Exec(InitialState(now, epoch), run) == s;
    ExecPreservesInv(InitialState(now, epoch), run);
    assert Asked(s, c) && Informed(s, s.asked[c]);
  }

  // ----- where a verdict comes from -----

  /** What an action sees of a mount: a verdict, and the epoch of the mount it was reached by. */
  function SeenIn(s: State, a: Action): set<(Verdict, nat)>
    requires Enabled(s, a)
  {
    match a
    case Look(_, v) => {(v, s.health.epoch)}
    case StatfsStep(Return(p, v)) => {(v, s.statfs.probes[p].epoch)}
    case _ => {}
  }

  /** Everything seen in a run. */
  function Sightings(s: State, run: seq<Action>): set<(Verdict, nat)>
    requires Executable(s, run)
    decreases |run|
  {
    if run == [] then {} else SeenIn(s, run[0]) + Sightings(Apply(s, run[0]), run[1..])
  }

  /** Every statfs probe, statfs caller and health probe tells only what was seen. */
  predicate Sighted(s: State, seen: set<(Verdict, nat)>) {
    && |s.inner| == |s.health.probes|
    && (forall p | 0 <= p < |s.statfs.probes| && Registry.HasReturned(s.statfs.probes[p]) ::
          (s.statfs.probes[p].answer, s.statfs.probes[p].epoch) in seen)
    && (forall c | 0 <= c < |s.statfs.callers| && s.statfs.callers[c].Answered? ::
          (s.statfs.callers[c].answer, s.statfs.callers[c].epoch) in seen)
    && (forall h | 0 <= h < |s.inner| && s.inner[h].Concluded? && s.inner[h].epoch.Some? ::
          (s.health.probes[h].answer, s.inner[h].epoch.value) in seen)
  }

  lemma StatfsStepIsSighted(s: State, step: Registry.Action, seen: set<(Verdict, nat)>)
    requires Inv(s) && Enabled(s, StatfsStep(step)) && Sighted(s, seen)
    ensures Sighted(Apply(s, StatfsStep(step)), seen + SeenIn(s, StatfsStep(step)))
  {
  }

  lemma ProbeIsSighted(s: State, a: Action, seen: set<(Verdict, nat)>)
    requires Inv(s) && Enabled(s, a) && Sighted(s, seen) && (a.Look? || a.Attach?)
    ensures Sighted(Apply(s, a), seen + SeenIn(s, a))
  {
  }

  lemma ConclusionIsSighted(s: State, h: nat, seen: set<(Verdict, nat)>)
    requires Inv(s) && Enabled(s, Conclude(h)) && Sighted(s, seen)
    ensures Sighted(Apply(s, Conclude(h)), seen)
  {
    assert Informed(s, h);
  }

  lemma StepIsSighted(s: State, a: Action, seen: set<(Verdict, nat)>)
    requires Inv(s) && Enabled(s, a) && Sighted(s, seen)
    ensures Sighted(Apply(s, a), seen + SeenIn(s, a))
  {
    if a.StatfsStep? {
      StatfsStepIsSighted(s, a.step, seen);
    } else if a.Look? || a.Attach? {
      ProbeIsSighted(s, a, seen);
    } else if a.Conclude? {
      ConclusionIsSighted(s, a.probe, seen);
      assert seen + {} == seen;
    } else if a.HealthCall? {
      var s' := Apply(s, a);
      assert forall h | 0 <= h < |s.inner| :: s'.inner[h] == s.inner[h] && s'.health.probes[h] == s.health.probes[h];
    }
  }

  lemma {:induction false} RunIsSighted(s: State, run: seq<Action>, seen: set<(Verdict, nat)>)
    requires Inv(s) && Executable(s, run) && Sighted(s, seen)
    ensures Inv(Exec(s, run)) && Sighted(Exec(s, run), seen + Sightings(s, run))
    decreases |run|
  {
    if run == [] {
      assert seen + {} == seen;
    } else {
      StepPreservesInv(s, run[0]);
      StepIsSighted(s, run[0], seen);
      RunIsSighted(Apply(s, run[0]), run[1..], seen + SeenIn(s, run[0]));
      assert seen + SeenIn(s, run[0]) + Sightings(Apply(s, run[0]), run[1..]) == seen + Sightings(s, run);
    }
  }

  /**
   A verdict other than slow is one that was seen: over every run, the health probe or the statfs
   probe inside it has reached the mount of the very epoch the verdict is credited to, and was told
   this verdict there.
   */
  lemma VerdictsWereSeen(s0: State, run: seq<Action>, c: nat)
    requires s0 == InitialState(s0.statfs.now, s0.statfs.epoch) && Executable(s0, run)
    requires var s := Exec(s0, run);
             c < |s.health.callers| && s.health.callers[c].Answered? && !s.health.callers[c].answer.Slow?
    ensures var s := Exec(s0, run);
            && c < |s.asked| && s.asked[c] < |s.inner| && s.inner[s.asked[c]].Concluded? && s.inner[s.asked[c]].epoch.Some?
            && (s.health.callers[c].answer, s.inner[s.asked[c]].epoch.value) in Sightings(s0, run)
  {
    RunIsSighted(s0, run, {});
    var s := Exec(s0, run);
    assert Asked(s, c) && Informed(s, s.asked[c]);
  }

  // ----- what calls and resets achieve -----

  ghost predicate Leads(s: State, x: State) {
    exists run: seq<Action> :: Executable(s, run) && Exec(s, run) == x
  }

  lemma {:induction false} ExecAppend(s: State, run: seq<Action>, a: Action)
    requires Executable(s, run) && Enabled(Exec(s, run), a)
    ensures Executable(s, run + [a]) && Exec(s, run + [a]) == Apply(Exec(s, run), a)
    decreases |run|
  {
    if run == [] {
      assert [a][1..] == [];
    } else {
      ExecAppend(Apply(s, run[0]), run[1..], a);
      assert (run + [a])[1..] == run[1..] + [a];
    }
  }

  lemma LeadsStep(s: State, x: State, a: Action)
    requires Leads(s, x) && Enabled(x, a)
    ensures Leads(s, Apply(x, a))
  {
    var run: seq<Action> :| Executable(s, run) && Exec(s, run) == x;
    ExecAppend(s, run, a);
  }

  /** A health check begins: it starts a health probe, which asks the statfs registry. */
  lemma ProbeAsks(o: State, s: State, wait: nat, inner: nat) returns (x: State)
    requires Leads(o, s) && Shaped(s) && s.health.registered.None?
    ensures var h := |s.health.probes|;
            && Leads(o, x) && x.statfs == Registry.Apply(s.statfs, Registry.Call(inner))
            && x.pending == s.pending && x.floors == s.floors + [SeenBy(s, |s.finished|)] && x.health.registered == Some(h)
            && x.inner == s.inner + [Attached(|s.statfs.callers|)] && x.asked == s.asked + [h]
            && x.health.now == s.health.now && x.health.epoch == s.health.epoch
            && x.health.probes == s.health.probes + [Registry.Probe(s.health.now, |s.health.resets|, Registry.Blocked, s.health.epoch, Slow)]
            && x.health.callers == s.health.callers + [Registry.Waiting(h, s.health.now + wait, Registry.Floor(s.health))]
  {
    var h := |s.health.probes|;
    LeadsStep(o, s, HealthCall(wait));
    x := Apply(s, HealthCall(wait));
    LeadsStep(o, x, Attach(h, inner));
    x := Apply(x, Attach(h, inner));
  }

  /** A health probe that has concluded answers its caller. */
  lemma ProbeTells(o: State, s: State, h: nat, c: nat) returns (x: State)
    requires Leads(o, s) && h < |s.health.probes| && s.health.probes[h].phase.Returned?
    requires c < |s.health.callers| && s.health.callers[c].Waiting? && s.health.callers[c].probe == h
    requires s.health.registered == Some(h)
    ensures Leads(o, x) && x == s.(health := x.health) && x.health.registered.None? && c < |x.health.callers|
    ensures x.health.callers[c].Answered? && x.health.callers[c].answer == s.health.probes[h].answer
  {
    LeadsStep(o, s, Settle(Registry.Close(h)));
    x := Apply(s, Settle(Registry.Close(h)));
    LeadsStep(o, x, Settle(Registry.Select(c)));
    x := Apply(x, Settle(Registry.Select(c)));
    LeadsStep(o, x, Settle(Registry.Unregister(h)));
    x := Apply(x, Settle(Registry.Unregister(h)));
  }

  /** The statfs probe of a path answers while the health probe that asked for it waits. */
  lemma StatfsAnswers(o: State, s: State, h: nat, v: Verdict) returns (x: State)
    requires Leads(o, s) && h < |s.inner| && h < |s.health.probes| && s.health.probes[h].phase.Blocked?
    requires var p := |s.statfs.probes| - 1;
             && p >= 0 && s.statfs.probes[p].phase.Spawned? && s.inner[h].Attached? && s.inner[h].caller < |s.statfs.callers|
             && s.statfs.callers[s.inner[h].caller].Waiting? && s.statfs.callers[s.inner[h].caller].probe == p
    ensures Leads(o, x) && x == s.(statfs := x.statfs, health := s.health.(probes := x.health.probes), inner := x.inner)
    ensures |x.inner| == |s.inner| && |x.statfs.callers| == |s.statfs.callers| && x.statfs.callers[s.inner[h].caller].Answered?
    ensures x.inner[h] == Concluded(Some(s.statfs.epoch)) && |x.health.probes| == |s.health.probes|
    ensures x.health.probes[h].phase.Returned? && x.health.probes[h].answer == v
  {
    var p: nat := |s.statfs.probes| - 1;
    var steps := [ Registry.Begin(p), Registry.Return(p, v), Registry.Close(p) ];
    var phases := [ Registry.Spawned, Registry.Blocked, Registry.Returned, Registry.Closed ];
    x := s;
    for i := 0 to |steps|
      invariant Leads(o, x) && x == s.(statfs := s.statfs.(probes := x.statfs.probes)) && |x.statfs.probes| == p + 1
      invariant x.statfs.probes[p].phase == phases[i]
      invariant (i > 0 ==> x.statfs.probes[p].epoch == s.statfs.epoch) && (i > 1 ==> x.statfs.probes[p].answer == v)
    {
      LeadsStep(o, x, StatfsStep(steps[i]));
      x := Apply(x, StatfsStep(steps[i]));
    }
    LeadsStep(o, x, Conclude(h));
    x := Apply(x, Conclude(h));
  }

  /**
   However long probes of the old mount stay blocked in either registry: after it is detached and the
   path is reset, a call is given the verdict on the new mount.
   */
  lemma RemountIsSeen(s: State, wait: nat, inner: nat, v: Verdict) returns (x: State)
    requires Shaped(s)
    ensures var c := |s.health.callers|;
            && Leads(s, x) && c < |x.health.callers| && x.health.callers[c].Answered? && x.health.callers[c].answer == v
            && c < |x.asked| && x.asked[c] < |x.inner| && x.inner[x.asked[c]] == Concluded(Some(s.statfs.epoch + 1))
            && c < |x.floors| && x.floors[c] >= s.statfs.epoch + 1 && x.pending == s.pending
  {
    assert Executable(s, []) && Exec(s, []) == s;
    LeadsStep(s, s, Detach);
    x := Apply(s, Detach);
    LeadsStep(s, x, ResetStatfs);
    x := Apply(x, ResetStatfs);
    LeadsStep(s, x, ResetHealth(|s.pending|));
    x := Apply(x, ResetHealth(|s.pending|));
    x := ProbeAsks(s, x, wait, inner);
    x := StatfsAnswers(s, x, |s.health.probes|, v);
    x := ProbeTells(s, x, |s.health.probes|, |s.health.callers|);
  }

  /** What the path's own checks tell is told as it is. */
  lemma LookIsTold(s: State, wait: nat, v: Verdict) returns (x: State)
    requires Shaped(s) && s.health.registered.None? && !v.Slow?
    ensures var c := |s.health.callers|;
            && Leads(s, x) && c < |x.health.callers| && x.health.callers[c].Answered? && x.health.callers[c].answer == v
            && c < |x.asked| && x.asked[c] < |x.inner| && x.inner[x.asked[c]] == Concluded(Some(s.health.epoch))
  {
    var h := |s.health.probes|;
    assert Executable(s, []) && Exec(s, []) == s;
    LeadsStep(s, s, HealthCall(wait));
    x := Apply(s, HealthCall(wait));
    LeadsStep(s, x, Look(h, v));
    x := Apply(x, Look(h, v));
    x := ProbeTells(s, x, h, |s.health.callers|);
  }

  /** A health probe whose statfs wait runs out is answered slow, however long that statfs probe stays blocked. */
  lemma SilenceIsSlow(s: State, wait: nat, inner: nat, p: nat) returns (x: State)
    requires Shaped(s) && s.health.registered.None? && s.statfs.registered == Some(p)
    requires p < |s.statfs.probes| && !Registry.IsClosed(s.statfs.probes[p])
    ensures var c := |s.health.callers|;
            && Leads(s, x) && c < |x.health.callers| && x.health.callers[c].Answered? && x.health.callers[c].answer.Slow?
            && x.statfs.probes == s.statfs.probes && x.statfs.now == s.statfs.now + inner
            && x.statfs.callers == s.statfs.callers + [Registry.TimedOut]
            && c < |x.asked| && x.asked[c] < |x.inner| && x.inner[x.asked[c]] == Concluded(None)
  {
    var h := |s.health.probes|;
    assert Executable(s, []) && Exec(s, []) == s;
    x := ProbeAsks(s, s, wait, inner);
    var asked := x;
    for i := 0 to inner
      invariant Leads(s, x)
      invariant x == asked.(statfs := asked.statfs.(now := s.statfs.now + i), health := asked.health.(now := s.health.now + i))
    {
      LeadsStep(s, x, Tick);
      x := Apply(x, Tick);
    }
    LeadsStep(s, x, Conclude(h));
    x := Apply(x, Conclude(h));
    x := ProbeTells(s, x, h, |s.health.callers|);
  }
}
