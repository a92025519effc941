/**
 The single-flight registry of probes of one path: a blocked probe is shared by later callers,
 orphaned by a reset, and takes itself out of the registry by compare-and-delete.  statfs probes
 and health probes follow the same protocol.  `epoch` counts the mounts the path has had.
 */
module ProbeRegistry {
  import opened Common
  import opened Health

  /** Registered, inside the system call, returned, `done` closed, out of the registry. */
  datatype Phase = Spawned | Blocked | Returned | Closed | Gone

  /**
   One probe goroutine.  `born` is the number of resets before it was registered; `epoch` the
   mount its system call reached, known from Blocked on; `answer` its result, known from
   Returned on.
   */
  datatype Probe = Probe(start: nat, born: nat, phase: Phase, epoch: nat, answer: Verdict)

  /** A caller; `floor` is the epoch at the last reset before it called. */
  datatype Caller =
    | Waiting(probe: nat, deadline: nat, floor: nat)
    | Answered(answer: Verdict, epoch: nat, floor: nat)
    | TimedOut

  /** `resets` records the epoch at each reset. */
  datatype State = State(
    now: nat,
    epoch: nat,
    resets: seq<nat>,
    registered: Option<nat>,
    probes: seq<Probe>,
    callers: seq<Caller>)

  datatype Action =
    | Tick
    | Detach
    | Reset
    | Call(wait: nat)
    | Begin(probe: nat)
    | Return(probe: nat, answer: Verdict)
    | Close(probe: nat)
    | Unregister(probe: nat)
    | Select(caller: nat)

  function InitialState(now: nat, epoch: nat): State {
    State(now, epoch, [], None, [], [])
  }

  function Floor(s: State): nat {
    if s.resets == [] then 0 else s.resets[|s.resets| - 1]
  }

  /** The done channel is closed, so a caller's select takes the answer. */
  predicate IsClosed(p: Probe) {
    p.phase.Closed? || p.phase.Gone?
  }

  predicate InPhase(s: State, p: nat, phase: Phase) {
    p < |s.probes| && s.probes[p].phase == phase
  }

  predicate Enabled(s: State, a: Action) {
    match a
    case Begin(p) => InPhase(s, p, Spawned)
    case Return(p, _) => InPhase(s, p, Blocked)
    case Close(p) => InPhase(s, p, Returned)
    case Unregister(p) => InPhase(s, p, Closed)
    case Select(c) =>
      c < |s.callers| && s.callers[c].Waiting? && s.callers[c].probe < |s.probes| &&
      (IsClosed(s.probes[s.callers[c].probe]) || s.now >= s.callers[c].deadline)
    case _ => true
  }

  function Advance(s: State, p: nat, probe: Probe): State
    requires p < |s.probes|
  {
    s.(probes := s.probes[p := probe])
  }

  function Apply(s: State, a: Action): State
    requires Enabled(s, a)
  {
    match a
    case Tick => s.(now := s.now + 1)
    case Detach => s.(epoch := s.epoch + 1)
    case Reset => s.(resets := s.resets + [s.epoch], registered := None)
    case Call(wait) =>
      // LoadOrStore: attach to the registered probe, or register and spawn a new one.
      if s.registered.Some? then
        s.(callers := s.callers + [Waiting(s.registered.value, s.now + wait, Floor(s))])
      else
        s.(registered := Some(|s.probes|),
        probes := s.probes + [Probe(s.now, |s.resets|, Spawned, 0, Slow)],
        callers := s.callers + [Waiting(|s.probes|, s.now + wait, Floor(s))])
    case Begin(p) => Advance(s, p, s.probes[p].(phase := Blocked, epoch := s.epoch))
    case Return(p, v) => Advance(s, p, s.probes[p].(phase := Returned, answer := v))
    case Close(p) => Advance(s, p, s.probes[p].(phase := Closed))
    case Unregister(p) =>
      Advance(s, p, s.probes[p].(phase := Gone)).(
      registered := if s.registered == Some(p) then None else s.registered)
    case Select(c) =>
      var w := s.callers[c];
      var probe := s.probes[w.probe];
      s.(callers := s.callers[c := if IsClosed(probe) then Answered(probe.answer, probe.epoch, w.floor) else TimedOut])
  }

  /** How long the registered probe has gone unanswered; zero when there is none or it is done. */
  function Unanswered(s: State): nat {
    if s.registered.Some? && s.registered.value < |s.probes| then
      var p := s.probes[s.registered.value];
      if IsClosed(p) || p.start > s.now then 0 else s.now - p.start
    else 0
  }

  predicate Executable(s: State, run: seq<Action>)
    decreases |run|
  {
    run == [] || (Enabled(s, run[0]) && Executable(Apply(s, run[0]), run[1..]))
  }

  function Exec(s: State, run: seq<Action>): State
    requires Executable(s, run)
    decreases |run|
  {
    if run == [] then s else Exec(Apply(s, run[0]), run[1..])
  }

  // ----- the invariant -----

  function Weight(p: Probe): nat {
    if p.phase.Gone? then 0 else 1
  }

  /** The goroutines of this path that still exist. */
  function Goroutines(s: State): nat {
    Sum(Weight, s.probes)
  }

  predicate RegisteredInv(s: State) {
    s.registered.Some? ==>
      && s.registered.value < |s.probes|
      && !s.probes[s.registered.value].phase.Gone?
      && s.probes[s.registered.value].born == |s.resets|
  }

  /** A probe born under the current reset that still runs is the registered one. */
  predicate SingleFlightInv(s: State) {
    && (forall p | 0 <= p < |s.probes| :: s.probes[p].born <= |s.resets| && s.probes[p].start <= s.now)
    && (forall p | 0 <= p < |s.probes| && !s.probes[p].phase.Gone? && s.probes[p].born == |s.resets| ::
          s.registered == Some(p))
    && (forall p, q | 0 <= p < q < |s.probes| && !s.probes[p].phase.Gone? && !s.probes[q].phase.Gone? ::
          s.probes[p].born != s.probes[q].born)
  }

  function EpochOfReset(s: State, born: nat): nat
    requires born <= |s.resets|
  {
    if born == 0 then 0 else s.resets[born - 1]
  }

  /** A probe's system call begins no earlier than the reset it was born under. */
  predicate EpochInv(s: State) {
    && (forall i | 0 <= i < |s.resets| :: s.resets[i] <= s.epoch)
    && (forall p | 0 <= p < |s.probes| && s.probes[p].born <= |s.resets| && !s.probes[p].phase.Spawned? ::
          EpochOfReset(s, s.probes[p].born) <= s.probes[p].epoch)
  }

  predicate CallerInv(s: State) {
    forall c | 0 <= c < |s.callers| ::
      match s.callers[c]
      case Waiting(p, _, floor) =>
        p < |s.probes| && s.probes[p].born <= |s.resets| && floor <= EpochOfReset(s, s.probes[p].born)
      case Answered(_, epoch, floor) => floor <= epoch
      case TimedOut => true
  }

  predicate Inv(s: State) {
    && RegisteredInv(s) && SingleFlightInv(s) && EpochInv(s) && CallerInv(s)
    && Goroutines(s) <= |s.resets| + (if s.registered.Some? then 1 else 0)
  }

  lemma AttachPreservesInv(s: State, wait: nat)
    requires Inv(s) && s.registered.Some?
    ensures Inv(Apply(s, Call(wait)))
  {
    var s' := Apply(s, Call(wait));
    assert s'.probes == s.probes && s'.resets == s.resets && s'.registered == s.registered && s'.epoch == s.epoch;
    assert RegisteredInv(s') && SingleFlightInv(s') && EpochInv(s');
    assert EpochOfReset(s, |s.resets|) == Floor(s);
    assert CallerInv(s');
  }

  lemma SpawnKeepsProbes(s: State, wait: nat)
    requires Inv(s) && s.registered.None?
    ensures var s' := Apply(s, Call(wait)); RegisteredInv(s') && SingleFlightInv(s') && EpochInv(s')
  {
    var s', n := Apply(s, Call(wait)), |s.probes|;
    assert forall p | 0 <= p < n :: s'.probes[p] == s.probes[p];
    assert forall p | 0 <= p < n && !s.probes[p].phase.Gone? :: s.probes[p].born != |s.resets|;
  }

  lemma SpawnKeepsCallers(s: State, wait: nat)
    requires Inv(s) && s.registered.None?
    ensures CallerInv(Apply(s, Call(wait)))
  {
    var s' := Apply(s, Call(wait));
    assert forall p | 0 <= p < |s.probes| :: s'.probes[p] == s.probes[p];
    assert EpochOfReset(s', |s.resets|) == Floor(s);
  }

  lemma CallPreservesInv(s: State, wait: nat)
    requires Inv(s)
    ensures Inv(Apply(s, Call(wait)))
  {
    if s.registered.None? {
      SpawnKeepsProbes(s, wait);
      SpawnKeepsCallers(s, wait);
      SumAppend(Weight, s.probes, Probe(s.now, |s.resets|, Spawned, 0, Slow));
    } else {
      AttachPreservesInv(s, wait);
    }
  }

  /** A probe that moves on keeps the invariant while it is not gone. */
  lemma AdvancePreservesInv(s: State, p: nat, probe: Probe)
    requires Inv(s) && p < |s.probes| && !s.probes[p].phase.Gone? && !probe.phase.Gone? && !probe.phase.Spawned?
    requires probe.start == s.probes[p].start && probe.born == s.probes[p].born
    requires EpochOfReset(s, probe.born) <= probe.epoch
    ensures Inv(Advance(s, p, probe))
  {
    SumUpdate(Weight, s.probes, p, probe);
    var s' := Advance(s, p, probe);
    assert forall q | 0 <= q < |s.probes| :: s'.probes[q].born == s.probes[q].born;
    assert SingleFlightInv(s');
    assert EpochInv(s');
  }

  lemma UnregisterKeepsProbes(s: State, p: nat)
    requires Inv(s) && Enabled(s, Unregister(p))
    ensures var s' := Apply(s, Unregister(p)); RegisteredInv(s') && SingleFlightInv(s') && EpochInv(s') && CallerInv(s')
  {
    var s' := Apply(s, Unregister(p));
    assert forall q | 0 <= q < |s.probes| && q != p :: s'.probes[q] == s.probes[q];
    assert s'.probes[p].born == s.probes[p].born && s'.probes[p].start == s.probes[p].start;
  }

  lemma UnregisterPreservesInv(s: State, p: nat)
    requires Inv(s) && Enabled(s, Unregister(p))
    ensures Inv(Apply(s, Unregister(p)))
  {
    UnregisterKeepsProbes(s, p);
    SumUpdate(Weight, s.probes, p, s.probes[p].(phase := Gone));
  }

  lemma BeginPreservesInv(s: State, p: nat)
    requires Inv(s) && Enabled(s, Begin(p))
    ensures Inv(Apply(s, Begin(p)))
  {
    AdvancePreservesInv(s, p, s.probes[p].(phase := Blocked, epoch := s.epoch));
  }

  lemma ResetPreservesInv(s: State)
    requires Inv(s)
    ensures Inv(Apply(s, Reset))
  {
  }

  lemma SelectPreservesInv(s: State, c: nat)
    requires Inv(s) && Enabled(s, Select(c))
    ensures Inv(Apply(s, Select(c)))
  {
  }

  lemma StepPreservesInv(s: State, a: Action)
    requires Inv(s) && Enabled(s, a)
    ensures Inv(Apply(s, a))
  {
    match a
    case Tick =>
    case Detach =>
    case Reset => ResetPreservesInv(s);
    case Call(wait) => CallPreservesInv(s, wait);
    case Begin(p) => BeginPreservesInv(s, p);
    case Return(p, v) => AdvancePreservesInv(s, p, s.probes[p].(phase := Returned, answer := v));
    case Close(p) => AdvancePreservesInv(s, p, s.probes[p].(phase := Closed));
    case Unregister(p) => UnregisterPreservesInv(s, p);
    case Select(c) => SelectPreservesInv(s, c);
  }

  lemma {:induction false} ExecPreservesInv(s: State, run: seq<Action>)
    requires Inv(s) && Executable(s, run)
    ensures Inv(Exec(s, run))
    decreases |run|
  {
    if run != [] {
      StepPreservesInv(s, run[0]);
      ExecPreservesInv(Apply(s, run[0]), run[1..]);
    }
  }

  ghost predicate Reachable(s: State) {
    exists now: nat, epoch: nat, run: seq<Action> ::
      Executable(InitialState(now, epoch), run) && Exec(InitialState(now, epoch), run) == s
  }

  lemma ReachableInv(s: State)
    requires Reachable(s)
    ensures Inv(s)
  {
    var now: nat, epoch: nat, run: seq<Action> :|
      Executable(InitialState(now, epoch), run) && Exec(InitialState(now, epoch), run) == s;
    ExecPreservesInv(InitialState(now, epoch), run);
  }

  // ----- what holds in every interleaving -----

  /** An answer describes the mount as of the last reset before the call, or a later one. */
  lemma AnswersAreNoOlderThanReset(s: State, c: nat)
    requires Reachable(s) && c < |s.callers| && s.callers[c].Answered?
    ensures s.callers[c].epoch >= s.callers[c].floor
  {
    ReachableInv(s);
  }

  /** The probe's system call has returned. */
  predicate HasReturned(p: Probe) {
    p.phase.Returned? || IsClosed(p)
  }

  /** The later probe is the earlier one further on: what it reached and what it answered stay. */
  predicate Continues(p: Probe, p': Probe) {
    && p'.start == p.start && p'.born == p.born
    && (HasReturned(p) ==> HasReturned(p') && p'.answer == p.answer && p'.epoch == p.epoch)
    && (IsClosed(p) ==> IsClosed(p'))
  }

  /** What a probe answers is what its system call returned. */
  lemma {:induction false} AnswersAreReturned(s: State, run: seq<Action>, p: nat)
    requires Executable(s, run) && p < |Exec(s, run).probes| && HasReturned(Exec(s, run).probes[p])
    ensures (p < |s.probes| && HasReturned(s.probes[p])) || Return(p, Exec(s, run).probes[p].answer) in run
    ensures |s.probes| <= |Exec(s, run).probes| && (p < |s.probes| ==> Continues(s.probes[p], Exec(s, run).probes[p]))
    decreases |run|
  {
    if run != [] {
      AnswersAreReturned(Apply(s, run[0]), run[1..], p);
    }
  }

  /** Every answered caller has the answer of some closed probe, and of the mount that probe reached. */
  ghost predicate AnsweredInv(s: State) {
    forall c | 0 <= c < |s.callers| && s.callers[c].Answered? :: FromProbe(s, s.callers[c].answer, s.callers[c].epoch)
  }

  ghost predicate FromProbe(s: State, answer: Verdict, epoch: nat) {
    exists p :: 0 <= p < |s.probes| && IsClosed(s.probes[p]) && s.probes[p].answer == answer && s.probes[p].epoch == epoch
  }

  lemma FromProbeStays(s: State, a: Action, answer: Verdict, epoch: nat)
    requires Enabled(s, a) && FromProbe(s, answer, epoch)
    ensures FromProbe(Apply(s, a), answer, epoch)
  {
    var p :| 0 <= p < |s.probes| && IsClosed(s.probes[p]) && s.probes[p].answer == answer && s.probes[p].epoch == epoch;
    assert IsClosed(Apply(s, a).probes[p]);
  }

  lemma {:induction false} AnswersComeFromProbes(s: State, run: seq<Action>)
    requires AnsweredInv(s) && Executable(s, run)
    ensures AnsweredInv(Exec(s, run))
    decreases |run|
  {
    if run != [] {
      var next := Apply(s, run[0]);
      forall c | 0 <= c < |next.callers| && next.callers[c].Answered?
        ensures FromProbe(next, next.callers[c].answer, next.callers[c].epoch)
      {
        if c < |s.callers| && s.callers[c].Answered? {
          FromProbeStays(s, run[0], s.callers[c].answer, s.callers[c].epoch);
        } else {
          assert run[0] == Select(c) && IsClosed(next.probes[s.callers[c].probe]);
        }
      }
      AnswersComeFromProbes(next, run[1..]);
    }
  }

  /** Over every run a caller is answered only what the system call of some probe has returned. */
  lemma CallersHearWhatWasReturned(s0: State, run: seq<Action>, c: nat)
    requires s0 == InitialState(s0.now, s0.epoch) && Executable(s0, run)
    requires c < |Exec(s0, run).callers| && Exec(s0, run).callers[c].Answered?
    ensures exists p: nat :: p < |Exec(s0, run).probes| && Return(p, Exec(s0, run).callers[c].answer) in run
                        && Exec(s0, run).probes[p].epoch == Exec(s0, run).callers[c].epoch
  {
    AnswersComeFromProbes(s0, run);
    var s := Exec(s0, run);
    assert FromProbe(s, s.callers[c].answer, s.callers[c].epoch);
    var p: nat :| p < |s.probes| && IsClosed(s.probes[p])
             && s.probes[p].answer == s.callers[c].answer && s.probes[p].epoch == s.callers[c].epoch;
    AnswersAreReturned(s0, run, p);
  }

  /**
   A caller is answered if and only if its probe is closed when its wait ends, and the wait of an
   unanswered one ends only after its deadline.
   */
  lemma WaitsEndWithAnswerOrTimeout(s: State, c: nat)
    requires Reachable(s) && Enabled(s, Select(c))
    ensures Apply(s, Select(c)).callers[c].Answered? <==> IsClosed(s.probes[s.callers[c].probe])
    ensures Apply(s, Select(c)).callers[c].TimedOut? ==> s.now >= s.callers[c].deadline
  {
  }

  // ----- what calls and resets achieve -----

  ghost predicate Leads(s: State, x: State) {
    exists run: seq<Action> :: Executable(s, run) && Exec(s, run) == x
  }

  lemma {:induction false} ExecAppend(s: State, run: seq<Action>, a: Action)
    requires Executable(s, run) && Enabled(Exec(s, run), a)
    ensures Executable(s, run + [a]) && Exec(s, run + [a]) == Apply(Exec(s, run), a)
    decreases |run|
  {
    if run == [] {
      assert [a][1..] == [];
    } else {
      ExecAppend(Apply(s, run[0]), run[1..], a);
      assert (run + [a])[1..] == run[1..] + [a];
    }
  }

  lemma LeadsStep(s: State, x: State, a: Action)
    requires Leads(s, x) && Enabled(x, a)
    ensures Leads(s, Apply(x, a))
  {
    var run: seq<Action> :| Executable(s, run) && Exec(s, run) == x;
    ExecAppend(s, run, a);
  }

  lemma LeadsNowhere(s: State)
    ensures Leads(s, s)
  {
    assert Executable(s, []) && Exec(s, []) == s;
  }

  /** A call that finds no probe starts one, whose answer it is given, with the mount the path then has. */
  lemma CallIsAnswered(o: State, s: State, wait: nat, v: Verdict) returns (x: State)
    requires Leads(o, s) && s.registered.None?
    ensures Leads(o, x) && x.registered.None? && x.probes == s.probes + [Probe(s.now, |s.resets|, Gone, s.epoch, v)]
    ensures x.callers == s.callers + [Answered(v, s.epoch, Floor(s))] && x.now == s.now && x.epoch == s.epoch && x.resets == s.resets
  {
    var n, c := |s.probes|, |s.callers|;
    var run := [ Call(wait), Begin(n), Return(n, v), Close(n), Select(c), Unregister(n) ];
    var phases := [ Spawned, Blocked, Returned, Closed, Closed, Gone ];
    x := s;
    for i := 0 to |run|
      invariant Leads(o, x) && x == s.(registered := x.registered, probes := x.probes, callers := x.callers)
      invariant x.registered == if 0 < i < 6 then Some(n) else None
      invariant x.probes == if i == 0 then s.probes
                            else s.probes + [Probe(s.now, |s.resets|, phases[i - 1], if i < 2 then 0 else s.epoch, if i < 3 then Slow else v)]
      invariant x.callers == if i == 0 then s.callers
                             else s.callers + [if i < 5 then Waiting(n, s.now + wait, Floor(s)) else Answered(v, s.epoch, Floor(s))]
    {
      LeadsStep(o, x, run[i]);
      x := Apply(x, run[i]);
    }
  }

  /** However long an old probe stays blocked: after the mount is detached and the path reset, a call hears of the new mount. */
  lemma RemountIsSeen(s: State, wait: nat, v: Verdict) returns (x: State)
    ensures Leads(s, x) && x.callers == s.callers + [Answered(v, s.epoch + 1, s.epoch + 1)]
    ensures |x.probes| == |s.probes| + 1 && x.probes[..|s.probes|] == s.probes
  {
    LeadsNowhere(s);
    LeadsStep(s, s, Detach);
    LeadsStep(s, Apply(s, Detach), Reset);
    x := CallIsAnswered(s, Apply(Apply(s, Detach), Reset), wait, v);
  }

  /** A call that shares a probe which never answers ends at its deadline, and no earlier. */
  lemma BlockedCallTimesOut(s: State, wait: nat, p: nat, n: nat) returns (x: State)
    requires Inv(s) && s.registered == Some(p) && !IsClosed(s.probes[p])
    ensures Leads(s, x) && x.now == s.now + n && x.probes == s.probes && |x.callers| == |s.callers| + 1
    ensures Enabled(x, Select(|s.callers|)) <==> n >= wait
    ensures n >= wait ==> Apply(x, Select(|s.callers|)).callers[|s.callers|].TimedOut?
  {
    LeadsNowhere(s);
    LeadsStep(s, s, Call(wait));
    var called := Apply(s, Call(wait));
    x := called;
    for i := 0 to n
      invariant Leads(s, x) && x == called.(now := s.now + i)
    {
      LeadsStep(s, x, Tick);
      x := Apply(x, Tick);
    }
    assert x.callers[|s.callers|] == Waiting(p, s.now + wait, Floor(s));
  }

  /** How long a path has been left unanswered: longer than a bound exactly if its registered probe is open and older. */
  lemma UnansweredMeans(s: State, bound: nat)
    ensures Unanswered(s) > bound <==>
              && s.registered.Some? && s.registered.value < |s.probes|
              && !IsClosed(s.probes[s.registered.value]) && s.probes[s.registered.value].start + bound < s.now
  {
  }

  /** Probe goroutines, and so blocked system calls, number at most one more than the resets. */
  lemma BlockedProbesAreBounded(s: State)
    requires Reachable(s)
    ensures Goroutines(s) <= |s.resets| + 1
  {
    ReachableInv(s);
  }

  /** Between two resets at most one probe runs. */
  lemma OneProbePerReset(s: State, p: nat, q: nat)
    requires Reachable(s) && p < |s.probes| && q < |s.probes|
    requires !s.probes[p].phase.Gone? && !s.probes[q].phase.Gone? && s.probes[p].born == s.probes[q].born
    ensures p == q
  {
    ReachableInv(s);
  }

  /** A registered probe leaves the registry only by a reset, or by itself once it is closed. */
  lemma OrphansNeverUnregisterAnother(s: State, a: Action, p: nat)
    requires Reachable(s) && Enabled(s, a) && s.registered == Some(p)
    ensures Apply(s, a).registered == Some(p) || a.Reset? || (a == Unregister(p) && IsClosed(s.probes[p]))
  {
    ReachableInv(s);
  }

  /** While a probe is registered and not closed, every new call waits for that same probe. */
  lemma NewCallsShareTheBlockedProbe(s: State, wait: nat, p: nat)
    requires Reachable(s)
    requires p < |s.probes| && !IsClosed(s.probes[p]) && s.probes[p].born == |s.resets|
    ensures Apply(s, Call(wait)).probes == s.probes
    ensures Apply(s, Call(wait)).callers == s.callers + [Waiting(p, s.now + wait, Floor(s))]
  {
    ReachableInv(s);
  }
}
