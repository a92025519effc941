/**
 Everything done to one volume on a node, in order: the checks, stages, publishes and teardowns of
 the node server, and the mounts that appear at the staging path, whether a stage made them or
 they came up late by themselves.  A digest keeps what matters of a log; an event is justified by
 the digest of what came before it, and a log is disciplined if every event is.
 */
module RecoveryLog {
  import opened Common
  import opened Health

  // ----- mounts and events -----

  /** What is mounted at the staging path; `epoch` numbers the FUSE mounts, starting at 1. */
  datatype Mount = Absent | Broken(epoch: nat) | Serving(epoch: nat)

  /** What may happen to a mount on its own: it breaks, or goes away. */
  predicate MayBecome(m: Mount, m': Mount) {
    m' == m || m'.Absent? || (m.Serving? && m' == Broken(m.epoch))
  }

  /** On whose behalf a path is touched. */
  datatype Actor = Kubelet | Retry | Recovery

  /** A call that did not succeed. */
  datatype Failure = Reach | StopProcess | Detach | StayUnmounted | Cleanup | Stage | Unbind(path: string) | Bind(path: string)

  /** What the mount table guard finds; a mount that is there is proven dead, or hung past the bound, or neither. */
  datatype Table = Unreadable | NothingMounted | MountThere(proven: bool)

  /**
   The log.  `bound` is the time a probe must have been unanswered to count as hung, 0 when the
   recovery accepts only a dead verdict; `mount` is what was mounted when the action was taken.
   */
  datatype Event =
    | Begun(actor: Actor)
    | Appeared(epoch: nat)
    | Rechecked(verdict: Verdict, unanswered: nat)
    | ManagerUnmount(mount: Mount, bound: nat)
    | ProbesReset
    | Failed(what: Failure)
    | TableChecked(table: Table)
    | Detached(mount: Mount, bound: nat)
    | NotReportedMounted(readable: bool)
    | Cleaned(mount: Mount, bound: nat)
    | KubeletUnmounted(mount: Mount)
    | Cleared
    | Displaced(actor: Actor, mount: Mount)
    | Restaged(actor: Actor)
    | Unstaged(mount: Mount)
    | ProbedPath(path: string, verdict: Verdict)
    | Unbinding(path: string, actor: Actor)
    | Bound(path: string, actor: Actor, readOnly: bool, source: Mount)
    | PublishAccepted(path: string, readOnly: bool)
    | PublishRestored(path: string)
    | UnpublishBegun(path: string)

  // ----- digests -----

  /**
   What matters of a log: the paths with an outstanding publish and the flag each one has, whether
   probes of a mount since stopped or detached by a recovery may still be in flight, the last three
   events but for appearing mounts, the mounts that appeared since the path was last observed, the
   next mount's number, and what happened since a retry or a recovery last began: whether it
   restaged the volume, whether the mount service was asked to stop the process, which paths failed
   and which answered dead.
   */
  datatype Digest = Digest(
    outstanding: map<string, bool>,
    stale: bool,
    last: Option<Event>,
    last2: Option<Event>,
    last3: Option<Event>,
    appeared: set<nat>,
    next: nat,
    restaged: bool,
    stopped: bool,
    failed: set<string>,
    dead: set<string>)

  const EMPTY := Digest(map[], false, None, None, None, {}, 1, false, false, {}, {})

  /** Events that look at what is mounted at the staging path, or leave nothing mounted there. */
  predicate Observes(e: Event) {
    e.Rechecked? || e.Detached? || e.Cleared? || (e.TableChecked? && !e.table.Unreadable?) || e == NotReportedMounted(true)
  }

  /** The path an event reports as failed to unmount or to bind, if any. */
  function FailedPath(e: Event): set<string> {
    if e.Failed? && (e.what.Unbind? || e.what.Bind?) then {e.what.path} else {}
  }

  /** The path an event reports as dead, if any. */
  function DeadPath(e: Event): set<string> {
    if e.ProbedPath? && e.verdict.Dead? then {e.path} else {}
  }

  predicate RestagedBy(e: Event, actor: Actor) {
    e == Restaged(actor)
  }

  function FoldOutstanding(outstanding: map<string, bool>, e: Event): map<string, bool> {
    match e
    case PublishAccepted(p, readOnly) => outstanding[p := readOnly]
    // A restart tracks every path it finds as writable.
    case PublishRestored(p) => outstanding[p := false]
    case UnpublishBegun(p) => outstanding - {p}
    case _ => outstanding
  }

  function FoldStale(stale: bool, e: Event): bool {
    match e
    case ManagerUnmount(_, _) => true
    case Detached(_, _) => true
    case ProbesReset => false
    case Failed(what) => stale && !what.StopProcess? && !what.Detach?
    case _ => stale
  }

  function Fold(d: Digest, e: Event): Digest {
    if e.Appeared? then d.(appeared := d.appeared + {e.epoch}, next := e.epoch + 1)
    else
      Digest(
        FoldOutstanding(d.outstanding, e),
        FoldStale(d.stale, e),
        Some(e), d.last, d.last2,
        if Observes(e) then {} else d.appeared,
        d.next,
        !e.Begun? && (d.restaged || RestagedBy(e, Recovery)),
        !e.Begun? && (d.stopped || e.ManagerUnmount?),
        if e.Begun? then {} else d.failed + FailedPath(e),
        if e.Begun? then {} else d.dead + DeadPath(e))
  }

  /** Events that change neither the publishes nor what is remembered of the operation under way. */
  predicate Plain(e: Event) {
    || e.Rechecked? || e.ProbesReset? || e.TableChecked? || e.Detached? || e.NotReportedMounted? || e.Cleaned?
    || e.KubeletUnmounted? || e.Cleared? || e.Displaced? || e.Unstaged? || e.Unbinding? || e.Bound?
    || (e.Failed? && !e.what.Unbind? && !e.what.Bind?)
  }

  function Advance(d: Digest, e: Event): Digest {
    d.(stale := FoldStale(d.stale, e), last := Some(e), last2 := d.last, last3 := d.last2,
    appeared := if Observes(e) then {} else d.appeared)
  }

  lemma PlainFold(d: Digest, e: Event)
    requires Plain(e)
    ensures Fold(d, e) == Advance(d, e)
  {
  }

  function DigestOf(tr: seq<Event>): Digest {
    if tr == [] then EMPTY else Fold(DigestOf(tr[..|tr| - 1]), tr[|tr| - 1])
  }

  // ----- what must precede an event -----

  /** Dead, or unanswered for longer than the bound when there is one. */
  predicate Confirms(v: Verdict, unanswered: nat, bound: nat) {
    v.Dead? || (bound > 0 && v.Slow? && unanswered > bound)
  }

  predicate IsConfirmation(e: Option<Event>, bound: nat) {
    e.Some? && e.value.Rechecked? && Confirms(e.value.verdict, e.value.unanswered, bound)
  }

  /** If the mount serves, it appeared after the path was last observed. */
  predicate New(d: Digest, m: Mount) {
    m.Serving? ==> m.epoch in d.appeared
  }

  /** If anything is mounted, it appeared after the path was last observed. */
  predicate Fresh(d: Digest, m: Mount) {
    !m.Absent? ==> m.epoch in d.appeared
  }

  /** The staging path has just been found healthy, or staged for kubelet. */
  predicate Ready(e: Option<Event>) {
    e.Some? && ((e.value.Rechecked? && e.value.verdict.Healthy?) || RestagedBy(e.value, Kubelet))
  }

  /** A recovery has cleaned the path; for kubelet it is cleared, or found dead by a stat that failed. */
  predicate Prepares(e: Option<Event>, actor: Actor) {
    && e.Some?
    && match actor
       case Recovery => e.value.Cleaned?
       case Kubelet => e.value.Cleared? || (e.value.Rechecked? && e.value.verdict.Dead?)
       case Retry => false
  }

  predicate MayStage(d: Digest, actor: Actor) {
    Prepares(if d.last.Some? && d.last.value.Displaced? && d.last.value.actor == actor then d.last2 else d.last, actor)
  }

  predicate Justified(d: Digest, e: Event) {
    match e
    case Appeared(epoch) => epoch == d.next
    case Rechecked(_, _) => !d.stale
    case ManagerUnmount(m, bound) => IsConfirmation(d.last, bound) && (bound == 0 ==> New(d, m))
    case Detached(m, bound) =>
      && d.last.Some? && d.last.value.TableChecked? && d.last.value.table != MountThere(false)
      && IsConfirmation(d.last2, bound) && (bound == 0 ==> New(d, m))
    case Cleaned(m, bound) =>
      && d.last.Some? && d.last.value.NotReportedMounted? && d.last2 == Some(ProbesReset)
      && d.last3.Some? && d.last3.value.Detached? && d.last3.value.bound == bound && Fresh(d, m)
    case KubeletUnmounted(m) =>
      && d.last.Some? && d.last.value.Rechecked? && !d.last.value.verdict.Healthy?
      && (d.last.value.verdict.Dead? ==> New(d, m))
    case Displaced(actor, m) => Prepares(d.last, actor) && (if actor.Recovery? then Fresh(d, m) else New(d, m))
    case Restaged(actor) => MayStage(d, actor)
    case Unbinding(_, Recovery) => d.restaged
    case Unbinding(p, Retry) => d.last == Some(ProbedPath(p, Dead))
    case Bound(p, actor, readOnly, m) =>
      if actor.Kubelet? then Ready(d.last)
      else p in d.outstanding && d.outstanding[p] == readOnly && (actor.Recovery? ==> Fresh(d, m))
    case _ => true
  }

  predicate Disciplined(tr: seq<Event>) {
    forall i | 0 <= i < |tr| :: Justified(DigestOf(tr[..i]), tr[i])
  }

  lemma AppendDisciplined(tr: seq<Event>, e: Event)
    requires Disciplined(tr) && Justified(DigestOf(tr), e)
    ensures Disciplined(tr + [e]) && DigestOf(tr + [e]) == Fold(DigestOf(tr), e)
  {
    assert (tr + [e])[..|tr|] == tr;
    forall i | 0 <= i < |tr + [e]|
      ensures Justified(DigestOf((tr + [e])[..i]), (tr + [e])[i])
    {
      assert (tr + [e])[..i] == if i < |tr| then tr[..i] else tr;
    }
  }

  /** The log the node server keeps, newest event outermost. */
  datatype Log = Start | Then(before: Log, event: Event)

  function Summary(l: Log): Digest {
    match l
    case Start => EMPTY
    case Then(before, e) => Fold(Summary(before), e)
  }

  predicate Justifiable(l: Log) {
    match l
    case Start => true
    case Then(before, e) => Justifiable(before) && Justified(Summary(before), e)
  }

  function Events(l: Log): seq<Event> {
    match l
    case Start => []
    case Then(before, e) => Events(before) + [e]
  }

  /** The later log continues the earlier one. */
  predicate Grows(l: Log, l': Log) {
    l' == l || (l'.Then? && Grows(l, l'.before))
  }

  lemma {:induction false} GrowsTransitive(a: Log, b: Log, c: Log)
    requires Grows(a, b) && Grows(b, c)
    ensures Grows(a, c)
    decreases c
  {
    if c != b {
      GrowsTransitive(a, b, c.before);
    }
  }

  predicate Records(l: Log, e: Event) {
    l.Then? && (l.event == e || Records(l.before, e))
  }

  lemma {:induction false} GrowsKeepsRecords(l: Log, l': Log, e: Event)
    requires Grows(l, l') && Records(l, e)
    ensures Records(l', e)
    decreases l'
  {
    if l' != l {
      GrowsKeepsRecords(l, l'.before, e);
    }
  }

  /** A retry has bound the path, with this flag. */
  ghost predicate RetryBound(l: Log, p: string, readOnly: bool) {
    exists m: Mount :: Records(l, Bound(p, Retry, readOnly, m))
  }

  lemma GrowsKeepsRetryBound(l: Log, l': Log, p: string, readOnly: bool)
    requires Grows(l, l') && RetryBound(l, p, readOnly)
    ensures RetryBound(l', p, readOnly)
  {
    var m: Mount :| Records(l, Bound(p, Retry, readOnly, m));
    GrowsKeepsRecords(l, l', Bound(p, Retry, readOnly, m));
  }

  /**
   The same log as a sequence, in which an event can be named by its place: what the node server
   writes one event at a time is disciplined, so what follows holds of it.
   */
  lemma {:induction false} LogsAreDisciplined(l: Log)
    requires Justifiable(l)
    ensures Disciplined(Events(l)) && DigestOf(Events(l)) == Summary(l)
  {
    if l.Then? {
      LogsAreDisciplined(l.before);
      AppendDisciplined(Events(l.before), l.event);
    }
  }

  // ----- what the digest means -----

  /** The log without the mounts that appear. */
  function Acts(tr: seq<Event>): seq<Event> {
    if tr == [] then []
    else Acts(tr[..|tr| - 1]) + if tr[|tr| - 1].Appeared? then [] else [tr[|tr| - 1]]
  }

  function FromEnd(acts: seq<Event>, n: nat): Option<Event>
    requires n > 0
  {
    if n <= |acts| then Some(acts[|acts| - n]) else None
  }

  lemma {:induction false} LastActs(tr: seq<Event>)
    ensures DigestOf(tr).last == FromEnd(Acts(tr), 1)
    ensures DigestOf(tr).last2 == FromEnd(Acts(tr), 2)
    ensures DigestOf(tr).last3 == FromEnd(Acts(tr), 3)
  {
    if tr != [] {
      LastActs(tr[..|tr| - 1]);
    }
  }

  /** The mount appeared after everything in the log that observed the path. */
  predicate AppearedAt(tr: seq<Event>, k: nat, epoch: nat) {
    k < |tr| && tr[k] == Appeared(epoch) && forall j | 0 <= j < |tr| && Observes(tr[j]) :: j < k
  }

  ghost predicate AppearedUnobserved(tr: seq<Event>, epoch: nat) {
    exists k: nat :: AppearedAt(tr, k, epoch)
  }

  lemma AppearedAtFront(tr: seq<Event>, k: nat, epoch: nat)
    requires k < |tr|
    ensures AppearedAt(tr, k, epoch) <==>
            if k == |tr| - 1 then tr[k] == Appeared(epoch) else AppearedAt(tr[..|tr| - 1], k, epoch) && !Observes(tr[|tr| - 1])
  {
    var n := |tr| - 1;
    assert forall j | 0 <= j < n :: tr[..n][j] == tr[j];
    if AppearedAt(tr, k, epoch) && k < n {
      assert Observes(tr[n]) ==> n < k;
    }
  }

  /** The digest holds exactly the mounts that appeared after everything that observed the path. */
  lemma {:induction false} AppearedMeans(tr: seq<Event>, epoch: nat)
    ensures epoch in DigestOf(tr).appeared <==> AppearedUnobserved(tr, epoch)
  {
    if tr != [] {
      var n := |tr| - 1;
      AppearedMeans(tr[..n], epoch);
      AppearedAtFront(tr, n, epoch);
      if k: nat :| AppearedAt(tr[..n], k, epoch) {
        AppearedAtFront(tr, k, epoch);
      }
      if k: nat :| AppearedAt(tr, k, epoch) {
        AppearedAtFront(tr, k, epoch);
      }
    }
  }

  lemma {:induction false} EpochsAreBounded(tr: seq<Event>)
    requires Disciplined(tr)
    ensures forall k | 0 <= k < |tr| && tr[k].Appeared? :: tr[k].epoch < DigestOf(tr).next
  {
    if tr != [] {
      var n := |tr| - 1;
      FrontDisciplined(tr);
      EpochsAreBounded(tr[..n]);
      assert Justified(DigestOf(tr[..n]), tr[n]);
      assert forall k | 0 <= k < n :: tr[..n][k] == tr[k];
    }
  }

  lemma FrontDisciplined(tr: seq<Event>)
    requires Disciplined(tr) && tr != []
    ensures Disciplined(tr[..|tr| - 1])
  {
    var front := tr[..|tr| - 1];
    forall i | 0 <= i < |front|
      ensures Justified(DigestOf(front[..i]), front[i])
    {
      assert front[..i] == tr[..i] && front[i] == tr[i];
    }
  }

  lemma PrefixDisciplined(tr: seq<Event>, n: nat)
    requires Disciplined(tr) && n <= |tr|
    ensures Disciplined(tr[..n])
  {
    forall i | 0 <= i < n
      ensures Justified(DigestOf(tr[..n][..i]), tr[..n][i])
    {
      assert tr[..n][..i] == tr[..i];
    }
  }

  /** Every mount appears once, so where it appears is where it was first mounted. */
  lemma MountsAppearOnce(tr: seq<Event>, j: nat, k: nat)
    requires Disciplined(tr) && j < k < |tr| && tr[j].Appeared? && tr[k].Appeared?
    ensures tr[j].epoch != tr[k].epoch
  {
    PrefixDisciplined(tr, k);
    EpochsAreBounded(tr[..k]);
    assert tr[..k][j] == tr[j];
    assert Justified(DigestOf(tr[..k]), tr[k]);
  }

  /** The events since a retry or a recovery last began. */
  function SinceBegun(tr: seq<Event>): seq<Event> {
    if tr == [] || tr[|tr| - 1].Begun? then [] else SinceBegun(tr[..|tr| - 1]) + [tr[|tr| - 1]]
  }

  predicate ReportsFailed(e: Event, p: string) {
    e == Failed(Unbind(p)) || e == Failed(Bind(p))
  }

  /** What the digest says of the operation under way, in terms of its events. */
  lemma {:induction false} DigestMeans(tr: seq<Event>, p: string)
    ensures DigestOf(tr).restaged <==> Restaged(Recovery) in SinceBegun(tr)
    ensures DigestOf(tr).stopped <==> exists e :: e in SinceBegun(tr) && e.ManagerUnmount?
    ensures p in DigestOf(tr).failed <==> exists e :: e in SinceBegun(tr) && ReportsFailed(e, p)
    ensures p in DigestOf(tr).dead <==> ProbedPath(p, Dead) in SinceBegun(tr)
  {
    if tr != [] && !tr[|tr| - 1].Begun? {
      var front, last := tr[..|tr| - 1], tr[|tr| - 1];
      DigestMeans(front, p);
      assert SinceBegun(tr) == SinceBegun(front) + [last];
      assert last in SinceBegun(tr);
      assert forall e :: e in SinceBegun(front) ==> e in SinceBegun(tr);
      assert ReportsFailed(last, p) <==> p in FailedPath(last);
    }
  }

  // ----- publishes and their flags -----

  predicate Grants(e: Event, p: string) {
    e == PublishRestored(p) || (e.PublishAccepted? && e.path == p)
  }

  /** The flag a publish is tracked with. */
  function FlagOf(e: Event): bool {
    e.PublishAccepted? && e.readOnly
  }

  predicate Concerns(e: Event, p: string) {
    Grants(e, p) || e == UnpublishBegun(p)
  }

  /** The i-th event grants the path, and nothing logged since grants it anew or withdraws it. */
  predicate GrantedAt(tr: seq<Event>, i: nat, p: string) {
    i < |tr| && Grants(tr[i], p) && forall j | i < j < |tr| :: !Concerns(tr[j], p)
  }

  lemma GrantedAtFront(tr: seq<Event>, i: nat, p: string)
    requires i < |tr|
    ensures GrantedAt(tr, i, p) <==>
            if i == |tr| - 1 then Grants(tr[i], p) else GrantedAt(tr[..|tr| - 1], i, p) && !Concerns(tr[|tr| - 1], p)
  {
    var n := |tr| - 1;
    assert forall j | 0 <= j < n :: tr[..n][j] == tr[j];
  }

  lemma OneEventOutstanding(outstanding: map<string, bool>, e: Event, p: string)
    ensures p in FoldOutstanding(outstanding, e) <==> Grants(e, p) || (p in outstanding && !Concerns(e, p))
    ensures Grants(e, p) ==> FoldOutstanding(outstanding, e)[p] == FlagOf(e)
    ensures p in outstanding && !Concerns(e, p) ==> FoldOutstanding(outstanding, e)[p] == outstanding[p]
  {
  }

  /**
   A path is outstanding if and only if a publish of it was accepted or restored and nothing since
   has withdrawn it, and it has the flag of the last such event.
   */
  lemma {:induction false} OutstandingMeans(tr: seq<Event>, p: string)
    ensures p in DigestOf(tr).outstanding <==> exists i: nat :: GrantedAt(tr, i, p)
    ensures forall i: nat | GrantedAt(tr, i, p) :: p in DigestOf(tr).outstanding && DigestOf(tr).outstanding[p] == FlagOf(tr[i])
  {
    if tr != [] {
      var n := |tr| - 1;
      OutstandingMeans(tr[..n], p);
      GrantedAtFront(tr, n, p);
      OneEventOutstanding(DigestOf(tr[..n]).outstanding, tr[n], p);
      if i: nat :| GrantedAt(tr[..n], i, p) {
        GrantedAtFront(tr, i, p);
      }
      forall i: nat | GrantedAt(tr, i, p)
        ensures p in DigestOf(tr).outstanding && DigestOf(tr).outstanding[p] == FlagOf(tr[i])
      {
        GrantedAtFront(tr, i, p);
      }
    }
  }

  /**
   Over every run, a path that a retry or a recovery binds again has an outstanding publish: one was
   accepted or restored, and since then kubelet has not begun to withdraw it.  It is bound with the
   flag it is tracked with since.
   */
  lemma RebindsOnlyOutstanding(tr: seq<Event>, i: nat)
    requires Disciplined(tr) && i < |tr| && tr[i].Bound? && !tr[i].actor.Kubelet?
    ensures exists j: nat :: GrantedAt(tr[..i], j, tr[i].path)
    ensures forall j: nat | GrantedAt(tr[..i], j, tr[i].path) :: FlagOf(tr[j]) == tr[i].readOnly
  {
    assert Justified(DigestOf(tr[..i]), tr[i]);
    OutstandingMeans(tr[..i], tr[i].path);
  }

  /** The last publish of the path that was accepted, before the i-th event. */
  predicate LastAccepted(tr: seq<Event>, j: nat, i: nat, p: string) {
    && j < i <= |tr| && tr[j].PublishAccepted? && tr[j].path == p
    && forall k | j < k < i :: !(tr[k].PublishAccepted? && tr[k].path == p)
  }

  predicate RestoredBetween(tr: seq<Event>, j: nat, i: nat, p: string) {
    exists k | 0 <= k < |tr| :: j < k < i && tr[k] == PublishRestored(p)
  }

  /**
   When a re-bind keeps the flag kubelet asked for: if and only if no restart has restored the path
   since its last accepted publish, or that publish was writable.
   */
  lemma RebindKeepsFlagIff(tr: seq<Event>, i: nat, j: nat)
    requires Disciplined(tr) && i < |tr| && tr[i].Bound? && !tr[i].actor.Kubelet?
    requires LastAccepted(tr, j, i, tr[i].path)
    ensures tr[i].readOnly == tr[j].readOnly <==> !RestoredBetween(tr, j, i, tr[i].path) || !tr[j].readOnly
  {
    var p := tr[i].path;
    RebindsOnlyOutstanding(tr, i);
    var g: nat :| GrantedAt(tr[..i], g, p);
    assert tr[..i][g] == tr[g] && FlagOf(tr[g]) == tr[i].readOnly;
    if g < j {
      assert Concerns(tr[..i][j], p);
    } else if g > j {
      assert tr[g] == PublishRestored(p);
    } else if RestoredBetween(tr, j, i, p) {
      var k :| 0 <= k < |tr| && j < k < i && tr[k] == PublishRestored(p);
      assert Concerns(tr[..i][k], p);
    }
  }

  /** The path is withdrawn at j, and no publish of it was accepted since. */
  predicate WithdrawnAt(tr: seq<Event>, j: nat, p: string) {
    && j < |tr| && tr[j] == UnpublishBegun(p)
    && forall k | j < k < |tr| :: tr[k] != UnpublishBegun(p) && !(tr[k].PublishAccepted? && tr[k].path == p)
  }

  /** After the log a retry may bind the path, once it answered dead and was torn down. */
  ghost predicate MayBindNext(tr: seq<Event>, p: string) {
    exists readOnly: bool, m: Mount :: Justified(DigestOf(tr), Bound(p, Retry, readOnly, m))
  }

  /**
   Once kubelet has begun to withdraw a path, even if that failed, a retry may bind it again without a
   new publish if and only if a restart has restored it since.
   */
  lemma WithdrawnPathIsBoundAgainIffRestored(tr: seq<Event>, j: nat, p: string)
    requires WithdrawnAt(tr, j, p)
    ensures MayBindNext(tr, p) <==> RestoredBetween(tr, j, |tr|, p)
  {
    OutstandingMeans(tr, p);
    if MayBindNext(tr, p) {
      assert Concerns(tr[j], p) && !Grants(tr[j], p);
      var i: nat :| GrantedAt(tr, i, p);
      assert j < i && tr[i] == PublishRestored(p);
    }
    if RestoredBetween(tr, j, |tr|, p) {
      var k :| 0 <= k < |tr| && j < k < |tr| && tr[k] == PublishRestored(p);
      var last := LastRestored(tr, k, p);
      assert GrantedAt(tr, last, p);
      assert Justified(DigestOf(tr), Bound(p, Retry, DigestOf(tr).outstanding[p], Absent));
    }
  }

  lemma LastRestored(tr: seq<Event>, k: nat, p: string) returns (last: nat)
    requires k < |tr| && tr[k] == PublishRestored(p)
    ensures k <= last < |tr| && tr[last] == PublishRestored(p) && forall i | last < i < |tr| :: tr[i] != PublishRestored(p)
    decreases |tr| - k
  {
    if i :| k < i < |tr| && tr[i] == PublishRestored(p) {
      last := LastRestored(tr, i, p);
    } else {
      last := k;
    }
  }

  // ----- what disciplined logs guarantee -----

  /** Over every run, a recovery unmounts a bind only after it has restaged the volume. */
  lemma UnbindsOnlyAfterRestage(tr: seq<Event>, i: nat)
    requires Disciplined(tr) && i < |tr| && tr[i].Unbinding? && tr[i].actor.Recovery?
    ensures Restaged(Recovery) in SinceBegun(tr[..i])
  {
    assert Justified(DigestOf(tr[..i]), tr[i]);
    DigestMeans(tr[..i], tr[i].path);
  }

  /**
   Over every run, a mount that a recovery stops, detaches, cleans or displaces although it serves,
   other than a hung one, was first mounted after everything that had observed the path: after the
   recheck that confirmed it dead, after the mount table guard if it could read the table, after the
   detach, after the last look at the mount table if that could be read.
   */
  lemma TeardownSparesServingMounts(tr: seq<Event>, i: nat)
    requires Disciplined(tr) && i < |tr|
    ensures (tr[i].ManagerUnmount? || tr[i].Detached?) && tr[i].bound == 0 && tr[i].mount.Serving? ==>
              AppearedUnobserved(tr[..i], tr[i].mount.epoch)
    ensures tr[i].Cleaned? && !tr[i].mount.Absent? ==> AppearedUnobserved(tr[..i], tr[i].mount.epoch)
    ensures tr[i].Displaced? && tr[i].actor.Recovery? && !tr[i].mount.Absent? ==> AppearedUnobserved(tr[..i], tr[i].mount.epoch)
  {
    assert Justified(DigestOf(tr[..i]), tr[i]);
    if tr[i].ManagerUnmount? || tr[i].Detached? || tr[i].Cleaned? || tr[i].Displaced? {
      if !tr[i].mount.Absent? {
        AppearedMeans(tr[..i], tr[i].mount.epoch);
      }
    }
  }

  /** The order of a teardown, over every run: each step follows the one that permits it. */
  lemma TeardownIsOrdered(tr: seq<Event>, i: nat)
    requires Disciplined(tr) && i < |tr|
    ensures var e, last := tr[i], n => if n > 0 then FromEnd(Acts(tr[..i]), n) else None;
            && (e.ManagerUnmount? ==> IsConfirmation(last(1), e.bound))
            && (e.Detached? ==>
                  && last(1).Some? && last(1).value.TableChecked? && last(1).value.table != MountThere(false)
                  && IsConfirmation(last(2), e.bound))
            && (e.Cleaned? ==>
                  && last(1).Some? && last(1).value.NotReportedMounted? && last(2) == Some(ProbesReset)
                  && last(3).Some? && last(3).value.Detached?)
            && (e == Restaged(Recovery) ==>
                  && last(1).Some? && (last(1).value.Cleaned? || last(1).value.Displaced?)
                  && (last(1).value.Displaced? ==> last(2).Some? && last(2).value.Cleaned?))
  {
    assert Justified(DigestOf(tr[..i]), tr[i]);
    LastActs(tr[..i]);
  }

  /** Over every run, what a recovery binds was mounted after the path was last observed, if anything is. */
  lemma RecoveryBindsNewMounts(tr: seq<Event>, i: nat)
    requires Disciplined(tr) && i < |tr| && tr[i].Bound? && tr[i].actor.Recovery? && !tr[i].source.Absent?
    ensures AppearedUnobserved(tr[..i], tr[i].source.epoch)
  {
    assert Justified(DigestOf(tr[..i]), tr[i]);
    AppearedMeans(tr[..i], tr[i].source.epoch);
  }

  /** Over every run, a serving mount kubelet's cleanup takes answered slow, or appeared after the check. */
  lemma KubeletTakesOnlySlowMounts(tr: seq<Event>, i: nat)
    requires Disciplined(tr) && i < |tr| && tr[i].KubeletUnmounted? && tr[i].mount.Serving?
    ensures var check := FromEnd(Acts(tr[..i]), 1);
            && check.Some? && check.value.Rechecked?
            && (check.value.verdict.Slow? || AppearedUnobserved(tr[..i], tr[i].mount.epoch))
  {
    assert Justified(DigestOf(tr[..i]), tr[i]);
    LastActs(tr[..i]);
    AppearedMeans(tr[..i], tr[i].mount.epoch);
  }

  predicate Forgets(e: Event) {
    e.ProbesReset? || e == Failed(StopProcess) || e == Failed(Detach)
  }

  lemma {:induction false} StaleMeans(tr: seq<Event>)
    requires !DigestOf(tr).stale
    ensures forall j | 0 <= j < |tr| && (tr[j].ManagerUnmount? || tr[j].Detached?) ::
              exists k :: j < k < |tr| && Forgets(tr[k])
  {
    if tr != [] {
      var n := |tr| - 1;
      if !Forgets(tr[n]) {
        StaleMeans(tr[..n]);
        forall j | 0 <= j < |tr| && (tr[j].ManagerUnmount? || tr[j].Detached?)
          ensures exists k :: j < k < |tr| && Forgets(tr[k])
        {
          assert tr[..n][j] == tr[j];
          var k :| j < k < n && Forgets(tr[..n][k]);
          assert tr[k] == tr[..n][k];
        }
      }
    }
  }

  /**
   Over every run, between a recovery's stop or detach of the mount and the next recheck the probes
   in flight are forgotten, so the recheck cannot answer for the mount that is gone.
   */
  lemma RechecksNeverReuseStaleProbes(tr: seq<Event>, j: nat, i: nat)
    requires Disciplined(tr) && j < i < |tr| && tr[i].Rechecked? && (tr[j].ManagerUnmount? || tr[j].Detached?)
    ensures exists k :: j < k < i && Forgets(tr[k])
  {
    assert Justified(DigestOf(tr[..i]), tr[i]);
    StaleMeans(tr[..i]);
    assert tr[..i][j] == tr[j];
    var k :| j < k < i && Forgets(tr[..i][k]);
    assert tr[k] == tr[..i][k];
  }
}
