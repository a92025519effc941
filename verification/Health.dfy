/**
 The health counters of one Volume and the decision the monitor takes after each check.
 */
module Health {

  /** The tri-state outcome of a health check. */
  datatype Verdict = Healthy | Dead | Slow

  /** What the monitor does after a check. */
  datatype Decision = NoRecovery | RecoverDead | RecoverHung

  const UNHEALTHY_THRESHOLD := 3

  /** How many checks at the end of the history were not healthy. */
  function TrailingUnhealthy(history: seq<Verdict>): (n: nat)
    ensures n <= |history|
  {
    if history == [] || history[|history| - 1].Healthy? then 0
    else 1 + TrailingUnhealthy(history[..|history| - 1])
  }

  /** How many checks at the end of the history found the mount dead. */
  function TrailingDead(history: seq<Verdict>): (n: nat)
    ensures n <= |history|
  {
    if history == [] || !history[|history| - 1].Dead? then 0
    else 1 + TrailingDead(history[..|history| - 1])
  }

  /** The counters of a Volume: healthFailCount, unhealthyStreak and whether abnormal is set. */
  datatype Counters = Counters(failCount: nat, streak: nat, abnormal: bool)

  const FRESH := Counters(0, 0, false)

  /** What one check does to the counters. */
  function Counted(c: Counters, v: Verdict, unanswered: nat, hungAfter: nat): Counters {
    match v
    case Healthy => Counters(0, 0, false)
    case Slow =>
      Counters(0, c.streak + 1, c.abnormal || (c.streak + 1 >= UNHEALTHY_THRESHOLD && unanswered > hungAfter))
    case Dead =>
      var fires := c.failCount + 1 >= UNHEALTHY_THRESHOLD;
      Counters(if fires then 0 else c.failCount + 1, c.streak + 1, c.abnormal || fires)
  }

  function Decided(c: Counters, v: Verdict, unanswered: nat, hungAfter: nat): Decision {
    match v
    case Healthy => NoRecovery
    case Slow => if c.streak + 1 < UNHEALTHY_THRESHOLD || unanswered <= hungAfter then NoRecovery else RecoverHung
    case Dead => if c.failCount + 1 < UNHEALTHY_THRESHOLD then NoRecovery else RecoverDead
  }

  /** The health fields of a Volume, updated by the monitor's goroutine. */
  class VolumeHealth {
    var healthFailCount: nat
    var unhealthyStreak: nat
    var abnormal: bool

    constructor ()
      ensures Value() == FRESH
    {
      healthFailCount, unhealthyStreak, abnormal := 0, 0, false;
    }

    function Value(): Counters
      reads this
    {
      Counters(healthFailCount, unhealthyStreak, abnormal)
    }

    method NoteUnhealthy() returns (streak: nat)
      modifies this`unhealthyStreak
      ensures streak == unhealthyStreak == old(unhealthyStreak) + 1
    {
      unhealthyStreak := unhealthyStreak + 1;
      streak := unhealthyStreak;
    }

    method NoteHealthy()
      modifies this`unhealthyStreak, this`abnormal
      ensures unhealthyStreak == 0 && !abnormal
    {
      unhealthyStreak := 0;
      abnormal := false;
    }

    /** The counting and dispatching part of a check whose verdict is in. */
    method PerformVolumeHealthCheck(v: Verdict, unanswered: nat, hungAfter: nat) returns (d: Decision)
      modifies this
      ensures Value() == Counted(old(Value()), v, unanswered, hungAfter)
      ensures d == Decided(old(Value()), v, unanswered, hungAfter)
    {
      match v {
        case Slow =>
          healthFailCount := 0;
          var streak := NoteUnhealthy();
          if streak < UNHEALTHY_THRESHOLD || unanswered <= hungAfter {
            return NoRecovery;
          }
          abnormal := true;
          return RecoverHung;
        case Dead =>
          var streak := NoteUnhealthy();
          healthFailCount := healthFailCount + 1;
          if healthFailCount < UNHEALTHY_THRESHOLD {
            return NoRecovery;
          }
          healthFailCount := 0;
          abnormal := true;
          return RecoverDead;
        case Healthy =>
          healthFailCount := 0;
          NoteHealthy();
          return NoRecovery;
      }
    }
  }

  /** A check as the Volume sees it. */
  datatype Check = Check(verdict: Verdict, unanswered: nat)

  function Verdicts(checks: seq<Check>): (vs: seq<Verdict>)
    ensures |vs| == |checks|
    ensures forall i | 0 <= i < |checks| :: vs[i] == checks[i].verdict
  {
    seq(|checks|, i requires 0 <= i < |checks| => checks[i].verdict)
  }

  /** The counters after a sequence of checks of one Volume. */
  function After(checks: seq<Check>, hungAfter: nat): Counters {
    if checks == [] then FRESH
    else
      var last := checks[|checks| - 1];
      Counted(After(checks[..|checks| - 1], hungAfter), last.verdict, last.unanswered, hungAfter)
  }

  lemma VerdictsPrefix(checks: seq<Check>)
    requires checks != []
    ensures Verdicts(checks)[..|checks| - 1] == Verdicts(checks[..|checks| - 1])
  {
  }

  /**
   After any checks of one Volume the streak is the trailing run of unhealthy checks, the fail
   count is the trailing run of dead ones modulo three, and a volume is marked abnormal only
   while at least three checks in a row were unhealthy.
   */
  lemma {:induction false} CountersSummarizeHistory(checks: seq<Check>, hungAfter: nat)
    ensures After(checks, hungAfter).streak == TrailingUnhealthy(Verdicts(checks))
    ensures After(checks, hungAfter).failCount == TrailingDead(Verdicts(checks)) % UNHEALTHY_THRESHOLD
    ensures TrailingDead(Verdicts(checks)) <= TrailingUnhealthy(Verdicts(checks))
    ensures After(checks, hungAfter).abnormal ==> TrailingUnhealthy(Verdicts(checks)) >= UNHEALTHY_THRESHOLD
  {
    if checks != [] {
      CountersSummarizeHistory(checks[..|checks| - 1], hungAfter);
      VerdictsPrefix(checks);
    }
  }

  /** A check after which the monitor recovers the volume, as dead or as hung. */
  predicate Recovers(checks: seq<Check>, hungAfter: nat) {
    && checks != []
    && var history, last := Verdicts(checks), checks[|checks| - 1];
       || (TrailingDead(history) > 0 && TrailingDead(history) % UNHEALTHY_THRESHOLD == 0)
       || (last.verdict.Slow? && TrailingUnhealthy(history) >= UNHEALTHY_THRESHOLD && last.unanswered > hungAfter)
  }

  /** The check has run since the volume was last healthy. */
  predicate SinceHealthy(checks: seq<Check>, i: nat) {
    i < |checks| && forall j | i <= j < |checks| :: !checks[j].verdict.Healthy?
  }

  /** A volume is marked abnormal if and only if some check since it was last healthy has made the monitor recover it. */
  lemma {:induction false} AbnormalIffRecoveredSince(checks: seq<Check>, hungAfter: nat)
    ensures After(checks, hungAfter).abnormal <==>
            exists i: nat :: SinceHealthy(checks, i) && Recovers(checks[..i + 1], hungAfter)
  {
    if checks != [] {
      var n := |checks| - 1;
      var front := checks[..n];
      AbnormalIffRecoveredSince(front, hungAfter);
      CountersSummarizeHistory(front, hungAfter);
      VerdictsPrefix(checks);
      assert checks[..n + 1] == checks;
      forall i: nat | i < n
        ensures front[..i + 1] == checks[..i + 1]
        ensures SinceHealthy(checks, i) <==> SinceHealthy(front, i) && !checks[n].verdict.Healthy?
      {
      }
      assert SinceHealthy(checks, n) <==> !checks[n].verdict.Healthy?;
      assert Recovers(checks, hungAfter) <==>
             Decided(After(front, hungAfter), checks[n].verdict, checks[n].unanswered, hungAfter) != NoRecovery;
    }
  }

  /**
   When recovery runs: as a dead mount exactly when the trailing run of dead checks reaches a
   positive multiple of three; as a hung mount exactly when the check is slow, at least three
   checks in a row were unhealthy and the probe stayed unanswered longer than allowed.
   */
  lemma RecoveryFiresExactly(checks: seq<Check>, c: Check, hungAfter: nat)
    ensures var history := Verdicts(checks + [c]);
            var d := Decided(After(checks, hungAfter), c.verdict, c.unanswered, hungAfter);
            && (d.RecoverDead? <==> TrailingDead(history) > 0 && TrailingDead(history) % UNHEALTHY_THRESHOLD == 0)
            && (d.RecoverHung? <==>
                  c.verdict.Slow? && TrailingUnhealthy(history) >= UNHEALTHY_THRESHOLD && c.unanswered > hungAfter)
  {
    CountersSummarizeHistory(checks, hungAfter);
    VerdictsPrefix(checks + [c]);
    assert (checks + [c])[..|checks|] == checks;
  }
}
