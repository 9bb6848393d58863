/** The restart supervisor: capped exponential backoff, reset by a stable run. */
module Supervisor {
  import opened Wrappers

  /** The longest duration, in nanoseconds. */
  const DURATION_MAX: nat := U64_RANGE * 1_000_000_000 - 1

  type Duration = d: nat | d <= DURATION_MAX

  datatype RestartPolicy = RestartPolicy(initialBackoff: Duration, maxBackoff: Duration, stableAfter: Duration)

  /** Doubled, saturating, and capped. */
  function NextBackoff(current: Duration, max: Duration): (next: Duration)
    ensures next == Min(2 * current, max)
  {
    Min(Min(2 * current, DURATION_MAX), max)
  }

  // ---- Specification ----------------------------------------------------------------------------

  /** How a turn of the loop goes: the unit runs for a while and the backoff is slept, a little late, or a
      shutdown is seen before the run, during it, or during the sleep. */
  datatype Turn =
    | Full(ran: nat, late: nat)
    | StopBefore
    | StopInRun(ran: nat)
    | StopInSleep(ran: nat, slept: nat)

  /** `starts` are the times of the runs so far, `sleeps` the backoffs that were begun. */
  datatype State = State(now: nat, restarts: nat, backoff: Duration, starts: seq<nat>, sleeps: seq<nat>, stopped: bool)

  function Initial(policy: RestartPolicy): State {
    State(0, 0, policy.initialBackoff, [], [], false)
  }

  function Settle(policy: RestartPolicy, ran: nat, backoff: Duration): Duration {
    if ran >= policy.stableAfter then policy.initialBackoff else backoff
  }

  function Step(policy: RestartPolicy, s: State, turn: Turn): State {
    if s.stopped then s
    else
      match turn
      case StopBefore => s.(stopped := true)
      case StopInRun(ran) => s.(now := s.now + ran, starts := s.starts + [s.now], stopped := true)
      case StopInSleep(ran, slept) =>
        var backoff := Settle(policy, ran, s.backoff);
        s.(now := s.now + ran + Min(slept, backoff), backoff := backoff,
           starts := s.starts + [s.now], sleeps := s.sleeps + [backoff], stopped := true)
      case Full(ran, late) =>
        var backoff := Settle(policy, ran, s.backoff);
        State(s.now + ran + backoff + late, s.restarts + 1, NextBackoff(backoff, policy.maxBackoff),
              s.starts + [s.now], s.sleeps + [backoff], false)
  }

  function Run(policy: RestartPolicy, turns: seq<Turn>): State {
    if turns == [] then Initial(policy)
    else Step(policy, Run(policy, turns[..|turns| - 1]), turns[|turns| - 1])
  }

  // ---- The loop ---------------------------------------------------------------------------------

  method Supervise(policy: RestartPolicy, turns: seq<Turn>)
    returns (restarts: nat, starts: seq<nat>, sleeps: seq<nat>)
    ensures var s := Run(policy, turns); restarts == s.restarts && starts == s.starts && sleeps == s.sleeps
  {
    restarts, starts, sleeps := 0, [], [];
    var backoff: Duration, now: nat, i := policy.initialBackoff, 0, 0;
    while i < |turns|
      invariant i <= |turns|
      invariant Run(policy, turns[..i]) == State(now, restarts, backoff, starts, sleeps, false)
    {
      var turn := turns[i];
      i := i + 1;
      assert turns[..i][..i - 1] == turns[..i - 1];
      if turn.StopBefore? {
        StoppedStays(policy, turns, i);
        return;
      }
      starts := starts + [now];
      if turn.StopInRun? {
        StoppedStays(policy, turns, i);
        return;
      }
      if turn.ran >= policy.stableAfter {
        backoff := policy.initialBackoff;
      }
      sleeps := sleeps + [backoff];
      if turn.StopInSleep? {
        StoppedStays(policy, turns, i);
        return;
      }
      now := now + turn.ran + backoff + turn.late;
      restarts := restarts + 1;
      backoff := NextBackoff(backoff, policy.maxBackoff);
    }
    assert turns[..i] == turns;
  }

  lemma {:induction false} StoppedStays(policy: RestartPolicy, turns: seq<Turn>, i: nat)
    requires i <= |turns| && Run(policy, turns[..i]).stopped
    ensures Run(policy, turns) == Run(policy, turns[..i])
    decreases |turns|
  {
    if i == |turns| {
      assert turns[..i] == turns;
    } else {
      var before := turns[..|turns| - 1];
      assert before[..i] == turns[..i];
      StoppedStays(policy, before, i);
    }
  }

  // ---- Turn by turn -----------------------------------------------------------------------------

  /** The first run starts at once. A run starts when its turn comes, unless a shutdown is seen before it; a run at
      least as long as the stable time sets the backoff back; the backoff is slept, unless a shutdown ends the run,
      and then doubled, within its cap. */
  lemma TurnTaken(policy: RestartPolicy, turns: seq<Turn>, turn: Turn)
    ensures Run(policy, []) == State(0, 0, policy.initialBackoff, [], [], false)
    ensures var s, s' := Run(policy, turns), Run(policy, turns + [turn]);
      if s.stopped then s' == s
      else
        match turn
        case StopBefore => s' == s.(stopped := true)
        case StopInRun(ran) => s' == s.(now := s.now + ran, starts := s.starts + [s.now], stopped := true)
        case StopInSleep(ran, slept) =>
          var backoff := if ran >= policy.stableAfter then policy.initialBackoff else s.backoff;
          && s'.stopped && s'.starts == s.starts + [s.now] && s'.sleeps == s.sleeps + [backoff]
          && s'.restarts == s.restarts && s.now + ran <= s'.now <= s.now + ran + backoff
        case Full(ran, late) =>
          var backoff := if ran >= policy.stableAfter then policy.initialBackoff else s.backoff;
          && !s'.stopped && s'.starts == s.starts + [s.now] && s'.sleeps == s.sleeps + [backoff]
          && s'.restarts == s.restarts + 1 && s'.now == s.now + ran + backoff + late
          && s'.backoff == if 2 * backoff <= policy.maxBackoff then 2 * backoff else policy.maxBackoff
  {
    assert (turns + [turn])[..|turns|] == turns;
    assert Run(policy, turns + [turn]) == Step(policy, Run(policy, turns), turn);
    assert Run(policy, []) == State(0, 0, policy.initialBackoff, [], [], false);
    hide Run;
  }

  // ---- The schedule -----------------------------------------------------------------------------

  function Pow2(n: nat): (p: nat)
    ensures p > 0
  {
    if n == 0 then 1 else 2 * Pow2(n - 1)
  }

  /** The backoff after r restarts since the last reset. The first one is not capped. */
  function Backoff(policy: RestartPolicy, r: nat): nat {
    if r == 0 then policy.initialBackoff else Min(policy.initialBackoff * Pow2(r), policy.maxBackoff)
  }

  /** Restarts since the last reset, seen from the sleep of turn n: a stable run resets it. */
  function SinceReset(policy: RestartPolicy, turns: seq<Turn>, n: nat): nat
    requires n < |turns|
  {
    if n == 0 || turns[n].StopBefore? || turns[n].ran >= policy.stableAfter then 0
    else SinceReset(policy, turns, n - 1) + 1
  }

  lemma DoubledBackoff(policy: RestartPolicy, r: nat, b: Duration)
    requires b == Backoff(policy, r)
    ensures NextBackoff(b, policy.maxBackoff) == Backoff(policy, r + 1)
  {
    assert policy.initialBackoff * Pow2(r + 1) == 2 * (policy.initialBackoff * Pow2(r)) by {
      assert Pow2(r + 1) == 2 * Pow2(r);
    }
  }

  /** As long as it was not stopped, every turn was a full one. */
  lemma {:induction false} RunningMeansFull(policy: RestartPolicy, turns: seq<Turn>)
    requires !Run(policy, turns).stopped
    ensures forall i | 0 <= i < |turns| :: turns[i].Full?
    ensures var s := Run(policy, turns); |s.sleeps| == |s.starts| == s.restarts == |turns|
  {
    if turns != [] {
      RunningMeansFull(policy, turns[..|turns| - 1]);
    }
  }

  lemma {:induction false} SinceResetOfPrefix(policy: RestartPolicy, turns: seq<Turn>, m: nat, n: nat)
    requires n < m <= |turns|
    ensures SinceReset(policy, turns[..m], n) == SinceReset(policy, turns, n)
  {
    if n > 0 {
      SinceResetOfPrefix(policy, turns, m, n - 1);
    }
  }

  /** The backoff slept in the last turn. */
  lemma {:induction false} SettledBackoff(policy: RestartPolicy, turns: seq<Turn>)
    requires turns != [] && !turns[|turns| - 1].StopBefore? && !Run(policy, turns[..|turns| - 1]).stopped
    ensures var n := |turns| - 1;
      Settle(policy, turns[n].ran, Run(policy, turns[..n]).backoff) == Backoff(policy, SinceReset(policy, turns, n))
    decreases |turns|
  {
    var n := |turns| - 1;
    var before := turns[..n];
    BackoffZero(policy);
    if n > 0 {
      SinceResetOfPrefix(policy, turns, n, n - 1);
      RunningMeansFull(policy, before);
      var first := before[..n - 1];
      assert Run(policy, before) == Step(policy, Run(policy, first), before[n - 1]);
      assert !Run(policy, first).stopped;
      SettledBackoff(policy, before);
      hide Backoff, Run;
      DoubledBackoff(policy, SinceReset(policy, before, n - 1),
                     Settle(policy, before[n - 1].ran, Run(policy, first).backoff));
    }
  }

  lemma BackoffZero(policy: RestartPolicy)
    ensures Backoff(policy, 0) == policy.initialBackoff
  {
  }

  /** Every sleep is the backoff for the restarts since the last stable run. */
  lemma {:induction false} SleepsFollowSchedule(policy: RestartPolicy, turns: seq<Turn>)
    ensures var s := Run(policy, turns);
      && |s.sleeps| <= |turns|
      && forall n | 0 <= n < |s.sleeps| :: s.sleeps[n] == Backoff(policy, SinceReset(policy, turns, n))
  {
    if turns != [] {
      var m := |turns| - 1;
      var before := turns[..m];
      var s, s' := Run(policy, before), Run(policy, turns);
      SleepsFollowSchedule(policy, before);
      forall n | 0 <= n < |s'.sleeps| ensures s'.sleeps[n] == Backoff(policy, SinceReset(policy, turns, n)) {
        if n < |s.sleeps| {
          SinceResetOfPrefix(policy, turns, m, n);
        } else {
          LastSleep(policy, turns);
        }
      }
    }
  }

  lemma SleepIsSettled(policy: RestartPolicy, s: State, turn: Turn)
    requires !s.stopped && |Step(policy, s, turn).sleeps| > |s.sleeps|
    ensures !turn.StopBefore? && Step(policy, s, turn).sleeps == s.sleeps + [Settle(policy, turn.ran, s.backoff)]
  {
  }

  lemma LastSleep(policy: RestartPolicy, turns: seq<Turn>)
    requires turns != []
    requires var s := Run(policy, turns[..|turns| - 1]); !s.stopped && |Run(policy, turns).sleeps| > |s.sleeps|
    ensures var n := |turns| - 1;
      var s := Run(policy, turns);
      |s.sleeps| == n + 1 && s.sleeps[n] == Backoff(policy, SinceReset(policy, turns, n))
  {
    hide Backoff, Step, SinceReset;
    var n := |turns| - 1;
    RunningMeansFull(policy, turns[..n]);
    SleepIsSettled(policy, Run(policy, turns[..n]), turns[n]);
    SettledBackoff(policy, turns);
  }

  /** The backoff is the doubled initial one, capped, at every turn, if and only if the initial one is within
      the cap. */
  lemma ScheduleIsCappedDoubling(policy: RestartPolicy)
    ensures (forall r: nat :: Backoff(policy, r) == Min(policy.initialBackoff * Pow2(r), policy.maxBackoff))
       <==> policy.initialBackoff <= policy.maxBackoff
  {
    assert policy.initialBackoff * Pow2(0) == policy.initialBackoff;
    if forall r: nat :: Backoff(policy, r) == Min(policy.initialBackoff * Pow2(r), policy.maxBackoff) {
      assert Backoff(policy, 0) == Min(policy.initialBackoff * Pow2(0), policy.maxBackoff);
    }
  }

  function Sum(xs: seq<nat>): nat {
    if xs == [] then 0 else Sum(xs[..|xs| - 1]) + xs[|xs| - 1]
  }

  /** No run starts before the sleeps before it are over. */
  lemma {:induction false} StartsWaitForSleeps(policy: RestartPolicy, turns: seq<Turn>)
    ensures var s := Run(policy, turns);
      && |s.sleeps| <= |s.starts| <= |s.sleeps| + 1
      && (!s.stopped ==> |s.starts| == |s.sleeps| && s.now >= Sum(s.sleeps))
      && forall n | 0 <= n < |s.starts| :: s.starts[n] >= Sum(s.sleeps[..n])
  {
    if turns != [] {
      var s, s' := Run(policy, turns[..|turns| - 1]), Run(policy, turns);
      StartsWaitForSleeps(policy, turns[..|turns| - 1]);
      forall n | 0 <= n < |s'.starts| ensures s'.starts[n] >= Sum(s'.sleeps[..n]) {
        if n < |s.starts| {
          assert s'.sleeps[..n] == s.sleeps[..n];
        } else {
          assert s'.sleeps[..n] == s.sleeps;
        }
      }
      if |s'.sleeps| > |s.sleeps| {
        assert s'.sleeps[..|s'.sleeps| - 1] == s.sleeps;
      }
    }
  }

  /** How often the unit was restarted, as reported: one less than it ran if it was stopped in a run or in the
      sleep after it, and as often as it ran if it was stopped between a sleep and the next run. */
  lemma RestartsAreCounted(policy: RestartPolicy, turns: seq<Turn>, i: nat)
    requires i < |turns| && !Run(policy, turns[..i]).stopped && Run(policy, turns[..i + 1]).stopped
    ensures var s := Run(policy, turns);
      && |s.starts| == s.restarts + (if turns[i].StopBefore? then 0 else 1)
      && s.restarts == i
  {
    StoppedStays(policy, turns, i + 1);
    RunningMeansFull(policy, turns[..i]);
    assert turns[..i + 1][..i] == turns[..i];
  }
}
