/** The exact rhythm of remediation when a target stays unhealthy. */
module Cadence {
  import opened Int32
  import opened PolicyApi
  import opened Gates
  import opened Remediation
  import opened Reconcile
  import opened Simulation
  import opened Breaker
  import opened Examples

  /** An unhealthy target, every gate but breaker and cooldown open, and API calls that succeed. */
  predicate Open(env: Env, period: int, cooldown: int) {
    && PreludeOf(env).Ready? && PreludeOf(env).cfg.period == period
    && ReachesBreaker(env) && env.spec.cooldownSeconds == cooldown
    && Unhealthy(env.snapshot) != []
    && !RemedyOf(env, ChooseStrategy(env.spec.strategy, EffectiveReplicas(env.dep))).failed
    && env.writeStatus
  }

  /** No remediation, or one at least a cooldown ago. */
  predicate Due(st: Status, env: Env, cooldown: int) {
    st.last.None? || env.now - st.last.value.time >= cooldown
  }

  lemma PeriodPositive(env: Env, period: int, cooldown: int)
    requires Open(env, period, cooldown)
    ensures period >= 1
  {
    NormalizedIsUsable(env.probe);
  }

  /** What such a reconcile does when it is due. */
  lemma DueActs(st: Status, env: Env, period: int, cooldown: int)
    requires Open(env, period, cooldown) && Due(st, env, cooldown)
    ensures var o := Step(st, env);
            && Logged(o) && o.result == Result(false, period)
            && o.status.last.Some? && o.status.last.value.time == env.now
  {
    assert Decision(st, env) == Act(ChooseStrategy(env.spec.strategy, EffectiveReplicas(env.dep)));
    hide GateOf;
    hide PreludeOf;
    hide Remediate;
    hide ReachesBreaker;
    hide Unhealthy;
  }

  /** And when it is not, with a positive cooldown. */
  lemma NotDueWaits(st: Status, env: Env, period: int, cooldown: int)
    requires Open(env, period, cooldown) && !Due(st, env, cooldown) && cooldown > 0
    ensures var o := Step(st, env);
            !Attempted(o) && o.actions == [] && o.result == Result(false, cooldown) && o.status.last == st.last
  {
    assert Decision(st, env).CircuitOpen? || Decision(st, env).CoolingDown?;
    hide GateOf;
    hide PreludeOf;
    hide Remediate;
    hide ReachesBreaker;
    hide Unhealthy;
  }

  /** Each reconcile happens exactly when the one before asked for it. */
  predicate Paced(st: Status, envs: seq<Env>) {
    forall i :: 0 <= i < |envs| - 1 ==>
      envs[i + 1].now == envs[i].now + OutcomeAt(st, envs, i).result.requeueAfter
  }

  /** Offset of the `i`-th reconcile: every second wait is a cooldown when the period is shorter. */
  function Beat(i: nat, period: int, cooldown: int): int {
    if i == 0 then 0
    else Beat(i - 1, period, cooldown) + if period < cooldown && i % 2 == 0 then cooldown else period
  }

  lemma {:induction false} BeatClosed(k: nat, period: int, cooldown: int)
    ensures period < cooldown ==> Beat(2 * k, period, cooldown) == k * (period + cooldown)
    ensures period >= cooldown ==> Beat(k, period, cooldown) == k * period
  {
    if k > 0 {
      BeatClosed(k - 1, period, cooldown);
      if period < cooldown {
        assert Beat(2 * k, period, cooldown) == Beat(2 * k - 1, period, cooldown) + cooldown;
        assert Beat(2 * k - 1, period, cooldown) == Beat(2 * (k - 1), period, cooldown) + period;
      }
    }
  }

  predicate Steady(st: Status, envs: seq<Env>, period: int, cooldown: int) {
    && envs != [] && (forall i :: 0 <= i < |envs| ==> Open(envs[i], period, cooldown))
    && Paced(st, envs) && Due(st, envs[0], cooldown)
  }

  /** The reconcile is one that acts: every second one when the period is shorter than the cooldown. */
  predicate OnBeat(i: nat, period: int, cooldown: int) {
    period < cooldown ==> i % 2 == 0
  }

  /** How the remembered remediation stands to the clock at the `i`-th reconcile. */
  predicate InTime(s: Status, env: Env, period: int, cooldown: int, i: nat) {
    if OnBeat(i, period, cooldown) then Due(s, env, cooldown)
    else s.last.Some? && env.now - s.last.value.time == period
  }

  lemma BeatNext(s: Status, env: Env, next: Env, period: int, cooldown: int, i: nat)
    requires Open(env, period, cooldown) && InTime(s, env, period, cooldown, i)
    requires next.now == env.now + Step(s, env).result.requeueAfter
    ensures next.now - env.now == Beat(i + 1, period, cooldown) - Beat(i, period, cooldown)
    ensures InTime(Step(s, env).status, next, period, cooldown, i + 1)
  {
    hide Step;
    PeriodPositive(env, period, cooldown);
    hide Open;
    if OnBeat(i, period, cooldown) {
      DueActs(s, env, period, cooldown);
    } else {
      NotDueWaits(s, env, period, cooldown);
    }
  }

  lemma {:induction false} BeatAt(st: Status, envs: seq<Env>, period: int, cooldown: int, i: nat)
    requires Steady(st, envs, period, cooldown) && i < |envs|
    ensures envs[i].now == envs[0].now + Beat(i, period, cooldown)
    ensures InTime(Persisted(st, envs[..i]), envs[i], period, cooldown, i)
  {
    hide Step;
    hide Open;
    if i == 0 {
      assert envs[..0] == [];
    } else {
      var j := i - 1;
      BeatAt(st, envs, period, cooldown, j);
      PersistedNext(st, envs, j);
      hide InTime;
      hide Beat;
      assert envs[j + 1].now == envs[j].now + OutcomeAt(st, envs, j).result.requeueAfter;
      BeatNext(Persisted(st, envs[..j]), envs[j], envs[i], period, cooldown, j);
    }
  }

  /** What each reconcile of the schedule does; every delay it asks for is positive. */
  lemma BeatActs(st: Status, envs: seq<Env>, period: int, cooldown: int, i: nat)
    requires Steady(st, envs, period, cooldown) && i < |envs|
    ensures var o := OutcomeAt(st, envs, i);
            && (if OnBeat(i, period, cooldown) then Logged(o) else !Attempted(o) && o.actions == [])
            && o.result.requeueAfter >= 1
  {
    hide Step;
    hide Open;
    BeatAt(st, envs, period, cooldown, i);
    PeriodPositive(envs[i], period, cooldown);
    if OnBeat(i, period, cooldown) {
      DueActs(Persisted(st, envs[..i]), envs[i], period, cooldown);
    } else {
      NotDueWaits(Persisted(st, envs[..i]), envs[i], period, cooldown);
    }
  }

  /** Index of the reconcile that carries out the `k`-th remediation. */
  function RemediationIndex(k: nat, period: int, cooldown: int): nat {
    if period < cooldown then 2 * k else k
  }

  /**
    Remediation `k` happens exactly at t0 + k * gap, where gap is period + cooldown when the
    period is shorter than the cooldown and the period otherwise.
   */
  lemma ExactCadence(st: Status, envs: seq<Env>, period: int, cooldown: int, k: nat)
    requires Steady(st, envs, period, cooldown) && RemediationIndex(k, period, cooldown) < |envs|
    ensures var i := RemediationIndex(k, period, cooldown);
            var gap := if period < cooldown then period + cooldown else period;
            envs[i].now == envs[0].now + k * gap && Logged(OutcomeAt(st, envs, i))
  {
    hide Step;
    hide Open;
    hide Beat;
    hide Persisted;
    hide Steady;
    var i := RemediationIndex(k, period, cooldown);
    BeatAt(st, envs, period, cooldown, i);
    BeatActs(st, envs, period, cooldown, i);
    BeatClosed(k, period, cooldown);
  }

  /** No other reconcile of the schedule acts. */
  lemma OnlyOnCadence(st: Status, envs: seq<Env>, period: int, cooldown: int, i: nat)
    requires Steady(st, envs, period, cooldown) && i < |envs| && Attempted(OutcomeAt(st, envs, i))
    ensures exists m: nat :: i == RemediationIndex(m, period, cooldown)
  {
    hide Step;
    hide Open;
    BeatActs(st, envs, period, cooldown, i);
    var m: nat := if period < cooldown then i / 2 else i;
    assert i == RemediationIndex(m, period, cooldown);
  }

  /** The breaker is found open although the cooldown is not positive. */
  predicate TripsWithoutCooldown(st: Status, env: Env) {
    var cooldown := env.spec.cooldownSeconds;
    cooldown <= 0 && ReachesBreaker(env)
    && BreakerOpen(st.attempts, EffectiveMaxAttempts(env.spec), st.last, cooldown, env.now)
  }

  /**
    A guarding reconcile that writes its status asks to be run again, with one exception:
    exactly when it finds the breaker open under a cooldown that is not positive, it asks
    for no delay and waits for an event.
   */
  lemma WakesAgainIff(st: Status, env: Env)
    requires PreludeOf(env).Ready? && !Step(st, env).err
    ensures var after := Step(st, env).result.requeueAfter;
            && (after >= 1 <==> !TripsWithoutCooldown(st, env))
            && (after == PreludeOf(env).cfg.period || after == env.spec.cooldownSeconds)
  {
    NormalizedIsUsable(env.probe);
    hide Unhealthy;
    hide Swept;
    hide Calls;
    hide DeploymentStable;
    hide Normalized;
  }

  /** A run with that exception: the clock is set back after a remediation, and the policy sleeps. */
  lemma SleepsWhenClockSetBack()
    ensures Logged(OutcomeAt(NO_STATUS, CLOCK_SET_BACK, 0))
    ensures var o := OutcomeAt(NO_STATUS, CLOCK_SET_BACK, 1);
            && o.branch == Gated(CircuitOpen) && !o.err && o.result == NO_REQUEUE
            && TripsWithoutCooldown(Persisted(NO_STATUS, CLOCK_SET_BACK[..1]), CLOCK_SET_BACK[1])
  {
    MaxMattersWhenClockSetBack();
    hide PreludeOf;
    hide Decision;
    hide Calls;
    hide ReachesBreaker;
    hide Logged;
    hide Persisted;
  }

  // ---------------------------------------------------------------------------
  // Such schedules exist
  // ---------------------------------------------------------------------------

  lemma ExampleOpen(period: int32, cooldown: int32, now: int)
    requires period >= 1
    ensures Open(Example(period, cooldown, now), period, cooldown)
  {
    ExampleReady(period, cooldown, now);
  }

  /** For every period, cooldown and length there is a steady schedule. */
  lemma {:induction false} SteadyRunsExist(period: int32, cooldown: int32, n: nat) returns (envs: seq<Env>)
    requires period >= 1
    ensures |envs| == n + 1 && Steady(NO_STATUS, envs, period, cooldown)
    ensures forall i :: 0 <= i <= n ==> envs[i] == Example(period, cooldown, envs[i].now)
  {
    hide Step;
    hide Open;
    if n == 0 {
      envs := [Example(period, cooldown, 0)];
      ExampleOpen(period, cooldown, 0);
    } else {
      var es := SteadyRunsExist(period, cooldown, n - 1);
      var next := es[n - 1].now + OutcomeAt(NO_STATUS, es, n - 1).result.requeueAfter;
      envs := es + [Example(period, cooldown, next)];
      ExampleOpen(period, cooldown, next);
      forall i | 0 <= i < n
        ensures envs[i + 1].now == envs[i].now + OutcomeAt(NO_STATUS, envs, i).result.requeueAfter
      {
        assert envs[..i] == es[..i] && envs[i] == es[i];
        assert i < n - 1 ==> es[i + 1] == envs[i + 1];
      }
    }
  }
}
