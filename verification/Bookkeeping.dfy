/** What the persisted attempt counter, the last remediation and the breaker gauge mean. */
module Bookkeeping {
  import opened Options
  import opened Int32
  import opened PolicyApi
  import opened Gates
  import opened Remediation
  import opened Reconcile
  import opened Breaker
  import opened Examples

  /** This reconcile persisted that all targets are healthy. */
  predicate Clears(o: Outcome) {
    o.branch == Gated(AllHealthy) && !o.err
  }

  /** Remediations persisted since the last persisted all-healthy reconcile. */
  function Streak(st: Status, envs: seq<Env>): nat {
    if envs == [] then 0
    else
      var n := |envs| - 1;
      var o := OutcomeAt(st, envs, n);
      if Clears(o) then 0 else Streak(st, envs[..n]) + if Logged(o) then 1 else 0
  }

  /** Time of the last persisted remediation. */
  function LastLogged(st: Status, envs: seq<Env>): Option<int> {
    if envs == [] then None
    else
      var n := |envs| - 1;
      if Logged(OutcomeAt(st, envs, n)) then Some(envs[n].now) else LastLogged(st, envs[..n])
  }

  /** The CircuitOpen gauge after a run, from 0. */
  predicate Gauge(st: Status, envs: seq<Env>) {
    if envs == [] then false
    else
      var n := |envs| - 1;
      match OutcomeAt(st, envs, n).circuit
      case None => Gauge(st, envs[..n])
      case Some(open) => open
  }

  lemma StepCounts(st: Status, env: Env)
    ensures var o := Step(st, env);
            && o.status.attempts == (if Clears(o) then 0 else if Logged(o) then Increment(st.attempts) else st.attempts)
            && (if Logged(o) then o.status.last.Some? && o.status.last.value.time == env.now
                else o.status.last == st.last)
            && (o.circuit == Some(true) ==> st.attempts >= EffectiveMaxAttempts(env.spec) && !Logged(o) && !Clears(o))
            && (Clears(o) ==> o.circuit == Some(false))
  {
    hide Calls;
    hide Unhealthy;
    hide Swept;
    hide DeploymentStable;
    hide Normalized;
  }

  /**
    In every run from an empty status, with API failures anywhere: the persisted counter is
    the streak (modulo 2^32, so exactly it while it fits), and the persisted remediation
    is the latest one.
   */
  lemma {:induction false} AttemptsAreStreak(envs: seq<Env>)
    ensures var st := Persisted(NO_STATUS, envs);
            && st.attempts == Wrap(Streak(NO_STATUS, envs))
            && (Streak(NO_STATUS, envs) <= MAX <==> st.attempts == Streak(NO_STATUS, envs))
            && (st.last.Some? <==> LastLogged(NO_STATUS, envs).Some?)
            && (st.last.Some? ==> st.last.value.time == LastLogged(NO_STATUS, envs).value)
            && (Streak(NO_STATUS, envs) > 0 ==> st.last.Some?)
  {
    hide Step;
    WrapExact(Streak(NO_STATUS, envs));
    if envs != [] {
      var n := |envs| - 1;
      AttemptsAreStreak(envs[..n]);
      StepCounts(Persisted(NO_STATUS, envs[..n]), envs[n]);
      WrapIncrement(Streak(NO_STATUS, envs[..n]));
    }
  }

  /** An open gauge means the streak has reached the maximum, even when status writes fail. */
  lemma {:induction false} GaugeMeansMaxReached(envs: seq<Env>, m: int)
    requires forall i :: 0 <= i < |envs| ==> EffectiveMaxAttempts(envs[i].spec) == m
    ensures Gauge(NO_STATUS, envs) ==> Streak(NO_STATUS, envs) >= m
  {
    hide Step;
    if envs != [] {
      var n := |envs| - 1;
      GaugeMeansMaxReached(envs[..n], m);
      AttemptsAreStreak(envs[..n]);
      WrapExact(Streak(NO_STATUS, envs[..n]));
      StepCounts(Persisted(NO_STATUS, envs[..n]), envs[n]);
      assert EffectiveMaxAttempts(envs[n].spec) == m;
    }
  }

  /** A reconcile past its prelude, in terms of the persisted status. */
  lemma GateIff(st: Status, env: Env)
    requires PreludeOf(env).Ready?
    ensures var recent := st.last.Some? && env.now - st.last.value.time < env.spec.cooldownSeconds;
            var spent := st.attempts >= EffectiveMaxAttempts(env.spec);
            && (Step(st, env).branch == Gated(CircuitOpen) <==> ReachesBreaker(env) && recent && spent)
            && (Attempted(Step(st, env)) <==>
                  ReachesBreaker(env) && (!recent || (env.spec.cooldownSeconds <= 0 && !spent)))
  {
    hide Calls;
    hide Swept;
    hide Normalized;
    hide DeploymentStable;
    hide Unhealthy;
  }

  /**
    When a reconcile acts and when it reports the breaker open, in terms of the past alone:
    it acts exactly when it gets to the breaker and the last persisted remediation is a
    cooldown ago (or, with a cooldown that is not positive, the streak is below the
    maximum); it reports the breaker open exactly when that remediation is more recent and
    the streak (as an int32) has reached the maximum.
   */
  lemma ActsAndTripsIff(envs: seq<Env>, env: Env)
    requires PreludeOf(env).Ready?
    ensures var o := Step(Persisted(NO_STATUS, envs), env);
            var last := LastLogged(NO_STATUS, envs);
            var recent := last.Some? && env.now - last.value < env.spec.cooldownSeconds;
            var spent := Wrap(Streak(NO_STATUS, envs)) >= EffectiveMaxAttempts(env.spec);
            && (o.branch == Gated(CircuitOpen) <==> ReachesBreaker(env) && recent && spent)
            && (Attempted(o) <==> ReachesBreaker(env) && (!recent || (env.spec.cooldownSeconds <= 0 && !spent)))
  {
    hide Step;
    hide ReachesBreaker;
    AttemptsAreStreak(envs);
    GateIff(Persisted(NO_STATUS, envs), env);
  }

  /** The reconcile at `i` stopped at this gate, whether or not its status was written. */
  predicate StoppedAt(st: Status, envs: seq<Env>, i: nat, gate: Gate)
    requires i < |envs|
  {
    OutcomeAt(st, envs, i).branch == Gated(gate)
  }

  /** Some reconcile found the breaker open and none since found all targets healthy. */
  ghost predicate TrippedSinceHealthy(st: Status, envs: seq<Env>) {
    exists i :: 0 <= i < |envs| && StoppedAt(st, envs, i, CircuitOpen)
                && forall j :: i < j < |envs| ==> !StoppedAt(st, envs, j, AllHealthy)
  }

  lemma StepGauge(st: Status, env: Env)
    ensures Step(st, env).circuit ==
              if Step(st, env).branch == Gated(CircuitOpen) then Some(true)
              else if Step(st, env).branch == Gated(AllHealthy) then Some(false)
              else None
  {
    hide Calls;
    hide PreludeOf;
    hide GateOf;
    hide Remediate;
    PreludeBranches(env);
  }

  lemma PreludeBranches(env: Env)
    ensures PreludeOf(env).Ready? || !PreludeOf(env).branch.Gated?
  {
  }

  /**
    "The gauge is 1 while the breaker is open" is false (GaugeOutlivesBreaker). Exactly: it
    is 1 when the breaker was found open at some reconcile and all targets healthy at none
    since.
   */
  lemma {:induction false} GaugeIff(st: Status, envs: seq<Env>)
    ensures Gauge(st, envs) <==> TrippedSinceHealthy(st, envs)
  {
    hide Step;
    if envs != [] {
      var n := |envs| - 1;
      var p := envs[..n];
      GaugeIff(st, p);
      StepGauge(Persisted(st, p), envs[n]);
      forall i | 0 <= i < n ensures OutcomeAt(st, p, i) == OutcomeAt(st, envs, i) {
        assert p[..i] == envs[..i];
      }
      if StoppedAt(st, envs, n, CircuitOpen) {
        assert TrippedSinceHealthy(st, envs);
      } else if StoppedAt(st, envs, n, AllHealthy) {
        assert !TrippedSinceHealthy(st, envs);
      } else if TrippedSinceHealthy(st, p) {
        var i :| 0 <= i < n && StoppedAt(st, p, i, CircuitOpen)
                 && forall j :: i < j < n ==> !StoppedAt(st, p, j, AllHealthy);
        assert StoppedAt(st, envs, i, CircuitOpen);
        assert forall j :: i < j < n ==> StoppedAt(st, p, j, AllHealthy) == StoppedAt(st, envs, j, AllHealthy);
      } else if TrippedSinceHealthy(st, envs) {
        var i :| 0 <= i < |envs| && StoppedAt(st, envs, i, CircuitOpen)
                 && forall j :: i < j < |envs| ==> !StoppedAt(st, envs, j, AllHealthy);
        assert StoppedAt(st, p, i, CircuitOpen);
        assert forall j :: i < j < n ==> StoppedAt(st, p, j, AllHealthy) == StoppedAt(st, envs, j, AllHealthy);
      }
    }
  }

  /** The example under a maximum of one attempt. */
  function OneAttempt(cooldown: int32, now: int): Env {
    WithMax(Example(10, cooldown, now), 1)
  }

  lemma OneAttemptStep(st: Status, cooldown: int32, now: int)
    requires cooldown > 0 && st.attempts >= 0 && (st.last.Some? ==> st.attempts >= 1)
    ensures var o := Step(st, OneAttempt(cooldown, now));
            && o.branch == (if st.last.Some? && now - st.last.value.time < cooldown then Gated(CircuitOpen)
                            else Remediated(RolloutRestart))
            && !o.err
  {
    var env := OneAttempt(cooldown, now);
    ExampleReady(10, cooldown, now);
    assert PreludeOf(env) == PreludeOf(Example(10, cooldown, now));
    hide PreludeOf;
    hide Calls;
    hide DeploymentStable;
    hide DeadlineExceeded;
    hide Unhealthy;
    assert Decision(st, env) == if st.last.Some? && now - st.last.value.time < cooldown then CircuitOpen
                                else Act(RolloutRestart);
    hide GateOf;
  }

  /**
    A run for every positive cooldown: it acts, finds the breaker open, and acts again when
    the cooldown is over, with the gauge still at 1.
   */
  lemma GaugeOutlivesBreaker(cooldown: int32)
    requires cooldown > 0
    ensures var envs := [OneAttempt(cooldown, 0), OneAttempt(cooldown, 0), OneAttempt(cooldown, cooldown)];
            && Logged(OutcomeAt(NO_STATUS, envs, 0))
            && StoppedAt(NO_STATUS, envs, 1, CircuitOpen)
            && Logged(OutcomeAt(NO_STATUS, envs, 2)) && Gauge(NO_STATUS, envs)
  {
    hide Step;
    var e, f := OneAttempt(cooldown, 0), OneAttempt(cooldown, cooldown);
    var envs := [e, e, f];
    assert envs[..0] == [] && Persisted(NO_STATUS, envs[..0]) == NO_STATUS;
    OneAttemptStep(NO_STATUS, cooldown, 0);
    StepCounts(NO_STATUS, e);
    PersistedNext(NO_STATUS, envs, 0);
    var st := Persisted(NO_STATUS, envs[..1]);
    OneAttemptStep(st, cooldown, 0);
    StepCounts(st, e);
    PersistedNext(NO_STATUS, envs, 1);
    OneAttemptStep(Persisted(NO_STATUS, envs[..2]), cooldown, cooldown);
    GaugeIff(NO_STATUS, envs);
    assert StoppedAt(NO_STATUS, envs, 1, CircuitOpen);
  }
}
