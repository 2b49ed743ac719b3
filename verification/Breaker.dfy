/** The circuit breaker never holds back what the cooldown would let through. */
module Breaker {
  import opened Int32
  import opened Hysteresis
  import opened PolicyApi
  import opened Gates
  import opened Remediation
  import opened Reconcile
  import opened Examples

  /** The same inputs but for MaxConsecutiveAttempts. */
  predicate DifferInMax(e: Env, f: Env) {
    f == e.(spec := e.spec.(maxConsecutiveAttempts := f.spec.maxConsecutiveAttempts))
  }

  /** Everything remembered but the reported conditions. */
  predicate SameMemory(a: Status, b: Status) {
    a.attempts == b.attempts && a.last == b.last && a.observedGeneration == b.observedGeneration
  }

  /** Only here can the breaker hold back what the cooldown would let through. */
  predicate ClockBeforeLast(st: Status, env: Env) {
    env.spec.cooldownSeconds <= 0 && st.last.Some? && env.now - st.last.value.time < env.spec.cooldownSeconds
  }

  /** The breaker's gate and the cooldown's hold the same things back. */
  predicate SameHold(g: Gate, h: Gate) {
    g == h || ((g.CircuitOpen? || g.CoolingDown?) && (h.CircuitOpen? || h.CoolingDown?))
  }

  lemma HoldsAgree(a: Status, b: Status, e: Env, f: Env)
    requires SameMemory(a, b) && DifferInMax(e, f) && !ClockBeforeLast(a, e)
    ensures SameHold(Decision(a, e), Decision(b, f))
    ensures PreludeOf(e) == PreludeOf(f) && Calls(e) == Calls(f)
  {
  }

  function WithMax(env: Env, m: int32): Env {
    env.(spec := env.spec.(maxConsecutiveAttempts := m))
  }

  /** No gate before the breaker holds the reconcile back. */
  predicate ReachesBreaker(env: Env) {
    var u := |Unhealthy(env.snapshot)|;
    && !DeadlineExceeded(env.dep) && u > 0 && !IsSystemic(u, |env.snapshot|, env.spec.skipPercent)
    && (RequiresStable(env.spec) ==> DeploymentStable(env.dep))
  }

  /**
    The value of MaxConsecutiveAttempts can change whether a reconcile acts if and only if
    it reaches the breaker with between 1 and MAX - 1 attempts, a cooldown that is not
    positive, and a clock reading earlier than the last remediation plus that cooldown.
   */
  lemma BreakerMattersIff(st: Status, env: Env)
    ensures (exists m: int32, n: int32 :: !SameHold(Decision(st, WithMax(env, m)), Decision(st, WithMax(env, n))))
            <==> ReachesBreaker(env) && ClockBeforeLast(st, env) && 1 <= st.attempts < MAX
  {
    if ReachesBreaker(env) && ClockBeforeLast(st, env) && 1 <= st.attempts < MAX {
      assert Decision(st, WithMax(env, 1)).CircuitOpen?;
      assert Decision(st, WithMax(env, MAX)).Act?;
      assert !SameHold(Decision(st, WithMax(env, 1)), Decision(st, WithMax(env, MAX)));
    } else {
      forall m: int32, n: int32
        ensures SameHold(Decision(st, WithMax(env, m)), Decision(st, WithMax(env, n)))
      {
        MaxIrrelevant(st, env, m, n);
      }
    }
  }

  lemma MaxIrrelevant(st: Status, env: Env, m: int32, n: int32)
    requires !(ReachesBreaker(env) && ClockBeforeLast(st, env) && 1 <= st.attempts < MAX)
    ensures SameHold(Decision(st, WithMax(env, m)), Decision(st, WithMax(env, n)))
  {
    if !ClockBeforeLast(st, env) {
      HoldsAgree(st, st, WithMax(env, m), WithMax(env, n));
    }
  }

  /** What an outcome shows apart from conditions, gauge and branch. */
  predicate SameEffect(o: Outcome, p: Outcome) {
    && o.actions == p.actions && o.result == p.result && o.err == p.err && o.calls == p.calls
    && SameMemory(o.status, p.status)
  }

  lemma RemedyIgnoresMax(e: Env, f: Env, strategy: Strategy)
    requires DifferInMax(e, f) && Unhealthy(e.snapshot) != []
    ensures Remediate(strategy, Unhealthy(e.snapshot), e.spec, e.now, e.patch, e.deletes)
         == Remediate(strategy, Unhealthy(f.snapshot), f.spec, f.now, f.patch, f.deletes)
  {
  }

  lemma GuardIgnoresMax(a: Status, b: Status, e: Env, f: Env, cfg: ProbeConfig)
    requires SameMemory(a, b) && DifferInMax(e, f) && SameHold(Decision(a, e), Decision(b, f)) && Calls(e) == Calls(f)
    ensures SameEffect(Guard(a, e, cfg), Guard(b, f, cfg))
  {
    if Decision(a, e).Act? {
      assert Unhealthy(e.snapshot) != [];
      RemedyIgnoresMax(e, f, Decision(a, e).strategy);
    }
    hide Calls;
    hide GateOf;
    hide Unhealthy;
    hide Remediate;
  }

  lemma StepIgnoresMax(a: Status, b: Status, e: Env, f: Env)
    requires SameMemory(a, b) && DifferInMax(e, f) && !ClockBeforeLast(a, e)
    ensures SameEffect(Step(a, e), Step(b, f))
  {
    HoldsAgree(a, b, e, f);
    hide Calls;
    hide Decision;
    hide PreludeOf;
    hide Guard;
    if PreludeOf(e).Ready? {
      GuardIgnoresMax(a, b, e, f, PreludeOf(e).cfg);
    }
  }

  predicate RunsDifferInMax(es: seq<Env>, fs: seq<Env>) {
    |es| == |fs| && forall i :: 0 <= i < |es| ==> DifferInMax(es[i], fs[i])
  }

  /** At no reconcile does the clock read before the stored remediation (or cooldown is positive). */
  predicate ClockSane(st: Status, es: seq<Env>) {
    forall i :: 0 <= i < |es| ==> !ClockBeforeLast(Persisted(st, es[..i]), es[i])
  }

  lemma {:induction false} MemoryIgnoresMax(st: Status, es: seq<Env>, fs: seq<Env>, i: nat)
    requires RunsDifferInMax(es, fs) && ClockSane(st, es) && i <= |es|
    ensures SameMemory(Persisted(st, es[..i]), Persisted(st, fs[..i]))
  {
    hide Step;
    if i > 0 {
      MemoryIgnoresMax(st, es, fs, i - 1);
      StepIgnoresMax(Persisted(st, es[..i - 1]), Persisted(st, fs[..i - 1]), es[i - 1], fs[i - 1]);
      PersistedNext(st, es, i - 1);
      PersistedNext(st, fs, i - 1);
    }
  }

  /**
    Runs that differ only in MaxConsecutiveAttempts act alike, count alike, remember alike
    and ask for the same delays; the breaker changes only what is reported.
   */
  lemma BreakerAbsorbedByCooldown(st: Status, es: seq<Env>, fs: seq<Env>, i: nat)
    requires RunsDifferInMax(es, fs) && ClockSane(st, es) && i < |es|
    ensures SameEffect(OutcomeAt(st, es, i), OutcomeAt(st, fs, i))
  {
    hide Step;
    MemoryIgnoresMax(st, es, fs, i);
    StepIgnoresMax(Persisted(st, es[..i]), Persisted(st, fs[..i]), es[i], fs[i]);
  }

  /** A positive cooldown is enough, whatever the clock does. */
  lemma PositiveCooldownSuffices(st: Status, es: seq<Env>)
    requires forall i :: 0 <= i < |es| ==> es[i].spec.cooldownSeconds > 0
    ensures ClockSane(st, es)
  {
  }

  /** The example with no cooldown and a maximum of one: at its remediation, and with the clock set back. */
  const CLOCK_SET_BACK := [WithMax(Example(10, 0, 1), 1), WithMax(Example(10, 0, 0), 1)]

  /** An input where the maximum matters: after that remediation, at the earlier clock reading. */
  lemma MaxMattersWhenClockSetBack()
    ensures Logged(OutcomeAt(NO_STATUS, CLOCK_SET_BACK, 0))
    ensures var st, env := Persisted(NO_STATUS, CLOCK_SET_BACK[..1]), CLOCK_SET_BACK[1];
            && st.attempts == 1 && st.last.Some? && st.last.value.time == 1
            && Decision(st, env) == CircuitOpen && Decision(st, WithMax(env, 2)) == Act(RolloutRestart)
            && PreludeOf(env).Ready? && ReachesBreaker(env) && ClockBeforeLast(st, env)
  {
    var envs := CLOCK_SET_BACK;
    PersistedNext(NO_STATUS, envs, 0);
    assert envs[..0] == [] && Persisted(NO_STATUS, envs[..0]) == NO_STATUS;
    ExampleReady(10, 0, 1);
    ExampleReady(10, 0, 0);
    assert PreludeOf(envs[0]) == PreludeOf(Example(10, 0, 1)) && PreludeOf(envs[1]) == PreludeOf(Example(10, 0, 0));
    hide PreludeOf;
    hide Unhealthy;
    hide DeploymentStable;
    hide DeadlineExceeded;
    hide Calls;
    assert Decision(NO_STATUS, envs[0]) == Act(RolloutRestart);
  }
}
