/**
  The reconciler in its own imperative form: a fetched HotSwapPolicy object whose status
  is changed field by field and finally written back. `Reconcile` is proved to be the
  Step that all run properties are about.
 */
module Reconciler {
  import opened Options
  import opened Int32
  import opened Hysteresis
  import ProberTable
  import opened PolicyApi
  import Conditions
  import opened Gates
  import Guardian
  import opened Remediation
  import opened Reconcile

  method CollectTargets(pods: seq<Pod>) returns (targets: seq<ProberTable.Target>)
    ensures targets == Targets(pods)
  {
    targets := [];
    for i := 0 to |pods|
      invariant targets == Targets(pods[..i])
    {
      assert pods[..i + 1][..i] == pods[..i];
      if pods[i].terminating {
        assert Targets(pods[..i + 1]) == Targets(pods[..i]);
        continue;
      }
      targets := targets + [ProberTable.Target(pods[i].name, pods[i].uid, pods[i].ip)];
    }
    assert pods[..|pods|] == pods;
  }

  /** isPodReady's search loop: the first Ready condition decides. */
  method IsPodReady(cs: seq<PodCondition>) returns (ready: bool)
    ensures ready == PodReady(cs)
  {
    for i := 0 to |cs|
      invariant PodReady(cs) == PodReady(cs[i..])
    {
      if cs[i].kind == "Ready" {
        return cs[i].status == "True";
      }
      assert cs[i..][1..] == cs[i + 1..];
    }
    return false;
  }

  method CollectReady(k: string, pods: seq<Pod>) returns (calls: seq<ProberTable.Event>)
    ensures calls == ReadyCalls(k, pods)
  {
    calls := [];
    for i := 0 to |pods|
      invariant calls == ReadyCalls(k, pods[..i])
    {
      assert pods[..i + 1][..i] == pods[..i];
      var ready := IsPodReady(pods[i].conditions);
      if ready {
        calls := calls + [ProberTable.SetSeenReady(k, pods[i].uid)];
      }
    }
    assert pods[..|pods|] == pods;
  }

  /** The calls on the prober that lead up to the snapshot, as the source's loops make them. */
  method ProberCalls(k: string, cfg: ProbeConfig, pods: seq<Pod>) returns (calls: seq<ProberTable.Event>)
    ensures calls == [ProberTable.Sync(k, cfg, Targets(pods))] + ReadyCalls(k, pods)
  {
    var targets := CollectTargets(pods);
    var ready := CollectReady(k, pods);
    calls := [ProberTable.Sync(k, cfg, targets)] + ready;
  }

  class HotSwapPolicy {
    var attempts: int32
    var last: Option<Record>
    var conditions: seq<Condition>
    var observedGeneration: int

    function Value(): Status
      reads this
    {
      Status(attempts, last, conditions, observedGeneration)
    }

    constructor (st: Status)
      ensures Value() == st
    {
      attempts, last, conditions, observedGeneration := st.attempts, st.last, st.conditions, st.observedGeneration;
    }

    method MarkHealthy(generation: int)
      modifies this`conditions
      ensures conditions == Conditions.SetHealthy(old(conditions), generation)
    {
      conditions := Conditions.Set(conditions, Condition(HEALTHY, true, "AllHealthy", generation));
      conditions := Conditions.Remove(conditions, REMEDIATING);
      conditions := Conditions.Remove(conditions, DEGRADED);
    }

    method MarkRemediating(generation: int)
      modifies this`conditions
      ensures conditions == Conditions.SetRemediating(old(conditions), generation)
    {
      conditions := Conditions.Set(conditions, Condition(REMEDIATING, true, "Remediating", generation));
      conditions := Conditions.Set(conditions, Condition(HEALTHY, false, "Remediating", generation));
      conditions := Conditions.Remove(conditions, DEGRADED);
    }

    method MarkDegraded(reason: string, generation: int)
      modifies this`conditions
      ensures conditions == Conditions.SetDegraded(old(conditions), reason, generation)
    {
      conditions := Conditions.Set(conditions, Condition(DEGRADED, true, reason, generation));
      conditions := Conditions.Set(conditions, Condition(HEALTHY, false, reason, generation));
      conditions := Conditions.Remove(conditions, REMEDIATING);
    }

    /** `remediate`: act, then record the attempt; an error leaves the status alone. */
    method Remediate(env: Env, strategy: Strategy, us: seq<ProberTable.PodState>)
      returns (actions: seq<Action>, err: bool)
      requires us != []
      modifies this
      ensures var r := Remediation.Remediate(strategy, us, env.spec, env.now, env.patch, env.deletes);
              && actions == r.actions && err == r.failed
              && Value() == if err then old(Value()) else WithRecord(old(Value()), env, strategy, r.podName)
    {
      var actedPod := "";
      actions, err := [], false;
      match strategy {
        case RolloutRestart =>
          if !env.spec.dryRun {
            if !env.patch.Ok? {
              return [], true;
            }
            actions := [Restart(env.now)];
          }
          actedPod := us[0].name;
        case DeletePod =>
          var limit := env.spec.maxConcurrent;
          if limit <= 0 {
            limit := 1;
          }
          var sweep := Sweeping(us, limit, env.deletes, env.spec.dryRun);
          if sweep.failed {
            return sweep.actions, true;
          }
          actions := sweep.actions;
          actedPod := sweep.podName;
        case _ =>
      }
      attempts := Increment(attempts);
      last := Some(Record(actedPod, strategy, env.now, Reason(env.spec.dryRun)));
      MarkRemediating(env.generation);
    }

    /** `finish`: the status update. `stored` is what the API server holds so far. */
    method WriteBack(
      env: Env, stored: Status, branch: Branch, after: int, actions: seq<Action>, circuit: Option<bool>,
      calls: seq<ProberTable.Event>)
      returns (o: Outcome)
      modifies this`observedGeneration
      ensures o == Finish(stored, env, branch, old(Value()), after, actions, circuit).(calls := calls)
    {
      observedGeneration := env.generation;
      if !env.writeStatus {
        return Outcome(branch, stored, NO_REQUEUE, true, actions, circuit, calls);
      }
      o := Outcome(branch, Value(), Result(false, after), false, actions, circuit, calls);
    }

    /** The reconcile from its snapshot on: the gates, then the action. */
    method Guarded(env: Env, cfg: ProbeConfig, calls: seq<ProberTable.Event>) returns (o: Outcome)
      modifies this
      ensures o == Guard(old(Value()), env, cfg).(calls := calls)
    {
      var stored := Value();
      var unhealthy := SelectUnhealthy(env.snapshot);
      var u, n, spec := |unhealthy|, |env.snapshot|, env.spec;
      var stalled := ProgressDeadlineExceeded(env.dep);
      if stalled {
        MarkDegraded("RolloutStalled", env.generation);
        o := WriteBack(env, stored, Gated(RolloutStalled), cfg.period, [], None, calls);
        return;
      }
      if u == 0 {
        attempts := 0;
        MarkHealthy(env.generation);
        o := WriteBack(env, stored, Gated(AllHealthy), cfg.period, [], Some(false), calls);
        return;
      }
      if IsSystemic(u, n, spec.skipPercent) {
        MarkDegraded("SystemicFailure", env.generation);
        o := WriteBack(env, stored, Gated(Systemic), cfg.period, [], None, calls);
        return;
      }
      if RequiresStable(spec) && !DeploymentStable(env.dep) {
        MarkRemediating(env.generation);
        o := WriteBack(env, stored, Gated(AwaitStable), cfg.period, [], None, calls);
        return;
      }
      o := Acting(env, cfg, unhealthy, calls);
    }

    /** Breaker, cooldown, and the remediation itself. */
    method Acting(
      env: Env, cfg: ProbeConfig, unhealthy: seq<ProberTable.PodState>, calls: seq<ProberTable.Event>)
      returns (o: Outcome)
      requires unhealthy == Unhealthy(env.snapshot) != []
      requires Decision(Value(), env).CircuitOpen? || Decision(Value(), env).CoolingDown? || Decision(Value(), env).Act?
      modifies this
      ensures o == Guard(old(Value()), env, cfg).(calls := calls)
    {
      var stored := Value();
      var cooldown := env.spec.cooldownSeconds;
      var maxAttempts := env.spec.maxConsecutiveAttempts;
      if maxAttempts <= 0 {
        maxAttempts := 3;
      }
      if BreakerOpen(attempts, maxAttempts, last, cooldown, env.now) {
        MarkDegraded("CircuitOpen", env.generation);
        o := WriteBack(env, stored, Gated(CircuitOpen), cooldown, [], Some(true), calls);
        return;
      }
      if CooldownActive(last, cooldown, env.now) {
        MarkRemediating(env.generation);
        o := WriteBack(env, stored, Gated(CoolingDown), cooldown, [], None, calls);
        return;
      }
      var strategy := ChooseStrategy(env.spec.strategy, EffectiveReplicas(env.dep));
      var actions, err := Remediate(env, strategy, unhealthy);
      if err {
        return Outcome(RemediateFailed(strategy), stored, NO_REQUEUE, true, actions, None, calls);
      }
      o := WriteBack(env, stored, Remediated(strategy), cfg.period, actions, None, calls);
    }

    method Reconcile(env: Env) returns (o: Outcome)
      modifies this
      ensures o == Step(old(Value()), env)
    {
      var stored := Value();
      var calls: seq<ProberTable.Event> := [];
      if !env.getPolicy.Ok? {
        return Outcome(PolicyUnread, stored, NO_REQUEUE, env.getPolicy.Failed?, [], None, calls);
      }
      if env.deleting {
        if env.hasFinalizer {
          calls := calls + [ProberTable.Forget(env.key)];
          return Outcome(Finalized, stored, NO_REQUEUE, !env.updatePolicy, [], None, calls);
        }
        return Outcome(Finalized, stored, NO_REQUEUE, false, [], None, calls);
      }
      if !env.hasFinalizer {
        return Outcome(FinalizerAdded, stored, Result(env.updatePolicy, 0), !env.updatePolicy, [], None, calls);
      }
      var cfg := NormalizeProbe(env.probe);
      if cfg.None? {
        MarkDegraded("InvalidProbe", env.generation);
        o := WriteBack(env, stored, InvalidProbe, 0, [], None, calls);
        return;
      }
      if env.getDeployment.NotFound? {
        calls := calls + [ProberTable.Forget(env.key)];
        MarkDegraded("TargetNotFound", env.generation);
        o := WriteBack(env, stored, TargetNotFound, 30, [], None, calls);
        return;
      }
      if env.getDeployment.Failed? || env.listPolicies.None? {
        return Outcome(ReadFailed, stored, NO_REQUEUE, true, [], None, calls);
      }
      var winner := Guardian.ConflictingPolicy(env.self, env.listPolicies.value);
      if winner != "" {
        calls := calls + [ProberTable.Forget(env.key)];
        MarkDegraded("ConflictingPolicy", env.generation);
        o := WriteBack(env, stored, Conflict(winner), 60, [], None, calls);
        return;
      }
      if !env.dep.selectorValid {
        MarkDegraded("TargetNotFound", env.generation);
        o := WriteBack(env, stored, BadSelector, 0, [], None, calls);
        return;
      }
      if env.listPods.None? {
        return Outcome(ReadFailed, stored, NO_REQUEUE, true, [], None, calls);
      }
      calls := ProberCalls(env.key, cfg.value, env.listPods.value);
      o := Guarded(env, cfg.value, calls);
    }
  }
}
