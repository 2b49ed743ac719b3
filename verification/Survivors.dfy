/** hotswap never deletes every replica at once, and how many it leaves. */
module Survivors {
  import opened Int32
  import ProberTable
  import opened PolicyApi
  import opened Gates
  import opened Remediation
  import opened Reconcile
  import opened Simulation
  import opened Examples

  /** What a reconcile that deletes pods has decided and deleted. */
  lemma DeletionsOfStep(st: Status, env: Env)
    requires Step(st, env).actions != [] && Step(st, env).actions[0].Delete?
    ensures var u := Unhealthy(env.snapshot);
            && !IsSystemic(|u|, |env.snapshot|, env.spec.skipPercent)
            && |Step(st, env).actions| <= |u| <= |env.snapshot|
            && Step(st, env).actions <= Existing(u, env.deletes)
  {
    hide Step;
    hide Swept;
    hide Existing;
    hide Unhealthy;
    var u := Unhealthy(env.snapshot);
    UnhealthyAreListed(env.snapshot);
    ActionsOfStep(st, env);
    SweptDeletes(u, EffectiveLimit(env.spec), env.deletes);
    SweptDry(u, EffectiveLimit(env.spec), env.deletes);
  }

  /**
    With a skip percentage in 1..100 and at least two targets, every reconcile that deletes
    pods leaves more than (100 - p) percent of the targets, hence at least one, for every
    snapshot, every MaxConcurrent and every API outcome.
   */
  lemma SomeTargetSurvives(st: Status, env: Env)
    requires 1 <= env.spec.skipPercent <= 100 && |env.snapshot| >= 2
    requires Step(st, env).actions != [] && Step(st, env).actions[0].Delete?
    ensures var total, d := |env.snapshot|, |Step(st, env).actions|;
            100 * (total - d) > (100 - env.spec.skipPercent) * total && d < total
  {
    hide Step;
    DeletionsOfStep(st, env);
    hide Unhealthy;
    hide Existing;
    Percentage(env.spec.skipPercent, |env.snapshot|, |Unhealthy(env.snapshot)|, |Step(st, env).actions|);
  }

  lemma Percentage(p: int32, total: nat, u: nat, d: nat)
    requires 1 <= p <= 100 && total >= 2 && 0 < d <= u && !IsSystemic(u, total, p)
    ensures 100 * (total - d) > (100 - p) * total && d < total
  {
    var share := p * total;
    assert (100 - p) * total == 100 * total - share;
    assert share <= 100 * total;
  }

  /** The pods deleted are unhealthy targets past their grace, still there. */
  lemma DeletionsAreUnhealthy(st: Status, env: Env, a: Action)
    requires a in Step(st, env).actions && a.Delete?
    ensures exists s :: s in env.snapshot && IsUnhealthy(s) && s.name == a.pod && DeleteResult(env.deletes, a.pod).Ok?
  {
    RestartsAndDeletesDoNotMix(st, env, a);
    DeletionsOfStep(st, env);
    var u := Unhealthy(env.snapshot);
    assert a in Existing(u, env.deletes);
    ExistingAreListed(u, env.deletes, a);
    UnhealthyAreListed(env.snapshot);
    var i :| 0 <= i < |u| && u[i].name == a.pod;
    assert u[i] in u;
  }

  predicate DistinctPods(pods: seq<ProberTable.PodState>) {
    forall i, j :: 0 <= i < j < |pods| ==> pods[i].name != pods[j].name
  }

  lemma {:induction false} UnhealthyDistinct(snapshot: seq<ProberTable.PodState>)
    requires DistinctPods(snapshot)
    ensures DistinctPods(Unhealthy(snapshot))
  {
    if snapshot != [] {
      var n := |snapshot| - 1;
      UnhealthyDistinct(snapshot[..n]);
      UnhealthyAreListed(snapshot[..n]);
      var u := Unhealthy(snapshot[..n]);
      forall i | 0 <= i < |u| ensures u[i].name != snapshot[n].name {
        assert u[i] in u;
        var j :| 0 <= j < n && snapshot[..n][j] == u[i];
        assert snapshot[j].name != snapshot[n].name;
      }
    }
  }

  /** With distinct pod names no reconcile deletes the same pod twice. */
  lemma NoPodDeletedTwice(st: Status, env: Env, i: nat, j: nat)
    requires DistinctPods(env.snapshot) && i < j < |Step(st, env).actions| && Step(st, env).actions[0].Delete?
    ensures Step(st, env).actions[i] != Step(st, env).actions[j]
  {
    hide Step;
    hide Existing;
    DeletionsOfStep(st, env);
    UnhealthyDistinct(env.snapshot);
    ExistingDistinct(Unhealthy(env.snapshot), env.deletes);
  }

  lemma RestartsAndDeletesDoNotMix(st: Status, env: Env, a: Action)
    requires a in Step(st, env).actions && a.Delete?
    ensures Step(st, env).actions[0].Delete?
  {
    hide Step;
    hide Swept;
    hide Existing;
    hide Unhealthy;
    hide Decision;
    var u := Unhealthy(env.snapshot);
    ActionsOfStep(st, env);
    SweptDeletes(u, EffectiveLimit(env.spec), env.deletes);
    if u != [] && Swept(u, EffectiveLimit(env.spec), env.deletes, false).actions != [] {
      ExistingAreListed(u, env.deletes, Swept(u, EffectiveLimit(env.spec), env.deletes, false).actions[0]);
    }
    SweptDry(u, EffectiveLimit(env.spec), env.deletes);
  }

  /** Any reconcile that changes the cluster saw an unhealthy target past its grace. */
  lemma ActionsNeedUnhealthy(st: Status, env: Env)
    requires Step(st, env).actions != []
    ensures exists s :: s in env.snapshot && IsUnhealthy(s)
  {
    var u := Unhealthy(env.snapshot);
    UnhealthyAreListed(env.snapshot);
    assert u != [];
    assert u[0] in u;
  }

  // ---------------------------------------------------------------------------
  // MaxConcurrent alone does not keep a replica
  // ---------------------------------------------------------------------------

  /** The reconcile deletes every target it knows of. */
  predicate DeletesAll(st: Status, env: Env) {
    var actions := Step(st, env).actions;
    env.snapshot != [] && |actions| == |env.snapshot| && actions[0].Delete?
  }

  /** Every gate lets the reconcile through, the systemic valve by being off. */
  predicate GatesOpen(st: Status, env: Env) {
    var spec := env.spec;
    && !DeadlineExceeded(env.dep) && ValveOff(|env.snapshot|, spec.skipPercent)
    && (RequiresStable(spec) ==> DeploymentStable(env.dep))
    && !BreakerOpen(st.attempts, EffectiveMaxAttempts(spec), st.last, spec.cooldownSeconds, env.now)
    && !CooldownActive(st.last, spec.cooldownSeconds, env.now)
  }

  /** With a single target, or a percentage outside 1..100, no share of unhealthy targets is systemic. */
  predicate ValveOff(total: nat, skipPercent: int32) {
    total < 2 || skipPercent <= 0 || skipPercent > 100
  }

  /** The remedy is a live deletion of as many pods as there are targets. */
  predicate DeletesUpToAll(env: Env) {
    && !env.spec.dryRun && ChooseStrategy(env.spec.strategy, EffectiveReplicas(env.dep)).DeletePod?
    && (env.spec.maxConcurrent >= |env.snapshot| || |env.snapshot| == 1)
  }

  /** Every target is unhealthy and past its grace, and its delete would succeed. */
  predicate AllDown(env: Env) {
    env.snapshot != [] &&
    forall i :: 0 <= i < |env.snapshot| ==>
      IsUnhealthy(env.snapshot[i]) && DeleteResult(env.deletes, env.snapshot[i].name).Ok?
  }

  lemma {:induction false} AllUnhealthy(snapshot: seq<ProberTable.PodState>)
    ensures |Unhealthy(snapshot)| <= |snapshot|
    ensures |Unhealthy(snapshot)| == |snapshot| <==> forall i :: 0 <= i < |snapshot| ==> IsUnhealthy(snapshot[i])
    ensures |Unhealthy(snapshot)| == |snapshot| ==> Unhealthy(snapshot) == snapshot
  {
    if snapshot != [] {
      var n := |snapshot| - 1;
      AllUnhealthy(snapshot[..n]);
      assert snapshot == snapshot[..n] + [snapshot[n]];
    }
  }

  lemma {:induction false} AllExisting(us: seq<ProberTable.PodState>, deletes: map<string, ApiResult>)
    ensures |Existing(us, deletes)| <= |us|
    ensures |Existing(us, deletes)| == |us| <==> forall i :: 0 <= i < |us| ==> DeleteResult(deletes, us[i].name).Ok?
  {
    if us != [] {
      var n := |us| - 1;
      AllExisting(us[..n], deletes);
      assert us == us[..n] + [us[n]];
    }
  }

  /** When the gates let a reconcile with unhealthy targets through. */
  lemma GateActsIff(st: Status, env: Env, unhealthy: nat, total: nat)
    requires unhealthy >= 1
    ensures var spec, gate := env.spec, GateOf(st, env, unhealthy, total);
            && (gate.Act? <==>
                  && !DeadlineExceeded(env.dep) && !IsSystemic(unhealthy, total, spec.skipPercent)
                  && (RequiresStable(spec) ==> DeploymentStable(env.dep))
                  && !BreakerOpen(st.attempts, EffectiveMaxAttempts(spec), st.last, spec.cooldownSeconds, env.now)
                  && !CooldownActive(st.last, spec.cooldownSeconds, env.now))
            && (gate.Act? ==> gate.strategy == ChooseStrategy(spec.strategy, EffectiveReplicas(env.dep)))
  {
    hide IsSystemic;
    hide DeploymentStable;
    hide DeadlineExceeded;
    hide BreakerOpen;
    hide CooldownActive;
  }

  /** With every target unhealthy, the gates decide on a deletion exactly as listed above. */
  lemma AllDownDecision(st: Status, env: Env)
    requires env.snapshot != [] && Unhealthy(env.snapshot) == env.snapshot
    ensures Decision(st, env).Act? <==> GatesOpen(st, env)
    ensures Decision(st, env).Act? ==>
              Decision(st, env).strategy == ChooseStrategy(env.spec.strategy, EffectiveReplicas(env.dep))
  {
    hide GateOf;
    hide Unhealthy;
    hide IsSystemic;
    hide DeploymentStable;
    hide DeadlineExceeded;
    hide BreakerOpen;
    hide CooldownActive;
    var n := |env.snapshot|;
    ValveAtFull(n, env.spec.skipPercent);
    GateActsIff(st, env, n, n);
  }

  /**
    "MaxConcurrent keeps hotswap from deleting every replica" is false. From any status and
    for any answers of the API, all targets are deleted if and only if all are unhealthy and
    exist, MaxConcurrent is large enough, and every gate is open with the systemic valve off,
    that is with one target or a skip percentage outside 1..100.
   */
  lemma AllDeletedIffValveOff(st: Status, env: Env)
    ensures DeletesAll(st, env) <==>
              PreludeOf(env).Ready? && GatesOpen(st, env) && DeletesUpToAll(env) && AllDown(env)
  {
    hide Step;
    hide Decision;
    hide PreludeOf;
    hide Unhealthy;
    hide Existing;
    hide Swept;
    hide GatesOpen;
    var us, limit := Unhealthy(env.snapshot), EffectiveLimit(env.spec);
    AllUnhealthy(env.snapshot);
    AllExisting(us, env.deletes);
    ActionsOfStep(st, env);
    SweptDeletes(us, limit, env.deletes);
    SweptDry(us, limit, env.deletes);
    if DeletesAll(st, env) {
      DeletionsOfStep(st, env);
      AllDownDecision(st, env);
    }
    if PreludeOf(env).Ready? && GatesOpen(st, env) && DeletesUpToAll(env) && AllDown(env) {
      AllDownDecision(st, env);
      assert Tolerated(us, env.deletes);
      ExistingAreListed(us, env.deletes, Existing(us, env.deletes)[0]);
    }
  }

  lemma ValveAtFull(n: nat, p: int32)
    requires n >= 1
    ensures IsSystemic(n, n, p) <==> n >= 2 && 1 <= p <= 100
  {
    if p > 100 {
      assert p * n >= 101 * n;
    } else if p >= 1 {
      assert p * n <= 100 * n;
    }
  }

  /**
    So with every skip percentage that the API admits, a policy that asks for DeletePod
    deletes the only pod of its Deployment.
   */
  lemma OnlyTargetDeleted(p: int32)
    requires 1 <= p <= 100
    ensures var env := LiveExample(DeletePod, p, 0);
            Step(NO_STATUS, env).actions == [Delete(POD.name)] && DeletesAll(NO_STATUS, env)
  {
    var env := LiveExample(DeletePod, p, 0);
    ExampleReady(10, 300, 0);
    assert PreludeOf(env) == PreludeOf(Example(10, 300, 0));
    hide PreludeOf;
    AllDeletedIffValveOff(NO_STATUS, env);
    DeletionsOfStep(NO_STATUS, env);
  }

  /** A remediation can be recorded without any deletion: exactly when no unhealthy pod is left to delete. */
  lemma RecordedWithoutActionIff(st: Status, env: Env)
    requires Step(st, env).branch == Remediated(DeletePod) && !env.spec.dryRun
    ensures Step(st, env).actions == [] <==> Existing(Unhealthy(env.snapshot), env.deletes) == []
  {
    hide Swept;
    hide Existing;
    hide Unhealthy;
    hide Calls;
    SweptDeletes(Unhealthy(env.snapshot), EffectiveLimit(env.spec), env.deletes);
  }

  /** Such an input: the only target is gone by the time its delete gets there. */
  function GoneExample(): Env {
    LiveExample(DeletePod, 50, 0).(deletes := map[POD.name := NotFound])
  }

  lemma GoneIsRecorded()
    ensures var o := Step(NO_STATUS, GoneExample());
            o.branch == Remediated(DeletePod) && !o.err && o.actions == [] && o.status.attempts == 1
  {
    var env := GoneExample();
    ExampleReady(10, 300, 0);
    assert PreludeOf(env) == PreludeOf(Example(10, 300, 0));
    hide PreludeOf;
    hide Unhealthy;
    hide DeploymentStable;
    hide DeadlineExceeded;
    hide Calls;
    assert Decision(NO_STATUS, env) == Act(DeletePod);
    var us := env.snapshot;
    assert us[..0] == [] && Swept(us, 1, env.deletes, false) == Sweep(0, "", [], false);
  }
}
