/** When two runs of the controller are indistinguishable by what they remember and request. */
module Simulation {
  import opened Options
  import opened Hysteresis
  import opened PolicyApi
  import opened Gates
  import opened Remediation
  import opened Reconcile

  /** Same presence, time and strategy; the pod named and the reason text may differ. */
  predicate SameRemediation(a: Option<Record>, b: Option<Record>) {
    match (a, b)
    case (None, None) => true
    case (Some(x), Some(y)) => x.time == y.time && x.strategy == y.strategy
    case _ => false
  }

  predicate Agree(a: Status, b: Status) {
    && a.attempts == b.attempts && SameRemediation(a.last, b.last)
    && a.conditions == b.conditions && a.observedGeneration == b.observedGeneration
  }

  /** Same branch, request, error, gauge and prober calls, and statuses that agree. */
  predicate OutcomesAgree(o: Outcome, p: Outcome) {
    && o.branch == p.branch && o.result == p.result && o.err == p.err
    && o.circuit == p.circuit && o.calls == p.calls && Agree(o.status, p.status)
  }

  /** The two environments differ at most in the snapshot's order and the dry-run flag. */
  predicate SameButSnapshotAndDryRun(e: Env, f: Env) {
    f == e.(snapshot := f.snapshot, spec := e.spec.(dryRun := f.spec.dryRun))
  }

  /** Agreeing statuses and equal counts come to the same gate. */
  lemma SameDecision(a: Status, b: Status, e: Env, f: Env)
    requires Agree(a, b) && SameButSnapshotAndDryRun(e, f)
    requires |e.snapshot| == |f.snapshot| && |Unhealthy(e.snapshot)| == |Unhealthy(f.snapshot)|
    ensures Decision(a, e) == Decision(b, f)
    ensures PreludeOf(e) == PreludeOf(f) && Calls(e) == Calls(f)
  {
  }

  /** The remedy of each environment, when it comes to act. */
  function RemedyOf(env: Env, strategy: Strategy): Remedy
    requires Unhealthy(env.snapshot) != []
  {
    Remediate(strategy, Unhealthy(env.snapshot), env.spec, env.now, env.patch, env.deletes)
  }

  lemma ActMeansUnhealthy(st: Status, env: Env)
    requires Decision(st, env).Act?
    ensures Unhealthy(env.snapshot) != []
    ensures Decision(st, env).strategy.RolloutRestart? || Decision(st, env).strategy.DeletePod?
  {
  }

  lemma ActsByStrategy(st: Status, env: Env)
    requires Decision(st, env).Act?
    ensures Decision(st, env).strategy == ChooseStrategy(env.spec.strategy, EffectiveReplicas(env.dep))
  {
  }

  /** The changes a reconcile makes are those of its remedy. */
  lemma ActionsOfStep(st: Status, env: Env)
    ensures Step(st, env).actions ==
              if PreludeOf(env).Ready? && Decision(st, env).Act? && Unhealthy(env.snapshot) != []
              then RemedyOf(env, Decision(st, env).strategy).actions else []
  {
    if Decision(st, env).Act? {
      ActMeansUnhealthy(st, env);
    }
  }

  lemma GuardsAgree(a: Status, b: Status, e: Env, f: Env, cfg: ProbeConfig)
    requires Agree(a, b) && SameButSnapshotAndDryRun(e, f)
    requires Decision(a, e) == Decision(b, f) && Calls(e) == Calls(f)
    requires Decision(a, e).Act? ==>
               Unhealthy(e.snapshot) != [] && Unhealthy(f.snapshot) != []
               && RemedyOf(e, Decision(a, e).strategy).failed == RemedyOf(f, Decision(a, e).strategy).failed
    ensures OutcomesAgree(Guard(a, e, cfg), Guard(b, f, cfg))
  {
    hide Decision;
    hide Calls;
    hide Remediate;
    hide Unhealthy;
  }

  /** One step: same gate, and the same success or failure of the remedy, give agreeing outcomes. */
  lemma StepsAgree(a: Status, b: Status, e: Env, f: Env)
    requires Agree(a, b) && SameButSnapshotAndDryRun(e, f)
    requires |e.snapshot| == |f.snapshot| && |Unhealthy(e.snapshot)| == |Unhealthy(f.snapshot)|
    requires Decision(a, e).Act? ==>
               Unhealthy(e.snapshot) != [] && Unhealthy(f.snapshot) != []
               && RemedyOf(e, Decision(a, e).strategy).failed == RemedyOf(f, Decision(a, e).strategy).failed
    ensures OutcomesAgree(Step(a, e), Step(b, f))
  {
    hide Calls;
    hide PreludeOf;
    hide Decision;
    hide Guard;
    hide Remediate;
    hide Unhealthy;
    SameDecision(a, b, e, f);
    if PreludeOf(e).Ready? {
      GuardsAgree(a, b, e, f, PreludeOf(e).cfg);
    }
  }
}
