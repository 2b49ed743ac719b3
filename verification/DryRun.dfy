/** Dry run mirrors live mode: same decisions and bookkeeping, no change to the cluster. */
module DryRun {
  import opened Int32
  import opened PolicyApi
  import opened Gates
  import opened Remediation
  import opened Reconcile
  import opened Simulation

  /** The same inputs, with dryRun off and on. */
  predicate Mirrors(live: Env, dry: Env) {
    !live.spec.dryRun && dry == live.(spec := live.spec.(dryRun := true))
  }

  /** The live remedy meets an API error: on its patch, or on a delete before its limit is reached. */
  predicate MeetsError(live: Env, strategy: Strategy) {
    var us := Unhealthy(live.snapshot);
    if strategy.RolloutRestart? then !live.patch.Ok?
    else strategy.DeletePod? && exists i :: 0 <= i < |us| && FailsAt(us, EffectiveLimit(live.spec), live.deletes, i)
  }

  /** The calls that a live reconcile would come to make are answered with ok or a tolerated NotFound. */
  predicate CallsSucceed(env: Env) {
    !MeetsError(env, ChooseStrategy(env.spec.strategy, EffectiveReplicas(env.dep)))
  }

  lemma RemedyFailsIff(env: Env, strategy: Strategy)
    requires Unhealthy(env.snapshot) != []
    ensures RemedyOf(env, strategy).failed <==> !env.spec.dryRun && MeetsError(env, strategy)
    ensures env.spec.dryRun ==> RemedyOf(env, strategy).actions == []
  {
    SweptFailsIff(Unhealthy(env.snapshot), EffectiveLimit(env.spec), env.deletes);
    SweptDry(Unhealthy(env.snapshot), EffectiveLimit(env.spec), env.deletes);
  }

  /** A dry run never changes the cluster, from any status. */
  lemma DryRunTouchesNothing(st: Status, env: Env)
    requires env.spec.dryRun
    ensures Step(st, env).actions == []
  {
    if Decision(st, env).Act? {
      ActMeansUnhealthy(st, env);
      RemedyFailsIff(env, Decision(st, env).strategy);
    }
  }

  lemma StepMirrors(a: Status, b: Status, live: Env, dry: Env)
    requires Agree(a, b) && Mirrors(live, dry) && CallsSucceed(live)
    ensures OutcomesAgree(Step(a, live), Step(b, dry))
  {
    if Decision(a, live).Act? {
      ActMeansUnhealthy(a, live);
      ActsByStrategy(a, live);
      RemedyFailsIff(live, Decision(a, live).strategy);
      RemedyFailsIff(dry, Decision(a, live).strategy);
    }
    StepsAgree(a, b, live, dry);
  }

  predicate MirrorRuns(lives: seq<Env>, dries: seq<Env>) {
    && |lives| == |dries|
    && forall i :: 0 <= i < |lives| ==> Mirrors(lives[i], dries[i]) && CallsSucceed(lives[i])
  }

  lemma {:induction false} StatusesMirror(a: Status, b: Status, lives: seq<Env>, dries: seq<Env>)
    requires Agree(a, b) && MirrorRuns(lives, dries)
    ensures Agree(Persisted(a, lives), Persisted(b, dries))
  {
    hide Step;
    if lives != [] {
      var n := |lives| - 1;
      StatusesMirror(a, b, lives[..n], dries[..n]);
      StepMirrors(Persisted(a, lives[..n]), Persisted(b, dries[..n]), lives[n], dries[n]);
    }
  }

  /**
    From agreeing statuses and the same inputs, live and dry run take the same branch at
    every step and agree forever on attempts, cooldown, breaker, requeue and conditions,
    while the dry run's action log stays empty.
   */
  lemma DryRunMirrorsLive(a: Status, b: Status, lives: seq<Env>, dries: seq<Env>, i: nat)
    requires Agree(a, b) && MirrorRuns(lives, dries) && i < |lives|
    ensures OutcomesAgree(OutcomeAt(a, lives, i), OutcomeAt(b, dries, i))
    ensures OutcomeAt(b, dries, i).actions == []
  {
    hide Step;
    assert MirrorRuns(lives[..i], dries[..i]);
    StatusesMirror(a, b, lives[..i], dries[..i]);
    StepMirrors(Persisted(a, lives[..i]), Persisted(b, dries[..i]), lives[i], dries[i]);
    DryRunTouchesNothing(Persisted(b, dries[..i]), dries[i]);
  }

  /**
    Where it stops: when both come to act and write their status, they agree afterwards if
    and only if the API answers the live patch with ok, or none of the deletes up to the
    limit with an error.
   */
  lemma DivergesIffLiveFails(st: Status, live: Env, dry: Env)
    requires Mirrors(live, dry) && PreludeOf(live).Ready? && Decision(st, live).Act? && live.writeStatus
    ensures Agree(Step(st, live).status, Step(st, dry).status) <==> !MeetsError(live, Decision(st, live).strategy)
  {
    var strategy := Decision(st, live).strategy;
    ActMeansUnhealthy(st, live);
    RemedyFailsIff(live, strategy);
    RemedyFailsIff(dry, strategy);
    SameDecision(st, st, live, dry);
    if RemedyOf(live, strategy).failed {
      LiveFailureKeepsStatus(st, live);
      DryRecords(st, dry);
    } else {
      StepsAgree(st, st, live, dry);
    }
  }

  lemma LiveFailureKeepsStatus(st: Status, live: Env)
    requires PreludeOf(live).Ready? && Decision(st, live).Act? && Unhealthy(live.snapshot) != []
    requires RemedyOf(live, Decision(st, live).strategy).failed
    ensures Step(st, live).status == st
  {
  }

  lemma DryRecords(st: Status, dry: Env)
    requires PreludeOf(dry).Ready? && Decision(st, dry).Act? && Unhealthy(dry.snapshot) != []
    requires !RemedyOf(dry, Decision(st, dry).strategy).failed && dry.writeStatus
    ensures Step(st, dry).status.attempts == Increment(st.attempts)
  {
  }
}
