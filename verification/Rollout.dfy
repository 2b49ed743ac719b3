/** hotswap does not fire again during the rollout that its own restart started. */
module Rollout {
  import opened Options
  import opened PolicyApi
  import opened Gates
  import opened Remediation
  import opened Reconcile
  import opened Simulation
  import opened Churn
  import opened Examples

  /** The restart patch: sets one template annotation, a new value bumping the generation. */
  function Patched(dep: Deployment, at: int): Deployment {
    if dep.restartedAt == Some(at) then dep
    else dep.(restartedAt := Some(at), generation := dep.generation + 1)
  }

  /** What others may do: change the spec, which bumps the generation, and report progress on it. */
  predicate Environment(d: Deployment, d': Deployment) {
    && d'.generation >= d.generation
    && (d'.restartedAt != d.restartedAt ==> d'.generation > d.generation)
    && d.observedGeneration <= d'.observedGeneration <= d'.generation
  }

  /** What happens to the Deployment in one step of the whole system. */
  datatype Happening = Reconciled(env: Env) | Changed

  /** A reconcile reads the Deployment as it is, and its restarts are applied to it. */
  predicate Next(st: Status, d: Deployment, h: Happening, st': Status, d': Deployment) {
    match h
    case Changed => st' == st && Environment(d, d')
    case Reconciled(env) =>
      && env.dep == d
      && st' == Step(st, env).status
      && d' == Applied(d, Step(st, env).actions)
  }

  function Applied(d: Deployment, actions: seq<Action>): Deployment {
    if |actions| > 0 && actions[0].Restart? then Patched(d, actions[0].at) else d
  }

  /** A history of the system: statuses and Deployments before, between and after its steps. */
  datatype History = History(statuses: seq<Status>, deps: seq<Deployment>, steps: seq<Happening>)

  ghost predicate Valid(h: History) {
    && |h.statuses| == |h.deps| == |h.steps| + 1
    && h.deps[0].observedGeneration <= h.deps[0].generation
    && forall i :: 0 <= i < |h.steps| ==>
         Next(h.statuses[i], h.deps[i], h.steps[i], h.statuses[i + 1], h.deps[i + 1])
  }

  /** The reconcile at step `i` has to wait for a stable Deployment. */
  predicate StableRequired(h: History, i: nat)
    requires i < |h.steps|
  {
    h.steps[i].Reconciled? && RequiresStable(h.steps[i].env.spec)
  }

  /** Step `i` restarted the Deployment, and the annotation really changed. */
  predicate EffectiveRestart(h: History, i: nat)
    requires i + 1 < |h.deps|
  {
    h.deps[i + 1].generation > h.deps[i].generation
  }

  /** Step `i` is a reconcile that restarts the Deployment. */
  predicate Restarts(h: History, i: nat)
    requires i < |h.steps| && i < |h.statuses|
  {
    h.steps[i].Reconciled? &&
    var actions := Step(h.statuses[i], h.steps[i].env).actions;
    actions != [] && actions[0].Restart?
  }

  lemma StepKeepsOrder(st: Status, d: Deployment, h: Happening, st': Status, d': Deployment)
    requires Next(st, d, h, st', d') && d.observedGeneration <= d.generation
    ensures d'.generation >= d.generation && d'.observedGeneration <= d'.generation
  {
  }

  lemma {:induction false} GenerationsGrow(h: History, i: nat, j: nat)
    requires Valid(h) && i <= j < |h.deps|
    ensures h.deps[i].generation <= h.deps[j].generation
    ensures h.deps[j].observedGeneration <= h.deps[j].generation
    decreases j
  {
    hide Next;
    if j > 0 {
      GenerationsGrow(h, if i < j then i else j - 1, j - 1);
      StepKeepsOrder(h.statuses[j - 1], h.deps[j - 1], h.steps[j - 1], h.statuses[j], h.deps[j]);
      assert Next(h.statuses[j - 1], h.deps[j - 1], h.steps[j - 1], h.statuses[j - 1 + 1], h.deps[j - 1 + 1]);
    }
  }

  /** A reconcile that requires stability changes nothing while the Deployment is not stable. */
  lemma UnstableMeansNoAction(st: Status, env: Env)
    requires RequiresStable(env.spec) && Step(st, env).actions != []
    ensures DeploymentStable(env.dep)
  {
  }

  /** A reconcile that changes the cluster under the stability gate read a stable Deployment. */
  lemma ActsOnlyWhenStable(h: History, j: nat)
    requires Valid(h) && j < |h.steps| && StableRequired(h, j) && Step(h.statuses[j], h.steps[j].env).actions != []
    ensures DeploymentStable(h.deps[j])
  {
    hide Step;
    assert Next(h.statuses[j], h.deps[j], h.steps[j], h.statuses[j + 1], h.deps[j + 1]);
    UnstableMeansNoAction(h.statuses[j], h.steps[j].env);
  }

  /**
    After an effective restart, while the Deployment has not observed that restart's
    generation, no reconcile that requires stability restarts or deletes anything, whatever
    the cooldown, the breaker, the status writes and the other changes to the Deployment.
   */
  lemma NoActionDuringOwnRollout(h: History, i: nat, j: nat)
    requires Valid(h) && i < j < |h.steps| && StableRequired(h, j)
    requires h.deps[j].observedGeneration < h.deps[i + 1].generation
    ensures Step(h.statuses[j], h.steps[j].env).actions == []
  {
    hide Step;
    GenerationsGrow(h, i + 1, j);
    if Step(h.statuses[j], h.steps[j].env).actions != [] {
      ActsOnlyWhenStable(h, j);
    }
  }

  /**
    Between two effective restarts the Deployment has observed the first one's generation
    with every replica updated and available, even with cooldown 0.
   */
  lemma RestartsWaitForRollout(h: History, i: nat, j: nat)
    requires Valid(h) && i < j < |h.steps|
    requires h.steps[i].Reconciled? && EffectiveRestart(h, i)
    requires StableRequired(h, j) && EffectiveRestart(h, j)
    ensures var d := h.deps[j];
            && d.observedGeneration == d.generation && d.specReplicas == Some(d.replicas)
            && d.updated == d.replicas && d.available == d.replicas && d.unavailable == 0
            && d.observedGeneration >= h.deps[i + 1].generation > h.deps[i].observedGeneration
  {
    hide Step;
    GenerationsGrow(h, i, i);
    GenerationsGrow(h, i + 1, j);
    assert Next(h.statuses[j], h.deps[j], h.steps[j], h.statuses[j + 1], h.deps[j + 1]);
    ActsOnlyWhenStable(h, j);
  }

  /** Two restarts, with the rollout of the first observed in between and its pod replaced. */
  function TwoRestarts(): (h: History)
    ensures |h.steps| == 3 && |h.statuses| == |h.deps| == 4
  {
    var first := LiveExample(Auto, 50, 0);
    var rolling := Patched(first.dep, 0);
    var rolled := rolling.(observedGeneration := rolling.generation);
    var second := SecondRestart(rolled);
    var st := Step(NO_STATUS, first).status;
    History([NO_STATUS, st, st, Step(st, second).status], [first.dep, rolling, rolled, Patched(rolled, 300)],
            [Reconciled(first), Changed, Reconciled(second)])
  }

  /** A cooldown later, with the new pod regressed. */
  function SecondRestart(dep: Deployment): Env {
    LiveExample(Auto, 50, 300).(dep := dep, listPods := Some([A]), snapshot := [RecordOf(A, false)])
  }

  lemma FirstRestarts()
    ensures var env := LiveExample(Auto, 50, 0);
            PreludeOf(env).Ready? && Decision(NO_STATUS, env) == Act(RolloutRestart)
  {
    var env := LiveExample(Auto, 50, 0);
    ExampleReady(10, 300, 0);
    assert PreludeOf(env) == PreludeOf(Example(10, 300, 0));
    hide PreludeOf;
    hide Unhealthy;
  }

  lemma SecondRestarts(st: Status, dep: Deployment)
    requires st.last.Some? && st.last.value.time == 0
    requires DeploymentStable(dep) && dep.conditions == [] && dep.specReplicas == Some(1) && dep.selectorValid
    ensures var env := SecondRestart(dep);
            PreludeOf(env).Ready? && Decision(st, env) == Act(RolloutRestart)
  {
    var env := SecondRestart(dep);
    ExampleReady(10, 300, 300);
    assert PreludeOf(env) == PreludeOf(Example(10, 300, 300));
    hide PreludeOf;
    assert env.snapshot[..0] == [] && Unhealthy(env.snapshot) == env.snapshot;
    hide Unhealthy;
    hide DeploymentStable;
  }

  lemma TwoRestartsHappen()
    ensures var h := TwoRestarts();
            && Valid(h) && Restarts(h, 0) && EffectiveRestart(h, 0) && StableRequired(h, 0)
            && Restarts(h, 2) && EffectiveRestart(h, 2) && StableRequired(h, 2)
  {
    hide Step;
    hide Decision;
    hide PreludeOf;
    var h := TwoRestarts();
    FirstRestarts();
    RestartOutcome(NO_STATUS, h.steps[0].env);
    StepAndLast(NO_STATUS, h.steps[0].env);
    SecondRestarts(h.statuses[2], h.deps[2]);
    RestartOutcome(h.statuses[2], h.steps[2].env);
    assert Next(h.statuses[0], h.deps[0], h.steps[0], h.statuses[1], h.deps[1]);
    assert Next(h.statuses[1], h.deps[1], h.steps[1], h.statuses[2], h.deps[2]);
    assert Next(h.statuses[2], h.deps[2], h.steps[2], h.statuses[3], h.deps[3]);
  }

  // ---------------------------------------------------------------------------
  // Restarts that change nothing, and restarts that are repeated
  // ---------------------------------------------------------------------------

  lemma RestartsNow(st: Status, env: Env)
    requires Step(st, env).actions != [] && Step(st, env).actions[0].Restart?
    ensures Step(st, env).actions[0].at == env.now
  {
    hide Step;
    hide Swept;
    hide Existing;
    hide Unhealthy;
    hide Decision;
    var us := Unhealthy(env.snapshot);
    ActionsOfStep(st, env);
    SweptDeletes(us, EffectiveLimit(env.spec), env.deletes);
    SweptDry(us, EffectiveLimit(env.spec), env.deletes);
    if us != [] && Swept(us, EffectiveLimit(env.spec), env.deletes, false).actions != [] {
      ExistingAreListed(us, env.deletes, Swept(us, EffectiveLimit(env.spec), env.deletes, false).actions[0]);
    }
  }

  /** A restart starts a rollout if and only if the last one was not in the same second. */
  lemma RestartEffectiveIff(h: History, i: nat)
    requires Valid(h) && i < |h.steps| && Restarts(h, i)
    ensures EffectiveRestart(h, i) <==> h.deps[i].restartedAt != Some(h.steps[i].env.now)
    ensures !EffectiveRestart(h, i) ==> h.deps[i + 1] == h.deps[i]
    ensures h.deps[i + 1].restartedAt == Some(h.steps[i].env.now)
  {
    hide Step;
    assert Next(h.statuses[i], h.deps[i], h.steps[i], h.statuses[i + 1], h.deps[i + 1]);
    RestartsNow(h.statuses[i], h.steps[i].env);
  }

  /** However often a policy is reconciled within the second of a restart, one rollout starts. */
  lemma {:induction false} SameSecondRestartsOnce(h: History, i: nat, j: nat)
    requires Valid(h) && i <= j < |h.steps| && Restarts(h, i)
    requires forall m :: i < m <= j ==> h.steps[m].Reconciled? && h.steps[m].env.now == h.steps[i].env.now
    ensures h.deps[j + 1] == h.deps[i + 1]
    ensures h.deps[j + 1].restartedAt == Some(h.steps[i].env.now)
    decreases j
  {
    hide Step;
    if i == j {
      RestartEffectiveIff(h, i);
    } else {
      SameSecondRestartsOnce(h, i, j - 1);
      assert Next(h.statuses[j], h.deps[j], h.steps[j], h.statuses[j + 1], h.deps[j + 1]);
      if Restarts(h, j) {
        RestartEffectiveIff(h, j);
      }
    }
  }

  /** The next reconcile comes at once, and differs only in that it reads what the restart left. */
  predicate RunsAgain(h: History, i: nat)
    requires i + 1 < |h.steps| && i + 1 < |h.deps|
  {
    && h.steps[i].Reconciled?
    && h.steps[i + 1] == Reconciled(h.steps[i].env.(dep := h.deps[i + 1]))
  }

  /**
    On a current read a restart is repeated if and only if its status write failed and
    either stability is not required or the restart itself, within the second of the one
    before, changed nothing.
   */
  lemma RepeatsIff(h: History, i: nat)
    requires Valid(h) && i + 1 < |h.steps| && RunsAgain(h, i)
    requires var env := h.steps[i].env;
             && PreludeOf(env).Ready? && Decision(h.statuses[i], env) == Act(RolloutRestart)
             && !env.spec.dryRun && env.patch.Ok? && env.spec.cooldownSeconds > 0
    ensures var env := h.steps[i].env;
            Step(h.statuses[i + 1], h.steps[i + 1].env).actions != [] <==>
              !env.writeStatus && (RequiresStable(env.spec) ==> env.dep.restartedAt == Some(env.now))
  {
    var st, st', env, env' := h.statuses[i], h.statuses[i + 1], h.steps[i].env, h.steps[i + 1].env;
    assert Next(st, h.deps[i], h.steps[i], st', h.deps[i + 1]);
    GenerationsGrow(h, i, i);
    RestartOutcome(st, env);
    StepAndLast(st, env);
    StepAndLast(st', env');
    hide Step;
    assert h.deps[i + 1] == Patched(env.dep, env.now);
    if env.writeStatus {
      assert st'.last.Some? && st'.last.value.time == env.now;
    } else {
      DecidesAgain(st, env, env.now);
      if Decision(st, env').Act? {
        RestartOutcome(st, env');
      } else {
        ActionsOfStep(st, env');
      }
    }
  }

  /** The gates on the Deployment as the restart left it. */
  lemma DecidesAgain(st: Status, env: Env, at: int)
    requires PreludeOf(env).Ready? && Decision(st, env) == Act(RolloutRestart)
    requires env.dep.observedGeneration <= env.dep.generation
    ensures var env' := env.(dep := Patched(env.dep, at));
            && PreludeOf(env').Ready?
            && Decision(st, env') == if RequiresStable(env.spec) && env.dep.restartedAt != Some(at) then AwaitStable
                                     else Act(RolloutRestart)
  {
    hide Unhealthy;
    hide Normalized;
  }
}
