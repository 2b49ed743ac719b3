/** Whether a Deployment with policies is guarded by any of them. */
module Guarding {
  import opened Options
  import opened PolicyApi
  import opened Gates
  import opened Guardian
  import opened Reconcile
  import opened Examples

  /** Nothing but the election keeps the reconcile from guarding its target. */
  predicate CanGuard(env: Env) {
    && env.getPolicy.Ok? && !env.deleting && env.hasFinalizer && Normalized(env.probe).Some?
    && env.getDeployment.Ok? && env.dep.selectorValid && env.listPods.Some?
  }

  /** Distinctly named policies, as the API server lists them. */
  predicate IsListing(list: seq<PolicyRef>) {
    DistinctNames(list) && forall q :: q in list ==> q.name != ""
  }

  /** A reconcile guards exactly when its policy is the guardian and nothing else is in the way. */
  lemma ReadyIff(env: Env)
    requires env.listPolicies.Some? && IsListing(env.listPolicies.value) && env.self in env.listPolicies.value
    ensures PreludeOf(env).Ready? <==> CanGuard(env) && IsGuardian(env.self, env.listPolicies.value)
  {
    VerdictNamesGuardian(env.self, env.listPolicies.value);
    hide Verdict;
    hide Normalized;
    hide IsGuardian;
  }

  /** Reconciles of all these policies, each listing them all. */
  predicate SharedView(envs: map<PolicyRef, Env>, list: seq<PolicyRef>) {
    IsListing(list) &&
    forall p :: p in list ==> p in envs && envs[p].self == p && envs[p].listPolicies == Some(list)
  }

  predicate Guards(envs: map<PolicyRef, Env>, list: seq<PolicyRef>, p: PolicyRef, target: string) {
    p in list && p in envs && p.target == target && PreludeOf(envs[p]).Ready?
  }

  /**
    Some policy guards a Deployment if and only if the oldest of its policies can: the
    election does not look at whether the winner is usable, so a guardian that is invalid,
    or being deleted, leaves the Deployment to nobody. No two policies guard it at once.
   */
  lemma GuardedIff(envs: map<PolicyRef, Env>, list: seq<PolicyRef>, target: string)
    requires SharedView(envs, list)
    ensures (exists p :: Guards(envs, list, p, target)) <==>
              exists g :: IsGuardian(g, list) && g.target == target && CanGuard(envs[g])
    ensures forall p, q :: Guards(envs, list, p, target) && Guards(envs, list, q, target) ==> p == q
  {
    hide PreludeOf;
    hide CanGuard;
    forall p | p in list
      ensures PreludeOf(envs[p]).Ready? <==> CanGuard(envs[p]) && IsGuardian(p, list)
    {
      ReadyIff(envs[p]);
    }
    if exists p :: Guards(envs, list, p, target) {
      var p :| Guards(envs, list, p, target);
      assert IsGuardian(p, list) && CanGuard(envs[p]);
    }
    if exists g :: IsGuardian(g, list) && g.target == target && CanGuard(envs[g]) {
      var g :| IsGuardian(g, list) && g.target == target && CanGuard(envs[g]);
      assert Guards(envs, list, g, target);
    }
    forall p, q | Guards(envs, list, p, target) && Guards(envs, list, q, target) ensures p == q {
      GuardianUnique(p, q, list);
    }
  }

  const OLD := PolicyRef("old", "app", 0)
  const YOUNG := PolicyRef("young", "app", 1)

  /** The example's reconcile for one of these policies. */
  function ReconcileOf(self: PolicyRef, probe: Probe, list: seq<PolicyRef>): Env {
    Example(10, 300, 0).(self := self, probe := probe, listPolicies := Some(list))
  }

  /** An input: alone the young policy guards; next to an older one with an invalid probe nobody does. */
  lemma InvalidGuardianBlocks()
    ensures var valid, invalid := Example(10, 300, 0).probe, Probe(None, 10, 1, 0, 1, 3);
            var list := [OLD, YOUNG];
            && PreludeOf(ReconcileOf(YOUNG, valid, [YOUNG])).Ready?
            && PreludeOf(ReconcileOf(YOUNG, valid, list)) == Degrade(Conflict("old"), "ConflictingPolicy", 60)
            && PreludeOf(ReconcileOf(OLD, invalid, list)) == Degrade(InvalidProbe, "InvalidProbe", 0)
  {
    var list := [OLD, YOUNG];
    assert [YOUNG][..0] == [] && list[..1] == [OLD] && [OLD][..0] == [];
    assert Winner(YOUNG, [YOUNG]) == YOUNG;
    assert Winner(YOUNG, [OLD]) == OLD && Winner(YOUNG, list) == OLD;
  }
}
