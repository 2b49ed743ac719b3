/**
  The controller's decisions as its documentation lists them, on the fields of the objects it
  reads: what can stop a reconcile, in the order in which it looks, and what it then reports,
  asks for and changes. Every reconcile is proved to follow the first entry that applies.
 */
module DecisionTable {
  import opened Options
  import opened PolicyApi
  import ProberTable
  import opened Hysteresis
  import Conditions
  import opened Gates
  import opened Guardian
  import opened Remediation
  import opened Reconcile

  /** What a reconcile can stop at; `Nothing` lets it act. */
  datatype Stop =
    | PolicyMissing | BeingDeleted | NoFinalizer | UnusableProbe | DeploymentMissing | DeploymentUnread
    | PoliciesUnread | OlderPolicy | UnusableSelector | PodsUnread
    | RolloutFailed | NoneDown | TooManyDown | Unsettled | AttemptsSpent | TooSoon | Nothing

  function Rank(s: Stop): nat {
    match s
    case PolicyMissing => 0
    case BeingDeleted => 1
    case NoFinalizer => 2
    case UnusableProbe => 3
    case DeploymentMissing => 4
    case DeploymentUnread => 5
    case PoliciesUnread => 6
    case OlderPolicy => 7
    case UnusableSelector => 8
    case PodsUnread => 9
    case RolloutFailed => 10
    case NoneDown => 11
    case TooManyDown => 12
    case Unsettled => 13
    case AttemptsSpent => 14
    case TooSoon => 15
    case Nothing => 16
  }

  // ---------------------------------------------------------------------------
  // When each applies
  // ---------------------------------------------------------------------------

  /** Created earlier, or at the same time with the lexicographically lesser name. */
  ghost predicate IsElder(q: PolicyRef, self: PolicyRef) {
    q.created < self.created || (q.created == self.created && exists i :: DiffersAt(q.name, self.name, i))
  }

  /** Another policy for the same Deployment is older. */
  ghost predicate HasElder(self: PolicyRef, list: seq<PolicyRef>) {
    exists q :: q in list && q.name != self.name && q.target == self.target && IsElder(q, self)
  }

  /** The Deployment's status is current, and every replica is there, updated and available. */
  predicate Settled(dep: Deployment) {
    && dep.observedGeneration == dep.generation
    && dep.specReplicas == Some(dep.replicas) && dep.updated == dep.replicas && dep.available == dep.replicas
    && dep.unavailable == 0
  }

  predicate FailedDeadline(dep: Deployment) {
    DeploymentCondition("Progressing", "False", "ProgressDeadlineExceeded") in dep.conditions
  }

  /** The positions of the targets that were seen Ready and are now unhealthy. */
  function DownAt(snapshot: seq<ProberTable.PodState>): set<int> {
    set i | 0 <= i < |snapshot| && snapshot[i].seenReady && !snapshot[i].health.healthy
  }

  /** Of two or more targets so many percent are down. */
  predicate Widespread(down: nat, total: nat, percent: int) {
    total > 1 && percent >= 1 && 100 * down >= percent * total
  }

  /** The last remediation is less than a cooldown ago. */
  predicate Recent(st: Status, env: Env) {
    st.last.Some? && env.now < st.last.value.time + env.spec.cooldownSeconds
  }

  /** The attempts have reached the maximum, three when none is set. */
  predicate Spent(st: Status, spec: RemediationSpec) {
    exists m :: 1 <= m <= st.attempts && IsSetting(m, spec.maxConsecutiveAttempts, 3)
  }

  ghost predicate Applies(s: Stop, st: Status, env: Env) {
    var spec, down, total := env.spec, |DownAt(env.snapshot)|, |env.snapshot|;
    match s
    case PolicyMissing => env.getPolicy != Ok
    case BeingDeleted => env.deleting
    case NoFinalizer => !env.hasFinalizer
    case UnusableProbe => !Accepted(env.probe)
    case DeploymentMissing => env.getDeployment == NotFound
    case DeploymentUnread => env.getDeployment == Failed
    case PoliciesUnread => env.listPolicies == None
    case OlderPolicy => env.listPolicies.Some? && HasElder(env.self, env.listPolicies.value)
    case UnusableSelector => !env.dep.selectorValid
    case PodsUnread => env.listPods == None
    case RolloutFailed => FailedDeadline(env.dep)
    case NoneDown => down == 0
    case TooManyDown => Widespread(down, total, spec.skipPercent)
    case Unsettled => spec.requireStable != Some(false) && !Settled(env.dep)
    case AttemptsSpent => Recent(st, env) && Spent(st, spec)
    case TooSoon => Recent(st, env) && spec.cooldownSeconds >= 1
    case Nothing => true
  }

  /** The first entry of the table that applies. */
  ghost predicate StopsAt(s: Stop, st: Status, env: Env) {
    Applies(s, st, env) && forall r: Stop :: Rank(r) < Rank(s) ==> !Applies(r, st, env)
  }

  // ---------------------------------------------------------------------------
  // What the reconcile then does
  // ---------------------------------------------------------------------------

  /** The delay asked for: none, so many seconds, the probe's period or the cooldown. */
  datatype Delay = Seconds(n: int) | Period | Cooldown

  /** Return without a status update, or update the conditions and ask to be run again. */
  datatype Row =
    | Returns(branch: Branch, again: bool, err: bool)
    | Reports(branch: Branch, shape: Conditions.Shape, delay: Delay)

  function RowOf(s: Stop, env: Env): Row
    requires s.OlderPolicy? ==> env.listPolicies.Some?
    requires !s.Nothing?
  {
    match s
    case PolicyMissing => Returns(PolicyUnread, false, env.getPolicy == Failed)
    case BeingDeleted => Returns(Finalized, false, env.hasFinalizer && !env.updatePolicy)
    case NoFinalizer => Returns(FinalizerAdded, env.updatePolicy, !env.updatePolicy)
    case UnusableProbe => Reports(InvalidProbe, Conditions.Degraded("InvalidProbe"), Seconds(0))
    case DeploymentMissing => Reports(TargetNotFound, Conditions.Degraded("TargetNotFound"), Seconds(30))
    case DeploymentUnread => Returns(ReadFailed, false, true)
    case PoliciesUnread => Returns(ReadFailed, false, true)
    case OlderPolicy =>
      Reports(Conflict(Verdict(env.self, env.listPolicies.value)), Conditions.Degraded("ConflictingPolicy"),
              Seconds(60))
    case UnusableSelector => Reports(BadSelector, Conditions.Degraded("TargetNotFound"), Seconds(0))
    case PodsUnread => Returns(ReadFailed, false, true)
    case RolloutFailed => Reports(Gated(RolloutStalled), Conditions.Degraded("RolloutStalled"), Period)
    case NoneDown => Reports(Gated(AllHealthy), Conditions.AllWell, Period)
    case TooManyDown => Reports(Gated(Systemic), Conditions.Degraded("SystemicFailure"), Period)
    case Unsettled => Reports(Gated(AwaitStable), Conditions.InProgress, Period)
    case AttemptsSpent => Reports(Gated(CircuitOpen), Conditions.Degraded("CircuitOpen"), Cooldown)
    case TooSoon => Reports(Gated(CoolingDown), Conditions.InProgress, Cooldown)
  }

  predicate Asks(result: Result, delay: Delay, env: Env) {
    !result.requeueNow &&
    match delay
    case Seconds(n) => result.requeueAfter == n
    case Period => IsSetting(result.requeueAfter, env.probe.periodSeconds, 10)
    case Cooldown => result.requeueAfter == env.spec.cooldownSeconds
  }

  /** A status that was written says this, as of the policy's generation. */
  predicate Written(status: Status, st: Status, env: Env, shape: Conditions.Shape) {
    && status.observedGeneration == env.generation
    && (Conditions.Unique(st.conditions) ==>
          Conditions.HasShape(status.conditions, shape) && Conditions.Dated(status.conditions, shape, env.generation))
  }

  /** Without an action: the row's report, or an error that leaves the stored status alone. */
  predicate Follows(o: Outcome, st: Status, env: Env, row: Row) {
    o.actions == [] && o.branch == row.branch &&
    match row
    case Returns(_, again, err) => o.result == Result(again, 0) && o.err == err && o.status == st
    case Reports(_, shape, delay) =>
      o.err == !env.writeStatus &&
      if o.err then o.status == st && o.result == NO_REQUEUE
      else
        && Asks(o.result, delay, env) && Written(o.status, st, env, shape)
        && o.status.last == st.last && o.status.attempts == if row.branch == Gated(AllHealthy) then 0 else st.attempts
  }

  // ---------------------------------------------------------------------------
  // The fields and the gates
  // ---------------------------------------------------------------------------

  lemma SettledIff(dep: Deployment)
    ensures DeploymentStable(dep) <==> Settled(dep)
  {
  }

  lemma FailedDeadlineIff(dep: Deployment)
    ensures DeadlineExceeded(dep) <==> FailedDeadline(dep)
  {
    if FailedDeadline(dep) {
      var i :| 0 <= i < |dep.conditions|
               && dep.conditions[i] == DeploymentCondition("Progressing", "False", "ProgressDeadlineExceeded");
      assert Stalled(dep.conditions[i]);
    }
  }

  lemma {:induction false} DownCount(snapshot: seq<ProberTable.PodState>)
    ensures |Unhealthy(snapshot)| == |DownAt(snapshot)|
  {
    if snapshot != [] {
      var n := |snapshot| - 1;
      DownCount(snapshot[..n]);
      assert DownAt(snapshot) == DownAt(snapshot[..n]) + if IsUnhealthy(snapshot[n]) then {n} else {};
    }
  }

  lemma ElderIff(self: PolicyRef, list: seq<PolicyRef>)
    requires forall q :: q in list ==> q.name != ""
    ensures Verdict(self, list) != "" <==> HasElder(self, list)
  {
    WinnerIsLeast(self, list);
    forall q | q in list ensures Less(q, self) <==> IsElder(q, self) {
      LexLessIff(q.name, self.name);
    }
  }

  lemma SpentIff(st: Status, spec: RemediationSpec)
    ensures Spent(st, spec) <==> st.attempts >= EffectiveMaxAttempts(spec)
  {
    assert IsSetting(EffectiveMaxAttempts(spec), spec.maxConsecutiveAttempts, 3);
  }

  /** The API server lists no policy without a name. */
  predicate NamesGiven(env: Env) {
    env.listPolicies.Some? ==> forall q :: q in env.listPolicies.value ==> q.name != ""
  }

  // ---------------------------------------------------------------------------
  // Every reconcile follows the table
  // ---------------------------------------------------------------------------

  /** How far the reconcile gets: to the row that stops it, or past all that come before the snapshot. */
  lemma PreludeFollows(s: Stop, st: Status, env: Env)
    requires StopsAt(s, st, env) && NamesGiven(env)
    ensures var p := PreludeOf(env);
            if Rank(s) >= 10 then p.Ready? && Normalized(env.probe) == Some(p.cfg)
            else match RowOf(s, env)
                 case Returns(branch, again, err) => p == Halt(branch, Result(again, 0), err)
                 case Reports(branch, shape, delay) =>
                   shape.Degraded? && delay.Seconds? && p == Degrade(branch, shape.reason, delay.n)
  {
    NormalizedKeepsFields(env.probe);
    if env.listPolicies.Some? {
      ElderIff(env.self, env.listPolicies.value);
    }
    hide Normalized;
    hide Verdict;
    hide HasElder;
    hide Accepted;
    PreludePassed(s, st, env);
  }

  /** The rows before the one that stops the reconcile do not apply. */
  lemma PreludePassed(s: Stop, st: Status, env: Env)
    requires StopsAt(s, st, env)
    ensures Rank(s) > 0 ==> env.getPolicy == Ok
    ensures Rank(s) > 1 ==> !env.deleting
    ensures Rank(s) > 2 ==> env.hasFinalizer
    ensures Rank(s) > 3 ==> Accepted(env.probe)
    ensures Rank(s) > 4 ==> env.getDeployment != NotFound
    ensures Rank(s) > 5 ==> env.getDeployment != Failed
    ensures Rank(s) > 6 ==> env.listPolicies.Some?
    ensures Rank(s) > 7 ==> env.listPolicies.Some? && !HasElder(env.self, env.listPolicies.value)
    ensures Rank(s) > 8 ==> env.dep.selectorValid
    ensures Rank(s) > 9 ==> env.listPods.Some?
  {
    hide HasElder;
    hide Accepted;
    assert Applies(PolicyMissing, st, env) == (env.getPolicy != Ok);
    assert Applies(BeingDeleted, st, env) == env.deleting;
    assert Applies(NoFinalizer, st, env) == !env.hasFinalizer;
    assert Applies(UnusableProbe, st, env) == !Accepted(env.probe);
    assert Applies(DeploymentMissing, st, env) == (env.getDeployment == NotFound);
    assert Applies(DeploymentUnread, st, env) == (env.getDeployment == Failed);
    assert Applies(PoliciesUnread, st, env) == (env.listPolicies == None);
    assert env.listPolicies.Some? ==> Applies(OlderPolicy, st, env) == HasElder(env.self, env.listPolicies.value);
    assert Applies(UnusableSelector, st, env) == !env.dep.selectorValid;
    assert Applies(PodsUnread, st, env) == (env.listPods == None);
  }

  /** Pods are deleted when the spec says so, or leaves it open and the Deployment asks for two or more. */
  predicate ToDelete(env: Env) {
    env.spec.strategy == DeletePod
    || (env.spec.strategy != RolloutRestart && env.dep.specReplicas.Some? && env.dep.specReplicas.value > 1)
  }

  function GateFor(s: Stop, env: Env): Gate
    requires Rank(s) >= 10
  {
    match s
    case RolloutFailed => RolloutStalled
    case NoneDown => AllHealthy
    case TooManyDown => Systemic
    case Unsettled => AwaitStable
    case AttemptsSpent => CircuitOpen
    case TooSoon => CoolingDown
    case Nothing => Act(if ToDelete(env) then DeletePod else RolloutRestart)
  }

  lemma GatesPassed(s: Stop, st: Status, env: Env)
    requires StopsAt(s, st, env)
    ensures Rank(s) > 10 ==> !FailedDeadline(env.dep)
    ensures Rank(s) > 11 ==> |DownAt(env.snapshot)| > 0
    ensures Rank(s) > 12 ==> !Applies(TooManyDown, st, env)
    ensures Rank(s) > 13 ==> env.spec.requireStable == Some(false) || Settled(env.dep)
    ensures Rank(s) > 14 ==> !(Recent(st, env) && Spent(st, env.spec))
    ensures Rank(s) > 15 ==> !(Recent(st, env) && env.spec.cooldownSeconds >= 1)
  {
    hide HasElder;
    hide Accepted;
    hide FailedDeadline;
    hide Settled;
    hide DownAt;
    hide Recent;
    hide Spent;
    assert Applies(RolloutFailed, st, env) == FailedDeadline(env.dep);
    assert Applies(NoneDown, st, env) == (|DownAt(env.snapshot)| == 0);
    assert Applies(Unsettled, st, env) == (env.spec.requireStable != Some(false) && !Settled(env.dep));
    assert Applies(AttemptsSpent, st, env) == (Recent(st, env) && Spent(st, env.spec));
    assert Applies(TooSoon, st, env) == (Recent(st, env) && env.spec.cooldownSeconds >= 1);
  }

  lemma SystemicIff(st: Status, env: Env)
    requires |DownAt(env.snapshot)| > 0
    ensures Applies(TooManyDown, st, env) <==>
              IsSystemic(|Unhealthy(env.snapshot)|, |env.snapshot|, env.spec.skipPercent)
  {
    DownCount(env.snapshot);
    hide DownAt;
    hide Unhealthy;
  }

  /** The gate the reconcile comes to is that of the row that stops it. */
  lemma GatesFollow(s: Stop, st: Status, env: Env)
    requires StopsAt(s, st, env) && Rank(s) >= 10
    ensures Decision(st, env) == GateFor(s, env)
  {
    GatesPassed(s, st, env);
    SettledIff(env.dep);
    FailedDeadlineIff(env.dep);
    DownCount(env.snapshot);
    SpentIff(st, env.spec);
    if |DownAt(env.snapshot)| > 0 {
      SystemicIff(st, env);
    }
    hide HasElder;
    hide FailedDeadline;
    hide Settled;
    hide DownAt;
    hide Spent;
    hide DeploymentStable;
    hide DeadlineExceeded;
    hide Unhealthy;
    hide IsSystemic;
    hide EffectiveMaxAttempts;
  }

  function ReasonOf(shape: Conditions.Shape): string {
    if shape.Degraded? then shape.reason else ""
  }

  /** What is reported at a gate. */
  lemma HeldFollows(s: Stop, st: Status, env: Env, cfg: ProbeConfig)
    requires 10 <= Rank(s) <= 15 && Decision(st, env) == GateFor(s, env) && Normalized(env.probe) == Some(cfg)
    ensures Follows(Guard(st, env, cfg), st, env, RowOf(s, env))
  {
    hide Decision;
    hide Normalized;
    hide Calls;
    hide Conditions.SetHealthy;
    hide Conditions.SetRemediating;
    hide Conditions.SetDegraded;
    hide Conditions.Unique;
    hide Conditions.HasShape;
    hide Conditions.Dated;
    NormalizedKeepsFields(env.probe);
    if Conditions.Unique(st.conditions) {
      Conditions.SettersShape(st.conditions, ReasonOf(RowOf(s, env).shape), env.generation);
    }
  }

  /** And before the snapshot. */
  lemma DegradeFollows(s: Stop, st: Status, env: Env)
    requires Rank(s) < 10 && (s.OlderPolicy? ==> env.listPolicies.Some?)
    requires match RowOf(s, env)
             case Returns(branch, again, err) => PreludeOf(env) == Halt(branch, Result(again, 0), err)
             case Reports(branch, shape, delay) =>
               shape.Degraded? && delay.Seconds? && PreludeOf(env) == Degrade(branch, shape.reason, delay.n)
    ensures Follows(Step(st, env), st, env, RowOf(s, env))
  {
    hide PreludeOf;
    hide Calls;
    hide Conditions.SetDegraded;
    hide Conditions.Unique;
    hide Conditions.HasShape;
    hide Conditions.Dated;
    hide Verdict;
    if Conditions.Unique(st.conditions) && RowOf(s, env).Reports? {
      Conditions.SettersShape(st.conditions, ReasonOf(RowOf(s, env).shape), env.generation);
    }
  }

  /** Exactly one row stops a reconcile. */
  lemma OneRowStops(st: Status, env: Env) returns (s: Stop)
    ensures StopsAt(s, st, env) && forall r: Stop :: StopsAt(r, st, env) ==> r == s
  {
    s := FirstFrom(Nothing, st, env);
    forall r: Stop | StopsAt(r, st, env) ensures r == s {
      assert Rank(r) == Rank(s);
    }
  }

  lemma {:induction false} FirstFrom(at: Stop, st: Status, env: Env) returns (s: Stop)
    requires Applies(at, st, env)
    ensures StopsAt(s, st, env)
    decreases Rank(at)
  {
    hide Applies;
    if r: Stop :| Rank(r) < Rank(at) && Applies(r, st, env) {
      s := FirstFrom(r, st, env);
    } else {
      s := at;
    }
  }

  /**
    Every reconcile stopped by a row of the table takes its branch, changes nothing in the
    cluster and, unless the status write fails, reports the row's conditions and asks for
    its delay.
   */
  lemma StepFollowsTable(s: Stop, st: Status, env: Env)
    requires StopsAt(s, st, env) && !s.Nothing? && NamesGiven(env)
    ensures s.OlderPolicy? ==> env.listPolicies.Some?
    ensures Follows(Step(st, env), st, env, RowOf(s, env))
  {
    assert s.OlderPolicy? ==> env.listPolicies.Some?;
    PreludeFollows(s, st, env);
    if Rank(s) >= 10 {
      GatesFollow(s, st, env);
      HeldFollows(s, st, env, PreludeOf(env).cfg);
    } else {
      DegradeFollows(s, st, env);
    }
    hide Guard;
    hide Follows;
    hide PreludeOf;
    hide Applies;
    hide Decision;
  }

  /**
    The stability gate on the fields: with requireStable unset or true, a reconcile that
    changes the cluster read a status that is current with every replica there, updated and
    available; and on such a status the gate never holds a reconcile back.
   */
  lemma StabilityGate(st: Status, env: Env)
    ensures env.spec.requireStable != Some(false) && Step(st, env).actions != [] ==> Settled(env.dep)
    ensures Settled(env.dep) || env.spec.requireStable == Some(false) ==> Step(st, env).branch != Gated(AwaitStable)
  {
    SettledIff(env.dep);
    hide Settled;
    hide DeploymentStable;
    hide Calls;
    hide Unhealthy;
    hide Remediation.Remediate;
    hide Normalized;
    hide Verdict;
  }
}
