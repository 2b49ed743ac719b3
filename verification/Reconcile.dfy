/**
  One reconcile of a HotSwapPolicy (internal/controller/hotswappolicy_controller.go) as a
  function of the persisted status and of everything the reconcile reads: the API's
  answers, the prober's snapshot and the clock. `Step` gives the status persisted after
  it, the changes made to the cluster, the requeue request and the calls on the prober.
 */
module Reconcile {
  import opened Options
  import opened Int32
  import opened Hysteresis
  import opened ProberTable
  import opened PolicyApi
  import Conditions
  import opened Gates
  import opened Guardian
  import opened Remediation

  /** Everything one reconcile reads from outside. */
  datatype Env = Env(
    key: Key, self: PolicyRef, generation: int,
    getPolicy: ApiResult, deleting: bool, hasFinalizer: bool, updatePolicy: bool,
    probe: Probe, spec: RemediationSpec,
    getDeployment: ApiResult, dep: Deployment,
    listPolicies: Option<seq<PolicyRef>>, listPods: Option<seq<Pod>>,
    snapshot: seq<PodState>, now: int,
    patch: ApiResult, deletes: map<string, ApiResult>, writeStatus: bool)

  datatype Gate =
    | RolloutStalled | AllHealthy | Systemic | AwaitStable | CircuitOpen | CoolingDown
    | Act(strategy: Strategy)

  datatype Branch =
    | PolicyUnread | Finalized | FinalizerAdded | ReadFailed
    | InvalidProbe | TargetNotFound | Conflict(winner: string) | BadSelector
    | Gated(gate: Gate)
    | Remediated(strategy: Strategy) | RemediateFailed(strategy: Strategy)

  /** The request to be reconciled again: at once, or after some seconds (0: not at all). */
  datatype Result = Result(requeueNow: bool, requeueAfter: int)

  const NO_REQUEUE := Result(false, 0)

  datatype Outcome = Outcome(
    branch: Branch, status: Status, result: Result, err: bool,
    actions: seq<Action>, circuit: Option<bool>, calls: seq<Event>)

  // ---------------------------------------------------------------------------
  // Up to the snapshot
  // ---------------------------------------------------------------------------

  datatype Prelude =
    | Halt(branch: Branch, result: Result, err: bool)
    | Degrade(branch: Branch, reason: string, after: int)
    | Ready(cfg: ProbeConfig)

  /** How far a reconcile gets before it looks at pod health. */
  function PreludeOf(env: Env): Prelude {
    if !env.getPolicy.Ok? then Halt(PolicyUnread, NO_REQUEUE, env.getPolicy.Failed?)
    else if env.deleting then Halt(Finalized, NO_REQUEUE, env.hasFinalizer && !env.updatePolicy)
    else if !env.hasFinalizer then Halt(FinalizerAdded, Result(env.updatePolicy, 0), !env.updatePolicy)
    else
      match Normalized(env.probe)
      case None => Degrade(InvalidProbe, "InvalidProbe", 0)
      case Some(cfg) =>
        match env.getDeployment
        case NotFound => Degrade(TargetNotFound, "TargetNotFound", 30)
        case Failed => Halt(ReadFailed, NO_REQUEUE, true)
        case Ok =>
          if env.listPolicies.None? then Halt(ReadFailed, NO_REQUEUE, true)
          else
            var winner := Verdict(env.self, env.listPolicies.value);
            if winner != "" then Degrade(Conflict(winner), "ConflictingPolicy", 60)
            else if !env.dep.selectorValid then Degrade(BadSelector, "TargetNotFound", 0)
            else if env.listPods.None? then Halt(ReadFailed, NO_REQUEUE, true)
            else Ready(cfg)
  }

  /** The pods to probe: all that are not terminating. */
  function Targets(pods: seq<Pod>): seq<Target> {
    if pods == [] then []
    else
      var p := pods[|pods| - 1];
      Targets(pods[..|pods| - 1]) + if p.terminating then [] else [Target(p.name, p.uid, p.ip)]
  }

  /** isPodReady: the first Ready condition decides. */
  predicate PodReady(cs: seq<PodCondition>) {
    cs != [] && if cs[0].kind == "Ready" then cs[0].status == "True" else PodReady(cs[1..])
  }

  /** The pod has a Ready condition, and the first one says "True". */
  predicate FirstReadyIsTrue(cs: seq<PodCondition>) {
    exists i :: 0 <= i < |cs| && FirstReadyAt(cs, i) && cs[i].status == "True"
  }

  predicate FirstReadyAt(cs: seq<PodCondition>, i: nat)
    requires i < |cs|
  {
    cs[i].kind == "Ready" && forall j :: 0 <= j < i ==> cs[j].kind != "Ready"
  }

  /** A pod whose Ready condition is False or Unknown, or that has none, is not ready. */
  lemma {:induction false} PodReadyIff(cs: seq<PodCondition>)
    ensures PodReady(cs) <==> FirstReadyIsTrue(cs)
  {
    if cs != [] && cs[0].kind != "Ready" {
      PodReadyIff(cs[1..]);
      forall i | 0 <= i < |cs| - 1 ensures FirstReadyAt(cs[1..], i) == FirstReadyAt(cs, i + 1) {
        assert forall j :: 0 <= j < i ==> cs[1..][j] == cs[j + 1];
        assert forall j :: 0 < j < i + 1 ==> cs[j] == cs[1..][j - 1];
      }
      if FirstReadyIsTrue(cs) {
        var i :| 0 <= i < |cs| && FirstReadyAt(cs, i) && cs[i].status == "True";
        assert FirstReadyAt(cs[1..], i - 1);
      }
    } else if cs != [] {
      assert PodReady(cs) <==> FirstReadyAt(cs, 0) && cs[0].status == "True";
    }
  }

  function ReadyCalls(k: Key, pods: seq<Pod>): seq<Event> {
    if pods == [] then []
    else
      var p := pods[|pods| - 1];
      ReadyCalls(k, pods[..|pods| - 1]) + if PodReady(p.conditions) then [SetSeenReady(k, p.uid)] else []
  }

  /** The calls a reconcile makes on the prober before it takes its snapshot. */
  function Calls(env: Env): seq<Event> {
    match PreludeOf(env)
    case Halt(branch, _, _) => if branch.Finalized? && env.hasFinalizer then [Forget(env.key)] else []
    case Degrade(branch, _, _) => if branch.TargetNotFound? || branch.Conflict? then [Forget(env.key)] else []
    case Ready(cfg) =>
      if env.listPods.Some?
      then [Sync(env.key, cfg, Targets(env.listPods.value))] + ReadyCalls(env.key, env.listPods.value)
      else []
  }

  // ---------------------------------------------------------------------------
  // The gates and the action
  // ---------------------------------------------------------------------------

  predicate RequiresStable(spec: RemediationSpec) {
    spec.requireStable.None? || spec.requireStable.value
  }

  /** The decision, given how many of the targets are unhealthy. */
  function GateOf(st: Status, env: Env, unhealthy: nat, total: nat): Gate {
    var spec := env.spec;
    if DeadlineExceeded(env.dep) then RolloutStalled
    else if unhealthy == 0 then AllHealthy
    else if IsSystemic(unhealthy, total, spec.skipPercent) then Systemic
    else if RequiresStable(spec) && !DeploymentStable(env.dep) then AwaitStable
    else if BreakerOpen(st.attempts, EffectiveMaxAttempts(spec), st.last, spec.cooldownSeconds, env.now)
    then CircuitOpen
    else if CooldownActive(st.last, spec.cooldownSeconds, env.now) then CoolingDown
    else Act(ChooseStrategy(spec.strategy, EffectiveReplicas(env.dep)))
  }

  /** The gate this reconcile comes to. */
  function Decision(st: Status, env: Env): Gate {
    GateOf(st, env, |Unhealthy(env.snapshot)|, |env.snapshot|)
  }

  function Reason(dryRun: bool): string {
    if dryRun then "hotswapProbe health regression (dry-run)" else "hotswapProbe health regression"
  }

  /** The status in memory after a remediation that returned no error. */
  function WithRecord(st: Status, env: Env, strategy: Strategy, podName: string): Status {
    st.(attempts := Increment(st.attempts),
        last := Some(Record(podName, strategy, env.now, Reason(env.spec.dryRun))),
        conditions := Conditions.SetRemediating(st.conditions, env.generation))
  }

  /** The status in memory when the reconcile stops at a gate. */
  function Held(st: Status, env: Env, gate: Gate): Status {
    var cs, g := st.conditions, env.generation;
    match gate
    case RolloutStalled => st.(conditions := Conditions.SetDegraded(cs, "RolloutStalled", g))
    case AllHealthy => st.(attempts := 0, conditions := Conditions.SetHealthy(cs, g))
    case Systemic => st.(conditions := Conditions.SetDegraded(cs, "SystemicFailure", g))
    case CircuitOpen => st.(conditions := Conditions.SetDegraded(cs, "CircuitOpen", g))
    case _ => st.(conditions := Conditions.SetRemediating(cs, g))
  }

  function HeldAfter(env: Env, cfg: ProbeConfig, gate: Gate): int {
    if gate.CircuitOpen? || gate.CoolingDown? then env.spec.cooldownSeconds else cfg.period
  }

  /** The CircuitOpen gauge, when the gate sets it. */
  function Circuit(gate: Gate): Option<bool> {
    match gate
    case AllHealthy => Some(false)
    case CircuitOpen => Some(true)
    case _ => None
  }

  /** finish: the status update; when it fails the old status stays and the error is returned. */
  function Finish(
    st: Status, env: Env, branch: Branch, next: Status, after: int,
    actions: seq<Action>, circuit: Option<bool>): Outcome
  {
    if env.writeStatus
    then
      Outcome(branch, next.(observedGeneration := env.generation), Result(false, after), false,
              actions, circuit, Calls(env))
    else Outcome(branch, st, NO_REQUEUE, true, actions, circuit, Calls(env))
  }

  function Guard(st: Status, env: Env, cfg: ProbeConfig): Outcome {
    var gate := Decision(st, env);
    if !gate.Act? then
      Finish(st, env, Gated(gate), Held(st, env, gate), HeldAfter(env, cfg, gate), [], Circuit(gate))
    else
      var r := Remediate(gate.strategy, Unhealthy(env.snapshot), env.spec, env.now, env.patch, env.deletes);
      if r.failed then
        Outcome(RemediateFailed(gate.strategy), st, NO_REQUEUE, true, r.actions, None, Calls(env))
      else
        Finish(st, env, Remediated(gate.strategy), WithRecord(st, env, gate.strategy, r.podName),
               cfg.period, r.actions, None)
  }

  /** One reconcile. */
  function Step(st: Status, env: Env): Outcome {
    match PreludeOf(env)
    case Halt(branch, result, err) => Outcome(branch, st, result, err, [], None, Calls(env))
    case Degrade(branch, reason, after) =>
      Finish(st, env, branch, st.(conditions := Conditions.SetDegraded(st.conditions, reason, env.generation)),
             after, [], None)
    case Ready(cfg) => Guard(st, env, cfg)
  }

  // ---------------------------------------------------------------------------
  // Runs
  // ---------------------------------------------------------------------------

  /** The reconcile went past every gate. */
  predicate Attempted(o: Outcome) {
    o.branch.Remediated? || o.branch.RemediateFailed?
  }

  /** A remediation that was carried out and persisted. */
  predicate Logged(o: Outcome) {
    o.branch.Remediated? && !o.err
  }

  /** The status persisted after a run of reconciles. */
  function Persisted(st: Status, envs: seq<Env>): Status {
    if envs == [] then st
    else Step(Persisted(st, envs[..|envs| - 1]), envs[|envs| - 1]).status
  }

  /** What the `i`-th reconcile of a run did. */
  function OutcomeAt(st: Status, envs: seq<Env>, i: nat): Outcome
    requires i < |envs|
  {
    Step(Persisted(st, envs[..i]), envs[i])
  }

  lemma PersistedNext(st: Status, envs: seq<Env>, i: nat)
    requires i < |envs|
    ensures Persisted(st, envs[..i + 1]) == OutcomeAt(st, envs, i).status
  {
    assert envs[..i + 1][..i] == envs[..i];
  }
}
