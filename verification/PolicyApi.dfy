/** The HotSwapPolicy resource (api/v1alpha1/hotswappolicy_types.go) and the objects it refers to. */
module PolicyApi {
  import opened Options
  import opened Int32

  datatype Strategy = Auto | RolloutRestart | DeletePod | Unrecognized(text: string)

  datatype RemediationSpec = RemediationSpec(
    strategy: Strategy, requireStable: Option<bool>,
    maxConsecutiveAttempts: int32, cooldownSeconds: int32, maxConcurrent: int32,
    skipPercent: int32, dryRun: bool)

  /** The most recent remediation; `time` is in whole seconds. */
  datatype Record = Record(podName: string, strategy: Strategy, time: int, reason: string)

  datatype Condition = Condition(kind: string, status: bool, reason: string, observedGeneration: int)

  datatype Status = Status(
    attempts: int32, last: Option<Record>, conditions: seq<Condition>, observedGeneration: int)

  const NO_STATUS := Status(0, None, [], 0)

  const HEALTHY := "Healthy"
  const REMEDIATING := "Remediating"
  const DEGRADED := "Degraded"

  /** What the guardian election reads of a policy. */
  datatype PolicyRef = PolicyRef(name: string, target: string, created: int)

  datatype Port = Numeric(value: int32) | Named(text: string)
  datatype Header = Header(name: string, value: string)
  datatype HttpGet = HttpGet(path: string, scheme: string, port: Port, headers: seq<Header>)

  /** A core/v1 Probe; only httpGet is supported. */
  datatype Probe = Probe(
    httpGet: Option<HttpGet>,
    periodSeconds: int32, timeoutSeconds: int32, initialDelaySeconds: int32,
    successThreshold: int32, failureThreshold: int32)

  datatype DeploymentCondition = DeploymentCondition(kind: string, status: string, reason: string)

  datatype Deployment = Deployment(
    generation: int, observedGeneration: int,
    specReplicas: Option<int32>, replicas: int32, updated: int32, available: int32, unavailable: int32,
    conditions: seq<DeploymentCondition>, selectorValid: bool, restartedAt: Option<int>)

  datatype PodCondition = PodCondition(kind: string, status: string)
  datatype Pod = Pod(name: string, uid: string, ip: string, terminating: bool, conditions: seq<PodCondition>)
}
