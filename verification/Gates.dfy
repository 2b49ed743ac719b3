/** The pure gates and arithmetic of internal/controller/logic.go. */
module Gates {
  import opened Options
  import opened Int32
  import opened Hysteresis
  import opened PolicyApi

  /** A setting, defaulted when unset or negative. */
  function PositiveOr(v: int32, def: int32): int32 {
    if v <= 0 then def else v
  }

  /** The header map of a list, a repeated name keeping its last value. */
  function HeaderMap(headers: seq<Header>): map<string, string> {
    if headers == [] then map[]
    else
      var h := headers[|headers| - 1];
      HeaderMap(headers[..|headers| - 1])[h.name := h.value]
  }

  /** The normalized probe, or None when it is not an httpGet on a numeric port. */
  function Normalized(p: Probe): Option<ProbeConfig> {
    match p.httpGet
    case None => None
    case Some(h) =>
      match h.port
      case Named(_) => None
      case Numeric(port) =>
        if port <= 0 then None
        else Some(ProbeConfig(h.path, h.scheme, port,
                              PositiveOr(p.timeoutSeconds, 1), PositiveOr(p.periodSeconds, 10),
                              PositiveOr(p.initialDelaySeconds, 0),
                              PositiveOr(p.successThreshold, 1), PositiveOr(p.failureThreshold, 3),
                              HeaderMap(h.headers)))
  }

  /** normalizeProbe, filling the header map in a loop. */
  method NormalizeProbe(p: Probe) returns (cfg: Option<ProbeConfig>)
    ensures cfg == Normalized(p)
  {
    if p.httpGet.None? {
      return None;
    }
    var h := p.httpGet.value;
    if h.port.Named? || h.port.value <= 0 {
      return None;
    }
    var headers: map<string, string> := map[];
    for i := 0 to |h.headers|
      invariant headers == HeaderMap(h.headers[..i])
    {
      headers := headers[h.headers[i].name := h.headers[i].value];
      assert h.headers[..i + 1][..i] == h.headers[..i];
    }
    assert h.headers[..|h.headers|] == h.headers;
    cfg := Some(ProbeConfig(h.path, h.scheme, h.port.value,
                            PositiveOr(p.timeoutSeconds, 1), PositiveOr(p.periodSeconds, 10),
                            PositiveOr(p.initialDelaySeconds, 0),
                            PositiveOr(p.successThreshold, 1), PositiveOr(p.failureThreshold, 3), headers));
  }

  /** `x` is the value set in the spec, or the default of a field that is unset or not positive. */
  predicate IsSetting(x: int, field: int32, default: int) {
    (field >= 1 ==> x == field) && (field <= 0 ==> x == default)
  }

  /** A probe is accepted exactly when it is an httpGet on a numeric port that is positive. */
  predicate Accepted(p: Probe) {
    p.httpGet.Some? && p.httpGet.value.port.Numeric? && p.httpGet.value.port.value >= 1
  }

  /** An accepted probe keeps every field under its own name; unset ones get the kubelet's defaults. */
  lemma NormalizedKeepsFields(p: Probe)
    ensures Normalized(p).Some? <==> Accepted(p)
    ensures Accepted(p) ==>
              var cfg, h := Normalized(p).value, p.httpGet.value;
              && cfg.path == h.path && cfg.scheme == h.scheme && h.port == Numeric(cfg.port)
              && IsSetting(cfg.period, p.periodSeconds, 10) && IsSetting(cfg.timeout, p.timeoutSeconds, 1)
              && IsSetting(cfg.initialDelay, p.initialDelaySeconds, 0)
              && IsSetting(cfg.successThreshold, p.successThreshold, 1)
              && IsSetting(cfg.failureThreshold, p.failureThreshold, 3)
              && cfg.headers.Keys == set x | x in h.headers :: x.name
  {
    if p.httpGet.Some? {
      HeaderNames(p.httpGet.value.headers);
    }
  }

  lemma {:induction false} HeaderNames(headers: seq<Header>)
    ensures HeaderMap(headers).Keys == set x | x in headers :: x.name
  {
    if headers != [] {
      var n := |headers| - 1;
      HeaderNames(headers[..n]);
      assert headers == headers[..n] + [headers[n]];
    }
  }

  /**
    An accepted probe never polls without pause, and its thresholds are already the
    effective ones, so the defaulting inside `record` never changes them.
   */
  lemma NormalizedIsUsable(p: Probe)
    requires Normalized(p).Some?
    ensures var cfg := Normalized(p).value;
            && cfg.period >= 1 && cfg.timeout >= 1 && cfg.initialDelay >= 0 && cfg.port >= 1
            && EffectiveFailure(cfg) == cfg.failureThreshold
            && EffectiveSuccess(cfg) == cfg.successThreshold
  {
  }

  /** A header's value is that of its last occurrence. */
  lemma {:induction false} HeaderMapLastWins(headers: seq<Header>, i: nat)
    requires i < |headers| && forall j :: i < j < |headers| ==> headers[j].name != headers[i].name
    ensures headers[i].name in HeaderMap(headers) && HeaderMap(headers)[headers[i].name] == headers[i].value
  {
    var n := |headers| - 1;
    if i < n {
      assert headers[n].name != headers[i].name;
      HeaderMapLastWins(headers[..n], i);
    }
  }

  predicate DeploymentStable(dep: Deployment) {
    && dep.generation == dep.observedGeneration
    && dep.specReplicas.Some?
    && var r := dep.specReplicas.value;
       dep.replicas == r && dep.updated == r && dep.available == r && dep.unavailable == 0
  }

  predicate Stalled(c: DeploymentCondition) {
    c.kind == "Progressing" && c.status == "False" && c.reason == "ProgressDeadlineExceeded"
  }

  predicate DeadlineExceeded(dep: Deployment) {
    exists i :: 0 <= i < |dep.conditions| && Stalled(dep.conditions[i])
  }

  /** progressDeadlineExceeded's search loop. */
  method ProgressDeadlineExceeded(dep: Deployment) returns (b: bool)
    ensures b == DeadlineExceeded(dep)
  {
    for i := 0 to |dep.conditions|
      invariant forall j :: 0 <= j < i ==> !Stalled(dep.conditions[j])
    {
      if Stalled(dep.conditions[i]) {
        return true;
      }
    }
    return false;
  }

  function EffectiveReplicas(dep: Deployment): int32 {
    match dep.specReplicas
    case None => 1
    case Some(r) => r
  }

  /** Auto, and anything unrecognized, is resolved by the replica count. */
  function ChooseStrategy(s: Strategy, replicas: int32): (r: Strategy)
    ensures r.RolloutRestart? || r.DeletePod?
    ensures r.DeletePod? <==> s.DeletePod? || (!s.RolloutRestart? && replicas >= 2)
  {
    match s
    case RolloutRestart => RolloutRestart
    case DeletePod => DeletePod
    case _ => if replicas <= 1 then RolloutRestart else DeletePod
  }

  predicate IsSystemic(unhealthy: nat, total: nat, skipPercent: int32) {
    total >= 2 && unhealthy > 0 && skipPercent > 0 && unhealthy * 100 >= skipPercent * total
  }

  predicate BreakerOpen(attempts: int32, maxAttempts: int32, last: Option<Record>, cooldown: int, now: int) {
    attempts >= maxAttempts && last.Some? && now - last.value.time < cooldown
  }

  predicate CooldownActive(last: Option<Record>, cooldown: int, now: int) {
    last.Some? && cooldown > 0 && now - last.value.time < cooldown
  }

  function EffectiveMaxAttempts(spec: RemediationSpec): (n: int32)
    ensures n >= 1
  {
    if spec.maxConsecutiveAttempts <= 0 then 3 else spec.maxConsecutiveAttempts
  }

  function EffectiveLimit(spec: RemediationSpec): (n: int32)
    ensures n >= 1
  {
    if spec.maxConcurrent <= 0 then 1 else spec.maxConcurrent
  }
}
