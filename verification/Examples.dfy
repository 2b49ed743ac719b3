/**
  Concrete inputs of a reconcile, at which properties are shown to hold or to fail. Their
  snapshots are what the prober gives after the reconcile's own calls (RunExamples).
 */
module Examples {
  import opened Options
  import opened Int32
  import opened Hysteresis
  import ProberTable
  import Guardian
  import opened PolicyApi
  import opened Gates
  import opened Remediation
  import opened Reconcile

  /** A pod that is live and Ready. */
  function ReadyPod(name: string): Pod {
    Pod(name, name, "10.0.0.1", false, [PodCondition("Ready", "True")])
  }

  /** The prober's record of a pod seen Ready, fresh or after one failed probe. */
  function RecordOf(p: Pod, healthy: bool): ProberTable.PodState {
    var pod := ProberTable.FreshPod(ProberTable.Target(p.name, p.uid, p.ip)).(seenReady := true);
    if healthy then pod else pod.(health := Health(false, 1, 0), lastProbe := Some(0), lastTransition := Some(0))
  }

  const POD := ReadyPod("pod")

  /** A single-replica Deployment, stable, whose only pod regressed, guarded by a dry-running policy. */
  function Example(period: int32, cooldown: int32, now: int): Env {
    var self := PolicyRef("policy", "app", 0);
    Env("ns/policy", self, 1, Ok, false, true, true,
        Probe(Some(HttpGet("/", "HTTP", Numeric(80), [])), period, 1, 0, 1, 1),
        RemediationSpec(Auto, None, 3, cooldown, 1, 50, true),
        Ok, Deployment(1, 1, Some(1), 1, 1, 1, 0, [], true, None),
        Some([self]), Some([POD]), [RecordOf(POD, false)], now, Ok, map[], true)
  }

  /** The same, live and with another strategy and skip percentage. */
  function LiveExample(strategy: Strategy, skipPercent: int32, now: int): Env {
    var e := Example(10, 300, now);
    e.(spec := e.spec.(strategy := strategy, skipPercent := skipPercent, dryRun := false))
  }

  /** Example's policy guards the Deployment, which is stable and whose one target is unhealthy. */
  lemma ExampleReady(period: int32, cooldown: int32, now: int)
    requires period >= 1
    ensures var env := Example(period, cooldown, now);
            && PreludeOf(env).Ready? && PreludeOf(env).cfg.period == period
            && EffectiveFailure(PreludeOf(env).cfg) == 1
            && Unhealthy(env.snapshot) == env.snapshot && |env.snapshot| == 1
            && !DeadlineExceeded(env.dep) && DeploymentStable(env.dep)
  {
    var env := Example(period, cooldown, now);
    var self := env.self;
    assert [self][..0] == [] && Guardian.Winner(self, [self]) == self;
    assert env.snapshot[..0] == [] && Unhealthy(env.snapshot) == env.snapshot;
  }

  // ---------------------------------------------------------------------------
  // A sweep that fails half way
  // ---------------------------------------------------------------------------

  const A := ReadyPod("a")
  const B := ReadyPod("b")
  const C := ReadyPod("c")

  /** Two of three pods regressed, and both are to be deleted; the API refuses to delete the second. */
  function HalfSwept(cooldown: int32, now: int): Env {
    var e := LiveExample(DeletePod, 100, now);
    e.(spec := e.spec.(requireStable := Some(false), cooldownSeconds := cooldown, maxConcurrent := 2),
       listPods := Some([A, B, C]), snapshot := [RecordOf(A, false), RecordOf(B, false), RecordOf(C, true)],
       deletes := map["b" := Failed])
  }

  /** The same after the first is gone, and with the API willing. */
  function SweptOn(cooldown: int32, now: int): Env {
    HalfSwept(cooldown, now).(listPods := Some([B, C]), snapshot := [RecordOf(B, false), RecordOf(C, true)],
                              deletes := map[])
  }

  lemma HalfSweptUnhealthy()
    ensures Unhealthy([RecordOf(A, false), RecordOf(B, false), RecordOf(C, true)]) ==
              [RecordOf(A, false), RecordOf(B, false)]
    ensures Unhealthy([RecordOf(B, false), RecordOf(C, true)]) == [RecordOf(B, false)]
  {
    hide Unhealthy;
    var a, b, c := RecordOf(A, false), RecordOf(B, false), RecordOf(C, true);
    assert IsUnhealthy(a) && IsUnhealthy(b) && !IsUnhealthy(c);
    hide RecordOf;
    hide IsUnhealthy;
    UnhealthySnoc([], a);
    UnhealthySnoc([a], b);
    UnhealthySnoc([a, b], c);
    UnhealthySnoc([], b);
    UnhealthySnoc([b], c);
    assert [a] + [b] == [a, b] && [a, b] + [c] == [a, b, c] && [b] + [c] == [b, c];
  }

  lemma HalfSweptReady(cooldown: int32, now: int)
    ensures var e, f := HalfSwept(cooldown, now), SweptOn(cooldown, now);
            && PreludeOf(e).Ready? && PreludeOf(f).Ready? && PreludeOf(e) == PreludeOf(f)
            && EffectiveFailure(PreludeOf(e).cfg) == 1
            && Unhealthy(e.snapshot) == [RecordOf(A, false), RecordOf(B, false)]
            && Unhealthy(f.snapshot) == [RecordOf(B, false)]
            && !DeadlineExceeded(e.dep)
  {
    hide Unhealthy;
    hide RecordOf;
    HalfSweptUnhealthy();
    ExampleReady(10, 300, now);
    var example := Example(10, 300, now);
    assert PreludeOf(HalfSwept(cooldown, now)) == PreludeOf(example);
    assert PreludeOf(SweptOn(cooldown, now)) == PreludeOf(example);
    hide PreludeOf;
    hide DeadlineExceeded;
  }

  lemma UnhealthySnoc(s: seq<ProberTable.PodState>, x: ProberTable.PodState)
    ensures Unhealthy(s + [x]) == Unhealthy(s) + if IsUnhealthy(x) then [x] else []
    ensures Unhealthy([]) == [] && [] + [x] == [x]
  {
    assert (s + [x])[..|s|] == s;
  }
}
