/**
  The concrete runs at which properties are shown to fail, or theorems to apply, are runs
  that prober and controller really have.
 */
module RunExamples {
  import opened Options
  import opened Int32
  import opened Hysteresis
  import opened ProberTable
  import opened PolicyApi
  import opened Remediation
  import opened Breaker
  import opened Bookkeeping
  import opened Cadence
  import opened Rollout
  import opened Survivors
  import opened JointRuns
  import opened Realizable
  import opened Examples
  import R = Reconcile

  const KEY := "ns/policy"

  function TargetOf(p: Pod): Target {
    Target(p.name, p.uid, p.ip)
  }

  /** One more pod in the list. */
  lemma WantedNext(pods: seq<Pod>, p: Pod, down: set<UID>)
    requires !p.terminating
    ensures Desired(R.Targets(pods + [p])) == Desired(R.Targets(pods))[p.uid := TargetOf(p)]
    ensures Wanted(pods + [p], down) == Wanted(pods, down)[p.uid := RecordOf(p, p.uid !in down)]
    ensures Wanted([], down) == map[] && Desired(R.Targets([])) == map[]
  {
    assert (pods + [p])[..|pods|] == pods;
    var ts := R.Targets(pods);
    assert (ts + [TargetOf(p)])[..|ts|] == ts;
  }

  lemma OnePod(p: Pod, down: set<UID>, x: PodState)
    requires !p.terminating && x == RecordOf(p, p.uid !in down)
    ensures Desired(R.Targets([p])) == map[p.uid := TargetOf(p)]
    ensures Ordered(Wanted([p], down), [p.uid], [x])
  {
    WantedNext([], p, down);
    assert [] + [p] == [p];
    assert Wanted([p], down) == map[p.uid := x];
  }

  lemma OnePodPlain(env: R.Env, p: Pod, down: set<UID>, x: PodState)
    requires R.PreludeOf(env).Ready? && EffectiveFailure(R.PreludeOf(env).cfg) == 1
    requires !p.terminating && R.PodReady(p.conditions) && x == RecordOf(p, p.uid !in down)
    requires env.listPods == Some([p]) && env.snapshot == [x]
    ensures Plain(env, down)
  {
    OnePod(p, down, x);
  }

  /** The example's probe and policy, whatever the rest of the spec. */
  predicate LikeExample(env: R.Env) {
    env.key == KEY && env.listPods == Some([POD]) && env.snapshot == [RecordOf(POD, false)]
    && R.PreludeOf(env).Ready? && EffectiveFailure(R.PreludeOf(env).cfg) == 1
  }

  /** Any run of reconciles like the example is a joint run. */
  lemma LikeExampleRuns(envs: seq<R.Env>) returns (rounds: seq<Round>)
    requires forall i :: 0 <= i < |envs| ==> LikeExample(envs[i])
    ensures JointRun(rounds, KEY) && Envs(rounds) == envs
  {
    forall i | 0 <= i < |envs| ensures Plain(envs[i], {POD.uid}) {
      OnePodPlain(envs[i], POD, {POD.uid}, RecordOf(POD, false));
    }
    hide Plain;
    rounds := RunsExist(envs, KEY, {POD.uid});
  }

  /** A run in which the only target is deleted. */
  lemma DeletingRunExists(p: int32) returns (rounds: seq<Round>)
    requires 1 <= p <= 100
    ensures JointRun(rounds, KEY) && Envs(rounds) == [LiveExample(DeletePod, p, 0)]
    ensures R.Step(NO_STATUS, rounds[0].env).actions == [Delete(POD.name)]
  {
    var env := LiveExample(DeletePod, p, 0);
    ExampleReady(10, 300, 0);
    assert R.PreludeOf(env) == R.PreludeOf(Example(10, 300, 0));
    rounds := LikeExampleRuns([env]);
    OnlyTargetDeleted(p);
    assert Envs(rounds)[0] == env;
  }

  /** The run of GaugeOutlivesBreaker. */
  lemma GaugeRunExists(cooldown: int32) returns (rounds: seq<Round>)
    ensures JointRun(rounds, KEY)
    ensures Envs(rounds) == [OneAttempt(cooldown, 0), OneAttempt(cooldown, 0), OneAttempt(cooldown, cooldown)]
  {
    OneAttemptLikeExample(cooldown, 0);
    OneAttemptLikeExample(cooldown, cooldown);
    hide OneAttempt;
    rounds := LikeExampleRuns([OneAttempt(cooldown, 0), OneAttempt(cooldown, 0), OneAttempt(cooldown, cooldown)]);
  }

  lemma OneAttemptLikeExample(cooldown: int32, now: int)
    ensures LikeExample(OneAttempt(cooldown, now))
  {
    ExampleReady(10, cooldown, now);
    assert R.PreludeOf(OneAttempt(cooldown, now)) == R.PreludeOf(Example(10, cooldown, now));
  }

  /** Steady schedules of every length, under a policy that runs dry. */
  lemma SteadyJointRunsExist(period: int32, cooldown: int32, n: nat) returns (rounds: seq<Round>)
    requires period >= 1
    ensures JointRun(rounds, KEY) && |rounds| == n + 1 && Steady(NO_STATUS, Envs(rounds), period, cooldown)
  {
    hide Steady;
    var envs := SteadyRunsExist(period, cooldown, n);
    forall i | 0 <= i < |envs| ensures LikeExample(envs[i]) {
      ExampleReady(period, cooldown, envs[i].now);
    }
    rounds := LikeExampleRuns(envs);
  }

  /** The run of SleepsWhenClockSetBack and MaxMattersWhenClockSetBack. */
  lemma ClockSetBackRunExists() returns (rounds: seq<Round>)
    ensures JointRun(rounds, KEY) && Envs(rounds) == CLOCK_SET_BACK
  {
    OneAttemptLikeExample(0, 1);
    OneAttemptLikeExample(0, 0);
    rounds := LikeExampleRuns(CLOCK_SET_BACK);
  }

  /** The reconcile of GoneIsRecorded. */
  lemma GoneRunExists() returns (rounds: seq<Round>)
    ensures JointRun(rounds, KEY) && Envs(rounds) == [GoneExample()]
  {
    ExampleReady(10, 300, 0);
    assert R.PreludeOf(GoneExample()) == R.PreludeOf(Example(10, 300, 0));
    rounds := LikeExampleRuns([GoneExample()]);
  }

  lemma PairRuns(e: R.Env, f: R.Env, down: set<UID>) returns (rounds: seq<Round>)
    requires e.key == f.key == KEY && Plain(e, down) && Plain(f, down) && Continues(e, f)
    ensures JointRun(rounds, KEY) && Envs(rounds) == [e, f]
  {
    hide Plain;
    hide Continues;
    rounds := RunsExist([e, f], KEY, down);
  }

  lemma TwoRestartsPlain()
    ensures var h, down := TwoRestarts(), {POD.uid, A.uid};
            && h.steps[0].Reconciled? && h.steps[2].Reconciled?
            && h.steps[0].env.key == h.steps[2].env.key == KEY
            && Plain(h.steps[0].env, down) && Plain(h.steps[2].env, down)
  {
    var h, down := TwoRestarts(), {POD.uid, A.uid};
    var e, f := h.steps[0].env, h.steps[2].env;
    ExampleReady(10, 300, 0);
    ExampleReady(10, 300, 300);
    assert R.PreludeOf(e) == R.PreludeOf(Example(10, 300, 0));
    assert R.PreludeOf(f) == R.PreludeOf(Example(10, 300, 300));
    hide R.PreludeOf;
    hide R.Step;
    hide Plain;
    OnePodPlain(e, POD, down, RecordOf(POD, false));
    OnePodPlain(f, A, down, RecordOf(A, false));
  }

  /** The reconciles of TwoRestarts: the restarted pod is replaced by another. */
  lemma TwoRestartsRunExists() returns (rounds: seq<Round>)
    ensures var h := TwoRestarts();
            && h.steps[0].Reconciled? && h.steps[2].Reconciled?
            && JointRun(rounds, KEY) && Envs(rounds) == [h.steps[0].env, h.steps[2].env]
  {
    var h, down := TwoRestarts(), {POD.uid, A.uid};
    TwoRestartsPlain();
    OnePod(POD, down, RecordOf(POD, false));
    OnePod(A, down, RecordOf(A, false));
    hide Plain;
    hide Wanted;
    hide R.Targets;
    hide R.Step;
    hide RecordOf;
    var e, f := h.steps[0].env, h.steps[2].env;
    assert e.listPods == Some([POD]) && f.listPods == Some([A]);
    hide TwoRestarts;
    assert Continues(e, f);
    rounds := PairRuns(e, f, down);
  }

  lemma SweptLists()
    ensures var down := {A.uid, B.uid};
            && Desired(R.Targets([A, B, C])) ==
                 map[A.uid := TargetOf(A), B.uid := TargetOf(B), C.uid := TargetOf(C)]
            && Desired(R.Targets([B, C])) == map[B.uid := TargetOf(B), C.uid := TargetOf(C)]
            && Wanted([A, B, C], down) ==
                 map[A.uid := RecordOf(A, false), B.uid := RecordOf(B, false), C.uid := RecordOf(C, true)]
            && Wanted([B, C], down) == map[B.uid := RecordOf(B, false), C.uid := RecordOf(C, true)]
  {
    var down := {A.uid, B.uid};
    hide Wanted;
    hide R.Targets;
    hide Desired;
    hide RecordOf;
    WantedNext([], A, down);
    WantedNext([A], B, down);
    WantedNext([A, B], C, down);
    WantedNext([], B, down);
    WantedNext([B], C, down);
    assert [] + [A] == [A] && [A] + [B] == [A, B] && [A, B] + [C] == [A, B, C];
    assert [] + [B] == [B] && [B] + [C] == [B, C];
  }

  lemma HalfSweptPlain(cooldown: int32)
    ensures Plain(HalfSwept(cooldown, 0), {A.uid, B.uid})
  {
    var env, down := HalfSwept(cooldown, 0), {A.uid, B.uid};
    HalfSweptReady(cooldown, 0);
    SweptLists();
    hide R.PreludeOf;
    hide Wanted;
    hide R.Targets;
    hide RecordOf;
    assert Ordered(Wanted([A, B, C], down), [A.uid, B.uid, C.uid], env.snapshot);
  }

  lemma SweptOnPlain(cooldown: int32)
    ensures Plain(SweptOn(cooldown, 0), {A.uid, B.uid})
  {
    var env, down := SweptOn(cooldown, 0), {A.uid, B.uid};
    HalfSweptReady(cooldown, 0);
    SweptLists();
    hide R.PreludeOf;
    hide Wanted;
    hide R.Targets;
    hide RecordOf;
    assert Ordered(Wanted([B, C], down), [B.uid, C.uid], env.snapshot);
  }

  /** The reconciles of HalfSweptActsAgain: the deleted pod is gone from the second list. */
  lemma HalfSweptRunExists(cooldown: int32) returns (rounds: seq<Round>)
    ensures JointRun(rounds, KEY) && Envs(rounds) == [HalfSwept(cooldown, 0), SweptOn(cooldown, 0)]
  {
    HalfSweptPlain(cooldown);
    SweptOnPlain(cooldown);
    SweptLists();
    hide Plain;
    hide Wanted;
    hide R.Targets;
    hide RecordOf;
    assert Sublist([A, B, C], [B, C]);
    rounds := PairRuns(HalfSwept(cooldown, 0), SweptOn(cooldown, 0), {A.uid, B.uid});
  }
}
