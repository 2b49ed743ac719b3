/**
  Prober and controller in one run: the prober's table is shaped only by the calls of the
  policy's reconciles, interleaved with any steps of the probers and of other policies, and
  every guarding reconcile takes its snapshot after its own calls.
 */
module JointRuns {
  import opened Options
  import opened Int32
  import opened Hysteresis
  import opened ProberTable
  import opened ProbeHistory
  import opened LateResults
  import opened PolicyApi
  import opened Gates
  import opened Guardian
  import opened Remediation
  import opened Breaker
  import opened Bookkeeping
  import opened EndToEnd
  import opened ProberManager
  import R = Reconcile
  import opened DecisionTable

  /** A reconcile, and the steps from the one before up to its snapshot, its own calls among them. */
  datatype Round = Round(env: R.Env, events: Trace)

  /** All steps of some rounds. */
  function TraceOf(rounds: seq<Round>): Trace {
    if rounds == [] then [] else TraceOf(rounds[..|rounds| - 1]) + rounds[|rounds| - 1].events
  }

  /** The steps up to the snapshot of round `i`. */
  function UpTo(rounds: seq<Round>, i: nat): Trace
    requires i < |rounds|
  {
    TraceOf(rounds[..i + 1])
  }

  /** A run of one policy: reconciles of a policy never overlap. */
  ghost predicate JointRun(rounds: seq<Round>, k: Key) {
    forall i :: 0 <= i < |rounds| ==>
      && rounds[i].env.key == k && CallsOf(rounds[i].events, k) == R.Calls(rounds[i].env)
      && (R.PreludeOf(rounds[i].env).Ready? ==> TakenAt(UpTo(rounds, i), rounds[i].env))
  }

  lemma UpToSplit(rounds: seq<Round>, i: nat)
    requires i < |rounds|
    ensures UpTo(rounds, i) == TraceOf(rounds[..i]) + rounds[i].events
  {
    assert rounds[..i + 1][..i] == rounds[..i];
  }

  /** Every step belongs to a round. */
  lemma {:induction false} RoundOf(rounds: seq<Round>, n: nat) returns (i: nat)
    requires n < |TraceOf(rounds)|
    ensures i < |rounds| && TraceOf(rounds)[n] in rounds[i].events
    ensures n < |UpTo(rounds, i)| && UpTo(rounds, i) <= TraceOf(rounds)
  {
    var m := |rounds| - 1;
    if n < |TraceOf(rounds[..m])| {
      i := RoundOf(rounds[..m], n);
      assert rounds[..m][..i + 1] == rounds[..i + 1];
    } else {
      i := m;
      assert rounds[..m + 1] == rounds;
    }
  }

  lemma {:induction false} CallsAreAll(t: Trace, k: Key, e: Event)
    requires e in t && IsCall(e, k)
    ensures e in CallsOf(t, k)
  {
    if e != Final(t) {
      CallsAreAll(Before(t), k, e);
    }
  }

  /** A controller's call in the trace is one of its round's reconcile. */
  lemma CallOfRound(rounds: seq<Round>, k: Key, n: nat) returns (i: nat)
    requires JointRun(rounds, k) && n < |TraceOf(rounds)| && IsCall(TraceOf(rounds)[n], k)
    ensures i < |rounds| && TraceOf(rounds)[n] in R.Calls(rounds[i].env)
    ensures n < |UpTo(rounds, i)| && UpTo(rounds, i) <= TraceOf(rounds)
  {
    i := RoundOf(rounds, n);
    CallsAreAll(rounds[i].events, k, TraceOf(rounds)[n]);
  }

  lemma PrefixRun(rounds: seq<Round>, k: Key, j: nat)
    requires JointRun(rounds, k) && j < |rounds|
    ensures JointRun(rounds[..j + 1], k)
  {
    var p := rounds[..j + 1];
    forall i | 0 <= i < |p|
      ensures p[i].env.key == k && CallsOf(p[i].events, k) == R.Calls(p[i].env)
      ensures R.PreludeOf(p[i].env).Ready? ==> TakenAt(UpTo(p, i), p[i].env)
    {
      assert p[i] == rounds[i] && p[..i + 1] == rounds[..i + 1];
    }
  }

  lemma {:induction false} OnlySeenReady(k: Key, pods: seq<Pod>, e: Event)
    requires e in R.ReadyCalls(k, pods)
    ensures e.SetSeenReady?
  {
    var n := |pods| - 1;
    if e in R.ReadyCalls(k, pods[..n]) {
      OnlySeenReady(k, pods[..n], e);
    }
  }

  /** The one Sync of a reconcile carries the config of its probe. */
  lemma SyncOfCalls(env: R.Env, e: Event)
    requires e.Sync? && e in R.Calls(env)
    ensures R.PreludeOf(env).Ready? && e.cfg == R.PreludeOf(env).cfg
  {
    hide R.PreludeOf;
    if R.PreludeOf(env).Ready? && env.listPods.Some? && e in R.ReadyCalls(env.key, env.listPods.value) {
      OnlySeenReady(env.key, env.listPods.value, e);
    }
  }

  /** The reconcile guards, and lists the pod with its first Ready condition "True". */
  predicate ListsReady(env: R.Env, u: UID) {
    && R.PreludeOf(env).Ready? && env.listPods.Some?
    && exists p :: p in env.listPods.value && p.uid == u && R.FirstReadyIsTrue(p.conditions)
  }

  lemma ReadyOfCalls(env: R.Env, u: UID)
    requires SetSeenReady(env.key, u) in R.Calls(env)
    ensures ListsReady(env, u)
  {
    hide R.PreludeOf;
    if env.listPods.Some? {
      ReadyCallsAre(env.key, env.listPods.value, u);
    }
  }

  /** An entry that is there and was not just inserted has the context it had. */
  lemma ContextKept(w: World, e: Event, k: Key, u: UID)
    requires Found(Step(w, e), k, u) && !Inserts(w, e, k, u)
    ensures Holds(w, k, u, EntryOf(Step(w, e), k, u).ctx)
  {
    StepOnEntry(w, e, k, u);
    if !(e.Sync? && e.key == k) && !(e.Forget? && e.key == k) {
      OnlySyncAndForgetShapeTable(w, e, k);
    }
  }

  /** When a pod's readiness was reported: ever since, its entry is the one it has now. */
  lemma {:induction false} ReadySince(t: Trace, k: Key, u: UID) returns (n: nat)
    requires Found(Exec(t), k, u) && SawReady(t, k, u)
    ensures n < |t| && t[n] == SetSeenReady(k, u)
    ensures forall m :: n < m <= |t| ==> Holds(Exec(t[..m]), k, u, EntryOf(Exec(t), k, u).ctx)
  {
    hide Step;
    hide Inserts;
    var p, e := Before(t), Final(t);
    assert t[..|t|] == t;
    if e == SetSeenReady(k, u) && Found(Exec(p), k, u) {
      n := |p|;
    } else {
      ContextKept(Exec(p), e, k, u);
      n := ReadySince(p, k, u);
      forall m | n < m <= |p| ensures Holds(Exec(t[..m]), k, u, EntryOf(Exec(t), k, u).ctx) {
        assert t[..m] == p[..m];
      }
    }
  }

  /** Some reconcile up to the `j`-th listed the pod Ready when its entry was already the present one. */
  ghost predicate ListedReadySince(rounds: seq<Round>, k: Key, u: UID, j: nat)
    requires j < |rounds| && Found(Exec(UpTo(rounds, j)), k, u)
  {
    exists i :: 0 <= i <= j && ListsReady(rounds[i].env, u)
                && Holds(Exec(UpTo(rounds, i)), k, u, EntryOf(Exec(UpTo(rounds, j)), k, u).ctx)
  }

  lemma ReadyWasListed(rounds: seq<Round>, k: Key, u: UID, j: nat)
    requires JointRun(rounds, k) && j < |rounds|
    requires Found(Exec(UpTo(rounds, j)), k, u) && SawReady(UpTo(rounds, j), k, u)
    ensures ListedReadySince(rounds, k, u, j)
  {
    hide Exec;
    hide TraceOf;
    hide SawReady;
    hide ListsReady;
    hide R.Calls;
    hide R.PreludeOf;
    var p, t := rounds[..j + 1], UpTo(rounds, j);
    PrefixRun(rounds, k, j);
    var n := ReadySince(t, k, u);
    var i := CallOfRound(p, k, n);
    ReadyOfCalls(p[i].env, u);
    assert p[..i + 1] == rounds[..i + 1];
    assert t[..|UpTo(p, i)|] == UpTo(p, i);
  }

  /** This pod is among those the reconcile lists, not terminating, under this name. */
  predicate ListsLive(env: R.Env, u: UID, name: string) {
    env.listPods.Some? && exists p :: p in env.listPods.value && !p.terminating && p.uid == u && p.name == name
  }

  /**
    Grace and threshold over a whole run, from any status and with no assumption on the
    snapshot but that it is taken after the reconcile's own calls: a reconcile deletes a pod
    only under the name and UID of a pod it lists itself and that is not terminating; since
    its entry was inserted some reconcile listed that pod Ready, and the results recorded on
    it condemn it, each under the config of some reconcile's probe (ConfigOfRound).
   */
  lemma DeletionsAreJustified(rounds: seq<Round>, k: Key, j: nat, st: Status, a: Action)
    requires JointRun(rounds, k) && j < |rounds|
    requires a in R.Step(st, rounds[j].env).actions && a.Delete?
    ensures exists u :: Regressed(UpTo(rounds, j), k, u)
                        && ListsLive(rounds[j].env, u, a.pod) && ListedReadySince(rounds, k, u, j)
  {
    var env, t := rounds[j].env, UpTo(rounds, j);
    assert R.PreludeOf(env).Ready?;
    hide R.Step;
    hide R.PreludeOf;
    PrefixRun(rounds, k, j);
    DeletedPodsRegressed(t, st, env, a);
    UpToSplit(rounds, j);
    SyncedByReconcile(TraceOf(rounds[..j]), rounds[j].events, env);
    var u :| Regressed(t, k, u)
             && IsLastTarget(R.Targets(env.listPods.value), u, a.pod, EntryOf(Exec(t), k, u).pod.ip);
    TargetsAre(env.listPods.value, Target(a.pod, u, EntryOf(Exec(t), k, u).pod.ip));
    ReadyWasListed(rounds, k, u, j);
  }

  /** Every config the probers use is the normalized probe of one of the run's reconciles. */
  lemma ConfigOfRound(rounds: seq<Round>, k: Key, cfg: ProbeConfig) returns (i: nat)
    requires JointRun(rounds, k) && cfg in SyncedConfigs(TraceOf(rounds), k)
    ensures i < |rounds| && R.PreludeOf(rounds[i].env) == R.Ready(cfg)
  {
    var t := TraceOf(rounds);
    var e :| e in t && e.Sync? && e.key == k && e.cfg == cfg;
    var n :| 0 <= n < |t| && t[n] == e;
    i := CallOfRound(rounds, k, n);
    SyncOfCalls(rounds[i].env, e);
  }

  /** The probes of the specs all set these thresholds, or leave them to their defaults. */
  predicate SameThresholds(rounds: seq<Round>, f: int, s: int) {
    forall i :: 0 <= i < |rounds| ==>
      && IsSetting(f, rounds[i].env.probe.failureThreshold, 3)
      && IsSetting(s, rounds[i].env.probe.successThreshold, 1)
  }

  /** With a spec whose thresholds do not change, regressed means what its documentation says. */
  lemma RegressedUnderSpec(rounds: seq<Round>, k: Key, j: nat, u: UID, f: int, s: int)
    requires JointRun(rounds, k) && SameThresholds(rounds, f, s) && j < |rounds|
    ensures var t := UpTo(rounds, j);
            Regressed(t, k, u) <==>
              Found(Exec(t), k, u) && SawReady(t, k, u) && CondemnedUnder(History(t, k, u), f, s)
  {
    PrefixRun(rounds, k, j);
    var env := rounds[j].env;
    assert f >= 1 && s >= 1 && env == rounds[j].env;
    forall cfg | cfg in SyncedConfigs(UpTo(rounds, j), k) ensures HasThresholds(cfg, f, s) {
      var i := ConfigOfRound(rounds[..j + 1], k, cfg);
      ThresholdsOfProbe(rounds[i].env, f, s);
    }
    hide R.PreludeOf;
    RegressedUnderFixed(UpTo(rounds, j), k, u, f, s);
  }

  lemma ThresholdsOfProbe(env: R.Env, f: int, s: int)
    requires R.PreludeOf(env).Ready?
    requires IsSetting(f, env.probe.failureThreshold, 3) && IsSetting(s, env.probe.successThreshold, 1)
    ensures HasThresholds(R.PreludeOf(env).cfg, f, s)
  {
    NormalizedKeepsFields(env.probe);
    NormalizedIsUsable(env.probe);
    hide Normalized;
    hide Verdict;
  }

  // ---------------------------------------------------------------------------
  // Exactly when a reconcile of the run acts
  // ---------------------------------------------------------------------------

  ghost function RegressedPods(t: Trace, k: Key): set<UID> {
    set u | u in Pods(Exec(t), k) && Regressed(t, k, u)
  }

  /** The pods a reconcile lists that are not terminating. */
  function LivePods(env: R.Env): set<UID> {
    if env.listPods.None? then {} else set p | p in env.listPods.value && !p.terminating :: p.uid
  }

  function Envs(rounds: seq<Round>): seq<R.Env> {
    seq(|rounds|, i requires 0 <= i < |rounds| => rounds[i].env)
  }

  /** The unhealthy ones among these pods of a table. */
  function Down(pods: map<UID, Entry>, us: set<UID>): set<UID> {
    set u | u in us && u in pods && IsUnhealthy(pods[u].pod)
  }

  lemma DownInsert(pods: map<UID, Entry>, us: set<UID>, u: UID)
    requires u in pods && u !in us
    ensures |Down(pods, us + {u})| == |Down(pods, us)| + if IsUnhealthy(pods[u].pod) then 1 else 0
  {
    assert Down(pods, us + {u}) == Down(pods, us) + if IsUnhealthy(pods[u].pod) then {u} else {};
  }

  /** A snapshot has as many unhealthy records as the table has unhealthy pods. */
  lemma {:induction false} UnhealthyCount(pods: map<UID, Entry>, order: seq<UID>, out: seq<PodState>)
    requires |order| == |out|
    requires forall i :: 0 <= i < |out| ==> order[i] in pods && out[i] == pods[order[i]].pod
    requires forall i, j :: 0 <= i < j < |order| ==> order[i] != order[j]
    ensures |Unhealthy(out)| == |Down(pods, set v | v in order)|
  {
    hide Down;
    hide IsUnhealthy;
    if out != [] {
      var n := |out| - 1;
      var before := set v | v in order[..n];
      UnhealthyCount(pods, order[..n], out[..n]);
      assert order == order[..n] + [order[n]];
      assert (set v | v in order) == before + {order[n]};
      assert order[n] !in before;
      DownInsert(pods, before, order[n]);
    } else {
      assert (set v | v in order) == {};
      assert |Down(pods, {})| == 0 by {
        NoneDown(pods);
      }
    }
  }

  lemma NoneDown(pods: map<UID, Entry>)
    ensures Down(pods, {}) == {}
  {
  }

  lemma DownIffRegressed(t: Trace, k: Key, u: UID)
    ensures u in Down(Pods(Exec(t), k), Pods(Exec(t), k).Keys) <==> u in RegressedPods(t, k)
  {
    if u in Pods(Exec(t), k) {
      UnhealthyAndReadyIff(t, k, u);
    }
  }

  lemma DownAreRegressed(t: Trace, k: Key)
    ensures Down(Pods(Exec(t), k), Pods(Exec(t), k).Keys) == RegressedPods(t, k)
  {
    hide Down;
    hide RegressedPods;
    hide Exec;
    forall u: UID ensures u in Down(Pods(Exec(t), k), Pods(Exec(t), k).Keys) <==> u in RegressedPods(t, k) {
      DownIffRegressed(t, k, u);
    }
  }

  lemma RegressedCount(t: Trace, env: R.Env)
    requires TakenAt(t, env)
    ensures |Unhealthy(env.snapshot)| == |RegressedPods(t, env.key)|
  {
    hide Unhealthy;
    hide Exec;
    hide Down;
    hide RegressedPods;
    var pods := Pods(Exec(t), env.key);
    var order :| IsOrderOf(pods, order, env.snapshot);
    UnhealthyCount(pods, order, env.snapshot);
    DownAreRegressed(t, env.key);
  }

  /** After a guarding reconcile's calls its table has exactly the live pods. */
  lemma LiveIff(t: Trace, events: Trace, env: R.Env, u: UID)
    requires R.PreludeOf(env).Ready? && CallsOf(events, env.key) == R.Calls(env)
    ensures u in Pods(Exec(t + events), env.key) <==> u in LivePods(env)
  {
    SyncedByReconcile(t, events, env);
    TableIsLastSync(t + events, env.key);
    hide Exec;
    hide CallsOf;
    hide R.Calls;
    hide R.PreludeOf;
    hide R.Targets;
    var pods, targets := env.listPods.value, R.Targets(env.listPods.value);
    if u in Pods(Exec(t + events), env.key) {
      var x :| x in targets && x.uid == u;
      TargetsAre(pods, x);
    }
    if u in LivePods(env) {
      var p :| p in pods && !p.terminating && p.uid == u;
      TargetsAre(pods, Target(p.name, p.uid, p.ip));
      assert Target(p.name, p.uid, p.ip) in targets;
    }
  }

  lemma LiveCount(t: Trace, events: Trace, env: R.Env)
    requires R.PreludeOf(env).Ready? && CallsOf(events, env.key) == R.Calls(env) && TakenAt(t + events, env)
    ensures |env.snapshot| == |LivePods(env)|
  {
    hide Exec;
    hide CallsOf;
    hide R.Calls;
    hide R.PreludeOf;
    hide LivePods;
    var pods := Pods(Exec(t + events), env.key);
    SnapshotCovers(pods, env.snapshot);
    forall u ensures u in pods.Keys <==> u in LivePods(env) {
      LiveIff(t, events, env, u);
    }
    assert pods.Keys == LivePods(env);
    assert |pods| == |pods.Keys|;
  }

  /** What the gates count: the regressed pods, out of those listed and not terminating. */
  lemma CountsOfRound(rounds: seq<Round>, k: Key, j: nat)
    requires JointRun(rounds, k) && j < |rounds|
    requires R.PreludeOf(rounds[j].env).Ready?
    ensures |Unhealthy(rounds[j].env.snapshot)| == |RegressedPods(UpTo(rounds, j), k)|
    ensures |rounds[j].env.snapshot| == |LivePods(rounds[j].env)|
  {
    hide R.PreludeOf;
    hide R.Calls;
    hide TakenAt;
    PrefixRun(rounds, k, j);
    RegressedCount(UpTo(rounds, j), rounds[j].env);
    UpToSplit(rounds, j);
    LiveCount(TraceOf(rounds[..j]), rounds[j].events, rounds[j].env);
  }

  /**
    Over a whole run from an empty status, in terms of what happened to the pods and of the
    run's own past: a reconcile sets out to remediate if and only if it guards a target whose
    rollout is not stalled, which is stable if it has to be, some but not a systemic share of
    whose live pods regressed, and whose last persisted remediation is a cooldown ago (or,
    with a cooldown that is not positive, the streak is below the maximum).
   */
  lemma RemediatesIff(rounds: seq<Round>, k: Key, j: nat)
    requires JointRun(rounds, k) && j < |rounds|
    ensures var envs, env := Envs(rounds), rounds[j].env;
            var last := LastLogged(NO_STATUS, envs[..j]);
            var recent := last.Some? && env.now - last.value < env.spec.cooldownSeconds;
            var spent := Reaches(Wrap(Streak(NO_STATUS, envs[..j])), env.spec.maxConsecutiveAttempts, 3);
            var regressed := |RegressedPods(UpTo(rounds, j), k)|;
            R.Attempted(R.OutcomeAt(NO_STATUS, envs, j)) <==>
              && R.PreludeOf(env).Ready? && !FailedDeadline(env.dep)
              && (env.spec.requireStable != Some(false) ==> Settled(env.dep))
              && regressed > 0 && !Widespread(regressed, |LivePods(env)|, env.spec.skipPercent)
              && (!recent || (env.spec.cooldownSeconds <= 0 && !spent))
  {
    var envs, env := Envs(rounds), rounds[j].env;
    if R.PreludeOf(env).Ready? {
      CountsOfRound(rounds, k, j);
      ActsAndTripsIff(envs[..j], env);
      ReachesIff(env);
    } else {
      NotReadyHolds(R.Persisted(NO_STATUS, envs[..j]), env);
    }
    hide R.Step;
    hide R.PreludeOf;
    hide Unhealthy;
    hide Settled;
    hide FailedDeadline;
    hide Widespread;
    hide ReachesBreaker;
    hide RegressedPods;
    hide LivePods;
  }

  /** The gates before the breaker, on the fields. */
  lemma ReachesIff(env: R.Env)
    ensures var u := |Unhealthy(env.snapshot)|;
            ReachesBreaker(env) <==>
              && !FailedDeadline(env.dep) && u > 0 && !Widespread(u, |env.snapshot|, env.spec.skipPercent)
              && (env.spec.requireStable != Some(false) ==> Settled(env.dep))
  {
    SettledIff(env.dep);
    FailedDeadlineIff(env.dep);
    hide Settled;
    hide FailedDeadline;
    hide DeploymentStable;
    hide DeadlineExceeded;
    hide Unhealthy;
  }

  lemma NotReadyHolds(st: Status, env: R.Env)
    requires !R.PreludeOf(env).Ready?
    ensures !R.Attempted(R.Step(st, env))
  {
    hide R.Calls;
    hide Verdict;
    hide Normalized;
  }
}
