/**
  The prober and the controller together: what a pod must have gone through before it is
  remediated, and who probes what after a reconcile, over every interleaving.
 */
module EndToEnd {
  import opened Options
  import opened Hysteresis
  import opened ProberTable
  import opened ProberManager
  import opened ProbeHistory
  import opened LateResults
  import opened PolicyApi
  import opened Gates
  import opened Guardian
  import opened Remediation
  import opened Survivors
  import opened Examples
  import R = Reconcile

  /**
    Since its entry was last inserted, the pod was reported Ready, and the results recorded
    on it condemn it.
   */
  ghost predicate Regressed(t: Trace, k: Key, u: UID) {
    Found(Exec(t), k, u) && SawReady(t, k, u) && Condemned(History(t, k, u))
  }

  /** Under thresholds that stay fixed: `f` consecutive failures with no later `s` consecutive successes. */
  lemma RegressedUnderFixed(t: Trace, k: Key, u: UID, f: int, s: int)
    requires f >= 1 && s >= 1 && FixedThresholds(t, k, f, s)
    ensures Regressed(t, k, u) <==>
              Found(Exec(t), k, u) && SawReady(t, k, u) && CondemnedUnder(History(t, k, u), f, s)
  {
    CondemnedUnderFixed(t, k, u, f, s);
  }

  /** The reconcile's snapshot was taken from the table at the end of this trace. */
  ghost predicate TakenAt(t: Trace, env: R.Env) {
    IsSnapshot(Pods(Exec(t), env.key), env.snapshot)
  }

  /** A snapshot holds the record of every entry once, and nothing else. */
  lemma SnapshotCovers(pods: map<UID, Entry>, out: seq<PodState>)
    requires IsSnapshot(pods, out)
    ensures forall x :: x in out ==> exists u :: u in pods && pods[u].pod == x
    ensures forall u :: u in pods ==> pods[u].pod in out
    ensures |out| == |pods|
  {
    var order :| IsOrderOf(pods, order, out);
    forall x | x in out ensures exists u :: u in pods && pods[u].pod == x {
      var i :| 0 <= i < |out| && out[i] == x;
      assert order[i] in pods;
    }
    forall u | u in pods ensures pods[u].pod in out {
      assert u in set v | v in order;
      var i :| 0 <= i < |order| && order[i] == u;
      assert out[i] == pods[u].pod;
    }
    OrderLength(order);
    assert |pods| == |pods.Keys|;
  }

  lemma {:induction false} OrderLength(order: seq<UID>)
    requires forall i, j :: 0 <= i < j < |order| ==> order[i] != order[j]
    ensures |set v | v in order| == |order|
  {
    if order != [] {
      var n := |order| - 1;
      OrderLength(order[..n]);
      assert order == order[..n] + [order[n]];
      assert (set v | v in order) == (set v | v in order[..n]) + {order[n]};
      assert order[n] !in order[..n];
    }
  }

  /** An unhealthy target in a snapshot is a regressed pod, and the other way round. */
  lemma UnhealthyIffRegressed(t: Trace, env: R.Env)
    requires TakenAt(t, env)
    ensures forall x :: x in env.snapshot && IsUnhealthy(x) ==>
              exists u :: Regressed(t, env.key, u) && EntryOf(Exec(t), env.key, u).pod == x
    ensures forall u :: Regressed(t, env.key, u) ==>
              EntryOf(Exec(t), env.key, u).pod in env.snapshot && IsUnhealthy(EntryOf(Exec(t), env.key, u).pod)
  {
    var pods := Pods(Exec(t), env.key);
    SnapshotCovers(pods, env.snapshot);
    forall x | x in env.snapshot && IsUnhealthy(x)
      ensures exists u :: Regressed(t, env.key, u) && EntryOf(Exec(t), env.key, u).pod == x
    {
      var u :| u in pods && pods[u].pod == x;
      UnhealthyAndReadyIff(t, env.key, u);
      assert Regressed(t, env.key, u);
    }
    forall u | Regressed(t, env.key, u)
      ensures EntryOf(Exec(t), env.key, u).pod in env.snapshot && IsUnhealthy(EntryOf(Exec(t), env.key, u).pod)
    {
      UnhealthyAndReadyIff(t, env.key, u);
    }
  }

  /**
    Grace and threshold, end to end: over every interleaving, the probe config changing at
    will, a pod is deleted only if it regressed, as of the snapshot, and under the name that
    the last Sync gave it.
   */
  lemma DeletedPodsRegressed(t: Trace, st: Status, env: R.Env, a: Action)
    requires TakenAt(t, env)
    requires a in R.Step(st, env).actions && a.Delete?
    ensures LastSync(t, env.key).Some?
    ensures exists u :: Regressed(t, env.key, u)
              && IsLastTarget(LastSync(t, env.key).value, u, a.pod, EntryOf(Exec(t), env.key, u).pod.ip)
  {
    hide R.Step;
    TableIsLastSync(t, env.key);
    DeletionsAreUnhealthy(st, env, a);
    var x :| x in env.snapshot && IsUnhealthy(x) && x.name == a.pod;
    UnhealthyIffRegressed(t, env);
    var u :| Regressed(t, env.key, u) && EntryOf(Exec(t), env.key, u).pod == x;
    assert IsLastTarget(LastSync(t, env.key).value, u, a.pod, x.ip);
  }

  /** And the Deployment is restarted only if one of its pods did. */
  lemma ActionsNeedRegression(t: Trace, st: Status, env: R.Env)
    requires TakenAt(t, env)
    requires R.Step(st, env).actions != []
    ensures exists u :: Regressed(t, env.key, u)
  {
    hide R.Step;
    ActionsNeedUnhealthy(st, env);
    UnhealthyIffRegressed(t, env);
  }

  /**
    The all-healthy branch is taken exactly by the reconciles that guard a target whose
    rollout is not stalled and none of whose pods regressed.
   */
  lemma AllHealthyIffNoneRegressed(t: Trace, st: Status, env: R.Env)
    requires TakenAt(t, env)
    ensures R.Step(st, env).branch == R.Gated(R.AllHealthy) <==>
              && R.PreludeOf(env).Ready? && !DeadlineExceeded(env.dep)
              && !exists u :: Regressed(t, env.key, u)
  {
    hide R.Step;
    UnhealthyIffRegressed(t, env);
    UnhealthyAreListed(env.snapshot);
    AllHealthyBranch(st, env);
    var us := Unhealthy(env.snapshot);
    if us != [] {
      assert us[0] in us;
    }
  }

  lemma AllHealthyBranch(st: Status, env: R.Env)
    ensures R.Step(st, env).branch == R.Gated(R.AllHealthy) <==>
              R.PreludeOf(env).Ready? && !DeadlineExceeded(env.dep) && Unhealthy(env.snapshot) == []
  {
    hide R.Calls;
    hide Unhealthy;
    hide Remediate;
    hide DeadlineExceeded;
    hide DeploymentStable;
  }

  // ---------------------------------------------------------------------------
  // Who probes what after a reconcile
  // ---------------------------------------------------------------------------

  predicate NoSyncOf(t: Trace, k: Key) {
    forall i :: 0 <= i < |t| ==> !(t[i].Sync? && t[i].key == k)
  }

  lemma {:induction false} ForgottenStays(t: Trace, k: Key, more: Trace)
    requires NoSyncOf(more, k)
    ensures LastSync(t + [Forget(k)] + more, k).None?
  {
    var all := t + [Forget(k)] + more;
    if more == [] {
      assert all == t + [Forget(k)];
      assert Final(all) == Forget(k);
    } else {
      var n := |more| - 1;
      assert Before(all) == t + [Forget(k)] + more[..n];
      assert Final(all) == more[n];
      ForgottenStays(t, k, more[..n]);
    }
  }

  /** After a Forget, and until the next Sync, every prober of the policy is cancelled. */
  lemma NoProbersAfterForget(t: Trace, k: Key, more: Trace)
    requires NoSyncOf(more, k)
    ensures var w := Exec(t + [Forget(k)] + more);
            k !in w.policies && forall c :: c in w.probers && w.probers[c].key == k ==> c in w.cancelled
  {
    var all := t + [Forget(k)] + more;
    ForgottenStays(t, k, more);
    TableIsLastSync(all, k);
    InvAlways(all);
  }

  /** The reconcile gets as far as the election. */
  predicate ReachesElection(env: R.Env) {
    && env.getPolicy.Ok? && !env.deleting && env.hasFinalizer && Normalized(env.probe).Some?
    && env.getDeployment.Ok? && env.listPolicies.Some?
    && DistinctNames(env.listPolicies.value) && env.self in env.listPolicies.value
    && (forall q :: q in env.listPolicies.value ==> q.name != "")
  }

  /**
    A policy that is not the guardian of its Deployment takes no action and, from its
    reconcile until it is synced again, has no uncancelled prober.
   */
  lemma LosersDoNotProbe(t: Trace, st: Status, env: R.Env, more: Trace)
    requires ReachesElection(env) && !IsGuardian(env.self, env.listPolicies.value)
    requires NoSyncOf(more, env.key)
    ensures R.Step(st, env).actions == []
    ensures var w := Exec(t + R.Calls(env) + more);
            env.key !in w.policies && forall c :: c in w.probers && w.probers[c].key == env.key ==> c in w.cancelled
  {
    VerdictNamesGuardian(env.self, env.listPolicies.value);
    assert R.Calls(env) == [Forget(env.key)];
    NoProbersAfterForget(t, env.key, more);
  }

  /**
    What makes a reconcile that does not guard forget its policy: the policy is being
    deleted, or its probe is valid and its Deployment is gone or guarded by another policy.
   */
  predicate Forgets(env: R.Env) {
    && env.getPolicy.Ok? && env.hasFinalizer
    && (env.deleting
        || (Normalized(env.probe).Some?
            && (env.getDeployment.NotFound?
                || (env.getDeployment.Ok? && env.listPolicies.Some?
                    && Verdict(env.self, env.listPolicies.value) != ""))))
  }

  lemma NonGuardingCalls(env: R.Env)
    requires !R.PreludeOf(env).Ready?
    ensures R.Calls(env) == if Forgets(env) then [Forget(env.key)] else []
  {
    hide Normalized;
    hide Verdict;
  }

  /**
    A reconcile that does not get to guard its target changes nothing in the cluster. It
    takes the policy out of the prober's table if and only if it forgets it; then no prober
    of the policy is left uncancelled until its next Sync.
   */
  lemma DropsProbersIff(t: Trace, st: Status, env: R.Env, more: Trace)
    requires !R.PreludeOf(env).Ready? && NoSyncOf(more, env.key)
    ensures R.Step(st, env).actions == []
    ensures env.key in Exec(t).policies ==> (env.key !in Exec(t + R.Calls(env)).policies <==> Forgets(env))
    ensures Forgets(env) ==>
              var w := Exec(t + R.Calls(env) + more);
              env.key !in w.policies && forall c :: c in w.probers && w.probers[c].key == env.key ==> c in w.cancelled
  {
    NonGuardingCalls(env);
    if Forgets(env) {
      NoProbersAfterForget(t, env.key, more);
      NoProbersAfterForget(t, env.key, []);
      assert t + [Forget(env.key)] + [] == t + R.Calls(env);
    } else {
      assert t + R.Calls(env) == t;
    }
  }

  /** A call of the controller on the prober, for this policy. */
  predicate IsCall(e: Event, k: Key) {
    (e.Sync? || e.SetSeenReady? || e.Forget?) && e.key == k
  }

  /** The controller's calls for the policy, in order, among the steps of a trace. */
  function CallsOf(t: Trace, k: Key): Trace {
    if t == [] then []
    else CallsOf(Before(t), k) + if IsCall(Final(t), k) then [Final(t)] else []
  }

  /**
    Any other reconcile that does not guard leaves every prober of the policy running, under
    the old config, however the prober goes on until the controller's next call for it.
   */
  lemma LeavesProbersRunning(t: Trace, env: R.Env, more: Trace)
    requires !R.PreludeOf(env).Ready? && !Forgets(env) && CallsOf(more, env.key) == []
    ensures R.Calls(env) == []
    ensures KeepsProbing(Exec(t), Exec(t + R.Calls(env) + more), env.key)
  {
    NonGuardingCalls(env);
    assert t + R.Calls(env) == t;
    NoCallsKeepShape(t, env.key, more);
    InvAlways(t + more);
  }

  /** Same config, same pods, each with the prober it had. */
  ghost predicate SameShape(w: World, w': World, k: Key) {
    && (k in w'.policies <==> k in w.policies) && Pods(w', k).Keys == Pods(w, k).Keys
    && (k in w.policies ==> w'.policies[k].cfg == w.policies[k].cfg)
    && forall u :: u in Pods(w, k) ==> Pods(w', k)[u].ctx == Pods(w, k)[u].ctx
  }

  /** And none of those probers cancelled. */
  ghost predicate KeepsProbing(w: World, w': World, k: Key) {
    SameShape(w, w', k) && forall u :: Found(w', k, u) ==> OwnsProber(w', k, u)
  }

  lemma OtherStepsKeepShape(w: World, e: Event, k: Key)
    requires !IsCall(e, k)
    ensures SameShape(w, Step(w, e), k)
  {
    OnlySyncAndForgetShapeTable(w, e, k);
    hide Step;
    forall u | u in Pods(w, k) ensures Pods(Step(w, e), k)[u].ctx == Pods(w, k)[u].ctx {
      assert Found(w, k, u);
    }
  }

  lemma {:induction false} NoCallsKeepShape(t: Trace, k: Key, more: Trace)
    requires CallsOf(more, k) == []
    ensures SameShape(Exec(t), Exec(t + more), k)
  {
    hide Step;
    if more == [] {
      assert t + more == t;
    } else {
      var p, e := Before(more), Final(more);
      NoCallsKeepShape(t, k, p);
      assert t + more == t + p + [e];
      ExecSnoc(t + p, e);
      OtherStepsKeepShape(Exec(t + p), e, k);
    }
  }

  /** A probe without httpGet, which is not accepted. */
  const NO_PROBE := Probe(None, 10, 1, 0, 1, 3)

  /**
    A leak, then: the Deployment is gone, but with an invalid probe in the spec the reconcile
    does not look, and the prober goes on.
   */
  lemma InvalidProbeLeaks(k: Key, cfg: ProbeConfig, x: Target)
    ensures var env := Example(10, 300, 0).(key := k, probe := NO_PROBE, getDeployment := NotFound);
            var w := Exec(Probing(k, cfg, x) + R.Calls(env));
            var c := Context(0, x.uid);
            Found(w, k, x.uid) && c in w.probers && c !in w.cancelled && w.probers[c].phase == InFlight(cfg)
  {
    ProbingWorld(k, cfg, x);
    var env := Example(10, 300, 0).(key := k, probe := NO_PROBE, getDeployment := NotFound);
    assert R.Calls(env) == [];
    assert Probing(k, cfg, x) + R.Calls(env) == Probing(k, cfg, x);
  }

  // ---------------------------------------------------------------------------
  // What a guarding reconcile leaves
  // ---------------------------------------------------------------------------

  lemma {:induction false} TargetsAre(pods: seq<Pod>, x: Target)
    ensures x in R.Targets(pods) <==> exists p :: p in pods && !p.terminating && x == Target(p.name, p.uid, p.ip)
  {
    if pods != [] {
      var n := |pods| - 1;
      TargetsAre(pods[..n], x);
      assert pods == pods[..n] + [pods[n]];
    }
  }

  /** A reconcile reports a pod as seen Ready exactly when it lists it with its first Ready condition "True". */
  lemma {:induction false} ReadyCallsAre(k: Key, pods: seq<Pod>, u: UID)
    ensures SetSeenReady(k, u) in R.ReadyCalls(k, pods) <==>
              exists p :: p in pods && p.uid == u && R.FirstReadyIsTrue(p.conditions)
  {
    if pods != [] {
      var n := |pods| - 1;
      ReadyCallsAre(k, pods[..n], u);
      R.PodReadyIff(pods[n].conditions);
      hide R.FirstReadyIsTrue;
      assert pods == pods[..n] + [pods[n]];
    }
  }

  lemma LastSyncNext(t: Trace, e: Event, k: Key)
    ensures LastSync(t + [e], k) == if !IsCall(e, k) || e.SetSeenReady? then LastSync(t, k)
                                    else if e.Sync? then Some(e.targets) else None
  {
    assert Before(t + [e]) == t && Final(t + [e]) == e;
  }

  lemma {:induction false} LastSyncOfCalls(t: Trace, k: Key)
    ensures LastSync(t, k) == LastSync(CallsOf(t, k), k)
  {
    hide LastSync;
    if t != [] {
      var p, e := Before(t), Final(t);
      assert t == p + [e];
      LastSyncOfCalls(p, k);
      LastSyncNext(p, e, k);
      if IsCall(e, k) {
        LastSyncNext(CallsOf(p, k), e, k);
      } else {
        assert CallsOf(t, k) == CallsOf(p, k);
      }
    }
  }

  lemma {:induction false} CallsOfConcat(t: Trace, more: Trace, k: Key)
    ensures CallsOf(t + more, k) == CallsOf(t, k) + CallsOf(more, k)
  {
    if more == [] {
      assert t + more == t;
    } else {
      assert Before(t + more) == t + Before(more) && Final(t + more) == Final(more);
      CallsOfConcat(t, Before(more), k);
    }
  }

  lemma {:induction false} ReadyCallsKeepTable(t: Trace, k: Key, pods: seq<Pod>)
    ensures LastSync(t + R.ReadyCalls(k, pods), k) == LastSync(t, k)
  {
    if pods == [] {
      assert t + R.ReadyCalls(k, pods) == t;
    } else {
      var n := |pods| - 1;
      ReadyCallsKeepTable(t, k, pods[..n]);
      if R.PodReady(pods[n].conditions) {
        var all := t + R.ReadyCalls(k, pods);
        assert Before(all) == t + R.ReadyCalls(k, pods[..n]);
        assert Final(all) == SetSeenReady(k, pods[n].uid);
      } else {
        assert R.ReadyCalls(k, pods) == R.ReadyCalls(k, pods[..n]);
      }
    }
  }

  lemma CallsWhenReady(env: R.Env)
    requires R.PreludeOf(env).Ready?
    ensures env.listPods.Some?
    ensures var pods := env.listPods.value;
            R.Calls(env) == [Sync(env.key, R.PreludeOf(env).cfg, R.Targets(pods))] + R.ReadyCalls(env.key, pods)
  {
  }

  /** After a guarding reconcile's calls, amid any other steps, its targets are those last synced. */
  lemma SyncedByReconcile(t: Trace, events: Trace, env: R.Env)
    requires R.PreludeOf(env).Ready? && CallsOf(events, env.key) == R.Calls(env)
    ensures env.listPods.Some?
    ensures LastSync(t + events, env.key) == Some(R.Targets(env.listPods.value))
  {
    hide R.PreludeOf;
    hide R.Calls;
    hide R.ReadyCalls;
    hide R.Targets;
    hide CallsOf;
    hide LastSync;
    CallsWhenReady(env);
    var pods, k := env.listPods.value, env.key;
    var sync := Sync(k, R.PreludeOf(env).cfg, R.Targets(pods));
    var before := CallsOf(t, k) + [sync];
    LastSyncOfCalls(t + events, k);
    CallsOfConcat(t, events, k);
    Regroup(CallsOf(t, k), sync, R.ReadyCalls(k, pods));
    ReadyCallsKeepTable(before, k, pods);
    LastSyncNext(CallsOf(t, k), sync, k);
  }

  lemma Regroup(a: Trace, e: Event, b: Trace)
    ensures a + ([e] + b) == a + [e] + b
  {
  }

  /** The last live pod of the list with this UID has this name and address. */
  predicate IsLastLive(pods: seq<Pod>, u: UID, name: string, ip: string) {
    exists i :: 0 <= i < |pods| && !pods[i].terminating && pods[i].uid == u && pods[i].name == name && pods[i].ip == ip
                && forall j :: i < j < |pods| ==> pods[j].terminating || pods[j].uid != u
  }

  lemma LastLiveNext(ps: seq<Pod>, p: Pod, u: UID, name: string, ip: string)
    ensures !p.terminating && p.uid == u && p.name == name && p.ip == ip ==> IsLastLive(ps + [p], u, name, ip)
    ensures IsLastLive(ps, u, name, ip) && (p.terminating || p.uid != u) ==> IsLastLive(ps + [p], u, name, ip)
  {
    var all := ps + [p];
    assert all[|ps|] == p;
    if IsLastLive(ps, u, name, ip) && (p.terminating || p.uid != u) {
      var i :| 0 <= i < |ps| && !ps[i].terminating && ps[i].uid == u && ps[i].name == name && ps[i].ip == ip
               && forall j :: i < j < |ps| ==> ps[j].terminating || ps[j].uid != u;
      assert all[i] == ps[i] && forall j :: i < j < |ps| ==> all[j] == ps[j];
    }
  }

  lemma LastTargetSplit(ts: seq<Target>, x: Target, u: UID, name: string, ip: string)
    requires IsLastTarget(ts + [x], u, name, ip)
    ensures x == Target(name, u, ip) || (x.uid != u && IsLastTarget(ts, u, name, ip))
  {
    var all := ts + [x];
    var i :| 0 <= i < |all| && all[i] == Target(name, u, ip) && forall j :: i < j < |all| ==> all[j].uid != u;
    if i < |ts| {
      assert all[|ts|].uid != u;
      assert ts[i] == all[i] && forall j :: i < j < |ts| ==> ts[j] == all[j];
    }
  }

  lemma {:induction false} LastTargetIsLastLive(pods: seq<Pod>, u: UID, name: string, ip: string)
    requires IsLastTarget(R.Targets(pods), u, name, ip)
    ensures IsLastLive(pods, u, name, ip)
  {
    assert pods != [];
    var ps, p := pods[..|pods| - 1], pods[|pods| - 1];
    var ts := R.Targets(ps);
    assert pods == ps + [p];
    assert R.Targets(pods) == if p.terminating then ts else ts + [Target(p.name, p.uid, p.ip)];
    hide R.Targets;
    LastLiveNext(ps, p, u, name, ip);
    if !p.terminating {
      LastTargetSplit(ts, Target(p.name, p.uid, p.ip), u, name, ip);
    }
    hide IsLastLive;
    hide IsLastTarget;
    if p.terminating || p.uid != u {
      LastTargetIsLastLive(ps, u, name, ip);
    }
  }

  /**
    The guardian's reconcile, interleaved with any other steps, leaves exactly the listed
    pods that are not terminating in its table, each under the name and address it is listed
    with and with one uncancelled prober of its own.
   */
  lemma GuardianProbesLivePods(t: Trace, events: Trace, env: R.Env)
    requires R.PreludeOf(env).Ready? && CallsOf(events, env.key) == R.Calls(env)
    ensures env.listPods.Some?
    ensures var w := Exec(t + events);
            forall u :: (u in Pods(w, env.key) <==> exists p :: p in env.listPods.value && !p.terminating && p.uid == u)
                     && (u in Pods(w, env.key) ==>
                           && OwnsProber(w, env.key, u)
                           && var pod := EntryOf(w, env.key, u).pod;
                              IsLastLive(env.listPods.value, u, pod.name, pod.ip))
  {
    SyncedByReconcile(t, events, env);
    var pods, k, w := env.listPods.value, env.key, Exec(t + events);
    TableIsLastSync(t + events, k);
    InvAlways(t + events);
    forall u
      ensures u in Pods(w, k) <==> exists p :: p in pods && !p.terminating && p.uid == u
      ensures u in Pods(w, k) ==>
                OwnsProber(w, k, u) && IsLastLive(pods, u, EntryOf(w, k, u).pod.name, EntryOf(w, k, u).pod.ip)
    {
      if u in Pods(w, k) {
        LastTargetIsLastLive(pods, u, EntryOf(w, k, u).pod.name, EntryOf(w, k, u).pod.ip);
        var x :| x in R.Targets(pods) && x.uid == u;
        TargetsAre(pods, x);
        assert Found(w, k, u);
      }
      forall p | p in pods && !p.terminating && p.uid == u ensures u in Pods(w, k) {
        TargetsAre(pods, Target(p.name, p.uid, p.ip));
      }
    }
  }
}
