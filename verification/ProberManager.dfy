/**
  The prober Manager of internal/prober/prober.go in its own imperative form: a table that
  methods update in place, each method standing for one critical section under the mutex.
  Every method is proved to be the corresponding step of ProberTable.
 */
module ProberManager {
  import opened Options
  import opened Int32
  import opened Hysteresis
  import opened ProberTable

  /** `record`: applies one probe result to a pod and reports whether the verdict flipped. */
  method Record(entry: PodState, cfg: ProbeConfig, ok: bool, now: int) returns (pod: PodState, transitioned: bool)
    ensures pod == Recorded(entry, Sample(cfg, ok), now)
    ensures transitioned <==> pod.health.healthy != entry.health.healthy
  {
    var success := cfg.successThreshold;
    if success <= 0 {
      success := 1;
    }
    var failure := cfg.failureThreshold;
    if failure <= 0 {
      failure := 3;
    }
    pod := entry.(lastProbe := Some(now));
    transitioned := false;
    if ok {
      pod := pod.(health := pod.health.(successes := Increment(pod.health.successes), failures := 0));
      if !pod.health.healthy && pod.health.successes >= success {
        pod := pod.(health := pod.health.(healthy := true), lastTransition := Some(now));
        transitioned := true;
      }
    } else {
      pod := pod.(health := pod.health.(failures := Increment(pod.health.failures), successes := 0));
      if pod.health.healthy && pod.health.failures >= failure {
        pod := pod.(health := pod.health.(healthy := false), lastTransition := Some(now));
        transitioned := true;
      }
    }
  }

  /** The targets by UID, a repeated UID keeping its last target. */
  method CollectDesired(targets: seq<Target>) returns (desired: map<UID, Target>)
    ensures desired == Desired(targets)
  {
    desired := map[];
    for i := 0 to |targets|
      invariant desired == Desired(targets[..i])
    {
      desired := desired[targets[i].uid := targets[i]];
      assert targets[..i + 1][..i] == targets[..i];
    }
    assert targets[..|targets|] == targets;
  }

  /** `order` lists the table's keys once each and `out` their records. */
  ghost predicate IsOrderOf(pods: map<UID, Entry>, order: seq<UID>, out: seq<PodState>) {
    && |order| == |out| && pods.Keys == (set u | u in order)
    && (forall i :: 0 <= i < |out| ==> order[i] in pods && out[i] == pods[order[i]].pod)
    && (forall i, j :: 0 <= i < j < |order| ==> order[i] != order[j])
  }

  /** The records of all pods, once each, in some order. */
  ghost predicate IsSnapshot(pods: map<UID, Entry>, out: seq<PodState>) {
    exists order :: IsOrderOf(pods, order, out)
  }

  lemma SpawnedInsert(probers: map<Context, Prober>, k: Key, added: set<UID>, u: UID, serial: nat)
    ensures probers + Spawned(k, added + {u}, serial) ==
            (probers + Spawned(k, added, serial))[Context(serial, u) := Prober(k, u, Starting)]
  {
    assert u in added + {u};
    assert (set v | v in added + {u} :: Context(serial, v)) ==
           (set v | v in added :: Context(serial, v)) + {Context(serial, u)};
  }

  class Manager {
    var policies: map<Key, PolicyEntry>
    var probers: map<Context, Prober>
    var cancelled: set<Context>
    var serial: nat
    var stopped: bool
    var queue: seq<Key>

    /** The state that the methods are specified against. */
    function State(): World
      reads this
    {
      World(policies, probers, cancelled, serial, stopped, queue)
    }

    constructor ()
      ensures State() == EMPTY
    {
      policies := map[];
      probers := map[];
      cancelled := {};
      serial := 0;
      stopped := false;
      queue := [];
    }

    method SetSeenReady(k: Key, u: UID)
      modifies this`policies
      ensures State() == SeenReadyStep(old(State()), k, u)
    {
      if k in policies && u in policies[k].pods {
        var entry := policies[k].pods[u];
        entry := entry.(pod := entry.pod.(seenReady := true));
        policies := policies[k := policies[k].(pods := policies[k].pods[u := entry])];
      }
    }

    /** `run` up to its first wait. */
    method RunStart(c: Context)
      modifies this`probers
      ensures State() == RunStartStep(old(State()), c)
    {
      if c in probers && probers[c].phase.Starting? {
        var phase := Waiting;
        if probers[c].key !in policies {
          phase := Exited;
        }
        probers := probers[c := probers[c].(phase := phase)];
      }
    }

    /** First critical section of `probeOnce`. */
    method ProbeBegin(c: Context)
      modifies this`probers
      ensures State() == ProbeBeginStep(old(State()), c)
    {
      if c in probers && probers[c].phase.Waiting? {
        var p := probers[c];
        if p.key in policies && p.uid in policies[p.key].pods {
          probers := probers[c := p.(phase := InFlight(policies[p.key].cfg))];
        }
      }
    }

    /** Second critical section of `probeOnce`: the pod is looked up again. */
    method ProbeEnd(c: Context, ok: bool, now: int)
      modifies this`policies, this`probers
      ensures State() == ProbeEndStep(old(State()), c, ok, now)
    {
      if c in probers && probers[c].phase.InFlight? {
        var p := probers[c];
        var phase := Waiting;
        if p.key in policies && p.uid in policies[p.key].pods {
          var pe := policies[p.key];
          var pod, transitioned := Record(pe.pods[p.uid].pod, p.phase.cfg, ok, now);
          policies := policies[p.key := pe.(pods := pe.pods[p.uid := pe.pods[p.uid].(pod := pod)])];
          if transitioned {
            phase := Sending;
          }
        }
        probers := probers[c := p.(phase := phase)];
      }
    }

    /** The event of a transition goes into the channel when there is room. */
    method Send(c: Context)
      modifies this`probers, this`queue
      ensures State() == Step(old(State()), ProberTable.Send(c))
    {
      if c in probers && probers[c].phase.Sending? && |queue| < CAPACITY {
        queue := queue + [probers[c].key];
        probers := probers[c := probers[c].(phase := Waiting)];
      }
    }

    /** A send is given up only when the prober's context is done. */
    method Abandon(c: Context)
      modifies this`probers
      ensures State() == Step(old(State()), ProberTable.Abandon(c))
    {
      if c in probers && probers[c].phase.Sending? && (c in cancelled || stopped) {
        probers := probers[c := probers[c].(phase := Waiting)];
      }
    }

    /** `run` returns when its context is done. */
    method Exit(c: Context)
      modifies this`probers
      ensures State() == Step(old(State()), ProberTable.Exit(c))
    {
      if c in probers && probers[c].phase.Waiting? && (c in cancelled || stopped) {
        probers := probers[c := probers[c].(phase := Exited)];
      }
    }

    /** Cancels the root context that every prober's derives from. */
    method Stop()
      modifies this`stopped
      ensures State() == Step(old(State()), ProberTable.Stop)
    {
      stopped := true;
    }

    /** Copies the records of one policy's pods, in an arbitrary map order. */
    method Snapshot(k: Key) returns (out: seq<PodState>)
      ensures IsSnapshot(Pods(State(), k), out)
    {
      out := [];
      ghost var order: seq<UID> := [];
      if k in policies {
        var pods := policies[k].pods;
        var todo := pods.Keys;
        while todo != {}
          invariant |order| == |out| && todo !! set u | u in order
          invariant pods.Keys == todo + set u | u in order
          invariant forall i :: 0 <= i < |out| ==> order[i] in pods && out[i] == pods[order[i]].pod
          invariant forall i, j :: 0 <= i < j < |order| ==> order[i] != order[j]
        {
          var u :| u in todo;
          todo := todo - {u};
          out := out + [pods[u].pod];
          order := order + [u];
        }
      }
      assert IsOrderOf(Pods(State(), k), order, out);
    }

    /** Cancels every prober of the policy and drops its table. */
    method Forget(k: Key)
      modifies this`policies, this`cancelled
      ensures State() == ForgetStep(old(State()), k)
    {
      if k in policies {
        var _ := CancelMissing(policies[k].pods, {});
        policies := policies - {k};
      }
    }

    /** Cancels the probers of the pods that are not to be kept, and drops them. */
    method CancelMissing(pods: map<UID, Entry>, keep: set<UID>) returns (kept: map<UID, Entry>)
      modifies this`cancelled
      ensures cancelled == old(cancelled) + Removed(pods, keep)
      ensures kept == map u | u in pods && u in keep :: pods[u]
    {
      kept := pods;
      var todo := pods.Keys;
      while todo != {}
        invariant todo <= pods.Keys
        invariant cancelled == old(cancelled) + set u | u in pods && u !in keep && u !in todo :: pods[u].ctx
        invariant kept == map u | u in pods && (u in keep || u in todo) :: pods[u]
      {
        var u :| u in todo;
        todo := todo - {u};
        if u !in keep {
          cancelled := cancelled + {pods[u].ctx};
          kept := kept - {u};
        }
      }
    }

    /** Refreshes the known pods and starts probers for the new ones. */
    method InstallDesired(k: Key, desired: map<UID, Target>, kept: map<UID, Entry>) returns (pods: map<UID, Entry>)
      requires kept.Keys <= desired.Keys
      modifies this`probers
      ensures pods == SyncedPods(kept, desired, serial)
      ensures probers == old(probers) + Spawned(k, desired.Keys - kept.Keys, serial)
    {
      pods := kept;
      var todo := desired.Keys;
      ghost var added: set<UID> := {};
      while todo != {}
        invariant todo <= desired.Keys
        invariant forall u :: u in added <==> u in desired && u !in todo && u !in kept
        invariant forall u :: u in pods ==> u in desired
        invariant forall u :: u in todo ==> (u in pods <==> u in kept)
        invariant forall u :: u in todo && u in kept ==> pods[u] == kept[u]
        invariant forall u :: u in desired && u !in todo ==>
                    u in pods && pods[u] == SyncedEntry(kept, desired[u], u, serial)
        invariant probers == old(probers) + Spawned(k, added, serial)
      {
        var u :| u in todo;
        todo := todo - {u};
        var t := desired[u];
        if u in pods {
          pods := pods[u := pods[u].(pod := pods[u].pod.(ip := t.ip, name := t.name))];
        } else {
          var pod := PodState(t.name, t.uid, t.ip, Health(true, 0, 0), false, None, None);
          pods := pods[u := Entry(pod, Context(serial, u))];
          probers := probers[Context(serial, u) := Prober(k, u, Starting)];
          SpawnedInsert(old(probers), k, added, u, serial);
          added := added + {u};
        }
      }
      assert added == desired.Keys - kept.Keys;
    }

    /** Makes the probed pods of a policy match the targets. */
    method Sync(k: Key, cfg: ProbeConfig, targets: seq<Target>)
      modifies this`policies, this`probers, this`cancelled, this`serial
      ensures State() == SyncStep(old(State()), k, cfg, targets)
    {
      var pods := if k in policies then policies[k].pods else map[];
      var desired := CollectDesired(targets);
      var kept := CancelMissing(pods, desired.Keys);
      var synced := InstallDesired(k, desired, kept);
      policies := policies[k := PolicyEntry(cfg, synced)];
      serial := serial + 1;
      assert desired.Keys - kept.Keys == desired.Keys - pods.Keys;
      assert synced == SyncedPods(pods, desired, old(serial));
    }
  }
}
