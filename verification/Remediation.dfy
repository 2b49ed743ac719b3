/** `remediate` of internal/controller/hotswappolicy_controller.go: restart, or delete pods. */
module Remediation {
  import opened Int32
  import opened ProberTable
  import opened PolicyApi
  import opened Gates

  /** What the API server answers. */
  datatype ApiResult = Ok | NotFound | Failed

  /** A change made to the cluster. */
  datatype Action = Restart(at: int) | Delete(pod: string)

  /** A target past its grace whose probe verdict is unhealthy. */
  predicate IsUnhealthy(s: PodState) {
    !s.health.healthy && s.seenReady
  }

  /** The unhealthy targets, in snapshot order. */
  function Unhealthy(snapshot: seq<PodState>): seq<PodState> {
    if snapshot == [] then []
    else
      var s := snapshot[|snapshot| - 1];
      Unhealthy(snapshot[..|snapshot| - 1]) + if IsUnhealthy(s) then [s] else []
  }

  method SelectUnhealthy(snapshot: seq<PodState>) returns (unhealthy: seq<PodState>)
    ensures unhealthy == Unhealthy(snapshot)
  {
    unhealthy := [];
    for i := 0 to |snapshot|
      invariant unhealthy == Unhealthy(snapshot[..i])
    {
      assert snapshot[..i + 1][..i] == snapshot[..i];
      if IsUnhealthy(snapshot[i]) {
        unhealthy := unhealthy + [snapshot[i]];
      }
    }
    assert snapshot[..|snapshot|] == snapshot;
  }

  /** What the API answers a delete of this pod; a pod not mentioned is there and goes. */
  function DeleteResult(deletes: map<string, ApiResult>, name: string): ApiResult {
    if name in deletes then deletes[name] else Ok
  }

  /** State of the deletion loop. */
  datatype Sweep = Sweep(acted: nat, podName: string, actions: seq<Action>, failed: bool)

  /** The deletion loop over `us`: stop at the limit or an error, skip pods already gone. */
  function Swept(us: seq<PodState>, limit: int32, deletes: map<string, ApiResult>, dryRun: bool): Sweep {
    if us == [] then Sweep(0, "", [], false)
    else
      var r := Swept(us[..|us| - 1], limit, deletes, dryRun);
      var name := us[|us| - 1].name;
      if r.failed || r.acted >= limit then r
      else if dryRun then Sweep(r.acted + 1, name, r.actions, false)
      else
        match DeleteResult(deletes, name)
        case Ok => Sweep(r.acted + 1, name, r.actions + [Delete(name)], false)
        case NotFound => r
        case Failed => r.(failed := true)
  }

  /** A loop that stopped early has the final state. */
  lemma {:induction false} SweptStopped(
    us: seq<PodState>, limit: int32, deletes: map<string, ApiResult>, dryRun: bool, i: nat)
    requires i <= |us|
    requires Swept(us[..i], limit, deletes, dryRun).failed || Swept(us[..i], limit, deletes, dryRun).acted >= limit
    ensures Swept(us, limit, deletes, dryRun) == Swept(us[..i], limit, deletes, dryRun)
  {
    if i < |us| {
      var n := |us| - 1;
      assert us[..n][..i] == us[..i];
      SweptStopped(us[..n], limit, deletes, dryRun, i);
    } else {
      assert us[..i] == us;
    }
  }

  /** The deletion loop as the source runs it. */
  method Sweeping(us: seq<PodState>, limit: int32, deletes: map<string, ApiResult>, dryRun: bool) returns (r: Sweep)
    ensures r == Swept(us, limit, deletes, dryRun)
  {
    var acted, podName, actions := 0, "", [];
    for i := 0 to |us|
      invariant Sweep(acted, podName, actions, false) == Swept(us[..i], limit, deletes, dryRun)
    {
      if acted >= limit {
        SweptStopped(us, limit, deletes, dryRun, i);
        return Sweep(acted, podName, actions, false);
      }
      assert us[..i + 1][..i] == us[..i];
      if !dryRun {
        var answer := DeleteResult(deletes, us[i].name);
        if answer.NotFound? {
          continue;
        }
        if answer.Failed? {
          SweptStopped(us, limit, deletes, dryRun, i + 1);
          return Sweep(acted, podName, actions, true);
        }
        actions := actions + [Delete(us[i].name)];
      }
      acted := acted + 1;
      podName := us[i].name;
    }
    assert us[..|us|] == us;
    r := Sweep(acted, podName, actions, false);
  }

  /** Deletions of all the pods that are still there, in order. */
  function Existing(us: seq<PodState>, deletes: map<string, ApiResult>): seq<Action> {
    if us == [] then []
    else
      var name := us[|us| - 1].name;
      Existing(us[..|us| - 1], deletes) + if DeleteResult(deletes, name).Ok? then [Delete(name)] else []
  }

  /** The API answers every delete with ok or a tolerated NotFound. */
  predicate Tolerated(us: seq<PodState>, deletes: map<string, ApiResult>) {
    forall i :: 0 <= i < |us| ==> !DeleteResult(deletes, us[i].name).Failed?
  }

  function Min(a: int, b: int): int {
    if a <= b then a else b
  }

  /** Without an error, the loop deletes the first min(limit, number still there) of them. */
  lemma {:induction false} SweptExact(us: seq<PodState>, limit: int32, deletes: map<string, ApiResult>)
    requires limit >= 1
    ensures var r, e := Swept(us, limit, deletes, false), Existing(us, deletes);
            && |r.actions| == r.acted <= Min(limit, |e|) && r.actions <= e
            && (!r.failed ==> r.acted == Min(limit, |e|))
            && |e| <= |us|
  {
    if us != [] {
      var p := us[..|us| - 1];
      SweptExact(p, limit, deletes);
      if Swept(p, limit, deletes, false).acted == |Existing(p, deletes)| {
        assert Swept(p, limit, deletes, false).actions == Existing(p, deletes);
      }
    }
  }

  lemma {:induction false} SweptSucceeds(us: seq<PodState>, limit: int32, deletes: map<string, ApiResult>)
    requires Tolerated(us, deletes)
    ensures !Swept(us, limit, deletes, false).failed
  {
    if us != [] {
      var n := |us| - 1;
      assert !DeleteResult(deletes, us[n].name).Failed?;
      SweptSucceeds(us[..n], limit, deletes);
    }
  }

  /**
    The live loop deletes a prefix of the pods still there, never more than the limit; with
    no API error exactly the first min(limit, number still there) of them.
   */
  lemma {:induction false} SweptDeletes(us: seq<PodState>, limit: int32, deletes: map<string, ApiResult>)
    requires limit >= 1
    ensures var r, e := Swept(us, limit, deletes, false), Existing(us, deletes);
            && r.actions <= e && |r.actions| == r.acted <= limit
            && (!r.failed ==> r.actions == e[..Min(limit, |e|)])
            && (Tolerated(us, deletes) ==> !r.failed)
            && |e| <= |us|
  {
    hide Swept;
    hide Existing;
    SweptExact(us, limit, deletes);
    if Tolerated(us, deletes) {
      SweptSucceeds(us, limit, deletes);
    }
  }

  /** The delete of the `i`-th pod is an error, and the pods before it do not reach the limit. */
  predicate FailsAt(us: seq<PodState>, limit: int32, deletes: map<string, ApiResult>, i: nat)
    requires i < |us|
  {
    DeleteResult(deletes, us[i].name).Failed? && |Existing(us[..i], deletes)| < limit
  }

  /** The live loop returns an error exactly when it meets one before its limit. */
  lemma {:induction false} SweptFailsIff(us: seq<PodState>, limit: int32, deletes: map<string, ApiResult>)
    requires limit >= 1
    ensures Swept(us, limit, deletes, false).failed <==> exists i :: 0 <= i < |us| && FailsAt(us, limit, deletes, i)
  {
    if us != [] {
      var n := |us| - 1;
      SweptFailsIff(us[..n], limit, deletes);
      SweptExact(us[..n], limit, deletes);
      forall i | 0 <= i < n ensures FailsAt(us[..n], limit, deletes, i) == FailsAt(us, limit, deletes, i) {
        assert us[..n][..i] == us[..i];
      }
      if exists i :: 0 <= i < n && FailsAt(us[..n], limit, deletes, i) {
        var i :| 0 <= i < n && FailsAt(us[..n], limit, deletes, i);
        assert FailsAt(us, limit, deletes, i);
      } else {
        assert Swept(us, limit, deletes, false).failed <==> FailsAt(us, limit, deletes, n);
      }
    }
  }

  /** With an error, it has deleted exactly the existing pods listed before the first one it met. */
  lemma SweptUpToFailure(us: seq<PodState>, limit: int32, deletes: map<string, ApiResult>, i: nat)
    requires limit >= 1 && i < |us| && FailsAt(us, limit, deletes, i)
    requires forall j :: 0 <= j < i ==> !FailsAt(us, limit, deletes, j)
    ensures Swept(us, limit, deletes, false).failed
    ensures Swept(us, limit, deletes, false).actions == Existing(us[..i], deletes)
  {
    var p := us[..i];
    SweptFailsIff(p, limit, deletes);
    forall j | 0 <= j < i ensures !FailsAt(p, limit, deletes, j) {
      assert p[..j] == us[..j];
      assert !FailsAt(us, limit, deletes, j);
    }
    SweptDeletes(p, limit, deletes);
    assert us[..i + 1][..i] == p;
    SweptStopped(us, limit, deletes, false, i + 1);
  }

  /** Everything deleted is an unhealthy target of that list. */
  lemma {:induction false} ExistingAreListed(us: seq<PodState>, deletes: map<string, ApiResult>, a: Action)
    requires a in Existing(us, deletes)
    ensures a.Delete? && DeleteResult(deletes, a.pod).Ok? && exists i :: 0 <= i < |us| && us[i].name == a.pod
  {
    var n := |us| - 1;
    if a == Delete(us[n].name) && DeleteResult(deletes, us[n].name).Ok? {
    } else {
      ExistingAreListed(us[..n], deletes, a);
      var i :| 0 <= i < n && us[..n][i].name == a.pod;
      assert us[i].name == a.pod;
    }
  }

  /** With distinct names no pod is deleted twice. */
  lemma {:induction false} ExistingDistinct(us: seq<PodState>, deletes: map<string, ApiResult>)
    requires forall i, j :: 0 <= i < j < |us| ==> us[i].name != us[j].name
    ensures forall i, j :: 0 <= i < j < |Existing(us, deletes)| ==> Existing(us, deletes)[i] != Existing(us, deletes)[j]
  {
    if us != [] {
      var n := |us| - 1;
      ExistingDistinct(us[..n], deletes);
      var e := Existing(us[..n], deletes);
      forall x | 0 <= x < |e| ensures e[x] != Delete(us[n].name) {
        assert e[x] in e;
        ExistingAreListed(us[..n], deletes, e[x]);
        var i :| 0 <= i < n && us[..n][i].name == e[x].pod;
        assert us[i].name != us[n].name;
      }
    }
  }

  /** A dry run counts as many targets and deletes none. */
  lemma {:induction false} SweptDry(us: seq<PodState>, limit: int32, deletes: map<string, ApiResult>)
    requires limit >= 1
    ensures var r := Swept(us, limit, deletes, true);
            r.actions == [] && !r.failed && r.acted == Min(limit, |us|)
  {
    if us != [] {
      SweptDry(us[..|us| - 1], limit, deletes);
    }
  }

  /** Every unhealthy target listed is one of the snapshot's, and all of those are listed. */
  lemma {:induction false} UnhealthyAreListed(snapshot: seq<PodState>)
    ensures forall s :: s in Unhealthy(snapshot) <==> s in snapshot && IsUnhealthy(s)
    ensures |Unhealthy(snapshot)| <= |snapshot|
  {
    if snapshot != [] {
      var n := |snapshot| - 1;
      UnhealthyAreListed(snapshot[..n]);
      assert snapshot == snapshot[..n] + [snapshot[n]];
    }
  }

  /** What `remediate` did: its actions, the pod it reports and whether it returned an error. */
  datatype Remedy = Remedy(actions: seq<Action>, podName: string, failed: bool)

  function Remediate(
    strategy: Strategy, us: seq<PodState>, spec: RemediationSpec, now: int,
    patch: ApiResult, deletes: map<string, ApiResult>): Remedy
    requires us != []
  {
    match strategy
    case RolloutRestart =>
      if spec.dryRun then Remedy([], us[0].name, false)
      else if patch.Ok? then Remedy([Restart(now)], us[0].name, false)
      else Remedy([], "", true)
    case DeletePod =>
      var r := Swept(us, EffectiveLimit(spec), deletes, spec.dryRun);
      Remedy(r.actions, r.podName, r.failed)
    case _ => Remedy([], "", false)
  }
}
