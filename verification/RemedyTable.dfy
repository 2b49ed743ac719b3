/**
  What a reconcile that nothing stops does, on the fields of the spec: which pods it deletes,
  how many at most, when it fails, and what it records.
 */
module RemedyTable {
  import opened Options
  import opened Int32
  import opened PolicyApi
  import opened Hysteresis
  import ProberTable
  import Conditions
  import opened Gates
  import opened Remediation
  import opened Reconcile
  import opened Simulation
  import opened Examples
  import opened DecisionTable

  // ---------------------------------------------------------------------------
  // How many pods
  // ---------------------------------------------------------------------------

  /** MaxConcurrent bounds every reconcile's changes; it counts as one when it is not positive. */
  lemma MaxConcurrentKept(st: Status, env: Env)
    ensures var n := |Step(st, env).actions|;
            && (env.spec.maxConcurrent >= 1 ==> n <= env.spec.maxConcurrent)
            && (env.spec.maxConcurrent <= 0 ==> n <= 1)
  {
    hide Step;
    hide Swept;
    hide Existing;
    hide Unhealthy;
    hide Decision;
    ActionsOfStep(st, env);
    SweptDeletes(Unhealthy(env.snapshot), EffectiveLimit(env.spec), env.deletes);
    SweptDry(Unhealthy(env.snapshot), EffectiveLimit(env.spec), env.deletes);
  }

  /** The positions of the unhealthy targets whose pods are still there. */
  function ExistingAt(snapshot: seq<ProberTable.PodState>, deletes: map<string, ApiResult>): set<int> {
    set i | i in DownAt(snapshot) && DeleteResult(deletes, snapshot[i].name) == Ok
  }

  /** This target would be deleted. */
  predicate Goes(x: ProberTable.PodState, deletes: map<string, ApiResult>) {
    x.seenReady && !x.health.healthy && DeleteResult(deletes, x.name) == Ok
  }

  lemma ExistingSnoc(us: seq<ProberTable.PodState>, x: ProberTable.PodState, deletes: map<string, ApiResult>)
    ensures Existing(us + [x], deletes) ==
              Existing(us, deletes) + if DeleteResult(deletes, x.name).Ok? then [Delete(x.name)] else []
  {
    assert (us + [x])[..|us|] == us;
  }

  lemma ExistingNext(s: seq<ProberTable.PodState>, x: ProberTable.PodState, deletes: map<string, ApiResult>)
    ensures Existing(Unhealthy(s + [x]), deletes) ==
              Existing(Unhealthy(s), deletes) + if Goes(x, deletes) then [Delete(x.name)] else []
  {
    hide Unhealthy;
    hide Existing;
    UnhealthySnoc(s, x);
    ExistingSnoc(Unhealthy(s), x, deletes);
    assert Unhealthy(s) + [] == Unhealthy(s);
  }

  lemma ExistingAtNext(s: seq<ProberTable.PodState>, x: ProberTable.PodState, deletes: map<string, ApiResult>)
    ensures ExistingAt(s + [x], deletes) == ExistingAt(s, deletes) + if Goes(x, deletes) then {|s|} else {}
    ensures |s| !in ExistingAt(s, deletes)
  {
    forall i ensures i in ExistingAt(s + [x], deletes) <==>
                       i in ExistingAt(s, deletes) || (i == |s| && Goes(x, deletes))
    {
      if 0 <= i < |s| {
        assert (s + [x])[i] == s[i];
      }
    }
  }

  /** Ascending positions in the snapshot, with the deletions they stand for. */
  ghost predicate Listing(at: seq<int>, snapshot: seq<ProberTable.PodState>, actions: seq<Action>) {
    && |at| == |actions|
    && (forall a, b :: 0 <= a < b < |at| ==> at[a] < at[b])
    && forall a :: 0 <= a < |at| ==> 0 <= at[a] < |snapshot| && actions[a] == Delete(snapshot[at[a]].name)
  }

  lemma ListingNext(at: seq<int>, s: seq<ProberTable.PodState>, x: ProberTable.PodState, actions: seq<Action>)
    requires Listing(at, s, actions)
    ensures Listing(at, s + [x], actions) && Listing(at + [|s|], s + [x], actions + [Delete(x.name)])
  {
  }

  /** The deletions that are possible, by position: all of them, each once, in the snapshot's order. */
  lemma {:induction false} ExistingInOrder(snapshot: seq<ProberTable.PodState>, deletes: map<string, ApiResult>)
    returns (at: seq<int>)
    ensures forall i :: i in at <==> i in ExistingAt(snapshot, deletes)
    ensures |at| == |ExistingAt(snapshot, deletes)|
    ensures Listing(at, snapshot, Existing(Unhealthy(snapshot), deletes))
  {
    if snapshot == [] {
      at := [];
      assert ExistingAt(snapshot, deletes) == {};
    } else {
      var n := |snapshot| - 1;
      var p, x := snapshot[..n], snapshot[n];
      assert snapshot == p + [x];
      ExistingNext(p, x, deletes);
      ExistingAtNext(p, x, deletes);
      hide Unhealthy;
      hide Existing;
      hide ExistingAt;
      hide Goes;
      hide Listing;
      var before := ExistingInOrder(p, deletes);
      ListingNext(before, p, x, Existing(Unhealthy(p), deletes));
      if Goes(x, deletes) {
        at := before + [n];
      } else {
        at := before;
        assert Existing(Unhealthy(snapshot), deletes) == Existing(Unhealthy(p), deletes);
      }
    }
  }

  // ---------------------------------------------------------------------------
  // When the remedy fails
  // ---------------------------------------------------------------------------

  /** MaxConcurrent leaves room for more than `n` deletions. */
  predicate Below(n: int, spec: RemediationSpec) {
    (spec.maxConcurrent >= 1 ==> n < spec.maxConcurrent) && (spec.maxConcurrent <= 0 ==> n < 1)
  }

  /** The delete of the target at `d` fails, and those before it leave room for it. */
  predicate FailsAtPosition(env: Env, d: nat)
    requires d < |env.snapshot|
  {
    && env.snapshot[d].seenReady && !env.snapshot[d].health.healthy
    && DeleteResult(env.deletes, env.snapshot[d].name) == Failed
    && Below(|ExistingAt(env.snapshot[..d], env.deletes)|, env.spec)
  }

  /** The API refuses a call of the remedy. */
  predicate RemedyRefused(env: Env) {
    !env.spec.dryRun &&
    if ToDelete(env) then exists d :: 0 <= d < |env.snapshot| && FailsAtPosition(env, d) else env.patch != Ok
  }

  predicate FailsHere(s: seq<ProberTable.PodState>, x: ProberTable.PodState, env: Env) {
    IsUnhealthy(x) && DeleteResult(env.deletes, x.name) == Failed && Below(|ExistingAt(s, env.deletes)|, env.spec)
  }

  /** Some target of the list is refused its delete. */
  predicate FailsIn(s: seq<ProberTable.PodState>, env: Env) {
    s != [] && (FailsIn(s[..|s| - 1], env) || FailsHere(s[..|s| - 1], s[|s| - 1], env))
  }

  lemma {:induction false} FailsInIff(s: seq<ProberTable.PodState>, env: Env)
    ensures FailsIn(s, env) <==> exists d :: 0 <= d < |s| && FailsHere(s[..d], s[d], env)
  {
    hide FailsHere;
    if s != [] {
      var n := |s| - 1;
      FailsInIff(s[..n], env);
      forall d | 0 <= d < n ensures FailsHere(s[..n][..d], s[..n][d], env) == FailsHere(s[..d], s[d], env) {
        assert s[..n][..d] == s[..d];
      }
      if FailsIn(s[..n], env) {
        var d :| 0 <= d < n && FailsHere(s[..n][..d], s[..n][d], env);
        assert FailsHere(s[..d], s[d], env);
      }
    }
  }

  lemma BelowIff(n: int, spec: RemediationSpec)
    ensures Below(n, spec) <==> n < EffectiveLimit(spec)
  {
  }

  lemma {:induction false} SweptFailsIn(s: seq<ProberTable.PodState>, env: Env)
    ensures Swept(Unhealthy(s), EffectiveLimit(env.spec), env.deletes, false).failed <==> FailsIn(s, env)
  {
    var limit := EffectiveLimit(env.spec);
    if s != [] {
      var p, x := s[..|s| - 1], s[|s| - 1];
      var us := Unhealthy(p);
      assert s == p + [x];
      SweptFailsIn(p, env);
      UnhealthySnoc(p, x);
      var _ := ExistingInOrder(p, env.deletes);
      BelowIff(|ExistingAt(p, env.deletes)|, env.spec);
      hide Unhealthy;
      hide Existing;
      hide ExistingAt;
      hide EffectiveLimit;
      hide Below;
      SweptExact(us, limit, env.deletes);
      assert us + [] == us;
      assert (us + [x])[..|us|] == us;
    }
  }

  /** A remedy fails exactly when the API refuses one of the calls it comes to make. */
  lemma RemedyRefusedIff(env: Env)
    requires Unhealthy(env.snapshot) != []
    ensures RemedyOf(env, if ToDelete(env) then DeletePod else RolloutRestart).failed <==> RemedyRefused(env)
  {
    var us, limit := Unhealthy(env.snapshot), EffectiveLimit(env.spec);
    SweptFailsIn(env.snapshot, env);
    FailsInIff(env.snapshot, env);
    SweptDry(us, limit, env.deletes);
    hide Unhealthy;
    hide Swept;
    hide ToDelete;
    forall d | 0 <= d < |env.snapshot|
      ensures FailsAtPosition(env, d) <==> FailsHere(env.snapshot[..d], env.snapshot[d], env)
    {
    }
    hide FailsAtPosition;
    hide FailsHere;
  }

  // ---------------------------------------------------------------------------
  // What a reconcile that nothing stops does
  // ---------------------------------------------------------------------------

  function StrategyOf(env: Env): Strategy {
    if ToDelete(env) then DeletePod else RolloutRestart
  }

  /** The attempt is counted and recorded. */
  predicate Recorded(status: Status, st: Status, env: Env) {
    && status.attempts == Wrap(st.attempts + 1) && status.last.Some?
    && status.last.value.time == env.now && status.last.value.strategy == StrategyOf(env)
    && status.last.value.reason == "hotswapProbe health regression" + if env.spec.dryRun then " (dry-run)" else ""
  }

  /** Past every row: the remedy, and its record unless the API refused something. */
  predicate ActsAsSpecified(o: Outcome, st: Status, env: Env) {
    && o.branch == (if RemedyRefused(env) then RemediateFailed(StrategyOf(env)) else Remediated(StrategyOf(env)))
    && o.err == (RemedyRefused(env) || !env.writeStatus)
    && (if o.err then o.status == st && o.result == NO_REQUEUE
        else Asks(o.result, Period, env) && Written(o.status, st, env, Conditions.InProgress)
             && Recorded(o.status, st, env))
    && (env.spec.dryRun ==> o.actions == [])
    && (!ToDelete(env) ==> o.actions == if env.spec.dryRun || RemedyRefused(env) then [] else [Restart(env.now)])
  }

  lemma RemedyChanges(env: Env)
    requires Unhealthy(env.snapshot) != []
    ensures var r := RemedyOf(env, StrategyOf(env));
            && r.failed == RemedyRefused(env)
            && (env.spec.dryRun ==> r.actions == [])
            && (!ToDelete(env) ==> r.actions == if env.spec.dryRun || r.failed then [] else [Restart(env.now)])
  {
    RemedyRefusedIff(env);
    SweptDry(Unhealthy(env.snapshot), EffectiveLimit(env.spec), env.deletes);
    hide Unhealthy;
    hide Swept;
    hide RemedyRefused;
    hide ToDelete;
  }

  /** The status after a remedy that did not fail. */
  lemma RecordFollows(st: Status, env: Env, podName: string)
    ensures var status := WithRecord(st, env, StrategyOf(env), podName).(observedGeneration := env.generation);
            Written(status, st, env, Conditions.InProgress) && Recorded(status, st, env)
  {
    hide ToDelete;
    hide Conditions.SetRemediating;
    hide Conditions.Unique;
    hide Conditions.HasShape;
    hide Conditions.Dated;
    WrapIncrement(st.attempts);
    WrapFits(st.attempts);
    if Conditions.Unique(st.conditions) {
      Conditions.SettersShape(st.conditions, "", env.generation);
    }
  }

  lemma GuardActs(st: Status, env: Env, cfg: ProbeConfig)
    requires Decision(st, env) == Act(StrategyOf(env)) && Normalized(env.probe) == Some(cfg)
    requires Unhealthy(env.snapshot) != []
    ensures ActsAsSpecified(Guard(st, env, cfg), st, env)
  {
    hide Decision;
    hide Normalized;
    hide Unhealthy;
    hide Calls;
    hide Remediation.Remediate;
    hide RemedyRefused;
    hide ToDelete;
    hide WithRecord;
    hide Written;
    hide Recorded;
    RemedyChanges(env);
    NormalizedKeepsFields(env.probe);
    RecordFollows(st, env, RemedyOf(env, StrategyOf(env)).podName);
  }

  lemma WrapFits(x: int32)
    ensures Wrap(x) == x
  {
  }

  /** Every reconcile past all rows of the table acts as specified. */
  lemma ActsFollowTable(st: Status, env: Env)
    requires StopsAt(Nothing, st, env) && NamesGiven(env)
    ensures ActsAsSpecified(Step(st, env), st, env)
  {
    PreludeFollows(Nothing, st, env);
    GatesFollow(Nothing, st, env);
    ActMeansUnhealthy(st, env);
    hide Guard;
    hide PreludeOf;
    hide Applies;
    hide Decision;
    hide ActsAsSpecified;
    hide Unhealthy;
    GuardActs(st, env, PreludeOf(env).cfg);
  }

  /**
    The pods that a live deletion deletes are the first of those that can go, in the
    snapshot's order; unless the API refuses a call, as many as MaxConcurrent allows.
   */
  lemma DeletionsFollowTable(st: Status, env: Env) returns (at: seq<int>)
    requires StopsAt(Nothing, st, env) && NamesGiven(env) && ToDelete(env) && !env.spec.dryRun
    ensures forall i :: i in at <==> i in ExistingAt(env.snapshot, env.deletes)
    ensures |at| == |ExistingAt(env.snapshot, env.deletes)|
    ensures var actions := Step(st, env).actions;
            && |actions| <= |at| && Listing(at[..|actions|], env.snapshot, actions)
            && (!RemedyRefused(env) ==> |actions| == |at| || !Below(|actions|, env.spec))
  {
    hide StopsAt;
    hide Step;
    hide Unhealthy;
    hide Swept;
    hide Existing;
    hide ExistingAt;
    hide Decision;
    hide PreludeOf;
    hide ToDelete;
    hide RemedyRefused;
    hide Listing;
    hide Below;
    var us, limit := Unhealthy(env.snapshot), EffectiveLimit(env.spec);
    PreludeFollows(Nothing, st, env);
    GatesFollow(Nothing, st, env);
    ActMeansUnhealthy(st, env);
    at := ExistingInOrder(env.snapshot, env.deletes);
    ActionsOfStep(st, env);
    SweptDeletes(us, limit, env.deletes);
    RemedyRefusedIff(env);
    var actions := Step(st, env).actions;
    BelowIff(|actions|, env.spec);
    ListingLength(at, env.snapshot, Existing(us, env.deletes));
    ListingPrefix(at, env.snapshot, Existing(us, env.deletes), |actions|);
    assert actions == Existing(us, env.deletes)[..|actions|];
  }

  lemma ListingLength(at: seq<int>, s: seq<ProberTable.PodState>, actions: seq<Action>)
    requires Listing(at, s, actions)
    ensures |at| == |actions|
  {
  }

  lemma ListingPrefix(at: seq<int>, s: seq<ProberTable.PodState>, actions: seq<Action>, n: nat)
    requires Listing(at, s, actions) && n <= |at| && n <= |actions|
    ensures Listing(at[..n], s, actions[..n])
  {
  }

  /** The pod that the loop reports: the last one deleted. */
  lemma {:induction false} SweptName(us: seq<ProberTable.PodState>, limit: int32, deletes: map<string, ApiResult>)
    requires limit >= 1
    ensures var r := Swept(us, limit, deletes, false);
            if r.actions == [] then r.podName == "" else r.actions[|r.actions| - 1] == Delete(r.podName)
  {
    if us != [] {
      SweptName(us[..|us| - 1], limit, deletes);
      SweptExact(us[..|us| - 1], limit, deletes);
    }
  }

  /** Or counted, when it runs dry. */
  lemma {:induction false} SweptDryName(us: seq<ProberTable.PodState>, limit: int32, deletes: map<string, ApiResult>)
    requires limit >= 1 && us != []
    ensures var r := Swept(us, limit, deletes, true);
            1 <= r.acted == Min(limit, |us|) && r.podName == us[r.acted - 1].name
  {
    var n := |us| - 1;
    SweptDry(us[..n], limit, deletes);
    if n > 0 {
      SweptDryName(us[..n], limit, deletes);
    }
  }

  /** The pod a remedy reports: the first unhealthy target for a restart, else the last pod deleted or counted. */
  predicate ReportsPod(env: Env, name: string, actions: seq<Action>) {
    var us := Unhealthy(env.snapshot);
    us != [] &&
    if !ToDelete(env) then name == us[0].name
    else if env.spec.dryRun then
      name == us[Min(if env.spec.maxConcurrent >= 1 then env.spec.maxConcurrent else 1, |us|) - 1].name
    else if actions == [] then name == ""
    else actions[|actions| - 1] == Delete(name)
  }

  lemma RemedyReportsPod(env: Env)
    requires Unhealthy(env.snapshot) != [] && !RemedyOf(env, StrategyOf(env)).failed
    ensures var r := RemedyOf(env, StrategyOf(env)); ReportsPod(env, r.podName, r.actions)
  {
    hide Unhealthy;
    hide ToDelete;
    SweptName(Unhealthy(env.snapshot), EffectiveLimit(env.spec), env.deletes);
    SweptDryName(Unhealthy(env.snapshot), EffectiveLimit(env.spec), env.deletes);
    hide Swept;
  }

  lemma GuardRecords(st: Status, env: Env, cfg: ProbeConfig)
    requires Decision(st, env) == Act(StrategyOf(env)) && Unhealthy(env.snapshot) != []
    requires !Guard(st, env, cfg).err
    ensures var o, r := Guard(st, env, cfg), RemedyOf(env, StrategyOf(env));
            !r.failed && o.status.last.Some? && o.status.last.value.podName == r.podName && o.actions == r.actions
  {
    hide Decision;
    hide Unhealthy;
    hide Calls;
    hide ToDelete;
    hide Remediation.Remediate;
  }

  /** That pod is on record once the status is written. */
  lemma PodOnRecord(st: Status, env: Env)
    requires StopsAt(Nothing, st, env) && NamesGiven(env) && !Step(st, env).err
    ensures var o := Step(st, env);
            o.status.last.Some? && ReportsPod(env, o.status.last.value.podName, o.actions)
  {
    PreludeFollows(Nothing, st, env);
    GatesFollow(Nothing, st, env);
    ActMeansUnhealthy(st, env);
    hide StopsAt;
    hide Guard;
    hide Decision;
    hide PreludeOf;
    hide Unhealthy;
    hide ReportsPod;
    GuardRecords(st, env, PreludeOf(env).cfg);
    RemedyReportsPod(env);
  }
}
