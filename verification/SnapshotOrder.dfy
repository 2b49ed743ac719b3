/** The map order of the prober's snapshot does not matter. */
module SnapshotOrder {
  import opened Int32
  import ProberTable
  import opened PolicyApi
  import opened Gates
  import opened Remediation
  import opened Reconcile
  import opened Simulation

  type PodState = ProberTable.PodState

  function CountIf(s: seq<PodState>, p: PodState -> bool): nat {
    if s == [] then 0 else CountIf(s[..|s| - 1], p) + if p(s[|s| - 1]) then 1 else 0
  }

  lemma {:induction false} CountIfConcat(s: seq<PodState>, t: seq<PodState>, p: PodState -> bool)
    ensures CountIf(s + t, p) == CountIf(s, p) + CountIf(t, p)
  {
    if t == [] {
      assert s + t == s;
    } else {
      var n := |t| - 1;
      CountIfConcat(s, t[..n], p);
      assert (s + t)[..|s| + n] == s + t[..n];
    }
  }

  /** Taking one element out of the middle. */
  lemma CountIfRemove(a: seq<PodState>, x: PodState, b: seq<PodState>, p: PodState -> bool)
    ensures CountIf(a + [x] + b, p) == CountIf(a + b, p) + CountIf([x], p)
  {
    CountIfConcat(a, b, p);
    CountIfConcat(a, [x], p);
    CountIfConcat(a + [x], b, p);
  }

  /** An element of a sequence, and what is left of the sequence without it. */
  lemma TakeOut(t: seq<PodState>, x: PodState)
    returns (a: seq<PodState>, b: seq<PodState>)
    requires x in multiset(t)
    ensures t == a + [x] + b
    ensures multiset(a + b) == multiset(t) - multiset{x}
  {
    var i :| 0 <= i < |t| && t[i] == x;
    a, b := t[..i], t[i + 1..];
    assert t == a + [x] + b;
  }

  lemma {:induction false} CountIfPermuted(s: seq<PodState>, t: seq<PodState>, p: PodState -> bool)
    requires multiset(s) == multiset(t)
    ensures CountIf(s, p) == CountIf(t, p)
  {
    hide CountIf;
    if s == [] {
      assert |multiset(t)| == 0;
      assert t == s;
    } else {
      var n := |s| - 1;
      assert s == s[..n] + [s[n]];
      var a, b := TakeOut(t, s[n]);
      CountIfPermuted(s[..n], a + b, p);
      CountIfRemove(a, s[n], b, p);
      CountIfConcat(s[..n], [s[n]], p);
    }
  }

  /** Some delete in the list would get this answer. */
  predicate SomeAnswers(us: seq<PodState>, deletes: map<string, ApiResult>, answer: ApiResult) {
    exists x :: x in us && DeleteResult(deletes, x.name) == answer
  }

  /** No delete fails, or none succeeds. */
  predicate OrderFree(us: seq<PodState>, deletes: map<string, ApiResult>) {
    !SomeAnswers(us, deletes, Failed) || !SomeAnswers(us, deletes, Ok)
  }

  /** The API says that the pod is still there. */
  function IsThere(deletes: map<string, ApiResult>): PodState -> bool {
    (x: PodState) => DeleteResult(deletes, x.name).Ok?
  }

  lemma {:induction false} ExistingCount(us: seq<PodState>, deletes: map<string, ApiResult>)
    ensures |Existing(us, deletes)| == CountIf(us, IsThere(deletes))
  {
    if us != [] {
      ExistingCount(us[..|us| - 1], deletes);
    }
  }

  /** Reordering a list keeps how many pods exist and which answers occur. */
  lemma PermutedAnswers(us: seq<PodState>, vs: seq<PodState>, deletes: map<string, ApiResult>)
    requires multiset(us) == multiset(vs)
    ensures |us| == |vs| && |Existing(us, deletes)| == |Existing(vs, deletes)|
    ensures forall a :: SomeAnswers(us, deletes, a) == SomeAnswers(vs, deletes, a)
  {
    assert |multiset(us)| == |us| && |multiset(vs)| == |vs|;
    ExistingCount(us, deletes);
    ExistingCount(vs, deletes);
    CountIfPermuted(us, vs, IsThere(deletes));
    assert forall x :: x in us <==> x in multiset(us);
    assert forall x :: x in vs <==> x in multiset(vs);
  }

  lemma {:induction false} UnhealthyOccurs(s: seq<PodState>, x: PodState)
    ensures multiset(Unhealthy(s))[x] == if IsUnhealthy(x) then multiset(s)[x] else 0
  {
    if s != [] {
      var n := |s| - 1;
      assert s == s[..n] + [s[n]];
      UnhealthyOccurs(s[..n], x);
    }
  }

  lemma PermutedUnhealthy(s: seq<PodState>, t: seq<PodState>)
    requires multiset(s) == multiset(t)
    ensures |s| == |t| && multiset(Unhealthy(s)) == multiset(Unhealthy(t))
  {
    assert |multiset(s)| == |s| && |multiset(t)| == |t|;
    forall x: PodState ensures multiset(Unhealthy(s))[x] == multiset(Unhealthy(t))[x] {
      UnhealthyOccurs(s, x);
      UnhealthyOccurs(t, x);
    }
  }

  // ---------------------------------------------------------------------------
  // The deletion loop
  // ---------------------------------------------------------------------------

  lemma {:induction false} NoneExist(us: seq<PodState>, deletes: map<string, ApiResult>)
    requires !SomeAnswers(us, deletes, Ok)
    ensures Existing(us, deletes) == []
  {
    if us != [] {
      var n := |us| - 1;
      assert us[n] in us;
      assert forall x :: x in us[..n] ==> x in us;
      NoneExist(us[..n], deletes);
    }
  }

  /** When no delete fails or none succeeds, the loop's outcome is a matter of counting. */
  lemma SweptOrderFree(us: seq<PodState>, limit: int32, deletes: map<string, ApiResult>)
    requires limit >= 1 && OrderFree(us, deletes)
    ensures var r := Swept(us, limit, deletes, false);
            && r.failed == SomeAnswers(us, deletes, Failed)
            && |r.actions| == r.acted == Min(limit, |Existing(us, deletes)|)
  {
    hide Swept;
    SweptExact(us, limit, deletes);
    SweptFailsIff(us, limit, deletes);
    if SomeAnswers(us, deletes, Failed) {
      NoneExist(us, deletes);
      var x :| x in us && DeleteResult(deletes, x.name).Failed?;
      var i :| 0 <= i < |us| && us[i] == x;
      assert forall y :: y in us[..i] ==> y in us;
      NoneExist(us[..i], deletes);
      assert FailsAt(us, limit, deletes, i);
    } else {
      forall i | 0 <= i < |us| ensures !FailsAt(us, limit, deletes, i) {
        assert us[i] in us;
      }
    }
  }

  /** A failing pod in front keeps every other one from being deleted; an existing one goes. */
  lemma SweptByFirst(us: seq<PodState>, limit: int32, deletes: map<string, ApiResult>)
    requires limit >= 1 && us != []
    ensures DeleteResult(deletes, us[0].name).Failed? ==> Swept(us, limit, deletes, false).actions == []
    ensures DeleteResult(deletes, us[0].name).Ok? ==> Swept(us, limit, deletes, false).actions != []
  {
    var a := DeleteResult(deletes, us[0].name);
    if a.Failed? {
      assert us[..1][..0] == [];
      SweptStopped(us, limit, deletes, false, 1);
    } else if a.Ok? {
      SweptGrows(us, limit, deletes, 1);
      assert us[..1][..0] == [];
    }
  }

  lemma {:induction false} SweptGrows(us: seq<PodState>, limit: int32, deletes: map<string, ApiResult>, i: nat)
    requires i <= |us|
    ensures Swept(us[..i], limit, deletes, false).actions <= Swept(us, limit, deletes, false).actions
  {
    if i < |us| {
      var n := |us| - 1;
      assert us[..n][..i] == us[..i];
      SweptGrows(us[..n], limit, deletes, i);
    } else {
      assert us[..i] == us;
    }
  }

  /** Some permutation of the sequence starts with this element of it. */
  lemma PutFirst(s: seq<PodState>, x: PodState) returns (t: seq<PodState>)
    requires x in s
    ensures multiset(t) == multiset(s) && t != [] && t[0] == x
  {
    var a, b := TakeOut(s, x);
    t := [x] + (a + b);
    assert multiset(t) == multiset{x} + multiset(a + b);
  }

  predicate SameCounts(r: Sweep, q: Sweep) {
    r.failed == q.failed && r.acted == q.acted && |r.actions| == |q.actions|
  }

  /** Every order of the list gives the same error or success and the same number of deletions. */
  ghost predicate SweepOrderIrrelevant(us: seq<PodState>, limit: int32, deletes: map<string, ApiResult>) {
    forall vs: seq<PodState> :: multiset(vs) == multiset(us) ==>
      SameCounts(Swept(us, limit, deletes, false), Swept(vs, limit, deletes, false))
  }

  /** Exactly so when none of the deletes would fail, or none would succeed. */
  lemma SweepOrderIrrelevantIff(us: seq<PodState>, limit: int32, deletes: map<string, ApiResult>)
    requires limit >= 1
    ensures SweepOrderIrrelevant(us, limit, deletes) <==> OrderFree(us, deletes)
  {
    hide Swept;
    hide Existing;
    if OrderFree(us, deletes) {
      forall vs: seq<PodState> | multiset(vs) == multiset(us)
        ensures SameCounts(Swept(us, limit, deletes, false), Swept(vs, limit, deletes, false))
      {
        PermutedAnswers(us, vs, deletes);
        SweptOrderFree(us, limit, deletes);
        SweptOrderFree(vs, limit, deletes);
      }
    } else {
      var x :| x in us && DeleteResult(deletes, x.name).Failed?;
      var y :| y in us && DeleteResult(deletes, y.name).Ok?;
      var vs := PutFirst(us, x);
      var ws := PutFirst(us, y);
      SweptByFirst(vs, limit, deletes);
      SweptByFirst(ws, limit, deletes);
      assert !SameCounts(Swept(vs, limit, deletes, false), Swept(ws, limit, deletes, false));
    }
  }

  // ---------------------------------------------------------------------------
  // One reconcile
  // ---------------------------------------------------------------------------

  /** The same inputs but for the order of the snapshot. */
  predicate SameButOrder(e: Env, f: Env) {
    f == e.(snapshot := f.snapshot) && multiset(e.snapshot) == multiset(f.snapshot)
  }

  /** What a reconcile would do does not hang on which delete comes first. */
  predicate OrderSafe(e: Env) {
    || e.spec.dryRun || ChooseStrategy(e.spec.strategy, EffectiveReplicas(e.dep)).RolloutRestart?
    || OrderFree(Unhealthy(e.snapshot), e.deletes)
  }

  predicate Reordered(e: Env, f: Env) {
    SameButOrder(e, f) && OrderSafe(e)
  }

  /** Whether a remedy fails, and how many changes it makes, when the order does not matter. */
  lemma RemedyCount(env: Env, strategy: Strategy)
    requires Unhealthy(env.snapshot) != []
    requires env.spec.dryRun || strategy.RolloutRestart? || OrderFree(Unhealthy(env.snapshot), env.deletes)
    ensures var r, us := RemedyOf(env, strategy), Unhealthy(env.snapshot);
            && r.failed == (!env.spec.dryRun && match strategy
                                                case RolloutRestart => !env.patch.Ok?
                                                case DeletePod => SomeAnswers(us, env.deletes, Failed)
                                                case _ => false)
            && |r.actions| == if env.spec.dryRun then 0
                              else match strategy
                                   case RolloutRestart => if r.failed then 0 else 1
                                   case DeletePod => Min(EffectiveLimit(env.spec), |Existing(us, env.deletes)|)
                                   case _ => 0
  {
    SweptDry(Unhealthy(env.snapshot), EffectiveLimit(env.spec), env.deletes);
    if OrderFree(Unhealthy(env.snapshot), env.deletes) {
      SweptOrderFree(Unhealthy(env.snapshot), EffectiveLimit(env.spec), env.deletes);
    }
  }

  lemma StepReordered(a: Status, b: Status, e: Env, f: Env)
    requires Agree(a, b) && Reordered(e, f)
    ensures OutcomesAgree(Step(a, e), Step(b, f))
    ensures |Step(a, e).actions| == |Step(b, f).actions|
  {
    hide Step;
    hide Unhealthy;
    hide Existing;
    hide Decision;
    hide Remediate;
    PermutedUnhealthy(e.snapshot, f.snapshot);
    PermutedAnswers(Unhealthy(e.snapshot), Unhealthy(f.snapshot), e.deletes);
    if Decision(a, e).Act? {
      ActMeansUnhealthy(a, e);
      ActsByStrategy(a, e);
      RemedyCount(e, Decision(a, e).strategy);
      RemedyCount(f, Decision(a, e).strategy);
    }
    SameDecision(a, b, e, f);
    StepsAgree(a, b, e, f);
    ActionsOfStep(a, e);
    ActionsOfStep(b, f);
  }

  /** Every order of the snapshot gives agreeing outcomes and equally many changes. */
  ghost predicate OrderIrrelevant(st: Status, e: Env) {
    forall f :: SameButOrder(e, f) ==>
      OutcomesAgree(Step(st, e), Step(st, f)) && |Step(st, e).actions| == |Step(st, f).actions|
  }

  lemma {:induction false} UnhealthyFirst(s: seq<PodState>)
    requires s != [] && IsUnhealthy(s[0])
    ensures Unhealthy(s) != [] && Unhealthy(s)[0] == s[0]
  {
    var n := |s| - 1;
    if n > 0 {
      UnhealthyFirst(s[..n]);
    } else {
      assert s[..0] == [];
    }
  }

  /** An acting live reconcile that deletes, seen with this unhealthy pod in front. */
  lemma ActsByFirst(st: Status, e: Env, x: PodState) returns (f: Env)
    requires PreludeOf(e).Ready? && Decision(st, e) == Act(DeletePod) && !e.spec.dryRun && x in Unhealthy(e.snapshot)
    ensures SameButOrder(e, f)
    ensures DeleteResult(e.deletes, x.name).Failed? ==> Step(st, f).actions == []
    ensures DeleteResult(e.deletes, x.name).Ok? ==> Step(st, f).actions != []
  {
    hide Step;
    hide Unhealthy;
    hide PreludeOf;
    hide Decision;
    hide Swept;
    UnhealthyAreListed(e.snapshot);
    var t := PutFirst(e.snapshot, x);
    f := e.(snapshot := t);
    PermutedUnhealthy(e.snapshot, t);
    PermutedAnswers(Unhealthy(e.snapshot), Unhealthy(t), e.deletes);
    SameDecision(st, st, e, f);
    UnhealthyFirst(t);
    ActionsOfStep(st, f);
    SweptByFirst(Unhealthy(t), EffectiveLimit(e.spec), e.deletes);
  }

  /**
    When a reconcile comes to act, the order in which the prober's map hands out the pods
    is irrelevant if and only if it runs dry, restarts, or none of its deletes would fail
    or none would succeed.
   */
  lemma OrderIrrelevantIff(st: Status, e: Env)
    requires PreludeOf(e).Ready? && Decision(st, e).Act?
    ensures OrderIrrelevant(st, e) <==> OrderSafe(e)
  {
    hide Step;
    hide Unhealthy;
    hide PreludeOf;
    hide Decision;
    ActsByStrategy(st, e);
    if OrderSafe(e) {
      forall f | SameButOrder(e, f)
        ensures OutcomesAgree(Step(st, e), Step(st, f)) && |Step(st, e).actions| == |Step(st, f).actions|
      {
        StepReordered(st, st, e, f);
      }
    } else {
      var us := Unhealthy(e.snapshot);
      var x :| x in us && DeleteResult(e.deletes, x.name).Failed?;
      var y :| y in us && DeleteResult(e.deletes, y.name).Ok?;
      var f := ActsByFirst(st, e, x);
      var g := ActsByFirst(st, e, y);
      assert |Step(st, f).actions| != |Step(st, g).actions|;
    }
  }

  predicate ReorderedRuns(es: seq<Env>, fs: seq<Env>) {
    |es| == |fs| && forall i :: 0 <= i < |es| ==> Reordered(es[i], fs[i])
  }

  lemma {:induction false} StatusesReordered(a: Status, b: Status, es: seq<Env>, fs: seq<Env>)
    requires Agree(a, b) && ReorderedRuns(es, fs)
    ensures Agree(Persisted(a, es), Persisted(b, fs))
  {
    hide Step;
    if es != [] {
      var n := |es| - 1;
      StatusesReordered(a, b, es[..n], fs[..n]);
      StepReordered(Persisted(a, es[..n]), Persisted(b, fs[..n]), es[n], fs[n]);
    }
  }

  /**
    Runs whose snapshots are permutations of one another take the same branches forever,
    agree on the persisted status and delete the same number of pods at every step.
   */
  lemma OrderDoesNotMatter(a: Status, b: Status, es: seq<Env>, fs: seq<Env>, i: nat)
    requires Agree(a, b) && ReorderedRuns(es, fs) && i < |es|
    ensures OutcomesAgree(OutcomeAt(a, es, i), OutcomeAt(b, fs, i))
    ensures |OutcomeAt(a, es, i).actions| == |OutcomeAt(b, fs, i).actions|
  {
    hide Step;
    assert ReorderedRuns(es[..i], fs[..i]);
    StatusesReordered(a, b, es[..i], fs[..i]);
    StepReordered(Persisted(a, es[..i]), Persisted(b, fs[..i]), es[i], fs[i]);
  }
}
