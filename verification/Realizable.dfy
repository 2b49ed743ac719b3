/**
  Which runs there really are: for reconciles that list Ready pods, under a failure threshold
  of one, any choice of which pods regress is what some interleaving of the prober's steps
  with the reconciles' own calls gives. The concrete runs of the other modules are of this
  kind (RunExamples).
 */
module Realizable {
  import opened Options
  import opened Hysteresis
  import opened ProberTable
  import opened ProberManager
  import opened ProbeHistory
  import opened PolicyApi
  import opened EndToEnd
  import opened JointRuns
  import R = Reconcile

  /** The record of a pod, fresh or after one failed probe. */
  function Rec(x: Target, seen: bool, down: bool): PodState {
    var pod := FreshPod(x).(seenReady := seen);
    if down then pod.(health := Health(false, 1, 0), lastProbe := Some(0), lastTransition := Some(0)) else pod
  }

  /** The records in a policy's table. */
  function Records(w: World, k: Key): map<UID, PodState> {
    map u | u in Pods(w, k) :: Pods(w, k)[u].pod
  }

  // ---------------------------------------------------------------------------
  // Pods that are new to the table
  // ---------------------------------------------------------------------------

  /** The table holds these targets since the Sync with this serial; some were seen Ready, some failed. */
  ghost predicate Stage(
    w: World, k: Key, cfg: ProbeConfig, xs: map<UID, Target>, s: nat, seen: set<UID>, down: set<UID>)
  {
    && k in w.policies && w.policies[k].cfg == cfg && w.policies[k].pods.Keys == xs.Keys
    && (forall u :: u in xs ==> w.policies[k].pods[u] == Entry(Rec(xs[u], u in seen, u in down), Context(s, u)))
    && (forall u :: u in xs && u !in down ==>
          Context(s, u) in w.probers && w.probers[Context(s, u)] == Prober(k, u, Starting))
  }

  lemma SyncNew(w: World, k: Key, cfg: ProbeConfig, targets: seq<Target>)
    requires Desired(targets).Keys !! Pods(w, k).Keys
    ensures Stage(SyncStep(w, k, cfg, targets), k, cfg, Desired(targets), w.serial, {}, {})
  {
    hide Removed;
    var w', xs := SyncStep(w, k, cfg, targets), Desired(targets);
    hide Desired;
    forall u | u in xs
      ensures Context(w.serial, u) in w'.probers && w'.probers[Context(w.serial, u)] == Prober(k, u, Starting)
    {
      assert u in xs.Keys - Pods(w, k).Keys;
    }
  }

  lemma SeenNew(w: World, k: Key, cfg: ProbeConfig, xs: map<UID, Target>, s: nat, seen: set<UID>, u: UID)
    requires Stage(w, k, cfg, xs, s, seen, {})
    ensures Stage(SeenReadyStep(w, k, u), k, cfg, xs, s, seen + {u}, {})
  {
  }

  /** A prober that starts and fails its first probe. */
  function Failing(c: Context): Trace {
    [RunStart(c), ProbeBegin(c), ProbeEnd(c, false, 0)]
  }

  function FailSteps(w: World, c: Context): World {
    Step(Step(Step(w, RunStart(c)), ProbeBegin(c)), ProbeEnd(c, false, 0))
  }

  lemma FailOne(w: World, k: Key, u: UID, c: Context, x: Target)
    requires Found(w, k, u) && EntryOf(w, k, u) == Entry(Rec(x, true, false), c)
    requires c in w.probers && w.probers[c] == Prober(k, u, Starting) && EffectiveFailure(w.policies[k].cfg) == 1
    ensures var w', pe := FailSteps(w, c), w.policies[k];
            && k in w'.policies && w'.policies[k] == pe.(pods := pe.pods[u := Entry(Rec(x, true, true), c)])
            && forall d :: d in w.probers && d != c ==> d in w'.probers && w'.probers[d] == w.probers[d]
  {
    var w1 := Step(w, RunStart(c));
    assert w1 == WithPhase(w, c, Waiting);
    var w2 := Step(w1, ProbeBegin(c));
    assert w2 == WithPhase(w1, c, InFlight(w.policies[k].cfg));
    assert Recorded(Rec(x, true, false), Sample(w.policies[k].cfg, false), 0) == Rec(x, true, true);
  }

  lemma FailNew(w: World, k: Key, cfg: ProbeConfig, xs: map<UID, Target>, s: nat, down: set<UID>, u: UID)
    requires Stage(w, k, cfg, xs, s, xs.Keys, down) && u in xs && u !in down && EffectiveFailure(cfg) == 1
    ensures Stage(FailSteps(w, Context(s, u)), k, cfg, xs, s, xs.Keys, down + {u})
  {
    FailOne(w, k, u, Context(s, u), xs[u]);
    hide FailSteps;
    hide Rec;
  }

  lemma ExecFailing(t: Trace, c: Context)
    ensures Exec(t + Failing(c)) == FailSteps(Exec(t), c)
  {
    hide Step;
    assert t + Failing(c) == t + [RunStart(c)] + [ProbeBegin(c)] + [ProbeEnd(c, false, 0)];
    ExecSnoc(t, RunStart(c));
    ExecSnoc(t + [RunStart(c)], ProbeBegin(c));
    ExecSnoc(t + [RunStart(c)] + [ProbeBegin(c)], ProbeEnd(c, false, 0));
  }

  lemma CallsOfSnoc(t: Trace, e: Event, k: Key)
    ensures CallsOf(t + [e], k) == CallsOf(t, k) + if IsCall(e, k) then [e] else []
  {
    assert Before(t + [e]) == t;
  }

  lemma FailingMakesNoCalls(t: Trace, c: Context, k: Key)
    ensures CallsOf(t + Failing(c), k) == CallsOf(t, k)
  {
    hide CallsOf;
    assert t + Failing(c) == t + [RunStart(c)] + [ProbeBegin(c)] + [ProbeEnd(c, false, 0)];
    CallsOfSnoc(t, RunStart(c), k);
    CallsOfSnoc(t + [RunStart(c)], ProbeBegin(c), k);
    CallsOfSnoc(t + [RunStart(c)] + [ProbeBegin(c)], ProbeEnd(c, false, 0), k);
  }

  /** Each of these pods fails its first probe. */
  lemma {:induction false} FailAll(
    t: Trace, k: Key, cfg: ProbeConfig, xs: map<UID, Target>, s: nat, down: set<UID>, todo: set<UID>)
    returns (events: Trace)
    requires Stage(Exec(t), k, cfg, xs, s, xs.Keys, down) && EffectiveFailure(cfg) == 1
    requires todo <= xs.Keys && todo !! down
    ensures Stage(Exec(t + events), k, cfg, xs, s, xs.Keys, down + todo) && CallsOf(events, k) == []
    decreases todo
  {
    hide Stage;
    hide Exec;
    if todo == {} {
      events := [];
      assert t + events == t && down + todo == down;
    } else {
      var u :| u in todo;
      var c := Context(s, u);
      FailNew(Exec(t), k, cfg, xs, s, down, u);
      ExecFailing(t, c);
      var rest := FailAll(t + Failing(c), k, cfg, xs, s, down + {u}, todo - {u});
      events := Failing(c) + rest;
      assert t + events == t + Failing(c) + rest;
      assert down + {u} + (todo - {u}) == down + todo;
      FailingMakesNoCalls([], c, k);
      assert [] + Failing(c) == Failing(c);
      CallsOfConcat(Failing(c), rest, k);
    }
  }

  predicate AllReady(pods: seq<Pod>) {
    forall i :: 0 <= i < |pods| ==> R.PodReady(pods[i].conditions)
  }

  function UidsOf(pods: seq<Pod>): set<UID> {
    if pods == [] then {} else UidsOf(pods[..|pods| - 1]) + {pods[|pods| - 1].uid}
  }

  lemma ReadyCallsNext(k: Key, pods: seq<Pod>)
    requires pods != [] && AllReady(pods)
    ensures R.ReadyCalls(k, pods) == R.ReadyCalls(k, pods[..|pods| - 1]) + [SetSeenReady(k, pods[|pods| - 1].uid)]
    ensures AllReady(pods[..|pods| - 1])
  {
  }

  lemma {:induction false} ReadyAll(
    t: Trace, k: Key, cfg: ProbeConfig, xs: map<UID, Target>, s: nat, pods: seq<Pod>)
    requires Stage(Exec(t), k, cfg, xs, s, {}, {}) && AllReady(pods)
    ensures Stage(Exec(t + R.ReadyCalls(k, pods)), k, cfg, xs, s, UidsOf(pods), {})
  {
    hide Stage;
    hide Exec;
    if pods == [] {
      assert t + R.ReadyCalls(k, pods) == t;
    } else {
      var p, u := pods[..|pods| - 1], pods[|pods| - 1].uid;
      ReadyCallsNext(k, pods);
      ReadyAll(t, k, cfg, xs, s, p);
      var t' := t + R.ReadyCalls(k, p);
      assert t + R.ReadyCalls(k, pods) == t' + [SetSeenReady(k, u)];
      ExecSnoc(t', SetSeenReady(k, u));
      SeenNew(Exec(t'), k, cfg, xs, s, UidsOf(p), u);
    }
  }

  lemma {:induction false} ReadyCallsAreCalls(k: Key, pods: seq<Pod>)
    requires AllReady(pods)
    ensures CallsOf(R.ReadyCalls(k, pods), k) == R.ReadyCalls(k, pods)
  {
    if pods != [] {
      ReadyCallsNext(k, pods);
      ReadyCallsAreCalls(k, pods[..|pods| - 1]);
      CallsOfSnoc(R.ReadyCalls(k, pods[..|pods| - 1]), SetSeenReady(k, pods[|pods| - 1].uid), k);
    }
  }

  lemma {:induction false} TargetsAmongUids(pods: seq<Pod>)
    ensures Desired(R.Targets(pods)).Keys <= UidsOf(pods)
  {
    if pods != [] {
      var p := pods[..|pods| - 1];
      TargetsAmongUids(p);
      if !pods[|pods| - 1].terminating {
        var x := Target(pods[|pods| - 1].name, pods[|pods| - 1].uid, pods[|pods| - 1].ip);
        assert R.Targets(pods) == R.Targets(p) + [x];
        assert (R.Targets(p) + [x])[..|R.Targets(p)|] == R.Targets(p);
      } else {
        assert R.Targets(pods) == R.Targets(p);
      }
    }
  }

  /** The calls of a guarding reconcile. */
  function CallsFor(k: Key, cfg: ProbeConfig, pods: seq<Pod>): Trace {
    [Sync(k, cfg, R.Targets(pods))] + R.ReadyCalls(k, pods)
  }

  lemma CallsForAreCalls(k: Key, cfg: ProbeConfig, pods: seq<Pod>)
    requires AllReady(pods)
    ensures CallsOf(CallsFor(k, cfg, pods), k) == CallsFor(k, cfg, pods)
  {
    var sync := Sync(k, cfg, R.Targets(pods));
    CallsOfSnoc([], sync, k);
    assert [] + [sync] == [sync];
    ReadyCallsAreCalls(k, pods);
    CallsOfConcat([sync], R.ReadyCalls(k, pods), k);
  }

  /** What the table is to hold of the listed pods. */
  function Wanted(pods: seq<Pod>, down: set<UID>): map<UID, PodState> {
    var xs := Desired(R.Targets(pods));
    map u | u in xs :: Rec(xs[u], true, u in down)
  }

  /** A reconcile's calls, and failed probes of some of its pods, when all of them are new. */
  lemma RoundNew(t: Trace, k: Key, cfg: ProbeConfig, pods: seq<Pod>, down: set<UID>) returns (events: Trace)
    requires AllReady(pods) && EffectiveFailure(cfg) == 1
    requires Desired(R.Targets(pods)).Keys !! Pods(Exec(t), k).Keys
    ensures CallsOf(events, k) == CallsFor(k, cfg, pods)
    ensures Records(Exec(t + events), k) == Wanted(pods, down)
  {
    hide Exec;
    hide Desired;
    var sync, xs, s := Sync(k, cfg, R.Targets(pods)), Desired(R.Targets(pods)), Exec(t).serial;
    SyncNew(Exec(t), k, cfg, R.Targets(pods));
    ExecSnoc(t, sync);
    ReadyAll(t + [sync], k, cfg, xs, s, pods);
    TargetsAmongUids(pods);
    var calls, todo := CallsFor(k, cfg, pods), down * xs.Keys;
    assert t + [sync] + R.ReadyCalls(k, pods) == t + calls;
    assert Stage(Exec(t + calls), k, cfg, xs, s, xs.Keys, {});
    var rest := FailAll(t + calls, k, cfg, xs, s, {}, todo);
    events := calls + rest;
    assert t + events == t + calls + rest;
    CallsForAreCalls(k, cfg, pods);
    CallsOfConcat(calls, rest, k);
    assert CallsOf(events, k) == calls;
    assert {} + todo == todo;
    StageRecords(Exec(t + events), k, cfg, pods, s, down);
  }

  lemma StageRecords(w: World, k: Key, cfg: ProbeConfig, pods: seq<Pod>, s: nat, down: set<UID>)
    requires var xs := Desired(R.Targets(pods)); Stage(w, k, cfg, xs, s, xs.Keys, down * xs.Keys)
    ensures Records(w, k) == Wanted(pods, down)
  {
  }

  // ---------------------------------------------------------------------------
  // Pods that the table has already
  // ---------------------------------------------------------------------------

  lemma SyncKnown(w: World, k: Key, cfg: ProbeConfig, targets: seq<Target>)
    requires forall u :: u in Desired(targets) ==>
               && Found(w, k, u)
               && EntryOf(w, k, u).pod.name == Desired(targets)[u].name
               && EntryOf(w, k, u).pod.ip == Desired(targets)[u].ip
    ensures Records(SyncStep(w, k, cfg, targets), k) ==
              map u | u in Desired(targets) && u in Records(w, k) :: Records(w, k)[u]
  {
    hide Desired;
    hide Removed;
    hide Spawned;
    var w' := SyncStep(w, k, cfg, targets);
    forall u | u in Desired(targets)
      ensures Found(w', k, u) && EntryOf(w', k, u).pod == EntryOf(w, k, u).pod
    {
      assert Found(w, k, u);
    }
  }

  lemma SeenKnown(w: World, k: Key, u: UID)
    requires Found(w, k, u) ==> EntryOf(w, k, u).pod.seenReady
    ensures Records(SeenReadyStep(w, k, u), k) == Records(w, k)
  {
  }

  lemma {:induction false} ReadyKnown(t: Trace, k: Key, pods: seq<Pod>)
    requires AllReady(pods)
    requires forall u :: u in Records(Exec(t), k) ==> Records(Exec(t), k)[u].seenReady
    ensures Records(Exec(t + R.ReadyCalls(k, pods)), k) == Records(Exec(t), k)
  {
    hide Exec;
    if pods == [] {
      assert t + R.ReadyCalls(k, pods) == t;
    } else {
      var p, u := pods[..|pods| - 1], pods[|pods| - 1].uid;
      ReadyCallsNext(k, pods);
      ReadyKnown(t, k, p);
      var t' := t + R.ReadyCalls(k, p);
      assert t + R.ReadyCalls(k, pods) == t' + [SetSeenReady(k, u)];
      ExecSnoc(t', SetSeenReady(k, u));
      assert Found(Exec(t'), k, u) ==> u in Records(Exec(t'), k);
      SeenKnown(Exec(t'), k, u);
    }
  }

  /** Every pod of the second list is in the first, with the same name and address. */
  predicate Sublist(before: seq<Pod>, pods: seq<Pod>) {
    var xs, ys := Desired(R.Targets(before)), Desired(R.Targets(pods));
    forall u :: u in ys ==> u in xs && xs[u] == ys[u]
  }

  /** Sync then keeps the records of the pods it lists. */
  lemma SyncSublist(w: World, k: Key, cfg: ProbeConfig, before: seq<Pod>, pods: seq<Pod>, down: set<UID>)
    requires Sublist(before, pods) && Records(w, k) == Wanted(before, down)
    ensures Records(SyncStep(w, k, cfg, R.Targets(pods)), k) == Wanted(pods, down)
  {
    hide Desired;
    hide SyncStep;
    var ys := Desired(R.Targets(pods));
    forall u | u in ys
      ensures Found(w, k, u) && EntryOf(w, k, u).pod.name == ys[u].name && EntryOf(w, k, u).pod.ip == ys[u].ip
    {
      assert u in Records(w, k) && Records(w, k)[u] == Wanted(before, down)[u];
    }
    SyncKnown(w, k, cfg, R.Targets(pods));
  }

  /** A reconcile that finds its pods in the table only has to make its calls. */
  lemma RoundAgain(t: Trace, k: Key, cfg: ProbeConfig, before: seq<Pod>, pods: seq<Pod>, down: set<UID>)
    requires AllReady(pods) && Sublist(before, pods) && Records(Exec(t), k) == Wanted(before, down)
    ensures CallsOf(CallsFor(k, cfg, pods), k) == CallsFor(k, cfg, pods)
    ensures Records(Exec(t + CallsFor(k, cfg, pods)), k) == Wanted(pods, down)
  {
    hide Exec;
    hide Desired;
    hide SyncStep;
    hide Records;
    var sync := Sync(k, cfg, R.Targets(pods));
    CallsForAreCalls(k, cfg, pods);
    SyncSublist(Exec(t), k, cfg, before, pods, down);
    ExecSnoc(t, sync);
    ReadyKnown(t + [sync], k, pods);
    assert t + [sync] + R.ReadyCalls(k, pods) == t + CallsFor(k, cfg, pods);
  }

  // ---------------------------------------------------------------------------
  // Runs
  // ---------------------------------------------------------------------------

  /** Every record once, in this order. */
  ghost predicate Ordered(m: map<UID, PodState>, order: seq<UID>, out: seq<PodState>) {
    && |order| == |out| && m.Keys == (set u | u in order)
    && (forall i :: 0 <= i < |out| ==> order[i] in m && out[i] == m[order[i]])
    && (forall i, j :: 0 <= i < j < |order| ==> order[i] != order[j])
  }

  /** A guarding reconcile of Ready pods, whose snapshot has exactly those in `down` unhealthy. */
  ghost predicate Plain(env: R.Env, down: set<UID>) {
    && R.PreludeOf(env).Ready? && EffectiveFailure(R.PreludeOf(env).cfg) == 1
    && env.listPods.Some? && AllReady(env.listPods.value)
    && exists order :: Ordered(Wanted(env.listPods.value, down), order, env.snapshot)
  }

  /** All pods of the next reconcile are new, or all are among those of the one before. */
  ghost predicate Continues(env: R.Env, next: R.Env)
    requires env.listPods.Some? && next.listPods.Some?
  {
    || Desired(R.Targets(next.listPods.value)).Keys !! Desired(R.Targets(env.listPods.value)).Keys
    || Sublist(env.listPods.value, next.listPods.value)
  }

  ghost predicate PlainRun(envs: seq<R.Env>, k: Key, down: set<UID>) {
    && (forall i :: 0 <= i < |envs| ==> envs[i].key == k && Plain(envs[i], down))
    && forall i :: 0 <= i < |envs| - 1 ==> Continues(envs[i], envs[i + 1])
  }

  lemma RecordsAreTaken(t: Trace, env: R.Env, down: set<UID>)
    requires Plain(env, down) && Records(Exec(t), env.key) == Wanted(env.listPods.value, down)
    ensures TakenAt(t, env)
  {
    hide Exec;
    hide Wanted;
    hide R.PreludeOf;
    var m, pods := Wanted(env.listPods.value, down), Pods(Exec(t), env.key);
    var order :| Ordered(m, order, env.snapshot);
    assert Records(Exec(t), env.key).Keys == pods.Keys;
    forall i | 0 <= i < |order| ensures order[i] in pods && env.snapshot[i] == pods[order[i]].pod {
      assert order[i] in m && m[order[i]] == Records(Exec(t), env.key)[order[i]];
    }
    assert IsOrderOf(pods, order, env.snapshot);
  }

  lemma CallsOfPlain(env: R.Env, down: set<UID>)
    requires Plain(env, down)
    ensures R.Calls(env) == CallsFor(env.key, R.PreludeOf(env).cfg, env.listPods.value)
  {
    hide R.PreludeOf;
    hide Wanted;
  }

  /** One more round. */
  lemma NextRound(t: Trace, env: R.Env, down: set<UID>, before: seq<Pod>) returns (events: Trace)
    requires Plain(env, down) && Records(Exec(t), env.key) == Wanted(before, down)
    requires var pods := env.listPods.value;
             || Desired(R.Targets(pods)).Keys !! Desired(R.Targets(before)).Keys
             || Sublist(before, pods)
    ensures CallsOf(events, env.key) == R.Calls(env) && TakenAt(t + events, env)
    ensures Records(Exec(t + events), env.key) == Wanted(env.listPods.value, down)
  {
    hide Exec;
    hide R.PreludeOf;
    hide R.Calls;
    CallsOfPlain(env, down);
    var k, cfg, pods := env.key, R.PreludeOf(env).cfg, env.listPods.value;
    if Sublist(before, pods) {
      events := CallsFor(k, cfg, pods);
      RoundAgain(t, k, cfg, before, pods, down);
    } else {
      assert Pods(Exec(t), k).Keys == Records(Exec(t), k).Keys == Wanted(before, down).Keys;
      events := RoundNew(t, k, cfg, pods, down);
    }
    RecordsAreTaken(t + events, env, down);
  }

  lemma EmptyTable(k: Key, down: set<UID>)
    ensures Records(Exec([]), k) == Wanted([], down) && Desired(R.Targets([])).Keys == {}
  {
  }

  lemma ExtendRun(rounds: seq<Round>, k: Key, env: R.Env, events: Trace)
    requires JointRun(rounds, k) && env.key == k && CallsOf(events, k) == R.Calls(env)
    requires TakenAt(TraceOf(rounds) + events, env)
    ensures var more := rounds + [Round(env, events)];
            JointRun(more, k) && Envs(more) == Envs(rounds) + [env] && TraceOf(more) == TraceOf(rounds) + events
  {
    hide TakenAt;
    hide R.PreludeOf;
    hide R.Calls;
    hide CallsOf;
    var more, n := rounds + [Round(env, events)], |rounds|;
    assert more[..n] == rounds && more[..n + 1] == more;
    forall i | 0 <= i < n ensures more[i] == rounds[i] && UpTo(more, i) == UpTo(rounds, i) {
      assert more[..i + 1] == rounds[..i + 1];
    }
  }

  /** The pods of the last reconcile. */
  function LastPods(envs: seq<R.Env>): seq<Pod> {
    if envs == [] || envs[|envs| - 1].listPods.None? then [] else envs[|envs| - 1].listPods.value
  }

  lemma PlainPrefix(envs: seq<R.Env>, k: Key, down: set<UID>)
    requires PlainRun(envs, k, down) && envs != []
    ensures var n := |envs| - 1;
            && PlainRun(envs[..n], k, down) && envs[n].key == k && Plain(envs[n], down)
            && var pods, before := envs[n].listPods.value, LastPods(envs[..n]);
               (Desired(R.Targets(pods)).Keys !! Desired(R.Targets(before)).Keys || Sublist(before, pods))
  {
    hide Wanted;
    hide R.PreludeOf;
    hide R.Targets;
    var n := |envs| - 1;
    if n > 0 {
      assert Continues(envs[n - 1], envs[n - 1 + 1]);
    } else {
      EmptyTable(k, down);
    }
  }

  lemma NoRounds(k: Key)
    ensures JointRun([], k) && Envs([]) == [] && TraceOf([]) == []
  {
  }

  /** Every such run of reconciles is a joint run with the prober. */
  lemma {:induction false} RunsExist(envs: seq<R.Env>, k: Key, down: set<UID>) returns (rounds: seq<Round>)
    requires PlainRun(envs, k, down)
    ensures JointRun(rounds, k) && Envs(rounds) == envs
    ensures Records(Exec(TraceOf(rounds)), k) == Wanted(LastPods(envs), down)
  {
    hide Exec;
    hide Plain;
    hide PlainRun;
    hide Records;
    hide Wanted;
    hide JointRun;
    hide Envs;
    hide TraceOf;
    if envs == [] {
      rounds := [];
      NoRounds(k);
      EmptyTable(k, down);
    } else {
      var n := |envs| - 1;
      PlainPrefix(envs, k, down);
      var before := RunsExist(envs[..n], k, down);
      var events := NextRound(TraceOf(before), envs[n], down, LastPods(envs[..n]));
      ExtendRun(before, k, envs[n], events);
      rounds := before + [Round(envs[n], events)];
      PlainLists(envs[n], down);
      assert envs[..n] + [envs[n]] == envs;
    }
  }

  lemma PlainLists(env: R.Env, down: set<UID>)
    requires Plain(env, down)
    ensures env.listPods.Some?
  {
  }
}
