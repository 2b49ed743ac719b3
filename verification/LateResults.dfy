/**
  Whose results an entry's verdict is made of. A cancelled prober that has not exited can
  still record on the entry that a later Sync inserted for the same pod.
 */
module LateResults {
  import opened Hysteresis
  import opened ProberTable
  import opened ProbeHistory

  /** The pod's entry is there, and is the one inserted with this context. */
  predicate Holds(w: World, k: Key, u: UID, c: Context) {
    Found(w, k, u) && EntryOf(w, k, u).ctx == c
  }

  /** The prober probes this pod for this policy. */
  predicate Probes(w: World, d: Context, k: Key, u: UID) {
    d in w.probers && w.probers[d].key == k && w.probers[d].uid == u
  }

  /** Every prober of the pod other than the entry's own has returned. */
  ghost predicate OthersExited(w: World, k: Key, u: UID)
    requires Found(w, k, u)
  {
    forall d :: Probes(w, d, k, u) && d != EntryOf(w, k, u).ctx ==> w.probers[d].phase.Exited?
  }

  /** However the trace goes on, as long as the entry is there it records its own prober's results only. */
  ghost predicate OnlyOwnResults(t: Trace, k: Key, u: UID)
    requires Found(Exec(t), k, u)
  {
    var c := EntryOf(Exec(t), k, u).ctx;
    forall more: Trace, e: Event ::
      RecordsOn(Exec(t + more), e, k, u) && Holds(Exec(t + more), k, u, c) ==> e.ctx == c
  }

  // ---------------------------------------------------------------------------
  // When the others have exited
  // ---------------------------------------------------------------------------

  /** A prober keeps its policy and pod and does not come back; only Sync makes one, for a new pod. */
  lemma StepOnProber(w: World, e: Event, d: Context)
    requires Inv(w) && d in Step(w, e).probers
    ensures var p := Step(w, e).probers[d];
            if d in w.probers
            then
              && p.key == w.probers[d].key && p.uid == w.probers[d].uid
              && (w.probers[d].phase.Exited? ==> p.phase.Exited?)
            else e.Sync? && p.key == e.key && p.uid !in Pods(w, e.key)
  {
    hide SyncedPods;
    hide Desired;
    hide EntriesOwnProbers;
    hide ProbersAreOwned;
  }

  /** An entry has its context from its insertion, where the context is new. */
  lemma StepOnContext(w: World, e: Event, k: Key, u: UID, c: Context)
    requires Holds(Step(w, e), k, u, c)
    ensures Holds(w, k, u, c) || (e.Sync? && c.serial == w.serial)
  {
    if !e.Sync? && !e.Forget? {
      OnlySyncAndForgetShapeTable(w, e, k);
    }
  }

  lemma ProbersStay(w: World, e: Event)
    ensures w.probers.Keys <= Step(w, e).probers.Keys
  {
  }

  lemma StepKeepsAlone(w: World, e: Event, k: Key, u: UID, c: Context)
    requires Inv(w) && c in w.probers && (Holds(w, k, u, c) ==> OthersExited(w, k, u))
    ensures c in Step(w, e).probers && (Holds(Step(w, e), k, u, c) ==> OthersExited(Step(w, e), k, u))
  {
    hide Step;
    assert c.serial < w.serial;
    ProbersStay(w, e);
    var w' := Step(w, e);
    if Holds(w', k, u, c) {
      StepOnContext(w, e, k, u, c);
      forall d | Probes(w', d, k, u) && d != c
        ensures w'.probers[d].phase.Exited?
      {
        StepOnProber(w, e, d);
        assert Probes(w, d, k, u);
      }
    }
  }

  lemma {:induction false} StaysAlone(t: Trace, more: Trace, k: Key, u: UID)
    requires Found(Exec(t), k, u) && OthersExited(Exec(t), k, u)
    ensures var c, w := EntryOf(Exec(t), k, u).ctx, Exec(t + more);
            c in w.probers && (Holds(w, k, u, c) ==> OthersExited(w, k, u))
  {
    if more == [] {
      assert t + more == t;
      InvAlways(t);
      assert OwnsProber(Exec(t), k, u);
    } else {
      var n := |more| - 1;
      assert t + more == t + more[..n] + [more[n]];
      StaysAlone(t, more[..n], k, u);
      InvAlways(t + more[..n]);
      ExecSnoc(t + more[..n], more[n]);
      StepKeepsAlone(Exec(t + more[..n]), more[n], k, u, EntryOf(Exec(t), k, u).ctx);
    }
  }

  // ---------------------------------------------------------------------------
  // When one has not
  // ---------------------------------------------------------------------------

  /** From any phase but Exited these steps bring a cancelled prober in flight; some are not enabled. */
  function Intrusion(d: Context): Trace {
    [RunStart(d), Abandon(d), ProbeBegin(d)]
  }

  /** A cancelled prober that has not returned, with an entry of another prober for its pod. */
  predicate CanIntrude(w: World, k: Key, u: UID, c: Context, d: Context) {
    Holds(w, k, u, c) && Probes(w, d, k, u) && d in w.cancelled && !w.probers[d].phase.Exited?
  }

  lemma IntruderReady(w: World, k: Key, u: UID, c: Context, d: Context)
    requires CanIntrude(w, k, u, c, d)
    ensures var w' := Step(Step(w, RunStart(d)), Abandon(d));
            CanIntrude(w', k, u, c, d) && (w'.probers[d].phase.Waiting? || w'.probers[d].phase.InFlight?)
  {
  }

  lemma IntruderBegins(w: World, k: Key, u: UID, c: Context, d: Context)
    requires CanIntrude(w, k, u, c, d) && (w.probers[d].phase.Waiting? || w.probers[d].phase.InFlight?)
    ensures var w' := Step(w, ProbeBegin(d)); CanIntrude(w', k, u, c, d) && w'.probers[d].phase.InFlight?
  {
  }

  lemma IntruderInFlight(t: Trace, k: Key, u: UID, d: Context)
    requires Found(Exec(t), k, u) && Probes(Exec(t), d, k, u) && d != EntryOf(Exec(t), k, u).ctx
    requires !Exec(t).probers[d].phase.Exited?
    ensures var w := Exec(t + Intrusion(d));
            Holds(w, k, u, EntryOf(Exec(t), k, u).ctx) && Probes(w, d, k, u) && w.probers[d].phase.InFlight?
  {
    InvAlways(t);
    var w, c := Exec(t), EntryOf(Exec(t), k, u).ctx;
    assert !IsOwned(w, d);
    IntruderReady(w, k, u, c, d);
    IntruderBegins(Step(Step(w, RunStart(d)), Abandon(d)), k, u, c, d);
    hide Step;
    assert t + Intrusion(d) == t + [RunStart(d)] + [Abandon(d)] + [ProbeBegin(d)];
    ExecSnoc(t, RunStart(d));
    ExecSnoc(t + [RunStart(d)], Abandon(d));
    ExecSnoc(t + [RunStart(d)] + [Abandon(d)], ProbeBegin(d));
  }

  /**
    "An entry's verdict comes from its own prober" holds from here on, for every
    continuation, if and only if every other prober of that policy and pod has returned.
   */
  lemma OwnResultsIff(t: Trace, k: Key, u: UID)
    requires Found(Exec(t), k, u)
    ensures OnlyOwnResults(t, k, u) <==> OthersExited(Exec(t), k, u)
  {
    var c := EntryOf(Exec(t), k, u).ctx;
    if OthersExited(Exec(t), k, u) {
      forall more: Trace, e: Event | RecordsOn(Exec(t + more), e, k, u) && Holds(Exec(t + more), k, u, c)
        ensures e.ctx == c
      {
        StaysAlone(t, more, k, u);
        assert Probes(Exec(t + more), e.ctx, k, u);
      }
    } else {
      var d :| Probes(Exec(t), d, k, u) && d != c && !Exec(t).probers[d].phase.Exited?;
      IntruderInFlight(t, k, u, d);
      assert RecordsOn(Exec(t + Intrusion(d)), ProbeEnd(d, false, 0), k, u);
    }
  }

  // ---------------------------------------------------------------------------
  // Two such traces
  // ---------------------------------------------------------------------------

  /** A first Sync of one pod, whose prober then starts. */
  function Started(k: Key, cfg: ProbeConfig, x: Target): Trace {
    [] + [Sync(k, cfg, [x])] + [RunStart(Context(0, x.uid))]
  }

  /** And whose probe is then in flight. */
  function Probing(k: Key, cfg: ProbeConfig, x: Target): Trace {
    Started(k, cfg, x) + [ProbeBegin(Context(0, x.uid))]
  }

  /** Forget and Sync of the same pod while that probe is in flight. */
  function LateResult(k: Key, cfg: ProbeConfig, x: Target): Trace {
    Probing(k, cfg, x) + [Forget(k)] + [Sync(k, cfg, [x])] + [ProbeEnd(Context(0, x.uid), false, 0)]
  }

  lemma DesiredSingle(x: Target)
    ensures Desired([x]) == map[x.uid := x]
  {
    assert [x][..0] == [];
  }

  /** Sync of one pod for a policy that is not in the table. */
  lemma SyncSingle(w: World, k: Key, cfg: ProbeConfig, x: Target)
    requires k !in w.policies
    ensures var c := Context(w.serial, x.uid);
            SyncStep(w, k, cfg, [x]) ==
            w.(policies := w.policies[k := PolicyEntry(cfg, map[x.uid := Entry(FreshPod(x), c)])],
               probers := w.probers[c := Prober(k, x.uid, Starting)], serial := w.serial + 1)
  {
    DesiredSingle(x);
    var c := Context(w.serial, x.uid);
    assert Spawned(k, {x.uid}, w.serial) == map[c := Prober(k, x.uid, Starting)];
    assert map[x.uid := x].Keys - Pods(w, k).Keys == {x.uid};
    assert w.probers + map[c := Prober(k, x.uid, Starting)] == w.probers[c := Prober(k, x.uid, Starting)];
    assert SyncedPods(map[], map[x.uid := x], w.serial) == map[x.uid := Entry(FreshPod(x), c)];
    assert w.cancelled + Removed(map[], {x.uid}) == w.cancelled;
  }

  /** Forget of a policy with one pod. */
  lemma ForgetSingle(w: World, k: Key, u: UID)
    requires Found(w, k, u) && w.policies[k].pods.Keys == {u}
    ensures ForgetStep(w, k) == w.(policies := w.policies - {k}, cancelled := w.cancelled + {EntryOf(w, k, u).ctx})
  {
    assert Pods(w, k)[u].ctx == EntryOf(w, k, u).ctx;
  }

  /** The table right after that Sync; the prober's phase and the cancelled contexts come with time. */
  function OneProber(k: Key, cfg: ProbeConfig, x: Target, phase: Phase): World {
    var c := Context(0, x.uid);
    World(map[k := PolicyEntry(cfg, map[x.uid := Entry(FreshPod(x), c)])],
          map[c := Prober(k, x.uid, phase)], {}, 1, false, [])
  }

  /** And after a Forget. */
  function Orphaned(k: Key, x: Target, phase: Phase): World {
    var c := Context(0, x.uid);
    World(map[], map[c := Prober(k, x.uid, phase)], {c}, 1, false, [])
  }

  lemma SyncedWorld(k: Key, cfg: ProbeConfig, x: Target)
    ensures Exec([] + [Sync(k, cfg, [x])]) == OneProber(k, cfg, x, Starting)
  {
    SyncSingle(EMPTY, k, cfg, x);
    ExecSnoc([], Sync(k, cfg, [x]));
  }

  lemma StartedWorld(k: Key, cfg: ProbeConfig, x: Target)
    ensures Exec(Started(k, cfg, x)) == OneProber(k, cfg, x, Waiting)
  {
    SyncedWorld(k, cfg, x);
    ExecSnoc([] + [Sync(k, cfg, [x])], RunStart(Context(0, x.uid)));
  }

  lemma ProbingWorld(k: Key, cfg: ProbeConfig, x: Target)
    ensures Exec(Probing(k, cfg, x)) == OneProber(k, cfg, x, InFlight(cfg))
  {
    StartedWorld(k, cfg, x);
    ExecSnoc(Started(k, cfg, x), ProbeBegin(Context(0, x.uid)));
  }

  lemma ForgetOrphans(k: Key, cfg: ProbeConfig, x: Target, phase: Phase)
    ensures ForgetStep(OneProber(k, cfg, x, phase), k) == Orphaned(k, x, phase)
  {
    ForgetSingle(OneProber(k, cfg, x, phase), k, x.uid);
  }

  /** One failed probe, by whichever prober, is enough at a failure threshold of one. */
  lemma OneFailureCondemns(w: World, k: Key, u: UID, d: Context)
    requires Found(w, k, u) && EntryOf(w, k, u).pod.health == FRESH
    requires Probes(w, d, k, u) && w.probers[d].phase.InFlight? && EffectiveFailure(w.probers[d].phase.cfg) == 1
    ensures var w' := Step(w, ProbeEnd(d, false, 0));
            && Holds(w', k, u, EntryOf(w, k, u).ctx) && !EntryOf(w', k, u).pod.health.healthy
            && w'.cancelled == w.cancelled && w'.probers.Keys == w.probers.Keys
            && (forall c :: c in w.probers && c != d ==> w'.probers[c] == w.probers[c])
  {
  }

  /**
    "An entry's verdict comes from its own prober" is false: with a failure threshold of
    one, the late result of the cancelled prober condemns the new entry, whose own prober
    has not even started.
   */
  lemma LateResultCondemnsNewEntry(k: Key, cfg: ProbeConfig, x: Target)
    requires EffectiveFailure(cfg) == 1
    ensures var w := Exec(LateResult(k, cfg, x));
            var own := Context(1, x.uid);
            && Found(w, k, x.uid)
            && !EntryOf(w, k, x.uid).pod.health.healthy
            && EntryOf(w, k, x.uid).ctx == own
            && own in w.probers && w.probers[own].phase.Starting?
            && Context(0, x.uid) in w.cancelled
  {
    var t := Probing(k, cfg, x) + [Forget(k)];
    ProbingWorld(k, cfg, x);
    ForgetOrphans(k, cfg, x, InFlight(cfg));
    ExecSnoc(Probing(k, cfg, x), Forget(k));
    SyncSingle(Exec(t), k, cfg, x);
    hide SyncStep;
    hide ForgetStep;
    hide Probing;
    ExecSnoc(t, Sync(k, cfg, [x]));
    ExecSnoc(t + [Sync(k, cfg, [x])], ProbeEnd(Context(0, x.uid), false, 0));
    OneFailureCondemns(Exec(t + [Sync(k, cfg, [x])]), k, x.uid, Context(0, x.uid));
  }

  /** Forget and Sync of the same pod while its first prober has started but not begun a probe. */
  function LateStart(k: Key, cfg: ProbeConfig, x: Target): Trace {
    Started(k, cfg, x) + [Forget(k)] + [Sync(k, cfg, [x])]
  }

  lemma LateStartWorld(k: Key, cfg: ProbeConfig, x: Target)
    ensures var c, own := Context(0, x.uid), Context(1, x.uid);
            Exec(LateStart(k, cfg, x)) ==
            World(map[k := PolicyEntry(cfg, map[x.uid := Entry(FreshPod(x), own)])],
                  map[c := Prober(k, x.uid, Waiting), own := Prober(k, x.uid, Starting)], {c}, 2, false, [])
  {
    var t := Started(k, cfg, x) + [Forget(k)];
    StartedWorld(k, cfg, x);
    ForgetOrphans(k, cfg, x, Waiting);
    ExecSnoc(Started(k, cfg, x), Forget(k));
    hide ForgetStep;
    hide Started;
    assert Exec(t) == Orphaned(k, x, Waiting);
    SyncSingle(Exec(t), k, cfg, x);
    ExecSnoc(t, Sync(k, cfg, [x]));
    hide SyncStep;
  }

  /**
    Nor need the other prober be in flight when the entry is inserted: it only has to have
    started. It then begins a probe under its cancelled context and condemns the entry.
   */
  lemma LateStartCondemnsNewEntry(k: Key, cfg: ProbeConfig, x: Target)
    requires EffectiveFailure(cfg) == 1
    ensures var c, own := Context(0, x.uid), Context(1, x.uid);
            var w := Exec(LateStart(k, cfg, x));
            var w' := Exec(LateStart(k, cfg, x) + [ProbeBegin(c)] + [ProbeEnd(c, false, 0)]);
            && (forall d :: d in w.probers ==> !w.probers[d].phase.InFlight?)
            && Holds(w, k, x.uid, own) && EntryOf(w, k, x.uid).pod.health.healthy
            && Holds(w', k, x.uid, own) && !EntryOf(w', k, x.uid).pod.health.healthy
            && own in w'.probers && w'.probers[own].phase.Starting?
  {
    var c := Context(0, x.uid);
    LateStartWorld(k, cfg, x);
    ExecSnoc(LateStart(k, cfg, x), ProbeBegin(c));
    assert Exec(LateStart(k, cfg, x) + [ProbeBegin(c)]) ==
           WithPhase(Exec(LateStart(k, cfg, x)), c, InFlight(cfg));
    hide Step;
    hide LateStart;
    ExecSnoc(LateStart(k, cfg, x) + [ProbeBegin(c)], ProbeEnd(c, false, 0));
    OneFailureCondemns(Exec(LateStart(k, cfg, x) + [ProbeBegin(c)]), k, x.uid, c);
  }
}
