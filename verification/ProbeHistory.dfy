/**
  What a health verdict in the prober's table says about the past: over every
  interleaving, an entry's record is exactly the fold of the results recorded on it
  since it was inserted, whichever goroutine they came from.
 */
module ProbeHistory {
  import opened Options
  import opened Hysteresis
  import opened ProberTable

  /** This step inserts an entry for the pod. */
  predicate Inserts(w: World, e: Event, k: Key, u: UID) {
    e.Sync? && e.key == k && u in Desired(e.targets) && u !in Pods(w, k)
  }

  /** This step records a probe result on the pod's entry. */
  predicate RecordsOn(w: World, e: Event, k: Key, u: UID) {
    && e.ProbeEnd? && WillRecord(w, e.ctx)
    && w.probers[e.ctx].key == k && w.probers[e.ctx].uid == u
  }

  /** The results recorded on the pod's entry since it was last inserted. */
  function History(t: Trace, k: Key, u: UID): seq<Sample> {
    if t == [] then []
    else
      var w, e, h := Exec(Before(t)), Final(t), History(Before(t), k, u);
      if Inserts(w, e, k, u) then []
      else if RecordsOn(w, e, k, u) then h + [Sample(w.probers[e.ctx].phase.cfg, e.ok)]
      else h
  }

  /** The pod was reported Ready since its entry was last inserted. */
  predicate SawReady(t: Trace, k: Key, u: UID) {
    t != [] &&
    var w, e := Exec(Before(t)), Final(t);
    !Inserts(w, e, k, u) && (SawReady(Before(t), k, u) || (e == SetSeenReady(k, u) && Found(w, k, u)))
  }

  /** What the steps other than its own insertion do to an entry's record. */
  lemma StepOnEntry(w: World, e: Event, k: Key, u: UID)
    requires Found(Step(w, e), k, u)
    ensures var pod := EntryOf(Step(w, e), k, u).pod;
            if Inserts(w, e, k, u) then pod.health == FRESH && !pod.seenReady
            else
              && Found(w, k, u)
              && pod.health == (if RecordsOn(w, e, k, u)
                                then Next(EntryOf(w, k, u).pod.health, Sample(w.probers[e.ctx].phase.cfg, e.ok))
                                else EntryOf(w, k, u).pod.health)
              && pod.seenReady == (EntryOf(w, k, u).pod.seenReady || e == SetSeenReady(k, u))
  {
  }

  /** The table explained: verdict, counters and readiness of every entry. */
  lemma {:induction false} EntryIsItsHistory(t: Trace, k: Key, u: UID)
    requires Found(Exec(t), k, u)
    ensures EntryOf(Exec(t), k, u).pod.health == After(History(t, k, u))
    ensures EntryOf(Exec(t), k, u).pod.seenReady == SawReady(t, k, u)
  {
    if t != [] {
      var w, e := Exec(Before(t)), Final(t);
      StepOnEntry(w, e, k, u);
      if !Inserts(w, e, k, u) {
        EntryIsItsHistory(Before(t), k, u);
        if RecordsOn(w, e, k, u) {
          assert Init(History(t, k, u)) == History(Before(t), k, u);
        }
      }
    }
  }

  /** When the last result since its insertion was recorded on the pod's entry. */
  function LastProbed(t: Trace, k: Key, u: UID): Option<int> {
    if t == [] then None
    else
      var w, e := Exec(Before(t)), Final(t);
      if Inserts(w, e, k, u) then None
      else if RecordsOn(w, e, k, u) then Some(e.now)
      else LastProbed(Before(t), k, u)
  }

  /** When the verdict on the pod last flipped since its insertion. */
  function LastFlipped(t: Trace, k: Key, u: UID): Option<int> {
    if t == [] then None
    else
      var w, e := Exec(Before(t)), Final(t);
      if Inserts(w, e, k, u) then None
      else if RecordsOn(w, e, k, u) && After(History(t, k, u)).healthy != After(History(Before(t), k, u)).healthy
      then Some(e.now)
      else LastFlipped(Before(t), k, u)
  }

  /** The reported probe and transition times are those of the recorded results. */
  lemma {:induction false} EntryTimes(t: Trace, k: Key, u: UID)
    requires Found(Exec(t), k, u)
    ensures EntryOf(Exec(t), k, u).pod.lastProbe == LastProbed(t, k, u)
    ensures EntryOf(Exec(t), k, u).pod.lastTransition == LastFlipped(t, k, u)
  {
    if t != [] {
      var w, e := Exec(Before(t)), Final(t);
      StepOnEntry(w, e, k, u);
      EntryIsItsHistory(t, k, u);
      StepOnTimes(w, e, k, u);
      if !Inserts(w, e, k, u) {
        EntryIsItsHistory(Before(t), k, u);
        EntryTimes(Before(t), k, u);
      }
    }
  }

  lemma StepOnTimes(w: World, e: Event, k: Key, u: UID)
    requires Found(Step(w, e), k, u)
    ensures var pod' := EntryOf(Step(w, e), k, u).pod;
            if Inserts(w, e, k, u) then pod'.lastProbe.None? && pod'.lastTransition.None?
            else
              && Found(w, k, u)
              && var pod := EntryOf(w, k, u).pod;
                 && pod'.lastProbe == (if RecordsOn(w, e, k, u) then Some(e.now) else pod.lastProbe)
                 && pod'.lastTransition == (if RecordsOn(w, e, k, u) && pod'.health.healthy != pod.health.healthy
                                            then Some(e.now) else pod.lastTransition)
  {
  }

  /**
    Grace and threshold over every interleaving, the probe config changing at will: an entry
    is unhealthy and past its grace exactly when, since its insertion, the pod was reported
    Ready and the results recorded on it condemn it.
   */
  lemma UnhealthyAndReadyIff(t: Trace, k: Key, u: UID)
    requires Found(Exec(t), k, u)
    ensures var pod := EntryOf(Exec(t), k, u).pod;
            !pod.health.healthy && pod.seenReady <==> SawReady(t, k, u) && Condemned(History(t, k, u))
  {
    EntryIsItsHistory(t, k, u);
    UnhealthyIffCondemned(History(t, k, u));
  }

  // ---------------------------------------------------------------------------
  // Which configs the results were recorded under
  // ---------------------------------------------------------------------------

  /** The configs that the trace's Syncs of the policy carried. */
  function SyncedConfigs(t: Trace, k: Key): set<ProbeConfig> {
    set e | e in t && e.Sync? && e.key == k :: e.cfg
  }

  /** All configs of the policy, stored or captured by a probe in flight, are among these. */
  ghost predicate ConfigsFrom(w: World, k: Key, cfgs: set<ProbeConfig>) {
    && (k in w.policies ==> w.policies[k].cfg in cfgs)
    && forall c :: c in w.probers && w.probers[c].key == k && w.probers[c].phase.InFlight? ==>
         w.probers[c].phase.cfg in cfgs
  }

  lemma StepKeepsConfigs(w: World, e: Event, k: Key, cfgs: set<ProbeConfig>)
    requires ConfigsFrom(w, k, cfgs) && (e.Sync? && e.key == k ==> e.cfg in cfgs)
    ensures ConfigsFrom(Step(w, e), k, cfgs)
  {
  }

  lemma {:induction false} ConfigsAreSynced(t: Trace, k: Key, cfgs: set<ProbeConfig>)
    requires SyncedConfigs(t, k) <= cfgs
    ensures ConfigsFrom(Exec(t), k, cfgs)
  {
    if t != [] {
      assert t == Before(t) + [Final(t)];
      assert SyncedConfigs(Before(t), k) <= SyncedConfigs(t, k);
      ConfigsAreSynced(Before(t), k, cfgs);
      assert Final(t).Sync? && Final(t).key == k ==> Final(t).cfg in SyncedConfigs(t, k);
      StepKeepsConfigs(Exec(Before(t)), Final(t), k, cfgs);
    }
  }

  /** Every result was recorded under a config that some Sync of the policy gave. */
  lemma {:induction false} HistoryConfigs(t: Trace, k: Key, u: UID, i: nat)
    requires i < |History(t, k, u)|
    ensures History(t, k, u)[i].cfg in SyncedConfigs(t, k)
  {
    var p := Before(t);
    assert t == p + [Final(t)];
    assert SyncedConfigs(p, k) <= SyncedConfigs(t, k);
    if i < |History(p, k, u)| {
      HistoryConfigs(p, k, u, i);
    } else {
      ConfigsAreSynced(p, k, SyncedConfigs(p, k));
    }
  }

  /** Every Sync of the policy in the trace carried these effective thresholds. */
  predicate FixedThresholds(t: Trace, k: Key, f: int, s: int) {
    forall cfg :: cfg in SyncedConfigs(t, k) ==> HasThresholds(cfg, f, s)
  }

  predicate HasThresholds(cfg: ProbeConfig, f: int, s: int) {
    EffectiveFailure(cfg) == f && EffectiveSuccess(cfg) == s
  }

  /**
    With thresholds that stay fixed, the results condemn the pod exactly when `f`
    consecutive failures were recorded with no later `s` consecutive successes.
   */
  lemma CondemnedUnderFixed(t: Trace, k: Key, u: UID, f: int, s: int)
    requires f >= 1 && s >= 1 && FixedThresholds(t, k, f, s)
    ensures Condemned(History(t, k, u)) <==> CondemnedUnder(History(t, k, u), f, s)
  {
    var h := History(t, k, u);
    forall i | 0 <= i < |h| ensures HasThresholds(h[i].cfg, f, s) {
      HistoryConfigs(t, k, u, i);
    }
    UnhealthyIffCondemned(h);
    UnhealthyIffCondemnedUnder(h, f, s);
  }

  lemma ExecSnoc(t: Trace, e: Event)
    ensures Exec(t + [e]) == Step(Exec(t), e)
  {
    assert Before(t + [e]) == t;
  }
}
