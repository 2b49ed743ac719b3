/**
  One prober's life over every interleaving: which config its probes run under, and what
  moves it from one phase to the next.
 */
module ProbeLife {
  import opened Options
  import opened Hysteresis
  import opened ProberTable

  // ---------------------------------------------------------------------------
  // The config in force
  // ---------------------------------------------------------------------------

  /** The config of the last Sync of a policy since its last Forget. */
  function LastConfig(t: Trace, k: Key): Option<ProbeConfig> {
    if t == [] then None
    else match Final(t)
      case Sync(k', cfg, _) => if k' == k then Some(cfg) else LastConfig(Before(t), k)
      case Forget(k') => if k' == k then None else LastConfig(Before(t), k)
      case _ => LastConfig(Before(t), k)
  }

  /** The table holds that config, whether or not the Sync kept any pod: an edit takes effect at once. */
  lemma {:induction false} TableHasLastConfig(t: Trace, k: Key)
    ensures k in Exec(t).policies <==> LastConfig(t, k).Some?
    ensures k in Exec(t).policies ==> LastConfig(t, k) == Some(Exec(t).policies[k].cfg)
  {
    if t != [] {
      TableHasLastConfig(Before(t), k);
      StepOnConfig(Exec(Before(t)), Final(t), k);
      hide Step;
    }
  }

  lemma StepOnConfig(w: World, e: Event, k: Key)
    ensures var w' := Step(w, e);
            if e.Sync? && e.key == k then k in w'.policies && w'.policies[k].cfg == e.cfg
            else if e.Forget? && e.key == k then k !in w'.policies
            else (k in w'.policies <==> k in w.policies)
                 && (k in w.policies ==> w'.policies[k].cfg == w.policies[k].cfg)
  {
    if !(e.Sync? && e.key == k) && !(e.Forget? && e.key == k) {
      OnlySyncAndForgetShapeTable(w, e, k);
    }
  }

  predicate InFlightUnder(w: World, c: Context, cfg: ProbeConfig) {
    c in w.probers && w.probers[c].phase == InFlight(cfg)
  }

  /** The prober waits, and will find its policy and pod. */
  predicate CanBegin(w: World, c: Context) {
    c in w.probers && w.probers[c].phase.Waiting? && Found(w, w.probers[c].key, w.probers[c].uid)
  }

  /** A probe comes to be in flight by its own ProbeBegin and no other step, under the table's config. */
  lemma StepBegins(w: World, e: Event, c: Context, cfg: ProbeConfig)
    requires Inv(w)
    ensures InFlightUnder(Step(w, e), c, cfg) && !InFlightUnder(w, c, cfg) <==>
              e == ProbeBegin(c) && CanBegin(w, c) && w.policies[w.probers[c].key].cfg == cfg
  {
    if c !in w.probers && c in Step(w, e).probers {
      NewProbersStart(w, e, c);
    }
    if c in w.probers && !IsBy(e, c) {
      OwnStepsOnly(w, e, c);
    }
  }

  /** A probe in flight runs under the config of the last Sync before it began, whatever was synced since. */
  lemma {:induction false} ProbesUnderLastConfig(t: Trace, c: Context, cfg: ProbeConfig) returns (n: nat)
    requires InFlightUnder(Exec(t), c, cfg)
    ensures n < |t| && t[n] == ProbeBegin(c) && CanBegin(Exec(t[..n]), c)
    ensures LastConfig(t[..n], Exec(t[..n]).probers[c].key) == Some(cfg)
    ensures forall m :: n < m <= |t| ==> InFlightUnder(Exec(t[..m]), c, cfg)
  {
    hide Step;
    var p, e := Before(t), Final(t);
    InvAlways(p);
    StepBegins(Exec(p), e, c, cfg);
    assert t[..|t|] == t;
    if InFlightUnder(Exec(p), c, cfg) {
      n := ProbesUnderLastConfig(p, c, cfg);
      assert t[..n] == p[..n];
      forall m | n < m <= |p| ensures InFlightUnder(Exec(t[..m]), c, cfg) {
        assert t[..m] == p[..m];
      }
    } else {
      n := |p|;
      TableHasLastConfig(p, Exec(p).probers[c].key);
    }
  }

  // ---------------------------------------------------------------------------
  // Phases
  // ---------------------------------------------------------------------------

  /** The prober that a step is taken by. */
  predicate IsBy(e: Event, c: Context) {
    match e
    case RunStart(d) => d == c
    case ProbeBegin(d) => d == c
    case ProbeEnd(d, _, _) => d == c
    case Send(d) => d == c
    case Abandon(d) => d == c
    case Exit(d) => d == c
    case _ => false
  }

  lemma NewProbersStart(w: World, e: Event, c: Context)
    requires Inv(w) && c !in w.probers && c in Step(w, e).probers
    ensures e.Sync? && Step(w, e).probers[c].phase.Starting?
  {
  }

  /** Nothing but a prober's own steps moves it, neither the table's nor another prober's. */
  lemma OwnStepsOnly(w: World, e: Event, c: Context)
    requires Inv(w) && c in w.probers && !IsBy(e, c)
    ensures c in Step(w, e).probers && Step(w, e).probers[c] == w.probers[c]
  {
    if e.Sync? {
      assert c.serial < w.serial;
    }
  }

  /**
    A prober returns exactly when it starts and its policy is gone, or it waits and its
    context is done; before that, no step makes it return.
   */
  lemma ReturnsIff(w: World, e: Event, c: Context)
    requires Inv(w) && c in w.probers && !w.probers[c].phase.Exited?
    ensures c in Step(w, e).probers
    ensures Step(w, e).probers[c].phase.Exited? <==>
              || (e == RunStart(c) && w.probers[c].phase.Starting? && w.probers[c].key !in w.policies)
              || (e == Exit(c) && w.probers[c].phase.Waiting? && Done(w, c))
  {
    if !IsBy(e, c) {
      OwnStepsOnly(w, e, c);
    }
  }

  /** After a probe the prober blocks on its event if the verdict in the table flipped, and waits otherwise. */
  lemma AfterProbe(w: World, c: Context, ok: bool, now: int)
    requires c in w.probers && w.probers[c].phase.InFlight?
    ensures var k, u, w' := w.probers[c].key, w.probers[c].uid, Step(w, ProbeEnd(c, ok, now));
            && c in w'.probers && (Found(w, k, u) <==> Found(w', k, u))
            && w'.probers[c].phase ==
               if Found(w, k, u) && EntryOf(w', k, u).pod.health.healthy != EntryOf(w, k, u).pod.health.healthy
               then Sending else Waiting
  {
  }

  /** It then waits for its next tick once the event is in the channel or its context is done, not before. */
  lemma AfterSending(w: World, e: Event, c: Context)
    requires Inv(w) && c in w.probers && w.probers[c].phase.Sending?
    ensures c in Step(w, e).probers
    ensures Step(w, e).probers[c].phase ==
              if (e == Send(c) && |w.queue| < 1024) || (e == Abandon(c) && Done(w, c)) then Waiting else Sending
  {
    if !IsBy(e, c) {
      OwnStepsOnly(w, e, c);
    }
  }

  lemma StepStops(w: World, e: Event)
    ensures Step(w, e).stopped <==> w.stopped || e.Stop?
  {
  }

  /** The root context is done exactly when it was stopped. */
  lemma {:induction false} StoppedIff(t: Trace)
    ensures Exec(t).stopped <==> Stop in t
  {
    hide Step;
    if t != [] {
      StoppedIff(Before(t));
      StepStops(Exec(Before(t)), Final(t));
      assert t == Before(t) + [Final(t)];
    }
  }
}
