/**
  Transition events: over every interleaving each recorded flip is an event enqueued, a
  send still pending, or a send abandoned by a prober whose context was done.
 */
module ProberEvents {
  import opened Hysteresis
  import opened ProberTable

  datatype Effect = Nothing | Flipped | Enqueued | Dropped | Delivered

  /** The probe's result flips the verdict in the table on the prober's pod. */
  predicate Flips(w: World, c: Context, ok: bool, now: int) {
    && c in w.probers && w.probers[c].phase.InFlight?
    && var k, u, w' := w.probers[c].key, w.probers[c].uid, Step(w, ProbeEnd(c, ok, now));
       && Found(w, k, u) && Found(w', k, u)
       && EntryOf(w', k, u).pod.health.healthy != EntryOf(w, k, u).pod.health.healthy
  }

  lemma FlipsIff(w: World, c: Context, ok: bool, now: int)
    ensures Flips(w, c, ok, now) <==> WillFlip(w, c, ok)
  {
  }

  /** What one step does to the stream of transition events. */
  function EffectOf(w: World, e: Event): Effect {
    match e
    case ProbeEnd(c, ok, now) => if Flips(w, c, ok, now) then Flipped else Nothing
    case Send(c) => if CanSend(w, c) then Enqueued else Nothing
    case Abandon(c) => if CanAbandon(w, c) then Dropped else Nothing
    case Receive => if w.queue != [] then Delivered else Nothing
    case _ => Nothing
  }

  /** How many steps of the trace had this effect. */
  function Count(t: Trace, x: Effect): nat {
    if t == [] then 0
    else Count(Before(t), x) + if EffectOf(Exec(Before(t)), Final(t)) == x then 1 else 0
  }

  predicate IsStepOf(e: Event, c: Context) {
    match e
    case ProbeEnd(d, _, _) => d == c
    case Send(d) => d == c
    case Abandon(d) => d == c
    case _ => false
  }

  /** How many steps of this prober had this effect. */
  function CountOf(t: Trace, c: Context, x: Effect): nat {
    if t == [] then 0
    else
      CountOf(Before(t), c, x) +
      if IsStepOf(Final(t), c) && EffectOf(Exec(Before(t)), Final(t)) == x then 1 else 0
  }

  predicate IsSending(w: World, c: Context) {
    c in w.probers && w.probers[c].phase.Sending?
  }

  /** The probers blocked on the event channel. */
  function Pending(w: World): set<Context> {
    set c | c in w.probers && w.probers[c].phase.Sending?
  }

  /** A step changes one prober's pending send at most, and only by its effect. */
  lemma StepPending(w: World, e: Event)
    requires Inv(w)
    ensures Pending(Step(w, e)) ==
              match EffectOf(w, e)
              case Flipped => Pending(w) + {e.ctx}
              case Enqueued => Pending(w) - {e.ctx}
              case Dropped => Pending(w) - {e.ctx}
              case _ => Pending(w)
    ensures EffectOf(w, e).Flipped? ==> e.ctx !in Pending(w)
    ensures EffectOf(w, e).Enqueued? || EffectOf(w, e).Dropped? ==> e.ctx in Pending(w)
    ensures EffectOf(w, e).Enqueued? ==> |w.queue| < CAPACITY
    ensures EffectOf(w, e).Dropped? ==> Done(w, e.ctx)
    ensures EffectOf(w, e).Flipped? || EffectOf(w, e).Enqueued? || EffectOf(w, e).Dropped? ==> IsStepOf(e, e.ctx)
    ensures |Step(w, e).queue| ==
              match EffectOf(w, e)
              case Enqueued => |w.queue| + 1
              case Delivered => |w.queue| - 1
              case _ => |w.queue|
  {
    if e.Sync? {
      SyncPending(w, e.key, e.cfg, e.targets);
    }
    if e.ProbeEnd? {
      FlipsIff(w, e.ctx, e.ok, e.now);
    }
    hide Flips;
  }

  lemma SyncPending(w: World, k: Key, cfg: ProbeConfig, targets: seq<Target>)
    requires Inv(w)
    ensures Pending(SyncStep(w, k, cfg, targets)) == Pending(w)
  {
    var w' := SyncStep(w, k, cfg, targets);
    forall c | c in Pending(w) ensures c in Pending(w') {
      assert c.serial < w.serial;
    }
  }

  /**
    Conservation over every interleaving: flips = events enqueued + sends abandoned +
    sends pending, and what was enqueued was received or is still in the channel.
   */
  lemma {:induction false} EventsConserved(t: Trace)
    ensures Count(t, Flipped) == Count(t, Enqueued) + Count(t, Dropped) + |Pending(Exec(t))|
    ensures Count(t, Enqueued) == Count(t, Delivered) + |Exec(t).queue|
    ensures |Exec(t).queue| <= 1024
  {
    hide Step;
    hide EffectOf;
    hide Inv;
    if t != [] {
      EventsConserved(Before(t));
      InvAlways(Before(t));
      StepPending(Exec(Before(t)), Final(t));
    }
  }

  /** The policies whose events went into the channel, in order. */
  function Sent(t: Trace): seq<Key> {
    if t == [] then []
    else
      var w, e := Exec(Before(t)), Final(t);
      Sent(Before(t)) + if EffectOf(w, e).Enqueued? && e.ctx in w.probers then [w.probers[e.ctx].key] else []
  }

  /** What the controller took out of it: each time what was first in the channel. */
  function Received(t: Trace): seq<Key> {
    if t == [] then []
    else
      var w := Exec(Before(t));
      Received(Before(t)) + if Final(t).Receive? && w.queue != [] then [w.queue[0]] else []
  }

  /** No event is lost, duplicated, mixed up or overtaken in the channel. */
  lemma {:induction false} EventsInOrder(t: Trace)
    ensures Received(t) + Exec(t).queue == Sent(t)
  {
    if t != [] {
      var w, e := Exec(Before(t)), Final(t);
      hide Step;
      hide EffectOf;
      EventsInOrder(Before(t));
      StepOnQueue(w, e);
      if e.Receive? && w.queue != [] {
        Taken(Received(Before(t)), w.queue);
      }
    }
  }

  lemma Taken(r: seq<Key>, q: seq<Key>)
    requires q != []
    ensures r + [q[0]] + q[1..] == r + q
  {
  }

  lemma StepOnQueue(w: World, e: Event)
    ensures Step(w, e).queue ==
              if EffectOf(w, e).Enqueued? && e.ctx in w.probers then w.queue + [w.probers[e.ctx].key]
              else if e.Receive? && w.queue != [] then w.queue[1..]
              else w.queue
    ensures EffectOf(w, e).Enqueued? ==> e.ctx in w.probers && e.Send?
  {
  }

  lemma DoneStaysDone(w: World, e: Event, c: Context)
    requires Done(w, c)
    ensures Done(Step(w, e), c)
  {
  }

  /**
    The same, prober by prober: a prober whose context is not done has lost no
    transition, even when the channel is full.
   */
  lemma {:induction false} ProberLosesNothing(t: Trace, c: Context)
    ensures CountOf(t, c, Flipped) ==
              CountOf(t, c, Enqueued) + CountOf(t, c, Dropped) + if IsSending(Exec(t), c) then 1 else 0
    ensures CountOf(t, c, Dropped) > 0 ==> Done(Exec(t), c)
  {
    hide Step;
    hide EffectOf;
    hide Inv;
    hide Done;
    if t != [] {
      var w, e := Exec(Before(t)), Final(t);
      ProberLosesNothing(Before(t), c);
      InvAlways(Before(t));
      StepPending(w, e);
      assert IsSending(w, c) <==> c in Pending(w);
      assert IsSending(Step(w, e), c) <==> c in Pending(Step(w, e));
      if Done(w, c) {
        DoneStaysDone(w, e, c);
      }
    }
  }

  /** Why: only a send that goes through unblocks it. */
  lemma UncancelledWaitsForChannel(w: World, e: Event, c: Context)
    requires Inv(w) && IsSending(w, c) && !Done(w, c)
    ensures || IsSending(Step(w, e), c)
            || (e == Send(c) && |w.queue| < 1024 && Step(w, e).queue == w.queue + [w.probers[c].key])
  {
    StepPending(w, e);
    assert c in Pending(w);
    if EffectOf(w, e).Nothing? || EffectOf(w, e).Flipped? || EffectOf(w, e).Delivered? {
      assert c in Pending(Step(w, e));
    }
  }

  /** And it does go through whenever the channel has room for one of its 1024 events. */
  lemma SendsWhenRoom(w: World, c: Context)
    requires IsSending(w, c) && |w.queue| < 1024
    ensures !IsSending(Step(w, Send(c)), c) && Step(w, Send(c)).queue == w.queue + [w.probers[c].key]
  {
  }
}
