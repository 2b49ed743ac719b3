/**
  The prober's health table and probe goroutines (internal/prober/prober.go) as a state
  machine. Each critical section under the manager's mutex is one atomic step, and so is
  each step a goroutine takes outside it; a trace is any interleaving of such steps.
 */
module ProberTable {
  import opened Options
  import opened Hysteresis

  type Key = string
  type UID = string

  /** A pod to probe. */
  datatype Target = Target(name: string, uid: UID, ip: string)

  datatype PodState = PodState(
    name: string, uid: UID, ip: string, health: Health, seenReady: bool,
    lastProbe: Option<int>, lastTransition: Option<int>)

  /** Identity of a probe context: which Sync created it, and for which pod. */
  datatype Context = Context(serial: nat, uid: UID)

  datatype Entry = Entry(pod: PodState, ctx: Context)

  datatype PolicyEntry = PolicyEntry(cfg: ProbeConfig, pods: map<UID, Entry>)

  /**
    Where a probe goroutine is: before `run` reads its config, waiting for a tick,
    probing without the lock under a captured config, blocked sending an event, returned.
   */
  datatype Phase = Starting | Waiting | InFlight(cfg: ProbeConfig) | Sending | Exited

  datatype Prober = Prober(key: Key, uid: UID, phase: Phase)

  datatype World = World(
    policies: map<Key, PolicyEntry>,
    probers: map<Context, Prober>,
    cancelled: set<Context>,
    serial: nat,
    stopped: bool,
    queue: seq<Key>)

  datatype Event =
    | Sync(key: Key, cfg: ProbeConfig, targets: seq<Target>)
    | SetSeenReady(key: Key, uid: UID)
    | Forget(key: Key)
    | RunStart(ctx: Context)
    | ProbeBegin(ctx: Context)
    | ProbeEnd(ctx: Context, ok: bool, now: int)
    | Send(ctx: Context)
    | Abandon(ctx: Context)
    | Exit(ctx: Context)
    | Receive
    | Stop

  type Trace = seq<Event>

  const CAPACITY := 1024

  const EMPTY := World(map[], map[], {}, 0, false, [])

  // ---------------------------------------------------------------------------
  // Steps
  // ---------------------------------------------------------------------------

  predicate Found(w: World, k: Key, u: UID) {
    k in w.policies && u in w.policies[k].pods
  }

  function EntryOf(w: World, k: Key, u: UID): Entry
    requires Found(w, k, u)
  {
    w.policies[k].pods[u]
  }

  function Pods(w: World, k: Key): map<UID, Entry> {
    if k in w.policies then w.policies[k].pods else map[]
  }

  function WithPod(w: World, k: Key, u: UID, pod: PodState): World
    requires Found(w, k, u)
  {
    var pe := w.policies[k];
    w.(policies := w.policies[k := pe.(pods := pe.pods[u := pe.pods[u].(pod := pod)])])
  }

  function WithPhase(w: World, c: Context, phase: Phase): World
    requires c in w.probers
  {
    w.(probers := w.probers[c := w.probers[c].(phase := phase)])
  }

  /** A context is done when it, or the root it derives from, was cancelled. */
  predicate Done(w: World, c: Context) {
    c in w.cancelled || w.stopped
  }

  /** The targets by UID; a repeated UID keeps its last target. */
  function Desired(targets: seq<Target>): map<UID, Target> {
    if targets == [] then map[]
    else
      var t := targets[|targets| - 1];
      Desired(targets[..|targets| - 1])[t.uid := t]
  }

  function FreshPod(t: Target): PodState {
    PodState(t.name, t.uid, t.ip, FRESH, false, None, None)
  }

  function Refreshed(e: Entry, t: Target): Entry {
    e.(pod := e.pod.(ip := t.ip, name := t.name))
  }

  /** A known pod is refreshed; a new one gets a fresh record and a context of its own. */
  function SyncedEntry(pods: map<UID, Entry>, t: Target, u: UID, serial: nat): Entry {
    if u in pods then Refreshed(pods[u], t) else Entry(FreshPod(t), Context(serial, u))
  }

  function SyncedPods(pods: map<UID, Entry>, desired: map<UID, Target>, serial: nat): map<UID, Entry> {
    map u | u in desired :: SyncedEntry(pods, desired[u], u, serial)
  }

  function Removed(pods: map<UID, Entry>, keep: set<UID>): set<Context> {
    set u | u in pods && u !in keep :: pods[u].ctx
  }

  function Spawned(k: Key, added: set<UID>, serial: nat): map<Context, Prober> {
    map c | c in (set u | u in added :: Context(serial, u)) :: Prober(k, c.uid, Starting)
  }

  function SyncStep(w: World, k: Key, cfg: ProbeConfig, targets: seq<Target>): World {
    var pods := Pods(w, k);
    var desired := Desired(targets);
    w.(policies := w.policies[k := PolicyEntry(cfg, SyncedPods(pods, desired, w.serial))],
       probers := w.probers + Spawned(k, desired.Keys - pods.Keys, w.serial),
       cancelled := w.cancelled + Removed(pods, desired.Keys),
       serial := w.serial + 1)
  }

  function SeenReadyStep(w: World, k: Key, u: UID): World {
    if Found(w, k, u) then WithPod(w, k, u, EntryOf(w, k, u).pod.(seenReady := true)) else w
  }

  function ForgetStep(w: World, k: Key): World {
    w.(policies := w.policies - {k}, cancelled := w.cancelled + Removed(Pods(w, k), {}))
  }

  /** `run` returns at once when its policy is gone; otherwise it goes on to wait. */
  function RunStartStep(w: World, c: Context): World {
    if c !in w.probers || !w.probers[c].phase.Starting? then w
    else WithPhase(w, c, if w.probers[c].key in w.policies then Waiting else Exited)
  }

  /** First critical section of `probeOnce`: capture the config, or return early. */
  function ProbeBeginStep(w: World, c: Context): World {
    if c !in w.probers || !w.probers[c].phase.Waiting? then w
    else
      var p := w.probers[c];
      if Found(w, p.key, p.uid) then WithPhase(w, c, InFlight(w.policies[p.key].cfg)) else w
  }

  /** `record`: one probe result applied to a pod. */
  function Recorded(pod: PodState, s: Sample, now: int): PodState {
    var health := Next(pod.health, s);
    pod.(health := health, lastProbe := Some(now),
         lastTransition := if health.healthy != pod.health.healthy then Some(now) else pod.lastTransition)
  }

  /** The prober is in flight and will find an entry to record on. */
  predicate WillRecord(w: World, c: Context) {
    && c in w.probers && w.probers[c].phase.InFlight?
    && Found(w, w.probers[c].key, w.probers[c].uid)
  }

  predicate WillFlip(w: World, c: Context, ok: bool) {
    && WillRecord(w, c)
    && var p := w.probers[c];
       var health := EntryOf(w, p.key, p.uid).pod.health;
       Next(health, Sample(p.phase.cfg, ok)).healthy != health.healthy
  }

  /** Second critical section of `probeOnce`: look the pod up again and record. */
  function ProbeEndStep(w: World, c: Context, ok: bool, now: int): World {
    if c !in w.probers || !w.probers[c].phase.InFlight? then w
    else if !WillRecord(w, c) then WithPhase(w, c, Waiting)
    else
      var p := w.probers[c];
      var pod := EntryOf(w, p.key, p.uid).pod;
      WithPhase(WithPod(w, p.key, p.uid, Recorded(pod, Sample(p.phase.cfg, ok), now)), c,
                if WillFlip(w, c, ok) then Sending else Waiting)
  }

  predicate CanSend(w: World, c: Context) {
    c in w.probers && w.probers[c].phase.Sending? && |w.queue| < CAPACITY
  }

  predicate CanAbandon(w: World, c: Context) {
    c in w.probers && w.probers[c].phase.Sending? && Done(w, c)
  }

  function Step(w: World, e: Event): World {
    match e
    case Sync(k, cfg, targets) => SyncStep(w, k, cfg, targets)
    case SetSeenReady(k, u) => SeenReadyStep(w, k, u)
    case Forget(k) => ForgetStep(w, k)
    case RunStart(c) => RunStartStep(w, c)
    case ProbeBegin(c) => ProbeBeginStep(w, c)
    case ProbeEnd(c, ok, now) => ProbeEndStep(w, c, ok, now)
    case Send(c) =>
      if CanSend(w, c) then WithPhase(w, c, Waiting).(queue := w.queue + [w.probers[c].key]) else w
    case Abandon(c) => if CanAbandon(w, c) then WithPhase(w, c, Waiting) else w
    case Exit(c) =>
      if c in w.probers && w.probers[c].phase.Waiting? && Done(w, c) then WithPhase(w, c, Exited) else w
    case Receive => if w.queue == [] then w else w.(queue := w.queue[1..])
    case Stop => w.(stopped := true)
  }

  /** The world after a trace; a step that is not enabled leaves it unchanged. */
  function Exec(t: Trace): World {
    if t == [] then EMPTY else Step(Exec(Before(t)), Final(t))
  }

  function Before(t: Trace): Trace
    requires t != []
  {
    t[..|t| - 1]
  }

  function Final(t: Trace): Event
    requires t != []
  {
    t[|t| - 1]
  }

  // ---------------------------------------------------------------------------
  // Lifecycle
  // ---------------------------------------------------------------------------

  /** The entry owns a prober that is not cancelled and probes exactly its policy and pod. */
  predicate OwnsProber(w: World, k: Key, u: UID)
    requires Found(w, k, u)
  {
    var c := EntryOf(w, k, u).ctx;
    && c in w.probers && c !in w.cancelled
    && w.probers[c].key == k && w.probers[c].uid == u
    && EntryOf(w, k, u).pod.uid == u
  }

  /** The prober is the one that the entry of its policy and pod owns. */
  predicate IsOwned(w: World, c: Context)
    requires c in w.probers
  {
    var p := w.probers[c];
    Found(w, p.key, p.uid) && EntryOf(w, p.key, p.uid).ctx == c
  }

  ghost predicate EntriesOwnProbers(w: World) {
    forall k, u :: Found(w, k, u) ==> OwnsProber(w, k, u)
  }

  ghost predicate ProbersAreOwned(w: World) {
    forall c :: c in w.probers && c !in w.cancelled ==> IsOwned(w, c)
  }

  ghost predicate Bookkept(w: World) {
    && w.cancelled <= w.probers.Keys
    && (forall c :: c in w.probers ==> c.serial < w.serial)
    && (forall c :: c in w.probers && w.probers[c].phase.Exited? ==> Done(w, c))
  }

  ghost predicate Inv(w: World) {
    EntriesOwnProbers(w) && ProbersAreOwned(w) && Bookkept(w)
  }

  lemma {:induction false} DesiredKeys(targets: seq<Target>)
    ensures Desired(targets).Keys == set t | t in targets :: t.uid
    ensures forall u :: u in Desired(targets) ==> Desired(targets)[u].uid == u && Desired(targets)[u] in targets
  {
    if targets != [] {
      var n := |targets| - 1;
      DesiredKeys(targets[..n]);
      assert targets == targets[..n] + [targets[n]];
    }
  }

  /** What Sync and Forget cancel are probers of this policy whose pods are not kept. */
  lemma RemovedBelongTo(w: World, k: Key, keep: set<UID>, c: Context)
    requires Inv(w) && c in Removed(Pods(w, k), keep)
    ensures c in w.probers && w.probers[c].key == k && w.probers[c].uid !in keep
  {
    var u :| u in Pods(w, k) && u !in keep && Pods(w, k)[u].ctx == c;
    assert Found(w, k, u) && OwnsProber(w, k, u);
  }

  lemma SyncKeepsEntries(w: World, k: Key, cfg: ProbeConfig, targets: seq<Target>)
    requires Inv(w)
    ensures EntriesOwnProbers(SyncStep(w, k, cfg, targets))
  {
    DesiredKeys(targets);
    var w' := SyncStep(w, k, cfg, targets);
    forall k', u | Found(w', k', u)
      ensures OwnsProber(w', k', u)
    {
      var c := EntryOf(w', k', u).ctx;
      if c in Removed(Pods(w, k), Desired(targets).Keys) {
        RemovedBelongTo(w, k, Desired(targets).Keys, c);
      }
      if k' == k && u !in Pods(w, k) {
        assert c == Context(w.serial, u) && u in Desired(targets).Keys - Pods(w, k).Keys;
        assert c !in w.probers;
        NeverCancelled(w, c);
      } else {
        assert Found(w, k', u) && OwnsProber(w, k', u);
      }
    }
  }

  lemma NeverCancelled(w: World, c: Context)
    requires Inv(w) && c !in w.probers
    ensures c !in w.cancelled
  {
  }

  lemma SyncKeepsProbers(w: World, k: Key, cfg: ProbeConfig, targets: seq<Target>)
    requires Inv(w)
    ensures ProbersAreOwned(SyncStep(w, k, cfg, targets))
  {
    var w' := SyncStep(w, k, cfg, targets);
    forall c | c in w'.probers && c !in w'.cancelled
      ensures IsOwned(w', c)
    {
      if c in w.probers {
        assert IsOwned(w, c);
        if w.probers[c].key == k {
          assert Pods(w, k)[w.probers[c].uid].ctx == c;
        }
      }
    }
  }

  lemma SyncKeepsInv(w: World, k: Key, cfg: ProbeConfig, targets: seq<Target>)
    requires Inv(w)
    ensures Inv(SyncStep(w, k, cfg, targets))
  {
    SyncKeepsEntries(w, k, cfg, targets);
    SyncKeepsProbers(w, k, cfg, targets);
    forall c | c in Removed(Pods(w, k), Desired(targets).Keys) ensures c in w.probers {
      RemovedBelongTo(w, k, Desired(targets).Keys, c);
    }
  }

  lemma ForgetKeepsInv(w: World, k: Key)
    requires Inv(w)
    ensures Inv(ForgetStep(w, k))
  {
    var w' := ForgetStep(w, k);
    forall c | c in Removed(Pods(w, k), {}) ensures c in w.probers && w.probers[c].key == k {
      RemovedBelongTo(w, k, {}, c);
    }
    forall k', u | Found(w', k', u)
      ensures OwnsProber(w', k', u)
    {
      assert Found(w, k', u) && OwnsProber(w, k', u);
    }
    forall c | c in w'.probers && c !in w'.cancelled
      ensures IsOwned(w', c)
    {
      assert IsOwned(w, c);
    }
  }

  /** Replacing a pod's record, with the same UID, keeps the invariant. */
  lemma WithPodKeepsInv(w: World, k: Key, u: UID, pod: PodState)
    requires Inv(w) && Found(w, k, u) && pod.uid == u
    ensures Inv(WithPod(w, k, u, pod))
    ensures WithPod(w, k, u, pod).probers == w.probers
  {
    var w' := WithPod(w, k, u, pod);
    forall k', u' | Found(w', k', u')
      ensures OwnsProber(w', k', u')
    {
      assert Found(w, k', u') && OwnsProber(w, k', u');
    }
    forall c | c in w'.probers && c !in w'.cancelled
      ensures IsOwned(w', c)
    {
      assert IsOwned(w, c);
    }
  }

  lemma WithPhaseKeepsInv(w: World, c: Context, phase: Phase)
    requires Inv(w) && c in w.probers && (phase.Exited? ==> Done(w, c))
    ensures Inv(WithPhase(w, c, phase))
  {
    SameTableKeepsInv(w, WithPhase(w, c, phase));
  }

  /** Phases, the queue and the root context do not matter to ownership. */
  lemma SameTableKeepsInv(w: World, w': World)
    requires Inv(w) && Bookkept(w')
    requires w'.policies == w.policies && w'.cancelled == w.cancelled && w'.probers.Keys == w.probers.Keys
    requires forall c :: c in w.probers ==>
               w'.probers[c].key == w.probers[c].key && w'.probers[c].uid == w.probers[c].uid
    ensures Inv(w')
  {
    forall k, u | Found(w', k, u)
      ensures OwnsProber(w', k, u)
    {
      assert Found(w, k, u) && OwnsProber(w, k, u);
    }
    forall c | c in w'.probers && c !in w'.cancelled
      ensures IsOwned(w', c)
    {
      assert IsOwned(w, c);
    }
  }

  lemma ProbeEndKeepsInv(w: World, c: Context, ok: bool, now: int)
    requires Inv(w)
    ensures Inv(ProbeEndStep(w, c, ok, now))
  {
    if WillRecord(w, c) {
      var p := w.probers[c];
      assert OwnsProber(w, p.key, p.uid);
      var pod := Recorded(EntryOf(w, p.key, p.uid).pod, Sample(p.phase.cfg, ok), now);
      WithPodKeepsInv(w, p.key, p.uid, pod);
      WithPhaseKeepsInv(WithPod(w, p.key, p.uid, pod), c, if WillFlip(w, c, ok) then Sending else Waiting);
    } else if c in w.probers {
      WithPhaseKeepsInv(w, c, Waiting);
    }
  }

  lemma RunStartKeepsInv(w: World, c: Context)
    requires Inv(w)
    ensures Inv(RunStartStep(w, c))
  {
    if c in w.probers {
      if c !in w.cancelled {
        assert IsOwned(w, c);
      }
      WithPhaseKeepsInv(w, c, if w.probers[c].key in w.policies then Waiting else Exited);
    }
  }

  lemma QuietStepKeepsInv(w: World, e: Event)
    requires Inv(w)
    requires e.ProbeBegin? || e.Send? || e.Abandon? || e.Exit? || e.Receive? || e.Stop?
    ensures Inv(Step(w, e))
  {
    match e
    case ProbeBegin(c) =>
      if c in w.probers && Found(w, w.probers[c].key, w.probers[c].uid) {
        WithPhaseKeepsInv(w, c, InFlight(w.policies[w.probers[c].key].cfg));
      }
    case Send(c) =>
      if CanSend(w, c) {
        WithPhaseKeepsInv(w, c, Waiting);
        SameTableKeepsInv(WithPhase(w, c, Waiting), Step(w, e));
      }
    case Abandon(c) =>
      if CanAbandon(w, c) {
        WithPhaseKeepsInv(w, c, Waiting);
      }
    case Exit(c) =>
      if c in w.probers && Done(w, c) {
        WithPhaseKeepsInv(w, c, Exited);
      }
    case Receive => SameTableKeepsInv(w, Step(w, e));
    case Stop => SameTableKeepsInv(w, Step(w, e));
  }

  lemma SeenReadyKeepsInv(w: World, k: Key, u: UID)
    requires Inv(w)
    ensures Inv(SeenReadyStep(w, k, u))
  {
    if Found(w, k, u) {
      assert OwnsProber(w, k, u);
      WithPodKeepsInv(w, k, u, EntryOf(w, k, u).pod.(seenReady := true));
    }
  }

  lemma StepKeepsInv(w: World, e: Event)
    requires Inv(w)
    ensures Inv(Step(w, e))
  {
    match e
    case Sync(k, cfg, targets) => SyncKeepsInv(w, k, cfg, targets);
    case SetSeenReady(k, u) => SeenReadyKeepsInv(w, k, u);
    case Forget(k) => ForgetKeepsInv(w, k);
    case RunStart(c) => RunStartKeepsInv(w, c);
    case ProbeEnd(c, ok, now) => ProbeEndKeepsInv(w, c, ok, now);
    case _ => QuietStepKeepsInv(w, e);
  }

  lemma {:induction false} InvAlways(t: Trace)
    ensures Inv(Exec(t))
  {
    if t != [] {
      InvAlways(Before(t));
      StepKeepsInv(Exec(Before(t)), Final(t));
    }
  }

  /**
    In every reachable world the contexts not cancelled on their own are in one-to-one
    correspondence with the table's entries, each prober probing what its entry says.
   */
  lemma ProbersMatchEntries(t: Trace)
    ensures var w := Exec(t);
            && (forall k, u :: Found(w, k, u) ==> OwnsProber(w, k, u))
            && (forall c :: c in w.probers && c !in w.cancelled <==>
                  exists k, u :: Found(w, k, u) && EntryOf(w, k, u).ctx == c)
            && (forall k, u, k', u' ::
                  Found(w, k, u) && Found(w, k', u') && EntryOf(w, k, u).ctx == EntryOf(w, k', u').ctx ==>
                    k == k' && u == u')
  {
    InvAlways(t);
    var w := Exec(t);
    forall c | c in w.probers && c !in w.cancelled
      ensures exists k, u :: Found(w, k, u) && EntryOf(w, k, u).ctx == c
    {
      assert IsOwned(w, c);
    }
  }

  /** The targets of the last Sync of a policy since its last Forget. */
  function LastSync(t: Trace, k: Key): Option<seq<Target>> {
    if t == [] then None
    else match Final(t)
      case Sync(k', _, targets) =>
        if k' == k then Some(targets) else LastSync(Before(t), k)
      case Forget(k') => if k' == k then None else LastSync(Before(t), k)
      case _ => LastSync(Before(t), k)
  }

  predicate SameIdentity(e: Entry, f: Entry) {
    e.ctx == f.ctx && e.pod.name == f.pod.name && e.pod.uid == f.pod.uid && e.pod.ip == f.pod.ip
  }

  /** A step other than Sync and Forget neither adds, removes nor re-keys an entry. */
  lemma OnlySyncAndForgetShapeTable(w: World, e: Event, k: Key)
    requires !(e.Sync? && e.key == k) && !(e.Forget? && e.key == k)
    ensures var w' := Step(w, e);
            && (k in w'.policies <==> k in w.policies)
            && Pods(w', k).Keys == Pods(w, k).Keys
            && (forall u :: Found(w, k, u) ==> SameIdentity(EntryOf(w', k, u), EntryOf(w, k, u)))
            && (k in w.policies ==> w'.policies[k].cfg == w.policies[k].cfg)
  {
  }

  /** The target that a list gives last for this pod. */
  predicate IsLastTarget(targets: seq<Target>, u: UID, name: string, ip: string) {
    exists i :: 0 <= i < |targets| && targets[i] == Target(name, u, ip)
                && forall j :: i < j < |targets| ==> targets[j].uid != u
  }

  lemma {:induction false} DesiredIsLastTarget(targets: seq<Target>, u: UID)
    requires u in Desired(targets)
    ensures IsLastTarget(targets, u, Desired(targets)[u].name, Desired(targets)[u].ip)
  {
    var n := |targets| - 1;
    if targets[n].uid == u {
      assert targets[n] == Target(targets[n].name, u, targets[n].ip);
    } else {
      DesiredIsLastTarget(targets[..n], u);
      var x := Desired(targets)[u];
      var i :| 0 <= i < n && targets[..n][i] == Target(x.name, u, x.ip)
               && forall j :: i < j < n ==> targets[..n][j].uid != u;
      assert targets[i] == Target(x.name, u, x.ip);
      forall j | i < j < |targets| ensures targets[j].uid != u {
        if j < n {
          assert targets[..n][j] == targets[j];
        }
      }
    }
  }

  /**
    A policy is in the table exactly when it was synced since its last Forget, with the
    pods of that last Sync and the name and address each was last given.
   */
  lemma {:induction false} TableIsLastSync(t: Trace, k: Key)
    ensures k in Exec(t).policies <==> LastSync(t, k).Some?
    ensures LastSync(t, k).Some? ==> Pods(Exec(t), k).Keys == set x | x in LastSync(t, k).value :: x.uid
    ensures forall u :: Found(Exec(t), k, u) && LastSync(t, k).Some? ==>
              var pod := EntryOf(Exec(t), k, u).pod;
              IsLastTarget(LastSync(t, k).value, u, pod.name, pod.ip)
  {
    if t != [] {
      TableIsLastSync(Before(t), k);
      var e := Final(t);
      if e.Sync? && e.key == k {
        DesiredKeys(e.targets);
        forall u | u in Desired(e.targets)
          ensures IsLastTarget(e.targets, u, Desired(e.targets)[u].name, Desired(e.targets)[u].ip)
        {
          DesiredIsLastTarget(e.targets, u);
        }
      } else if !(e.Forget? && e.key == k) {
        OnlySyncAndForgetShapeTable(Exec(Before(t)), e, k);
        assert forall u :: Found(Exec(t), k, u) ==> Found(Exec(Before(t)), k, u);
      }
    }
  }

  /**
    Before the root is stopped, a prober that was not cancelled never takes an early
    return: it has not exited, its policy and pod are there, and a result it records
    lands on its own entry.
   */
  lemma UncancelledNeverReturnsEarly(t: Trace, c: Context)
    requires c in Exec(t).probers && !Done(Exec(t), c)
    ensures var w := Exec(t);
            && !w.probers[c].phase.Exited?
            && w.probers[c].key in w.policies
            && IsOwned(w, c)
            && RunStartStep(w, c) == (if w.probers[c].phase.Starting? then WithPhase(w, c, Waiting) else w)
            && (w.probers[c].phase.Waiting? ==> ProbeBeginStep(w, c).probers[c].phase.InFlight?)
            && (w.probers[c].phase.InFlight? ==> WillRecord(w, c))
  {
    InvAlways(t);
  }

  /** A result recorded on an entry by another prober comes from a cancelled one. */
  lemma ForeignResultsAreFromCancelled(t: Trace, c: Context)
    requires WillRecord(Exec(t), c) && !IsOwned(Exec(t), c)
    ensures c in Exec(t).cancelled
  {
    InvAlways(t);
  }
}
