/** When a pod's grace ends, over whole runs of prober and controller. */
module Readiness {
  import opened ProberTable
  import opened ProbeHistory
  import opened LateResults
  import opened EndToEnd
  import opened JointRuns
  import R = Reconcile

  /** A readiness report stays with the entry it was made on. */
  lemma {:induction false} SawReadyStays(t: Trace, more: Trace, k: Key, u: UID, c: Context)
    requires SawReady(t, k, u)
    requires forall m :: 0 <= m <= |more| ==> Holds(Exec(t + more[..m]), k, u, c)
    ensures SawReady(t + more, k, u)
  {
    hide Holds;
    if more == [] {
      assert t + more == t;
    } else {
      var p, e := Before(more), Final(more);
      assert forall m :: 0 <= m <= |p| ==> p[..m] == more[..m];
      SawReadyStays(t, p, k, u, c);
      assert t + more == t + p + [e] && more[..|more|] == more && more[..|p|] == p;
      ExecSnoc(t + p, e);
      NotReinserted(t + p, e, k, u, c);
      assert Before(t + more) == t + p && Final(t + more) == e;
    }
  }

  /** An entry that keeps its context was not inserted anew. */
  lemma NotReinserted(t: Trace, e: Event, k: Key, u: UID, c: Context)
    requires Holds(Exec(t), k, u, c) && Holds(Step(Exec(t), e), k, u, c)
    ensures !Inserts(Exec(t), e, k, u)
  {
  }

  /** Reported Ready at `n`, with the same entry from then on. */
  lemma SawReadyAfter(t: Trace, k: Key, u: UID, c: Context, n: nat)
    requires n < |t| && t[n] == SetSeenReady(k, u)
    requires forall m :: n <= m <= |t| ==> Holds(Exec(t[..m]), k, u, c)
    ensures SawReady(t, k, u)
  {
    var p := t[..n + 1];
    assert Before(p) == t[..n] && Final(p) == t[n];
    ReportCounts(t[..n], k, u);
    assert p == t[..n] + [SetSeenReady(k, u)];
    var more := t[n + 1..];
    forall m | 0 <= m <= |more| ensures Holds(Exec(p + more[..m]), k, u, c) {
      assert p + more[..m] == t[..n + 1 + m];
    }
    SawReadyStays(p, more, k, u, c);
    assert p + more == t;
  }

  lemma ReportCounts(t: Trace, k: Key, u: UID)
    requires Found(Exec(t), k, u)
    ensures SawReady(t + [SetSeenReady(k, u)], k, u)
  {
    assert Before(t + [SetSeenReady(k, u)]) == t;
  }

  /** Going back to where no Sync of the policy comes after, the entry is the one there is at the end. */
  lemma {:induction false} HeldSince(t: Trace, k: Key, u: UID, c: Context, from: nat)
    requires Holds(Exec(t), k, u, c) && from <= |t|
    requires forall m :: from <= m < |t| ==> !(t[m].Sync? && t[m].key == k)
    ensures forall m :: from <= m <= |t| ==> Holds(Exec(t[..m]), k, u, c)
  {
    hide Step;
    assert t[..|t|] == t;
    if from < |t| {
      var p, e := Before(t), Final(t);
      ContextKept(Exec(p), e, k, u);
      HeldSince(p, k, u, c, from);
      assert forall m :: from <= m <= |p| ==> p[..m] == t[..m];
    }
  }

  /** The prober of an entry is never forgotten by the machine. */
  lemma {:induction false} ContextStays(t: Trace, more: Trace, c: Context, k: Key, u: UID)
    requires Holds(Exec(t), k, u, c)
    ensures c in Exec(t + more).probers
  {
    if more == [] {
      assert t + more == t;
      InvAlways(t);
      assert OwnsProber(Exec(t), k, u);
    } else {
      ContextStays(t, Before(more), c, k, u);
      assert t + more == t + Before(more) + [Final(more)];
      ExecSnoc(t + Before(more), Final(more));
      ProbersStay(Exec(t + Before(more)), Final(more));
    }
  }

  lemma {:induction false} CallsAreSteps(t: Trace, k: Key, e: Event)
    requires e in CallsOf(t, k)
    ensures e in t && IsCall(e, k)
  {
    if e in CallsOf(Before(t), k) {
      CallsAreSteps(Before(t), k, e);
    }
  }

  lemma HeldBefore(t: Trace, e: Event, k: Key, u: UID, c: Context)
    requires c in Exec(t).probers && Holds(Exec(t + [e]), k, u, c)
    ensures Holds(Exec(t), k, u, c)
  {
    hide Step;
    InvAlways(t);
    ExecSnoc(t, e);
    StepOnContext(Exec(t), e, k, u, c);
  }

  /** An entry that is there at two moments, with one context, was there all the time between. */
  lemma {:induction false} HeldBetween(t: Trace, more: Trace, k: Key, u: UID, c: Context)
    requires Holds(Exec(t), k, u, c) && Holds(Exec(t + more), k, u, c)
    ensures forall m :: 0 <= m <= |more| ==> Holds(Exec(t + more[..m]), k, u, c)
  {
    hide Exec;
    hide Holds;
    assert more[..|more|] == more;
    if more != [] {
      var p, e := Before(more), Final(more);
      assert t + more == t + p + [e];
      ContextStays(t, p, c, k, u);
      HeldBefore(t + p, e, k, u, c);
      HeldBetween(t, p, k, u, c);
      assert forall m :: 0 <= m <= |p| ==> p[..m] == more[..m];
    }
  }

  /** Among calls that are a Sync and then readiness reports only, no Sync comes after a report. */
  lemma ReportsComeLast(p: Trace, q: Trace, k: Key, calls: Trace, y: nat)
    requires CallsOf(p + q, k) == calls && calls != [] && calls[0].Sync?
    requires forall i :: 1 <= i < |calls| ==> calls[i].SetSeenReady?
    requires q != [] && q[0].SetSeenReady? && q[0].key == k && y < |q|
    ensures !(q[y].Sync? && q[y].key == k)
  {
    CallsOfConcat(p, q, k);
    FirstCall(q, k);
    hide CallsOf;
    assert CallsOf(p, k) != [];
    forall z | 0 <= z < |CallsOf(q, k)| ensures CallsOf(q, k)[z].SetSeenReady? {
      assert CallsOf(q, k)[z] == calls[|CallsOf(p, k)| + z];
    }
    if IsCall(q[y], k) {
      CallsAreAll(q, k, q[y]);
    }
  }

  lemma FirstCall(q: Trace, k: Key)
    requires q != [] && IsCall(q[0], k)
    ensures CallsOf(q, k) != [] && CallsOf(q, k)[0] == q[0]
  {
    assert q == [q[0]] + q[1..];
    CallsOfConcat([q[0]], q[1..], k);
    assert Before([q[0]]) == [];
  }

  /** The calls of a guarding reconcile are of that kind. */
  lemma GuardingCalls(env: R.Env)
    requires R.PreludeOf(env).Ready?
    ensures R.Calls(env) != [] && R.Calls(env)[0].Sync?
    ensures forall i :: 1 <= i < |R.Calls(env)| ==> R.Calls(env)[i].SetSeenReady?
  {
    assert env.listPods.Some?;
    hide R.PreludeOf;
    var calls := R.Calls(env);
    assert calls[1..] == R.ReadyCalls(env.key, env.listPods.value);
    forall i | 1 <= i < |calls| ensures calls[i].SetSeenReady? {
      assert calls[i] == calls[1..][i - 1];
      OnlySeenReady(env.key, env.listPods.value, calls[i]);
    }
  }

  /** Where a guarding reconcile reports a pod that it lists Ready: after its Sync. */
  lemma ReportAt(events: Trace, env: R.Env, u: UID) returns (x: nat)
    requires CallsOf(events, env.key) == R.Calls(env) && ListsReady(env, u)
    ensures x < |events| && events[x] == SetSeenReady(env.key, u)
    ensures forall y :: x <= y < |events| ==> !(events[y].Sync? && events[y].key == env.key)
  {
    var k, e := env.key, SetSeenReady(env.key, u);
    ReadyCallsAre(k, env.listPods.value, u);
    GuardingCalls(env);
    assert e in R.Calls(env);
    hide R.PreludeOf;
    hide R.Calls;
    hide ListsReady;
    hide CallsOf;
    CallsAreSteps(events, k, e);
    x :| 0 <= x < |events| && events[x] == e;
    assert events[..x] + events[x..] == events;
    forall y | x <= y < |events| ensures !(events[y].Sync? && events[y].key == k) {
      ReportsComeLast(events[..x], events[x..], k, R.Calls(env), y - x);
    }
  }

  /** Reported on an entry that is still there at the end of those steps, and later. */
  lemma ReportLasts(t: Trace, events: Trace, rest: Trace, k: Key, u: UID, c: Context, x: nat)
    requires x < |events| && events[x] == SetSeenReady(k, u)
    requires forall y :: x <= y < |events| ==> !(events[y].Sync? && events[y].key == k)
    requires Holds(Exec(t + events), k, u, c) && Holds(Exec(t + events + rest), k, u, c)
    ensures SawReady(t + events + rest, k, u)
  {
    hide Exec;
    hide Holds;
    hide SawReady;
    var here, n := t + events, |t| + x;
    assert forall m :: n <= m < |here| ==> here[m] == events[m - |t|];
    HeldSince(here, k, u, c, n);
    HeldBetween(here, rest, k, u, c);
    var all := here + rest;
    forall m | n <= m <= |all| ensures Holds(Exec(all[..m]), k, u, c) {
      if m <= |here| {
        assert all[..m] == here[..m];
      } else {
        assert all[..m] == here + rest[..m - |here|];
      }
    }
    assert all[n] == events[x];
    SawReadyAfter(all, k, u, c, n);
  }

  lemma PrefixOfRun(rounds: seq<Round>, i: nat, j: nat)
    requires i <= j < |rounds|
    ensures UpTo(rounds, i) <= UpTo(rounds, j)
  {
    if i < j {
      PrefixOfRun(rounds, i, j - 1);
      UpToSplit(rounds, j);
    }
  }

  lemma ReportedInRun(rounds: seq<Round>, k: Key, u: UID, i: nat, j: nat, c: Context)
    requires JointRun(rounds, k) && i <= j < |rounds| && ListsReady(rounds[i].env, u)
    requires Holds(Exec(UpTo(rounds, i)), k, u, c) && Holds(Exec(UpTo(rounds, j)), k, u, c)
    ensures SawReady(UpTo(rounds, j), k, u)
  {
    hide TakenAt;
    hide TraceOf;
    hide Exec;
    hide Holds;
    hide ListsReady;
    hide SawReady;
    hide R.Calls;
    hide R.PreludeOf;
    var events, env := rounds[i].events, rounds[i].env;
    assert env.key == k && CallsOf(events, k) == R.Calls(env);
    var x := ReportAt(events, env, u);
    UpToSplit(rounds, i);
    PrefixOfRun(rounds, i, j);
    var rest := UpTo(rounds, j)[|UpTo(rounds, i)|..];
    assert UpTo(rounds, j) == UpTo(rounds, i) + rest;
    hide UpTo;
    ReportLasts(TraceOf(rounds[..i]), events, rest, k, u, c, x);
  }

  /**
    Readiness over a whole run: the prober takes a pod for past its grace exactly when some
    reconcile listed it Ready since the entry it has now was inserted.
   */
  lemma SawReadyIff(rounds: seq<Round>, k: Key, u: UID, j: nat)
    requires JointRun(rounds, k) && j < |rounds| && Found(Exec(UpTo(rounds, j)), k, u)
    ensures SawReady(UpTo(rounds, j), k, u) <==> ListedReadySince(rounds, k, u, j)
  {
    if SawReady(UpTo(rounds, j), k, u) {
      ReadyWasListed(rounds, k, u, j);
    }
    if ListedReadySince(rounds, k, u, j) {
      var t, c := UpTo(rounds, j), EntryOf(Exec(UpTo(rounds, j)), k, u).ctx;
      var i :| 0 <= i <= j && ListsReady(rounds[i].env, u) && Holds(Exec(UpTo(rounds, i)), k, u, c);
      ReportedInRun(rounds, k, u, i, j, c);
    }
  }
}
