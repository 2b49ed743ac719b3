/** Which version of a policy's probe spec its probers follow. */
module SpecInForce {
  import opened Options
  import opened ProberTable
  import opened ProbeLife
  import opened Gates
  import opened EndToEnd
  import opened Guardian
  import opened JointRuns
  import opened Readiness
  import R = Reconcile

  lemma LastConfigNext(t: Trace, e: Event, k: Key)
    ensures LastConfig(t + [e], k) == if !IsCall(e, k) || e.SetSeenReady? then LastConfig(t, k)
                                      else if e.Sync? then Some(e.cfg) else None
  {
    assert Before(t + [e]) == t && Final(t + [e]) == e;
  }

  lemma {:induction false} LastConfigOfCalls(t: Trace, k: Key)
    ensures LastConfig(t, k) == LastConfig(CallsOf(t, k), k)
  {
    hide LastConfig;
    if t != [] {
      var p, e := Before(t), Final(t);
      assert t == p + [e];
      LastConfigOfCalls(p, k);
      LastConfigNext(p, e, k);
      if IsCall(e, k) {
        LastConfigNext(CallsOf(p, k), e, k);
      } else {
        assert CallsOf(t, k) == CallsOf(p, k);
      }
    }
  }

  /** After a Sync, and readiness reports only, its config is the last one. */
  lemma {:induction false} LastConfigAfter(t: Trace, k: Key, calls: Trace)
    requires calls != [] && calls[0].Sync? && calls[0].key == k
    requires forall i :: 1 <= i < |calls| ==> calls[i].SetSeenReady?
    ensures LastConfig(t + calls, k) == Some(calls[0].cfg)
  {
    var n := |calls| - 1;
    assert t + calls == t + calls[..n] + [calls[n]];
    LastConfigNext(t + calls[..n], calls[n], k);
    if n > 0 {
      LastConfigAfter(t, k, calls[..n]);
    }
  }

  /**
    The spec in force: from a guarding reconcile's Sync on, and until the controller's next
    calls for the policy, every probe that begins runs under that reconcile's own probe,
    normalized, also for the pods that were probed before.
   */
  lemma ProbesUnderOwnSpec(t: Trace, steps: Trace, env: R.Env, n: nat, i: nat, c: Context)
    requires R.PreludeOf(env).Ready? && CallsOf(steps, env.key) == R.Calls(env)
    requires i < n <= |steps| && steps[i].Sync? && steps[i].key == env.key
    ensures Normalized(env.probe).Some?
    ensures LastConfig(t + steps[..n], env.key) == Some(Normalized(env.probe).value)
    ensures var w := Exec(t + steps[..n]);
            CanBegin(w, c) && w.probers[c].key == env.key ==>
              InFlightUnder(Step(w, ProbeBegin(c)), c, Normalized(env.probe).value)
  {
    var k, p, q := env.key, steps[..n], steps[n..];
    var calls := CallsOf(p, k);
    SpecOfReady(env);
    hide R.PreludeOf;
    hide R.Calls;
    hide Normalized;
    hide CallsOf;
    hide LastConfig;
    hide Exec;
    CallsOfConcat(p, q, k);
    assert p + q == steps;
    assert p[i] == steps[i];
    CallsAreAll(p, k, steps[i]);
    assert calls[0] == R.Calls(env)[0];
    forall j | 1 <= j < |calls| ensures calls[j].SetSeenReady? {
      assert calls[j] == R.Calls(env)[j];
    }
    LastConfigOfCalls(t + p, k);
    CallsOfConcat(t, p, k);
    LastConfigAfter(CallsOf(t, k), k, calls);
    TableHasLastConfig(t + p, k);
  }

  lemma SpecOfReady(env: R.Env)
    requires R.PreludeOf(env).Ready?
    ensures Normalized(env.probe).Some?
    ensures var calls := R.Calls(env);
            && calls != [] && calls[0].Sync? && calls[0].key == env.key && calls[0].cfg == Normalized(env.probe).value
            && forall i :: 1 <= i < |calls| ==> calls[i].SetSeenReady?
  {
    GuardingCalls(env);
    hide Normalized;
    hide Verdict;
  }
}
