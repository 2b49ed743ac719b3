/** Bounded churn: how often, and how much, a policy may act on its target. */
module Churn {
  import opened Int32
  import opened PolicyApi
  import opened Gates
  import opened Remediation
  import opened Reconcile
  import opened Simulation
  import opened DryRun
  import opened Examples

  /** Every reconcile of the run sees this cooldown. */
  predicate FixedCooldown(envs: seq<Env>, c: int) {
    forall i :: 0 <= i < |envs| ==> envs[i].spec.cooldownSeconds == c
  }

  /** What one reconcile does to the remembered remediation. */
  lemma StepAndLast(st: Status, env: Env)
    ensures var o := Step(st, env);
            && (if Logged(o) then o.status.last.Some? && o.status.last.value.time == env.now
                else o.status.last == st.last)
            && (Attempted(o) && st.last.Some? && env.spec.cooldownSeconds > 0 ==>
                  env.now >= st.last.value.time + env.spec.cooldownSeconds)
            && (o.actions != [] ==> Attempted(o))
            && (Attempted(o) && !Logged(o) ==> o.err)
  {
    hide Calls;
    hide Unhealthy;
    hide Swept;
    hide DeploymentStable;
    hide Normalized;
  }

  /** After a logged remediation the remembered time never goes back, whatever the clock does. */
  lemma {:induction false} LastNeverOlder(st: Status, envs: seq<Env>, c: int, i: nat, j: nat)
    requires FixedCooldown(envs, c) && c > 0 && i < j <= |envs|
    requires Logged(OutcomeAt(st, envs, i))
    ensures var last := Persisted(st, envs[..j]).last;
            last.Some? && last.value.time >= envs[i].now
    decreases j
  {
    hide Step;
    PersistedNext(st, envs, j - 1);
    StepAndLast(Persisted(st, envs[..j - 1]), envs[j - 1]);
    if i < j - 1 {
      LastNeverOlder(st, envs, c, i, j - 1);
    }
  }

  /**
    After a logged remediation no reconcile acts again before the cooldown is over, even
    when the clock moves backwards and whatever fails in between.
   */
  lemma RemediationsSpaced(st: Status, envs: seq<Env>, c: int, i: nat, j: nat)
    requires FixedCooldown(envs, c) && c > 0 && i < j < |envs|
    requires Logged(OutcomeAt(st, envs, i)) && Attempted(OutcomeAt(st, envs, j))
    ensures envs[j].now >= envs[i].now + c
  {
    hide Step;
    LastNeverOlder(st, envs, c, i, j);
    StepAndLast(Persisted(st, envs[..j]), envs[j]);
  }

  /** With no failed reconcile, any two reconciles that change the cluster are a cooldown apart. */
  lemma ActionsSpaced(st: Status, envs: seq<Env>, c: int, i: nat, j: nat)
    requires FixedCooldown(envs, c) && c > 0 && i < j < |envs|
    requires !OutcomeAt(st, envs, i).err
    requires OutcomeAt(st, envs, i).actions != [] && OutcomeAt(st, envs, j).actions != []
    ensures envs[j].now >= envs[i].now + c
  {
    hide Step;
    StepAndLast(Persisted(st, envs[..i]), envs[i]);
    StepAndLast(Persisted(st, envs[..j]), envs[j]);
    RemediationsSpaced(st, envs, c, i, j);
  }

  /** Logged remediations whose clock reading lies in the window. */
  function LoggedIn(st: Status, envs: seq<Env>, lo: int, hi: int): nat {
    if envs == [] then 0
    else
      var n := |envs| - 1;
      LoggedIn(st, envs[..n], lo, hi) +
      if Logged(OutcomeAt(st, envs, n)) && lo <= envs[n].now <= hi then 1 else 0
  }

  /** The time that `m` remediations, each a cooldown after the one before, take at least. */
  function Gaps(m: nat, c: int): int {
    if m <= 1 then 0 else Gaps(m - 1, c) + c
  }

  lemma {:induction false} GapsClosed(m: nat, c: int)
    requires m > 0
    ensures Gaps(m, c) == (m - 1) * c
  {
    if m > 1 {
      GapsClosed(m - 1, c);
    }
  }

  /** The latest logged remediation in the window is that far from its start. */
  lemma {:induction false} LoggedFill(st: Status, envs: seq<Env>, c: int, lo: int, hi: int) returns (i: nat)
    requires FixedCooldown(envs, c) && c > 0 && LoggedIn(st, envs, lo, hi) > 0
    ensures i < |envs| && Logged(OutcomeAt(st, envs, i))
    ensures lo + Gaps(LoggedIn(st, envs, lo, hi), c) <= envs[i].now <= hi
  {
    hide Step;
    var n := |envs| - 1;
    if Logged(OutcomeAt(st, envs, n)) && lo <= envs[n].now <= hi {
      i := n;
      if LoggedIn(st, envs[..n], lo, hi) > 0 {
        var p := LoggedFill(st, envs[..n], c, lo, hi);
        assert envs[..n][..p] == envs[..p];
        RemediationsSpaced(st, envs, c, p, n);
      }
    } else {
      i := LoggedFill(st, envs[..n], c, lo, hi);
      assert envs[..n][..i] == envs[..i];
    }
  }

  /** Any window of length W holds at most W / cooldown + 1 logged remediations. */
  lemma WindowBound(st: Status, envs: seq<Env>, c: int, lo: int, hi: int)
    requires FixedCooldown(envs, c) && c > 0 && lo <= hi
    ensures LoggedIn(st, envs, lo, hi) <= (hi - lo) / c + 1
  {
    hide Step;
    var m := LoggedIn(st, envs, lo, hi);
    if m > 0 {
      var _ := LoggedFill(st, envs, c, lo, hi);
      GapsClosed(m, c);
      DivBound(m - 1, c, hi - lo);
    }
  }

  lemma DivBound(k: int, c: int, w: int)
    requires c > 0 && k * c <= w
    ensures k <= w / c
  {
    var q := w / c;
    if k > q {
      MulMonotone(c, q + 1, k);
    }
  }

  // ---------------------------------------------------------------------------
  // Without the assumption on failures
  // ---------------------------------------------------------------------------

  /** No spec of the run sets MaxConcurrent higher; unset or not positive it counts as one. */
  predicate LimitedTo(envs: seq<Env>, limit: nat) {
    limit >= 1 && forall i :: 0 <= i < |envs| ==> envs[i].spec.maxConcurrent <= limit
  }

  /** The reconcile deletes at most its limit, and anything at all only when logged or failed. */
  lemma StepDeletes(st: Status, env: Env)
    ensures var o := Step(st, env);
            && |o.actions| <= EffectiveLimit(env.spec)
            && (o.actions != [] ==> Logged(o) || o.err)
  {
    if PreludeOf(env).Ready? && Decision(st, env) == Act(DeletePod) {
      SweptDeletes(Unhealthy(env.snapshot), EffectiveLimit(env.spec), env.deletes);
      SweptDry(Unhealthy(env.snapshot), EffectiveLimit(env.spec), env.deletes);
    }
  }

  function TotalActions(st: Status, envs: seq<Env>): nat {
    if envs == [] then 0
    else TotalActions(st, envs[..|envs| - 1]) + |OutcomeAt(st, envs, |envs| - 1).actions|
  }

  function TotalLogged(st: Status, envs: seq<Env>): nat {
    if envs == [] then 0
    else TotalLogged(st, envs[..|envs| - 1]) + if Logged(OutcomeAt(st, envs, |envs| - 1)) then 1 else 0
  }

  function TotalFailed(st: Status, envs: seq<Env>): nat {
    if envs == [] then 0
    else TotalFailed(st, envs[..|envs| - 1]) + if OutcomeAt(st, envs, |envs| - 1).err then 1 else 0
  }

  lemma {:induction false} ActionsPerEffort(st: Status, envs: seq<Env>, limit: nat)
    requires LimitedTo(envs, limit)
    ensures TotalActions(st, envs) <= Times(limit, TotalLogged(st, envs) + TotalFailed(st, envs))
  {
    hide Step;
    if envs != [] {
      var n := |envs| - 1;
      ActionsPerEffort(st, envs[..n], limit);
      StepDeletes(Persisted(st, envs[..n]), envs[n]);
      assert envs[n].spec.maxConcurrent <= limit;
    }
  }

  function Times(limit: nat, k: nat): nat {
    if k == 0 then 0 else Times(limit, k - 1) + limit
  }

  lemma {:induction false} TimesIsProduct(limit: nat, k: nat)
    ensures Times(limit, k) == limit * k
  {
    if k > 0 {
      TimesIsProduct(limit, k - 1);
    }
  }

  /** In every run, actions <= limit * (logged remediations + failed reconciles). */
  lemma ActionsAccountedFor(st: Status, envs: seq<Env>, limit: nat)
    requires LimitedTo(envs, limit)
    ensures TotalActions(st, envs) <= limit * (TotalLogged(st, envs) + TotalFailed(st, envs))
  {
    hide Step;
    ActionsPerEffort(st, envs, limit);
    TimesIsProduct(limit, TotalLogged(st, envs) + TotalFailed(st, envs));
  }

  lemma MulMonotone(a: int, x: int, y: int)
    requires a >= 0 && x <= y
    ensures a * x <= a * y
  {
  }

  /** Changes to the cluster by reconciles whose clock reading lies in the window. */
  function ActionsIn(st: Status, envs: seq<Env>, lo: int, hi: int): nat {
    if envs == [] then 0
    else
      var n := |envs| - 1;
      ActionsIn(st, envs[..n], lo, hi) +
      if lo <= envs[n].now <= hi then |OutcomeAt(st, envs, n).actions| else 0
  }

  /** Failed reconciles in the window. */
  function FailedIn(st: Status, envs: seq<Env>, lo: int, hi: int): nat {
    if envs == [] then 0
    else
      var n := |envs| - 1;
      FailedIn(st, envs[..n], lo, hi) + if OutcomeAt(st, envs, n).err && lo <= envs[n].now <= hi then 1 else 0
  }

  lemma {:induction false} WindowEffort(st: Status, envs: seq<Env>, limit: nat, lo: int, hi: int)
    requires LimitedTo(envs, limit)
    ensures ActionsIn(st, envs, lo, hi) <= Times(limit, LoggedIn(st, envs, lo, hi) + FailedIn(st, envs, lo, hi))
  {
    hide Step;
    if envs != [] {
      var n := |envs| - 1;
      WindowEffort(st, envs[..n], limit, lo, hi);
      StepDeletes(Persisted(st, envs[..n]), envs[n]);
      assert envs[n].spec.maxConcurrent <= limit;
    }
  }

  /**
    Any window of length W holds at most limit * (W / cooldown + 1) deletions, and `limit`
    more for each reconcile in it that failed.
   */
  lemma ActionWindowBound(st: Status, envs: seq<Env>, c: int, limit: nat, lo: int, hi: int)
    requires FixedCooldown(envs, c) && c > 0 && lo <= hi
    requires LimitedTo(envs, limit)
    ensures ActionsIn(st, envs, lo, hi) <= limit * ((hi - lo) / c + 1 + FailedIn(st, envs, lo, hi))
  {
    hide Step;
    WindowEffort(st, envs, limit, lo, hi);
    WindowBound(st, envs, c, lo, hi);
    var spent, most := LoggedIn(st, envs, lo, hi) + FailedIn(st, envs, lo, hi),
                       (hi - lo) / c + 1 + FailedIn(st, envs, lo, hi);
    TimesIsProduct(limit, spent);
    MulMonotone(limit, spent, most);
  }

  // ---------------------------------------------------------------------------
  // When spacing fails
  // ---------------------------------------------------------------------------

  /** The API refuses the status write, or a call of the remedy itself. */
  predicate Refused(env: Env) {
    !env.writeStatus || !(env.spec.dryRun || CallsSucceed(env))
  }

  /** A reconcile past every gate fails, and is then forgotten, exactly when the API refuses something. */
  lemma AttemptFailsIff(st: Status, env: Env)
    requires PreludeOf(env).Ready? && Decision(st, env).Act?
    ensures var o := Step(st, env);
            Attempted(o) && (o.err <==> Refused(env)) && (o.err ==> o.status == st)
  {
    ActMeansUnhealthy(st, env);
    ActsByStrategy(st, env);
    RemedyFailsIff(env, Decision(st, env).strategy);
    hide Decision;
    hide PreludeOf;
    hide Remediation.Remediate;
    hide Unhealthy;
    hide Calls;
    hide MeetsError;
  }

  /**
    Spacing of attempts without the assumption on failures is false. A reconcile that acts,
    run again within the cooldown on inputs it would act on anew, acts again if and only if
    its status write failed or its remedy met an API error, even after deleting some pods.
   */
  lemma ActsAgainIff(st: Status, env: Env, next: Env)
    requires PreludeOf(env).Ready? && Decision(st, env).Act?
    requires PreludeOf(next).Ready? && Decision(st, next).Act?
    requires next.spec.cooldownSeconds > 0 && next.now - env.now < next.spec.cooldownSeconds
    ensures Attempted(Step(Step(st, env).status, next)) <==> Refused(env)
  {
    hide Step;
    hide Decision;
    hide PreludeOf;
    AttemptFailsIff(st, env);
    AttemptFailsIff(st, next);
    StepAndLast(st, env);
    StepAndLast(Step(st, env).status, next);
  }

  /** In a run, an attempt within the cooldown of an earlier one means that the earlier one was refused. */
  lemma CloseAttemptsWereRefused(st: Status, envs: seq<Env>, c: int, i: nat, j: nat)
    requires FixedCooldown(envs, c) && c > 0 && i < j < |envs| && envs[j].now < envs[i].now + c
    requires Attempted(OutcomeAt(st, envs, i)) && Attempted(OutcomeAt(st, envs, j))
    ensures Refused(envs[i])
  {
    hide Step;
    var s := Persisted(st, envs[..i]);
    AttemptsPassGates(s, envs[i]);
    AttemptFailsIff(s, envs[i]);
    StepAndLast(s, envs[i]);
    if Logged(OutcomeAt(st, envs, i)) {
      RemediationsSpaced(st, envs, c, i, j);
    }
  }

  lemma AttemptsPassGates(st: Status, env: Env)
    requires Attempted(Step(st, env))
    ensures PreludeOf(env).Ready? && Decision(st, env).Act?
  {
    hide Decision;
    hide Unhealthy;
    hide Calls;
    hide Remediation.Remediate;
  }

  /**
    Such inputs without any failed status write, for every cooldown: the sweep deletes one
    of two pods and is refused the other, and the next reconcile, at the same time, deletes
    that one.
   */
  lemma HalfSweptActsAgain(cooldown: int32)
    requires cooldown > 0
    ensures var o := Step(NO_STATUS, HalfSwept(cooldown, 0));
            && o.actions == [Delete(A.name)] && o.branch == RemediateFailed(DeletePod)
            && Step(o.status, SweptOn(cooldown, 0)).actions == [Delete(B.name)]
  {
    var env, next := HalfSwept(cooldown, 0), SweptOn(cooldown, 0);
    HalfSweptReady(cooldown, 0);
    hide PreludeOf;
    hide Unhealthy;
    var us := [RecordOf(A, false), RecordOf(B, false)];
    assert us[..1] == [us[0]] && us[..0] == [] && [us[0]][..0] == [] && [us[1]][..0] == [];
    assert Swept(us[..1], 2, env.deletes, false) == Sweep(1, A.name, [Delete(A.name)], false);
    assert Swept(us, 2, env.deletes, false) == Sweep(1, A.name, [Delete(A.name)], true);
    assert Swept([us[1]], 2, map[], false) == Sweep(1, B.name, [Delete(B.name)], false);
    hide Swept;
    hide Calls;
    hide DeadlineExceeded;
  }

  lemma RestartOutcome(st: Status, env: Env)
    requires PreludeOf(env).Ready? && Decision(st, env) == Act(RolloutRestart)
    requires !env.spec.dryRun && env.patch.Ok?
    ensures var o := Step(st, env);
            && o.actions == [Restart(env.now)] && o.branch.Remediated? && o.err == !env.writeStatus
            && (o.err ==> o.status == st)
  {
  }
}
