/**
  The per-pod threshold machine of internal/prober/prober.go: `record` flips a pod
  to unhealthy after enough consecutive failures and back after enough consecutive
  successes, with int32 counters that may wrap.
 */
module Hysteresis {
  import opened Int32

  /** A normalized probe; durations are in whole seconds. */
  datatype ProbeConfig = ProbeConfig(
    path: string, scheme: string, port: int32,
    timeout: int, period: int, initialDelay: int,
    successThreshold: int32, failureThreshold: int32,
    headers: map<string, string>)

  /** The part of a pod's record that the threshold machine works on. */
  datatype Health = Health(healthy: bool, failures: int32, successes: int32)

  /** One recorded probe: the config it ran under and whether it passed. */
  datatype Sample = Sample(cfg: ProbeConfig, ok: bool)

  /** A new entry is assumed healthy. */
  const FRESH := Health(true, 0, 0)

  function EffectiveSuccess(cfg: ProbeConfig): (s: int32)
    ensures s >= 1
  {
    if cfg.successThreshold <= 0 then 1 else cfg.successThreshold
  }

  function EffectiveFailure(cfg: ProbeConfig): (f: int32)
    ensures f >= 1
  {
    if cfg.failureThreshold <= 0 then 3 else cfg.failureThreshold
  }

  function Next(h: Health, s: Sample): Health {
    if s.ok then
      var n := Increment(h.successes);
      Health(h.healthy || n >= EffectiveSuccess(s.cfg), 0, n)
    else
      var n := Increment(h.failures);
      Health(h.healthy && n < EffectiveFailure(s.cfg), n, 0)
  }

  /** The machine after a history of recorded results, from a fresh entry. */
  function After(h: seq<Sample>): Health {
    if h == [] then FRESH else Next(After(Init(h)), Last(h))
  }

  function Init(h: seq<Sample>): seq<Sample>
    requires h != []
  {
    h[..|h| - 1]
  }

  function Last(h: seq<Sample>): Sample
    requires h != []
  {
    h[|h| - 1]
  }

  // ---------------------------------------------------------------------------
  // Wrap-around is harmless
  // ---------------------------------------------------------------------------

  /** The same machine over unbounded counters. */
  datatype Tally = Tally(healthy: bool, failures: nat, successes: nat)

  function NextUnbounded(t: Tally, s: Sample): Tally {
    if s.ok then
      Tally(t.healthy || t.successes + 1 >= EffectiveSuccess(s.cfg), 0, t.successes + 1)
    else
      Tally(t.healthy && t.failures + 1 < EffectiveFailure(s.cfg), t.failures + 1, 0)
  }

  function AfterUnbounded(h: seq<Sample>): Tally {
    if h == [] then Tally(true, 0, 0) else NextUnbounded(AfterUnbounded(Init(h)), Last(h))
  }

  /**
    For every history, with thresholds changing at will, the int32 machine gives the
    verdict of the unbounded one; the counter that is next compared never wraps.
   */
  lemma {:induction false} WrapHarmless(h: seq<Sample>)
    ensures After(h).healthy == AfterUnbounded(h).healthy
    ensures After(h).failures == Wrap(AfterUnbounded(h).failures)
    ensures After(h).successes == Wrap(AfterUnbounded(h).successes)
    ensures After(h).healthy ==> AfterUnbounded(h).failures < MAX
    ensures !After(h).healthy ==> AfterUnbounded(h).successes < MAX
  {
    if h != [] {
      WrapHarmless(Init(h));
      var t := AfterUnbounded(Init(h));
      WrapIncrement(t.failures);
      WrapIncrement(t.successes);
    }
  }

  /** Number of verdict flips along a history. */
  function Flips(h: seq<Sample>): nat {
    if h == [] then 0
    else Flips(Init(h)) + if After(h).healthy != After(Init(h)).healthy then 1 else 0
  }

  function FlipsUnbounded(h: seq<Sample>): nat {
    if h == [] then 0
    else FlipsUnbounded(Init(h)) + if AfterUnbounded(h).healthy != AfterUnbounded(Init(h)).healthy then 1 else 0
  }

  lemma {:induction false} WrapKeepsFlips(h: seq<Sample>)
    ensures After(h).healthy == AfterUnbounded(h).healthy
    ensures Flips(h) == FlipsUnbounded(h)
  {
    WrapHarmless(h);
    if h != [] {
      WrapKeepsFlips(Init(h));
    }
  }

  // ---------------------------------------------------------------------------
  // Trailing runs and the reported counters
  // ---------------------------------------------------------------------------

  /** The results from `i` on, `n` of them, are all `ok`. */
  predicate RunOf(h: seq<Sample>, i: int, n: int, ok: bool) {
    0 <= i && 0 <= n && i + n <= |h| && forall x :: i <= x < i + n ==> h[x].ok == ok
  }

  /** Length of the run of `ok` results that ends the history. */
  function Trailing(h: seq<Sample>, ok: bool): nat {
    if h == [] || Last(h).ok != ok then 0 else Trailing(Init(h), ok) + 1
  }

  lemma {:induction false} TrailingIsLongestRun(h: seq<Sample>, ok: bool, n: nat)
    requires n <= |h|
    ensures Trailing(h, ok) <= |h|
    ensures RunOf(h, |h| - n, n, ok) <==> n <= Trailing(h, ok)
  {
    if h != [] {
      TrailingIsLongestRun(Init(h), ok, if n == 0 then 0 else n - 1);
      if 0 < n && Last(h).ok == ok {
        if RunOf(Init(h), |h| - n, n - 1, ok) {
          assert RunOf(h, |h| - n, n, ok);
        }
        if RunOf(h, |h| - n, n, ok) {
          assert RunOf(Init(h), |h| - n, n - 1, ok);
        }
      }
      if 0 < n && Last(h).ok != ok {
        assert h[|h| - 1].ok != ok;
      }
    }
  }

  lemma {:induction false} TallyIsTrailing(h: seq<Sample>)
    ensures AfterUnbounded(h).failures == Trailing(h, false)
    ensures AfterUnbounded(h).successes == Trailing(h, true)
  {
    if h != [] {
      TallyIsTrailing(Init(h));
    }
  }

  /**
    The ConsecutiveFailures field reported in the status is the length of the trailing
    failure run modulo 2^32, and is that length exactly when it fits an int32.
   */
  lemma {:induction false} ReportedFailures(h: seq<Sample>)
    ensures After(h).failures == Wrap(Trailing(h, false))
    ensures After(h).failures == Trailing(h, false) <==> Trailing(h, false) <= MAX
  {
    WrapHarmless(h);
    TallyIsTrailing(h);
    WrapExact(Trailing(h, false));
  }

  /** `n` equal results under one config. */
  function Repeated(cfg: ProbeConfig, ok: bool, n: nat): seq<Sample> {
    seq(n, _ => Sample(cfg, ok))
  }

  /** A history of `n` failures, long enough to make the reported counter negative. */
  lemma {:induction false} AllFailures(cfg: ProbeConfig, n: nat)
    ensures Trailing(Repeated(cfg, false, n), false) == n
  {
    if n > 0 {
      assert Init(Repeated(cfg, false, n)) == Repeated(cfg, false, n - 1);
      AllFailures(cfg, n - 1);
    }
  }

  lemma ReportedFailuresCanGoNegative(cfg: ProbeConfig)
    ensures After(Repeated(cfg, false, 0x8000_0000)).failures == MIN
  {
    AllFailures(cfg, 0x8000_0000);
    ReportedFailures(Repeated(cfg, false, 0x8000_0000));
  }

  // ---------------------------------------------------------------------------
  // Exact characterization, with thresholds changing at will
  // ---------------------------------------------------------------------------

  /** As many as the setting says, or as its default when it is not positive. */
  predicate Reaches(n: int, setting: int32, default: int) {
    (setting > 0 ==> n >= setting) && (setting <= 0 ==> n >= default)
  }

  /** The `i`-th result completes a run of failures as long as its own config asks for. */
  predicate Condemns(h: seq<Sample>, i: nat)
    requires i < |h|
  {
    !h[i].ok && Reaches(Trailing(h[..i + 1], false), h[i].cfg.failureThreshold, 3)
  }

  /** The `i`-th result completes a run of successes as long as its own config asks for. */
  predicate Acquits(h: seq<Sample>, i: nat)
    requires i < |h|
  {
    h[i].ok && Reaches(Trailing(h[..i + 1], true), h[i].cfg.successThreshold, 1)
  }

  /** Some result condemned the pod and none after it acquitted it. */
  ghost predicate Condemned(h: seq<Sample>) {
    exists i :: 0 <= i < |h| && Condemns(h, i) && forall j :: i < j < |h| ==> !Acquits(h, j)
  }

  lemma PrefixVerdicts(h: seq<Sample>, i: nat)
    requires h != [] && i < |h| - 1
    ensures Condemns(Init(h), i) == Condemns(h, i) && Acquits(Init(h), i) == Acquits(h, i)
  {
    assert Init(h)[..i + 1] == h[..i + 1];
  }

  lemma CondemnedNext(h: seq<Sample>)
    requires h != []
    ensures Condemned(h) <==> Condemns(h, |h| - 1) || (Condemned(Init(h)) && !Acquits(h, |h| - 1))
  {
    var p, n := Init(h), |h| - 1;
    forall i | 0 <= i < n ensures Condemns(p, i) == Condemns(h, i) && Acquits(p, i) == Acquits(h, i) {
      PrefixVerdicts(h, i);
    }
    if Condemned(h) && !Condemns(h, n) {
      var i :| 0 <= i < |h| && Condemns(h, i) && forall j :: i < j < |h| ==> !Acquits(h, j);
      assert Condemns(p, i) && forall j :: i < j < n ==> !Acquits(p, j);
    }
    if Condemned(p) && !Acquits(h, n) {
      var i :| 0 <= i < |p| && Condemns(p, i) && forall j :: i < j < |p| ==> !Acquits(p, j);
      assert Condemns(h, i) && forall j :: i < j < |h| ==> !Acquits(h, j);
    }
  }

  /**
    For every history, with the probe config changing at will: a pod is unhealthy exactly
    when some failure completed a run as long as the failure threshold of its own config,
    and no later success one as long as the success threshold of its own.
   */
  lemma {:induction false} UnhealthyIffCondemned(h: seq<Sample>)
    ensures !After(h).healthy <==> Condemned(h)
  {
    WrapHarmless(h);
    if h != [] {
      UnhealthyIffCondemned(Init(h));
      WrapHarmless(Init(h));
      TallyIsTrailing(Init(h));
      TallyIsTrailing(h);
      CondemnedNext(h);
      assert h[..|h| - 1 + 1] == h;
    }
  }

  // ---------------------------------------------------------------------------
  // Exact characterization under fixed thresholds
  // ---------------------------------------------------------------------------

  /** Every recorded result ran under effective thresholds `f` and `s`. */
  predicate Uniform(h: seq<Sample>, f: int, s: int) {
    forall x :: 0 <= x < |h| ==> EffectiveFailure(h[x].cfg) == f && EffectiveSuccess(h[x].cfg) == s
  }

  ghost predicate NoRecovery(h: seq<Sample>, from: int, s: int) {
    forall j :: from <= j ==> !RunOf(h, j, s, true)
  }

  /** Some run of `f` failures is followed by no run of `s` successes. */
  ghost predicate CondemnedUnder(h: seq<Sample>, f: int, s: int) {
    exists i :: RunOf(h, i, f, false) && NoRecovery(h, i + f, s)
  }

  /** Appending a failure condemns exactly when it already was, or completes a run of `f`. */
  lemma CondemnedByFailure(h: seq<Sample>, f: int, s: int)
    requires h != [] && f >= 1 && s >= 1 && !Last(h).ok
    ensures CondemnedUnder(h, f, s) <==> CondemnedUnder(Init(h), f, s) || f <= Trailing(h, false)
  {
    var p := Init(h);
    if CondemnedUnder(h, f, s) {
      var i :| RunOf(h, i, f, false) && NoRecovery(h, i + f, s);
      if i + f <= |p| {
        assert RunOf(p, i, f, false);
        RecoveryExtends(h, i + f, s);
      } else {
        TrailingIsLongestRun(h, false, f);
      }
    }
    if CondemnedUnder(p, f, s) {
      var i :| RunOf(p, i, f, false) && NoRecovery(p, i + f, s);
      assert RunOf(h, i, f, false);
      forall j | i + f <= j ensures !RunOf(h, j, s, true) {
        assert !RunOf(p, j, s, true) && !h[|h| - 1].ok;
      }
    }
    TrailingIsLongestRun(h, false, 0);
    if f <= Trailing(h, false) {
      TrailingIsLongestRun(h, false, f);
      assert RunOf(h, |h| - f, f, false) && NoRecovery(h, |h| - f + f, s);
    }
  }

  /** A run of successes is still one in a longer history. */
  lemma RecoveryExtends(h: seq<Sample>, from: int, s: int)
    requires h != [] && NoRecovery(h, from, s)
    ensures NoRecovery(Init(h), from, s)
  {
    forall j | from <= j ensures !RunOf(Init(h), j, s, true) {
      assert !RunOf(h, j, s, true);
    }
  }

  /** Appending a success acquits exactly when it completes a run of `s`. */
  lemma CondemnedBySuccess(h: seq<Sample>, f: int, s: int)
    requires h != [] && f >= 1 && s >= 1 && Last(h).ok
    ensures CondemnedUnder(h, f, s) <==> CondemnedUnder(Init(h), f, s) && Trailing(h, true) < s
  {
    var p := Init(h);
    TrailingIsLongestRun(h, true, 0);
    if CondemnedUnder(h, f, s) {
      var i :| RunOf(h, i, f, false) && NoRecovery(h, i + f, s);
      assert !h[i + f - 1].ok;
      assert RunOf(p, i, f, false);
      RecoveryExtends(h, i + f, s);
      if s <= Trailing(h, true) {
        TrailingIsLongestRun(h, true, s);
      }
    }
    if CondemnedUnder(p, f, s) && Trailing(h, true) < s {
      var i :| RunOf(p, i, f, false) && NoRecovery(p, i + f, s);
      assert RunOf(h, i, f, false);
      if s <= |h| {
        TrailingIsLongestRun(h, true, s);
      }
      forall j | i + f <= j ensures !RunOf(h, j, s, true) {
        assert !RunOf(p, j, s, true);
      }
    }
  }

  /**
    A pod is unhealthy exactly when some `f` consecutive failures were recorded and no
    `s` consecutive successes after them, `f` and `s` being the effective thresholds.
   */
  lemma {:induction false} UnhealthyIffCondemnedUnder(h: seq<Sample>, f: int, s: int)
    requires f >= 1 && s >= 1 && Uniform(h, f, s)
    ensures !After(h).healthy <==> CondemnedUnder(h, f, s)
  {
    WrapHarmless(h);
    if h == [] {
      forall i ensures !RunOf(h, i, f, false) {
      }
    } else {
      var p := Init(h);
      UnhealthyIffCondemnedUnder(p, f, s);
      WrapHarmless(p);
      TallyIsTrailing(p);
      TallyIsTrailing(h);
      assert EffectiveFailure(h[|h| - 1].cfg) == f;
      if Last(h).ok {
        CondemnedBySuccess(h, f, s);
      } else {
        CondemnedByFailure(h, f, s);
      }
    }
  }

  // ---------------------------------------------------------------------------
  // Flap bound
  // ---------------------------------------------------------------------------

  /** Probes that `k` flips cost: `f` for each odd one, `s` for each even one. */
  function FlapCost(k: nat, f: int, s: int): int {
    if k == 0 then 0 else FlapCost(k - 1, f, s) + if k % 2 == 1 then f else s
  }

  lemma {:induction false} FlapCostClosed(k: nat, f: int, s: int)
    ensures FlapCost(k, f, s) == (k + 1) / 2 * f + k / 2 * s
  {
    if k > 0 {
      FlapCostClosed(k - 1, f, s);
      if k % 2 == 1 {
        assert (k + 1) / 2 == k / 2 + 1;
      } else {
        assert k / 2 == (k - 1) / 2 + 1;
      }
    }
  }

  /**
    `k` flips need their cost in recorded probes, plus the run in progress; the verdict
    is the parity of the number of flips.
   */
  lemma {:induction false} FlapsArePaidFor(h: seq<Sample>, f: int, s: int)
    requires Uniform(h, f, s)
    ensures var t := AfterUnbounded(h);
            && (t.healthy <==> FlipsUnbounded(h) % 2 == 0)
            && FlapCost(FlipsUnbounded(h), f, s) + (if t.healthy then t.failures else t.successes) <= |h|
  {
    if h != [] {
      FlapsArePaidFor(Init(h), f, s);
      assert EffectiveFailure(h[|h| - 1].cfg) == f && EffectiveSuccess(h[|h| - 1].cfg) == s;
    }
  }

  /** `k` flips need at least ceil(k/2)*f + floor(k/2)*s recorded probes. */
  lemma FlapBound(h: seq<Sample>, f: int, s: int)
    requires Uniform(h, f, s)
    ensures |h| >= (Flips(h) + 1) / 2 * f + Flips(h) / 2 * s
    ensures After(h).healthy <==> Flips(h) % 2 == 0
  {
    hide After;
    hide AfterUnbounded;
    hide Flips;
    hide FlipsUnbounded;
    hide FlapCost;
    hide Uniform;
    FlapsArePaidFor(h, f, s);
    WrapKeepsFlips(h);
    FlapCostClosed(Flips(h), f, s);
  }

  /** The effective threshold that a flip towards `ok` has to reach. */
  function Threshold(cfg: ProbeConfig, ok: bool): (n: nat)
    ensures n >= 1
  {
    if ok then EffectiveSuccess(cfg) else EffectiveFailure(cfg)
  }

  /** A history that flips as often as the bound allows. */
  function Flapping(cfg: ProbeConfig, k: nat): seq<Sample> {
    if k == 0 then []
    else Flapping(cfg, k - 1) + Repeated(cfg, k % 2 == 0, Threshold(cfg, k % 2 == 0))
  }

  lemma Snoc(p: seq<Sample>, x: Sample)
    ensures AfterUnbounded(p + [x]) == NextUnbounded(AfterUnbounded(p), x)
    ensures FlipsUnbounded(p + [x]) ==
            FlipsUnbounded(p) +
            if NextUnbounded(AfterUnbounded(p), x).healthy != AfterUnbounded(p).healthy then 1 else 0
  {
    assert Init(p + [x]) == p;
  }

  lemma OppositeIsZero(h: seq<Sample>, ok: bool)
    requires h != [] ==> Last(h).ok != ok
    ensures (if ok then AfterUnbounded(h).successes else AfterUnbounded(h).failures) == 0
  {
  }

  /** Appending `n` equal results short of, or up to, the threshold. */
  lemma {:induction false} RunFlipsOnce(h: seq<Sample>, cfg: ProbeConfig, ok: bool, n: nat)
    requires AfterUnbounded(h).healthy == !ok
    requires h != [] ==> Last(h).ok != ok
    requires n <= Threshold(cfg, ok)
    ensures var g := h + Repeated(cfg, ok, n);
            var full := n == Threshold(cfg, ok);
            && FlipsUnbounded(g) == FlipsUnbounded(h) + (if full then 1 else 0)
            && AfterUnbounded(g).healthy == (if full then ok else !ok)
            && (if ok then AfterUnbounded(g).successes else AfterUnbounded(g).failures) == n
  {
    hide AfterUnbounded;
    hide FlipsUnbounded;
    var g := h + Repeated(cfg, ok, n);
    if n == 0 {
      assert g == h;
      OppositeIsZero(h, ok);
    } else {
      var p := h + Repeated(cfg, ok, n - 1);
      assert g == p + [Sample(cfg, ok)];
      RunFlipsOnce(h, cfg, ok, n - 1);
      Snoc(p, Sample(cfg, ok));
    }
  }

  lemma NoFlips()
    ensures AfterUnbounded([]) == Tally(true, 0, 0) && FlipsUnbounded([]) == 0
  {
  }

  lemma {:induction false} FlappingFlips(cfg: ProbeConfig, k: nat)
    ensures FlipsUnbounded(Flapping(cfg, k)) == k
    ensures AfterUnbounded(Flapping(cfg, k)).healthy == (k % 2 == 0)
    ensures k > 0 ==> Flapping(cfg, k) != [] && Last(Flapping(cfg, k)).ok == (k % 2 == 0)
  {
    hide AfterUnbounded;
    hide FlipsUnbounded;
    if k == 0 {
      NoFlips();
    } else {
      FlappingFlips(cfg, k - 1);
      var ok := k % 2 == 0;
      RunFlipsOnce(Flapping(cfg, k - 1), cfg, ok, Threshold(cfg, ok));
    }
  }

  lemma {:induction false} FlappingLength(cfg: ProbeConfig, k: nat)
    ensures |Flapping(cfg, k)| == FlapCost(k, EffectiveFailure(cfg), EffectiveSuccess(cfg))
  {
    if k > 0 {
      FlappingLength(cfg, k - 1);
    }
  }

  /** The bound is attained for every number of flips and every config. */
  lemma FlapBoundTight(cfg: ProbeConfig, k: nat)
    ensures exists h :: Uniform(h, EffectiveFailure(cfg), EffectiveSuccess(cfg)) && Flips(h) == k
                        && |h| == (k + 1) / 2 * EffectiveFailure(cfg) + k / 2 * EffectiveSuccess(cfg)
  {
    FlapCostClosed(k, EffectiveFailure(cfg), EffectiveSuccess(cfg));
    hide Flapping;
    hide Uniform;
    hide Flips;
    hide FlapCost;
    FlappingFlips(cfg, k);
    WrapKeepsFlips(Flapping(cfg, k));
    FlappingLength(cfg, k);
    FlappingUniform(cfg, k);
  }

  lemma {:induction false} FlappingUniform(cfg: ProbeConfig, k: nat)
    ensures Uniform(Flapping(cfg, k), EffectiveFailure(cfg), EffectiveSuccess(cfg))
  {
    if k > 0 {
      FlappingUniform(cfg, k - 1);
    }
  }
}
