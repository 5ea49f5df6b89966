/** What recording a result reports and when an ejection ends; what a pick answers (crates/lb/src/backend.rs, crates/lb/src/upstream_pool.rs). */
module Marks {
  import opened Prelude
  import opened Health
  import opened PoolModel
  import opened PoolRuns
  import opened BackendRuns
  import opened Recovery

  // ---- Expiry of an ejection ----

  /**
    Failure `k` is the one that dates the ejection in force at `n`: it set the expiry one cooldown
    after itself, and fewer than `allowed` failures were recorded since.
   */
  ghost predicate Dated(bs: seq<Backend>, acts: seq<TimedAct>, k: nat, n: nat, cooldown: nat, allowed: nat) {
    && k < n < |bs| == |acts| + 1 && acts[k].act.Fail?
    && bs[n].health == Unhealthy(acts[k].now + cooldown)
    && (forall m :: k < m <= n ==> bs[m].health == bs[n].health)
    && Count(acts, Fail, k + 1, n) == bs[n].failures < allowed
  }

  lemma {:induction false} DateOf(bs: seq<Backend>, acts: seq<TimedAct>, n: nat) returns (k: nat)
    requires Follows(bs, acts) && bs[0].health.Healthy? && n < |bs| && bs[n].health.Unhealthy?
    ensures Dated(bs, acts, k, n, bs[n].CooldownMs(), Max(bs[n].FailureThreshold(), 1))
  {
    var m := n - 1;
    assert AdvancesAt(bs, acts, m);
    var ejects := acts[m].act.Fail? && bs[m].RecordFailure(acts[m].now).0 == bs[m].Eject(acts[m].now);
    if bs[m].health.Unhealthy? && !ejects {
      k := DateOf(bs, acts, m);
    } else {
      k := m;
      assert Count(acts, Fail, n, n) == 0;
    }
  }

  /**
    In every run, a backend is out until one configured cooldown, ten seconds without a
    configuration, after the latest failure that ejected it. Failures recorded while it is out eject
    it anew, and so push the expiry out, as soon as there are as many as the configured threshold.
   */
  lemma EjectionDated(checks: seq<Option<HealthCheck>>, ps: seq<Pool>, es: seq<Timed>, t0: int, i: nat, n: nat)
    requires Reachable(checks, ps, es, t0, true) && i < |checks| && n <= |es|
    requires ps[n].backends[i].health.Unhealthy?
    ensures var cooldown := match checks[i] case None => 10_000 case Some(hc) => hc.cooldownMs;
            var allowed := match checks[i] case None => 3 case Some(hc) => Max(hc.failureThreshold, 1);
            exists k :: Dated(StatesOf(ps, i), ActsOf(ps, es, i), k, n, cooldown, allowed)
  {
    hide Steps, Step, Dated;
    Projects(checks, ps, es, t0, i);
    ConfiguredAs(checks, ps, es, t0, i, n);
    var k := DateOf(StatesOf(ps, i), ActsOf(ps, es, i), n);
  }

  // ---- What a mark reports ----

  /** A recorded success reports BecameHealthy exactly when it puts the backend back into the healthy set. */
  lemma SuccessReports(
    checks: seq<Option<HealthCheck>>, ps: seq<Pool>, es: seq<Timed>, t0: int, i: nat, n: nat, now: int)
    requires Reachable(checks, ps, es, t0, true) && i < |checks| && n <= |es| && ClockAt(t0, es, n) <= now
    ensures var m := MarkSuccess(ps[n], i, now, true);
            m.transition == if !ps[n].healthy.Contains(i) && m.pool.healthy.Contains(i) then Some(BecameHealthy) else None
  {
    hide Steps, Step, Follow;
    FreshInv(checks, t0);
    InvAt(ps, es, t0, n);
    MarkSuccessKeeps(ps[n], i, ClockAt(t0, es, n), now);
  }

  /**
    A failure at `now` takes a backend from state `h` to state `after` with this report; `since`
    failures were on record since its ejection.
   */
  ghost predicate FailsAs(
    h: HealthState, after: HealthState, report: Option<Transition>, now: int, since: nat, cooldown: nat, allowed: nat)
  {
    match h
    case Probing(_, _) => after == Unhealthy(now + cooldown) && report == None
    case Unhealthy(_) =>
      if since + 1 == allowed then after == Unhealthy(now + cooldown) && report == Some(BecameUnhealthy)
      else after == h && report == None
    case Healthy =>
      if after == Healthy then report == None
      else after == Unhealthy(now + cooldown) && report == Some(BecameUnhealthy)
  }

  lemma DatedFails(bs: seq<Backend>, acts: seq<TimedAct>, k: nat, n: nat, now: int)
    requires n < |bs| && Dated(bs, acts, k, n, bs[n].CooldownMs(), Max(bs[n].FailureThreshold(), 1))
    ensures var (c, report) := bs[n].RecordFailure(now);
            FailsAs(bs[n].health, c.health, report, now, Count(acts, Fail, k + 1, n), bs[n].CooldownMs(), Max(bs[n].FailureThreshold(), 1))
  {
  }

  lemma UpFails(b: Backend, now: int, since: nat)
    requires !b.health.Unhealthy?
    ensures var (c, report) := b.RecordFailure(now);
            FailsAs(b.health, c.health, report, now, since, b.CooldownMs(), Max(b.FailureThreshold(), 1))
  {
  }

  lemma MarkFailureIs(p: Pool, i: nat, now: int)
    requires p.Shaped() && i < |p.backends|
    ensures var m := MarkFailure(p, i, now, true);
            var (c, report) := Quiet(p.backends[i]).RecordFailure(now);
            m.pool.backends[i].health == c.health && m.transition == report
  {
    hide Follow;
  }

  /**
    A recorded failure reports BecameUnhealthy exactly when it takes the backend out of the healthy
    set, or is the last of as many failures on an ejected backend as the configuration allows; a
    failed probe ejects without a report. Every ejection lasts one configured cooldown.
   */
  lemma FailureReports(
    checks: seq<Option<HealthCheck>>, ps: seq<Pool>, es: seq<Timed>, t0: int, i: nat, n: nat, k: nat, now: int)
    requires Reachable(checks, ps, es, t0, true) && i < |checks| && n <= |es|
    requires var cooldown := match checks[i] case None => 10_000 case Some(hc) => hc.cooldownMs;
             var allowed := match checks[i] case None => 3 case Some(hc) => Max(hc.failureThreshold, 1);
             ps[n].backends[i].health.Unhealthy? ==> Dated(StatesOf(ps, i), ActsOf(ps, es, i), k, n, cooldown, allowed)
    ensures var cooldown := match checks[i] case None => 10_000 case Some(hc) => hc.cooldownMs;
            var allowed := match checks[i] case None => 3 case Some(hc) => Max(hc.failureThreshold, 1);
            var since := if k < n then Count(ActsOf(ps, es, i), Fail, k + 1, n) else 0;
            var m := MarkFailure(ps[n], i, now, true);
            FailsAs(ps[n].backends[i].health, m.pool.backends[i].health, m.transition, now, since, cooldown, allowed)
  {
    hide Steps, Step, FailsAs, Dated, MarkFailure;
    ConfiguredAs(checks, ps, es, t0, i, n);
    MarkFailureIs(ps[n], i, now);
    var b := StatesOf(ps, i)[n];
    if b.health.Unhealthy? {
      DatedBefore(StatesOf(ps, i), ActsOf(ps, es, i), k, n, b.CooldownMs(), Max(b.FailureThreshold(), 1));
      DatedFails(StatesOf(ps, i), ActsOf(ps, es, i), k, n, now);
    } else {
      UpFails(b, now, if k < n then Count(ActsOf(ps, es, i), Fail, k + 1, n) else 0);
    }
  }

  lemma DatedBefore(bs: seq<Backend>, acts: seq<TimedAct>, k: nat, n: nat, cooldown: nat, allowed: nat)
    requires Dated(bs, acts, k, n, cooldown, allowed)
    ensures k < n
  {
  }

  /**
    A failure observed on a request counts like any failed request when it is classified as the
    backend's, and otherwise changes nothing; on a backend with active checks neither does.
   */
  lemma ObservedCounts(p: Pool, i: nat, now: int, classified: bool)
    requires p.Shaped()
    ensures Step(p, At(now, ObservedFailure(i, classified)), true)
            == if classified then Step(p, At(now, RequestFailure(i)), true) else p
    ensures i < |p.backends| && p.backends[i].check.Some? && p.backends[i].check.value.interval > 0
            ==> Step(p, At(now, RequestFailure(i)), true) == Step(p, At(now, RequestSuccess(i)), true) == p
    ensures i < |p.backends| && (p.backends[i].check.None? || p.backends[i].check.value.interval == 0)
            ==> Step(p, At(now, RequestFailure(i)), true) == Step(p, At(now, ActiveFailure(i)), true)
                && Step(p, At(now, RequestSuccess(i)), true) == Step(p, At(now, ActiveSuccess(i)), true)
  {
    hide MarkFailure, MarkSuccess;
  }

  // ---- What a pick answers ----

  /**
    In every reachable state a pick probes exactly when some backend, after expired ejections have
    ended, is probing with budget left and nothing in flight; then it answers with such a backend,
    and otherwise with the strategy's choice.
   */
  lemma PickAnswers(
    checks: seq<Option<HealthCheck>>, ps: seq<Pool>, es: seq<Timed>, t0: int, n: nat,
    now: int, choice: Option<nat>, begin: bool)
    requires Reachable(checks, ps, es, t0, true) && n <= |es| && ClockAt(t0, es, n) <= now
    ensures var k := Pick(ps[n], now, choice, begin, true);
            && (k.probe <==> exists i :: 0 <= i < |checks| && Selectable(Readmitted(ps[n].backends[i], now)))
            && (k.probe ==> k.selected.Some? && k.selected.value < |checks|
                            && Selectable(Readmitted(ps[n].backends[k.selected.value], now)))
            && (!k.probe ==> k.selected == choice)
  {
    hide Steps, Step, ReconcileReadmit, PickProbing, Readmitted, Selectable;
    FreshInv(checks, t0);
    InvAt(ps, es, t0, n);
    ReconcileKeeps(ps[n], ClockAt(t0, es, n), now);
    var q := ReconcileReadmit(ps[n], now, true).0;
    forall i | 0 <= i < |checks| ensures q.backends[i] == Readmitted(ps[n].backends[i], now) {
      ReconcileAt(ps[n], now, i);
    }
    PickProbingExact(q, begin);
    ProbeSelectable(q, begin);
  }

  lemma ProbeSelectable(p: Pool, begin: bool)
    requires p.Shaped()
    ensures var selected := PickProbing(p, begin).1;
            selected.Some? ==> selected.value < |p.backends| && Selectable(p.backends[selected.value])
  {
    hide ScanProbing;
  }
}
