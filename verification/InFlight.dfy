/** What the request counter of a backend counts (crates/lb/src/backend_pool.rs, crates/lb/src/upstream_pool.rs). */
module InFlight {
  import opened Prelude
  import opened Health
  import opened PoolModel
  import opened PoolRuns
  import opened BackendRuns
  import Recovery

  /** Operation `e` on pool `p` puts a request on backend `i`. */
  predicate Begins(p: Pool, e: Timed, i: nat)
    requires p.Shaped()
  {
    match e.event
    case PickBegin(choice) => Pick(p, e.now, choice, true, true).selected == Some(i)
    case BeginIfHealthy(j) => j == i && i in p.healthy.dense
    case BeginForAccounting(j) => j == i
    case _ => false
  }

  /** Requests begun and not finished on backend `i` among the first `k` operations; a stray finish counts nothing. */
  function Open(ps: seq<Pool>, es: seq<Timed>, i: nat, k: nat): nat
    requires |ps| == |es| + 1 && k <= |es| && forall p <- ps :: p.Shaped()
  {
    if k == 0 then 0
    else
      var before := Open(ps, es, i, k - 1);
      if Begins(ps[k - 1], es[k - 1], i) then before + 1
      else if es[k - 1].event == Finish(i) && before > 0 then before - 1
      else before
  }

  // ---- One operation ----

  lemma FollowKeepsActive(p: Pool, j: nat, b: Backend, i: nat)
    requires p.Shaped() && j < |p.backends| && i < |p.backends| && b.active == p.backends[j].active
    ensures Follow(p, j, b, true).0.backends[i].active == p.backends[i].active
  {
  }

  lemma MarkKeepsActive(p: Pool, j: nat, now: int, i: nat)
    requires p.Shaped() && i < |p.backends|
    ensures MarkSuccess(p, j, now, true).pool.backends[i].active == p.backends[i].active
    ensures MarkFailure(p, j, now, true).pool.backends[i].active == p.backends[i].active
  {
    if j < |p.backends| {
      FollowKeepsActive(p, j, p.backends[j].RecordSuccess(now).0, i);
      FollowKeepsActive(p, j, p.backends[j].RecordFailure(now).0, i);
      hide Follow;
    }
  }

  lemma ReconcileKeepsActive(p: Pool, now: int, i: nat)
    requires p.Shaped() && i < |p.backends|
    ensures ReconcileReadmit(p, now, true).0.backends[i].active == p.backends[i].active
  {
    hide ReadmitFrom;
    ReadmitFromAt(p, 0, now, None, i);
  }

  lemma ProbeActive(p: Pool, begin: bool, i: nat)
    requires p.Shaped() && i < |p.backends|
    ensures var (q, selected) := PickProbing(p, begin);
            q.backends[i].active == p.backends[i].active + (if begin && selected == Some(i) then 1 else 0)
  {
    hide ScanProbing;
  }

  lemma PickActive(p: Pool, now: int, choice: Option<nat>, begin: bool, i: nat)
    requires p.Shaped() && i < |p.backends|
    ensures var k := Pick(p, now, choice, begin, true);
            k.pool.backends[i].active == p.backends[i].active + (if begin && k.selected == Some(i) then 1 else 0)
  {
    hide ReconcileReadmit, PickProbing;
    ReconcileKeepsActive(p, now, i);
    ProbeActive(ReconcileReadmit(p, now, true).0, begin, i);
  }

  lemma MarkingActive(p: Pool, e: Timed, i: nat)
    requires p.Shaped() && i < |p.backends| && IsMark(e.event)
    ensures Step(p, e, true).backends[i].active == p.backends[i].active
  {
    MarkKeepsActive(p, e.event.i, e.now, i);
    hide MarkSuccess, MarkFailure;
  }

  lemma ListedIffContains(p: Pool, i: nat)
    requires p.Shaped() && i < |p.backends|
    ensures i in p.healthy.dense <==> p.healthy.Contains(i)
  {
  }

  /** What one operation does to the counter. */
  lemma StepActive(p: Pool, e: Timed, i: nat)
    requires p.Shaped() && i < |p.backends|
    ensures Step(p, e, true).backends[i].active
            == if Begins(p, e, i) then p.backends[i].active + 1
               else if e.event == Finish(i) then Max(p.backends[i].active - 1, 0)
               else p.backends[i].active
  {
    if IsMark(e.event) {
      MarkingActive(p, e, i);
    } else {
      ListedIffContains(p, i);
      ReconcileKeepsActive(p, e.now, i);
      hide Pick, ReconcileReadmit, MarkRequestSuccess, MarkRequestFailure, MarkSuccess, MarkFailure, Pool.Shaped;
      match e.event
      case PickBegin(choice) => PickActive(p, e.now, choice, true, i);
      case PickOnly(choice) => PickActive(p, e.now, choice, false, i);
      case _ =>
    }
  }

  // ---- Runs ----

  /**
    In every run the counter of a backend is the number of requests begun on it and not yet
    finished: by picks that answer with it, by begins while it is listed healthy, by accounting.
   */
  lemma {:induction false} CounterIsOpenRequests(
    checks: seq<Option<HealthCheck>>, ps: seq<Pool>, es: seq<Timed>, t0: int, i: nat, k: nat)
    requires Reachable(checks, ps, es, t0, true) && i < |checks| && k <= |es|
    ensures ps[k].backends[i].active == Open(ps, es, i, k)
  {
    hide Step, Begins;
    if k == 0 {
    } else {
      CounterIsOpenRequests(checks, ps, es, t0, i, k - 1);
      assert StepAt(ps, es, t0, k - 1, true);
      StepActive(ps[k - 1], es[k - 1], i);
    }
  }

  /** Without a finish between, a request stays open. */
  lemma {:induction false} StaysOpen(ps: seq<Pool>, es: seq<Timed>, i: nat, j: nat, k: nat)
    requires |ps| == |es| + 1 && j <= k <= |es| && forall p <- ps :: p.Shaped()
    requires forall m :: j <= m < k ==> es[m].event != Finish(i)
    ensures Open(ps, es, i, j) <= Open(ps, es, i, k)
  {
    hide Begins;
    if j == k {
    } else {
      StaysOpen(ps, es, i, j, k - 1);
    }
  }

  /** Two picks that begin a probe on the same backend have a finished request of it between them. */
  lemma ProbesTakeTurns(
    checks: seq<Option<HealthCheck>>, ps: seq<Pool>, es: seq<Timed>, t0: int, i: nat, m: nat, n: nat)
    requires Reachable(checks, ps, es, t0, true) && i < |checks| && m < n < |es|
    requires es[m].event.PickBegin? && ActAt(ps, es, i, m).act.Grant?
    requires ActAt(ps, es, i, n).act.Grant?
    ensures exists f :: m < f < n && es[f].event == Finish(i)
  {
    hide Step, Begins, ActOn, Pick;
    GrantBegins(ps[m], es[m], i);
    CounterIsOpenRequests(checks, ps, es, t0, i, n);
    Recovery.GrantsAreExclusive(checks, ps, es, t0, i, n);
    if forall f :: m < f < n ==> es[f].event != Finish(i) {
      assert Open(ps, es, i, m + 1) > 0;
      StaysOpen(ps, es, i, m + 1, n);
      assert false;
    }
  }

  lemma GrantBegins(p: Pool, e: Timed, i: nat)
    requires p.Shaped() && i < |p.backends| && e.event.PickBegin? && ActOn(p, e, i).Grant?
    ensures Begins(p, e, i)
  {
    hide Pick;
  }
}
