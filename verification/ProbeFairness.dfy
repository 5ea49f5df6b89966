/** The probing cursor gives every selectable backend its turn (crates/lb/src/backend_pool.rs). */
module ProbeFairness {
  import opened Prelude
  import opened Health
  import opened PoolModel
  import opened PoolRuns
  import opened BackendRuns

  // ---- Rotation ----

  /** How many positions lie from `start` up to `at`, going round a vector of `n`. */
  function Gap(start: nat, at: nat, n: nat): (d: nat)
    requires start < n && at < n
    ensures d < n
  {
    if start <= at then at - start else at + n - start
  }

  lemma Wraps(a: nat, n: nat)
    requires a < 2 * n
    ensures a % n == if a < n then a else a - n
  {
    if n <= a {
      assert a == n + (a - n);
    }
  }

  lemma GapReaches(start: nat, at: nat, n: nat)
    requires start < n && at < n
    ensures (start + Gap(start, at, n)) % n == at
  {
    Wraps(start + Gap(start, at, n), n);
  }

  /** Moving on past a position nearer than `at` brings `at` nearer. */
  lemma GapShrinks(start: nat, at: nat, n: nat, d: nat)
    requires start < n && at < n && d < Gap(start, at, n)
    ensures Gap(((start + d) % n + 1) % n, at, n) < Gap(start, at, n)
  {
    Wraps(start + d, n);
    Wraps((start + d) % n + 1, n);
  }

  // ---- One pick ----

  ghost predicate Listed(p: Pool, i: nat) {
    p.Shaped() && i < |p.backends| && p.probing.Contains(i)
  }

  /** How many probing backends the cursor has to pass before it comes to `i`. */
  ghost function Distance(p: Pool, i: nat): (d: nat)
    requires Listed(p, i)
    ensures d < |p.probing.dense|
  {
    var n := |p.probing.dense|;
    Gap(p.cursor % n, p.probing.pos[i].value, n)
  }

  lemma SameDistance(p: Pool, q: Pool, i: nat)
    requires Listed(p, i) && Listed(q, i) && q.probing == p.probing && q.cursor == p.cursor
    ensures Distance(q, i) == Distance(p, i)
  {
  }

  /** The scan stops at `i` or at a position the cursor meets before it. */
  lemma ScanStopsBy(p: Pool, i: nat) returns (d: nat)
    requires Listed(p, i) && Selectable(p.backends[i])
    ensures d <= Distance(p, i)
    ensures ScanProbing(p, p.cursor % |p.probing.dense|, 0)
            == Some((p.cursor % |p.probing.dense| + d) % |p.probing.dense|)
  {
    var n := |p.probing.dense|;
    var start := p.cursor % n;
    GapReaches(start, p.probing.pos[i].value, n);
    assert SelectableAt(p, start, Distance(p, i));
    if ScanProbing(p, start, 0).None? {
      ScanProbingMisses(p, start, 0, Distance(p, i));
      assert false;
    } else {
      ScanProbingFirst(p, start, 0);
      d :| FirstAt(p, start, 0, d) && ScanProbing(p, start, 0).value == (start + d) % n;
    }
  }

  /** A pick that passes a selectable backend by brings the cursor nearer to it. */
  lemma PickNearer(p: Pool, begin: bool, i: nat)
    requires Listed(p, i) && Selectable(p.backends[i])
    ensures var (q, selected) := PickProbing(p, begin);
            selected.Some? && Listed(q, i) && (selected == Some(i) || Distance(q, i) < Distance(p, i))
  {
    var n := |p.probing.dense|;
    var start, at := p.cursor % n, p.probing.pos[i].value;
    var d := ScanStopsBy(p, i);
    GapReaches(start, at, n);
    if d < Distance(p, i) {
      GapShrinks(start, at, n, d);
    }
    hide ScanProbing;
    var q := PickProbing(p, begin).0;
    assert q.cursor == (start + d) % n + 1;
  }

  // ---- One operation ----

  lemma {:induction false} ReadmitKeepsCursor(p: Pool, k: nat, now: int, next: Option<int>)
    requires p.Shaped() && k <= |p.backends|
    ensures ReadmitFrom(p, k, now, next, true).0.cursor == p.cursor
    decreases |p.backends| - k
  {
    hide Index.WellFormed;
    if k == |p.backends| {
    } else {
      var (b, expired) := p.backends[k].ReadmitIfExpired(now);
      if p.backends[k].HasActiveCheck() {
        ReadmitKeepsCursor(p, k + 1, now, next);
      } else if expired {
        ReadmitKeepsCursor(Follow(p, k, b, true).0, k + 1, now, next);
      } else if b.health.Unhealthy? {
        ReadmitKeepsCursor(p, k + 1, now, EarlierOf(next, b.health.until));
      } else {
        ReadmitKeepsCursor(p, k + 1, now, next);
      }
    }
  }

  lemma ReconcileKeepsCursor(p: Pool, now: int)
    requires p.Shaped()
    ensures ReconcileReadmit(p, now, true).0.cursor == p.cursor
  {
    if p.earliest.Some? && p.earliest.value <= now {
      ReadmitKeepsCursor(p, 0, now, None);
    }
  }

  /** The upkeep moves the cursor only when it takes a backend out of the probing vector. */
  lemma FollowKeepsCursor(p: Pool, j: nat, b: Backend)
    requires p.Agrees() && j < |p.backends| && Follow(p, j, b, true).0.probing == p.probing
    ensures Follow(p, j, b, true).0.cursor == p.cursor
  {
    assert p.probing.Contains(j) <==> p.backends[j].health.Probing?;
  }

  predicate IsPick(e: Event) { e.PickBegin? || e.PickOnly? }

  lemma MarkingKeepsCursor(p: Pool, e: Timed)
    requires p.Agrees() && IsMark(e.event) && Step(p, e, true).probing == p.probing
    ensures Step(p, e, true).cursor == p.cursor
  {
    MarkKeepsCursor(p, e.event.i, e.now);
    hide MarkSuccess, MarkFailure, Pool.Agrees, Pool.Shaped;
  }

  lemma OtherKeepsCursor(p: Pool, e: Timed)
    requires p.Agrees() && !IsPick(e.event) && Step(p, e, true).probing == p.probing
    ensures Step(p, e, true).cursor == p.cursor
  {
    if IsMark(e.event) {
      MarkingKeepsCursor(p, e);
    } else {
      ReconcileKeepsCursor(p, e.now);
      hide ReconcileReadmit, MarkRequestSuccess, MarkRequestFailure, MarkSuccess, MarkFailure, Pick, Pool.Agrees, Pool.Shaped;
    }
  }

  lemma MarkKeepsCursor(p: Pool, j: nat, now: int)
    requires p.Agrees()
    ensures MarkSuccess(p, j, now, true).pool.probing == p.probing ==> MarkSuccess(p, j, now, true).pool.cursor == p.cursor
    ensures MarkFailure(p, j, now, true).pool.probing == p.probing ==> MarkFailure(p, j, now, true).pool.cursor == p.cursor
  {
    if j < |p.backends| {
      var s, f := p.backends[j].RecordSuccess(now).0, p.backends[j].RecordFailure(now).0;
      if Follow(p, j, s, true).0.probing == p.probing {
        FollowKeepsCursor(p, j, s);
      }
      if Follow(p, j, f, true).0.probing == p.probing {
        FollowKeepsCursor(p, j, f);
      }
      hide Follow;
    }
  }

  lemma PickStepNearer(p: Pool, now: int, choice: Option<nat>, begin: bool, i: nat)
    requires Listed(p, i) && NoneForgotten(p) && Selectable(p.backends[i])
    requires Pick(p, now, choice, begin, true).pool.probing == p.probing
    requires !(Pick(p, now, choice, begin, true).probe && Pick(p, now, choice, begin, true).selected == Some(i))
    ensures Listed(Pick(p, now, choice, begin, true).pool, i)
    ensures Distance(Pick(p, now, choice, begin, true).pool, i) < Distance(p, i)
  {
    var q := ReconcileReadmit(p, now, true).0;
    ReconcileKeepsCursor(p, now);
    ReconcileAt(p, now, i);
    hide ReconcileReadmit, PickProbing, Distance, Selectable;
    SameDistance(p, q, i);
    PickNearer(q, begin, i);
  }

  /** An operation that does not select `i` never moves the cursor away from it, and a pick moves it nearer. */
  lemma StepNearer(p: Pool, t0: int, e: Timed, q: Pool, i: nat)
    requires Inv(p, t0) && Steps(p, e, t0, q, true) && Listed(p, i) && Selectable(p.backends[i])
    requires q.probing == p.probing && !ActOn(p, e, i).Grant?
    ensures Listed(q, i) && Distance(q, i) + (if IsPick(e.event) then 1 else 0) <= Distance(p, i)
  {
    hide Pick, Distance, Selectable;
    if e.event.PickBegin? {
      PickStepNearer(p, e.now, e.event.choice, true, i);
    } else if e.event.PickOnly? {
      PickStepNearer(p, e.now, e.event.choice, false, i);
    } else {
      OtherKeepsCursor(p, e);
      SameDistance(p, q, i);
    }
  }

  // ---- Runs ----

  function PicksIn(es: seq<Timed>, j: nat, k: nat): nat
    requires k <= |es|
  {
    if k <= j then 0 else PicksIn(es, j, k - 1) + if IsPick(es[k - 1].event) then 1 else 0
  }

  /** No operation from `j` to `k - 1` selects backend `i` for a probe. */
  ghost predicate PassedOver(ps: seq<Pool>, es: seq<Timed>, i: nat, j: nat, k: nat)
    requires |ps| == |es| + 1 && k <= |es| && forall p <- ps :: p.Shaped() && i < |p.backends|
  {
    forall m :: j <= m < k ==> !ActAt(ps, es, i, m).act.Grant?
  }

  /** At point `m` backend `i` is ready for a probe and the probing vector is the one at point `j`. */
  ghost predicate Ready(ps: seq<Pool>, i: nat, j: nat, m: nat) {
    j <= m < |ps| && ps[m].probing == ps[j].probing && i < |ps[m].backends| && Selectable(ps[m].backends[i])
  }

  lemma InvFromFresh(checks: seq<Option<HealthCheck>>, ps: seq<Pool>, es: seq<Timed>, t0: int, k: nat)
    requires Reachable(checks, ps, es, t0, true) && k <= |es|
    ensures Inv(ps[k], ClockAt(t0, es, k))
  {
    hide Steps, Inv;
    FreshInv(checks, t0);
    InvAt(ps, es, t0, k);
  }

  lemma ReadyIsListed(
    checks: seq<Option<HealthCheck>>, ps: seq<Pool>, es: seq<Timed>, t0: int, i: nat, j: nat, m: nat)
    requires Reachable(checks, ps, es, t0, true) && i < |checks| && m <= |es| && Ready(ps, i, j, m)
    ensures Listed(ps[m], i)
  {
    hide Steps, Step;
    IndexesFollowStates(checks, ps, es, t0, m);
  }

  lemma {:induction false} ComesNearer(
    checks: seq<Option<HealthCheck>>, ps: seq<Pool>, es: seq<Timed>, t0: int, i: nat, j: nat, k: nat)
    requires Reachable(checks, ps, es, t0, true) && i < |checks| && j <= k <= |es|
    requires PassedOver(ps, es, i, j, k) && forall m :: j <= m <= k ==> Ready(ps, i, j, m)
    ensures Listed(ps[j], i) && Listed(ps[k], i)
    ensures Distance(ps[k], i) + PicksIn(es, j, k) <= Distance(ps[j], i)
  {
    hide Steps, Step, Distance, ActOn, Inv, Selectable, Listed;
    assert Ready(ps, i, j, k);
    ReadyIsListed(checks, ps, es, t0, i, j, k);
    if j == k {
    } else {
      ComesNearer(checks, ps, es, t0, i, j, k - 1);
      InvFromFresh(checks, ps, es, t0, k - 1);
      assert StepAt(ps, es, t0, k - 1, true) && Ready(ps, i, j, k - 1);
      assert !ActAt(ps, es, i, k - 1).act.Grant?;
      StepNearer(ps[k - 1], ClockAt(t0, es, k - 1), es[k - 1], ps[k], i);
    }
  }

  /**
    Every backend gets its turn: as long as backend `i` has not been selected, let it be ready for a
    probe and the probing vector unchanged; then as many picks as the vector is long select it,
    whatever other operations fall between them.
   */
  lemma SelectedInTurn(
    checks: seq<Option<HealthCheck>>, ps: seq<Pool>, es: seq<Timed>, t0: int, i: nat, j: nat, k: nat)
    requires Reachable(checks, ps, es, t0, true) && i < |checks| && j <= k <= |es|
    requires forall m :: j <= m <= k && PassedOver(ps, es, i, j, m) ==> Ready(ps, i, j, m)
    requires |ps[j].probing.dense| <= PicksIn(es, j, k)
    ensures exists m :: j <= m < k && ActAt(ps, es, i, m).act.Grant?
  {
    hide Steps, Step, Distance, ActOn;
    if PassedOver(ps, es, i, j, k) {
      forall m | j <= m <= k ensures Ready(ps, i, j, m) {
        assert PassedOver(ps, es, i, j, m);
      }
      ComesNearer(checks, ps, es, t0, i, j, k);
      assert false;
    }
  }
}
