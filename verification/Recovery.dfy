/** How an ejected backend comes back, and what probing permits can and cannot do. */
module Recovery {
  import opened Prelude
  import opened Health
  import opened PoolModel
  import opened PoolRuns
  import opened BackendRuns

  /** Occurrences of `a` among acts `j` to `k - 1`. */
  function Count(acts: seq<TimedAct>, a: Act, j: nat, k: nat): nat
    requires k <= |acts|
  {
    if k <= j then 0 else Count(acts, a, j, k - 1) + (if acts[k - 1].act == a then 1 else 0)
  }

  /** Act `k` ended an ejection whose cooldown had run out, and the backend has been probing up to `n`. */
  ghost predicate Stay(bs: seq<Backend>, acts: seq<TimedAct>, k: nat, n: nat) {
    && k < |acts| && k < n < |bs| && |bs| == |acts| + 1
    && bs[k].health.Unhealthy? && bs[k].health.until <= acts[k].now
    && forall m :: k < m <= n ==> bs[m].health.Probing?
  }

  /** What a stay from `k` to `n` has used up and earned. */
  ghost predicate Accounted(bs: seq<Backend>, acts: seq<TimedAct>, k: nat, n: nat)
    requires k < n < |bs| && |bs| == |acts| + 1
  {
    && bs[n].health.Probing?
    && Count(acts, Succeed, k, n) == bs[n].health.successes < bs[n].SuccessThreshold()
    && Count(acts, Fail, k, n) == 0
    && Count(acts, Grant, k, n) + bs[n].health.remainingBudget == bs[n].SuccessThreshold()
  }

  lemma {:induction false} StayOf(bs: seq<Backend>, acts: seq<TimedAct>, n: nat) returns (k: nat)
    requires Follows(bs, acts) && bs[0].health.Healthy? && n < |bs| && bs[n].health.Probing?
    ensures Stay(bs, acts, k, n) && Accounted(bs, acts, k, n)
  {
    var m := n - 1;
    assert AdvancesAt(bs, acts, m);
    if bs[m].health.Probing? {
      k := StayOf(bs, acts, m);
    } else {
      k := m;
      assert Count(acts, Succeed, m, m) == Count(acts, Grant, m, m) == Count(acts, Fail, m, m) == 0;
    }
  }

  /** What must lie behind a backend that becomes Healthy again with act `n`, `needed` successes being asked. */
  ghost predicate Earned(bs: seq<Backend>, acts: seq<TimedAct>, k: nat, n: nat, needed: nat) {
    && k <= n < |acts| && |bs| == |acts| + 1
    && bs[k].health.Unhealthy? && bs[k].health.until <= acts[k].now
    && (forall m :: k < m <= n ==> bs[m].health.Probing?)
    && Count(acts, Succeed, k, n + 1) == needed
    && Count(acts, Fail, k, n + 1) == 0
    && Count(acts, Grant, k, n + 1) <= needed
  }

  lemma RejoinEarned(bs: seq<Backend>, acts: seq<TimedAct>, n: nat) returns (k: nat)
    requires Follows(bs, acts) && bs[0].health.Healthy? && n < |acts|
    requires !bs[n].health.Healthy? && bs[n + 1].health.Healthy?
    ensures Earned(bs, acts, k, n, bs[n].SuccessThreshold())
  {
    assert AdvancesAt(bs, acts, n);
    if bs[n].health.Probing? {
      k := StayOf(bs, acts, n);
    } else {
      k := n;
      assert Count(acts, Succeed, n, n) == Count(acts, Grant, n, n) == Count(acts, Fail, n, n) == 0;
    }
  }

  /**
    In every run, a backend that rejoins the healthy set had its latest cooldown run out, then as
    many recorded successes as its configuration asks, at least one, with no failure between, and was
    handed at most that many probe permits on the way. Without a configuration one success is asked.
   */
  lemma RejoinsOnlyAfterProbation(
    checks: seq<Option<HealthCheck>>, ps: seq<Pool>, es: seq<Timed>, t0: int, i: nat, n: nat)
    requires Reachable(checks, ps, es, t0, true) && i < |checks| && n < |es|
    requires !ps[n].healthy.Contains(i) && ps[n + 1].healthy.Contains(i)
    ensures var needed := match checks[i] case None => 1 case Some(hc) => Max(hc.successThreshold, 1);
            exists k :: Earned(StatesOf(ps, i), ActsOf(ps, es, i), k, n, needed)
  {
    hide Steps, Earned, Step;
    Projects(checks, ps, es, t0, i);
    ConfiguredAs(checks, ps, es, t0, i, n);
    IndexesFollowStates(checks, ps, es, t0, n);
    IndexesFollowStates(checks, ps, es, t0, n + 1);
    var k := RejoinEarned(StatesOf(ps, i), ActsOf(ps, es, i), n);
  }

  /** No operation changes a backend's configuration. */
  lemma ConfiguredAs(checks: seq<Option<HealthCheck>>, ps: seq<Pool>, es: seq<Timed>, t0: int, i: nat, n: nat)
    requires Reachable(checks, ps, es, t0, true) && i < |checks| && n <= |es|
    ensures ps[n].backends[i].check == checks[i]
    ensures StatesOf(ps, i)[n].check == checks[i] && StatesOf(ps, i)[n].health == ps[n].backends[i].health
  {
    hide Steps, Step;
    FreshInv(checks, t0);
    InvAt(ps, es, t0, n);
    assert ps[0].backends[i].check == checks[i];
  }

  /** A permit is handed out only to a request that is alone on its backend. */
  lemma GrantsAreExclusive(
    checks: seq<Option<HealthCheck>>, ps: seq<Pool>, es: seq<Timed>, t0: int, i: nat, n: nat)
    requires Reachable(checks, ps, es, t0, true) && i < |checks| && n < |es|
    requires ActAt(ps, es, i, n).act.Grant?
    ensures ps[n].backends[i].active == 0 && HasPermit(Readmitted(ps[n].backends[i], es[n].now))
  {
    hide Step, ActOn;
    FreshInv(checks, t0);
    InvAt(ps, es, t0, n);
    StepActs(ps[n], es[n], i);
  }

  /**
    Recovery starts by itself: in every reachable state, a pick after the cooldown of an idle
    passive backend has run out selects a probe.
   */
  lemma ExpiredBackendIsProbed(
    checks: seq<Option<HealthCheck>>, ps: seq<Pool>, es: seq<Timed>, t0: int, i: nat, n: nat,
    now: int, choice: Option<nat>, begin: bool)
    requires Reachable(checks, ps, es, t0, true) && i < |checks| && n <= |es| && ClockAt(t0, es, n) <= now
    requires var b := ps[n].backends[i];
             !b.HasActiveCheck() && b.health.Unhealthy? && b.health.until <= now && b.active == 0
    ensures Pick(ps[n], now, choice, begin, true).probe && Pick(ps[n], now, choice, begin, true).selected.Some?
  {
    hide StepAt, ReadmitFrom, ScanProbing;
    FreshInv(checks, t0);
    InvAt(ps, es, t0, n);
    ReconcileKeeps(ps[n], ClockAt(t0, es, n), now);
    ReconcileAt(ps[n], now, i);
    var q := ReconcileReadmit(ps[n], now, true).0;
    assert Selectable(q.backends[i]);
    PickProbingExact(q, begin);
  }

  // ---- Ejection ----

  /** The failures counted on a healthy backend are those since its last success or recovery, at `k`. */
  ghost predicate Streak(bs: seq<Backend>, acts: seq<TimedAct>, k: nat, n: nat) {
    && k <= n < |bs| && |bs| == |acts| + 1
    && (forall m :: k <= m <= n ==> bs[m].health.Healthy?)
    && Count(acts, Succeed, k, n) == 0 && Count(acts, Fail, k, n) == bs[n].failures
    && (bs[n].failures == 0 || bs[n].failures < bs[n].FailureThreshold())
  }

  lemma {:induction false} StreakOf(bs: seq<Backend>, acts: seq<TimedAct>, n: nat) returns (k: nat)
    requires Follows(bs, acts) && n < |bs| && bs[n].health.Healthy?
    requires bs[0].health.Healthy? && bs[0].failures == 0
    ensures Streak(bs, acts, k, n)
  {
    k := n;
    if n == 0 {
    } else {
      assert AdvancesAt(bs, acts, n - 1);
      if bs[n - 1].health.Healthy? && !acts[n - 1].act.Succeed? {
        k := StreakOf(bs, acts, n - 1);
      }
    }
  }

  /** What must lie behind a healthy backend that act `n` ejects, `allowed` failures in a row being too many. */
  ghost predicate Deserved(bs: seq<Backend>, acts: seq<TimedAct>, k: nat, n: nat, allowed: nat) {
    && k <= n < |acts| && |bs| == |acts| + 1
    && (forall m :: k <= m <= n ==> bs[m].health.Healthy?)
    && Count(acts, Succeed, k, n + 1) == 0
    && Count(acts, Fail, k, n + 1) == allowed
  }

  lemma {:induction false} StreakCounts(bs: seq<Backend>, acts: seq<TimedAct>, k: nat, n: nat)
    requires Follows(bs, acts) && k <= n < |bs|
    requires forall m :: k <= m <= n ==> bs[m].health.Healthy?
    requires Count(acts, Succeed, k, n) == 0
    ensures Count(acts, Fail, k, n) <= bs[n].failures
  {
    if k == n {
    } else {
      assert AdvancesAt(bs, acts, n - 1);
      StreakCounts(bs, acts, k, n - 1);
    }
  }

  /** Conversely, a backend that stays healthy has not failed its threshold of times in a row. */
  lemma HealthyMeansFewerFailures(
    checks: seq<Option<HealthCheck>>, ps: seq<Pool>, es: seq<Timed>, t0: int, i: nat, k: nat, n: nat)
    requires Reachable(checks, ps, es, t0, true) && i < |checks| && k <= n <= |es|
    requires forall m :: k <= m <= n ==> ps[m].healthy.Contains(i)
    requires Count(ActsOf(ps, es, i), Succeed, k, n) == 0
    ensures var allowed := match checks[i] case None => 3 case Some(hc) => Max(hc.failureThreshold, 1);
            Count(ActsOf(ps, es, i), Fail, k, n) < allowed
  {
    hide Steps, Step;
    Projects(checks, ps, es, t0, i);
    var bs, acts := StatesOf(ps, i), ActsOf(ps, es, i);
    forall m | k <= m <= n ensures bs[m].health.Healthy? {
      IndexesFollowStates(checks, ps, es, t0, m);
    }
    StreakCounts(bs, acts, k, n);
    var from := StreakOf(bs, acts, n);
    ConfiguredAs(checks, ps, es, t0, i, n);
  }

  /**
    In every run, a backend leaves the healthy set only on the failure that completes its
    configured threshold, at least one and three without a configuration: as many failures in a row,
    no success among them, while it was healthy throughout.
   */
  lemma EjectedOnlyAfterStreak(
    checks: seq<Option<HealthCheck>>, ps: seq<Pool>, es: seq<Timed>, t0: int, i: nat, n: nat)
    requires Reachable(checks, ps, es, t0, true) && i < |checks| && n < |es|
    requires ps[n].healthy.Contains(i) && !ps[n + 1].healthy.Contains(i)
    ensures var allowed := match checks[i] case None => 3 case Some(hc) => Max(hc.failureThreshold, 1);
            exists k :: Deserved(StatesOf(ps, i), ActsOf(ps, es, i), k, n, allowed)
  {
    hide Steps, Step, Deserved;
    Projects(checks, ps, es, t0, i);
    ConfiguredAs(checks, ps, es, t0, i, n);
    IndexesFollowStates(checks, ps, es, t0, n);
    IndexesFollowStates(checks, ps, es, t0, n + 1);
    var k := EjectionDeserved(StatesOf(ps, i), ActsOf(ps, es, i), n);
  }

  lemma EjectionDeserved(bs: seq<Backend>, acts: seq<TimedAct>, n: nat) returns (k: nat)
    requires Follows(bs, acts) && bs[0].health.Healthy? && bs[0].failures == 0 && n < |acts|
    requires bs[n].health.Healthy? && !bs[n + 1].health.Healthy?
    ensures Deserved(bs, acts, k, n, Max(bs[n].FailureThreshold(), 1))
  {
    assert AdvancesAt(bs, acts, n);
    k := StreakOf(bs, acts, n);
  }

  // ---- Cooldown ----

  lemma {:induction false} ClockGrows(ps: seq<Pool>, es: seq<Timed>, t0: int, j: nat, k: nat)
    requires Behaviour(ps, es, t0, true) && j <= k < |es|
    ensures es[j].now <= es[k].now
  {
    hide Step;
    if j == k {
    } else {
      ClockGrows(ps, es, t0, j, k - 1);
      assert StepAt(ps, es, t0, k, true);
    }
  }

  /** Act `n` ejects the backend; it stays out until one cooldown after that act, whatever is recorded meanwhile. */
  lemma {:induction false} StaysOut(bs: seq<Backend>, acts: seq<TimedAct>, n: nat, m: nat)
    requires Follows(bs, acts) && n < m < |bs|
    requires !bs[n].health.Unhealthy? && bs[n + 1].health.Unhealthy?
    requires forall k :: n <= k < m ==> acts[n].now <= acts[k].now
    requires forall k :: n < k < m ==> acts[k].now < acts[n].now + bs[n].CooldownMs()
    ensures bs[m].check == bs[n].check && bs[m].health.Unhealthy?
    ensures acts[n].now + bs[n].CooldownMs() <= bs[m].health.until
  {
    assert AdvancesAt(bs, acts, m - 1);
    if n + 1 < m {
      StaysOut(bs, acts, n, m - 1);
    }
  }

  lemma ClocksBetween(
    checks: seq<Option<HealthCheck>>, ps: seq<Pool>, es: seq<Timed>, t0: int, i: nat, n: nat, m: nat)
    requires Reachable(checks, ps, es, t0, true) && i < |checks| && n < m <= |es|
    ensures var acts := ActsOf(ps, es, i);
            acts[n].now == es[n].now && forall k :: n <= k < m ==> acts[n].now <= acts[k].now <= es[m - 1].now
  {
    hide Steps, Step;
    forall k | n <= k < m ensures es[n].now <= es[k].now <= es[m - 1].now {
      ClockGrows(ps, es, t0, n, k);
      ClockGrows(ps, es, t0, k, m - 1);
    }
  }

  /**
    In every run, a backend that operation `n` ejects is neither picked from the healthy set nor
    probed before its cooldown has run: it is in neither index after any operation earlier than that.
   */
  lemma CooldownServed(
    checks: seq<Option<HealthCheck>>, ps: seq<Pool>, es: seq<Timed>, t0: int, i: nat, n: nat, m: nat)
    requires Reachable(checks, ps, es, t0, true) && i < |checks| && n < m <= |es|
    requires !ps[n].backends[i].health.Unhealthy? && ps[n + 1].backends[i].health.Unhealthy?
    requires var cooldown := match checks[i] case None => 10_000 case Some(hc) => hc.cooldownMs;
             n + 1 < m ==> es[m - 1].now < es[n].now + cooldown
    ensures !ps[m].healthy.Contains(i) && !ps[m].probing.Contains(i)
  {
    hide Steps, Step, StatesOf, ActsOf, Follows;
    Projects(checks, ps, es, t0, i);
    var bs, acts := StatesOf(ps, i), ActsOf(ps, es, i);
    ConfiguredAs(checks, ps, es, t0, i, n);
    ConfiguredAs(checks, ps, es, t0, i, n + 1);
    ConfiguredAs(checks, ps, es, t0, i, m);
    ClocksBetween(checks, ps, es, t0, i, n, m);
    StaysOut(bs, acts, n, m);
    IndexesFollowStates(checks, ps, es, t0, m);
  }

  // ---- Conservation of probe permits ----

  /** Permits of the current stay still unanswered, and successes in it that answered none of them. */
  datatype Ledger = Ledger(outstanding: nat, strays: nat)

  /** `answers` says that a Succeed or Fail act answers one of the outstanding permits. */
  function Post(b: Backend, a: TimedAct, answers: bool, l: Ledger): Ledger {
    if !Advance(b, a).health.Probing? then Ledger(0, 0)
    else
      var before := if b.health.Probing? then l else Ledger(0, 0);
      match a.act
      case Grant => before.(outstanding := before.outstanding + 1)
      case Succeed =>
        if answers && before.outstanding > 0
        then before.(outstanding := before.outstanding - 1)
        else before.(strays := before.strays + 1)
      case _ => before
  }

  function LedgerAt(bs: seq<Backend>, acts: seq<TimedAct>, answers: seq<bool>, k: nat): Ledger
    requires k < |bs| && |bs| == |acts| + 1 && |answers| == |acts|
  {
    if k == 0 then Ledger(0, 0)
    else Post(bs[k - 1], acts[k - 1], answers[k - 1], LedgerAt(bs, acts, answers, k - 1))
  }

  lemma {:induction false} PermitsBalance(bs: seq<Backend>, acts: seq<TimedAct>, answers: seq<bool>, k: nat)
    requires Follows(bs, acts) && bs[0].health.Healthy? && k < |bs| && |answers| == |acts|
    ensures bs[k].health.Probing? ==>
              var l := LedgerAt(bs, acts, answers, k);
              && bs[k].health.successes < bs[k].SuccessThreshold()
              && bs[k].health.successes + bs[k].health.remainingBudget + l.outstanding
                 == bs[k].SuccessThreshold() + l.strays
  {
    if k == 0 {
    } else {
      PermitsBalance(bs, acts, answers, k - 1);
      assert AdvancesAt(bs, acts, k - 1);
    }
  }

  /**
    In every run, successes, remaining budget and unanswered permits of a stay add up to the
    configured number of successes plus the stray ones, whichever answers belong to which permits.
   */
  lemma PermitsConserved(
    checks: seq<Option<HealthCheck>>, ps: seq<Pool>, es: seq<Timed>, t0: int, i: nat, answers: seq<bool>, k: nat)
    requires Reachable(checks, ps, es, t0, true) && i < |checks| && k <= |es| && |answers| == |es|
    requires ps[k].backends[i].health.Probing?
    ensures var needed := match checks[i] case None => 1 case Some(hc) => Max(hc.successThreshold, 1);
            var l := LedgerAt(StatesOf(ps, i), ActsOf(ps, es, i), answers, k);
            var h := ps[k].backends[i].health;
            h.successes < needed && h.successes + h.remainingBudget + l.outstanding == needed + l.strays
  {
    hide Steps, Step, LedgerAt;
    Projects(checks, ps, es, t0, i);
    ConfiguredAs(checks, ps, es, t0, i, k);
    PermitsBalance(StatesOf(ps, i), ActsOf(ps, es, i), answers, k);
  }

  /** In every run, a probing backend without budget is waiting for the answer to a granted permit. */
  lemma SpentBudgetIsOutstanding(
    checks: seq<Option<HealthCheck>>, ps: seq<Pool>, es: seq<Timed>, t0: int, i: nat, answers: seq<bool>, k: nat)
    requires Reachable(checks, ps, es, t0, true) && i < |checks|
    requires k <= |es| && |answers| == |es|
    requires ps[k].backends[i].health.Probing? && ps[k].backends[i].health.remainingBudget == 0
    ensures LedgerAt(StatesOf(ps, i), ActsOf(ps, es, i), answers, k).outstanding > 0
  {
    hide Steps, Step, LedgerAt;
    Projects(checks, ps, es, t0, i);
    PermitsBalance(StatesOf(ps, i), ActsOf(ps, es, i), answers, k);
  }

  /**
    Exactly the answers unblock it: from a spent budget on, the backend stays where it is through
    acts `j` to `k - 1` if and only if none of them is a recorded success or failure.
   */
  lemma {:induction false} SpentBudgetStallsIff(bs: seq<Backend>, acts: seq<TimedAct>, j: nat, k: nat)
    requires Follows(bs, acts) && j <= k < |bs|
    requires bs[j].health.Probing? && bs[j].health.remainingBudget == 0
    ensures (forall m :: j <= m <= k ==> bs[m].health == bs[j].health)
            <==> (forall m :: j <= m < k ==> !acts[m].act.Succeed? && !acts[m].act.Fail?)
  {
    if j == k {
    } else {
      SpentBudgetStallsIff(bs, acts, j, k - 1);
      assert AdvancesAt(bs, acts, k - 1);
    }
  }

  /**
    A permit taken by a pick whose request is then dropped (pick_without_begin followed by a
    rejection) is never returned: once the budget is spent, and with no answer on backend `i` from
    operation `j` on, it is neither healthy nor selected again, however many picks and reconciles follow.
   */
  lemma AbandonedProbeStalls(
    checks: seq<Option<HealthCheck>>, ps: seq<Pool>, es: seq<Timed>, t0: int, i: nat, j: nat, k: nat)
    requires Reachable(checks, ps, es, t0, true) && i < |checks| && j <= k <= |es|
    requires ps[j].backends[i].health.Probing? && ps[j].backends[i].health.remainingBudget == 0
    requires forall m :: j <= m < k ==> !ActsOf(ps, es, i)[m].act.Succeed? && !ActsOf(ps, es, i)[m].act.Fail?
    ensures ps[k].backends[i].health == ps[j].backends[i].health && !ps[k].healthy.Contains(i)
    ensures forall m :: j <= m < k ==> !ActsOf(ps, es, i)[m].act.Grant?
  {
    hide Steps, Step;
    Projects(checks, ps, es, t0, i);
    var bs, acts := StatesOf(ps, i), ActsOf(ps, es, i);
    SpentBudgetStallsIff(bs, acts, j, k);
    assert bs[k].health == bs[j].health;
    IndexesFollowStates(checks, ps, es, t0, k);
    forall m | j <= m < k ensures !acts[m].act.Grant? {
      assert AdvancesAt(bs, acts, m);
    }
  }

  /** The backend of the run below, and its pool after the failure, at the pick, and after it. */
  function Only(health: HealthState): Backend { Backend(Some(HealthCheck(0, 1, 1, 5)), 0, health, 0) }

  function OnlyPool(health: HealthState, healthy: Index, probing: Index, epoch: nat, earliest: Option<int>, cursor: nat): Pool {
    Pool([Only(health)], healthy, probing, epoch, earliest, cursor)
  }

  const NONE_LISTED: Index := Index([], [None])
  const ONE_LISTED: Index := Index([0], [Some(0)])

  lemma OnlyFresh(p: Pool)
    requires p == OnlyPool(Healthy, ONE_LISTED, NONE_LISTED, 0, None, 0)
    ensures Fresh([Only(Healthy).check]) == p
  {
    hide Pool.Agrees, Pool.Shaped, Index.WellFormed;
    assert PositionsUpTo(p.backends, 0) == NONE_LISTED;
    assert PositionsUpTo(p.backends, 1) == ONE_LISTED;
    assert Fresh([Only(Healthy).check]).backends == p.backends;
    assert Fresh([Only(Healthy).check]).probing == NONE_LISTED;
  }

  lemma OnlyUnlisted(p: Pool, q: Pool)
    requires p == OnlyPool(Healthy, ONE_LISTED, NONE_LISTED, 0, None, 0)
    requires q == OnlyPool(Unhealthy(5), NONE_LISTED, NONE_LISTED, 1, None, 0)
    ensures p.Shaped() && Follow(p, 0, Only(Unhealthy(5)), true) == (q, true)
  {
    assert p.healthy.Remove(0).0.dense == [] && p.healthy.Remove(0).0.pos == [None];
    assert p.backends[0 := Only(Unhealthy(5))] == q.backends;
  }

  lemma OnlyFails(p: Pool, q: Pool)
    requires p == OnlyPool(Healthy, ONE_LISTED, NONE_LISTED, 0, None, 0)
    requires q == OnlyPool(Unhealthy(5), NONE_LISTED, NONE_LISTED, 1, Some(5), 0)
    ensures p.Shaped() && MarkRequestFailure(p, 0, 0, true).pool == q
  {
    hide Follow;
    OnlyUnlisted(p, q.(earliest := None));
    assert p.backends[0].RecordFailure(0) == (Only(Unhealthy(5)), Some(BecameUnhealthy));
  }

  lemma OnlyReadmitted(p: Pool, q: Pool)
    requires p == OnlyPool(Unhealthy(5), NONE_LISTED, NONE_LISTED, 1, Some(5), 0)
    requires q == OnlyPool(Probing(0, 1), NONE_LISTED, ONE_LISTED, 1, None, 0)
    ensures p.Shaped() && ReconcileReadmit(p, 5, true) == (q, true)
  {
    OnlyListed(p, q.(earliest := Some(5)));
    hide Follow;
  }

  lemma OnlyListed(p: Pool, q: Pool)
    requires p == OnlyPool(Unhealthy(5), NONE_LISTED, NONE_LISTED, 1, Some(5), 0)
    requires q == OnlyPool(Probing(0, 1), NONE_LISTED, ONE_LISTED, 1, Some(5), 0)
    ensures p.Shaped() && Follow(p, 0, Only(Probing(0, 1)), true) == (q, true)
  {
    assert NONE_LISTED.Add(0).0.dense == [0] && NONE_LISTED.Add(0).0.pos == [Some(0)];
    assert NONE_LISTED.Add(0) == (ONE_LISTED, true);
    var b := Only(Probing(0, 1));
    assert p.backends[0 := b] == q.backends;
  }

  lemma OnlyProbed(q: Pool, r: Pool)
    requires q == OnlyPool(Probing(0, 1), NONE_LISTED, ONE_LISTED, 1, None, 0)
    requires r == OnlyPool(Probing(0, 0), NONE_LISTED, ONE_LISTED, 1, None, 1)
    ensures q.Shaped() && PickProbing(q, false) == (r, Some(0))
    ensures r.Shaped() && PickProbing(r, false) == (r, None)
  {
    assert ScanProbing(q, 0, 0) == Some(0);
    assert q.backends[0 := Only(Probing(0, 0))] == r.backends;
    assert ScanProbing(r, 0, 0) == None;
  }

  lemma OnlyPicked(p: Pool, r: Pool)
    requires p == OnlyPool(Unhealthy(5), NONE_LISTED, NONE_LISTED, 1, Some(5), 0)
    requires r == OnlyPool(Probing(0, 0), NONE_LISTED, ONE_LISTED, 1, None, 1)
    ensures p.Shaped() && Pick(p, 5, None, false, true) == Picked(r, Some(0), true, true)
    ensures r.Shaped() && Pick(r, 100, None, false, true) == Picked(r, None, false, true)
  {
    var q := OnlyPool(Probing(0, 1), NONE_LISTED, ONE_LISTED, 1, None, 0);
    assert r.earliest.None?;
    hide PickProbing, ReadmitFrom, OnlyPool;
    OnlyReadmitted(p, q);
    OnlyProbed(q, r);
  }

  lemma FailingStep(p: Pool, i: nat, now: int, t0: int)
    requires p.Shaped() && t0 <= now
    ensures Steps(p, At(now, RequestFailure(i)), t0, MarkRequestFailure(p, i, now, true).pool, true)
  {
    hide MarkRequestFailure;
  }

  lemma PickingStep(p: Pool, choice: Option<nat>, now: int, t0: int)
    requires p.Shaped() && t0 <= now
    ensures Steps(p, At(now, PickOnly(choice)), t0, Pick(p, now, choice, false, true).pool, true)
  {
    hide Pick;
  }

  /**
    Such a run: one failed request ejects the only backend, a pick after the cooldown spends the one
    permit, its request is dropped, and the next pick selects nothing although the backend is idle.
   */
  lemma AbandonedProbe() returns (checks: seq<Option<HealthCheck>>, ps: seq<Pool>, es: seq<Timed>)
    ensures checks == [Some(HealthCheck(0, 1, 1, 5))] && Reachable(checks, ps, es, 0, true)
    ensures es == [At(0, RequestFailure(0)), At(5, PickOnly(None)), At(100, PickOnly(None))]
    ensures Pick(ps[1], 5, None, false, true).selected == Some(0)
    ensures ps[2].backends[0].health == Probing(0, 0) && ps[2].backends[0].active == 0
    ensures Pick(ps[2], 100, None, false, true).selected == None && ps[3] == ps[2]
  {
    hide Steps, Pick, Fresh, MarkRequestFailure;
    checks := [Some(HealthCheck(0, 1, 1, 5))];
    es := [At(0, RequestFailure(0)), At(5, PickOnly(None)), At(100, PickOnly(None))];
    var p := OnlyPool(Unhealthy(5), NONE_LISTED, NONE_LISTED, 1, Some(5), 0);
    var r := OnlyPool(Probing(0, 0), NONE_LISTED, ONE_LISTED, 1, None, 1);
    var start := OnlyPool(Healthy, ONE_LISTED, NONE_LISTED, 0, None, 0);
    ps := [start, p, r, r];
    OnlyFresh(start);
    OnlyFails(start, p);
    OnlyPicked(p, r);
    FailingStep(start, 0, 0, 0);
    PickingStep(p, None, 5, 0);
    PickingStep(r, None, 100, 5);
    assert StepAt(ps, es, 0, 0, true) && StepAt(ps, es, 0, 1, true) && StepAt(ps, es, 0, 2, true);
  }
}
