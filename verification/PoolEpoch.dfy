/** Membership epoch: equal epochs mean an identical healthy vector. */
module PoolEpoch {
  import opened Prelude
  import opened Health
  import opened PoolModel
  import opened PoolRuns

  /** Number of membership changes among the first `k` steps. */
  function Changes(ps: seq<Pool>, k: nat): nat
    requires k < |ps|
  {
    if k == 0 then 0
    else Changes(ps, k - 1) + (if Members(ps[k].healthy.dense) != Members(ps[k - 1].healthy.dense) then 1 else 0)
  }

  /** The epoch moves by one exactly when the set of healthy backends changes. */
  ghost predicate EpochFollows(p: Pool, q: Pool) {
    if Members(q.healthy.dense) == Members(p.healthy.dense)
    then q.healthy == p.healthy && q.epoch == p.epoch
    else q.epoch == (p.epoch + 1) % U64_COUNT
  }

  lemma ContainsIsMember(ix: Index, i: nat)
    requires ix.WellFormed(|ix.pos|) && i < |ix.pos|
    ensures ix.Contains(i) <==> i in Members(ix.dense)
  {
    if ix.Contains(i) {
      assert ix.dense[ix.pos[i].value] == i;
    }
  }

  lemma FollowEpoch(p: Pool, i: nat, b: Backend)
    requires p.Agrees() && i < |p.backends|
    ensures EpochFollows(p, Follow(p, i, b, true).0)
  {
    FollowAgrees(p, i, b);
    var q := Follow(p, i, b, true).0;
    assert q.healthy == FollowHealthy(p, i, b, true).0.healthy;
    ContainsIsMember(p.healthy, i);
    ContainsIsMember(q.healthy, i);
  }

  lemma MarkEpoch(p: Pool, i: nat, now: int)
    requires p.Agrees()
    ensures EpochFollows(p, MarkSuccess(p, i, now, true).pool)
    ensures EpochFollows(p, MarkFailure(p, i, now, true).pool)
  {
    if i < |p.backends| {
      FollowEpoch(p, i, p.backends[i].RecordSuccess(now).0);
      FollowEpoch(p, i, p.backends[i].RecordFailure(now).0);
    }
  }

  lemma PickEpoch(p: Pool, t0: int, e: Timed, q: Pool)
    requires Inv(p, t0) && Steps(p, e, t0, q, true)
    requires e.event.PickBegin? || e.event.PickOnly? || e.event.Reconcile?
    ensures EpochFollows(p, q)
  {
    hide ReadmitFrom, PickProbing;
    match e.event
    case PickBegin(choice) => PickKeeps(p, t0, e.now, choice, true);
    case PickOnly(choice) => PickKeeps(p, t0, e.now, choice, false);
    case Reconcile => ReconcileKeeps(p, t0, e.now);
  }

  lemma StepEpoch(p: Pool, t0: int, e: Timed, q: Pool)
    requires Inv(p, t0) && Steps(p, e, t0, q, true)
    ensures EpochFollows(p, q)
  {
    hide Pick, ReconcileReadmit, MarkSuccess, MarkFailure;
    match e.event
    case PickBegin(_) => PickEpoch(p, t0, e, q);
    case PickOnly(_) => PickEpoch(p, t0, e, q);
    case Reconcile => PickEpoch(p, t0, e, q);
    case BeginIfHealthy(i) =>
    case BeginForAccounting(i) =>
    case Finish(i) =>
    case _ => MarkEpoch(p, e.event.i, e.now);
  }

  lemma EpochFollowsAt(checks: seq<Option<HealthCheck>>, ps: seq<Pool>, es: seq<Timed>, t0: int, k: nat)
    requires Reachable(checks, ps, es, t0, true) && k < |es|
    ensures EpochFollows(ps[k], ps[k + 1])
  {
    hide Steps, Inv, EpochFollows;
    FreshInv(checks, t0);
    InvAt(ps, es, t0, k);
    assert StepAt(ps, es, t0, k, true);
    StepEpoch(ps[k], ClockAt(t0, es, k), es[k], ps[k + 1]);
  }

  /** `q` is `c` membership changes after `p`. */
  ghost predicate EpochAfter(p: Pool, c: nat, q: Pool) {
    q.epoch == (p.epoch + c) % U64_COUNT && (c == 0 ==> q.healthy == p.healthy)
  }

  lemma EpochAfterStep(p: Pool, c: nat, q: Pool, r: Pool)
    requires EpochAfter(p, c, q) && EpochFollows(q, r)
    ensures EpochAfter(p, if Members(r.healthy.dense) != Members(q.healthy.dense) then c + 1 else c, r)
  {
    if Members(r.healthy.dense) != Members(q.healthy.dense) {
      assert ((p.epoch + c) % U64_COUNT + 1) % U64_COUNT == (p.epoch + c + 1) % U64_COUNT;
    }
  }

  lemma FreshEpoch(checks: seq<Option<HealthCheck>>)
    ensures EpochAfter(Fresh(checks), 0, Fresh(checks))
  {
  }

  /** The epoch is the number of membership changes since the pool was built, modulo 2^64. */
  lemma {:induction false} EpochCountsChanges(
    checks: seq<Option<HealthCheck>>, ps: seq<Pool>, es: seq<Timed>, t0: int, k: nat)
    requires Reachable(checks, ps, es, t0, true) && k <= |es|
    ensures EpochAfter(ps[0], Changes(ps, k), ps[k])
  {
    hide Fresh, StepAt, Wide, EpochFollows, EpochAfter;
    if k == 0 {
      FreshEpoch(checks);
    } else {
      EpochCountsChanges(checks, ps, es, t0, k - 1);
      EpochFollowsAt(checks, ps, es, t0, k - 1);
      EpochAfterStep(ps[0], Changes(ps, k - 1), ps[k - 1], ps[k]);
    }
  }

  lemma {:induction false} ChangesGrow(ps: seq<Pool>, j: nat, k: nat)
    requires j <= k < |ps|
    ensures Changes(ps, j) <= Changes(ps, k)
    ensures Changes(ps, j) == Changes(ps, k) && j < k ==> Members(ps[k].healthy.dense) == Members(ps[k - 1].healthy.dense)
  {
    if j == k {
    } else {
      ChangesGrow(ps, j, k - 1);
    }
  }

  lemma EpochUnmoved(epoch: nat, c: nat, d: nat)
    requires c <= d < c + U64_COUNT && (epoch + c) % U64_COUNT == (epoch + d) % U64_COUNT
    ensures c == d
  {
  }

  lemma SameMembersSameVector(p: Pool, q: Pool)
    requires EpochFollows(p, q) && Members(p.healthy.dense) == Members(q.healthy.dense)
    ensures q.healthy == p.healthy
  {
  }

  lemma {:induction false} UnchangedVector(
    checks: seq<Option<HealthCheck>>, ps: seq<Pool>, es: seq<Timed>, t0: int, j: nat, m: nat)
    requires Reachable(checks, ps, es, t0, true) && j <= m <= |es| && Changes(ps, j) == Changes(ps, m)
    ensures ps[m].healthy == ps[j].healthy
  {
    hide Fresh, StepAt, Wide, EpochFollows, Members;
    if j == m {
    } else {
      ChangesGrow(ps, j, m);
      ChangesGrow(ps, j, m - 1);
      UnchangedVector(checks, ps, es, t0, j, m - 1);
      EpochFollowsAt(checks, ps, es, t0, m - 1);
      SameMembersSameVector(ps[m - 1], ps[m]);
    }
  }

  /**
    A cache keyed by the epoch is valid: when two observations fewer than 2^64 membership changes
    apart read the same epoch, the healthy vector was element for element the same in between.
   */
  lemma SameEpochSameVector(
    checks: seq<Option<HealthCheck>>, ps: seq<Pool>, es: seq<Timed>, t0: int, j: nat, m: nat, k: nat)
    requires Reachable(checks, ps, es, t0, true) && j <= m <= k <= |es|
    requires ps[j].epoch == ps[k].epoch && Changes(ps, k) < Changes(ps, j) + U64_COUNT
    ensures ps[m].healthy == ps[j].healthy
  {
    hide Fresh, StepAt, Wide, Changes;
    EpochCountsChanges(checks, ps, es, t0, j);
    EpochCountsChanges(checks, ps, es, t0, k);
    ChangesGrow(ps, j, m);
    ChangesGrow(ps, m, k);
    EpochUnmoved(ps[0].epoch, Changes(ps, j), Changes(ps, k));
    UnchangedVector(checks, ps, es, t0, j, m);
  }
}
