/** Runs of the upstream pool: every operation sequence, with a clock reading per operation. */
module PoolRuns {
  import opened Prelude
  import opened Health
  import opened PoolModel

  datatype Event =
    | ActiveSuccess(i: nat)
    | ActiveFailure(i: nat)
    | RequestSuccess(i: nat)
    | RequestFailure(i: nat)
    | ObservedFailure(i: nat, classified: bool)
    | PickBegin(choice: Option<nat>)
    | PickOnly(choice: Option<nat>)
    | BeginIfHealthy(i: nat)
    | BeginForAccounting(i: nat)
    | Finish(i: nat)
    | Reconcile

  datatype Timed = At(now: int, event: Event)

  /** An operation that records a result. */
  predicate IsMark(e: Event) {
    e.ActiveSuccess? || e.ActiveFailure? || e.RequestSuccess? || e.RequestFailure? || e.ObservedFailure?
  }

  /** The pool after one operation, and whether every evaluated assertion held. */
  function StepOutcome(p: Pool, e: Timed, debug: bool): (r: (Pool, bool))
    requires p.Shaped()
    ensures r.0.Shaped() && |r.0.backends| == |p.backends|
    ensures !debug ==> Frozen(p, r.0)
  {
    match e.event
    case ActiveSuccess(i) => var m := MarkSuccess(p, i, e.now, debug); (m.pool, m.held)
    case ActiveFailure(i) => var m := MarkFailure(p, i, e.now, debug); (m.pool, m.held)
    case RequestSuccess(i) => var m := MarkRequestSuccess(p, i, e.now, debug); (m.pool, m.held)
    case RequestFailure(i) => var m := MarkRequestFailure(p, i, e.now, debug); (m.pool, m.held)
    case ObservedFailure(i, classified) =>
      if classified then var m := MarkRequestFailure(p, i, e.now, debug); (m.pool, m.held) else (p, true)
    case PickBegin(choice) => var k := Pick(p, e.now, choice, true, debug); (k.pool, k.held)
    case PickOnly(choice) => var k := Pick(p, e.now, choice, false, debug); (k.pool, k.held)
    case BeginIfHealthy(i) => (if p.healthy.Contains(i) then BeginRequest(p, i) else p, true)
    case BeginForAccounting(i) => (BeginRequest(p, i), true)
    case Finish(i) => (FinishRequest(p, i), true)
    case Reconcile => ReconcileReadmit(p, e.now, debug)
  }

  function Step(p: Pool, e: Timed, debug: bool): (r: Pool)
    requires p.Shaped()
    ensures r.Shaped() && |r.backends| == |p.backends|
    ensures !debug ==> Frozen(p, r)
  {
    StepOutcome(p, e, debug).0
  }

  /** The clock after the first `k` operations. */
  function ClockAt(t0: int, es: seq<Timed>, k: nat): int
    requires k <= |es|
  {
    if k == 0 then t0 else es[k - 1].now
  }

  ghost predicate Steps(p: Pool, e: Timed, t0: int, q: Pool, debug: bool) {
    t0 <= e.now && p.Shaped() && q == Step(p, e, debug)
  }

  /** Operation `k` leads from `ps[k]` to `ps[k + 1]`, and the clock does not go back. */
  ghost predicate StepAt(ps: seq<Pool>, es: seq<Timed>, t0: int, k: nat, debug: bool) {
    k < |es| && |ps| == |es| + 1 && Steps(ps[k], es[k], ClockAt(t0, es, k), ps[k + 1], debug)
  }

  /** `ps` are the pools before, between and after the operations `es`. */
  ghost predicate Behaviour(ps: seq<Pool>, es: seq<Timed>, t0: int, debug: bool) {
    |ps| == |es| + 1 && forall k :: 0 <= k < |es| ==> StepAt(ps, es, t0, k, debug)
  }

  /** No passive backend waits for an expiry that the cached earliest one overlooks. */
  ghost predicate NoneForgotten(p: Pool) {
    forall i :: 0 <= i < |p.backends| && !p.backends[i].HasActiveCheck() && p.backends[i].health.Unhealthy?
      ==> p.earliest.Some? && p.earliest.value <= p.backends[i].health.until
  }

  ghost predicate Sound(p: Pool, clock: int) {
    forall i :: 0 <= i < |p.backends| ==> p.backends[i].Sound(clock)
  }

  ghost predicate Inv(p: Pool, clock: int) {
    p.Agrees() && Sound(p, clock) && NoneForgotten(p)
  }

  /** Same backends with the same health-check configuration. */
  ghost predicate SameChecks(p: Pool, q: Pool) {
    |p.backends| == |q.backends| && forall i :: 0 <= i < |p.backends| ==> p.backends[i].check == q.backends[i].check
  }

  // ---- One operation ----

  /** Replacing backend `i` by `b` keeps the invariant when a new ejection is covered by `earliest`. */
  lemma FollowKeeps(p: Pool, i: nat, b: Backend, earliest: Option<int>, t0: int, now: int)
    requires Inv(p, t0) && t0 <= now && i < |p.backends|
    requires b.check == p.backends[i].check && b.Sound(now)
    requires earliest == p.earliest || (p.earliest.Some? ==> earliest.Some? && earliest.value <= p.earliest.value)
    requires earliest.None? ==> p.earliest.None?
    requires b.health.Unhealthy? && !b.HasActiveCheck() ==> earliest.Some? && earliest.value <= b.health.until
    ensures var (q, ok) := Follow(p, i, b, true);
            ok && Inv(q.(earliest := earliest), now) && SameChecks(p, q.(earliest := earliest))
  {
    FollowAgrees(p, i, b);
  }

  lemma SuccessSound(b: Backend, t0: int, now: int)
    requires b.Sound(t0) && t0 <= now
    ensures var b' := b.RecordSuccess(now).0;
            b'.check == b.check && b'.Sound(now) && (b'.health.Unhealthy? ==> b' == b)
  {
  }

  lemma FailureSound(b: Backend, t0: int, now: int)
    requires b.Sound(t0) && t0 <= now
    ensures var b' := b.RecordFailure(now).0;
            b'.check == b.check && b'.Sound(now)
            && (b.health.Unhealthy? ==> b'.health.Unhealthy? && b.health.until <= b'.health.until)
  {
  }

  lemma MarkSuccessKeeps(p: Pool, i: nat, t0: int, now: int)
    requires Inv(p, t0) && t0 <= now
    ensures MarkSuccess(p, i, now, true).held && Inv(MarkSuccess(p, i, now, true).pool, now)
    ensures SameChecks(p, MarkSuccess(p, i, now, true).pool)
  {
    if i < |p.backends| {
      var b := p.backends[i].RecordSuccess(now).0;
      SuccessSound(p.backends[i], t0, now);
      FollowKeeps(p, i, b, p.earliest, t0, now);
      assert Follow(p, i, b, true).0.(earliest := p.earliest) == Follow(p, i, b, true).0;
    }
  }

  lemma MarkFailureKeeps(p: Pool, i: nat, t0: int, now: int)
    requires Inv(p, t0) && t0 <= now
    ensures MarkFailure(p, i, now, true).held && Inv(MarkFailure(p, i, now, true).pool, now)
    ensures SameChecks(p, MarkFailure(p, i, now, true).pool)
  {
    if i < |p.backends| {
      var b := p.backends[i].RecordFailure(now).0;
      FailureSound(p.backends[i], t0, now);
      FollowKeeps(p, i, b, CacheExpiry(p, i, b), t0, now);
    }
  }

  /** State of the re-admission loop: the first `k` backends are done and `next` covers what they left. */
  ghost predicate LoopInv(p: Pool, k: nat, now: int, next: Option<int>) {
    && k <= |p.backends| && p.Agrees() && Sound(p, now)
    && forall i :: 0 <= i < k && !p.backends[i].HasActiveCheck() && p.backends[i].health.Unhealthy?
         ==> next.Some? && next.value <= p.backends[i].health.until && now < p.backends[i].health.until
  }

  /** A cached expiry after the first `k` backends is the expiry of one of them. */
  ghost predicate Tight(p: Pool, k: nat, next: Option<int>) {
    next.Some? ==> exists i :: 0 <= i < k && i < |p.backends| && WaitsUntil(p.backends[i], next.value)
  }

  ghost predicate WaitsUntil(b: Backend, until: int) {
    !b.HasActiveCheck() && b.health == Unhealthy(until)
  }

  /** No passive backend is still ejected past its expiry. */
  ghost predicate NoneOverdue(p: Pool, now: int) {
    forall i :: 0 <= i < |p.backends| && !p.backends[i].HasActiveCheck() && p.backends[i].health.Unhealthy?
      ==> now < p.backends[i].health.until
  }

  lemma ReadmitOneKeeps(p: Pool, k: nat, now: int, next: Option<int>)
    requires LoopInv(p, k, now, next) && k < |p.backends| && p.backends[k].ReadmitIfExpired(now).1
    ensures var (q, ok) := Follow(p, k, p.backends[k].ReadmitIfExpired(now).0, true);
            ok && LoopInv(q, k + 1, now, next) && SameChecks(p, q)
            && q.healthy == p.healthy && q.epoch == p.epoch
  {
    FollowAgrees(p, k, p.backends[k].ReadmitIfExpired(now).0);
  }

  /** What one whole re-admission pass achieves from loop state `p`. */
  ghost predicate ReadmitDoes(p: Pool, now: int, q: Pool, ok: bool) {
    && ok && Inv(q, now) && NoneOverdue(q, now) && SameChecks(p, q)
    && q.healthy == p.healthy && q.epoch == p.epoch
  }

  lemma ReadmitSkipKeeps(p: Pool, k: nat, now: int, next: Option<int>)
    requires LoopInv(p, k, now, next) && k < |p.backends|
    requires p.backends[k].HasActiveCheck() || !p.backends[k].ReadmitIfExpired(now).1
    ensures p.backends[k].HasActiveCheck() || !p.backends[k].health.Unhealthy? ==> LoopInv(p, k + 1, now, next)
    ensures p.backends[k].health.Unhealthy? && !p.backends[k].HasActiveCheck()
            ==> LoopInv(p, k + 1, now, EarlierOf(next, p.backends[k].health.until))
  {
  }

  lemma ReadmitDone(p: Pool, now: int, next: Option<int>)
    requires LoopInv(p, |p.backends|, now, next)
    ensures ReadmitDoes(p, now, p.(earliest := next), true)
  {
  }

  lemma {:induction false} ReadmitFromKeeps(p: Pool, k: nat, now: int, next: Option<int>)
    requires LoopInv(p, k, now, next)
    ensures var (q, ok) := ReadmitFrom(p, k, now, next, true); ReadmitDoes(p, now, q, ok)
    decreases |p.backends| - k
  {
    if k == |p.backends| {
      ReadmitDone(p, now, next);
    } else if !p.backends[k].HasActiveCheck() && p.backends[k].ReadmitIfExpired(now).1 {
      ReadmitOneKeeps(p, k, now, next);
      ReadmitFromKeeps(Follow(p, k, p.backends[k].ReadmitIfExpired(now).0, true).0, k + 1, now, next);
    } else {
      ReadmitSkipKeeps(p, k, now, next);
      var b := p.backends[k];
      ReadmitFromKeeps(p, k + 1, now,
        if b.health.Unhealthy? && !b.HasActiveCheck() then EarlierOf(next, b.health.until) else next);
    }
  }

  lemma ReconcileKeeps(p: Pool, t0: int, now: int)
    requires Inv(p, t0) && t0 <= now
    ensures var (q, ok) := ReconcileReadmit(p, now, true); ReadmitDoes(p, now, q, ok)
  {
    if p.earliest.Some? && p.earliest.value <= now {
      ReadmitFromKeeps(p, 0, now, None);
    }
  }

  /** Request accounting and probe permits: backend `i` changes, but not its class or expiry. */
  lemma StoreKeeps(p: Pool, i: nat, b: Backend, clock: int)
    requires Inv(p, clock) && i < |p.backends| && b.check == p.backends[i].check && b.Sound(clock)
    requires b.health == p.backends[i].health || (b.health.Probing? && p.backends[i].health.Probing?)
    ensures Inv(p.(backends := p.backends[i := b]), clock)
  {
  }

  lemma BeginKeeps(p: Pool, i: nat, clock: int)
    requires Inv(p, clock)
    ensures Inv(BeginRequest(p, i), clock) && Inv(FinishRequest(p, i), clock)
    ensures SameChecks(p, BeginRequest(p, i)) && SameChecks(p, FinishRequest(p, i))
  {
    if i < |p.backends| {
      StoreKeeps(p, i, p.backends[i].(active := p.backends[i].active + 1), clock);
      StoreKeeps(p, i, p.backends[i].(active := Max(p.backends[i].active - 1, 0)), clock);
    }
  }

  lemma PermitKeeps(p: Pool, i: nat, cursor: nat, clock: int)
    requires Inv(p, clock) && i < |p.backends|
    ensures var q := p.(backends := p.backends[i := p.backends[i].TryAcquireProbePermit().0], cursor := cursor);
            Inv(q, clock) && SameChecks(p, q)
  {
    var b := p.backends[i].TryAcquireProbePermit().0;
    StoreKeeps(p, i, b, clock);
    var q := p.(backends := p.backends[i := b]);
    assert Inv(q, clock);
    MovedCursorKeeps(q, cursor, clock);
    hide Inv;
  }

  lemma MovedCursorKeeps(p: Pool, cursor: nat, clock: int)
    requires Inv(p, clock)
    ensures Inv(p.(cursor := cursor), clock)
  {
  }

  function Granted(p: Pool, i: nat, cursor: nat): (q: Pool)
    requires p.Shaped() && i < |p.backends|
    ensures q.Shaped() && |q.backends| == |p.backends|
  {
    p.(backends := p.backends[i := p.backends[i].TryAcquireProbePermit().0], cursor := cursor)
  }

  /** A probe pick grants one permit or does nothing. */
  lemma ProbeGrants(p: Pool, begin: bool) returns (i: nat, cursor: nat)
    requires p.Shaped()
    ensures var q := PickProbing(p, begin).0;
            q == p || (i < |p.backends| && q == if begin then BeginRequest(Granted(p, i, cursor), i) else Granted(p, i, cursor))
  {
    hide ScanProbing;
    i, cursor := 0, 0;
    var n := |p.probing.dense|;
    if n > 0 && ScanProbing(p, p.cursor % n, 0).Some? {
      cursor := ScanProbing(p, p.cursor % n, 0).value + 1;
      i := p.probing.dense[cursor - 1];
    }
  }

  lemma PickProbingKeeps(p: Pool, begin: bool, clock: int)
    requires Inv(p, clock)
    ensures var q := PickProbing(p, begin).0;
            Inv(q, clock) && SameChecks(p, q) && q.healthy == p.healthy && q.epoch == p.epoch
  {
    assert p.Shaped();
    var i, cursor := ProbeGrants(p, begin);
    LaterSound(p, clock, clock);
    hide Inv, PickProbing;
    if i < |p.backends| {
      PermitKeeps(p, i, cursor, clock);
      BeginKeeps(Granted(p, i, cursor), i, clock);
    }
  }

  lemma PickKeeps(p: Pool, t0: int, now: int, choice: Option<nat>, begin: bool)
    requires Inv(p, t0) && t0 <= now
    ensures var k := Pick(p, now, choice, begin, true);
            k.held && Inv(k.pool, now) && SameChecks(p, k.pool)
            && k.pool.healthy == p.healthy && k.pool.epoch == p.epoch
  {
    ReconcileKeeps(p, t0, now);
    var q := ReconcileReadmit(p, now, true).0;
    PickProbingKeeps(q, begin, now);
    if choice.Some? {
      BeginKeeps(PickProbing(q, begin).0, choice.value, now);
    }
  }

  lemma LaterSound(p: Pool, t0: int, now: int)
    requires Inv(p, t0) && t0 <= now
    ensures Inv(p, now) && SameChecks(p, p)
  {
  }

  lemma MarkStepKeeps(p: Pool, t0: int, e: Timed)
    requires Inv(p, t0) && t0 <= e.now
    requires IsMark(e.event)
    ensures StepOutcome(p, e, true).1
    ensures Inv(Step(p, e, true), e.now) && SameChecks(p, Step(p, e, true))
  {
    LaterSound(p, t0, e.now);
    MarkSuccessKeeps(p, e.event.i, t0, e.now);
    MarkFailureKeeps(p, e.event.i, t0, e.now);
  }

  lemma StepKeeps(p: Pool, t0: int, e: Timed)
    requires Inv(p, t0) && t0 <= e.now
    ensures StepOutcome(p, e, true).1
    ensures Inv(Step(p, e, true), e.now) && SameChecks(p, Step(p, e, true))
  {
    LaterSound(p, t0, e.now);
    match e.event
    case PickBegin(choice) => PickKeeps(p, t0, e.now, choice, true);
    case PickOnly(choice) => PickKeeps(p, t0, e.now, choice, false);
    case Reconcile => ReconcileKeeps(p, t0, e.now);
    case BeginIfHealthy(i) => BeginKeeps(p, i, e.now);
    case BeginForAccounting(i) => BeginKeeps(p, i, e.now);
    case Finish(i) => BeginKeeps(p, i, e.now);
    case _ => MarkStepKeeps(p, t0, e);
  }

  // ---- Whole runs ----

  function Fresh(checks: seq<Option<HealthCheck>>): (p: Pool)
    ensures p.Shaped() && |p.backends| == |checks|
  {
    NewFromStates(seq(|checks|, i requires 0 <= i < |checks| => NewBackend(checks[i])))
  }

  /** Every pool of the run has `n` backends; no operation changes that number. */
  ghost predicate Wide(ps: seq<Pool>, n: nat) { forall p <- ps :: p.Shaped() && |p.backends| == n }

  /** A run of a pool built for `checks`, every backend starting Healthy. */
  ghost predicate Reachable(checks: seq<Option<HealthCheck>>, ps: seq<Pool>, es: seq<Timed>, t0: int, debug: bool) {
    Behaviour(ps, es, t0, debug) && ps[0] == Fresh(checks) && Wide(ps, |checks|)
  }

  lemma FreshInv(checks: seq<Option<HealthCheck>>, clock: int)
    ensures Inv(Fresh(checks), clock)
  {
  }

  lemma StepsKeep(p: Pool, t0: int, e: Timed, q: Pool)
    requires Inv(p, t0) && Steps(p, e, t0, q, true)
    ensures Inv(q, e.now) && SameChecks(p, q)
  {
    StepKeeps(p, t0, e);
  }

  lemma {:induction false} InvAt(ps: seq<Pool>, es: seq<Timed>, t0: int, k: nat)
    requires Behaviour(ps, es, t0, true) && Inv(ps[0], t0) && k <= |es|
    ensures Inv(ps[k], ClockAt(t0, es, k)) && SameChecks(ps[0], ps[k])
  {
    hide Steps, Inv;
    if k == 0 {
    } else {
      InvAt(ps, es, t0, k - 1);
      assert StepAt(ps, es, t0, k - 1, true);
      StepsKeep(ps[k - 1], ClockAt(t0, es, k - 1), es[k - 1], ps[k]);
    }
  }

  /**
    In every reachable state of a build with debug assertions the two indexes list exactly the
    healthy and the probing backends, and no index assertion fails.
   */
  lemma IndexesFollowStates(checks: seq<Option<HealthCheck>>, ps: seq<Pool>, es: seq<Timed>, t0: int, k: nat)
    requires Reachable(checks, ps, es, t0, true) && k <= |es|
    ensures ps[k].Agrees()
    ensures k < |es| ==> StepOutcome(ps[k], es[k], true).1
  {
    FreshInv(checks, t0);
    InvAt(ps, es, t0, k);
    if k < |es| {
      assert StepAt(ps, es, t0, k, true);
      StepKeeps(ps[k], ClockAt(t0, es, k), es[k]);
    }
  }

  /**
    In every reachable state the cached expiry is a lower bound on every passive cooldown, so a
    reconcile at any later time leaves no passive backend ejected past its expiry.
   */
  lemma NoCooldownMissed(checks: seq<Option<HealthCheck>>, ps: seq<Pool>, es: seq<Timed>, t0: int, k: nat, now: int)
    requires Reachable(checks, ps, es, t0, true) && k <= |es| && ClockAt(t0, es, k) <= now
    ensures NoneForgotten(ps[k]) && ps[k].Shaped()
    ensures NoneOverdue(ReconcileReadmit(ps[k], now, true).0, now)
  {
    FreshInv(checks, t0);
    InvAt(ps, es, t0, k);
    ReconcileKeeps(ps[k], ClockAt(t0, es, k), now);
  }

  lemma {:induction false} ReadmitFromTight(p: Pool, k: nat, now: int, next: Option<int>)
    requires p.Shaped() && k <= |p.backends| && Tight(p, k, next)
    ensures var q := ReadmitFrom(p, k, now, next, true).0; Tight(q, |q.backends|, q.earliest)
    decreases |p.backends| - k
  {
    if k == |p.backends| {
    } else {
      var b := p.backends[k];
      var (readmitted, expired) := b.ReadmitIfExpired(now);
      if !b.HasActiveCheck() && expired {
        var q := Follow(p, k, readmitted, true).0;
        hide Follow, Index.WellFormed, ReadmitFrom;
        assert Tight(q, k + 1, next) by {
          if next.Some? {
            var i :| 0 <= i < k && i < |p.backends| && WaitsUntil(p.backends[i], next.value);
            assert WaitsUntil(q.backends[i], next.value);
          }
        }
        ReadmitFromTight(q, k + 1, now, next);
      } else {
        var soonest := if b.health.Unhealthy? && !b.HasActiveCheck() then EarlierOf(next, b.health.until) else next;
        assert soonest.Some? && soonest != next ==> WaitsUntil(p.backends[k], soonest.value);
        ReadmitFromTight(p, k + 1, now, soonest);
      }
    }
  }

  /**
    A pass recomputes the cache exactly: afterwards it is empty when no passive backend is
    ejected, and otherwise it is the soonest of their expiries.
   */
  lemma ReconcileRecomputes(checks: seq<Option<HealthCheck>>, ps: seq<Pool>, es: seq<Timed>, t0: int, k: nat, now: int)
    requires Reachable(checks, ps, es, t0, true) && k <= |es| && ClockAt(t0, es, k) <= now
    requires ps[k].earliest.Some? && ps[k].earliest.value <= now
    ensures var q := ReconcileReadmit(ps[k], now, true).0;
            NoneForgotten(q) && Tight(q, |q.backends|, q.earliest)
  {
    hide ReadmitFrom, StepAt;
    FreshInv(checks, t0);
    InvAt(ps, es, t0, k);
    ReconcileKeeps(ps[k], ClockAt(t0, es, k), now);
    ReadmitFromTight(ps[k], 0, now, None);
  }

  // ---- Selection ----

  /** The scan returns the first selectable backend in rotation order. */
  lemma {:induction false} ScanProbingFirst(p: Pool, start: nat, offset: nat)
    requires p.Shaped() && |p.probing.dense| > 0 && offset <= |p.probing.dense|
    requires ScanProbing(p, start, offset).Some?
    ensures exists d :: FirstAt(p, start, offset, d) && ScanProbing(p, start, offset).value == (start + d) % |p.probing.dense|
    decreases |p.probing.dense| - offset
  {
    var n := |p.probing.dense|;
    hide Index.WellFormed, Selectable;
    if SelectableAt(p, start, offset) {
      assert FirstAt(p, start, offset, offset);
    } else {
      ScanProbingFirst(p, start, offset + 1);
      var d :| FirstAt(p, start, offset + 1, d) && ScanProbing(p, start, offset + 1).value == (start + d) % n;
      assert FirstAt(p, start, offset, d);
    }
  }

  /** Position `start + d` is selectable and none of the offsets from `from` before it is. */
  ghost predicate FirstAt(p: Pool, start: nat, from: nat, d: nat)
    requires p.Shaped() && |p.probing.dense| > 0
  {
    var n := |p.probing.dense|;
    && from <= d < n && SelectableAt(p, start, d)
    && forall e :: from <= e < d ==> !SelectableAt(p, start, e)
  }

  ghost predicate SelectableAt(p: Pool, start: nat, d: nat)
    requires p.Shaped() && |p.probing.dense| > 0
  {
    Selectable(p.backends[p.probing.dense[(start + d) % |p.probing.dense|]])
  }

  lemma {:induction false} ScanProbingMisses(p: Pool, start: nat, offset: nat, d: nat)
    requires p.Shaped() && |p.probing.dense| > 0 && offset <= d < |p.probing.dense|
    requires ScanProbing(p, start, offset).None?
    ensures !Selectable(p.backends[p.probing.dense[(start + d) % |p.probing.dense|]])
    decreases d - offset
  {
    if offset == d {
    } else {
      ScanProbingMisses(p, start, offset + 1, d);
    }
  }

  /** Every position is visited by the rotation. */
  lemma RotationReaches(start: nat, n: nat, at: nat) returns (d: nat)
    requires start < n && at < n
    ensures d < n && (start + d) % n == at
  {
    d := if start <= at then at - start else at + n - start;
    if at < start {
      assert (start + d) == at + n;
    }
  }

  /** The scan of the probing index finds a selectable backend exactly when the pool has one. */
  lemma PickProbingExact(p: Pool, begin: bool)
    requires p.Agrees()
    ensures PickProbing(p, begin).1.None?
            <==> forall i :: 0 <= i < |p.backends| ==> !Selectable(p.backends[i])
  {
    var n := |p.probing.dense|;
    if PickProbing(p, begin).1.None? {
      forall i | 0 <= i < |p.backends| ensures !Selectable(p.backends[i]) {
        if p.backends[i].health.Probing? {
          assert p.probing.Contains(i);
          var at := p.probing.pos[i].value;
          var d := RotationReaches(p.cursor % n, n, at);
          ScanProbingMisses(p, p.cursor % n, 0, d);
        }
      }
    }
  }

  // ---- Build without debug assertions ----

  lemma {:induction false} ReleaseFrozen(ps: seq<Pool>, es: seq<Timed>, t0: int, k: nat)
    requires Behaviour(ps, es, t0, false) && k <= |es|
    ensures Frozen(ps[0], ps[k]) && |ps[k].backends| == |ps[0].backends|
  {
    if k == 0 {
    } else {
      ReleaseFrozen(ps, es, t0, k - 1);
      assert StepAt(ps, es, t0, k - 1, false);
    }
  }

  /**
    Without debug assertions the indexes never move again: they agree with the states of a
    reachable pool exactly when every backend happens to be Healthy.
   */
  lemma ReleaseAgreesIffAllHealthy(checks: seq<Option<HealthCheck>>, ps: seq<Pool>, es: seq<Timed>, t0: int, k: nat)
    requires Reachable(checks, ps, es, t0, false) && k <= |es|
    ensures ps[k].Agrees() <==> forall i :: 0 <= i < |ps[k].backends| ==> ps[k].backends[i].health.Healthy?
  {
    ReleaseFrozen(ps, es, t0, k);
    FreshInv(checks, t0);
  }

  /** One failed check of a backend that tolerates none: the release build still lists it as healthy. */
  lemma ReleaseDrifts()
    ensures var q := Step(Fresh([Some(HealthCheck(0, 1, 1, 5))]), At(0, ActiveFailure(0)), false);
            q.backends[0].health == Unhealthy(5) && q.healthy.Contains(0) && !q.Agrees()
  {
  }
}
