/**
  The backend pool (crates/lb/src/backend_pool.rs) and its facade
  (crates/lb/src/upstream_pool.rs) as functions on values.

  `debug` is the build: index upkeep is the argument of `debug_assert!`, so it is evaluated only
  when debug assertions are compiled in. Each operation also returns whether every assertion it
  evaluated held.
 */
module PoolModel {
  import opened Prelude
  import opened Health

  // ---- Dense index with position table: push to add, swap_remove to drop ----

  datatype Index = Index(dense: seq<nat>, pos: seq<Option<nat>>)
  {
    /** The two tables are inverse to each other (so `dense` has no duplicates). */
    ghost predicate WellFormed(n: nat) {
      && |pos| == n
      && (forall k :: 0 <= k < |dense| ==> dense[k] < n && pos[dense[k]] == Some(k))
      && (forall i :: 0 <= i < n && pos[i].Some? ==> pos[i].value < |dense| && dense[pos[i].value] == i)
    }

    predicate Contains(i: nat) { i < |pos| && pos[i].Some? }

    /** mark_healthy, mark_probing. */
    function Add(i: nat): (r: (Index, bool))
      requires i < |pos|
      ensures |r.0.pos| == |pos| && r.1 == !Contains(i)
      ensures WellFormed(|pos|) ==> r.0.WellFormed(|pos|)
      ensures forall j: nat :: r.0.Contains(j) <==> Contains(j) || j == i
    {
      if pos[i].Some? then (this, false)
      else (Index(dense + [i], pos[i := Some(|dense|)]), true)
    }

    /** mark_unhealthy, mark_not_probing (without the cursor). */
    function Remove(i: nat): (r: (Index, bool))
      requires WellFormed(|pos|) && i < |pos|
      ensures |r.0.pos| == |pos| && r.1 == Contains(i)
      ensures r.0.WellFormed(|pos|)
      ensures forall j: nat :: r.0.Contains(j) <==> Contains(j) && j != i
    {
      if pos[i].None? then (this, false)
      else
        var at := pos[i].value;
        var rest := SwapRemoved(dense, at);
        var moved := if at < |rest| then pos[rest[at] := Some(at)] else pos;
        (Index(rest, moved[i := None]), dense[at] == i)
    }
  }

  // ---- Pool ----

  datatype Pool = Pool(
    backends: seq<Backend>,
    healthy: Index,
    probing: Index,
    epoch: nat,
    earliest: Option<int>,
    cursor: nat)
  {
    /** The index tables fit the backend table and invert each other. */
    ghost predicate Shaped() {
      healthy.WellFormed(|backends|) && probing.WellFormed(|backends|)
    }

    /** An index lists exactly the backends in its state. */
    ghost predicate Agrees() {
      && Shaped()
      && (forall i :: 0 <= i < |backends| ==> (healthy.Contains(i) <==> backends[i].health.Healthy?))
      && (forall i :: 0 <= i < |backends| ==> (probing.Contains(i) <==> backends[i].health.Probing?))
    }
  }

  /** Outcome of a pool operation; `held` is false when some evaluated `debug_assert!` failed. */
  datatype Marked = Marked(pool: Pool, transition: Option<Transition>, held: bool)

  function EarlierOf(e: Option<int>, until: int): Option<int> {
    if e.None? then Some(until) else Some(Min(e.value, until))
  }

  /** No index has moved. */
  ghost predicate Frozen(p: Pool, q: Pool) { q.healthy == p.healthy && q.probing == p.probing }

  /** Follow a change of backend `i` to `b` in the healthy index, bumping the epoch. */
  function FollowHealthy(p: Pool, i: nat, b: Backend, debug: bool): (r: (Pool, bool))
    requires p.Shaped() && i < |p.backends|
    ensures r.0.Shaped()
    ensures r.0 == p.(healthy := r.0.healthy, epoch := r.0.epoch)
  {
    if p.backends[i].health.Healthy? == b.health.Healthy? then (p, true)
    else
      var (ix, ok) := if !debug then (p.healthy, true)
                      else if b.health.Healthy? then p.healthy.Add(i)
                      else p.healthy.Remove(i);
      (p.(healthy := ix, epoch := (p.epoch + 1) % U64_COUNT), ok)
  }

  /** Follow the same change in the probing index, keeping the cursor in range on removal. */
  function FollowProbing(p: Pool, i: nat, b: Backend, debug: bool): (r: (Pool, bool))
    requires p.Shaped() && i < |p.backends|
    ensures r.0.Shaped()
    ensures r.0 == p.(probing := r.0.probing, cursor := r.0.cursor)
  {
    if p.backends[i].health.Probing? == b.health.Probing? || !debug then (p, true)
    else if b.health.Probing? then
      var (ix, ok) := p.probing.Add(i);
      (p.(probing := ix), ok)
    else
      var (ix, ok) := p.probing.Remove(i);
      var cursor := if !ok then p.cursor else if |ix.dense| == 0 then 0 else p.cursor % |ix.dense|;
      (p.(probing := ix, cursor := cursor), ok)
  }

  /** Store `b` at `i` after both indexes followed the change. */
  function Follow(p: Pool, i: nat, b: Backend, debug: bool): (r: (Pool, bool))
    requires p.Shaped() && i < |p.backends|
    ensures r.0.Shaped()
    ensures r.0.backends == p.backends[i := b] && r.0.earliest == p.earliest
    ensures !debug ==> Frozen(p, r.0)
  {
    var (p1, ok1) := FollowHealthy(p, i, b, debug);
    var (p2, ok2) := FollowProbing(p1, i, b, debug);
    (p2.(backends := p.backends[i := b]), ok1 && ok2)
  }

  function MarkSuccess(p: Pool, i: nat, now: int, debug: bool): (r: Marked)
    requires p.Shaped()
    ensures r.pool.Shaped() && |r.pool.backends| == |p.backends|
    ensures !debug ==> Frozen(p, r.pool)
  {
    if i >= |p.backends| then Marked(p, None, true)
    else
      var (b, transition) := p.backends[i].RecordSuccess(now);
      var (q, ok) := Follow(p, i, b, debug);
      Marked(q, transition, ok)
  }

  function MarkRequestSuccess(p: Pool, i: nat, now: int, debug: bool): (r: Marked)
    requires p.Shaped()
    ensures r.pool.Shaped() && |r.pool.backends| == |p.backends|
    ensures !debug ==> Frozen(p, r.pool)
  {
    if i >= |p.backends| || p.backends[i].HasActiveCheck() then Marked(p, None, true)
    else MarkSuccess(p, i, now, debug)
  }

  /** A passive backend that has just left Healthy or Probing has its expiry cached. */
  function CacheExpiry(p: Pool, i: nat, b: Backend): Option<int>
    requires i < |p.backends|
  {
    var a := p.backends[i];
    if b.HasActiveCheck() || !b.health.Unhealthy? || a.health.Unhealthy? then p.earliest
    else EarlierOf(p.earliest, b.health.until)
  }

  function MarkFailure(p: Pool, i: nat, now: int, debug: bool): (r: Marked)
    requires p.Shaped()
    ensures r.pool.Shaped() && |r.pool.backends| == |p.backends|
    ensures !debug ==> Frozen(p, r.pool)
  {
    if i >= |p.backends| then Marked(p, None, true)
    else
      var (b, transition) := p.backends[i].RecordFailure(now);
      var (q, ok) := Follow(p, i, b, debug);
      Marked(q.(earliest := CacheExpiry(p, i, b)), transition, ok)
  }

  function MarkRequestFailure(p: Pool, i: nat, now: int, debug: bool): (r: Marked)
    requires p.Shaped()
    ensures r.pool.Shaped() && |r.pool.backends| == |p.backends|
    ensures !debug ==> Frozen(p, r.pool)
  {
    if i < |p.backends| && p.backends[i].HasActiveCheck() then Marked(p, None, true)
    else MarkFailure(p, i, now, debug)
  }

  /** One pass of the re-admission loop from backend `k`, with `next` the soonest expiry left so far. */
  function ReadmitFrom(p: Pool, k: nat, now: int, next: Option<int>, debug: bool): (r: (Pool, bool))
    requires p.Shaped() && k <= |p.backends|
    ensures r.0.Shaped() && |r.0.backends| == |p.backends|
    ensures !debug ==> Frozen(p, r.0)
    decreases |p.backends| - k
  {
    if k == |p.backends| then (p.(earliest := next), true)
    else if p.backends[k].HasActiveCheck() then ReadmitFrom(p, k + 1, now, next, debug)
    else
      var (b, expired) := p.backends[k].ReadmitIfExpired(now);
      if expired then
        var (q, ok) := Follow(p, k, b, debug);
        var (r, rest) := ReadmitFrom(q, k + 1, now, next, debug);
        (r, ok && rest)
      else if b.health.Unhealthy? then ReadmitFrom(p, k + 1, now, EarlierOf(next, b.health.until), debug)
      else ReadmitFrom(p, k + 1, now, next, debug)
  }

  function ReconcileReadmit(p: Pool, now: int, debug: bool): (r: (Pool, bool))
    requires p.Shaped()
    ensures r.0.Shaped() && |r.0.backends| == |p.backends|
    ensures !debug ==> Frozen(p, r.0)
  {
    if p.earliest.None? || now < p.earliest.value then (p, true)
    else ReadmitFrom(p, 0, now, None, debug)
  }

  /** A probing backend may be selected when nothing is in flight on it and budget is left. */
  predicate Selectable(b: Backend) {
    b.active == 0 && b.health.Probing? && b.health.remainingBudget > 0
  }

  /** First selectable position in rotation order from `start`, trying `offset` and on. */
  function ScanProbing(p: Pool, start: nat, offset: nat): (r: Option<nat>)
    requires p.Shaped() && |p.probing.dense| > 0 && offset <= |p.probing.dense|
    ensures r.Some? ==> r.value < |p.probing.dense| && Selectable(p.backends[p.probing.dense[r.value]])
    decreases |p.probing.dense| - offset
  {
    var n := |p.probing.dense|;
    if offset == n then None
    else
      var at := (start + offset) % n;
      if Selectable(p.backends[p.probing.dense[at]]) then Some(at)
      else ScanProbing(p, start, offset + 1)
  }

  function BeginRequest(p: Pool, i: nat): (r: Pool)
    requires p.Shaped()
    ensures r.Shaped() && |r.backends| == |p.backends| && Frozen(p, r)
  {
    if i >= |p.backends| then p
    else p.(backends := p.backends[i := p.backends[i].(active := p.backends[i].active + 1)])
  }

  function FinishRequest(p: Pool, i: nat): (r: Pool)
    requires p.Shaped()
    ensures r.Shaped() && |r.backends| == |p.backends| && Frozen(p, r)
  {
    if i >= |p.backends| then p
    else p.(backends := p.backends[i := p.backends[i].(active := Max(p.backends[i].active - 1, 0))])
  }

  function PickProbing(p: Pool, begin: bool): (r: (Pool, Option<nat>))
    requires p.Shaped()
    ensures r.0.Shaped() && |r.0.backends| == |p.backends| && Frozen(p, r.0)
  {
    var n := |p.probing.dense|;
    if n == 0 then (p, None)
    else
      var found := ScanProbing(p, p.cursor % n, 0);
      if found.None? then (p, None)
      else
        var i := p.probing.dense[found.value];
        var q := p.(backends := p.backends[i := p.backends[i].TryAcquireProbePermit().0],
                    cursor := found.value + 1);
        (if begin then BeginRequest(q, i) else q, Some(i))
  }

  datatype Picked = Picked(pool: Pool, selected: Option<nat>, probe: bool, held: bool)

  /**
    UpstreamPool::pick (`begin`) and pick_without_begin (`!begin`). `choice` is what the
    load-balancing strategy would return.
   */
  function Pick(p: Pool, now: int, choice: Option<nat>, begin: bool, debug: bool): (r: Picked)
    requires p.Shaped()
    ensures r.pool.Shaped() && |r.pool.backends| == |p.backends|
    ensures !debug ==> Frozen(p, r.pool)
  {
    var (q, ok) := ReconcileReadmit(p, now, debug);
    var (r, selected) := PickProbing(q, begin);
    if selected.Some? then Picked(r, selected, true, ok)
    else if choice.None? then Picked(r, None, false, ok)
    else Picked(if begin then BeginRequest(r, choice.value) else r, choice, false, ok)
  }

  function PositionsUpTo(backends: seq<Backend>, k: nat): (r: Index)
    requires k <= |backends|
    ensures |r.pos| == |backends| && r.WellFormed(|backends|)
    ensures forall i :: 0 <= i < |backends| ==> (r.Contains(i) <==> i < k && backends[i].health.Healthy?)
  {
    if k == 0 then Index([], seq(|backends|, _ => None))
    else
      var ix := PositionsUpTo(backends, k - 1);
      if backends[k - 1].health.Healthy? then ix.Add(k - 1).0 else ix
  }

  function NewFromStates(backends: seq<Backend>): (r: Pool)
    ensures r.Shaped() && r.backends == backends
    ensures (forall b <- backends :: b.health.Healthy?) ==> r.Agrees()
  {
    Pool(backends, PositionsUpTo(backends, |backends|),
         Index([], seq(|backends|, _ => None)), 0, None, 0)
  }

  /** Upkeep in a debug build keeps agreement, and its assertions hold. */
  lemma FollowAgrees(p: Pool, i: nat, b: Backend)
    requires p.Agrees() && i < |p.backends|
    ensures Follow(p, i, b, true).0.Agrees() && Follow(p, i, b, true).1
  {
  }
}
