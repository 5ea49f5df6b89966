/**
  The pool as it runs: objects updated in place, in a build with debug assertions. Every method
  is proved to do to the abstract value `View()` what the function of the same name in `Health`
  and `PoolModel` does, so the run theorems speak about these objects.
 */
module BackendPool {
  import opened Prelude
  import opened Health
  import opened PoolModel

  class BackendState {
    const check: Option<HealthCheck>
    var failures: u32
    var health: HealthState
    var active: nat

    ghost function View(): Backend
      reads this
    {
      Backend(check, failures, health, active)
    }

    constructor (check: Option<HealthCheck>)
      ensures View() == NewBackend(check)
    {
      this.check := check;
      failures := 0;
      health := Healthy;
      active := 0;
    }

    function HasActiveCheck(): bool
      ensures HasActiveCheck() <==> Backend(check, 0, Healthy, 0).HasActiveCheck()
    {
      check.Some? && check.value.interval > 0
    }

    function SuccessThreshold(): u32
      ensures SuccessThreshold() == Backend(check, 0, Healthy, 0).SuccessThreshold()
    {
      if check.None? then 1 else Max(check.value.successThreshold, 1)
    }

    method RecordProbingSuccess() returns (t: Option<Transition>)
      modifies this
      ensures (View(), t) == old(View()).RecordProbingSuccess()
    {
      if !health.Probing? {
        return None;
      }
      var next := SaturatingSucc32(health.successes);
      if next >= SuccessThreshold() {
        failures := 0;
        health := Healthy;
        return Some(BecameHealthy);
      }
      health := Probing(next, health.remainingBudget);
      return None;
    }

    method RecordSuccess(now: int) returns (t: Option<Transition>)
      modifies this
      ensures (View(), t) == old(View()).RecordSuccess(now)
    {
      match health
      case Healthy =>
        failures := 0;
        t := None;
      case Unhealthy(until) =>
        if now < until {
          return None;
        }
        failures := 0;
        health := Probing(0, SuccessThreshold());
        t := RecordProbingSuccess();
      case Probing(_, _) =>
        t := RecordProbingSuccess();
    }

    method RecordFailure(now: int) returns (t: Option<Transition>)
      modifies this
      ensures (View(), t) == old(View()).RecordFailure(now)
    {
      var cooldown := if check.None? then 10_000 else check.value.cooldownMs;
      if health.Probing? {
        failures := 0;
        health := Unhealthy(now + cooldown);
        return None;
      }
      failures := SaturatingSucc32(failures);
      var threshold := if check.None? then 3 else check.value.failureThreshold;
      if failures < threshold {
        return None;
      }
      failures := 0;
      health := Unhealthy(now + cooldown);
      return Some(BecameUnhealthy);
    }

    method ReadmitIfExpired(now: int) returns (expired: bool)
      modifies this
      ensures (View(), expired) == old(View()).ReadmitIfExpired(now)
    {
      if health.Unhealthy? && now >= health.until {
        failures := 0;
        health := Probing(0, SuccessThreshold());
        return true;
      }
      return false;
    }

    method TryAcquireProbePermit() returns (granted: bool)
      modifies this
      ensures (View(), granted) == old(View()).TryAcquireProbePermit()
    {
      if health.Probing? && health.remainingBudget > 0 {
        health := Probing(health.successes, health.remainingBudget - 1);
        return true;
      }
      return false;
    }
  }

  ghost predicate Distinct(backends: seq<BackendState>) {
    forall i, j :: 0 <= i < j < |backends| ==> backends[i] != backends[j]
  }

  class BackendPool {
    const backends: seq<BackendState>
    var healthy: seq<nat>
    var healthyPos: seq<Option<nat>>
    var probing: seq<nat>
    var probingPos: seq<Option<nat>>
    var epoch: nat
    var earliest: Option<int>
    var cursor: nat

    ghost function Backends(): (r: seq<Backend>)
      reads backends
      ensures |r| == |backends|
    {
      seq(|backends|, i requires 0 <= i < |backends| reads backends => backends[i].View())
    }

    ghost function HealthyIndex(): Index
      reads this
    {
      Index(healthy, healthyPos)
    }

    ghost function ProbingIndex(): Index
      reads this
    {
      Index(probing, probingPos)
    }

    ghost function View(): Pool
      reads this, backends
    {
      Pool(Backends(), HealthyIndex(), ProbingIndex(), epoch, earliest, cursor)
    }

    /** Backends are owned: no two slots share an object. */
    ghost predicate Owned() { Distinct(backends) }

    ghost predicate Valid()
      reads this, backends
    {
      Owned() && View().Agrees()
    }

    method MarkHealthy(index: nat) returns (ok: bool)
      requires |healthyPos| == |backends|
      modifies this`healthy, this`healthyPos
      ensures if index < |backends| then (HealthyIndex(), ok) == old(HealthyIndex().Add(index))
              else (HealthyIndex(), ok) == (old(HealthyIndex()), false)
    {
      if index >= |backends| || healthyPos[index].Some? {
        return false;
      }
      var pos := |healthy|;
      healthy := healthy + [index];
      healthyPos := healthyPos[index := Some(pos)];
      return true;
    }

    method MarkProbing(index: nat) returns (ok: bool)
      requires |probingPos| == |backends|
      modifies this`probing, this`probingPos
      ensures if index < |backends| then (ProbingIndex(), ok) == old(ProbingIndex().Add(index))
              else (ProbingIndex(), ok) == (old(ProbingIndex()), false)
    {
      if index >= |backends| || probingPos[index].Some? {
        return false;
      }
      var pos := |probing|;
      probing := probing + [index];
      probingPos := probingPos[index := Some(pos)];
      return true;
    }

    method MarkUnhealthy(index: nat) returns (ok: bool)
      requires HealthyIndex().WellFormed(|backends|)
      modifies this`healthy, this`healthyPos
      ensures if index < |backends| then (HealthyIndex(), ok) == old(HealthyIndex().Remove(index))
              else (HealthyIndex(), ok) == (old(HealthyIndex()), false)
    {
      if index >= |backends| || healthyPos[index].None? {
        return false;
      }
      var pos := healthyPos[index].value;
      var removed := healthy[pos];
      healthy := healthy[pos := healthy[|healthy| - 1]][..|healthy| - 1];
      assert removed == index;
      assert healthy == SwapRemoved(old(healthy), pos);
      if pos < |healthy| {
        var moved := healthy[pos];
        healthyPos := healthyPos[moved := Some(pos)];
      }
      healthyPos := healthyPos[index := None];
      return true;
    }

    method MarkNotProbing(index: nat) returns (ok: bool)
      requires ProbingIndex().WellFormed(|backends|)
      modifies this`probing, this`probingPos, this`cursor
      ensures if index < |backends| then (ProbingIndex(), ok) == old(ProbingIndex().Remove(index))
              else (ProbingIndex(), ok) == (old(ProbingIndex()), false)
      ensures cursor == if !ok then old(cursor) else if |probing| == 0 then 0 else old(cursor) % |probing|
    {
      if index >= |backends| || probingPos[index].None? {
        return false;
      }
      var pos := probingPos[index].value;
      var removed := probing[pos];
      probing := probing[pos := probing[|probing| - 1]][..|probing| - 1];
      assert removed == index;
      assert probing == SwapRemoved(old(probing), pos);
      if pos < |probing| {
        var moved := probing[pos];
        probingPos := probingPos[moved := Some(pos)];
      }
      probingPos := probingPos[index := None];
      if |probing| == 0 {
        cursor := 0;
      } else {
        cursor := cursor % |probing|;
      }
      return true;
    }

    constructor NewFromStates(states: seq<BackendState>)
      requires Distinct(states)
      ensures backends == states && Owned()
      ensures View() == PoolModel.NewFromStates(Backends())
    {
      backends := states;
      healthy := [];
      healthyPos := seq(|states|, _ => None);
      probing := [];
      probingPos := seq(|states|, _ => None);
      epoch := 0;
      earliest := None;
      cursor := 0;
      new;
      FillHealthy();
    }

    /** The constructor's loop: list the healthy backends in order. */
    method FillHealthy()
      requires HealthyIndex() == Index([], seq(|backends|, _ => None))
      modifies this`healthy, this`healthyPos
      ensures HealthyIndex() == PositionsUpTo(Backends(), |backends|)
    {
      for index := 0 to |backends|
        invariant HealthyIndex() == PositionsUpTo(Backends(), index)
      {
        assert backends[index].View() == Backends()[index];
        if backends[index].health.Healthy? {
          var pos := |healthy|;
          healthyPos := healthyPos[index := Some(pos)];
          healthy := healthy + [index];
        }
      }
    }

    /** Healthy-index upkeep after backend `index` changed; `was` is the pool before the change. */
    method FollowHealthy(index: nat, wasHealthy: bool, ghost was: Pool)
      requires was.Agrees() && |was.backends| == |backends| && index < |backends|
      requires HealthyIndex() == was.healthy && epoch == was.epoch
      requires wasHealthy == was.backends[index].health.Healthy?
      modifies this`healthy, this`healthyPos, this`epoch
      ensures var (q, ok) := PoolModel.FollowHealthy(was, index, backends[index].View(), true);
              ok && HealthyIndex() == q.healthy && epoch == q.epoch
    {
      var isHealthy := backends[index].health.Healthy?;
      if wasHealthy != isHealthy {
        if isHealthy {
          var ok := MarkHealthy(index);
          assert ok;
        } else {
          var ok := MarkUnhealthy(index);
          assert ok;
        }
        epoch := (epoch + 1) % U64_COUNT;
      }
    }

    /** Probing-index upkeep after the same change. */
    method FollowProbing(index: nat, wasProbing: bool, ghost was: Pool)
      requires was.Agrees() && |was.backends| == |backends| && index < |backends|
      requires ProbingIndex() == was.probing && cursor == was.cursor
      requires wasProbing == was.backends[index].health.Probing?
      modifies this`probing, this`probingPos, this`cursor
      ensures var (q, ok) := PoolModel.FollowProbing(was, index, backends[index].View(), true);
              ok && ProbingIndex() == q.probing && cursor == q.cursor
    {
      var isProbing := backends[index].health.Probing?;
      if wasProbing != isProbing {
        if isProbing {
          var ok := MarkProbing(index);
          assert ok;
        } else {
          var ok := MarkNotProbing(index);
          assert ok;
        }
      }
    }

    /** Both indexes follow the change of one backend. */
    method Reindex(index: nat, wasHealthy: bool, wasProbing: bool, ghost was: Pool)
      requires was.Agrees() && index < |was.backends| == |backends|
      requires View() == was.(backends := was.backends[index := backends[index].View()])
      requires wasHealthy == was.backends[index].health.Healthy?
      requires wasProbing == was.backends[index].health.Probing?
      modifies this`healthy, this`healthyPos, this`epoch, this`probing, this`probingPos, this`cursor
      ensures PoolModel.Follow(was, index, backends[index].View(), true) == (View(), true)
    {
      FollowHealthy(index, wasHealthy, was);
      FollowProbing(index, wasProbing, was);
    }

    method MarkSuccess(index: nat, now: int) returns (transition: Option<Transition>)
      requires Valid()
      modifies this, backends
      ensures Valid()
      ensures PoolModel.MarkSuccess(old(View()), index, now, true) == Marked(View(), transition, true)
    {
      if index >= |backends| {
        return None;
      }
      ghost var was := View();
      var wasHealthy, wasProbing := backends[index].health.Healthy?, backends[index].health.Probing?;
      transition := backends[index].RecordSuccess(now);
      assert Backends() == was.backends[index := backends[index].View()];
      Reindex(index, wasHealthy, wasProbing, was);
      FollowAgrees(was, index, backends[index].View());
    }

    method MarkRequestSuccess(index: nat, now: int) returns (transition: Option<Transition>)
      requires Valid()
      modifies this, backends
      ensures Valid()
      ensures PoolModel.MarkRequestSuccess(old(View()), index, now, true) == Marked(View(), transition, true)
    {
      if index >= |backends| || backends[index].HasActiveCheck() {
        return None;
      }
      transition := MarkSuccess(index, now);
    }

    method MarkFailure(index: nat, now: int) returns (transition: Option<Transition>)
      requires Valid()
      modifies this, backends
      ensures Valid()
      ensures PoolModel.MarkFailure(old(View()), index, now, true) == Marked(View(), transition, true)
    {
      if index >= |backends| {
        return None;
      }
      ghost var was := View();
      var wasHealthy, wasProbing := backends[index].health.Healthy?, backends[index].health.Probing?;
      transition := backends[index].RecordFailure(now);
      assert Backends() == was.backends[index := backends[index].View()];
      Reindex(index, wasHealthy, wasProbing, was);
      FollowAgrees(was, index, backends[index].View());
      ghost var followed := View();
      CacheExpiry(index, wasHealthy || wasProbing);
      assert View() == followed.(earliest := earliest);
      CachingAgrees(followed, earliest);
      hide Follow, Pool.Agrees;
    }

    method CacheExpiry(index: nat, changed: bool)
      requires index < |backends|
      modifies this`earliest
      ensures var b := backends[index].View();
              earliest == if changed && !b.HasActiveCheck() && b.health.Unhealthy?
                          then EarlierOf(old(earliest), b.health.until) else old(earliest)
    {
      var b := backends[index];
      if changed && !b.HasActiveCheck() && b.health.Unhealthy? {
        earliest := EarlierOf(earliest, b.health.until);
      }
    }

    method MarkRequestFailure(index: nat, now: int) returns (transition: Option<Transition>)
      requires Valid()
      modifies this, backends
      ensures Valid()
      ensures PoolModel.MarkRequestFailure(old(View()), index, now, true) == Marked(View(), transition, true)
    {
      if index < |backends| && backends[index].HasActiveCheck() {
        return None;
      }
      transition := MarkFailure(index, now);
    }

    /** One backend of the re-admission pass. */
    method ReadmitAt(index: nat, now: int) returns (expired: bool)
      requires Valid() && index < |backends|
      modifies this, backends
      ensures Valid()
      ensures old(backends[index].View()).ReadmitIfExpired(now) == (backends[index].View(), expired)
      ensures !expired ==> View() == old(View())
      ensures expired ==> Follow(old(View()), index, backends[index].View(), true) == (View(), true)
    {
      ghost var was := View();
      assert was.backends[index] == backends[index].View();
      expired := backends[index].ReadmitIfExpired(now);
      assert Backends() == was.backends[index := backends[index].View()];
      if expired {
        FollowAgrees(was, index, backends[index].View());
        var ok := MarkProbing(index);
        assert ok;
      }
    }

    /** One turn of the re-admission loop; `next` is the soonest expiry left so far. */
    method ReadmitTurn(index: nat, now: int, next: Option<int>) returns (later: Option<int>)
      requires Valid() && index < |backends|
      modifies this, backends
      ensures Valid()
      ensures ReadmitFrom(old(View()), index, now, next, true) == ReadmitFrom(View(), index + 1, now, later, true)
    {
      assert backends[index].View() == Backends()[index];
      later := next;
      if !backends[index].HasActiveCheck() {
        var expired := ReadmitAt(index, now);
        assert backends[index].View() == Backends()[index];
        hide Follow;
        if !expired && backends[index].health.Unhealthy? {
          later := EarlierOf(next, backends[index].health.until);
        }
      }
    }

    method ReconcileReadmit(now: int)
      requires Valid()
      modifies this, backends
      ensures Valid()
      ensures PoolModel.ReconcileReadmit(old(View()), now, true) == (View(), true)
    {
      if earliest.None? || now < earliest.value {
        return;
      }
      hide ReadmitFrom, Index.WellFormed, Index.Contains;
      var next := ReadmitAll(now);
      ghost var done := View();
      ReadmitEnds(done, now, next);
      CachingAgrees(done, next);
      earliest := next;
      assert View() == done.(earliest := next);
    }

    /** The re-admission loop; returns the soonest expiry left. */
    method ReadmitAll(now: int) returns (next: Option<int>)
      requires Valid()
      modifies this, backends
      ensures Valid()
      ensures ReadmitFrom(old(View()), 0, now, None, true) == ReadmitFrom(View(), |backends|, now, next, true)
    {
      hide ReadmitFrom, Index.WellFormed, Index.Contains;
      next := None;
      for index := 0 to |backends|
        invariant Valid()
        invariant ReadmitFrom(old(View()), 0, now, None, true) == ReadmitFrom(View(), index, now, next, true)
      {
        next := ReadmitTurn(index, now, next);
      }
    }

    method BeginRequest(index: nat)
      requires Valid()
      modifies backends
      ensures Valid() && View() == PoolModel.BeginRequest(old(View()), index)
    {
      if index < |backends| {
        ghost var was := View();
        backends[index].active := backends[index].active + 1;
        assert Backends() == was.backends[index := backends[index].View()];
      }
    }

    method FinishRequest(index: nat)
      requires Valid()
      modifies backends
      ensures Valid() && View() == PoolModel.FinishRequest(old(View()), index)
    {
      if index < |backends| {
        ghost var was := View();
        backends[index].active := Max(backends[index].active - 1, 0);
        assert Backends() == was.backends[index := backends[index].View()];
      }
    }

    /** The rotating scan: the position whose backend was granted a permit, if any. */
    method ScanProbing(start: nat) returns (found: Option<nat>)
      requires Valid() && |probing| > 0
      modifies backends
      ensures Owned() && found == PoolModel.ScanProbing(old(View()), start, 0)
      ensures found.None? ==> Backends() == old(Backends())
      ensures found.Some? ==> found.value < |probing| && probing[found.value] < |backends|
      ensures found.Some? ==> var i := probing[found.value];
              Backends() == old(Backends())[i := old(Backends())[i].TryAcquireProbePermit().0]
    {
      found := None;
      for offset := 0 to |probing|
        invariant found.None? && Backends() == old(Backends())
        invariant PoolModel.ScanProbing(old(View()), start, 0) == PoolModel.ScanProbing(old(View()), start, offset)
      {
        var at := (start + offset) % |probing|;
        var index := probing[at];
        assert backends[index].View() == Backends()[index] == old(View()).backends[index];
        if backends[index].active == 0 {
          var granted := backends[index].TryAcquireProbePermit();
          assert Backends() == old(Backends())[index := backends[index].View()];
          if granted {
            return Some(at);
          }
        }
      }
    }

    /** Grant a permit to the first selectable probing backend, and move the cursor past it. */
    method GrantProbe() returns (selected: Option<nat>)
      requires Valid()
      modifies this`cursor, backends
      ensures Valid()
      ensures PoolModel.PickProbing(old(View()), false) == (View(), selected)
    {
      hide PoolModel.ScanProbing, Index.WellFormed;
      if |probing| == 0 {
        return None;
      }
      ghost var was := View();
      var start := cursor % |probing|;
      var found := ScanProbing(start);
      if found.None? {
        assert View() == was;
        return None;
      }
      cursor := found.value + 1;
      PermitKeepsAgreement(was, probing[found.value], cursor);
      assert View() == was.(backends := Backends(), cursor := cursor);
      selected := Some(probing[found.value]);
    }

    method PickProbing(begin: bool) returns (selected: Option<nat>)
      requires Valid()
      modifies this, backends
      ensures Valid()
      ensures PoolModel.PickProbing(old(View()), begin) == (View(), selected)
    {
      hide PoolModel.ScanProbing, Index.WellFormed;
      selected := GrantProbe();
      if begin && selected.Some? {
        BeginRequest(selected.value);
      }
    }
  }

  /** UpstreamPool: the operations the rest of the program may use. */
  class UpstreamPool {
    const pool: BackendPool

    constructor (states: seq<BackendState>)
      requires Distinct(states)
      requires forall b <- states :: b.health.Healthy?
      ensures pool.Valid() && pool.backends == states
      ensures pool.View() == PoolModel.NewFromStates(pool.Backends())
    {
      pool := new BackendPool.NewFromStates(states);
      new;
      assert forall b <- pool.Backends() :: b.health.Healthy?;
    }

    /** `choice` is the answer of the load-balancing strategy. */
    method Pick(now: int, choice: Option<nat>, begin: bool) returns (selected: Option<nat>)
      requires pool.Valid()
      modifies pool, pool.backends
      ensures pool.Valid()
      ensures var k := PoolModel.Pick(old(pool.View()), now, choice, begin, true);
              pool.View() == k.pool && selected == k.selected && k.held
    {
      pool.ReconcileReadmit(now);
      selected := pool.PickProbing(begin);
      if selected.Some? || choice.None? {
        return;
      }
      if begin {
        pool.BeginRequest(choice.value);
      }
      selected := choice;
    }

    method BeginRequestIfHealthy(index: nat) returns (begun: bool)
      requires pool.Valid()
      modifies pool.backends
      ensures pool.Valid() && begun == old(pool.HealthyIndex().Contains(index))
      ensures pool.View() == if begun then PoolModel.BeginRequest(old(pool.View()), index) else old(pool.View())
    {
      begun := index < |pool.healthyPos| && pool.healthyPos[index].Some?;
      if begun {
        pool.BeginRequest(index);
      }
    }
  }

  lemma ReadmitEnds(p: Pool, now: int, next: Option<int>)
    requires p.Shaped()
    ensures ReadmitFrom(p, |p.backends|, now, next, true) == (p.(earliest := next), true)
  {
  }

  lemma CachingAgrees(p: Pool, earliest: Option<int>)
    requires p.Agrees()
    ensures p.(earliest := earliest).Agrees()
  {
  }

  lemma PermitKeepsAgreement(p: Pool, i: nat, cursor: nat)
    requires p.Agrees() && i < |p.backends|
    ensures p.(backends := p.backends[i := p.backends[i].TryAcquireProbePermit().0], cursor := cursor).Agrees()
  {
  }
}
