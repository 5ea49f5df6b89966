/** What a pool run does to one backend: a run of the single-backend automaton. */
module BackendRuns {
  import opened Prelude
  import opened Health
  import opened PoolModel
  import opened PoolRuns

  /** What one pool operation means for one backend. */
  datatype Act = Idle | Succeed | Fail | Readmit | Grant

  datatype TimedAct = On(now: int, act: Act)

  /** Re-admission reaches passive backends only. */
  function Readmitted(b: Backend, now: int): Backend {
    if b.HasActiveCheck() then b else b.ReadmitIfExpired(now).0
  }

  function Advance(b: Backend, a: TimedAct): Backend {
    match a.act
    case Idle => b
    case Succeed => b.RecordSuccess(a.now).0
    case Fail => b.RecordFailure(a.now).0
    case Readmit => Readmitted(b, a.now)
    case Grant => Readmitted(b, a.now).TryAcquireProbePermit().0
  }

  /** The request counter is irrelevant to health. */
  function Quiet(b: Backend): Backend { b.(active := 0) }

  function ActOn(p: Pool, e: Timed, i: nat): Act
    requires p.Shaped() && i < |p.backends|
  {
    var passive := !p.backends[i].HasActiveCheck();
    match e.event
    case ActiveSuccess(j) => if j == i then Succeed else Idle
    case ActiveFailure(j) => if j == i then Fail else Idle
    case RequestSuccess(j) => if j == i && passive then Succeed else Idle
    case RequestFailure(j) => if j == i && passive then Fail else Idle
    case ObservedFailure(j, classified) => if j == i && passive && classified then Fail else Idle
    case PickBegin(c) => if Probes(p, e, c, true, i) then Grant else Readmit
    case PickOnly(c) => if Probes(p, e, c, false, i) then Grant else Readmit
    case Reconcile => Readmit
    case _ => Idle
  }

  /** The pick hands a probe permit of backend `i` to its request. */
  predicate Probes(p: Pool, e: Timed, choice: Option<nat>, begin: bool, i: nat)
    requires p.Shaped()
  {
    var k := Pick(p, e.now, choice, begin, true);
    k.probe && k.selected == Some(i)
  }

  lemma {:induction false} ReadmitFromAt(p: Pool, k: nat, now: int, next: Option<int>, i: nat)
    requires p.Shaped() && k <= |p.backends| && i < |p.backends|
    ensures ReadmitFrom(p, k, now, next, true).0.backends[i]
            == if i < k then p.backends[i] else Readmitted(p.backends[i], now)
    decreases |p.backends| - k
  {
    if k == |p.backends| {
    } else {
      var (b, expired) := p.backends[k].ReadmitIfExpired(now);
      if p.backends[k].HasActiveCheck() {
        ReadmitFromAt(p, k + 1, now, next, i);
      } else if expired {
        ReadmitFromAt(Follow(p, k, b, true).0, k + 1, now, next, i);
      } else if b.health.Unhealthy? {
        ReadmitFromAt(p, k + 1, now, EarlierOf(next, b.health.until), i);
      } else {
        ReadmitFromAt(p, k + 1, now, next, i);
      }
    }
  }

  /** The early return of the re-admission pass skips nobody. */
  lemma ReconcileAt(p: Pool, now: int, i: nat)
    requires p.Shaped() && NoneForgotten(p) && i < |p.backends|
    ensures ReconcileReadmit(p, now, true).0.backends[i] == Readmitted(p.backends[i], now)
  {
    if p.earliest.Some? && p.earliest.value <= now {
      ReadmitFromAt(p, 0, now, None, i);
    }
  }

  lemma PickAt(p: Pool, e: Timed, choice: Option<nat>, begin: bool, i: nat)
    requires p.Shaped() && NoneForgotten(p) && i < |p.backends|
    ensures Quiet(Pick(p, e.now, choice, begin, true).pool.backends[i])
            == Quiet(Advance(p.backends[i], On(e.now, if Probes(p, e, choice, begin, i) then Grant else Readmit)))
    ensures Probes(p, e, choice, begin, i) ==> Selectable(Readmitted(p.backends[i], e.now))
  {
    ReconcileAt(p, e.now, i);
  }

  lemma MarkActs(p: Pool, e: Timed, i: nat)
    requires p.Shaped() && i < |p.backends|
    requires !e.event.PickBegin? && !e.event.PickOnly? && !e.event.Reconcile?
    ensures Quiet(Step(p, e, true).backends[i]) == Quiet(Advance(p.backends[i], On(e.now, ActOn(p, e, i))))
  {
  }

  /** One pool operation does to backend `i` exactly what its act says. */
  lemma StepActs(p: Pool, e: Timed, i: nat)
    requires p.Shaped() && NoneForgotten(p) && i < |p.backends|
    ensures Quiet(Step(p, e, true).backends[i]) == Quiet(Advance(p.backends[i], On(e.now, ActOn(p, e, i))))
    ensures ActOn(p, e, i).Grant? ==> p.backends[i].active == 0 && HasPermit(Readmitted(p.backends[i], e.now))
  {
    hide Pick, ReconcileReadmit;
    match e.event
    case PickBegin(c) => PickAt(p, e, c, true, i);
    case PickOnly(c) => PickAt(p, e, c, false, i);
    case Reconcile => ReconcileAt(p, e.now, i);
    case _ => MarkActs(p, e, i);
  }

  // ---- One backend along a run ----

  /** The act of operation `k` on backend `i`, with its clock reading. */
  function ActAt(ps: seq<Pool>, es: seq<Timed>, i: nat, k: nat): TimedAct
    requires |ps| == |es| + 1 && k < |es| && ps[k].Shaped() && i < |ps[k].backends|
  {
    On(es[k].now, ActOn(ps[k], es[k], i))
  }

  /** The run of backend `i` inside a pool run: its states and the acts between them. */
  ghost predicate Follows(bs: seq<Backend>, acts: seq<TimedAct>) {
    |bs| == |acts| + 1 && forall k :: 0 <= k < |acts| ==> AdvancesAt(bs, acts, k)
  }

  ghost predicate AdvancesAt(bs: seq<Backend>, acts: seq<TimedAct>, k: nat) {
    && k < |acts| && |bs| == |acts| + 1
    && bs[k + 1] == Advance(bs[k], acts[k])
    && (acts[k].act.Grant? ==> HasPermit(Readmitted(bs[k], acts[k].now)))
  }

  predicate HasPermit(b: Backend) { b.health.Probing? && b.health.remainingBudget > 0 }

  function StatesOf(ps: seq<Pool>, i: nat): (bs: seq<Backend>)
    requires forall p <- ps :: i < |p.backends|
    ensures |bs| == |ps|
  {
    seq(|ps|, k requires 0 <= k < |ps| => Quiet(ps[k].backends[i]))
  }

  function ActsOf(ps: seq<Pool>, es: seq<Timed>, i: nat): (acts: seq<TimedAct>)
    requires |ps| == |es| + 1
    requires forall p <- ps :: p.Shaped() && i < |p.backends|
    ensures |acts| == |es|
  {
    seq(|es|, k requires 0 <= k < |es| => ActAt(ps, es, i, k))
  }

  lemma AdvanceQuiet(b: Backend, a: TimedAct)
    ensures Quiet(Advance(b, a)) == Advance(Quiet(b), a)
  {
  }

  /** Seen from one backend, a pool run is a run of the single-backend automaton from a new backend. */
  lemma Projects(checks: seq<Option<HealthCheck>>, ps: seq<Pool>, es: seq<Timed>, t0: int, i: nat)
    requires Reachable(checks, ps, es, t0, true) && i < |checks|
    ensures Follows(StatesOf(ps, i), ActsOf(ps, es, i))
    ensures StatesOf(ps, i)[0] == NewBackend(checks[i])
  {
    hide Step, ActOn, Advance;
    FreshInv(checks, t0);
    var bs, acts := StatesOf(ps, i), ActsOf(ps, es, i);
    forall k | 0 <= k < |acts| ensures AdvancesAt(bs, acts, k) {
      InvAt(ps, es, t0, k);
      assert StepAt(ps, es, t0, k, true);
      StepActs(ps[k], es[k], i);
      AdvanceQuiet(ps[k].backends[i], acts[k]);
    }
  }
}
