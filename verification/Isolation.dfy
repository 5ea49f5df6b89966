/** Backends with an active check are driven by that check alone. */
module Isolation {
  import opened Prelude
  import opened Health
  import opened PoolModel
  import opened PoolRuns
  import opened BackendRuns

  /** State, success count, failure count and expiry: everything but traffic and probe budget. */
  function Vital(b: Backend): Backend {
    b.(active := 0, health := if b.health.Probing? then Probing(b.health.successes, 0) else b.health)
  }

  predicate IsCheckOf(e: Event, i: nat) {
    (e.ActiveSuccess? || e.ActiveFailure?) && e.i == i
  }

  /** The results of the active checks of backend `i`, with their clock readings. */
  function CheckLog(es: seq<Timed>, i: nat): seq<Timed> {
    if es == [] then []
    else
      var log := CheckLog(es[..|es| - 1], i);
      if IsCheckOf(es[|es| - 1].event, i) then log + [es[|es| - 1]] else log
  }

  function Replay(b: Backend, log: seq<Timed>): Backend {
    if log == [] then b
    else
      var last := log[|log| - 1];
      var c := Replay(b, log[..|log| - 1]);
      Vital(if last.event.ActiveSuccess? then c.RecordSuccess(last.now).0 else c.RecordFailure(last.now).0)
  }

  /** An operation changes the vital state of an actively checked backend only as its checks do. */
  lemma VitalStep(b: Backend, a: TimedAct)
    requires b.HasActiveCheck()
    ensures a.act.Idle? || a.act.Readmit? || a.act.Grant? ==> Vital(Advance(b, a)) == Vital(b)
    ensures a.act.Succeed? ==> Vital(Advance(b, a)) == Vital(Vital(b).RecordSuccess(a.now).0)
    ensures a.act.Fail? ==> Vital(Advance(b, a)) == Vital(Vital(b).RecordFailure(a.now).0)
  {
  }

  lemma ActOfChecked(p: Pool, e: Timed, i: nat)
    requires p.Shaped() && i < |p.backends| && p.backends[i].HasActiveCheck()
    ensures ActOn(p, e, i).Succeed? <==> e.event == ActiveSuccess(i)
    ensures ActOn(p, e, i).Fail? <==> e.event == ActiveFailure(i)
  {
    hide Probes;
  }

  lemma VitalQuiet(b: Backend, c: Backend)
    requires Quiet(b) == Quiet(c)
    ensures Vital(b) == Vital(c)
  {
    assert Vital(b) == Vital(Quiet(b)) && Vital(c) == Vital(Quiet(c));
  }

  lemma {:induction false} VitalIsReplay(
    checks: seq<Option<HealthCheck>>, ps: seq<Pool>, es: seq<Timed>, t0: int, i: nat, k: nat)
    requires Reachable(checks, ps, es, t0, true) && i < |checks| && k <= |es|
    requires checks[i].Some? && checks[i].value.interval > 0
    ensures Vital(ps[k].backends[i]) == Replay(NewBackend(checks[i]), CheckLog(es[..k], i))
  {
    hide Steps, Step, ActOn, Advance, Vital;
    if k == 0 {
      VitalNew(checks[i]);
    } else {
      var m := k - 1;
      VitalIsReplay(checks, ps, es, t0, i, m);
      assert es[..k][..m] == es[..m];
      VitalStepAt(checks, ps, es, t0, i, m);
    }
  }

  lemma VitalNew(check: Option<HealthCheck>)
    ensures Vital(NewBackend(check)) == NewBackend(check)
  {
  }

  lemma VitalStepAt(
    checks: seq<Option<HealthCheck>>, ps: seq<Pool>, es: seq<Timed>, t0: int, i: nat, m: nat)
    requires Reachable(checks, ps, es, t0, true) && i < |checks| && m < |es|
    requires checks[i].Some? && checks[i].value.interval > 0
    ensures var v := Vital(ps[m].backends[i]);
            Vital(ps[m + 1].backends[i])
            == if es[m].event == ActiveSuccess(i) then Vital(v.RecordSuccess(es[m].now).0)
               else if es[m].event == ActiveFailure(i) then Vital(v.RecordFailure(es[m].now).0)
               else v
  {
    hide Step, ActOn, Advance, Vital;
    FreshInv(checks, t0);
    InvAt(ps, es, t0, m);
    assert StepAt(ps, es, t0, m, true);
    var b := ps[m].backends[i];
    assert b.check == ps[0].backends[i].check;
    StepActs(ps[m], es[m], i);
    ActOfChecked(ps[m], es[m], i);
    VitalStep(b, ActAt(ps, es, i, m));
    VitalQuiet(ps[m + 1].backends[i], Advance(b, ActAt(ps, es, i, m)));
  }

  /**
    Two runs in which the active checks of backend `i` report the same results at the same clock
    readings leave it in the same state, success count, failure count and expiry, whatever
    requests, picks, reconciles and other backends' checks they contain.
   */
  lemma RequestsDoNotInterfere(
    checks: seq<Option<HealthCheck>>, i: nat, t0: int,
    ps: seq<Pool>, es: seq<Timed>, qs: seq<Pool>, fs: seq<Timed>)
    requires Reachable(checks, ps, es, t0, true) && Reachable(checks, qs, fs, t0, true)
    requires i < |checks| && checks[i].Some? && checks[i].value.interval > 0
    requires CheckLog(es, i) == CheckLog(fs, i)
    ensures Vital(ps[|es|].backends[i]) == Vital(qs[|fs|].backends[i])
  {
    hide Steps, StepAt, Fresh, Replay, CheckLog, Vital, Pool.Shaped;
    VitalIsReplay(checks, ps, es, t0, i, |es|);
    VitalIsReplay(checks, qs, fs, t0, i, |fs|);
    assert es[..|es|] == es && fs[..|fs|] == fs;
  }
}
