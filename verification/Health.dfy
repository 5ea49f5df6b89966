/**
  The health automaton of one backend (crates/lb/src/backend.rs), as functions on values.
  Time is an integer number of milliseconds; the clock reading is a parameter.
 */
module Health {
  import opened Prelude

  datatype HealthCheck = HealthCheck(
    interval: nat,
    failureThreshold: u32,
    successThreshold: u32,
    cooldownMs: nat)

  datatype HealthState =
    | Healthy
    | Probing(successes: u32, remainingBudget: u32)
    | Unhealthy(until: int)

  datatype Transition = BecameHealthy | BecameUnhealthy

  datatype Backend = Backend(
    check: Option<HealthCheck>,
    failures: u32,
    health: HealthState,
    active: nat)
  {
    predicate HasActiveCheck() { check.Some? && check.value.interval > 0 }

    function SuccessThreshold(): u32 {
      if check.None? then 1 else Max(check.value.successThreshold, 1)
    }

    function FailureThreshold(): u32 {
      if check.None? then 3 else check.value.failureThreshold
    }

    function CooldownMs(): nat { if check.None? then 10_000 else check.value.cooldownMs }

    function EnterProbing(): Backend {
      this.(failures := 0, health := Probing(0, SuccessThreshold()))
    }

    function Eject(now: int): Backend {
      this.(failures := 0, health := Unhealthy(now + CooldownMs()))
    }

    function RecordProbingSuccess(): (Backend, Option<Transition>)
    {
      match health
      case Healthy => (this, None)
      case Unhealthy(_) => (this, None)
      case Probing(successes, budget) =>
        var next := SaturatingSucc32(successes);
        if next >= SuccessThreshold()
        then (this.(failures := 0, health := Healthy), Some(BecameHealthy))
        else (this.(health := Probing(next, budget)), None)
    }

    function RecordSuccess(now: int): (Backend, Option<Transition>)
    {
      match health
      case Healthy => (this.(failures := 0), None)
      case Unhealthy(until) => if now < until then (this, None) else EnterProbing().RecordProbingSuccess()
      case Probing(_, _) => RecordProbingSuccess()
    }

    function RecordFailure(now: int): (Backend, Option<Transition>)
    {
      if health.Probing? then
        (Eject(now), None)
      else
        var count := SaturatingSucc32(failures);
        if count < FailureThreshold()
        then (this.(failures := count), None)
        else (Eject(now), Some(BecameUnhealthy))
    }

    function ReadmitIfExpired(now: int): (Backend, bool) {
      if health.Unhealthy? && now >= health.until then (EnterProbing(), true) else (this, false)
    }

    function TryAcquireProbePermit(): (Backend, bool) {
      if health.Probing? && health.remainingBudget > 0
      then (this.(health := Probing(health.successes, health.remainingBudget - 1)), true)
      else (this, false)
    }

    /**
      What the automaton keeps once the clock has reached `clock`: an expiry never lies further
      ahead than one cooldown, and a probing stay has not met its threshold nor gained budget.
     */
    predicate Sound(clock: int) {
      match health
      case Healthy => true
      case Unhealthy(until) => until <= clock + CooldownMs()
      case Probing(successes, budget) => successes < SuccessThreshold() && budget <= SuccessThreshold()
    }
  }

  function NewBackend(check: Option<HealthCheck>): Backend { Backend(check, 0, Healthy, 0) }
}
