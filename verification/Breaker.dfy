/** The circuit breaker shared by the planning tick and the watcher (lp/runtime.py). */
module Breaker {
  import opened Options

  datatype Reason = NoReason | LpTimeout | LpInfeasible | LpError | LpBuildFailed | VerifyDeviation | SolverUnavailable

  /** What was last written to the inverter; `intent` is the signed power the LP asked for. */
  datatype Commanded = Commanded(intent: real, writtenAt: int)

  datatype Config = Config(cooldown: int, deviationThreshold: nat, cleanThreshold: nat, grace: int)

  /** The defaults the service runs with. */
  const SHIPPED := Config(300_000_000, 3, 3, 30_000_000)

  datatype Breaker = Breaker(
    latched: bool,
    latchedAt: Option<int>,
    deviations: nat,
    cleanProbes: nat,
    reason: Reason)
  {
    predicate InCooldown(cfg: Config, now: int) {
      latched && latchedAt.Some? && now - latchedAt.value < cfg.cooldown
    }

    /** Latched, but the cooldown has elapsed. */
    predicate CanProbe(cfg: Config, now: int) { latched && !InCooldown(cfg, now) }

    /** What the tick checks before it runs the LP. */
    predicate LetsTickRun(cfg: Config, now: int) { !(latched && !CanProbe(cfg, now)) }
  }

  /** The fields behind the lock. */
  datatype Runtime = Runtime(commanded: Option<Commanded>, breaker: Breaker)
  {
    function Record(intent: real, now: int): Runtime {
      Runtime(Some(Commanded(intent, now)), breaker.(deviations := 0))
    }

    function Latch(reason: Reason, now: int): Runtime {
      Runtime(None, Breaker(true, Some(now), 0, 0, reason))
    }

    function Clear(): Runtime {
      this.(breaker := breaker.(latched := false, latchedAt := None, cleanProbes := 0, reason := NoReason))
    }

    /** A clean verification whose poll saw the breaker latched, or not, when it began. */
    function Clean(cfg: Config, sawLatched: bool): Runtime {
      var reset := this.(breaker := breaker.(deviations := 0));
      if !sawLatched then reset
      else if breaker.cleanProbes + 1 >= cfg.cleanThreshold then reset.Clear()
      else reset.(breaker := reset.breaker.(cleanProbes := breaker.cleanProbes + 1))
    }

    function Deviate(): Runtime {
      this.(breaker := breaker.(deviations := breaker.deviations + 1, cleanProbes := 0))
    }

    /** The deviation just counted must trigger the fallback. */
    predicate MustTrip(cfg: Config) {
      breaker.deviations >= cfg.deviationThreshold && !breaker.latched
    }
  }

  function Fresh(): Runtime { Runtime(None, Breaker(false, None, 0, 0, NoReason)) }

  /** `LPRuntime`: every method is one critical section. */
  class LPRuntime {
    const cfg: Config
    var commanded: Option<Commanded>
    var latched: bool
    var latchedAt: Option<int>
    var deviations: nat
    var cleanProbes: nat
    var lastReason: Reason

    constructor (cfg: Config)
      ensures this.cfg == cfg && State() == Fresh()
    {
      this.cfg := cfg;
      commanded, latched, latchedAt := None, false, None;
      deviations, cleanProbes, lastReason := 0, 0, NoReason;
    }

    function State(): Runtime
      reads this
    {
      Runtime(commanded, Breaker(latched, latchedAt, deviations, cleanProbes, lastReason))
    }

    method RecordCommand(intent: real, now: int)
      modifies this
      ensures State() == old(State()).Record(intent, now)
    {
      commanded := Some(Commanded(intent, now));
      deviations := 0;
    }

    method Latch(reason: Reason, now: int)
      modifies this
      ensures State() == old(State()).Latch(reason, now)
    {
      latched, latchedAt, lastReason := true, Some(now), reason;
      deviations, cleanProbes := 0, 0;
      commanded := None;
    }

    method ClearLatch()
      modifies this
      ensures State() == old(State()).Clear()
    {
      latched, latchedAt := false, None;
      cleanProbes, lastReason := 0, NoReason;
    }
  }
}
