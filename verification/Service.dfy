/** The breaker-related critical sections of one planning tick (service.py), in the order it reaches them. */
module Service {
  import opened Options
  import opened Breaker
  import opened Protocol

  /** PuLP's status strings and what lp/solver.py makes of them. */
  datatype PulpStatus = PulpOptimal | PulpNotSolved | PulpInfeasible | PulpUnbounded | PulpUndefined | PulpUnknown

  datatype SolveStatus =
    | SolvedOptimal | SolvedFeasible
    | SolverTimeout | SolverInfeasible | SolverUnbounded | SolverError

  function MapStatus(s: PulpStatus): SolveStatus {
    match s
    case PulpOptimal => SolvedOptimal
    case PulpNotSolved => SolverTimeout
    case PulpInfeasible => SolverInfeasible
    case PulpUnbounded => SolverUnbounded
    case PulpUndefined => SolverError
    case PulpUnknown => SolverError
  }

  /** How a solve ended, seen from the tick. */
  datatype Outcome = WallClockTimeout | Raised | Returned(status: SolveStatus, hasSlotZero: bool)

  /** The reason to fall back, or none when the solution is usable. */
  function FallbackFor(o: Outcome): Option<Reason> {
    match o
    case WallClockTimeout => Some(LpTimeout)
    case Raised => Some(LpError)
    case Returned(status, hasSlotZero) =>
      match status
      case SolverTimeout => Some(LpTimeout)
      case SolverInfeasible => Some(LpInfeasible)
      case SolverUnbounded => Some(LpInfeasible)
      case SolverError => Some(LpError)
      case _ => if hasSlotZero then None else Some(LpError)
  }

  /** The solver came back with something to execute. */
  predicate Usable(o: Outcome) {
    o.Returned? && (o.status.SolvedOptimal? || o.status.SolvedFeasible?) && o.hasSlotZero
  }

  /** What a tick that has nothing to execute is latched for. */
  predicate LatchedFor(o: Outcome, reason: Reason) {
    && (o.WallClockTimeout? ==> reason == LpTimeout)
    && (o.Raised? ==> reason == LpError)
    && (o.Returned? ==>
      && (o.status.SolverTimeout? ==> reason == LpTimeout)
      && (o.status.SolverInfeasible? || o.status.SolverUnbounded? ==> reason == LpInfeasible)
      && (o.status.SolverError? ==> reason == LpError)
      && (!o.hasSlotZero && (o.status.SolvedOptimal? || o.status.SolvedFeasible?) ==> reason == LpError))
  }

  /** The breaker as a fallback leaves it: latched now, for this reason, everything counted or commanded forgotten. */
  predicate JustLatched(rt: Runtime, reason: Reason, now: int) {
    && rt.breaker.latched && rt.breaker.latchedAt == Some(now) && rt.breaker.reason == reason
    && rt.breaker.deviations == 0 && rt.breaker.cleanProbes == 0 && rt.commanded.None?
  }

  datatype Decision = PlannerOff | NoPrices | Cooling(reason: Reason) | RunLp(probe: bool)

  class Tick {
    const runtime: LPRuntime

    constructor (runtime: LPRuntime)
      ensures this.runtime == runtime
    {
      this.runtime := runtime;
    }

    /** The decision tree before the LP; `now` is the instant the tick started. */
    method Check(now: int, plannerOn: bool, prices: nat) returns (d: Decision)
      ensures d.RunLp? <==> plannerOn && prices > 0 && runtime.State().breaker.LetsTickRun(runtime.cfg, now)
      ensures d.RunLp? ==> (d.probe <==> runtime.latched)
      ensures d.Cooling? ==> runtime.State().breaker.InCooldown(runtime.cfg, now) && d.reason == runtime.lastReason
    {
      var inCooldown :=
        runtime.latched && runtime.latchedAt.Some? && now - runtime.latchedAt.value < runtime.cfg.cooldown;
      var probe := runtime.latched && !inCooldown;
      if !plannerOn {
        return PlannerOff;
      } else if prices == 0 {
        return NoPrices;
      } else if runtime.latched && !probe {
        return Cooling(runtime.lastReason);
      }
      d := RunLp(probe);
    }

    /** `_run_lp`: a usable solution goes on, anything else latches after the fallback writes. */
    method FinishSolve(o: Outcome, now: int) returns (usable: bool)
      modifies runtime
      ensures usable <==> Usable(o)
      ensures usable ==> runtime.State() == old(runtime.State())
      ensures !usable ==> exists reason :: LatchedFor(o, reason) && JustLatched(runtime.State(), reason, now)
      ensures runtime.State() == AfterSolve(old(runtime.State()), o, now)
    {
      var reason := FallbackFor(o);
      usable := reason.None?;
      if reason.Some? {
        runtime.Latch(reason.value, now);
        assert LatchedFor(o, reason.value);
      }
    }

    /** After the dispatch writes: record the command, or fall back and latch when a write failed. */
    method FinishApply(applied: bool, intent: real, now: int)
      modifies runtime
      ensures applied ==>
        && runtime.State().commanded == Some(Commanded(intent, now))
        && runtime.State().breaker == old(runtime.State()).breaker.(deviations := 0)
      ensures !applied ==> JustLatched(runtime.State(), LpError, now)
      ensures runtime.State() == AfterApply(old(runtime.State()), applied, intent, now)
    {
      if applied {
        runtime.RecordCommand(intent, now);
      } else {
        runtime.Latch(LpError, now);
      }
    }
  }

  function AfterSolve(rt: Runtime, o: Outcome, now: int): Runtime {
    if FallbackFor(o).None? then rt else rt.Latch(FallbackFor(o).value, now)
  }

  function AfterApply(rt: Runtime, applied: bool, intent: real, now: int): Runtime {
    if applied then rt.Record(intent, now) else rt.Latch(LpError, now)
  }

  // ---------------------------------------------------------------- as events

  /** What a tick past its check does next, as critical sections. */
  function TickActions(o: Outcome, applied: bool, intent: real): seq<Action> {
    if FallbackFor(o).Some? then [TickFail(FallbackFor(o).value), TickLatch]
    else if applied then [TickRecord(intent)]
    else [TickFail(LpError), TickLatch]
  }

  /** The runtime after those critical sections, all at one instant. */
  function Performed(cfg: Config, s: System, actions: seq<Action>, now: int): Option<System> {
    if actions == [] then Some(s)
    else
      var before := Performed(cfg, s, actions[..|actions| - 1], now);
      if before.None? || !Enabled(before.value, Event(actions[|actions| - 1], now)) then None
      else Some(Step(cfg, before.value, Event(actions[|actions| - 1], now)))
  }

  /**
    How a tick that has passed its check ends: it records its dispatch iff the solver came back in
    time with an optimal or feasible solution holding a slot 0 and the writes succeeded; in every other
    case it fails and latches, with the reason of that case. The events leave the runtime as the tick's
    own methods do, and the tick over.
   */
  lemma TickEndsExactly(cfg: Config, s: System, o: Outcome, applied: bool, intent: real, now: int)
    requires s.tick.Past? && s.clock <= now
    ensures var actions := TickActions(o, applied, intent);
      && (actions == [TickRecord(intent)] <==> Usable(o) && applied)
      && (!(Usable(o) && applied) ==>
        exists reason :: actions == [TickFail(reason), TickLatch]
          && if Usable(o) then reason == LpError else LatchedFor(o, reason))
    ensures var done := Performed(cfg, s, TickActions(o, applied, intent), now);
      && done.Some? && done.value.tick.NoTick? && done.value.poll == s.poll
      && (Usable(o) ==> done.value.rt == AfterApply(s.rt, applied, intent, now))
      && (!Usable(o) ==> done.value.rt == AfterSolve(s.rt, o, now))
  {
    var actions := TickActions(o, applied, intent);
    if Usable(o) && applied {
      OneAction(cfg, s, TickRecord(intent), now);
    } else {
      var reason := actions[0].reason;
      TwoActions(cfg, s, TickFail(reason), TickLatch, now);
      assert actions == [TickFail(reason), TickLatch];
    }
  }

  lemma OneAction(cfg: Config, s: System, a: Action, now: int)
    ensures Performed(cfg, s, [a], now)
      == if Enabled(s, Event(a, now)) then Some(Step(cfg, s, Event(a, now))) else None
  {
    assert [a][..0] == [];
  }

  lemma TwoActions(cfg: Config, s: System, a: Action, b: Action, now: int)
    requires Enabled(s, Event(a, now))
    ensures var mid := Step(cfg, s, Event(a, now));
      Performed(cfg, s, [a, b], now)
        == if Enabled(mid, Event(b, now)) then Some(Step(cfg, mid, Event(b, now))) else None
  {
    OneAction(cfg, s, a, now);
    assert [a, b][..1] == [a];
  }

  /** The solver wrapper never reports a merely feasible solution: an unfinished solve reads as a timeout. */
  lemma OnlyOptimalIsUsable(s: PulpStatus, hasSlotZero: bool)
    ensures FallbackFor(Returned(MapStatus(s), hasSlotZero)).None? <==> s.PulpOptimal? && hasSlotZero
    ensures MapStatus(s) != SolvedFeasible
  {
  }
}
