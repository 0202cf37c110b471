/**
  The closed-loop simulator (simulate.py): solve, execute slot 0 under a physics model, repeat.
  Snapshots and the solver are a world the loop consults; whatever the solver returns satisfies the
  program emitted for the simulated SOC.
 */
module Simulate {
  import opened Options
  import opened Reals
  import opened Plans
  import opened Loads
  import opened Prices
  import opened Program
  import opened Builder

  /** What a snapshot holds for one step. */
  datatype Snapshot = Snapshot(pv: real, house: real, price: Option<(real, real)>)

  /**
    What a run consults: at step `k` the nearest snapshot and the tick input recorded in it, and what
    the solver returned for the program built from that input at a given SOC, if it succeeded.
   */
  datatype World = World(
    snapshot: nat -> Option<Snapshot>,
    recorded: nat -> LpInput,
    weights: seq<PvWeight>,
    mode: Mode,
    solve: (nat, real) -> Option<Assignment>)

  /** The battery-only tick replayed at the simulated SOC. */
  function Replayed(w: World, b: Battery, slotMinutes: nat, k: nat, soc: real): LpInput {
    w.recorded(k).(soc0 := soc, battery := b, slotMinutes := slotMinutes, loads := [], modes := None, slot0Pv := None)
  }

  /** The program the step solves, unless it cannot be built. */
  function Problem(w: World, b: Battery, slotMinutes: nat, k: nat, soc: real): Result<Stochastic>
    requires 0 < slotMinutes && b.Sane()
  {
    StochasticOf(Replayed(w, b, slotMinutes, k, soc), w.weights, w.mode)
  }

  /** Whatever the solver returns satisfies the emitted program. */
  ghost predicate Sound(w: World, b: Battery, slotMinutes: nat)
    requires 0 < slotMinutes && b.Sane()
  {
    forall k: nat, soc: real :: w.solve(k, soc).Some? && Problem(w, b, slotMinutes, k, soc).Ok? ==>
      var st := Problem(w, b, slotMinutes, k, soc).value;
      SameShape(st.scenarios) && st.base < |st.scenarios| ==>
        StochFeasible(st.scenarios, st.base, w.solve(k, soc).value)
  }

  /** The plan of the base scenario; none when building or solving failed. */
  function Solved(w: World, b: Battery, slotMinutes: nat, k: nat, soc: real): Option<Plan>
    requires 0 < slotMinutes && b.Sane()
  {
    match (Problem(w, b, slotMinutes, k, soc), w.solve(k, soc))
    case (Ok(st), Some(x)) => if st.base < |x| then Some(x[st.base]) else None
    case _ => None
  }

  /** Every committed plan is feasible for a scenario of this battery that starts at the simulated SOC. */
  lemma SolvedIsFeasible(w: World, b: Battery, slotMinutes: nat, k: nat, soc: real)
    requires 0 < slotMinutes && b.Sane() && Sound(w, b, slotMinutes)
    requires Solved(w, b, slotMinutes, k, soc).Some?
    ensures exists sc: Scenario ::
      sc.Sane() && StartsAt(sc, b, slotMinutes, soc) && Feasible(sc, Solved(w, b, slotMinutes, k, soc).value)
  {
    hide StochasticOf, Feasible, Compound, SharesTick, Buildable;
    var inp := Replayed(w, b, slotMinutes, k, soc);
    var st := Problem(w, b, slotMinutes, k, soc).value;
    StochasticShape(inp, w.weights, w.mode);
    CompoundSharesTick(inp, TickSlots(inp), PvWeightsUsed(w.weights), ScenariosOf(w.mode, DEFAULT_BAND_WEIGHTS));
    SharedStart(st.scenarios[st.base], inp, TickSlots(inp));
    assert Feasible(st.scenarios[st.base], w.solve(k, soc).value[st.base]);
  }

  predicate StartsAt(sc: Scenario, b: Battery, slotMinutes: nat, soc: real) {
    sc.soc0 == soc && sc.battery == b && sc.slotHours == Hours(slotMinutes)
  }

  lemma SharedStart(sc: Scenario, inp: LpInput, slots: seq<int>)
    requires Buildable(inp, slots) && SharesTick(sc, inp, slots)
    ensures StartsAt(sc, inp.battery, inp.slotMinutes, inp.soc0)
  {
  }

  function Hours(slotMinutes: nat): real { slotMinutes as real / 60.0 }

  datatype Step = Step(
    socStart: real,
    socEnd: real,
    planned: real,
    battery: real,
    gridImport: real,
    gridExport: real,
    pv: real,
    house: real,
    cost: real)

  function Clamp(v: real, lo: real, hi: real): real { Max(lo, Min(hi, v)) }

  function PercentOf(b: Battery, kwh: real): real
    requires b.capacityKwh != 0.0
  {
    kwh / b.capacityKwh * 100.0
  }

  /** Energy stored (or taken) in a slot at a signed battery rate. */
  function Stored(b: Battery, slotHours: real, battery: real): real {
    if battery >= 0.0 then battery * slotHours * b.efficiency else battery * slotHours
  }

  function SocEnd(b: Battery, slotHours: real, soc: real, battery: real): real
    requires b.capacityKwh != 0.0
  {
    Clamp(soc + PercentOf(b, Stored(b, slotHours, battery)), 0.0, 100.0)
  }

  /** `_physics_step`: the SOC at the end of the slot and the flows through the meter. */
  function PhysicsStep(b: Battery, slotHours: real, soc: real, battery: real, pv: real, house: real)
    : (r: (real, real, real))
    requires b.capacityKwh != 0.0
  {
    var socEnd := SocEnd(b, slotHours, soc, battery);
    var demand := house + Max(0.0, battery) - pv - (-Min(0.0, battery));
    if demand > 0.0 then (socEnd, demand, 0.0) else (socEnd, 0.0, Min(-demand, b.exportLimit))
  }

  /** The battery rate to execute and the SOC planned for it; idle when the solve failed. */
  function Commanded(w: World, b: Battery, slotMinutes: nat, k: nat, soc: real): (r: (real, real))
    requires 0 < slotMinutes && b.Sane()
  {
    match Solved(w, b, slotMinutes, k, soc)
    case Some(p) => if |p.slots| > 0 then (p.slots[0].Net(), p.slots[0].soc) else (0.0, soc)
    case None => (0.0, soc)
  }

  function Executed(w: World, b: Battery, slotMinutes: nat, k: nat, soc: real, snap: Snapshot): Step
    requires 0 < slotMinutes && b.Sane()
  {
    var (rate, planned) := Commanded(w, b, slotMinutes, k, soc);
    var (socEnd, gridIn, gridOut) := PhysicsStep(b, Hours(slotMinutes), soc, rate, snap.pv, snap.house);
    var cost := if snap.price.Some?
      then (gridIn * snap.price.value.0 - gridOut * snap.price.value.1) * Hours(slotMinutes)
      else 0.0;
    Step(soc, socEnd, planned, rate, gridIn, gridOut, snap.pv, snap.house, cost)
  }

  /** The steps executed in the first `n` iterations; one without a snapshot executes nothing. */
  function Run(w: World, b: Battery, slotMinutes: nat, initial: real, n: nat): seq<Step>
    requires 0 < slotMinutes && b.Sane()
  {
    if n == 0 then []
    else
      var before := Run(w, b, slotMinutes, initial, n - 1);
      var snap := w.snapshot(n - 1);
      if snap.None? then before
      else before + [Executed(w, b, slotMinutes, n - 1, SocAfter(before, initial), snap.value)]
  }

  function SocAfter(steps: seq<Step>, initial: real): real {
    if steps == [] then initial else steps[|steps| - 1].socEnd
  }

  function Instant(start: int, slotMinutes: nat, n: nat): int { start + n * (slotMinutes * US_PER_MINUTE) }

  lemma FirstInstant(start: int, slotMinutes: nat)
    ensures Instant(start, slotMinutes, 0) == start
  {
  }

  lemma NextInstant(start: int, slotMinutes: nat, n: nat)
    ensures Instant(start, slotMinutes, n + 1) == Instant(start, slotMinutes, n) + slotMinutes * US_PER_MINUTE
  {
  }

  /** `simulate`: one iteration every slot from `start` through `end`. */
  method Simulate(w: World, b: Battery, slotMinutes: nat, initial: real, start: int, end: int)
    returns (steps: seq<Step>, n: nat)
    requires 0 < slotMinutes && b.Sane()
    ensures Instant(start, slotMinutes, n) > end && (n > 0 ==> Instant(start, slotMinutes, n - 1) <= end)
    ensures steps == Run(w, b, slotMinutes, initial, n)
  {
    hide Executed, Instant, Solved, Problem;
    FirstInstant(start, slotMinutes);
    var soc, ts, stepUs := initial, start, slotMinutes * US_PER_MINUTE;
    steps, n := [], 0;
    while ts <= end
      invariant ts == Instant(start, slotMinutes, n)
      invariant n > 0 ==> Instant(start, slotMinutes, n - 1) <= end
      invariant steps == Run(w, b, slotMinutes, initial, n)
      invariant soc == SocAfter(steps, initial)
      decreases end - ts
    {
      var snap := w.snapshot(n);
      if snap.Some? {
        var step := Executed(w, b, slotMinutes, n, soc, snap.value);
        steps := steps + [step];
        soc := step.socEnd;
      }
      NextInstant(start, slotMinutes, n);
      ts, n := ts + stepUs, n + 1;
    }
  }

  // ---------------------------------------------------------------- one step

  /** Netting charge against discharge before storing gains what the smaller of the two would lose. */
  lemma NettingGain(k: real, eta: real, c: real, d: real)
    ensures Gain(k, eta, c - d) == k * (eta * c - d) + k * (1.0 - eta) * Min(c, d)
  {
    assert Min(c, d) == if c - d >= 0.0 then d else c;
    if c - d >= 0.0 {
      NettedCharge(k, eta, c, d);
    } else {
      NettedDischarge(k, eta, c, d);
    }
  }

  lemma NettedCharge(k: real, eta: real, c: real, d: real)
    ensures k * (eta * (c - d)) == k * (eta * c - d) + k * (1.0 - eta) * d
  {
    assert k * (eta * (c - d)) == k * (eta * c) - k * (eta * d);
  }

  lemma NettedDischarge(k: real, eta: real, c: real, d: real)
    ensures k * (c - d) == k * (eta * c - d) + k * (1.0 - eta) * c
  {
    assert k * (1.0 - eta) * c == k * c - k * (eta * c);
  }

  /** The simulator's SOC change in the LP's terms, `k` being its percent per kW. */
  lemma StoredPercent(b: Battery, rate: real, h: real, k: real)
    requires 0.0 < b.capacityKwh && k == h / b.capacityKwh * 100.0
    ensures PercentOf(b, Stored(b, h, rate)) == Gain(k, b.efficiency, rate)
  {
    var q := h / b.capacityKwh;
    assert q * b.capacityKwh == h;
    if rate >= 0.0 {
      assert (rate * h * b.efficiency) / b.capacityKwh == rate * q * b.efficiency;
    } else {
      assert (rate * h) / b.capacityKwh == rate * q;
    }
  }

  lemma NonNegativeExtra(k: real, eta: real, m: real)
    requires 0.0 <= k && eta <= 1.0 && 0.0 <= m
    ensures 0.0 <= k * (1.0 - eta) * m
  {
    assert 0.0 <= k * (1.0 - eta);
  }

  lemma PositivePctPerKw(h: real, cap: real)
    requires 0.0 < h && 0.0 < cap
    ensures 0.0 < h / cap * 100.0
  {
    var q := h / cap;
    assert q * cap == h;
    assert 0.0 < q;
  }

  /** Percent of SOC a planned slot loses by charging and discharging at once. */
  function LostToChurn(sc: Scenario, s: Slot): real
    requires sc.battery.capacityKwh != 0.0
  {
    sc.PctPerKw() * (1.0 - sc.battery.efficiency) * Min(s.bcg + s.bcp, s.bd)
  }

  /**
    Executing a planned slot ends at the planned SOC plus exactly what the plan loses by charging
    and discharging at once, cut at 100 percent.
   */
  lemma PhysicsVersusPlan(sc: Scenario, i: Input, demand: real, s: Slot)
    requires sc.battery.Sane() && 0.0 < sc.slotHours && SlotOK(sc, i, sc.soc0, demand, s)
    ensures SocEnd(sc.battery, sc.slotHours, sc.soc0, s.Net())
      == Min(100.0, s.soc + LostToChurn(sc, s))
    ensures 0.0 <= LostToChurn(sc, s)
    ensures s.soc <= SocEnd(sc.battery, sc.slotHours, sc.soc0, s.Net())
  {
    hide FlowsOK, BandOK, BuyOK, ConserveOK, PercentOf, Stored, Gain;
    var b := sc.battery;
    var k, eta, c, d := sc.PctPerKw(), b.efficiency, s.bcg + s.bcp, s.bd;
    PositivePctPerKw(sc.slotHours, b.capacityKwh);
    NettingGain(k, eta, c, d);
    assert s.Net() == c - d;
    NonNegativeExtra(k, eta, Min(c, d));
    StoredPercent(b, s.Net(), sc.slotHours, k);
    assert s.soc == sc.soc0 + k * (eta * c - d);
    var extra := LostToChurn(sc, s);
    assert 0.0 <= extra && 0.0 <= s.soc <= 100.0;
    hide LostToChurn, SlotOK;
    assert sc.soc0 + PercentOf(b, Stored(b, sc.slotHours, s.Net())) == s.soc + extra;
    assert Clamp(s.soc + extra, 0.0, 100.0) == Min(100.0, s.soc + extra) >= s.soc;
  }

  /** Percent gained from a signed battery rate; charging loses the round-trip inefficiency. */
  function Gain(k: real, eta: real, rate: real): real {
    if rate >= 0.0 then k * (eta * rate) else k * rate
  }

  /** The meter balances, up to surplus the export limit curtails, and never imports while exporting. */
  predicate MeterOK(st: Step, limit: real) {
    && 0.0 <= st.gridImport && 0.0 <= st.gridExport <= limit
    && (st.gridImport == 0.0 || st.gridExport == 0.0)
    && st.gridImport + st.pv - st.battery >= st.house + st.gridExport
    && (st.gridExport < limit ==> st.gridImport + st.pv - st.battery == st.house + st.gridExport)
  }

  predicate StepOK(st: Step, b: Battery) {
    && 0.0 <= st.socEnd <= 100.0
    && (st.planned <= 100.0 ==> st.planned <= st.socEnd)
    && Min(Min(st.socStart, b.Floor()), 100.0) <= st.socEnd
    && MeterOK(st, b.exportLimit)
  }

  lemma IdleKeepsSoc(b: Battery, h: real, soc: real)
    requires 0.0 < b.capacityKwh
    ensures SocEnd(b, h, soc, 0.0) == Clamp(soc, 0.0, 100.0)
  {
    var zero := 0.0 * h * b.efficiency;
    assert zero == 0.0;
    assert zero / b.capacityKwh * 100.0 == 0.0;
  }

  lemma MeterBalances(b: Battery, h: real, soc: real, rate: real, pv: real, house: real)
    requires b.Sane()
    ensures var (_, gridIn, gridOut) := PhysicsStep(b, h, soc, rate, pv, house);
      forall st: Step | st.gridImport == gridIn && st.gridExport == gridOut
        && st.battery == rate && st.pv == pv && st.house == house :: MeterOK(st, b.exportLimit)
  {
  }

  /** One step, solved or failed, keeps the SOC above the floor it started from or the configured one. */
  lemma ExecutedOK(w: World, b: Battery, slotMinutes: nat, k: nat, soc: real, snap: Snapshot)
    requires b.Sane() && 0 < slotMinutes && Sound(w, b, slotMinutes)
    ensures StepOK(Executed(w, b, slotMinutes, k, soc, snap), b)
  {
    hide Feasible, SocEnd, MeterOK;
    var (rate, planned) := Commanded(w, b, slotMinutes, k, soc);
    MeterBalances(b, Hours(slotMinutes), soc, rate, snap.pv, snap.house);
    if Solved(w, b, slotMinutes, k, soc).Some? {
      SolvedStep(w, b, slotMinutes, k, soc);
    } else {
      IdleKeepsSoc(b, Hours(slotMinutes), soc);
    }
  }

  lemma SolvedStep(w: World, b: Battery, slotMinutes: nat, k: nat, soc: real)
    requires b.Sane() && 0 < slotMinutes && Sound(w, b, slotMinutes) && Solved(w, b, slotMinutes, k, soc).Some?
    ensures var (rate, planned) := Commanded(w, b, slotMinutes, k, soc);
      && Min(soc, b.Floor()) <= planned <= 100.0
      && planned <= SocEnd(b, Hours(slotMinutes), soc, rate) <= 100.0
      && 0.0 <= planned
  {
    hide Solved, Sound, LoadsOK;
    SolvedIsFeasible(w, b, slotMinutes, k, soc);
    var p := Solved(w, b, slotMinutes, k, soc).value;
    var sc: Scenario :| sc.Sane() && StartsAt(sc, b, slotMinutes, soc) && Feasible(sc, p);
    assert SlotOKAt(sc, p, 0);
    PhysicsVersusPlan(sc, sc.inputs[0], SlotDemand(sc, p.relays, 0), p.slots[0]);
  }

  /** The battery runs at the slot's net power and ends at its SOC, unless the slot charges and discharges at once. */
  predicate FollowsSlot(st: Step, s: Slot) {
    && st.battery == s.bcg + s.bcp - s.bd
    && st.planned == s.soc
    && (s.bcg + s.bcp == 0.0 || s.bd == 0.0 ==> st.socEnd == s.soc)
  }

  /**
    A step does what was solved for it, following slot 0 of the plan; without a plan it idles.
   */
  lemma ExecutesThePlan(w: World, b: Battery, slotMinutes: nat, k: nat, soc: real, snap: Snapshot)
    requires b.Sane() && 0 < slotMinutes && Sound(w, b, slotMinutes)
    ensures var st := Executed(w, b, slotMinutes, k, soc, snap);
      var solved := Solved(w, b, slotMinutes, k, soc);
      && st.socStart == soc && st.pv == snap.pv && st.house == snap.house
      && (solved.None? ==> st.battery == 0.0 && st.planned == soc && st.socEnd == Clamp(soc, 0.0, 100.0))
      && (solved.Some? ==> |solved.value.slots| > 0 && FollowsSlot(st, solved.value.slots[0]))
  {
    hide Solved, Sound, SocEnd, LoadsOK, TerminalOK;
    if Solved(w, b, slotMinutes, k, soc).Some? {
      SolvedIsFeasible(w, b, slotMinutes, k, soc);
      var p := Solved(w, b, slotMinutes, k, soc).value;
      var sc: Scenario :| sc.Sane() && StartsAt(sc, b, slotMinutes, soc) && Feasible(sc, p);
      TidySlot(sc, p);
    } else {
      IdleKeepsSoc(b, Hours(slotMinutes), soc);
    }
  }

  lemma TidySlot(sc: Scenario, p: Plan)
    requires sc.Sane() && Feasible(sc, p)
    ensures var s := p.slots[0];
      s.bcg + s.bcp == 0.0 || s.bd == 0.0 ==> SocEnd(sc.battery, sc.slotHours, sc.soc0, s.Net()) == s.soc
  {
    hide LoadsOK, TerminalOK, SocEnd, FlowsOK, BuyOK, ConserveOK, BandOK, DynamicsOK;
    assert SlotOKAt(sc, p, 0);
    PhysicsVersusPlan(sc, sc.inputs[0], SlotDemand(sc, p.relays, 0), p.slots[0]);
    NothingLost(sc.PctPerKw() * (1.0 - sc.battery.efficiency));
  }

  lemma NothingLost(k: real)
    ensures k * 0.0 == 0.0
  {
  }

  // ---------------------------------------------------------------- the whole run

  predicate Chained(steps: seq<Step>, initial: real) {
    && (|steps| > 0 ==> steps[0].socStart == initial)
    && forall i :: 0 < i < |steps| ==> steps[i].socStart == steps[i - 1].socEnd
  }

  /**
    Whole-run safety: with any mix of solved, failed and skipped ticks every step is sound, steps
    follow one another, and the SOC never falls below the smaller of the initial SOC and the floor.
   */
  lemma {:induction false} RunIsSafe(w: World, b: Battery, slotMinutes: nat, initial: real, n: nat)
    requires b.Sane() && 0 < slotMinutes && Sound(w, b, slotMinutes)
    requires initial <= 100.0 || b.Floor() <= 100.0
    ensures var steps := Run(w, b, slotMinutes, initial, n);
      && Chained(steps, initial)
      && forall i :: 0 <= i < |steps| ==> StepOK(steps[i], b) && Min(initial, b.Floor()) <= steps[i].socEnd
  {
    hide Sound, Executed, MeterOK;
    if n == 0 {
    } else {
      RunIsSafe(w, b, slotMinutes, initial, n - 1);
      var before := Run(w, b, slotMinutes, initial, n - 1);
      if w.snapshot(n - 1).Some? {
        var soc, snap := SocAfter(before, initial), w.snapshot(n - 1).value;
        ExecutedOK(w, b, slotMinutes, n - 1, soc, snap);
        ExecutedStart(w, b, slotMinutes, n - 1, soc, snap);
        ChainedAppend(before, Executed(w, b, slotMinutes, n - 1, soc, snap), initial);
      }
    }
  }

  lemma ChainedAppend(steps: seq<Step>, st: Step, initial: real)
    requires Chained(steps, initial) && st.socStart == SocAfter(steps, initial)
    ensures Chained(steps + [st], initial)
  {
  }

  lemma ExecutedStart(w: World, b: Battery, slotMinutes: nat, k: nat, soc: real, snap: Snapshot)
    requires 0 < slotMinutes && b.Sane()
    ensures Executed(w, b, slotMinutes, k, soc, snap).socStart == soc
  {
  }

  /** The lowest SOC of a run that executed anything (`min_soc_pct`). */
  function MinSoc(steps: seq<Step>): real
    requires steps != []
  {
    if |steps| == 1 then steps[0].socEnd
    else Min(MinSoc(steps[..|steps| - 1]), steps[|steps| - 1].socEnd)
  }

  lemma {:induction false} MinSocIsReached(steps: seq<Step>)
    requires steps != []
    ensures exists i :: 0 <= i < |steps| && steps[i].socEnd == MinSoc(steps)
  {
    var n := |steps| - 1;
    if n == 0 || MinSoc(steps) == steps[n].socEnd {
      assert steps[n].socEnd == MinSoc(steps);
    } else {
      MinSocIsReached(steps[..n]);
      var i :| 0 <= i < n && steps[..n][i].socEnd == MinSoc(steps[..n]);
      assert steps[i].socEnd == MinSoc(steps);
    }
  }

  lemma ReportedMinimumIsSafe(w: World, b: Battery, slotMinutes: nat, initial: real, n: nat)
    requires b.Sane() && 0 < slotMinutes && Sound(w, b, slotMinutes)
    requires initial <= 100.0 || b.Floor() <= 100.0
    requires Run(w, b, slotMinutes, initial, n) != []
    ensures Min(initial, b.Floor()) <= MinSoc(Run(w, b, slotMinutes, initial, n))
  {
    RunIsSafe(w, b, slotMinutes, initial, n);
    MinSocIsReached(Run(w, b, slotMinutes, initial, n));
  }

  // ---------------------------------------------------------------- what the run cost

  /** The reported total (`total_cost_cents`). */
  function TotalCost(steps: seq<Step>): real {
    if steps == [] then 0.0 else TotalCost(steps[..|steps| - 1]) + steps[|steps| - 1].cost
  }

  /** Cents per hour for a flow at a price. */
  function Worth(kw: real, price: real): real { kw * price }

  /** Cents for one slot at so many cents per hour. */
  function ForSlot(slotMinutes: nat, cents: real): real { slotMinutes as real / 60.0 * cents }

  /** The energy bought in the first `n` iterations, at the import prices of their snapshots: kW times c/kWh. */
  function Purchases(w: World, b: Battery, slotMinutes: nat, initial: real, n: nat): real
    requires 0 < slotMinutes && b.Sane()
  {
    if n == 0 then 0.0
    else
      var before, snap := Run(w, b, slotMinutes, initial, n - 1), w.snapshot(n - 1);
      Purchases(w, b, slotMinutes, initial, n - 1)
        + (if snap.Some? && snap.value.price.Some?
           then Worth(Executed(w, b, slotMinutes, n - 1, SocAfter(before, initial), snap.value).gridImport,
                      snap.value.price.value.0)
           else 0.0)
  }

  /** The energy sold, at the export prices. */
  function Sales(w: World, b: Battery, slotMinutes: nat, initial: real, n: nat): real
    requires 0 < slotMinutes && b.Sane()
  {
    if n == 0 then 0.0
    else
      var before, snap := Run(w, b, slotMinutes, initial, n - 1), w.snapshot(n - 1);
      Sales(w, b, slotMinutes, initial, n - 1)
        + (if snap.Some? && snap.value.price.Some?
           then Worth(Executed(w, b, slotMinutes, n - 1, SocAfter(before, initial), snap.value).gridExport,
                      snap.value.price.value.1)
           else 0.0)
  }

  /** A run costs what it buys less what it sells, at the prices of its snapshots, over slots of their length. */
  lemma {:induction false} TotalIsBill(w: World, b: Battery, slotMinutes: nat, initial: real, n: nat)
    requires 0 < slotMinutes && b.Sane()
    ensures TotalCost(Run(w, b, slotMinutes, initial, n))
      == ForSlot(slotMinutes,
                 Purchases(w, b, slotMinutes, initial, n) - Sales(w, b, slotMinutes, initial, n))
  {
    hide Executed, SocAfter, ForSlot, Worth;
    ForSlotAdds(slotMinutes, 0.0, 0.0);
    if n == 0 {
    } else {
      TotalIsBill(w, b, slotMinutes, initial, n - 1);
      var before, snap := Run(w, b, slotMinutes, initial, n - 1), w.snapshot(n - 1);
      if snap.Some? {
        var st := Executed(w, b, slotMinutes, n - 1, SocAfter(before, initial), snap.value);
        assert (before + [st])[..|before|] == before;
        StepCost(w, b, slotMinutes, n - 1, SocAfter(before, initial), snap.value);
        if snap.value.price.Some? {
          var price := snap.value.price.value;
          ForSlotAdds(slotMinutes,
                      Purchases(w, b, slotMinutes, initial, n - 1) - Sales(w, b, slotMinutes, initial, n - 1),
                      Worth(st.gridImport, price.0) - Worth(st.gridExport, price.1));
        }
      }
    }
  }

  lemma StepCost(w: World, b: Battery, slotMinutes: nat, k: nat, soc: real, snap: Snapshot)
    requires 0 < slotMinutes && b.Sane()
    ensures var st := Executed(w, b, slotMinutes, k, soc, snap);
      st.cost == if snap.price.Some?
        then ForSlot(slotMinutes, Worth(st.gridImport, snap.price.value.0) - Worth(st.gridExport, snap.price.value.1))
        else 0.0
  {
    hide PhysicsStep, Commanded;
  }

  lemma ForSlotAdds(slotMinutes: nat, x: real, y: real)
    ensures ForSlot(slotMinutes, x + y) == ForSlot(slotMinutes, x) + ForSlot(slotMinutes, y)
    ensures ForSlot(slotMinutes, 0.0) == 0.0
  {
    var hours := slotMinutes as real / 60.0;
    assert hours * (x + y) == hours * x + hours * y;
  }
}
