/**
  Complete recourse of the dispatch program (lp/formulation.py): leaving the battery alone is a
  feasible plan for every scenario at once, so the solver always has something to fall back on.
 */
module Recourse {
  import opened Reals
  import opened Plans
  import opened Loads
  import opened Program
  import opened LoadFeasibility
  import opened LoadGreatest
  import opened LoadLedger
  import opened Modes
  import opened Prices
  import opened Builder

  /** Serve the demand from PV first and the grid second; curtail what PV is left. */
  function IdleSlot(sc: Scenario, i: Input, demand: real): Slot {
    var toHouse := Min(i.pv, demand);
    Slot(0.0, 0.0, 0.0, demand - toHouse, 0.0, toHouse, 0.0, 0.0, i.pv - toHouse,
         sc.soc0, Max(0.0, sc.soc0 - sc.battery.socCeiling))
  }

  predicate Schedule(sc: Scenario, relays: seq<seq<real>>) {
    |relays| == |sc.loads| && forall l :: 0 <= l < |relays| ==> |relays[l]| == |sc.inputs|
  }

  function IdlePlan(sc: Scenario, relays: seq<seq<real>>): (p: Plan)
    requires Schedule(sc, relays)
    ensures PlanShaped(p, |sc.inputs|, |sc.loads|)
    ensures p.relays == relays
    ensures forall t :: 0 <= t < |sc.inputs| ==>
      p.slots[t] == IdleSlot(sc, sc.inputs[t], SlotDemand(sc, relays, t))
  {
    Plan(seq(|sc.inputs|, t requires 0 <= t < |sc.inputs| =>
           IdleSlot(sc, sc.inputs[t], SlotDemand(sc, relays, t))),
         Max(0.0, sc.terminalFloor - sc.soc0),
         relays)
  }

  /** Nothing measured or forecast is negative, and the SOC is a percentage. */
  predicate Physical(sc: Scenario) {
    && 0.0 <= sc.soc0 <= 100.0
    && (forall t :: 0 <= t < |sc.inputs| ==> 0.0 <= sc.inputs[t].pv && 0.0 <= sc.inputs[t].house)
    && (forall l :: 0 <= l < |sc.loads| && sc.loads[l].config.Relayed? ==> 0.0 <= sc.loads[l].config.draw)
  }

  /** What PV leaves of each slot's demand fits the import bound. */
  predicate Coverable(sc: Scenario, relays: seq<seq<real>>)
    requires Schedule(sc, relays)
  {
    forall t :: 0 <= t < |sc.inputs| ==>
      SlotDemand(sc, relays, t) <= sc.inputs[t].pv + sc.battery.maxAcCharge + IMPORT_HEADROOM_KW
  }

  /** Every buy slot lets the SOC stay where it is. */
  predicate CutoffAllowsIdle(sc: Scenario) {
    forall t :: 0 <= t < |sc.inputs| && sc.inputs[t].buy && sc.buyCutoff.Some? ==> sc.soc0 <= sc.buyCutoff.value
  }

  predicate RelaysOK(sc: Scenario, relays: seq<seq<real>>)
    requires sc.Sane() && Schedule(sc, relays)
  {
    forall l :: 0 <= l < |sc.loads| ==> LoadOK(sc.loads[l], relays[l])
  }

  lemma RelayPowerNonNegative(ld: Load, r: seq<real>, t: nat)
    requires ld.slotMinutes > 0 && |r| == |ld.slots| && LoadOK(ld, r) && t < |r|
    requires ld.config.Relayed? ==> 0.0 <= ld.config.draw
    ensures 0.0 <= ld.PowerAt(r[t])
  {
    hide OverridesOK, DemandsOK, BlocksOK, CarryOverOK;
    if ld.config.Relayed? {
      ProductNonNegative(ld.config.draw, r[t]);
    }
  }

  lemma {:induction false} LoadPowerNonNegative(sc: Scenario, relays: seq<seq<real>>, t: nat, k: nat)
    requires sc.Sane() && Physical(sc) && Schedule(sc, relays) && RelaysOK(sc, relays)
    requires t < |sc.inputs| && k <= |sc.loads|
    ensures 0.0 <= LoadPower(sc.loads, relays, t, k)
  {
    hide LoadOK, Load.PowerAt;
    if k == 0 {
      assert LoadPower(sc.loads, relays, t, k) == 0.0;
    } else {
      LoadPowerNonNegative(sc, relays, t, k - 1);
      RelayPowerNonNegative(sc.loads[k - 1], relays[k - 1], t);
    }
  }

  lemma IdleSlotOK(sc: Scenario, i: Input, demand: real)
    requires sc.battery.Sane() && 0.0 <= sc.soc0 <= 100.0 && 0.0 <= i.pv && 0.0 <= demand
    ensures SlotOK(sc, i, sc.soc0, demand, IdleSlot(sc, i, demand)) <==>
      && demand <= i.pv + sc.battery.maxAcCharge + IMPORT_HEADROOM_KW
      && (i.buy && sc.buyCutoff.Some? ==> sc.soc0 <= sc.buyCutoff.value)
  {
    assert sc.PctPerKw() * (sc.battery.efficiency * (0.0 + 0.0) - 0.0) == 0.0;
  }

  /** The idle plan is feasible exactly when the relays are, imports reach, and no cutoff lies behind. */
  lemma IdleFeasible(sc: Scenario, relays: seq<seq<real>>)
    requires sc.Sane() && Physical(sc) && Schedule(sc, relays)
    ensures Feasible(sc, IdlePlan(sc, relays)) <==>
      RelaysOK(sc, relays) && Coverable(sc, relays) && CutoffAllowsIdle(sc)
  {
    hide LoadOK, SlotOK, SlotDemand, IdleSlot;
    var p := IdlePlan(sc, relays);
    assert LoadsOK(sc, p) <==> RelaysOK(sc, relays);
    if RelaysOK(sc, relays) {
      forall t | 0 <= t < |sc.inputs|
        ensures SlotOKAt(sc, p, t) <==>
          && SlotDemand(sc, relays, t) <= sc.inputs[t].pv + sc.battery.maxAcCharge + IMPORT_HEADROOM_KW
          && (sc.inputs[t].buy && sc.buyCutoff.Some? ==> sc.soc0 <= sc.buyCutoff.value)
      {
        IdleAt(sc, relays, t);
      }
      assert TerminalOK(sc, p) by { IdleTerminal(sc, relays); }
    }
  }

  lemma IdleTerminal(sc: Scenario, relays: seq<seq<real>>)
    requires sc.Sane() && Schedule(sc, relays)
    ensures TerminalOK(sc, IdlePlan(sc, relays))
  {
  }

  lemma IdleAt(sc: Scenario, relays: seq<seq<real>>, t: nat)
    requires sc.Sane() && Physical(sc) && Schedule(sc, relays) && RelaysOK(sc, relays) && t < |sc.inputs|
    ensures SlotOKAt(sc, IdlePlan(sc, relays), t) <==>
      && SlotDemand(sc, relays, t) <= sc.inputs[t].pv + sc.battery.maxAcCharge + IMPORT_HEADROOM_KW
      && (sc.inputs[t].buy && sc.buyCutoff.Some? ==> sc.soc0 <= sc.buyCutoff.value)
  {
    hide LoadOK, SlotOK;
    var p := IdlePlan(sc, relays);
    LoadPowerNonNegative(sc, relays, t, |sc.loads|);
    assert SocBefore(sc, p, t) == sc.soc0;
    IdleSlotOK(sc, sc.inputs[t], SlotDemand(sc, relays, t));
  }

  // ---------------------------------------------------------------- all scenarios at once

  function IdleAssignment(scs: seq<Scenario>, relays: seq<seq<real>>): (x: Assignment)
    requires forall i :: 0 <= i < |scs| ==> Schedule(scs[i], relays)
    ensures |x| == |scs|
    ensures forall i :: 0 <= i < |scs| ==> x[i] == IdlePlan(scs[i], relays)
  {
    seq(|scs|, i requires 0 <= i < |scs| => IdlePlan(scs[i], relays))
  }

  /**
    Complete recourse: idling is feasible for the whole stochastic program, ties included, exactly
    when the one relay schedule suits the loads and no scenario runs out of import or has a cutoff
    behind its SOC; whatever that SOC is and whatever slots the modes cover.
   */
  lemma StochasticRecourse(scs: seq<Scenario>, base: nat, relays: seq<seq<real>>)
    requires SameShape(scs) && base < |scs|
    requires forall i :: 0 <= i < |scs| ==> Physical(scs[i]) && Schedule(scs[i], relays)
    ensures StochFeasible(scs, base, IdleAssignment(scs, relays)) <==>
      forall i :: 0 <= i < |scs| ==>
        RelaysOK(scs[i], relays) && Coverable(scs[i], relays) && CutoffAllowsIdle(scs[i])
  {
    hide LoadOK, RelaysOK, Coverable, CutoffAllowsIdle, SlotOKAt, Physical;
    var x := IdleAssignment(scs, relays);
    forall i | 0 <= i < |scs|
      ensures Tied(scs[0].loads, x[base], x[i])
      ensures Feasible(scs[i], x[i]) <==>
        RelaysOK(scs[i], relays) && Coverable(scs[i], relays) && CutoffAllowsIdle(scs[i])
    {
      IdleFeasible(scs[i], relays);
    }
  }

  // ---------------------------------------------------------------- a tick of the service

  /** The greatest schedule of every relay load. */
  function GreatestRelays(loads: seq<Load>): (rs: seq<seq<real>>)
    ensures |rs| == |loads|
    ensures forall l :: 0 <= l < |loads| ==>
      rs[l] == (if loads[l].config.Relayed? then Greatest(loads[l]) else seq(|loads[l].slots|, _ => 0.0))
  {
    seq(|loads|, l requires 0 <= l < |loads| =>
      if loads[l].config.Relayed? then Greatest(loads[l]) else seq(|loads[l].slots|, _ => 0.0))
  }

  /** The load's greatest schedule meets its daily targets. */
  predicate Servable(ld: Load) {
    ld.config.Relayed? ==> DemandsOK(ld, Greatest(ld))
  }

  ghost predicate CanBePlanned(ld: Load) {
    ld.config.Relayed? ==> ld.slotMinutes > 0 && StatesLast(ld)
  }

  lemma ServableExactly(ld: Load)
    requires CanBePlanned(ld) && ld.slotMinutes > 0
    ensures (exists r :: |r| == |ld.slots| && LoadOK(ld, r)) <==> Servable(ld)
    ensures LoadOK(ld, GreatestRelays([ld])[0]) <==> Servable(ld)
  {
    if ld.config.Relayed? {
      FeasibleIff(ld);
    } else {
      assert LoadOK(ld, GreatestRelays([ld])[0]);
    }
  }

  /** A load no unfinished off-block holds back is servable: its targets are already cut to what fits. */
  lemma FreeIsServable(ld: Load)
    requires CalendarOK(ld) && ld.slotMinutes > 0 && (ld.config.Relayed? ==> !OffBlockBinds(ld))
    ensures Servable(ld)
  {
    if ld.config.Relayed? {
      AllOnDemands(ld);
      assert Greatest(ld) == AllOn(ld);
    }
  }

  /** Every load has a schedule of its own exactly when all are servable, and then the greatest ones serve. */
  lemma RelaysServe(sc: Scenario)
    requires sc.Sane() && forall l :: 0 <= l < |sc.loads| ==> CanBePlanned(sc.loads[l])
    ensures Schedule(sc, GreatestRelays(sc.loads))
    ensures RelaysOK(sc, GreatestRelays(sc.loads)) <==> forall l :: 0 <= l < |sc.loads| ==> Servable(sc.loads[l])
    ensures forall relays :: Schedule(sc, relays) && RelaysOK(sc, relays) ==>
      RelaysOK(sc, GreatestRelays(sc.loads))
  {
    hide LoadOK, CanBePlanned, Servable;
    var rs := GreatestRelays(sc.loads);
    forall l | 0 <= l < |sc.loads|
      ensures LoadOK(sc.loads[l], rs[l]) <==> Servable(sc.loads[l])
      ensures forall r | |r| == |sc.inputs| && LoadOK(sc.loads[l], r) :: LoadOK(sc.loads[l], rs[l])
    {
      assert rs[l] == GreatestRelays([sc.loads[l]])[0];
      ServableExactly(sc.loads[l]);
    }
  }

  /** The tick's input makes physical sense. */
  predicate PhysicalTick(inp: LpInput) {
    && 0.0 <= inp.soc0 <= 100.0
    && (forall i :: 0 <= i < |inp.profile| ==> 0.0 <= inp.profile[i])
    && (forall i :: 0 <= i < |inp.pvForecast| ==>
      0.0 <= inp.pvForecast[i].p10 && 0.0 <= inp.pvForecast[i].p50 && 0.0 <= inp.pvForecast[i].p90)
    && (forall l :: 0 <= l < |inp.loads| && inp.loads[l].0.Relayed? ==> 0.0 <= inp.loads[l].0.draw)
  }

  /** A schedule for every load of the tick. */
  predicate Scheduled(inp: LpInput, slots: seq<int>, relays: seq<seq<real>>) {
    |relays| == |inp.loads| && forall l :: 0 <= l < |relays| ==> |relays[l]| == |slots|
  }

  /** Under every percentile used, what PV leaves of house and loads can be imported. */
  predicate ImportReaches(inp: LpInput, slots: seq<int>, pvs: seq<PvWeight>, relays: seq<seq<real>>)
    requires Buildable(inp, slots) && Scheduled(inp, slots, relays)
  {
    forall k :: 0 <= k < |pvs| ==> ReachesUnder(inp, slots, pvs[k].percentile, relays)
  }

  predicate ReachesUnder(inp: LpInput, slots: seq<int>, pv: Percentile, relays: seq<seq<real>>)
    requires Buildable(inp, slots) && Scheduled(inp, slots, relays)
  {
    forall t :: 0 <= t < |slots| ==>
      inp.profile[inp.slotIndex(slots[t])] + LoadPower(TickLoads(inp, slots), relays, t, |relays|)
        <= PvAt(inp, slots, pv, t) + inp.battery.maxAcCharge + IMPORT_HEADROOM_KW
  }

  predicate TickRelaysOK(inp: LpInput, slots: seq<int>, relays: seq<seq<real>>)
    requires inp.Sane() && Scheduled(inp, slots, relays)
  {
    forall l :: 0 <= l < |relays| ==> LoadOK(LoadAt(inp, slots, l), relays[l])
  }

  lemma {:induction false} EstimateNonNegative(forecast: seq<PvForecast>, t: int, p: Percentile)
    requires forall i :: 0 <= i < |forecast| ==>
      0.0 <= forecast[i].p10 && 0.0 <= forecast[i].p50 && 0.0 <= forecast[i].p90
    ensures 0.0 <= PvEstimateAt(forecast, t, p)
  {
    if |forecast| > 0 && !(forecast[0].start <= t < forecast[0].end) {
      EstimateNonNegative(forecast[1..], t, p);
    }
  }

  /** A scenario of the tick is physical, sees no cutoff behind its SOC, and judges relays as the tick does. */
  lemma ScenarioIdles(inp: LpInput, slots: seq<int>, sc: Scenario, pv: Percentile, ps: PriceScenario,
                      relays: seq<seq<real>>)
    requires inp.Sane() && Buildable(inp, slots) && PhysicalTick(inp) && Scheduled(inp, slots, relays)
    requires SharesTick(sc, inp, slots) && Sees(sc, inp, slots, pv, ps)
    requires inp.modes.Some? ==> CutoffAhead(inp.modes.value, inp.soc0)
    ensures Physical(sc) && Schedule(sc, relays) && CutoffAllowsIdle(sc)
    ensures RelaysOK(sc, relays) <==> TickRelaysOK(inp, slots, relays)
    ensures Coverable(sc, relays) <==> ReachesUnder(inp, slots, pv, relays)
  {
    hide LoadOK, LoadPower, PvAt;
    forall t | 0 <= t < |slots|
      ensures 0.0 <= sc.inputs[t].pv == PvAt(inp, slots, pv, t)
      ensures 0.0 <= sc.inputs[t].house == inp.profile[inp.slotIndex(slots[t])]
    {
      assert sc.inputs[t] == InputAt(inp, slots, pv, ps, t);
      PvNonNegative(inp, slots, pv, t);
    }
    forall l | 0 <= l < |inp.loads| ensures sc.loads[l] == LoadAt(inp, slots, l) {
    }
  }

  lemma PvNonNegative(inp: LpInput, slots: seq<int>, pv: Percentile, t: nat)
    requires PhysicalTick(inp) && t < |slots|
    ensures 0.0 <= PvAt(inp, slots, pv, t)
  {
    EstimateNonNegative(inp.pvForecast, slots[t], pv);
  }

  /** PV and import cover the demand under every percentile exactly when they do in every scenario. */
  lemma ReachesExactly(inp: LpInput, slots: seq<int>, pvs: seq<PvWeight>, pss: seq<PriceScenario>,
                       scs: seq<Scenario>, relays: seq<seq<real>>)
    requires inp.Sane() && Buildable(inp, slots) && |slots| > 0 && PhysicalTick(inp) && Scheduled(inp, slots, relays)
    requires inp.modes.Some? ==> CutoffAhead(inp.modes.value, inp.soc0)
    requires scs == Compound(inp, slots, pvs, pss) && |scs| > 0
    ensures forall i :: 0 <= i < |scs| ==>
      Physical(scs[i]) && Schedule(scs[i], relays) && scs[i].Sane() && CutoffAllowsIdle(scs[i])
    ensures forall i :: 0 <= i < |scs| ==> (RelaysOK(scs[i], relays) <==> TickRelaysOK(inp, slots, relays))
    ensures (forall i :: 0 <= i < |scs| ==> Coverable(scs[i], relays)) <==> ImportReaches(inp, slots, pvs, relays)
  {
    hide Compound, Sees, Physical, Coverable, CutoffAllowsIdle, RelaysOK, TickRelaysOK, PhysicalTick,
      Schedule, Buildable, CutoffAhead, LpInput.Sane, Scenario.Sane, ReachesUnder;
    CompoundSharesTick(inp, slots, pvs, pss);
    forall i | 0 <= i < |scs|
      ensures Physical(scs[i]) && Schedule(scs[i], relays) && scs[i].Sane() && CutoffAllowsIdle(scs[i])
      ensures RelaysOK(scs[i], relays) <==> TickRelaysOK(inp, slots, relays)
      ensures ImportReaches(inp, slots, pvs, relays) ==> Coverable(scs[i], relays)
    {
      var k, j := CompoundSees(inp, slots, pvs, pss, i);
      ScenarioIdles(inp, slots, scs[i], pvs[k].percentile, pss[j], relays);
    }
    forall k | 0 <= k < |pvs| && (forall i :: 0 <= i < |scs| ==> Coverable(scs[i], relays))
      ensures ReachesUnder(inp, slots, pvs[k].percentile, relays)
    {
      var _, j := CompoundSees(inp, slots, pvs, pss, 0);
      var i := CompoundCovers(inp, slots, pvs, pss, k, j);
      ScenarioIdles(inp, slots, scs[i], pvs[k].percentile, pss[j], relays);
    }
  }

  /**
    The tick's buy cutoff was pruned once reached (`ModeManager.OverridesForTick`), so with a given
    relay schedule leaving the battery alone satisfies the whole stochastic program exactly when the
    schedule suits the loads and PV and import together cover the demand under every percentile.
   */
  lemma TickIdles(inp: LpInput, weights: seq<PvWeight>, mode: Mode, relays: seq<seq<real>>)
    requires inp.Sane() && StochasticOf(inp, weights, mode).Ok? && PhysicalTick(inp)
    requires Scheduled(inp, TickSlots(inp), relays)
    requires inp.modes.Some? ==> CutoffAhead(inp.modes.value, inp.soc0)
    ensures var st := StochasticOf(inp, weights, mode).value;
      && Buildable(inp, TickSlots(inp)) && SameShape(st.scenarios) && st.base < |st.scenarios|
      && (forall i :: 0 <= i < |st.scenarios| ==> Schedule(st.scenarios[i], relays))
      && (StochFeasible(st.scenarios, st.base, IdleAssignment(st.scenarios, relays)) <==>
        && TickRelaysOK(inp, TickSlots(inp), relays)
        && ImportReaches(inp, TickSlots(inp), PvWeightsUsed(weights), relays))
  {
    hide StochasticOf, Compound, Physical, Coverable, CutoffAllowsIdle, RelaysOK, TickRelaysOK, PhysicalTick,
      Schedule, Buildable, CutoffAhead, SameShape, StochFeasible, ImportReaches, Scheduled;
    var st := StochasticOf(inp, weights, mode).value;
    StochasticShape(inp, weights, mode);
    ReachesExactly(inp, TickSlots(inp), PvWeightsUsed(weights), ScenariosOf(mode, DEFAULT_BAND_WEIGHTS),
                   st.scenarios, relays);
    StochasticRecourse(st.scenarios, st.base, relays);
    assert RelaysOK(st.scenarios[0], relays) <==> TickRelaysOK(inp, TickSlots(inp), relays);
  }

  // ---------------------------------------------------------------- the loads of a tick

  /** The tick knows the local day of every slot, no slot straddles a midnight, and blocks fit a day. */
  ghost predicate DaysInOrder(inp: LpInput, slots: seq<int>) {
    && (forall t, d :: 0 <= t < |slots| && slots[t] < inp.calendar.dayStart(d) ==>
      slots[t] + inp.slotMinutes * US_PER_MINUTE <= inp.calendar.dayStart(d))
    && (forall l :: 0 <= l < |inp.loads| ==>
      CalendarOK(LoadAt(inp, slots, l)) && BlocksFitDays(LoadAt(inp, slots, l)))
  }

  lemma TickLoadsPlanned(inp: LpInput, l: nat)
    requires 0 < inp.slotMinutes && |TickSlots(inp)| > 0 && DaysInOrder(inp, TickSlots(inp)) && l < |inp.loads|
    ensures CanBePlanned(LoadAt(inp, TickSlots(inp), l))
  {
    hide CalendarOK, BlocksFitDays, StatesLast, TickSlots;
    var ld := LoadAt(inp, TickSlots(inp), l);
    TickSlotsSpaced(inp);
    assert GridOK(ld);
    if ld.config.Relayed? {
      DaysLast(ld);
    }
  }

  lemma TickRelaysServe(inp: LpInput, slots: seq<int>, sc: Scenario)
    requires inp.Sane() && Buildable(inp, slots) && SharesTick(sc, inp, slots)
    requires forall l :: 0 <= l < |inp.loads| ==> CanBePlanned(LoadAt(inp, slots, l))
    ensures var greatest := GreatestRelays(TickLoads(inp, slots));
      && Scheduled(inp, slots, greatest)
      && (TickRelaysOK(inp, slots, greatest) <==> forall l :: 0 <= l < |inp.loads| ==> Servable(LoadAt(inp, slots, l)))
      && forall p :: Feasible(sc, p) ==> TickRelaysOK(inp, slots, greatest)
  {
    hide LoadOK, CanBePlanned, Servable, SlotOKAt, TerminalOK;
    forall l | 0 <= l < |inp.loads| ensures sc.loads[l] == LoadAt(inp, slots, l) {
    }
    RelaysServe(sc);
    forall p | Feasible(sc, p) ensures RelaysOK(sc, GreatestRelays(sc.loads)) {
      assert Schedule(sc, p.relays) && RelaysOK(sc, p.relays);
    }
  }

  lemma AnyPlanServes(scs: seq<Scenario>, base: nat, served: bool)
    requires SameShape(scs) && base < |scs|
    requires forall p :: Feasible(scs[0], p) ==> served
    ensures forall x :: StochFeasible(scs, base, x) ==> served
  {
    hide Tied;
    forall x | StochFeasible(scs, base, x) ensures served {
      assert Feasible(scs[0], x[0]);
    }
  }

  /**
    Where PV and import can carry the loads' greatest schedules, a tick's stochastic program has a
    plan if and only if every load's greatest schedule meets its daily targets.
   */
  lemma TickHasPlanIff(inp: LpInput, weights: seq<PvWeight>, mode: Mode)
    requires inp.Sane() && StochasticOf(inp, weights, mode).Ok? && PhysicalTick(inp)
    requires DaysInOrder(inp, TickSlots(inp))
    requires inp.modes.Some? ==> CutoffAhead(inp.modes.value, inp.soc0)
    requires var slots := TickSlots(inp);
      var greatest := GreatestRelays(TickLoads(inp, slots));
      Buildable(inp, slots) && Scheduled(inp, slots, greatest) &&
      ImportReaches(inp, slots, PvWeightsUsed(weights), greatest)
    ensures var st := StochasticOf(inp, weights, mode).value;
      && SameShape(st.scenarios) && st.base < |st.scenarios|
      && ((exists x :: StochFeasible(st.scenarios, st.base, x)) <==>
        forall l :: 0 <= l < |inp.loads| ==> Servable(LoadAt(inp, TickSlots(inp), l)))
  {
    hide StochasticOf, Compound, TickRelaysOK, PhysicalTick, Buildable, CutoffAhead, SameShape, ImportReaches,
      Scheduled, DaysInOrder, Servable, CanBePlanned, GreatestRelays, TickSlots, SharesTick, Feasible, Tied;
    var st, slots := StochasticOf(inp, weights, mode).value, TickSlots(inp);
    StochasticShape(inp, weights, mode);
    CompoundSharesTick(inp, slots, PvWeightsUsed(weights), ScenariosOf(mode, DEFAULT_BAND_WEIGHTS));
    forall l | 0 <= l < |inp.loads| ensures CanBePlanned(LoadAt(inp, slots, l)) {
      TickLoadsPlanned(inp, l);
    }
    TickRelaysServe(inp, slots, st.scenarios[0]);
    TickIdles(inp, weights, mode, GreatestRelays(TickLoads(inp, slots)));
    AnyPlanServes(st.scenarios, st.base, TickRelaysOK(inp, slots, GreatestRelays(TickLoads(inp, slots))));
  }
}
