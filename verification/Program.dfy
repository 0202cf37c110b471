/**
  The optimisation problem of lp/formulation.py, stated declaratively: when a plan is feasible for
  one scenario, what it costs, and how the scenarios of the stochastic program are tied together.
 */
module Program {
  import opened Options
  import opened Reals
  import opened Plans
  import opened Loads

  // lp/constants.py, in cents
  const EXPORT_TIE_BREAK := 0.05
  const IMPORT_TIE_BREAK := 0.05
  const CURTAIL_PENALTY := 1.0
  const SOC_PENALTY := 10000.0
  const BUY_INCENTIVE := 1000.0
  const IMPORT_HEADROOM_KW := 20.0

  datatype Battery = Battery(
    capacityKwh: real,
    socFloor: real,
    socCeiling: real,
    dischargeCutoff: real,
    backupSoc: real,
    maxAcCharge: real,
    maxDcCharge: real,
    maxDischarge: real,
    efficiency: real,
    exportLimit: real)
  {
    /** The highest of the three configured floor-like bounds. */
    function Floor(): real { Max(socFloor, Max(backupSoc, dischargeCutoff)) }

    /** Limits and efficiency a working battery has. */
    predicate Sane() {
      && 0.0 < capacityKwh
      && 0.0 < efficiency <= 1.0
      && 0.0 <= maxAcCharge && 0.0 <= maxDcCharge && 0.0 <= maxDischarge && 0.0 <= exportLimit
    }
  }

  /** What one slot looks like in one scenario, prices resolved. */
  datatype Input = Input(
    pv: real,
    house: real,
    importPrice: real,
    exportPrice: real,
    buy: bool,
    conserve: bool)

  datatype Scenario = Scenario(
    weight: real,
    battery: Battery,
    soc0: real,
    slotHours: real,
    inputs: seq<Input>,
    loads: seq<Load>,
    wear: real,
    terminalFloor: real,
    buyCeiling: Option<real>,
    buyCutoff: Option<real>,
    conserveFloor: Option<real>)
  {
    predicate Sane() {
      && battery.Sane()
      && 0.0 < slotHours
      && |inputs| > 0
      && forall l :: 0 <= l < |loads| ==> |loads[l].slots| == |inputs| && loads[l].slotMinutes > 0
    }

    /** Percent of SOC per kW held for one slot. */
    function PctPerKw(): real
      requires battery.capacityKwh != 0.0
    {
      slotHours / battery.capacityKwh * 100.0
    }

    /** The hard floor, lowered to the initial SOC when that is already below it. */
    function EffectiveFloor(): real { Min(soc0, battery.Floor()) }
  }

  // ---------------------------------------------------------------- feasibility

  /** What the first `k` loads draw at slot `t`. */
  function LoadPower(loads: seq<Load>, relays: seq<seq<real>>, t: nat, k: nat): real
    requires k <= |loads| && |relays| == |loads|
    requires forall l :: 0 <= l < |relays| ==> t < |relays[l]|
  {
    if k == 0 then 0.0
    else LoadPower(loads, relays, t, k - 1) + loads[k - 1].PowerAt(relays[k - 1][t])
  }

  /** House base load plus managed loads at slot `t`. */
  function SlotDemand(sc: Scenario, relays: seq<seq<real>>, t: nat): real
    requires t < |sc.inputs| && |relays| == |sc.loads|
    requires forall l :: 0 <= l < |relays| ==> t < |relays[l]|
  {
    sc.inputs[t].house + LoadPower(sc.loads, relays, t, |sc.loads|)
  }

  predicate WithinBounds(b: Battery, pv: real, s: Slot) {
    && 0.0 <= s.bcg <= b.maxAcCharge
    && 0.0 <= s.bcp <= b.maxDcCharge
    && 0.0 <= s.bd <= b.maxDischarge
    && 0.0 <= s.gi <= b.maxAcCharge + IMPORT_HEADROOM_KW
    && 0.0 <= s.ge <= b.exportLimit
    && 0.0 <= s.pvh <= pv
    && 0.0 <= s.pvb <= pv
    && 0.0 <= s.pve <= pv
    && 0.0 <= s.pvc <= pv
    && 0.0 <= s.soc <= 100.0
    && 0.0 <= s.over
  }

  /** PV allocation and the system balance of one slot. */
  predicate FlowsOK(pv: real, demand: real, s: Slot) {
    && s.pvh + s.pvb + s.pve + s.pvc == pv
    && s.bcp == s.pvb
    && pv - s.pvc + s.bd + s.gi == demand + s.bcg + s.bcp + s.ge
    && s.bcg <= s.gi
    && s.pvh <= demand
    && s.pve <= s.ge
  }

  predicate BandOK(sc: Scenario, s: Slot) {
    && s.soc <= sc.battery.socCeiling + s.over
    && s.soc >= sc.EffectiveFloor()
  }

  predicate DynamicsOK(sc: Scenario, prev: real, s: Slot)
    requires sc.battery.capacityKwh != 0.0
  {
    s.soc == prev + sc.PctPerKw() * (sc.battery.efficiency * (s.bcg + s.bcp) - s.bd)
  }

  predicate BuyOK(sc: Scenario, i: Input, s: Slot) {
    i.buy ==>
      && (sc.buyCeiling.Some? && i.importPrice > sc.buyCeiling.value ==> s.bcg == 0.0)
      && s.ge <= s.pve
      && (sc.buyCutoff.Some? ==> s.soc <= sc.buyCutoff.value)
  }

  predicate ConserveOK(sc: Scenario, i: Input, s: Slot) {
    i.conserve && sc.conserveFloor.Some? && i.exportPrice < sc.conserveFloor.value ==> s.ge == 0.0
  }

  /** Every constraint on one slot, given the SOC it starts from and the demand it must serve. */
  predicate SlotOK(sc: Scenario, i: Input, prev: real, demand: real, s: Slot)
    requires sc.battery.capacityKwh != 0.0
  {
    && WithinBounds(sc.battery, i.pv, s)
    && FlowsOK(i.pv, demand, s)
    && BandOK(sc, s)
    && DynamicsOK(sc, prev, s)
    && BuyOK(sc, i, s)
    && ConserveOK(sc, i, s)
  }

  function SocBefore(sc: Scenario, p: Plan, t: nat): real
    requires t < |p.slots|
  {
    if t == 0 then sc.soc0 else p.slots[t - 1].soc
  }

  predicate SlotOKAt(sc: Scenario, p: Plan, t: nat)
    requires sc.Sane() && PlanShaped(p, |sc.inputs|, |sc.loads|) && t < |sc.inputs|
  {
    SlotOK(sc, sc.inputs[t], SocBefore(sc, p, t), SlotDemand(sc, p.relays, t), p.slots[t])
  }

  predicate TerminalOK(sc: Scenario, p: Plan)
    requires |p.slots| > 0
  {
    && 0.0 <= p.terminalSlack
    && p.slots[|p.slots| - 1].soc >= sc.terminalFloor - p.terminalSlack
  }

  predicate LoadsOK(sc: Scenario, p: Plan)
    requires sc.Sane() && PlanShaped(p, |sc.inputs|, |sc.loads|)
  {
    forall l :: 0 <= l < |sc.loads| ==> LoadOK(sc.loads[l], p.relays[l])
  }

  /** The plan satisfies every constraint of the scenario. */
  predicate Feasible(sc: Scenario, p: Plan)
    requires sc.Sane()
  {
    && PlanShaped(p, |sc.inputs|, |sc.loads|)
    && (forall t :: 0 <= t < |sc.inputs| ==> SlotOKAt(sc, p, t))
    && TerminalOK(sc, p)
    && LoadsOK(sc, p)
  }

  // ---------------------------------------------------------------- cost

  /** Cents per hour for imports; importing at a non-positive price is nudged up. */
  function ImportRate(i: Input, s: Slot): real {
    i.importPrice * s.gi - (if i.importPrice <= 0.0 then IMPORT_TIE_BREAK * s.gi else 0.0)
  }

  /** Cents per hour earned by exports; exporting at a non-positive price is nudged down. */
  function ExportRate(i: Input, s: Slot): real {
    i.exportPrice * s.ge - (if i.exportPrice <= 0.0 then EXPORT_TIE_BREAK * s.ge else 0.0)
  }

  /** Cents per hour for battery wear; charging that a mode asks for is free of it. */
  function WearRate(sc: Scenario, i: Input, s: Slot): real {
    sc.wear * ((if i.buy then 0.0 else s.bcg) + (if i.conserve then 0.0 else s.bcp) + s.bd)
  }

  /** The part of a slot's cost that is real money: energy, tie-breaks, wear and curtailment. */
  function EconomicSlotCost(sc: Scenario, i: Input, s: Slot): real {
    sc.slotHours * (ImportRate(i, s) - ExportRate(i, s) + WearRate(sc, i, s) + CURTAIL_PENALTY * s.pvc)
  }

  function SlotCost(sc: Scenario, i: Input, s: Slot): real {
    EconomicSlotCost(sc, i, s) + SOC_PENALTY * s.over
  }

  function SlotCosts(sc: Scenario, p: Plan, k: nat): real
    requires k <= |sc.inputs| && |p.slots| == |sc.inputs|
  {
    if k == 0 then 0.0 else SlotCosts(sc, p, k - 1) + SlotCost(sc, sc.inputs[k - 1], p.slots[k - 1])
  }

  function EconomicCosts(sc: Scenario, p: Plan, k: nat): real
    requires k <= |sc.inputs| && |p.slots| == |sc.inputs|
  {
    if k == 0 then 0.0
    else EconomicCosts(sc, p, k - 1) + EconomicSlotCost(sc, sc.inputs[k - 1], p.slots[k - 1])
  }

  /** The last slot before `k` in the buy window. */
  function LastBuy(inputs: seq<Input>, k: nat): (t: Option<nat>)
    requires k <= |inputs|
    ensures t.Some? ==> t.value < k && inputs[t.value].buy
    ensures forall u :: 0 <= u < k && inputs[u].buy ==> t.Some? && u <= t.value
  {
    if k == 0 then None
    else if inputs[k - 1].buy then Some(k - 1)
    else LastBuy(inputs, k - 1)
  }

  /** The reward for SOC at the end of the buy window. */
  function BuyReward(sc: Scenario, p: Plan): real
    requires |p.slots| == |sc.inputs|
  {
    var last := LastBuy(sc.inputs, |sc.inputs|);
    if last.Some? then BUY_INCENTIVE * p.slots[last.value].soc else 0.0
  }

  /** The objective contribution of one scenario before weighting. */
  function Cost(sc: Scenario, p: Plan): real
    requires |p.slots| == |sc.inputs|
  {
    SlotCosts(sc, p, |sc.inputs|) + SOC_PENALTY * p.terminalSlack - BuyReward(sc, p)
  }

  // ---------------------------------------------------------------- the stochastic program

  /** Scenarios are copies of one problem: same horizon, same loads. */
  ghost predicate SameShape(scs: seq<Scenario>) {
    && |scs| > 0
    && (forall i :: 0 <= i < |scs| ==> scs[i].Sane())
    && (forall i :: 0 <= i < |scs| ==> |scs[i].inputs| == |scs[0].inputs| && scs[i].loads == scs[0].loads)
  }

  /** Same net battery power at slot 0 and same relay schedule at every slot. */
  predicate Tied(loads: seq<Load>, a: Plan, b: Plan)
    requires |a.slots| > 0 && |b.slots| > 0
    requires |a.relays| == |loads| && |b.relays| == |loads|
  {
    && b.slots[0].Net() == a.slots[0].Net()
    && forall l :: 0 <= l < |loads| && loads[l].config.Relayed? ==> b.relays[l] == a.relays[l]
  }

  ghost predicate StochFeasible(scs: seq<Scenario>, base: nat, x: Assignment)
    requires SameShape(scs) && base < |scs|
  {
    && |x| == |scs|
    && (forall i :: 0 <= i < |scs| ==> Feasible(scs[i], x[i]))
    && (forall i :: 0 <= i < |scs| ==> Tied(scs[0].loads, x[base], x[i]))
  }

  function ScenarioWeights(scs: seq<Scenario>): (ws: seq<real>)
    ensures |ws| == |scs|
    ensures forall i :: 0 <= i < |scs| ==> ws[i] == scs[i].weight
  {
    seq(|scs|, i requires 0 <= i < |scs| => scs[i].weight)
  }

  /** Each scenario's own cost. */
  function ScenarioCosts(scs: seq<Scenario>, x: Assignment): (cs: seq<real>)
    requires |scs| == |x|
    requires forall i :: 0 <= i < |scs| ==> |x[i].slots| == |scs[i].inputs|
    ensures |cs| == |scs|
    ensures forall i :: 0 <= i < |scs| ==> cs[i] == Cost(scs[i], x[i])
  {
    seq(|scs|, i requires 0 <= i < |scs| => Cost(scs[i], x[i]))
  }

  /** The objective: the scenarios' costs, weighted. */
  function StochCost(scs: seq<Scenario>, x: Assignment): real
    requires |scs| == |x|
    requires forall i :: 0 <= i < |scs| ==> |x[i].slots| == |scs[i].inputs|
  {
    Dot(ScenarioWeights(scs), ScenarioCosts(scs, x))
  }
}
