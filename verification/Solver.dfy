/** From the solver's values to what the service commits and reports (lp/solver.py). */
module Solver {
  import opened Options
  import opened Reals
  import opened Plans
  import opened Pulp
  import opened Loads
  import opened Program
  import opened PlanEnergy

  /** `NUMERIC_EPS` in lp/constants.py, in kW. */
  const NUMERIC_EPS := 0.0001

  datatype Decision = Decision(
    start: int,
    battery: real,
    gridImport: real,
    gridExport: real,
    pvToHouse: real,
    pvToBattery: real,
    pvToExport: real,
    gridToBattery: real,
    socEnd: real,
    loads: seq<real>)

  /** The relay state commanded for one load; nothing for a load that is only observed. */
  type Command = Option<bool>

  datatype Solution = Solution(
    trajectory: seq<Decision>,
    commands: seq<Command>,
    exportLimit: real,
    cost: real)

  // ---------------------------------------------------------------- what the reported cost is

  function OverTotal(p: Plan, k: nat): real
    requires k <= |p.slots|
  {
    if k == 0 then 0.0 else OverTotal(p, k - 1) + p.slots[k - 1].over
  }

  function Penalty(p: Plan): real {
    SOC_PENALTY * (OverTotal(p, |p.slots|) + p.terminalSlack)
  }

  /** Each scenario's real money: energy, tie-breaks, wear and curtailment. */
  function ScenarioBills(scs: seq<Scenario>, x: Assignment): (cs: seq<real>)
    requires |scs| == |x|
    requires forall i :: 0 <= i < |scs| ==> |x[i].slots| == |scs[i].inputs|
    ensures |cs| == |scs|
    ensures forall i :: 0 <= i < |scs| ==> cs[i] == EconomicCosts(scs[i], x[i], |scs[i].inputs|)
  {
    seq(|scs|, i requires 0 <= i < |scs| => EconomicCosts(scs[i], x[i], |scs[i].inputs|))
  }

  function ExpectedBill(scs: seq<Scenario>, x: Assignment): real
    requires |scs| == |x|
    requires forall i :: 0 <= i < |scs| ==> |x[i].slots| == |scs[i].inputs|
  {
    Dot(ScenarioWeights(scs), ScenarioBills(scs, x))
  }

  lemma {:induction false} SlotCostsSplit(sc: Scenario, p: Plan, k: nat)
    requires k <= |sc.inputs| == |p.slots|
    ensures SlotCosts(sc, p, k) == EconomicCosts(sc, p, k) + SOC_PENALTY * OverTotal(p, k)
  {
    hide EconomicSlotCost;
    if k == 0 {
    } else {
      SlotCostsSplit(sc, p, k - 1);
    }
  }

  /** Without its slacks and its buy reward a scenario's cost is its bill. */
  lemma CostIsBill(sc: Scenario, p: Plan)
    requires |sc.inputs| == |p.slots|
    ensures Cost(sc, p) - Penalty(p) + BuyReward(sc, p) == EconomicCosts(sc, p, |sc.inputs|)
  {
    SlotCostsSplit(sc, p, |sc.inputs|);
  }

  function ScenarioPenalties(scs: seq<Scenario>, x: Assignment): (ps: seq<real>)
    requires |scs| == |x|
    ensures |ps| == |scs|
    ensures forall i :: 0 <= i < |scs| ==> ps[i] == Penalty(x[i])
  {
    seq(|scs|, i requires 0 <= i < |scs| => Penalty(x[i]))
  }

  function ScenarioRewards(scs: seq<Scenario>, x: Assignment): (rs: seq<real>)
    requires |scs| == |x|
    requires forall i :: 0 <= i < |scs| ==> |x[i].slots| == |scs[i].inputs|
    ensures |rs| == |scs|
    ensures forall i :: 0 <= i < |scs| ==> rs[i] == BuyReward(scs[i], x[i])
  {
    seq(|scs|, i requires 0 <= i < |scs| => BuyReward(scs[i], x[i]))
  }

  /** The slack penalty of one plan, as the source sums it. */
  method PenaltyOf(p: Plan) returns (penalty: real)
    ensures penalty == Penalty(p)
  {
    var parts := 0.0;
    for t := 0 to |p.slots|
      invariant parts == OverTotal(p, t)
    {
      parts := parts + p.slots[t].over;
    }
    penalty := SOC_PENALTY * (parts + p.terminalSlack);
  }

  method RewardOf(sc: Scenario, p: Plan) returns (reward: real)
    requires |p.slots| == |sc.inputs|
    ensures reward == BuyReward(sc, p)
  {
    var last := LastBuy(sc.inputs, |sc.inputs|);
    reward := if last.Some? then BUY_INCENTIVE * p.slots[last.value].soc else 0.0;
  }

  lemma ObjectiveLessAdjustments(scs: seq<Scenario>, x: Assignment)
    requires |scs| == |x|
    requires forall i :: 0 <= i < |scs| ==> |x[i].slots| == |scs[i].inputs|
    ensures var w := ScenarioWeights(scs);
      StochCost(scs, x) - Dot(w, ScenarioPenalties(scs, x)) + Dot(w, ScenarioRewards(scs, x)) == ExpectedBill(scs, x)
  {
    hide Cost, Penalty, BuyReward, EconomicCosts;
    forall i | 0 <= i < |scs|
      ensures EconomicCosts(scs[i], x[i], |scs[i].inputs|)
        == Cost(scs[i], x[i]) - Penalty(x[i]) + BuyReward(scs[i], x[i])
    {
      CostIsBill(scs[i], x[i]);
    }
    DotCombine(ScenarioWeights(scs), ScenarioCosts(scs, x), ScenarioPenalties(scs, x),
               ScenarioRewards(scs, x), ScenarioBills(scs, x));
  }

  /** The penalties of all scenarios, weighted. */
  method TotalPenalty(scs: seq<Scenario>, x: Assignment) returns (total: real)
    requires |scs| == |x|
    ensures total == Dot(ScenarioWeights(scs), ScenarioPenalties(scs, x))
  {
    hide Penalty;
    total := 0.0;
    ghost var w, ps := ScenarioWeights(scs), ScenarioPenalties(scs, x);
    for i := 0 to |scs|
      invariant total == Dot(w[..i], ps[..i])
    {
      var penalty := PenaltyOf(x[i]);
      total := total + scs[i].weight * penalty;
      DotTake(w, ps, i);
    }
    assert w[..|scs|] == w && ps[..|scs|] == ps;
  }

  /** The buy rewards of all scenarios, weighted. */
  method TotalReward(scs: seq<Scenario>, x: Assignment) returns (total: real)
    requires |scs| == |x|
    requires forall i :: 0 <= i < |scs| ==> |x[i].slots| == |scs[i].inputs|
    ensures total == Dot(ScenarioWeights(scs), ScenarioRewards(scs, x))
  {
    hide BuyReward;
    total := 0.0;
    ghost var w, rs := ScenarioWeights(scs), ScenarioRewards(scs, x);
    for i := 0 to |scs|
      invariant total == Dot(w[..i], rs[..i])
    {
      var reward := RewardOf(scs[i], x[i]);
      total := total + scs[i].weight * reward;
      DotTake(w, rs, i);
    }
    assert w[..|scs|] == w && rs[..|scs|] == rs;
  }

  /**
    The reported cost: the objective less the slack penalties plus the buy rewards. Every penalty
    and reward cancels, so what is left is the weighted bill.
   */
  method ReportedCost(scs: seq<Scenario>, x: Assignment, raw: real) returns (cost: real)
    requires |scs| == |x|
    requires forall i :: 0 <= i < |scs| ==> |x[i].slots| == |scs[i].inputs|
    requires raw == StochCost(scs, x)
    ensures cost == ExpectedBill(scs, x)
  {
    hide Penalty, BuyReward, StochCost, ExpectedBill;
    var penalties := TotalPenalty(scs, x);
    var rewards := TotalReward(scs, x);
    cost := raw - penalties + rewards;
    ObjectiveLessAdjustments(scs, x);
  }

  // ---------------------------------------------------------------- the export cap

  predicate PlansExport(x: Assignment, k: nat)
    requires k <= |x| && forall i :: 0 <= i < |x| ==> |x[i].slots| > 0
  {
    exists i :: 0 <= i < k && x[i].slots[0].ge >= NUMERIC_EPS
  }

  /** The cap written to the inverter: the site limit when any scenario plans to export, else zero. */
  method ExportCap(x: Assignment, limit: real) returns (cap: real)
    requires forall i :: 0 <= i < |x| ==> |x[i].slots| > 0
    ensures cap == if PlansExport(x, |x|) then limit else 0.0
  {
    for i := 0 to |x|
      invariant !PlansExport(x, i)
    {
      if x[i].slots[0].ge >= NUMERIC_EPS {
        return limit;
      }
    }
    cap := 0.0;
  }

  function CapOf(x: Assignment, limit: real): real
    requires forall i :: 0 <= i < |x| ==> |x[i].slots| > 0
  {
    if PlansExport(x, |x|) then limit else 0.0
  }

  /**
    The cap leaves room for every scenario's slot-0 export exactly when some scenario plans a
    material export or none exports anything; only an export below the noise threshold is cut.
   */
  lemma CapCoversPlans(scs: seq<Scenario>, base: nat, x: Assignment, limit: real)
    requires SameShape(scs) && base < |scs| && StochFeasible(scs, base, x)
    requires forall i :: 0 <= i < |scs| ==> scs[i].battery.exportLimit == limit
    ensures (forall i :: 0 <= i < |x| ==> x[i].slots[0].ge <= CapOf(x, limit)) <==>
      PlansExport(x, |x|) || (forall i :: 0 <= i < |x| ==> x[i].slots[0].ge == 0.0)
  {
    hide LoadsOK, DynamicsOK, FlowsOK, BandOK;
    forall i | 0 <= i < |x| ensures 0.0 <= x[i].slots[0].ge <= limit {
      assert Feasible(scs[i], x[i]) && SlotOKAt(scs[i], x[i], 0);
    }
  }

  /** Last light: one slot with a twentieth of a watt to spare and a price to sell it at. */
  function Dusk(): Scenario {
    Scenario(1.0, Battery(10.0, 10.0, 90.0, 5.0, 10.0, 5.0, 5.0, 5.0, 0.9, 5.0), 50.0, 0.5,
             [Input(0.00005, 0.0, 30.0, 8.0, false, false)], [], 2.5, 20.0, None, None, None)
  }

  function DuskPlan(): Plan {
    Plan([Slot(0.0, 0.0, 0.0, 0.0, 0.00005, 0.0, 0.0, 0.00005, 0.0, 50.0, 0.0)], 0.0, [])
  }

  lemma DuskSlotOK()
    ensures SlotOK(Dusk(), Dusk().inputs[0], 50.0, 0.0, DuskPlan().slots[0])
  {
    var sc, s := Dusk(), DuskPlan().slots[0];
    assert sc.battery.efficiency * (s.bcg + s.bcp) - s.bd == 0.0;
    NothingStored(sc.PctPerKw());
  }

  lemma NothingStored(k: real)
    ensures 50.0 + k * 0.0 == 50.0
  {
  }

  lemma DuskFeasible()
    ensures Dusk().Sane() && Feasible(Dusk(), DuskPlan())
  {
    hide SlotOK;
    DuskSlotOK();
    var sc, p := Dusk(), DuskPlan();
    assert LoadPower(sc.loads, p.relays, 0, 0) == 0.0;
    assert SlotOKAt(sc, p, 0);
  }

  /** A plan on its own is feasible for the program of its one scenario. */
  lemma SingleFeasible(sc: Scenario, p: Plan)
    requires sc.Sane() && Feasible(sc, p)
    ensures SameShape([sc]) && StochFeasible([sc], 0, [p])
  {
    hide Scenario.Sane, SlotOKAt, LoadsOK, TerminalOK;
  }

  lemma SingleCap(p: Plan, limit: real)
    requires |p.slots| > 0 && p.slots[0].ge < NUMERIC_EPS
    ensures CapOf([p], limit) == 0.0
  {
  }

  /** A feasible plan whose export is below the noise threshold is cut to nothing by the cap. */
  lemma TinyExportIsCut()
    ensures SameShape([Dusk()]) && StochFeasible([Dusk()], 0, [DuskPlan()])
    ensures CapOf([DuskPlan()], Dusk().battery.exportLimit) == 0.0 < DuskPlan().slots[0].ge
  {
    DuskFeasible();
    SingleCap(DuskPlan(), Dusk().battery.exportLimit);
    hide Feasible, Dusk, CapOf, SameShape, StochFeasible;
    SingleFeasible(Dusk(), DuskPlan());
  }

  // ---------------------------------------------------------------- trajectory and commands

  /** Reported flows account for the slot's demand: what comes in goes out. */
  predicate Accounts(i: Input, d: Decision)
  {
    d.pvToHouse + d.pvToBattery + d.pvToExport + d.gridImport
      == i.house + Sum(d.loads) + d.battery + d.gridExport
  }

  function LoadPowers(sc: Scenario, p: Plan, t: nat, k: nat): (ks: seq<real>)
    requires PlanShaped(p, |sc.inputs|, |sc.loads|) && t < |sc.inputs| && k <= |sc.loads|
    ensures |ks| == k && forall l :: 0 <= l < k ==> ks[l] == sc.loads[l].PowerAt(p.relays[l][t])
  {
    seq(k, l requires 0 <= l < k => sc.loads[l].PowerAt(p.relays[l][t]))
  }

  lemma {:induction false} LoadPowersSum(sc: Scenario, p: Plan, t: nat, k: nat)
    requires PlanShaped(p, |sc.inputs|, |sc.loads|) && t < |sc.inputs| && k <= |sc.loads|
    ensures Sum(LoadPowers(sc, p, t, k)) == LoadPower(sc.loads, p.relays, t, k)
  {
    if k == 0 {
    } else {
      LoadPowersSum(sc, p, t, k - 1);
      assert LoadPowers(sc, p, t, k)[..k - 1] == LoadPowers(sc, p, t, k - 1);
    }
  }

  function DecisionAt(sc: Scenario, p: Plan, slots: seq<int>, t: nat): Decision
    requires PlanShaped(p, |sc.inputs|, |sc.loads|) && |slots| == |sc.inputs| && t < |slots|
  {
    var s := p.slots[t];
    Decision(slots[t], s.Net(), s.gi, s.ge, s.pvh, s.pvb, s.pve, s.bcg, s.soc, LoadPowers(sc, p, t, |sc.loads|))
  }

  /** The trajectory loop, with its inner loop over the loads. */
  method Trajectory(sc: Scenario, p: Plan, slots: seq<int>) returns (trajectory: seq<Decision>)
    requires PlanShaped(p, |sc.inputs|, |sc.loads|) && |slots| == |sc.inputs|
    ensures |trajectory| == |slots|
    ensures forall t :: 0 <= t < |slots| ==> trajectory[t] == DecisionAt(sc, p, slots, t)
  {
    trajectory := [];
    for t := 0 to |slots|
      invariant |trajectory| == t
      invariant forall u :: 0 <= u < t ==> trajectory[u] == DecisionAt(sc, p, slots, u)
    {
      var s := p.slots[t];
      var loads := [];
      for l := 0 to |sc.loads|
        invariant loads == LoadPowers(sc, p, t, l)
      {
        loads := loads + [sc.loads[l].PowerAt(p.relays[l][t])];
      }
      trajectory := trajectory
        + [Decision(slots[t], s.bcg + s.bcp - s.bd, s.gi, s.ge, s.pvh, s.pvb, s.pve, s.bcg, s.soc, loads)];
    }
  }

  /** The battery power reported as discharge: what charging, less the net, leaves over. */
  function Discharge(d: Decision): real { d.gridToBattery + d.pvToBattery - d.battery }

  /** The state of charge a reported slot starts from. */
  function StartSoc(sc: Scenario, trajectory: seq<Decision>, t: nat): real
    requires t <= |trajectory|
  {
    if t == 0 then sc.soc0 else trajectory[t - 1].socEnd
  }

  /** The reported flows into and out of the battery are ones it can carry, and lead from SOC to SOC. */
  predicate BatteryTold(sc: Scenario, start: real, d: Decision) {
    var b := sc.battery;
    && 0.0 <= d.gridToBattery <= b.maxAcCharge && d.gridToBattery <= d.gridImport
    && 0.0 <= d.pvToBattery <= b.maxDcCharge
    && 0.0 <= Discharge(d) <= b.maxDischarge
    && (d.socEnd - start) * b.capacityKwh
      == 100.0 * (sc.slotHours * (b.efficiency * (d.gridToBattery + d.pvToBattery) - Discharge(d)))
    && KeepsFloors(sc, d.socEnd) && 0.0 <= d.socEnd <= 100.0
  }

  /** PV goes to the house, the battery and the grid, never more than the forecast or than they take. */
  predicate SunTold(sc: Scenario, i: Input, d: Decision) {
    && 0.0 <= d.pvToHouse <= i.house + Sum(d.loads)
    && 0.0 <= d.pvToExport <= d.gridExport <= sc.battery.exportLimit
    && d.pvToHouse + d.pvToBattery + d.pvToExport <= i.pv
  }

  predicate LoadsTold(sc: Scenario, relays: seq<seq<real>>, t: nat, d: Decision)
    requires |relays| == |sc.loads| && forall l :: 0 <= l < |relays| ==> t < |relays[l]|
  {
    && |d.loads| == |sc.loads|
    && forall l :: 0 <= l < |d.loads| ==>
      d.loads[l] == if sc.loads[l].config.Relayed? then relays[l][t] * sc.loads[l].config.draw else 0.0
  }

  /**
    What a reported trajectory tells: in every slot all energy is accounted for, the battery flows are
    possible and turn the SOC reported before into the one reported after, and the PV and load
    flows are those of the forecast, what is curtailed apart, and of the relay schedule.
   */
  predicate Tells(sc: Scenario, p: Plan, slots: seq<int>, trajectory: seq<Decision>)
    requires PlanShaped(p, |sc.inputs|, |sc.loads|)
  {
    && |trajectory| == |slots| == |sc.inputs|
    && forall t :: 0 <= t < |slots| ==>
      var d := trajectory[t];
      && d.start == slots[t]
      && Accounts(sc.inputs[t], d)
      && BatteryTold(sc, StartSoc(sc, trajectory, t), d)
      && SunTold(sc, sc.inputs[t], d)
      && d.pvToHouse + d.pvToBattery + d.pvToExport == sc.inputs[t].pv - p.slots[t].pvc
      && LoadsTold(sc, p.relays, t, d)
  }

  lemma SlotTold(sc: Scenario, p: Plan, slots: seq<int>, t: nat)
    requires sc.Sane() && Feasible(sc, p) && |slots| == |sc.inputs| && t < |slots|
    ensures var d := DecisionAt(sc, p, slots, t);
      && Accounts(sc.inputs[t], d)
      && SunTold(sc, sc.inputs[t], d)
      && d.pvToHouse + d.pvToBattery + d.pvToExport == sc.inputs[t].pv - p.slots[t].pvc
      && LoadsTold(sc, p.relays, t, d)
  {
    hide LoadsOK, DynamicsOK, BandOK, BuyOK, ConserveOK, TerminalOK, LoadPower;
    LoadPowersSum(sc, p, t, |sc.loads|);
    assert SlotOKAt(sc, p, t);
  }

  lemma BatterySlotTold(sc: Scenario, p: Plan, slots: seq<int>, t: nat)
    requires sc.Sane() && Feasible(sc, p) && |slots| == |sc.inputs| && t < |slots|
    ensures BatteryTold(sc, SocAt(sc, p, t), DecisionAt(sc, p, slots, t))
  {
    hide LoadsOK, BuyOK, ConserveOK, TerminalOK, LoadPower, DynamicsOK, KeepsFloors, LoadPowers;
    assert SlotOKAt(sc, p, t);
    SlotStores(sc, p, t);
    SocWithin(sc, p, t);
  }

  /** The trajectory of a feasible plan tells all this. */
  lemma TrajectoryTells(sc: Scenario, p: Plan, slots: seq<int>, trajectory: seq<Decision>)
    requires sc.Sane() && Feasible(sc, p) && |trajectory| == |slots| == |sc.inputs|
    requires forall t :: 0 <= t < |slots| ==> trajectory[t] == DecisionAt(sc, p, slots, t)
    ensures Tells(sc, p, slots, trajectory)
  {
    hide Feasible, Accounts, BatteryTold, SunTold, LoadsTold, Scenario.Sane;
    Shape(sc, p);
    forall t | 0 <= t < |slots|
      ensures Accounts(sc.inputs[t], trajectory[t]) && SunTold(sc, sc.inputs[t], trajectory[t])
      ensures BatteryTold(sc, StartSoc(sc, trajectory, t), trajectory[t])
      ensures LoadsTold(sc, p.relays, t, trajectory[t])
    {
      SlotTold(sc, p, slots, t);
      BatterySlotTold(sc, p, slots, t);
    }
    forall t | 0 <= t < |slots|
      ensures trajectory[t].pvToHouse + trajectory[t].pvToBattery + trajectory[t].pvToExport
        == sc.inputs[t].pv - p.slots[t].pvc
    {
      SlotTold(sc, p, slots, t);
    }
  }

  /** What is committed for slot 0 is what every scenario plans: the same net battery power. */
  lemma CommittedIsShared(scs: seq<Scenario>, base: nat, x: Assignment, slots: seq<int>, i: nat)
    requires SameShape(scs) && base < |scs| && StochFeasible(scs, base, x) && i < |scs|
    requires |slots| == |scs[0].inputs|
    ensures var s := x[i].slots[0];
      DecisionAt(scs[base], x[base], slots, 0).battery == s.bcg + s.bcp - s.bd
  {
    hide SlotOKAt, LoadsOK;
    assert Feasible(scs[i], x[i]) && Feasible(scs[base], x[base]);
    assert Tied(scs[0].loads, x[base], x[i]);
  }

  function CommandFor(ld: Load, r: seq<real>): Command
    requires |r| > 0
  {
    if ld.config.Relayed? then Some(r[0] > 0.5) else None
  }

  method Commands(sc: Scenario, p: Plan) returns (commands: seq<Command>)
    requires PlanShaped(p, |sc.inputs|, |sc.loads|) && |sc.inputs| > 0
    ensures |commands| == |sc.loads|
    ensures forall l :: 0 <= l < |sc.loads| ==> commands[l] == CommandFor(sc.loads[l], p.relays[l])
  {
    commands := [];
    for l := 0 to |sc.loads|
      invariant |commands| == l
      invariant forall m :: 0 <= m < l ==> commands[m] == CommandFor(sc.loads[m], p.relays[m])
    {
      commands := commands + [CommandFor(sc.loads[l], p.relays[l])];
    }
  }

  /** A relay is commanded on exactly when the plan has it on in slot 0, in every scenario alike. */
  lemma CommandsAreSlotZero(scs: seq<Scenario>, base: nat, x: Assignment, i: nat, l: nat)
    requires SameShape(scs) && base < |scs| && StochFeasible(scs, base, x)
    requires i < |scs| && l < |scs[0].loads| && scs[0].loads[l].config.Relayed?
    ensures CommandFor(scs[0].loads[l], x[base].relays[l]) == Some(x[i].relays[l][0] == 1.0)
  {
    hide SlotOKAt, DemandsOK, OverridesOK, BlocksOK, CarryOverOK;
    assert Feasible(scs[i], x[i]) && Feasible(scs[base], x[base]);
    assert Tied(scs[0].loads, x[base], x[i]);
    assert LoadOK(scs[base].loads[l], x[base].relays[l]);
    assert DomainOK(x[base].relays[l], scs[base].loads[l].config.blocks.Some?);
  }

  /** The base scenario's trajectory and commands, a cap from all scenarios, and the expected bill. */
  ghost predicate Reports(solution: Solution, scs: seq<Scenario>, base: nat, slots: seq<int>, x: Assignment) {
    && SameShape(scs) && base < |scs| && StochFeasible(scs, base, x) && |slots| == |scs[0].inputs|
    && |solution.trajectory| == |slots|
    && (forall t :: 0 <= t < |slots| ==> solution.trajectory[t] == DecisionAt(scs[base], x[base], slots, t))
    && Tells(scs[base], x[base], slots, solution.trajectory)
    && |solution.commands| == |scs[0].loads|
    && (forall l :: 0 <= l < |scs[0].loads| ==>
      solution.commands[l] == CommandFor(scs[0].loads[l], x[base].relays[l]))
    && solution.exportLimit == CapOf(x, scs[base].battery.exportLimit)
    && solution.cost == ExpectedBill(scs, x)
  }

  /** `_extract_solution` on what the solver returned; the deterministic problem is a single scenario. */
  method Extract(prob: LpProblem, scs: seq<Scenario>, base: nat, slots: seq<int>, x: Assignment)
    returns (solution: Solution)
    requires SameShape(scs) && base < |scs| && StochFeasible(scs, base, x)
    requires |slots| == |scs[0].inputs|
    requires Eval(prob.objective, x) == StochCost(scs, x)
    ensures Reports(solution, scs, base, slots, x)
  {
    hide SlotOKAt, LoadsOK, StochCost, Eval, ExpectedBill, Tells;
    assert forall i :: 0 <= i < |scs| ==> Feasible(scs[i], x[i]);
    var trajectory := Trajectory(scs[base], x[base], slots);
    TrajectoryTells(scs[base], x[base], slots, trajectory);
    var commands := Commands(scs[base], x[base]);
    var cap := ExportCap(x, scs[base].battery.exportLimit);
    var cost := ReportedCost(scs, x, Eval(prob.objective, x));
    solution := Solution(trajectory, commands, cap, cost);
  }
}
