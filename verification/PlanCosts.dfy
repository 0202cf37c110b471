/**
  What a plan is charged for (lp/formulation.py): its bill in energy bought, sold, cycled and thrown
  away, and what optimality makes of the penalties that are no part of a bill.
 */
module PlanCosts {
  import opened Reals
  import opened Plans
  import opened Loads
  import opened Program
  import opened Exchange

  // ---------------------------------------------------------------- the bill

  /** Cents per hour for a flow at a price. */
  function Worth(kw: real, price: real): real { kw * price }

  /** Imports of the first `k` slots at their prices. */
  function Bought(sc: Scenario, p: Plan, k: nat): real
    requires k <= |sc.inputs| == |p.slots|
  {
    if k == 0 then 0.0 else Bought(sc, p, k - 1) + Worth(p.slots[k - 1].gi, sc.inputs[k - 1].importPrice)
  }

  function Sold(sc: Scenario, p: Plan, k: nat): real
    requires k <= |sc.inputs| == |p.slots|
  {
    if k == 0 then 0.0 else Sold(sc, p, k - 1) + Worth(p.slots[k - 1].ge, sc.inputs[k - 1].exportPrice)
  }

  /** Power through the battery that wears it: all but grid charging in buy slots and PV charging in conserve slots. */
  function Cycled(sc: Scenario, p: Plan, k: nat): real
    requires k <= |sc.inputs| == |p.slots|
  {
    if k == 0 then 0.0
    else
      var i, s := sc.inputs[k - 1], p.slots[k - 1];
      Cycled(sc, p, k - 1) + s.bd + (if i.buy then 0.0 else s.bcg) + (if i.conserve then 0.0 else s.bcp)
  }

  function Curtailed(p: Plan, k: nat): real
    requires k <= |p.slots|
  {
    if k == 0 then 0.0 else Curtailed(p, k - 1) + p.slots[k - 1].pvc
  }

  /** What a slot exports for nothing or worse, less what it imports for nothing or better. */
  function Nudged(i: Input, s: Slot): real {
    (if i.exportPrice <= 0.0 then s.ge else 0.0) - (if i.importPrice <= 0.0 then s.gi else 0.0)
  }

  function Indifferent(sc: Scenario, p: Plan, k: nat): real
    requires k <= |sc.inputs| == |p.slots|
  {
    if k == 0 then 0.0
    else Indifferent(sc, p, k - 1) + Nudged(sc.inputs[k - 1], p.slots[k - 1])
  }

  /** Cents for a slot at so many cents per hour. */
  function ForHours(hours: real, cents: real): real { hours * cents }

  function Worn(wear: real, kw: real): real { wear * kw }

  function BillRate(sc: Scenario, p: Plan, k: nat): real
    requires k <= |sc.inputs| == |p.slots|
  {
    Bought(sc, p, k) - Sold(sc, p, k) + Worn(sc.wear, Cycled(sc, p, k)) + 1.0 * Curtailed(p, k)
      + 0.05 * Indifferent(sc, p, k)
  }

  lemma ForHoursAdds(hours: real, x: real, y: real)
    ensures ForHours(hours, x + y) == ForHours(hours, x) + ForHours(hours, y) && ForHours(hours, 0.0) == 0.0
  {
  }

  lemma WornAdds(wear: real, x: real, y: real)
    ensures Worn(wear, x + y) == Worn(wear, x) + Worn(wear, y) && Worn(wear, 0.0) == 0.0
  {
  }

  /** Cents per hour of one slot. */
  function SlotRate(sc: Scenario, i: Input, s: Slot): real {
    Worth(s.gi, i.importPrice) - Worth(s.ge, i.exportPrice)
      + Worn(sc.wear, s.bd + (if i.buy then 0.0 else s.bcg) + (if i.conserve then 0.0 else s.bcp))
      + s.pvc + 0.05 * Nudged(i, s)
  }

  lemma SlotBill(sc: Scenario, i: Input, s: Slot)
    ensures EconomicSlotCost(sc, i, s) == ForHours(sc.slotHours, SlotRate(sc, i, s))
  {
  }

  lemma NextRate(sc: Scenario, p: Plan, k: nat)
    requires 0 < k <= |sc.inputs| == |p.slots|
    ensures BillRate(sc, p, k) == BillRate(sc, p, k - 1) + SlotRate(sc, sc.inputs[k - 1], p.slots[k - 1])
  {
    hide Worn, Nudged, Worth;
    var i, s := sc.inputs[k - 1], p.slots[k - 1];
    var through := s.bd + (if i.buy then 0.0 else s.bcg) + (if i.conserve then 0.0 else s.bcp);
    WornAdds(sc.wear, Cycled(sc, p, k - 1), through);
    assert Cycled(sc, p, k) == Cycled(sc, p, k - 1) + through;
    assert Indifferent(sc, p, k) == Indifferent(sc, p, k - 1) + Nudged(i, s);
    assert Worn(sc.wear, Cycled(sc, p, k)) == Worn(sc.wear, Cycled(sc, p, k - 1)) + Worn(sc.wear, through);
  }

  /**
    A plan's bill is what it buys less what it sells, plus the wear on what it cycles, a cent per kWh
    thrown away, and the nudge of a twentieth of a cent per kWh that tips indifferent trades.
   */
  lemma {:induction false} BillIsEnergy(sc: Scenario, p: Plan, k: nat)
    requires k <= |sc.inputs| == |p.slots|
    ensures EconomicCosts(sc, p, k) == ForHours(sc.slotHours, BillRate(sc, p, k))
  {
    hide ForHours, Worn, EconomicSlotCost, SlotRate;
    ForHoursAdds(sc.slotHours, 0.0, 0.0);
    WornAdds(sc.wear, 0.0, 0.0);
    if k == 0 {
    } else {
      BillIsEnergy(sc, p, k - 1);
      var i, s := sc.inputs[k - 1], p.slots[k - 1];
      SlotBill(sc, i, s);
      NextRate(sc, p, k);
      ForHoursAdds(sc.slotHours, BillRate(sc, p, k - 1), SlotRate(sc, i, s));
    }
  }

  /** The reward is for the SOC at the end of the last slot of the buy window, and there is none without one. */
  lemma RewardIsForLastBuy(sc: Scenario, p: Plan, t: nat)
    requires |p.slots| == |sc.inputs| && t < |sc.inputs|
    ensures sc.inputs[t].buy && (forall u :: t < u < |sc.inputs| ==> !sc.inputs[u].buy) ==>
      BuyReward(sc, p) == 1000.0 * p.slots[t].soc
    ensures (forall u :: 0 <= u < |sc.inputs| ==> !sc.inputs[u].buy) ==> BuyReward(sc, p) == 0.0
  {
  }

  // ---------------------------------------------------------------- penalties are paid only where due

  /** The slack a slot needs. */
  function NeededOver(sc: Scenario, s: Slot): real { Max(0.0, s.soc - sc.battery.socCeiling) }

  function NeededSlack(sc: Scenario, p: Plan): real
    requires |p.slots| > 0
  {
    Max(0.0, sc.terminalFloor - p.slots[|p.slots| - 1].soc)
  }

  lemma TighterIsBetter(sc: Scenario, p: Plan, t: nat)
    requires sc.Sane() && Feasible(sc, p) && t < |p.slots| && p.slots[t].over != NeededOver(sc, p.slots[t])
    ensures var s := p.slots[t];
      Better(sc, sc.inputs[t], SocBefore(sc, p, t), SlotDemand(sc, p.relays, t), s,
             s.(over := NeededOver(sc, s)))
  {
    hide LoadsOK, TerminalOK, DynamicsOK, EconomicSlotCost;
    assert SlotOKAt(sc, p, t);
    var s := p.slots[t];
    var q := s.(over := NeededOver(sc, s));
    assert EconomicSlotCost(sc, sc.inputs[t], q) == EconomicSlotCost(sc, sc.inputs[t], s) by {
      SameMoney(sc, sc.inputs[t], s, q.over);
    }
    assert DynamicsOK(sc, SocBefore(sc, p, t), q) by { SameDynamics(sc, SocBefore(sc, p, t), s, q.over); }
  }

  lemma SameMoney(sc: Scenario, i: Input, s: Slot, over: real)
    ensures EconomicSlotCost(sc, i, s.(over := over)) == EconomicSlotCost(sc, i, s)
  {
  }

  lemma SameDynamics(sc: Scenario, prev: real, s: Slot, over: real)
    requires sc.battery.capacityKwh != 0.0
    ensures DynamicsOK(sc, prev, s.(over := over)) <==> DynamicsOK(sc, prev, s)
  {
  }

  /** The same plan with no more slack at the end than it needs. */
  function Tightened(sc: Scenario, p: Plan): Plan
    requires |p.slots| > 0
  {
    p.(terminalSlack := NeededSlack(sc, p))
  }

  lemma TightenedIsFeasible(sc: Scenario, p: Plan)
    requires sc.Sane() && Feasible(sc, p)
    ensures Feasible(sc, Tightened(sc, p))
    ensures Cost(sc, Tightened(sc, p)) == Cost(sc, p) - 10000.0 * (p.terminalSlack - NeededSlack(sc, p))
    ensures NeededSlack(sc, p) <= p.terminalSlack
  {
    hide SlotOK, LoadOK, SlotCost;
    var q := Tightened(sc, p);
    forall t | 0 <= t < |sc.inputs| ensures SlotOKAt(sc, q, t) {
      assert SlotOKAt(sc, p, t);
    }
    SameSlotCosts(sc, p, q, |sc.inputs|);
  }

  lemma {:induction false} SameSlotCosts(sc: Scenario, p: Plan, q: Plan, k: nat)
    requires k <= |sc.inputs| == |p.slots| && q.slots == p.slots
    ensures SlotCosts(sc, q, k) == SlotCosts(sc, p, k)
  {
    if k == 0 {
    } else {
      SameSlotCosts(sc, p, q, k - 1);
    }
  }

  /**
    An optimal plan pays for exactly the SOC it has above the ceiling in each slot, and for exactly
    what it falls short of the reserve at the end: in particular for nothing when it stays within both.
   */
  lemma SlacksAreTight(sc: Scenario, p: Plan, t: nat)
    requires sc.Sane() && Optimal(sc, p) && t < |p.slots|
    ensures p.slots[t].over == NeededOver(sc, p.slots[t])
    ensures p.terminalSlack == NeededSlack(sc, p)
  {
    hide Feasible, Cost, Better, NeededOver, NeededSlack;
    if p.slots[t].over != NeededOver(sc, p.slots[t]) {
      TighterIsBetter(sc, p, t);
      BetterSlotBetterPlan(sc, p, t, p.slots[t].(over := NeededOver(sc, p.slots[t])));
    }
    TightenedIsFeasible(sc, p);
  }

  lemma LessIsLess(weight: real, saved: real)
    requires 0.0 < weight
    ensures 0.0 < saved ==> weight * (-saved) < 0.0
  {
  }

  /** The same of every scenario that carries weight in a stochastic optimum. */
  lemma StochSlacksAreTight(scs: seq<Scenario>, base: nat, x: Assignment, j: nat, t: nat)
    requires SameShape(scs) && base < |scs| && StochOptimal(scs, base, x)
    requires j < |scs| && t < |x[j].slots| && 0.0 < scs[j].weight
    ensures x[j].slots[t].over == NeededOver(scs[j], x[j].slots[t])
    ensures x[j].terminalSlack == NeededSlack(scs[j], x[j])
  {
    hide SlotOKAt, LoadsOK, TerminalOK, Cost, Better, NeededOver, NeededSlack, Tied, StochCost;
    var sc, p := scs[j], x[j];
    assert Feasible(sc, p);
    if p.slots[t].over != NeededOver(sc, p.slots[t]) {
      TighterIsBetter(sc, p, t);
      BetterSlotBetterProgram(scs, base, x, j, t, p.slots[t].(over := NeededOver(sc, p.slots[t])));
    }
    TightenedIsFeasible(sc, p);
    var q := Tightened(sc, p);
    TiesKept(scs, base, x, j, q);
    StochCostReplace(scs, x, j, q);
    assert Cost(sc, q) - Cost(sc, p) == -(10000.0 * (p.terminalSlack - NeededSlack(sc, p)));
    LessIsLess(sc.weight, 10000.0 * (p.terminalSlack - NeededSlack(sc, p)));
  }
}
