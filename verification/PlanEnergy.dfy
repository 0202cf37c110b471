/**
  Where the energy of a feasible plan goes over the horizon (lp/formulation.py): what is in the battery
  at the end of any slot, what may be taken out by then, and how the whole system balances. Everything
  is counted from the plan's flows, the battery's figures and the slot length.
 */
module PlanEnergy {
  import opened Options
  import opened Reals
  import opened Plans
  import opened Loads
  import opened Program

  /** Charging power of the first `k` slots, from grid and PV, added up. */
  function Charged(p: Plan, k: nat): real
    requires k <= |p.slots|
  {
    if k == 0 then 0.0 else Charged(p, k - 1) + p.slots[k - 1].bcg + p.slots[k - 1].bcp
  }

  function Discharged(p: Plan, k: nat): real
    requires k <= |p.slots|
  {
    if k == 0 then 0.0 else Discharged(p, k - 1) + p.slots[k - 1].bd
  }

  function Imported(p: Plan, k: nat): real
    requires k <= |p.slots|
  {
    if k == 0 then 0.0 else Imported(p, k - 1) + p.slots[k - 1].gi
  }

  function Exported(p: Plan, k: nat): real
    requires k <= |p.slots|
  {
    if k == 0 then 0.0 else Exported(p, k - 1) + p.slots[k - 1].ge
  }

  /** PV of the first `k` slots that is not curtailed. */
  function Harvested(sc: Scenario, p: Plan, k: nat): real
    requires k <= |p.slots| == |sc.inputs|
  {
    if k == 0 then 0.0 else Harvested(sc, p, k - 1) + sc.inputs[k - 1].pv - p.slots[k - 1].pvc
  }

  /** What the first `k` relays take in slot `t`: their draw times how far they are on. */
  function RelayDraw(sc: Scenario, p: Plan, t: nat, k: nat): real
    requires PlanShaped(p, |sc.inputs|, |sc.loads|) && t < |sc.inputs| && k <= |sc.loads|
  {
    if k == 0 then 0.0
    else
      var config := sc.loads[k - 1].config;
      RelayDraw(sc, p, t, k - 1) + (if config.Relayed? then p.relays[k - 1][t] * config.draw else 0.0)
  }

  /** House and relays in the first `k` slots. */
  function Consumed(sc: Scenario, p: Plan, k: nat): real
    requires PlanShaped(p, |sc.inputs|, |sc.loads|) && k <= |sc.inputs|
  {
    if k == 0 then 0.0
    else Consumed(sc, p, k - 1) + sc.inputs[k - 1].house + RelayDraw(sc, p, k - 1, |sc.loads|)
  }

  // ---------------------------------------------------------------- the battery

  /** kW held for one slot, as percent of SOC times capacity: a hundred times the kWh. */
  lemma OneSlot(hours: real, capacity: real, kw: real)
    requires 0.0 < capacity
    ensures (hours / capacity * 100.0 * kw) * capacity == 100.0 * (hours * kw)
  {
    var q := hours / capacity;
    assert q * capacity == hours;
    assert (q * 100.0 * kw) * capacity == (q * capacity) * (100.0 * kw);
  }

  /** The SOC the battery reaches before slot `t`. */
  function SocAt(sc: Scenario, p: Plan, t: nat): real
    requires t <= |p.slots|
  {
    if t == 0 then sc.soc0 else p.slots[t - 1].soc
  }

  lemma SlotStores(sc: Scenario, p: Plan, t: nat)
    requires sc.Sane() && Feasible(sc, p) && t < |p.slots|
    ensures var s := p.slots[t];
      (s.soc - SocAt(sc, p, t)) * sc.battery.capacityKwh
        == 100.0 * (sc.slotHours * (sc.battery.efficiency * (s.bcg + s.bcp) - s.bd))
  {
    hide LoadsOK, TerminalOK, WithinBounds, FlowsOK, BandOK, BuyOK, ConserveOK;
    assert SlotOKAt(sc, p, t);
    var s := p.slots[t];
    OneSlot(sc.slotHours, sc.battery.capacityKwh, sc.battery.efficiency * (s.bcg + s.bcp) - s.bd);
  }

  /**
    At the end of every slot the battery holds what it held at the start, plus everything charged so
    far less the loss of charging, less everything discharged so far; percent times capacity, over 100, is kWh.
   */
  lemma {:induction false} SocIsEnergy(sc: Scenario, p: Plan, t: nat)
    requires sc.Sane() && Feasible(sc, p) && t <= |p.slots|
    ensures (SocAt(sc, p, t) - sc.soc0) * sc.battery.capacityKwh
      == 100.0 * (sc.slotHours * (sc.battery.efficiency * Charged(p, t) - Discharged(p, t)))
  {
    hide Feasible, Scenario.Sane;
    if t == 0 {
      assert sc.battery.efficiency * 0.0 - 0.0 == 0.0;
      assert sc.slotHours * 0.0 == 0.0;
    } else {
      SocIsEnergy(sc, p, t - 1);
      SlotStores(sc, p, t - 1);
      var s := p.slots[t - 1];
      SumsNext(p, t - 1);
      LeftAdds(sc.slotHours, sc.battery.efficiency, Charged(p, t - 1), Discharged(p, t - 1), s.bcg + s.bcp, s.bd);
      LevelAdds(sc.battery.capacityKwh, sc.soc0, SocAt(sc, p, t - 1), s.soc);
    }
  }

  /** The lowest SOC a plan may reach: no configured floor is undercut, except by a battery already below it. */
  predicate KeepsFloors(sc: Scenario, soc: real) {
    var b := sc.battery;
    (soc >= b.socFloor && soc >= b.backupSoc && soc >= b.dischargeCutoff) || soc >= sc.soc0
  }

  lemma SocWithin(sc: Scenario, p: Plan, t: nat)
    requires sc.Sane() && Feasible(sc, p) && t < |p.slots|
    ensures KeepsFloors(sc, p.slots[t].soc) && 0.0 <= p.slots[t].soc <= 100.0
    ensures p.slots[t].over >= p.slots[t].soc - sc.battery.socCeiling && p.slots[t].over >= 0.0
  {
    hide LoadsOK, TerminalOK, FlowsOK, BuyOK, ConserveOK, DynamicsOK;
    assert SlotOKAt(sc, p, t);
  }

  /**
    Whatever the plan, up to any slot the battery gives out no more than it held above the highest
    configured floor (or nothing, when it starts below) plus what was stored since, and takes in no
    more than there was room for plus what it gave out.
   */
  lemma DischargeBounded(sc: Scenario, p: Plan, t: nat)
    requires sc.Sane() && Feasible(sc, p) && t < |p.slots|
    ensures var b := sc.battery;
      var highest := Max(b.socFloor, Max(b.backupSoc, b.dischargeCutoff));
      100.0 * (sc.slotHours * Discharged(p, t + 1))
        <= Max(0.0, sc.soc0 - highest) * b.capacityKwh + 100.0 * (sc.slotHours * (b.efficiency * Charged(p, t + 1)))
    ensures var b := sc.battery;
      100.0 * (sc.slotHours * (b.efficiency * Charged(p, t + 1)))
        <= (100.0 - sc.soc0) * b.capacityKwh + 100.0 * (sc.slotHours * Discharged(p, t + 1))
  {
    hide Feasible, Scenario.Sane, Charged, Discharged;
    SocIsEnergy(sc, p, t + 1);
    SocWithin(sc, p, t);
    SaneBattery(sc);
    var b, soc := sc.battery, p.slots[t].soc;
    var highest := Max(b.socFloor, Max(b.backupSoc, b.dischargeCutoff));
    var inside, outside := b.efficiency * Charged(p, t + 1), Discharged(p, t + 1);
    assert sc.slotHours * (inside - outside) == sc.slotHours * inside - sc.slotHours * outside;
    assert sc.soc0 - soc <= Max(0.0, sc.soc0 - highest);
    ScaleOrder(b.capacityKwh, sc.soc0 - soc, Max(0.0, sc.soc0 - highest));
    ScaleOrder(b.capacityKwh, soc - sc.soc0, 100.0 - sc.soc0);
    assert (sc.soc0 - soc) * b.capacityKwh == -((soc - sc.soc0) * b.capacityKwh);
  }

  lemma SaneBattery(sc: Scenario)
    requires sc.Sane()
    ensures 0.0 < sc.battery.capacityKwh
  {
  }

  lemma ScaleOrder(k: real, a: real, b: real)
    requires 0.0 <= k && a <= b
    ensures a * k <= b * k
  {
    assert (b - a) * k >= 0.0;
  }

  // ---------------------------------------------------------------- the whole system

  lemma {:induction false} RelayDrawIsPower(sc: Scenario, p: Plan, t: nat, k: nat)
    requires PlanShaped(p, |sc.inputs|, |sc.loads|) && t < |sc.inputs| && k <= |sc.loads|
    ensures RelayDraw(sc, p, t, k) == LoadPower(sc.loads, p.relays, t, k)
  {
    if k == 0 {
    } else {
      RelayDrawIsPower(sc, p, t, k - 1);
    }
  }

  lemma SlotBalances(sc: Scenario, p: Plan, t: nat)
    requires sc.Sane() && Feasible(sc, p) && t < |p.slots|
    ensures var s := p.slots[t];
      sc.inputs[t].pv - s.pvc + s.bd + s.gi
        == sc.inputs[t].house + RelayDraw(sc, p, t, |sc.loads|) + s.bcg + s.bcp + s.ge
  {
    hide LoadsOK, TerminalOK, WithinBounds, BandOK, BuyOK, ConserveOK, DynamicsOK, LoadPower;
    assert SlotOKAt(sc, p, t);
    RelayDrawIsPower(sc, p, t, |sc.loads|);
  }

  lemma {:induction false} SystemBalances(sc: Scenario, p: Plan, k: nat)
    requires sc.Sane() && Feasible(sc, p) && k <= |p.slots|
    ensures Harvested(sc, p, k) + Imported(p, k) - Exported(p, k) - Consumed(sc, p, k)
      == Charged(p, k) - Discharged(p, k)
  {
    hide Feasible, Scenario.Sane, RelayDraw;
    Shape(sc, p);
    if k == 0 {
    } else {
      SystemBalances(sc, p, k - 1);
      SlotBalances(sc, p, k - 1);
    }
  }

  lemma Shape(sc: Scenario, p: Plan)
    requires sc.Sane() && Feasible(sc, p)
    ensures PlanShaped(p, |sc.inputs|, |sc.loads|)
  {
  }

  /**
    Conservation over the horizon: what sun and grid deliver beyond the consumption of house and
    relays and the export is either in the battery at the end, or was lost in charging it.
   */
  lemma EnergyConserved(sc: Scenario, p: Plan, k: nat)
    requires sc.Sane() && Feasible(sc, p) && k <= |p.slots|
    ensures PlanShaped(p, |sc.inputs|, |sc.loads|)
    ensures var surplus := Harvested(sc, p, k) + Imported(p, k) - Exported(p, k) - Consumed(sc, p, k);
      100.0 * (sc.slotHours * surplus)
        == (SocAt(sc, p, k) - sc.soc0) * sc.battery.capacityKwh
          + 100.0 * (sc.slotHours * ((1.0 - sc.battery.efficiency) * Charged(p, k)))
  {
    hide Feasible, Scenario.Sane, Charged, Discharged, Harvested, Imported, Exported, Consumed;
    Shape(sc, p);
    SystemBalances(sc, p, k);
    SocIsEnergy(sc, p, k);
    assert Harvested(sc, p, k) + Imported(p, k) - Exported(p, k) - Consumed(sc, p, k)
      == Charged(p, k) - Discharged(p, k);
    LossSplit(sc.slotHours, sc.battery.efficiency, Charged(p, k), Discharged(p, k));
  }

  lemma LossSplit(hours: real, eta: real, c: real, d: real)
    ensures 100.0 * (hours * (c - d)) == 100.0 * (hours * (eta * c - d)) + 100.0 * (hours * ((1.0 - eta) * c))
  {
    var kept, lost := eta * c - d, (1.0 - eta) * c;
    assert c - d == kept + lost;
    assert hours * (kept + lost) == hours * kept + hours * lost;
  }

  // ---------------------------------------------------------------- exactly the physical plans

  /** Every flow is possible and every kW of one slot accounted for. */
  predicate FlowsPossible(sc: Scenario, p: Plan, t: nat)
    requires PlanShaped(p, |sc.inputs|, |sc.loads|) && t < |sc.inputs|
  {
    var b, i, s := sc.battery, sc.inputs[t], p.slots[t];
    var demand := i.house + RelayDraw(sc, p, t, |sc.loads|);
    && 0.0 <= s.bcg <= b.maxAcCharge && 0.0 <= s.bcp <= b.maxDcCharge && 0.0 <= s.bd <= b.maxDischarge
    && s.bcg <= s.gi <= b.maxAcCharge + 20.0
    && 0.0 <= s.pvh <= demand && 0.0 <= s.pve <= s.ge <= b.exportLimit && 0.0 <= s.pvc
    && s.pvb == s.bcp
    && s.pvh + s.bcp + s.pve + s.pvc == i.pv
    && s.pvh + s.pve + s.bd + s.gi == demand + s.bcg + s.ge
  }

  /** What the modes ask of a slot in their windows. */
  predicate WindowsKept(sc: Scenario, i: Input, s: Slot) {
    && (i.buy && sc.buyCeiling.Some? && sc.buyCeiling.value < i.importPrice ==> s.bcg == 0.0)
    && (i.buy ==> s.ge == s.pve)
    && (i.buy && sc.buyCutoff.Some? ==> s.soc <= sc.buyCutoff.value)
    && (i.conserve && sc.conserveFloor.Some? && i.exportPrice < sc.conserveFloor.value ==> s.ge == 0.0)
  }

  predicate LevelKept(sc: Scenario, s: Slot) {
    && 0.0 <= s.soc <= 100.0 && KeepsFloors(sc, s.soc)
    && s.over >= 0.0 && s.over >= s.soc - sc.battery.socCeiling
  }

  /** The SOC at the end of a slot is what all flows up to it leave in the battery. */
  predicate LevelEarned(sc: Scenario, p: Plan, t: nat)
    requires t <= |p.slots|
  {
    (SocAt(sc, p, t) - sc.soc0) * sc.battery.capacityKwh
      == 100.0 * (sc.slotHours * (sc.battery.efficiency * Charged(p, t) - Discharged(p, t)))
  }

  lemma SlotExactly(sc: Scenario, p: Plan, t: nat)
    requires sc.Sane() && PlanShaped(p, |sc.inputs|, |sc.loads|) && t < |sc.inputs|
    ensures SlotOKAt(sc, p, t) <==>
      && FlowsPossible(sc, p, t) && WindowsKept(sc, sc.inputs[t], p.slots[t]) && LevelKept(sc, p.slots[t])
      && DynamicsOK(sc, SocAt(sc, p, t), p.slots[t])
  {
    hide LoadPower, RelayDraw, DynamicsOK;
    RelayDrawIsPower(sc, p, t, |sc.loads|);
    assert SocBefore(sc, p, t) == SocAt(sc, p, t);
  }

  /** One slot's recurrence, given the sums up to it, is the sums one slot on. */
  lemma LevelNext(sc: Scenario, p: Plan, t: nat)
    requires sc.Sane() && t < |p.slots| && LevelEarned(sc, p, t)
    ensures DynamicsOK(sc, SocAt(sc, p, t), p.slots[t]) <==> LevelEarned(sc, p, t + 1)
  {
    hide Charged, Discharged;
    var s, prev := p.slots[t], SocAt(sc, p, t);
    var kw := sc.battery.efficiency * (s.bcg + s.bcp) - s.bd;
    SlotPct(sc.slotHours, sc.battery.capacityKwh, prev, s.soc, kw);
    SumsNext(p, t);
    LeftAdds(sc.slotHours, sc.battery.efficiency, Charged(p, t), Discharged(p, t), s.bcg + s.bcp, s.bd);
    LevelAdds(sc.battery.capacityKwh, sc.soc0, prev, s.soc);
  }

  lemma SumsNext(p: Plan, t: nat)
    requires t < |p.slots|
    ensures Charged(p, t + 1) == Charged(p, t) + (p.slots[t].bcg + p.slots[t].bcp)
    ensures Discharged(p, t + 1) == Discharged(p, t) + p.slots[t].bd
  {
  }

  lemma SlotPct(hours: real, capacity: real, prev: real, soc: real, kw: real)
    requires 0.0 < capacity
    ensures soc == prev + hours / capacity * 100.0 * kw <==> (soc - prev) * capacity == 100.0 * (hours * kw)
  {
    OneSlot(hours, capacity, kw);
    SameScaled(capacity, soc - prev, hours / capacity * 100.0 * kw);
  }

  lemma SameScaled(k: real, a: real, b: real)
    requires 0.0 < k
    ensures a * k == b * k <==> a == b
  {
    if a * k == b * k {
      assert (a - b) * k == 0.0;
    }
  }

  /** A hundred times the kWh that charging and discharging leave behind. */
  function Left(hours: real, eta: real, charged: real, discharged: real): real {
    100.0 * (hours * (eta * charged - discharged))
  }

  lemma LeftAdds(hours: real, eta: real, charged: real, discharged: real, c: real, d: real)
    ensures Left(hours, eta, charged + c, discharged + d)
      == Left(hours, eta, charged, discharged) + Left(hours, eta, c, d)
  {
    assert eta * (charged + c) == eta * charged + eta * c;
    var x, y := eta * charged - discharged, eta * c - d;
    assert hours * (x + y) == hours * x + hours * y;
  }

  lemma LevelAdds(capacity: real, start: real, prev: real, soc: real)
    ensures (soc - start) * capacity == (soc - prev) * capacity + (prev - start) * capacity
  {
  }

  lemma {:induction false} LevelsExactly(sc: Scenario, p: Plan, k: nat)
    requires sc.Sane() && k <= |p.slots|
    ensures (forall t :: 0 <= t < k ==> DynamicsOK(sc, SocAt(sc, p, t), p.slots[t])) <==>
      forall t :: 0 <= t <= k ==> LevelEarned(sc, p, t)
  {
    hide DynamicsOK, LevelEarned, Scenario.Sane;
    if k == 0 {
      LevelAtStart(sc, p);
    } else {
      LevelsExactly(sc, p, k - 1);
      if LevelEarned(sc, p, k - 1) {
        LevelNext(sc, p, k - 1);
      }
    }
  }

  lemma LevelAtStart(sc: Scenario, p: Plan)
    ensures LevelEarned(sc, p, 0)
  {
    assert sc.battery.efficiency * 0.0 - 0.0 == 0.0;
    assert sc.slotHours * 0.0 == 0.0;
  }

  /**
    The program admits exactly the physical plans: flows within the equipment that balance at the
    house, the panels and the battery in every slot; a level that is what all flows so far leave in
    the battery, between the floors and full; the users' windows kept; the reserve met but for the
    slack; and relay schedules that suit their loads.
   */
  lemma FeasibleExactly(sc: Scenario, p: Plan)
    requires sc.Sane()
    ensures Feasible(sc, p) <==>
      && PlanShaped(p, |sc.inputs|, |sc.loads|)
      && (forall t :: 0 <= t < |p.slots| ==>
        FlowsPossible(sc, p, t) && WindowsKept(sc, sc.inputs[t], p.slots[t]) && LevelKept(sc, p.slots[t]))
      && (forall t :: 0 <= t <= |p.slots| ==> LevelEarned(sc, p, t))
      && 0.0 <= p.terminalSlack && sc.terminalFloor <= p.slots[|p.slots| - 1].soc + p.terminalSlack
      && forall l :: 0 <= l < |sc.loads| ==> LoadOK(sc.loads[l], p.relays[l])
  {
    hide SlotOKAt, FlowsPossible, WindowsKept, LevelKept, DynamicsOK, LevelEarned, LoadOK;
    if PlanShaped(p, |sc.inputs|, |sc.loads|) {
      forall t | 0 <= t < |sc.inputs|
        ensures SlotOKAt(sc, p, t) <==>
          && FlowsPossible(sc, p, t) && WindowsKept(sc, sc.inputs[t], p.slots[t]) && LevelKept(sc, p.slots[t])
          && DynamicsOK(sc, SocAt(sc, p, t), p.slots[t])
      {
        SlotExactly(sc, p, t);
      }
      LevelsExactly(sc, p, |p.slots|);
    }
  }

  // ---------------------------------------------------------------- what must remain possible

  /** A night with cheap energy now and a price peak half an hour on. */
  function Peak(): Scenario {
    Scenario(1.0, Battery(10.0, 10.0, 90.0, 5.0, 10.0, 5.0, 5.0, 5.0, 0.9, 5.0), 50.0, 0.5,
             [Input(0.0, 0.5, 10.0, 5.0, false, false), Input(0.0, 0.5, 45.0, 40.0, false, false)],
             [], 2.5, 30.0, None, None, None)
  }

  /** Charge 2 kW from the grid, then serve the house and export 3.5 kW from the battery. */
  function PeakPlan(): Plan {
    Plan([Slot(2.0, 0.0, 0.0, 2.5, 0.0, 0.0, 0.0, 0.0, 0.0, 59.0, 0.0),
          Slot(0.0, 0.0, 4.0, 0.0, 3.5, 0.0, 0.0, 0.0, 0.0, 39.0, 0.0)], 0.0, [])
  }

  lemma PeakSlots()
    ensures Peak().battery.capacityKwh != 0.0
    ensures SlotOK(Peak(), Peak().inputs[0], 50.0, 0.5, PeakPlan().slots[0])
    ensures SlotOK(Peak(), Peak().inputs[1], 59.0, 0.5, PeakPlan().slots[1])
  {
  }

  /** Buying ahead of a peak and exporting from the battery in it is a plan the program admits. */
  lemma BatteryMayExport()
    ensures Peak().Sane() && Feasible(Peak(), PeakPlan())
    ensures PeakPlan().slots[1].ge > PeakPlan().slots[1].pve == 0.0
  {
    hide SlotOK;
    PeakSlots();
    var sc, p := Peak(), PeakPlan();
    assert LoadPower(sc.loads, p.relays, 0, 0) == 0.0 && LoadPower(sc.loads, p.relays, 1, 0) == 0.0;
    assert SlotOKAt(sc, p, 0) && SlotOKAt(sc, p, 1);
  }
}
