/**
  Exchange arguments on the dispatch program (lp/formulation.py): wasteful slots can be rewritten
  into strictly cheaper ones with the same SOC trajectory, so no optimal plan contains them.
 */
module Exchange {
  import opened Reals
  import opened Plans
  import opened Program

  // ---------------------------------------------------------------- replacing one slot

  lemma {:induction false} SlotCostsReplace(sc: Scenario, p: Plan, t: nat, s: Slot, k: nat)
    requires k <= |sc.inputs| == |p.slots| && t < |p.slots|
    ensures var q := p.(slots := p.slots[t := s]);
      SlotCosts(sc, q, k) == SlotCosts(sc, p, k)
        + (if t < k then SlotCost(sc, sc.inputs[t], s) - SlotCost(sc, sc.inputs[t], p.slots[t]) else 0.0)
  {
    if k == 0 {
    } else {
      SlotCostsReplace(sc, p, t, s, k - 1);
    }
  }

  /** A slot may be replaced by any other that ends at the same SOC and is itself in order. */
  lemma ReplaceSlot(sc: Scenario, p: Plan, t: nat, s: Slot)
    requires sc.Sane() && Feasible(sc, p) && t < |p.slots|
    requires s.soc == p.slots[t].soc
    requires SlotOK(sc, sc.inputs[t], SocBefore(sc, p, t), SlotDemand(sc, p.relays, t), s)
    ensures var q := p.(slots := p.slots[t := s]);
      && Feasible(sc, q)
      && Cost(sc, q) == Cost(sc, p) + SlotCost(sc, sc.inputs[t], s) - SlotCost(sc, sc.inputs[t], p.slots[t])
  {
    var q := p.(slots := p.slots[t := s]);
    SlotCostsReplace(sc, p, t, s, |sc.inputs|);
    forall u | 0 <= u < |sc.inputs| ensures SlotOKAt(sc, q, u) {
      assert SlotOKAt(sc, p, u);
      assert SocBefore(sc, q, u) == SocBefore(sc, p, u);
    }
    assert LoadsOK(sc, q) by {
      assert LoadsOK(sc, p);
    }
  }

  // ---------------------------------------------------------------- charging from PV while discharging

  lemma ProductOrder(k: real, a: real, b: real)
    requires 0.0 < k
    ensures a < b <==> k * a < k * b
  {
  }

  /** The charge `eps` that a discharge undoes, and the `e` it would have stored: all of one or of the other. */
  lemma Undo(charge: real, discharge: real, eta: real) returns (eps: real, e: real)
    requires 0.0 < charge && 0.0 < discharge && 0.0 < eta <= 1.0
    ensures 0.0 < eps <= charge && 0.0 < e <= discharge && e <= eps && e == eta * eps
    ensures eps == charge || e == discharge
  {
    if eta * charge <= discharge {
      eps, e := charge, eta * charge;
      ProductOrder(eta, 0.0, charge);
      ProductOrder(charge, eta, 1.0);
    } else {
      eps, e := discharge / eta, discharge;
      assert eta * eps == discharge;
      ProductOrder(eta, eps, charge);
      ProductOrder(eta, 0.0, eps);
      ProductOrder(eps, eta, 1.0);
    }
  }

  /** Serve the house or the export with the PV directly and curtail what the round trip lost. */
  function UnchurnPv(s: Slot, demand: real, eps: real, e: real): Slot {
    var toHouse := Min(e, demand - s.pvh);
    s.(bcp := s.bcp - eps, pvb := s.pvb - eps, bd := s.bd - e,
       pvh := s.pvh + toHouse, pve := s.pve + (e - toHouse), pvc := s.pvc + (eps - e))
  }

  lemma SameStored(k: real, eta: real, prev: real, a: real, b: real, d: real, eps: real, e: real)
    requires e == eta * eps
    ensures prev + k * (eta * (a + (b - eps)) - (d - e)) == prev + k * (eta * (a + b) - d)
  {
    assert eta * (a + (b - eps)) == eta * (a + b) - eta * eps;
  }

  lemma UnchurnPvOK(sc: Scenario, i: Input, prev: real, demand: real, s: Slot, eps: real, e: real)
    requires sc.battery.Sane() && SlotOK(sc, i, prev, demand, s)
    requires 0.0 < eps <= s.bcp && 0.0 < e <= s.bd && e <= eps && e == sc.battery.efficiency * eps
    ensures SlotOK(sc, i, prev, demand, UnchurnPv(s, demand, eps, e))
  {
    SameStored(sc.PctPerKw(), sc.battery.efficiency, prev, s.bcg, s.bcp, s.bd, eps, e);
  }

  /** What the rewrite saves, exactly: the wear of both flows less the penalty on the extra curtailment. */
  lemma UnchurnPvSaves(sc: Scenario, i: Input, demand: real, s: Slot, eps: real, e: real)
    ensures SlotCost(sc, i, UnchurnPv(s, demand, eps, e)) == SlotCost(sc, i, s)
      - sc.slotHours * (sc.wear * ((if i.conserve then 0.0 else eps) + e) - CURTAIL_PENALTY * (eps - e))
  {
    var q := UnchurnPv(s, demand, eps, e);
    var saved := (if i.conserve then 0.0 else eps) + e;
    var before := (if i.buy then 0.0 else s.bcg) + (if i.conserve then 0.0 else s.bcp) + s.bd;
    assert sc.wear * (before - saved) == sc.wear * before - sc.wear * saved;
    assert WearRate(sc, i, q) == WearRate(sc, i, s) - sc.wear * saved;
    var r := ImportRate(i, s) - ExportRate(i, s) + WearRate(sc, i, s) + CURTAIL_PENALTY * s.pvc;
    var d := sc.wear * saved - CURTAIL_PENALTY * (eps - e);
    assert sc.slotHours * (r - d) == sc.slotHours * r - sc.slotHours * d;
  }

  // ---------------------------------------------------------------- charging from the grid while discharging

  /** Import less by what the round trip lost. */
  function UnchurnGrid(s: Slot, eps: real, e: real): Slot {
    s.(bcg := s.bcg - eps, bd := s.bd - e, gi := s.gi - (eps - e))
  }

  lemma UnchurnGridOK(sc: Scenario, i: Input, prev: real, demand: real, s: Slot, eps: real, e: real)
    requires sc.battery.Sane() && SlotOK(sc, i, prev, demand, s)
    requires 0.0 < eps <= s.bcg && 0.0 < e <= s.bd && e <= eps && e == sc.battery.efficiency * eps
    ensures SlotOK(sc, i, prev, demand, UnchurnGrid(s, eps, e))
  {
    SameStored(sc.PctPerKw(), sc.battery.efficiency, prev, s.bcp, s.bcg, s.bd, eps, e);
  }

  /** The price a kWh of import really carries in the objective. */
  function ImportPriceNet(i: Input): real {
    i.importPrice - (if i.importPrice <= 0.0 then IMPORT_TIE_BREAK else 0.0)
  }

  function ExportPriceNet(i: Input): real {
    i.exportPrice - (if i.exportPrice <= 0.0 then EXPORT_TIE_BREAK else 0.0)
  }

  lemma UnchurnGridSaves(sc: Scenario, i: Input, s: Slot, eps: real, e: real)
    ensures SlotCost(sc, i, UnchurnGrid(s, eps, e)) == SlotCost(sc, i, s)
      - sc.slotHours * (sc.wear * ((if i.buy then 0.0 else eps) + e) + ImportPriceNet(i) * (eps - e))
  {
    var q := UnchurnGrid(s, eps, e);
    var saved := (if i.buy then 0.0 else eps) + e;
    var before := (if i.buy then 0.0 else s.bcg) + (if i.conserve then 0.0 else s.bcp) + s.bd;
    assert sc.wear * (before - saved) == sc.wear * before - sc.wear * saved;
    assert WearRate(sc, i, q) == WearRate(sc, i, s) - sc.wear * saved;
    ImportRateNet(i, s);
    ImportRateNet(i, q);
    assert ImportPriceNet(i) * (s.gi - (eps - e)) == ImportPriceNet(i) * s.gi - ImportPriceNet(i) * (eps - e);
    var r := ImportRate(i, s) - ExportRate(i, s) + WearRate(sc, i, s) + CURTAIL_PENALTY * s.pvc;
    var d := sc.wear * saved + ImportPriceNet(i) * (eps - e);
    assert sc.slotHours * (r - d) == sc.slotHours * r - sc.slotHours * d;
  }

  lemma ImportRateNet(i: Input, s: Slot)
    ensures ImportRate(i, s) == ImportPriceNet(i) * s.gi
  {
  }

  lemma ExportRateNet(i: Input, s: Slot)
    ensures ExportRate(i, s) == ExportPriceNet(i) * s.ge
  {
  }

  // ---------------------------------------------------------------- importing while exporting

  /** Drop `x` kW of import and of export; PV freed from the export serves the house. */
  function Unwash(s: Slot, x: real): Slot {
    var y := Max(0.0, s.pve - (s.ge - x));
    s.(gi := s.gi - x, ge := s.ge - x, pve := s.pve - y, pvh := s.pvh + y)
  }

  lemma UnwashOK(sc: Scenario, i: Input, prev: real, demand: real, s: Slot, x: real)
    requires sc.battery.Sane() && SlotOK(sc, i, prev, demand, s)
    requires 0.0 < x <= s.ge && x <= s.gi - s.bcg
    ensures SlotOK(sc, i, prev, demand, Unwash(s, x))
  {
  }

  lemma UnwashSaves(sc: Scenario, i: Input, s: Slot, x: real)
    ensures SlotCost(sc, i, Unwash(s, x))
      == SlotCost(sc, i, s) - sc.slotHours * ((ImportPriceNet(i) - ExportPriceNet(i)) * x)
  {
    var q := Unwash(s, x);
    ImportRateNet(i, s);
    ImportRateNet(i, q);
    ExportRateNet(i, s);
    ExportRateNet(i, q);
    var m, n := ImportPriceNet(i), ExportPriceNet(i);
    assert m * (s.gi - x) == m * s.gi - m * x;
    assert n * (s.ge - x) == n * s.ge - n * x;
    assert (m - n) * x == m * x - n * x;
    var r := ImportRate(i, s) - ExportRate(i, s) + WearRate(sc, i, s) + CURTAIL_PENALTY * s.pvc;
    assert sc.slotHours * (r - (m - n) * x) == sc.slotHours * r - sc.slotHours * ((m - n) * x);
  }

  // ---------------------------------------------------------------- when the exchanges pay

  /** Wear on the useful part of a round trip outweighs what the lost part would be charged elsewhere. */
  predicate WearOutweighs(sc: Scenario, perLostKwh: real) {
    sc.wear * sc.battery.efficiency > (1.0 - sc.battery.efficiency) * perLostKwh
  }

  lemma PositiveProduct(a: real, b: real)
    requires 0.0 < a && 0.0 < b
    ensures 0.0 < a * b
  {
  }

  lemma RoundTripGain(wear: real, eta: real, c: real, eps: real, e: real, extra: real)
    requires 0.0 <= wear && 0.0 < eps && 0.0 <= extra && e == eta * eps
    requires wear * eta > (1.0 - eta) * c
    ensures wear * (extra + e) - c * (eps - e) > 0.0
  {
    PositiveProduct(wear * eta - (1.0 - eta) * c, eps);
    assert (wear * eta - (1.0 - eta) * c) * eps == wear * (eta * eps) - c * (eps - eta * eps);
    assert wear * (extra + e) == wear * extra + wear * e;
    assert wear * extra >= 0.0;
  }

  lemma PvChurnCheaper(sc: Scenario, i: Input, demand: real, s: Slot, eps: real, e: real)
    requires 0.0 < sc.slotHours && 0.0 <= sc.wear && WearOutweighs(sc, CURTAIL_PENALTY)
    requires 0.0 < eps && e == sc.battery.efficiency * eps
    ensures SlotCost(sc, i, UnchurnPv(s, demand, eps, e)) < SlotCost(sc, i, s)
  {
    hide SlotCost, UnchurnPv;
    var extra := if i.conserve then 0.0 else eps;
    UnchurnPvSaves(sc, i, demand, s, eps, e);
    RoundTripGain(sc.wear, sc.battery.efficiency, CURTAIL_PENALTY, eps, e, extra);
    PositiveProduct(sc.slotHours, sc.wear * (extra + e) - CURTAIL_PENALTY * (eps - e));
  }

  lemma GridChurnCheaper(sc: Scenario, i: Input, s: Slot, eps: real, e: real)
    requires 0.0 < sc.slotHours && 0.0 <= sc.wear && WearOutweighs(sc, IMPORT_TIE_BREAK)
    requires 0.0 < eps && e == sc.battery.efficiency * eps && e <= eps && 0.0 <= i.importPrice
    ensures SlotCost(sc, i, UnchurnGrid(s, eps, e)) < SlotCost(sc, i, s)
  {
    hide SlotCost, UnchurnGrid;
    var extra := if i.buy then 0.0 else eps;
    var net := ImportPriceNet(i);
    UnchurnGridSaves(sc, i, s, eps, e);
    RoundTripGain(sc.wear, sc.battery.efficiency, IMPORT_TIE_BREAK, eps, e, extra);
    assert (net + IMPORT_TIE_BREAK) * (eps - e) >= 0.0;
    assert net * (eps - e) >= -(IMPORT_TIE_BREAK * (eps - e));
    PositiveProduct(sc.slotHours, sc.wear * (extra + e) + net * (eps - e));
  }

  lemma WashCheaper(sc: Scenario, i: Input, s: Slot, x: real)
    requires 0.0 < sc.slotHours && 0.0 < x && 0.0 < i.importPrice && i.exportPrice < i.importPrice
    ensures SlotCost(sc, i, Unwash(s, x)) < SlotCost(sc, i, s)
  {
    var margin := ImportPriceNet(i) - ExportPriceNet(i);
    UnwashSaves(sc, i, s, x);
    PositiveProduct(margin, x);
    PositiveProduct(sc.slotHours, margin * x);
  }

  /** A better slot: in order, ending at the same SOC, and strictly cheaper. */
  predicate Better(sc: Scenario, i: Input, prev: real, demand: real, s: Slot, q: Slot)
    requires sc.battery.capacityKwh != 0.0
  {
    SlotOK(sc, i, prev, demand, q) && q.soc == s.soc && SlotCost(sc, i, q) < SlotCost(sc, i, s)
  }

  /** A slot that charges from PV and discharges can be made strictly cheaper. */
  lemma PvChurnImprovable(sc: Scenario, i: Input, prev: real, demand: real, s: Slot) returns (q: Slot)
    requires sc.battery.Sane() && 0.0 < sc.slotHours && 0.0 <= sc.wear && WearOutweighs(sc, CURTAIL_PENALTY)
    requires SlotOK(sc, i, prev, demand, s) && 0.0 < s.bcp && 0.0 < s.bd
    ensures Better(sc, i, prev, demand, s, q)
    ensures q.bcp == 0.0 || q.bd == 0.0
  {
    var eps, e := Undo(s.bcp, s.bd, sc.battery.efficiency);
    q := UnchurnPv(s, demand, eps, e);
    UnchurnPvOK(sc, i, prev, demand, s, eps, e);
    PvChurnCheaper(sc, i, demand, s, eps, e);
  }

  /** At a non-negative import price, so can a slot that charges from the grid and discharges. */
  lemma GridChurnImprovable(sc: Scenario, i: Input, prev: real, demand: real, s: Slot) returns (q: Slot)
    requires sc.battery.Sane() && 0.0 < sc.slotHours && 0.0 <= sc.wear && WearOutweighs(sc, IMPORT_TIE_BREAK)
    requires SlotOK(sc, i, prev, demand, s) && 0.0 < s.bcg && 0.0 < s.bd && 0.0 <= i.importPrice
    ensures Better(sc, i, prev, demand, s, q)
    ensures q.bcg == 0.0 || q.bd == 0.0
  {
    var eps, e := Undo(s.bcg, s.bd, sc.battery.efficiency);
    q := UnchurnGrid(s, eps, e);
    UnchurnGridOK(sc, i, prev, demand, s, eps, e);
    GridChurnCheaper(sc, i, s, eps, e);
  }

  /** Buying dear and selling cheap in one slot can be made strictly cheaper without touching the battery. */
  lemma WashImprovable(sc: Scenario, i: Input, prev: real, demand: real, s: Slot) returns (q: Slot)
    requires sc.battery.Sane() && 0.0 < sc.slotHours
    requires SlotOK(sc, i, prev, demand, s) && s.bcg < s.gi && 0.0 < s.ge
    requires 0.0 < i.importPrice && i.exportPrice < i.importPrice
    ensures Better(sc, i, prev, demand, s, q)
    ensures q.bcg == s.bcg && q.bcp == s.bcp && q.bd == s.bd
    ensures q.gi == q.bcg || q.ge == 0.0
  {
    var x := Min(s.gi - s.bcg, s.ge);
    q := Unwash(s, x);
    UnwashOK(sc, i, prev, demand, s, x);
    WashCheaper(sc, i, s, x);
  }

  // ---------------------------------------------------------------- optima of the deterministic program

  ghost predicate Optimal(sc: Scenario, p: Plan)
    requires sc.Sane()
  {
    Feasible(sc, p) && forall q :: Feasible(sc, q) ==> Cost(sc, p) <= Cost(sc, q)
  }

  lemma BetterSlotBetterPlan(sc: Scenario, p: Plan, t: nat, q: Slot)
    requires sc.Sane() && Feasible(sc, p) && t < |p.slots|
    requires Better(sc, sc.inputs[t], SocBefore(sc, p, t), SlotDemand(sc, p.relays, t), p.slots[t], q)
    ensures !Optimal(sc, p)
  {
    ReplaceSlot(sc, p, t, q);
  }

  /** No optimal deterministic plan charges and discharges in one slot, or trades against itself. */
  lemma OptimalIsTidy(sc: Scenario, p: Plan, t: nat)
    requires sc.Sane() && Optimal(sc, p) && t < |p.slots| && 0.0 <= sc.wear
    ensures WearOutweighs(sc, CURTAIL_PENALTY) ==> p.slots[t].bcp == 0.0 || p.slots[t].bd == 0.0
    ensures WearOutweighs(sc, IMPORT_TIE_BREAK) && 0.0 <= sc.inputs[t].importPrice ==>
      p.slots[t].bcg == 0.0 || p.slots[t].bd == 0.0
    ensures 0.0 < sc.inputs[t].importPrice && sc.inputs[t].exportPrice < sc.inputs[t].importPrice ==>
      p.slots[t].gi == p.slots[t].bcg || p.slots[t].ge == 0.0
  {
    var i, prev, demand, s := sc.inputs[t], SocBefore(sc, p, t), SlotDemand(sc, p.relays, t), p.slots[t];
    assert SlotOKAt(sc, p, t);
    if WearOutweighs(sc, CURTAIL_PENALTY) && s.bcp != 0.0 && s.bd != 0.0 {
      var q := PvChurnImprovable(sc, i, prev, demand, s);
      BetterSlotBetterPlan(sc, p, t, q);
    }
    if WearOutweighs(sc, IMPORT_TIE_BREAK) && 0.0 <= i.importPrice && s.bcg != 0.0 && s.bd != 0.0 {
      var q := GridChurnImprovable(sc, i, prev, demand, s);
      BetterSlotBetterPlan(sc, p, t, q);
    }
    if 0.0 < i.importPrice && i.exportPrice < i.importPrice && s.gi != s.bcg && s.ge != 0.0 {
      var q := WashImprovable(sc, i, prev, demand, s);
      BetterSlotBetterPlan(sc, p, t, q);
    }
  }

  // ---------------------------------------------------------------- optima of the stochastic program

  ghost predicate StochOptimal(scs: seq<Scenario>, base: nat, x: Assignment)
    requires SameShape(scs) && base < |scs|
  {
    && StochFeasible(scs, base, x)
    && forall y :: StochFeasible(scs, base, y) ==> StochCost(scs, x) <= StochCost(scs, y)
  }

  lemma StochCostReplace(scs: seq<Scenario>, x: Assignment, j: nat, p: Plan)
    requires |scs| == |x| && j < |x|
    requires forall i :: 0 <= i < |scs| ==> |x[i].slots| == |scs[i].inputs|
    requires |p.slots| == |scs[j].inputs|
    ensures StochCost(scs, x[j := p])
      == StochCost(scs, x) + scs[j].weight * (Cost(scs[j], p) - Cost(scs[j], x[j]))
  {
    hide Cost;
    assert ScenarioCosts(scs, x[j := p]) == ScenarioCosts(scs, x)[j := Cost(scs[j], p)];
    DotUpdate(ScenarioWeights(scs), ScenarioCosts(scs, x), j, Cost(scs[j], p));
  }

  lemma TiesKept(scs: seq<Scenario>, base: nat, x: Assignment, j: nat, p: Plan)
    requires SameShape(scs) && base < |scs| && StochFeasible(scs, base, x) && j < |scs|
    requires Feasible(scs[j], p) && p.slots[0].Net() == x[j].slots[0].Net() && p.relays == x[j].relays
    ensures StochFeasible(scs, base, x[j := p])
  {
    var y := x[j := p];
    forall i | 0 <= i < |scs| ensures Feasible(scs[i], y[i]) && Tied(scs[0].loads, y[base], y[i]) {
      assert Feasible(scs[i], x[i]) && Tied(scs[0].loads, x[base], x[i]);
      assert Feasible(scs[base], x[base]) && Tied(scs[0].loads, x[base], x[j]);
    }
  }

  /** Improving one slot of one scenario, with what is tied left alone, improves the whole program. */
  lemma BetterSlotBetterProgram(scs: seq<Scenario>, base: nat, x: Assignment, j: nat, t: nat, q: Slot)
    requires SameShape(scs) && base < |scs| && StochFeasible(scs, base, x)
    requires j < |scs| && t < |x[j].slots| && 0.0 < scs[j].weight
    requires t == 0 ==> q.Net() == x[j].slots[0].Net()
    requires Better(scs[j], scs[j].inputs[t], SocBefore(scs[j], x[j], t),
                    SlotDemand(scs[j], x[j].relays, t), x[j].slots[t], q)
    ensures !StochOptimal(scs, base, x)
  {
    hide Cost, SlotCost, SlotOK, StochCost, SlotDemand, SocBefore, Tied;
    var p := x[j].(slots := x[j].slots[t := q]);
    assert Feasible(scs[j], x[j]);
    ReplaceSlot(scs[j], x[j], t, q);
    TiesKept(scs, base, x, j, p);
    StochCostReplace(scs, x, j, p);
    PositiveProduct(scs[j].weight, Cost(scs[j], x[j]) - Cost(scs[j], p));
  }

  /**
    In an optimal stochastic plan no scenario that carries weight churns its battery after slot 0
    (where the net power is shared between scenarios), and none trades against itself in any slot.
   */
  lemma StochOptimalIsTidy(scs: seq<Scenario>, base: nat, x: Assignment, j: nat, t: nat)
    requires SameShape(scs) && base < |scs| && StochOptimal(scs, base, x)
    requires j < |scs| && t < |x[j].slots| && 0.0 < scs[j].weight && 0.0 <= scs[j].wear
    ensures 0 < t && WearOutweighs(scs[j], CURTAIL_PENALTY) ==>
      x[j].slots[t].bcp == 0.0 || x[j].slots[t].bd == 0.0
    ensures 0 < t && WearOutweighs(scs[j], IMPORT_TIE_BREAK) && 0.0 <= scs[j].inputs[t].importPrice ==>
      x[j].slots[t].bcg == 0.0 || x[j].slots[t].bd == 0.0
    ensures 0.0 < scs[j].inputs[t].importPrice && scs[j].inputs[t].exportPrice < scs[j].inputs[t].importPrice ==>
      x[j].slots[t].gi == x[j].slots[t].bcg || x[j].slots[t].ge == 0.0
  {
    var sc, p := scs[j], x[j];
    var i, prev, demand, s := sc.inputs[t], SocBefore(sc, p, t), SlotDemand(sc, p.relays, t), p.slots[t];
    assert Feasible(sc, p) && SlotOKAt(sc, p, t);
    if 0 < t && WearOutweighs(sc, CURTAIL_PENALTY) && s.bcp != 0.0 && s.bd != 0.0 {
      var q := PvChurnImprovable(sc, i, prev, demand, s);
      BetterSlotBetterProgram(scs, base, x, j, t, q);
    }
    if 0 < t && WearOutweighs(sc, IMPORT_TIE_BREAK) && 0.0 <= i.importPrice && s.bcg != 0.0 && s.bd != 0.0 {
      var q := GridChurnImprovable(sc, i, prev, demand, s);
      BetterSlotBetterProgram(scs, base, x, j, t, q);
    }
    if 0.0 < i.importPrice && i.exportPrice < i.importPrice && s.gi != s.bcg && s.ge != 0.0 {
      var q := WashImprovable(sc, i, prev, demand, s);
      BetterSlotBetterProgram(scs, base, x, j, t, q);
    }
  }

  /** The shipped wear cost and efficiency satisfy both side conditions. */
  lemma ShippedWearOutweighs(sc: Scenario)
    requires sc.wear == 2.5 && sc.battery.efficiency == 0.9
    ensures WearOutweighs(sc, CURTAIL_PENALTY) && WearOutweighs(sc, IMPORT_TIE_BREAK)
  {
  }

  /**
    With the shipped wear cost and efficiency, and import prices above zero and above export prices,
    a weighted scenario of an optimal program charges or discharges after slot 0, never both, and
    exports nothing while it imports for the house.
   */
  lemma ShippedOptimaAreTidy(scs: seq<Scenario>, base: nat, x: Assignment, j: nat, t: nat)
    requires SameShape(scs) && base < |scs| && StochOptimal(scs, base, x)
    requires j < |scs| && t < |x[j].slots| && 0.0 < scs[j].weight
    requires scs[j].wear == 2.5 && scs[j].battery.efficiency == 0.9
    requires 0.0 < scs[j].inputs[t].importPrice && scs[j].inputs[t].exportPrice < scs[j].inputs[t].importPrice
    ensures 0 < t ==> x[j].slots[t].bcg + x[j].slots[t].bcp == 0.0 || x[j].slots[t].bd == 0.0
    ensures x[j].slots[t].gi == x[j].slots[t].bcg || x[j].slots[t].ge == 0.0
  {
    hide StochOptimal, SameShape, WearOutweighs, Scenario.Sane;
    ShippedWearOutweighs(scs[j]);
    StochOptimalIsTidy(scs, base, x, j, t);
  }
}
