/**
  How lp/formulation.py writes the problem down: constraint by constraint into a PuLP problem, and
  cost term by cost term into the objective. Each method is proved to emit exactly the part of the
  declarative program it stands for.
 */
module Formulation {
  import opened Options
  import opened Plans
  import opened Pulp
  import opened Loads
  import opened Program

  function V(k: Kind, s: nat, t: nat): (e: Expr)
    ensures forall x :: Eval(e, x) == Value(x, Var.At(k, s, t))
  {
    Of(Var.At(k, s, t))
  }

  /** The assignment holds a plan of the right shape for scenario `s`. */
  predicate Holds1(x: Assignment, s: nat, sc: Scenario) {
    s < |x| && PlanShaped(x[s], |sc.inputs|, |sc.loads|)
  }

  // ---------------------------------------------------------------- variables and their bounds

  predicate BatteryWithin(b: Battery, s: Slot) {
    0.0 <= s.bcg <= b.maxAcCharge && 0.0 <= s.bcp <= b.maxDcCharge && 0.0 <= s.bd <= b.maxDischarge
  }

  predicate GridWithin(b: Battery, s: Slot) {
    0.0 <= s.gi <= b.maxAcCharge + IMPORT_HEADROOM_KW && 0.0 <= s.ge <= b.exportLimit
  }

  predicate PvWithin(pv: real, s: Slot) {
    && 0.0 <= s.pvh <= pv
    && 0.0 <= s.pvb <= pv
    && 0.0 <= s.pve <= pv
    && 0.0 <= s.pvc <= pv
  }

  method AddBatteryVariables(prob: LpProblem, sc: Scenario, s: nat, t: nat)
    requires t < |sc.inputs|
    modifies prob`constraints
    ensures forall x: Assignment | Holds1(x, s, sc) ::
      Sat(prob.constraints, x) <==>
        && Sat(old(prob.constraints), x)
        && BatteryWithin(sc.battery, x[s].slots[t])
        && GridWithin(sc.battery, x[s].slots[t])
  {
    var b := sc.battery;
    prob.Bounds(Var.At(Bcg, s, t), 0.0, b.maxAcCharge);
    prob.Bounds(Var.At(Bcp, s, t), 0.0, b.maxDcCharge);
    prob.Bounds(Var.At(Bd, s, t), 0.0, b.maxDischarge);
    prob.Bounds(Var.At(Gi, s, t), 0.0, b.maxAcCharge + IMPORT_HEADROOM_KW);
    prob.Bounds(Var.At(Ge, s, t), 0.0, b.exportLimit);
  }

  method AddPvVariables(prob: LpProblem, sc: Scenario, s: nat, t: nat)
    requires t < |sc.inputs|
    modifies prob`constraints
    ensures forall x: Assignment | Holds1(x, s, sc) ::
      Sat(prob.constraints, x) <==>
        && Sat(old(prob.constraints), x)
        && PvWithin(sc.inputs[t].pv, x[s].slots[t])
  {
    var pv := sc.inputs[t].pv;
    prob.Bounds(Var.At(Pvh, s, t), 0.0, pv);
    prob.Bounds(Var.At(Pvb, s, t), 0.0, pv);
    prob.Bounds(Var.At(Pve, s, t), 0.0, pv);
    prob.Bounds(Var.At(Pvc, s, t), 0.0, pv);
  }

  method AddSlotVariables(prob: LpProblem, sc: Scenario, s: nat, t: nat)
    requires t < |sc.inputs|
    modifies prob`constraints
    ensures forall x: Assignment | Holds1(x, s, sc) ::
      Sat(prob.constraints, x) <==>
        Sat(old(prob.constraints), x) && WithinBounds(sc.battery, sc.inputs[t].pv, x[s].slots[t])
  {
    AddBatteryVariables(prob, sc, s, t);
    AddPvVariables(prob, sc, s, t);
    prob.Bounds(Var.At(Soc, s, t), 0.0, 100.0);
    prob.Add(AtLeast(V(Over, s, t), Const(0.0)));
  }

  // ---------------------------------------------------------------- load expressions

  /** `load_total`: the sum of the loads' power expressions at one slot. */
  function LoadExpr(loads: seq<Load>, s: nat, t: nat, k: nat): Expr
    requires k <= |loads|
  {
    if k == 0 then Const(0.0)
    else if loads[k - 1].config.Relayed? then
      Plus(LoadExpr(loads, s, t, k - 1), Times(loads[k - 1].config.draw, Of(Var.Relay(s, k - 1, t))))
    else Plus(LoadExpr(loads, s, t, k - 1), Const(0.0))
  }

  lemma {:induction false} LoadExprValue(loads: seq<Load>, s: nat, t: nat, k: nat, x: Assignment, n: nat)
    requires k <= |loads| && t < n && s < |x| && PlanShaped(x[s], n, |loads|)
    ensures Eval(LoadExpr(loads, s, t, k), x) == LoadPower(loads, x[s].relays, t, k)
  {
    if k == 0 {
    } else {
      LoadExprValue(loads, s, t, k - 1, x, n);
    }
  }

  function DemandExpr(sc: Scenario, s: nat, t: nat): Expr
    requires t < |sc.inputs|
  {
    Plus(Const(sc.inputs[t].house), LoadExpr(sc.loads, s, t, |sc.loads|))
  }

  lemma DemandExprValue(sc: Scenario, s: nat, t: nat)
    requires t < |sc.inputs|
    ensures forall x: Assignment | Holds1(x, s, sc) ::
      Eval(DemandExpr(sc, s, t), x) == SlotDemand(sc, x[s].relays, t)
  {
    forall x: Assignment | Holds1(x, s, sc)
      ensures Eval(DemandExpr(sc, s, t), x) == SlotDemand(sc, x[s].relays, t)
    {
      LoadExprValue(sc.loads, s, t, |sc.loads|, x, |sc.inputs|);
    }
  }

  // ---------------------------------------------------------------- slot constraints

  method AddAllocation(prob: LpProblem, sc: Scenario, s: nat, t: nat)
    requires t < |sc.inputs|
    modifies prob`constraints
    ensures forall x: Assignment | Holds1(x, s, sc) ::
      Sat(prob.constraints, x) <==>
        && Sat(old(prob.constraints), x)
        && (var p := x[s].slots[t]; p.pvh + p.pvb + p.pve + p.pvc == sc.inputs[t].pv && p.bcp == p.pvb)
  {
    // every kW of PV goes somewhere, and PV charging is one flow booked twice
    prob.Add(Equal(Plus(Plus(V(Pvh, s, t), V(Pvb, s, t)), Plus(V(Pve, s, t), V(Pvc, s, t))),
                   Const(sc.inputs[t].pv)));
    prob.Add(Equal(V(Bcp, s, t), V(Pvb, s, t)));
  }

  method AddSystemBalance(prob: LpProblem, sc: Scenario, s: nat, t: nat)
    requires t < |sc.inputs|
    modifies prob`constraints
    ensures forall x: Assignment | Holds1(x, s, sc) ::
      Sat(prob.constraints, x) <==>
        && Sat(old(prob.constraints), x)
        && (var p := x[s].slots[t];
            sc.inputs[t].pv - p.pvc + p.bd + p.gi == SlotDemand(sc, x[s].relays, t) + p.bcg + p.bcp + p.ge)
  {
    DemandExprValue(sc, s, t);
    // sources equal sinks
    prob.Add(Equal(
      Plus(Plus(Minus(Const(sc.inputs[t].pv), V(Pvc, s, t)), V(Bd, s, t)), V(Gi, s, t)),
      Plus(Plus(DemandExpr(sc, s, t), V(Bcg, s, t)), Plus(V(Bcp, s, t), V(Ge, s, t)))));
  }

  method AddFlows(prob: LpProblem, sc: Scenario, s: nat, t: nat)
    requires t < |sc.inputs|
    modifies prob`constraints
    ensures forall x: Assignment | Holds1(x, s, sc) ::
      Sat(prob.constraints, x) <==>
        && Sat(old(prob.constraints), x)
        && FlowsOK(sc.inputs[t].pv, SlotDemand(sc, x[s].relays, t), x[s].slots[t])
  {
    AddAllocation(prob, sc, s, t);
    AddSystemBalance(prob, sc, s, t);
    // honest bookkeeping of grid charging, house PV and PV export
    prob.Add(AtMost(V(Bcg, s, t), V(Gi, s, t)));
    DemandExprValue(sc, s, t);
    prob.Add(AtMost(V(Pvh, s, t), DemandExpr(sc, s, t)));
    prob.Add(AtMost(V(Pve, s, t), V(Ge, s, t)));
  }

  method AddBand(prob: LpProblem, sc: Scenario, s: nat, t: nat)
    requires t < |sc.inputs|
    modifies prob`constraints
    ensures forall x: Assignment | Holds1(x, s, sc) ::
      Sat(prob.constraints, x) <==> Sat(old(prob.constraints), x) && BandOK(sc, x[s].slots[t])
  {
    prob.Add(AtMost(V(Soc, s, t), Plus(Const(sc.battery.socCeiling), V(Over, s, t))));
    prob.Add(AtLeast(V(Soc, s, t), Const(sc.EffectiveFloor())));
  }

  method AddDynamics(prob: LpProblem, sc: Scenario, s: nat, t: nat)
    requires sc.Sane() && t < |sc.inputs|
    modifies prob`constraints
    ensures forall x: Assignment | Holds1(x, s, sc) ::
      Sat(prob.constraints, x) <==>
        Sat(old(prob.constraints), x) && DynamicsOK(sc, SocBefore(sc, x[s], t), x[s].slots[t])
  {
    var prev := if t == 0 then Const(sc.soc0) else V(Soc, s, t - 1);
    var delta := Times(sc.PctPerKw(),
                       Minus(Times(sc.battery.efficiency, Plus(V(Bcg, s, t), V(Bcp, s, t))), V(Bd, s, t)));
    assert forall x: Assignment | Holds1(x, s, sc) :: Eval(prev, x) == SocBefore(sc, x[s], t);
    prob.Add(Equal(V(Soc, s, t), Plus(prev, delta)));
  }

  method AddBuy(prob: LpProblem, sc: Scenario, s: nat, t: nat)
    requires t < |sc.inputs|
    modifies prob`constraints
    ensures forall x: Assignment | Holds1(x, s, sc) ::
      Sat(prob.constraints, x) <==> Sat(old(prob.constraints), x) && BuyOK(sc, sc.inputs[t], x[s].slots[t])
  {
    if !sc.inputs[t].buy {
      return;
    }
    if sc.buyCeiling.Some? && sc.inputs[t].importPrice > sc.buyCeiling.value {
      prob.Add(Equal(V(Bcg, s, t), Const(0.0)));
    }
    prob.Add(AtMost(V(Ge, s, t), V(Pve, s, t)));
    if sc.buyCutoff.Some? {
      prob.Add(AtMost(V(Soc, s, t), Const(sc.buyCutoff.value)));
    }
  }

  method AddConserve(prob: LpProblem, sc: Scenario, s: nat, t: nat)
    requires t < |sc.inputs|
    modifies prob`constraints
    ensures forall x: Assignment | Holds1(x, s, sc) ::
      Sat(prob.constraints, x) <==> Sat(old(prob.constraints), x) && ConserveOK(sc, sc.inputs[t], x[s].slots[t])
  {
    if sc.inputs[t].conserve && sc.conserveFloor.Some?
      && sc.inputs[t].exportPrice < sc.conserveFloor.value {
      prob.Add(Equal(V(Ge, s, t), Const(0.0)));
    }
  }

  // ---------------------------------------------------------------- one scenario

  method AddVariables(prob: LpProblem, sc: Scenario, s: nat)
    requires sc.Sane()
    modifies prob`constraints
    ensures forall x: Assignment | Holds1(x, s, sc) ::
      Sat(prob.constraints, x) <==>
        && Sat(old(prob.constraints), x)
        && forall t :: 0 <= t < |sc.inputs| ==> WithinBounds(sc.battery, sc.inputs[t].pv, x[s].slots[t])
  {
    for t := 0 to |sc.inputs|
      invariant forall x: Assignment | Holds1(x, s, sc) ::
        Sat(prob.constraints, x) <==>
          && Sat(old(prob.constraints), x)
          && forall u :: 0 <= u < t ==> WithinBounds(sc.battery, sc.inputs[u].pv, x[s].slots[u])
    {
      AddSlotVariables(prob, sc, s, t);
    }
  }

  method AddLoads(prob: LpProblem, sc: Scenario, s: nat)
    requires sc.Sane()
    modifies prob`constraints
    ensures forall x: Assignment | Holds1(x, s, sc) ::
      Sat(prob.constraints, x) <==> Sat(old(prob.constraints), x) && LoadsOK(sc, x[s])
  {
    for l := 0 to |sc.loads|
      invariant forall x: Assignment | Holds1(x, s, sc) ::
        Sat(prob.constraints, x) <==>
          Sat(old(prob.constraints), x) && forall k :: 0 <= k < l ==> LoadOK(sc.loads[k], x[s].relays[k])
    {
      AddTo(prob, sc.loads[l], s, l);
      assert forall x: Assignment :: Holds1(x, s, sc) ==> Fits(x, s, l, |sc.loads[l].slots|);
    }
  }

  predicate BalanceOK(sc: Scenario, p: Plan, t: nat)
    requires PlanShaped(p, |sc.inputs|, |sc.loads|) && t < |sc.inputs|
  {
    && FlowsOK(sc.inputs[t].pv, SlotDemand(sc, p.relays, t), p.slots[t])
    && BandOK(sc, p.slots[t])
  }

  method AddBalance(prob: LpProblem, sc: Scenario, s: nat, t: nat)
    requires t < |sc.inputs|
    modifies prob`constraints
    ensures forall x: Assignment | Holds1(x, s, sc) ::
      Sat(prob.constraints, x) <==> Sat(old(prob.constraints), x) && BalanceOK(sc, x[s], t)
  {
    AddFlows(prob, sc, s, t);
    AddBand(prob, sc, s, t);
  }

  method AddBalances(prob: LpProblem, sc: Scenario, s: nat)
    requires sc.Sane()
    modifies prob`constraints
    ensures forall x: Assignment | Holds1(x, s, sc) ::
      Sat(prob.constraints, x) <==>
        Sat(old(prob.constraints), x) && forall t :: 0 <= t < |sc.inputs| ==> BalanceOK(sc, x[s], t)
  {
    for t := 0 to |sc.inputs|
      invariant forall x: Assignment | Holds1(x, s, sc) ::
        Sat(prob.constraints, x) <==>
          Sat(old(prob.constraints), x) && forall u :: 0 <= u < t ==> BalanceOK(sc, x[s], u)
    {
      AddBalance(prob, sc, s, t);
    }
  }

  method AddTrajectory(prob: LpProblem, sc: Scenario, s: nat)
    requires sc.Sane()
    modifies prob`constraints
    ensures forall x: Assignment | Holds1(x, s, sc) ::
      Sat(prob.constraints, x) <==>
        && Sat(old(prob.constraints), x)
        && forall t :: 0 <= t < |sc.inputs| ==> DynamicsOK(sc, SocBefore(sc, x[s], t), x[s].slots[t])
  {
    for t := 0 to |sc.inputs|
      invariant forall x: Assignment | Holds1(x, s, sc) ::
        Sat(prob.constraints, x) <==>
          && Sat(old(prob.constraints), x)
          && forall u :: 0 <= u < t ==> DynamicsOK(sc, SocBefore(sc, x[s], u), x[s].slots[u])
    {
      AddDynamics(prob, sc, s, t);
    }
  }

  method AddTerminal(prob: LpProblem, sc: Scenario, s: nat)
    requires sc.Sane()
    modifies prob`constraints
    ensures forall x: Assignment | Holds1(x, s, sc) ::
      Sat(prob.constraints, x) <==> Sat(old(prob.constraints), x) && TerminalOK(sc, x[s])
  {
    var slack := Of(Var.TerminalSlack(s));
    prob.Add(AtLeast(slack, Const(0.0)));
    prob.Add(AtLeast(V(Soc, s, |sc.inputs| - 1), Minus(Const(sc.terminalFloor), slack)));
  }

  predicate ModesOK(sc: Scenario, p: Plan, t: nat)
    requires PlanShaped(p, |sc.inputs|, |sc.loads|) && t < |sc.inputs|
  {
    BuyOK(sc, sc.inputs[t], p.slots[t]) && ConserveOK(sc, sc.inputs[t], p.slots[t])
  }

  /** The mode overrides; also finds the last slot of the buy window. */
  method AddModes(prob: LpProblem, sc: Scenario, s: nat) returns (lastBuy: Option<nat>)
    requires sc.Sane()
    modifies prob`constraints
    ensures lastBuy == LastBuy(sc.inputs, |sc.inputs|)
    ensures forall x: Assignment | Holds1(x, s, sc) ::
      Sat(prob.constraints, x) <==>
        Sat(old(prob.constraints), x) && forall t :: 0 <= t < |sc.inputs| ==> ModesOK(sc, x[s], t)
  {
    lastBuy := None;
    for t := 0 to |sc.inputs|
      invariant lastBuy == LastBuy(sc.inputs, t)
      invariant forall x: Assignment | Holds1(x, s, sc) ::
        Sat(prob.constraints, x) <==>
          && Sat(old(prob.constraints), x)
          && forall u :: 0 <= u < t ==> BuyOK(sc, sc.inputs[u], x[s].slots[u])
    {
      if sc.inputs[t].buy {
        lastBuy := Some(t);
      }
      AddBuy(prob, sc, s, t);
    }
    ghost var bought := prob.constraints;
    for t := 0 to |sc.inputs|
      invariant forall x: Assignment | Holds1(x, s, sc) ::
        Sat(prob.constraints, x) <==>
          && Sat(bought, x)
          && forall u :: 0 <= u < t ==> ConserveOK(sc, sc.inputs[u], x[s].slots[u])
    {
      AddConserve(prob, sc, s, t);
    }
    forall x: Assignment | Holds1(x, s, sc)
      ensures Sat(prob.constraints, x) <==>
        Sat(old(prob.constraints), x) && forall t :: 0 <= t < |sc.inputs| ==> ModesOK(sc, x[s], t)
    {
      assert forall t :: 0 <= t < |sc.inputs| ==>
        (ModesOK(sc, x[s], t) <==>
          BuyOK(sc, sc.inputs[t], x[s].slots[t]) && ConserveOK(sc, sc.inputs[t], x[s].slots[t]));
    }
  }

  lemma FeasibleByFamilies(sc: Scenario, p: Plan)
    requires sc.Sane() && PlanShaped(p, |sc.inputs|, |sc.loads|)
    ensures Feasible(sc, p) <==>
      && (forall t :: 0 <= t < |sc.inputs| ==> WithinBounds(sc.battery, sc.inputs[t].pv, p.slots[t]))
      && LoadsOK(sc, p)
      && (forall t :: 0 <= t < |sc.inputs| ==> BalanceOK(sc, p, t))
      && (forall t :: 0 <= t < |sc.inputs| ==> DynamicsOK(sc, SocBefore(sc, p, t), p.slots[t]))
      && TerminalOK(sc, p)
      && (forall t :: 0 <= t < |sc.inputs| ==> ModesOK(sc, p, t))
  {
    assert forall t :: 0 <= t < |sc.inputs| ==>
      (SlotOKAt(sc, p, t) <==>
        && WithinBounds(sc.battery, sc.inputs[t].pv, p.slots[t])
        && BalanceOK(sc, p, t)
        && DynamicsOK(sc, SocBefore(sc, p, t), p.slots[t])
        && ModesOK(sc, p, t));
  }

  /** All constraints of one scenario: the emitted system is exactly the declarative one. */
  method AddScenario(prob: LpProblem, sc: Scenario, s: nat) returns (lastBuy: Option<nat>)
    requires sc.Sane()
    modifies prob`constraints
    ensures lastBuy == LastBuy(sc.inputs, |sc.inputs|)
    ensures forall x: Assignment | Holds1(x, s, sc) ::
      Sat(prob.constraints, x) <==> Sat(old(prob.constraints), x) && Feasible(sc, x[s])
  {
    AddVariables(prob, sc, s);
    AddLoads(prob, sc, s);
    AddBalances(prob, sc, s);
    AddTrajectory(prob, sc, s);
    AddTerminal(prob, sc, s);
    lastBuy := AddModes(prob, sc, s);
    forall x: Assignment | Holds1(x, s, sc)
      ensures Sat(prob.constraints, x) <==> Sat(old(prob.constraints), x) && Feasible(sc, x[s])
    {
      FeasibleByFamilies(sc, x[s]);
    }
  }

  // ---------------------------------------------------------------- cost terms

  /** Appends a term of `k * e` cents. */
  function Bill(terms: seq<Expr>, k: real, e: Expr): (r: seq<Expr>)
    ensures forall x :: Eval(LpSum(r), x) == Eval(LpSum(terms), x) + k * Eval(e, x)
  {
    assert forall x :: Eval(LpSum(terms + [Times(k, e)]), x) == Eval(LpSum(terms), x) + k * Eval(e, x) by {
      forall x ensures Eval(LpSum(terms + [Times(k, e)]), x) == Eval(LpSum(terms), x) + k * Eval(e, x) {
        LpSumAppend(terms, Times(k, e), x);
      }
    }
    terms + [Times(k, e)]
  }

  method ImportTerms(sc: Scenario, s: nat, t: nat, terms: seq<Expr>) returns (r: seq<Expr>)
    requires t < |sc.inputs|
    ensures forall x: Assignment | Holds1(x, s, sc) ::
      Eval(LpSum(r), x) == Eval(LpSum(terms), x) + sc.slotHours * ImportRate(sc.inputs[t], x[s].slots[t])
  {
    hide Eval, LpSum;
    var h, i := sc.slotHours, sc.inputs[t];
    r := Bill(terms, h, Times(i.importPrice, V(Gi, s, t)));
    if i.importPrice <= 0.0 {
      r := Bill(r, h, Times(-IMPORT_TIE_BREAK, V(Gi, s, t)));
    }
    forall x: Assignment | Holds1(x, s, sc)
      ensures Eval(LpSum(r), x) == Eval(LpSum(terms), x) + h * ImportRate(i, x[s].slots[t])
    {
      Distribute(h, i.importPrice * x[s].slots[t].gi, -IMPORT_TIE_BREAK * x[s].slots[t].gi);
    }
  }

  method ExportTerms(sc: Scenario, s: nat, t: nat, terms: seq<Expr>) returns (r: seq<Expr>)
    requires t < |sc.inputs|
    ensures forall x: Assignment | Holds1(x, s, sc) ::
      Eval(LpSum(r), x) == Eval(LpSum(terms), x) - sc.slotHours * ExportRate(sc.inputs[t], x[s].slots[t])
  {
    hide Eval, LpSum;
    var h, i := sc.slotHours, sc.inputs[t];
    r := Bill(terms, -h, Times(i.exportPrice, V(Ge, s, t)));
    if i.exportPrice <= 0.0 {
      r := Bill(r, -h, Times(-EXPORT_TIE_BREAK, V(Ge, s, t)));
    }
    forall x: Assignment | Holds1(x, s, sc)
      ensures Eval(LpSum(r), x) == Eval(LpSum(terms), x) - h * ExportRate(i, x[s].slots[t])
    {
      var p := x[s].slots[t];
      Distribute(-h, i.exportPrice * p.ge, -EXPORT_TIE_BREAK * p.ge);
      assert (-h) * ExportRate(i, p) == -(h * ExportRate(i, p));
    }
  }

  lemma Distribute(k: real, a: real, b: real)
    ensures k * a + k * b == k * (a + b)
  {
  }

  method WearTerms(sc: Scenario, s: nat, t: nat, terms: seq<Expr>) returns (r: seq<Expr>)
    requires t < |sc.inputs|
    ensures forall x: Assignment | Holds1(x, s, sc) ::
      Eval(LpSum(r), x) == Eval(LpSum(terms), x) + sc.slotHours * WearRate(sc, sc.inputs[t], x[s].slots[t])
  {
    hide Eval, LpSum;
    var gridFactor := if sc.inputs[t].buy then 0.0 else 1.0;
    var pvFactor := if sc.inputs[t].conserve then 0.0 else 1.0;
    var throughput := Plus(Plus(Times(gridFactor, V(Bcg, s, t)), Times(pvFactor, V(Bcp, s, t))), V(Bd, s, t));
    r := Bill(terms, sc.slotHours, Times(sc.wear, throughput));
    forall x: Assignment | Holds1(x, s, sc)
      ensures Eval(Times(sc.wear, throughput), x) == WearRate(sc, sc.inputs[t], x[s].slots[t])
    {
      var p := x[s].slots[t];
      assert Eval(throughput, x)
        == (if sc.inputs[t].buy then 0.0 else p.bcg) + (if sc.inputs[t].conserve then 0.0 else p.bcp) + p.bd;
    }
  }

  /** The bill of one slot, before the scenario's weight is applied. */
  method SlotTerms(sc: Scenario, s: nat, t: nat, terms: seq<Expr>) returns (r: seq<Expr>)
    requires t < |sc.inputs|
    ensures forall x: Assignment | Holds1(x, s, sc) ::
      Eval(LpSum(r), x) == Eval(LpSum(terms), x) + SlotCost(sc, sc.inputs[t], x[s].slots[t])
  {
    hide Eval, LpSum, ImportRate, ExportRate, WearRate, SlotCost;
    r := ImportTerms(sc, s, t, terms);
    r := ExportTerms(sc, s, t, r);
    r := WearTerms(sc, s, t, r);
    r := Bill(r, sc.slotHours, Times(CURTAIL_PENALTY, V(Pvc, s, t)));
    r := Bill(r, SOC_PENALTY, V(Over, s, t));
    forall x: Assignment | Holds1(x, s, sc)
      ensures Eval(LpSum(r), x) == Eval(LpSum(terms), x) + SlotCost(sc, sc.inputs[t], x[s].slots[t])
    {
      BillTotal(sc, sc.inputs[t], x[s].slots[t]);
    }
  }

  /** The bill's parts add up to the slot cost. */
  lemma BillTotal(sc: Scenario, i: Input, s: Slot)
    ensures var h := sc.slotHours;
      h * ImportRate(i, s) - h * ExportRate(i, s) + h * WearRate(sc, i, s) + h * (CURTAIL_PENALTY * s.pvc)
        + SOC_PENALTY * s.over
      == SlotCost(sc, i, s)
  {
    var h, m, n := sc.slotHours, ImportRate(i, s), ExportRate(i, s);
    var b, c := WearRate(sc, i, s), CURTAIL_PENALTY * s.pvc;
    Distribute(h, m - n, n);
    Distribute(h, m - n, b);
    Distribute(h, m - n + b, c);
  }

  /** Every term multiplied by the scenario's weight. */
  function Weighted(w: real, terms: seq<Expr>): seq<Expr> {
    seq(|terms|, i requires 0 <= i < |terms| => Times(w, terms[i]))
  }

  lemma {:induction false} WeightedValue(w: real, terms: seq<Expr>, x: Assignment)
    ensures Eval(LpSum(Weighted(w, terms)), x) == w * Eval(LpSum(terms), x)
  {
    if terms == [] {
    } else {
      var n := |terms| - 1;
      WeightedValue(w, terms[..n], x);
      assert Weighted(w, terms)[..n] == Weighted(w, terms[..n]);
      Distribute(w, Eval(LpSum(terms[..n]), x), Eval(terms[n], x));
    }
  }

  /** The cost loop over the slots. */
  method SlotBills(sc: Scenario, s: nat) returns (bill: seq<Expr>)
    ensures forall x: Assignment | Holds1(x, s, sc) ::
      Eval(LpSum(bill), x) == SlotCosts(sc, x[s], |sc.inputs|)
  {
    bill := [];
    for t := 0 to |sc.inputs|
      invariant forall x: Assignment | Holds1(x, s, sc) :: Eval(LpSum(bill), x) == SlotCosts(sc, x[s], t)
    {
      bill := SlotTerms(sc, s, t, bill);
    }
  }

  /** The cost terms of one scenario add up to its weighted cost. */
  method CostTerms(sc: Scenario, s: nat, lastBuy: Option<nat>) returns (terms: seq<Expr>)
    requires lastBuy == LastBuy(sc.inputs, |sc.inputs|)
    ensures forall x: Assignment | Holds1(x, s, sc) ::
      Eval(LpSum(terms), x) == sc.weight * Cost(sc, x[s])
  {
    var bill := SlotBills(sc, s);
    bill := Bill(bill, SOC_PENALTY, Of(Var.TerminalSlack(s)));
    if lastBuy.Some? {
      bill := Bill(bill, -BUY_INCENTIVE, V(Soc, s, lastBuy.value));
    }
    terms := Weighted(sc.weight, bill);
    forall x: Assignment | Holds1(x, s, sc)
      ensures Eval(LpSum(terms), x) == sc.weight * Cost(sc, x[s])
    {
      WeightedValue(sc.weight, bill, x);
    }
  }
}
