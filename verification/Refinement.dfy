/**
  How the stochastic program relates to the deterministic one (lp/formulation.py, lp/scenarios.py):
  it can never beat the scenarios' own optima, and it has the deterministic optimum when the
  scenarios only differ in their weights.
 */
module Refinement {
  import opened Reals
  import opened Plans
  import opened Loads
  import opened Prices
  import opened Program
  import opened Exchange
  import opened Builder

  // ---------------------------------------------------------------- hedging costs something

  ghost predicate EachOptimal(scs: seq<Scenario>, ps: seq<Plan>)
    requires forall i :: 0 <= i < |scs| ==> scs[i].Sane()
  {
    |ps| == |scs| && forall i :: 0 <= i < |scs| ==> Optimal(scs[i], ps[i])
  }

  predicate NonNegativeWeights(scs: seq<Scenario>) {
    forall i :: 0 <= i < |scs| ==> 0.0 <= scs[i].weight
  }

  /** No plan that suits all scenarios at once costs less than the weighted sum of their own optima. */
  lemma HindsightBound(scs: seq<Scenario>, base: nat, x: Assignment, ps: seq<Plan>)
    requires SameShape(scs) && base < |scs| && StochFeasible(scs, base, x)
    requires NonNegativeWeights(scs) && EachOptimal(scs, ps)
    ensures StochCost(scs, ps) <= StochCost(scs, x)
  {
    hide Cost, SlotOKAt, Dot;
    forall i | 0 <= i < |scs|
      ensures Feasible(scs[i], x[i]) && Optimal(scs[i], ps[i]) && Feasible(scs[i], ps[i])
      ensures Cost(scs[i], ps[i]) <= Cost(scs[i], x[i])
    {
    }
    DotMonotone(ScenarioWeights(scs), ScenarioCosts(scs, ps), ScenarioCosts(scs, x));
  }

  // ---------------------------------------------------------------- copies of one scenario

  ghost predicate Copies(scs: seq<Scenario>, sc: Scenario) {
    forall i :: 0 <= i < |scs| ==> scs[i] == sc.(weight := scs[i].weight)
  }

  lemma {:induction false} WeightLeavesSlotCosts(sc: Scenario, w: real, p: Plan, k: nat)
    requires k <= |sc.inputs| == |p.slots|
    ensures SlotCosts(sc.(weight := w), p, k) == SlotCosts(sc, p, k)
  {
    if k == 0 {
    } else {
      WeightLeavesSlotCosts(sc, w, p, k - 1);
    }
  }

  /** A scenario's weight changes neither what is feasible in it nor what that costs. */
  lemma WeightLeavesProblem(sc: Scenario, w: real, p: Plan)
    requires sc.Sane()
    ensures Feasible(sc.(weight := w), p) <==> Feasible(sc, p)
    ensures |p.slots| == |sc.inputs| ==> Cost(sc.(weight := w), p) == Cost(sc, p)
  {
    hide SlotOKAt, LoadsOK, TerminalOK, SlotCosts;
    var other := sc.(weight := w);
    if |p.slots| == |sc.inputs| {
      WeightLeavesSlotCosts(sc, w, p, |sc.inputs|);
    }
    if PlanShaped(p, |sc.inputs|, |sc.loads|) {
      forall t | 0 <= t < |sc.inputs| ensures SlotOKAt(other, p, t) <==> SlotOKAt(sc, p, t) {
        WeightLeavesSlot(sc, w, p, t);
      }
      WeightLeavesRest(sc, w, p);
    }
  }

  lemma WeightLeavesSlot(sc: Scenario, w: real, p: Plan, t: nat)
    requires sc.Sane() && PlanShaped(p, |sc.inputs|, |sc.loads|) && t < |sc.inputs|
    ensures SlotOKAt(sc.(weight := w), p, t) <==> SlotOKAt(sc, p, t)
  {
    hide LoadPower, WithinBounds, FlowsOK;
  }

  lemma WeightLeavesRest(sc: Scenario, w: real, p: Plan)
    requires sc.Sane() && PlanShaped(p, |sc.inputs|, |sc.loads|)
    ensures TerminalOK(sc.(weight := w), p) <==> TerminalOK(sc, p)
    ensures LoadsOK(sc.(weight := w), p) <==> LoadsOK(sc, p)
  {
    hide LoadOK;
  }

  /** The same plan in every scenario. */
  function Everywhere(p: Plan, k: nat): (x: Assignment)
    ensures |x| == k && forall i :: 0 <= i < k ==> x[i] == p
  {
    seq(k, _ => p)
  }

  lemma EverywhereFeasible(scs: seq<Scenario>, base: nat, sc: Scenario, p: Plan)
    requires SameShape(scs) && base < |scs| && sc.Sane() && Copies(scs, sc) && Feasible(sc, p)
    ensures StochFeasible(scs, base, Everywhere(p, |scs|))
    ensures StochCost(scs, Everywhere(p, |scs|)) == Sum(ScenarioWeights(scs)) * Cost(sc, p)
  {
    hide Cost, SlotOKAt, Dot, LoadsOK;
    var x := Everywhere(p, |scs|);
    forall i | 0 <= i < |scs|
      ensures Feasible(scs[i], x[i]) && Tied(scs[0].loads, x[base], x[i]) && Cost(scs[i], x[i]) == Cost(sc, p)
    {
      WeightLeavesProblem(sc, scs[i].weight, p);
    }
    DotConstant(ScenarioWeights(scs), ScenarioCosts(scs, x), Cost(sc, p));
  }

  lemma {:induction false} CopiesCostAtLeast(scs: seq<Scenario>, base: nat, sc: Scenario, x: Assignment, p: Plan)
    requires SameShape(scs) && base < |scs| && sc.Sane() && Copies(scs, sc) && NonNegativeWeights(scs)
    requires StochFeasible(scs, base, x) && Optimal(sc, p)
    ensures Sum(ScenarioWeights(scs)) * Cost(sc, p) <= StochCost(scs, x)
  {
    hide Cost, SlotOKAt, Dot, LoadsOK;
    var y := Everywhere(p, |scs|);
    EverywhereFeasible(scs, base, sc, p);
    forall i | 0 <= i < |scs|
      ensures Feasible(scs[i], x[i]) && Feasible(scs[i], y[i]) && Cost(scs[i], y[i]) <= Cost(scs[i], x[i])
    {
      assert Feasible(scs[i], x[i]);
      WeightLeavesProblem(sc, scs[i].weight, x[i]);
      WeightLeavesProblem(sc, scs[i].weight, p);
    }
    DotMonotone(ScenarioWeights(scs), ScenarioCosts(scs, y), ScenarioCosts(scs, x));
  }

  /** The stochastic program's optimal value is `weight` times `value`, attained by `best`. */
  ghost predicate HasOptimum(scs: seq<Scenario>, base: nat, best: Assignment, weight: real, value: real)
    requires SameShape(scs) && base < |scs|
  {
    && StochOptimal(scs, base, best)
    && forall x :: StochOptimal(scs, base, x) ==> StochCost(scs, x) == weight * value
  }

  /**
    The stochastic program over copies of one scenario has exactly the optimal value of the
    deterministic one, scaled by the total weight; the deterministic optimum, used everywhere, attains it.
   */
  lemma CopiesRefineDeterministic(scs: seq<Scenario>, base: nat, sc: Scenario, p: Plan)
    requires SameShape(scs) && base < |scs| && sc.Sane() && Copies(scs, sc) && NonNegativeWeights(scs)
    requires Optimal(sc, p)
    ensures HasOptimum(scs, base, Everywhere(p, |scs|), Sum(ScenarioWeights(scs)), Cost(sc, p))
  {
    hide Cost, StochCost, SlotOKAt, LoadsOK;
    EverywhereFeasible(scs, base, sc, p);
    forall y | StochFeasible(scs, base, y)
      ensures Sum(ScenarioWeights(scs)) * Cost(sc, p) <= StochCost(scs, y)
    {
      CopiesCostAtLeast(scs, base, sc, y, p);
    }
  }

  // ---------------------------------------------------------------- from a tick

  /** The three PV percentiles agree everywhere. */
  predicate PercentilesCoincide(inp: LpInput) {
    forall i :: 0 <= i < |inp.pvForecast| ==>
      inp.pvForecast[i].p10 == inp.pvForecast[i].p50 == inp.pvForecast[i].p90
  }

  predicate Bandless(inp: LpInput) {
    forall i :: 0 <= i < |inp.prices| ==> NoBands(inp.prices[i])
  }

  lemma {:induction false} EstimatesCoincide(forecast: seq<PvForecast>, t: int, p: Percentile, q: Percentile)
    requires forall i :: 0 <= i < |forecast| ==> forecast[i].p10 == forecast[i].p50 == forecast[i].p90
    ensures PvEstimateAt(forecast, t, p) == PvEstimateAt(forecast, t, q)
  {
    if |forecast| > 0 && !(forecast[0].start <= t < forecast[0].end) {
      EstimatesCoincide(forecast[1..], t, p, q);
    }
  }

  const POINT := PriceScenario(1.0, Predicted, Predicted)

  lemma InputsCoincide(inp: LpInput, slots: seq<int>, p: Percentile, q: Percentile, ps: PriceScenario, t: nat)
    requires Buildable(inp, slots) && t < |slots|
    requires PercentilesCoincide(inp) && Bandless(inp)
    ensures InputAt(inp, slots, p, ps, t) == InputAt(inp, slots, q, POINT, t)
  {
    EstimatesCoincide(inp.pvForecast, slots[t], p, q);
    PriceAtIsFirst(inp.prices, slots[t]);
    BandsCollapse(PriceAt(inp.prices, slots[t]).value, ps);
  }

  lemma ScenariosCoincide(inp: LpInput, slots: seq<int>, p: Percentile, q: Percentile, ps: PriceScenario, w: real)
    requires inp.Sane() && Buildable(inp, slots) && |slots| > 0
    requires PercentilesCoincide(inp) && Bandless(inp)
    ensures MakeScenario(inp, slots, p, ps, w) == MakeScenario(inp, slots, q, POINT, 1.0).(weight := w)
  {
    hide InputAt;
    var a, b := MakeScenario(inp, slots, p, ps, w), MakeScenario(inp, slots, q, POINT, 1.0);
    forall t | 0 <= t < |slots| ensures a.inputs[t] == b.inputs[t] {
      InputsCoincide(inp, slots, p, q, ps, t);
    }
    assert a.inputs == b.inputs;
  }

  lemma CopiesConcat(a: seq<Scenario>, b: seq<Scenario>, sc: Scenario)
    requires Copies(a, sc) && Copies(b, sc)
    ensures Copies(a + b, sc)
  {
  }

  lemma {:induction false} CompoundCopies(inp: LpInput, slots: seq<int>,
                                           pvs: seq<PvWeight>, pss: seq<PriceScenario>, q: Percentile)
    requires inp.Sane() && Buildable(inp, slots) && |slots| > 0
    requires PercentilesCoincide(inp) && Bandless(inp)
    ensures Copies(Compound(inp, slots, pvs, pss), MakeScenario(inp, slots, q, POINT, 1.0))
  {
    if pvs == [] {
    } else {
      var n := |pvs| - 1;
      CompoundCopies(inp, slots, pvs[..n], pss, q);
      var row := Row(inp, slots, pvs[n], pss);
      forall j | 0 <= j < |pss|
        ensures row[j] == MakeScenario(inp, slots, q, POINT, 1.0).(weight := row[j].weight)
      {
        ScenariosCoincide(inp, slots, pvs[n].percentile, q, pss[j], CompoundWeight(pvs[n], pss[j]));
      }
      CopiesConcat(Compound(inp, slots, pvs[..n], pss), row, MakeScenario(inp, slots, q, POINT, 1.0));
    }
  }

  predicate NonNegativePv(pvs: seq<PvWeight>) {
    forall i :: 0 <= i < |pvs| ==> 0.0 <= pvs[i].weight
  }

  lemma RowWeights(inp: LpInput, slots: seq<int>, pv: PvWeight, pss: seq<PriceScenario>)
    requires inp.Sane() && Buildable(inp, slots) && |slots| > 0
    ensures Sum(ScenarioWeights(Row(inp, slots, pv, pss))) == pv.weight * Sum(Weights(pss))
    ensures 0.0 <= pv.weight && NonNegative(pss) ==> NonNegativeWeights(Row(inp, slots, pv, pss))
  {
    hide MakeScenario;
    SumScale(Weights(pss), ScenarioWeights(Row(inp, slots, pv, pss)), pv.weight);
    if 0.0 <= pv.weight && NonNegative(pss) {
      forall j | 0 <= j < |pss| ensures 0.0 <= CompoundWeight(pv, pss[j]) {
        ProductNonNegative(pv.weight, pss[j].weight);
      }
    }
  }

  /** The compound weights are products, so their total is the product of the totals. */
  lemma {:induction false} CompoundWeights(inp: LpInput, slots: seq<int>, pvs: seq<PvWeight>, pss: seq<PriceScenario>)
    requires inp.Sane() && Buildable(inp, slots) && |slots| > 0
    ensures Sum(ScenarioWeights(Compound(inp, slots, pvs, pss))) == Sum(PvWeightsOf(pvs)) * Sum(Weights(pss))
    ensures NonNegativePv(pvs) && NonNegative(pss) ==> NonNegativeWeights(Compound(inp, slots, pvs, pss))
  {
    hide MakeScenario, Row, Sum, Buildable, LpInput.Sane, Scenario.Sane;
    if pvs == [] {
      EmptySums();
    } else {
      var n := |pvs| - 1;
      var before, row := Compound(inp, slots, pvs[..n], pss), Row(inp, slots, pvs[n], pss);
      CompoundWeights(inp, slots, pvs[..n], pss);
      RowWeights(inp, slots, pvs[n], pss);
      assert ScenarioWeights(before + row) == ScenarioWeights(before) + ScenarioWeights(row);
      SumConcat(ScenarioWeights(before), ScenarioWeights(row));
      assert PvWeightsOf(pvs) == PvWeightsOf(pvs[..n]) + [pvs[n].weight];
      SumAppend(PvWeightsOf(pvs[..n]), pvs[n].weight);
      DistributeRight(Sum(PvWeightsOf(pvs[..n])), pvs[n].weight, Sum(Weights(pss)));
    }
  }

  lemma EmptySums()
    ensures Sum([]) == 0.0
  {
  }

  lemma DistributeRight(a: real, b: real, k: real)
    ensures (a + b) * k == a * k + b * k
  {
  }

  /** What the weights of a tick's scenarios add up to. */
  function TickWeight(weights: seq<PvWeight>, mode: Mode): real {
    Sum(PvWeightsOf(PvWeightsUsed(weights))) * ModeTotal(mode, DEFAULT_BAND_WEIGHTS)
  }

  /**
    When the PV percentiles coincide and no price bands are published, POINT, SHARED and CROSS all
    have the optimal value of `build_lp`, scaled by the total weight.
   */
  lemma {:induction false} TickRefinesDeterministic(inp: LpInput, weights: seq<PvWeight>, mode: Mode,
                                                     q: Percentile, p: Plan)
    requires inp.Sane() && inp.slot0Pv.None?
    requires PercentilesCoincide(inp) && Bandless(inp) && NonNegativePv(weights)
    requires StochasticOf(inp, weights, mode).Ok? && DeterministicOf(inp, q).Ok?
    requires Optimal(DeterministicOf(inp, q).value, p)
    ensures var st := StochasticOf(inp, weights, mode).value;
      && SameShape(st.scenarios) && st.base < |st.scenarios|
      && HasOptimum(st.scenarios, st.base, Everywhere(p, |st.scenarios|),
                    TickWeight(weights, mode), Cost(DeterministicOf(inp, q).value, p))
  {
    hide MakeScenario, StochasticOf, DeterministicOf, HasOptimum, SameShape, Optimal, Cost, TickWeight, TickSlots,
      ScenariosOf, PvWeightsUsed, Buildable, Bandless, PercentilesCoincide, NonNegativePv, NonNegative,
      LpInput.Sane, Scenario.Sane;
    StochasticShape(inp, weights, mode);
    DeterministicIsPoint(inp, q);
    UsedNonNegative(weights);
    DefaultBands(weights, mode);
    CompoundRefinesPoint(inp, TickSlots(inp), PvWeightsUsed(weights), ScenariosOf(mode, DEFAULT_BAND_WEIGHTS), q,
                         StochasticOf(inp, weights, mode).value.base, p, TickWeight(weights, mode));
  }

  lemma {:induction false} CompoundRefinesPoint(inp: LpInput, slots: seq<int>,
                                                 pvs: seq<PvWeight>, pss: seq<PriceScenario>,
                                                 q: Percentile, base: nat, p: Plan, weight: real)
    requires inp.Sane() && Buildable(inp, slots) && |slots| > 0
    requires PercentilesCoincide(inp) && Bandless(inp) && NonNegativePv(pvs) && NonNegative(pss)
    requires SameShape(Compound(inp, slots, pvs, pss)) && base < |Compound(inp, slots, pvs, pss)|
    requires Optimal(MakeScenario(inp, slots, q, POINT, 1.0), p)
    requires weight == Sum(PvWeightsOf(pvs)) * Sum(Weights(pss))
    ensures HasOptimum(Compound(inp, slots, pvs, pss), base, Everywhere(p, |Compound(inp, slots, pvs, pss)|),
      weight, Cost(MakeScenario(inp, slots, q, POINT, 1.0), p))
  {
    var sc := MakeScenario(inp, slots, q, POINT, 1.0);
    hide *;
    CompoundCopies(inp, slots, pvs, pss, q);
    CompoundWeights(inp, slots, pvs, pss);
    CopiesRefineDeterministic(Compound(inp, slots, pvs, pss), base, sc, p);
  }

  lemma DefaultBands(weights: seq<PvWeight>, mode: Mode)
    ensures NonNegative(ScenariosOf(mode, DEFAULT_BAND_WEIGHTS))
    ensures TickWeight(weights, mode)
      == Sum(PvWeightsOf(PvWeightsUsed(weights))) * Sum(Weights(ScenariosOf(mode, DEFAULT_BAND_WEIGHTS)))
  {
    ScenariosSound(mode, DEFAULT_BAND_WEIGHTS);
    WeightsTotal(mode, DEFAULT_BAND_WEIGHTS);
  }

  lemma DeterministicIsPoint(inp: LpInput, q: Percentile)
    requires inp.Sane() && inp.slot0Pv.None? && DeterministicOf(inp, q).Ok?
    ensures 0 < inp.slotMinutes && |TickSlots(inp)| > 0 && Buildable(inp, TickSlots(inp))
    ensures DeterministicOf(inp, q).value == MakeScenario(inp, TickSlots(inp), q, POINT, 1.0)
  {
  }

  lemma UsedNonNegative(weights: seq<PvWeight>)
    requires NonNegativePv(weights)
    ensures NonNegativePv(PvWeightsUsed(weights))
  {
  }

  lemma UnitWeights(weights: seq<PvWeight>, mode: Mode)
    requires Sum(PvWeightsOf(PvWeightsUsed(weights))) == 1.0
    ensures TickWeight(weights, mode) == 1.0
  {
  }

  /**
    With PV weights that add up to 1, as the default ones do, the expected cost of any optimal
    solution of the tick's stochastic program is the optimal cost of `build_lp`.
   */
  lemma {:induction false} TickEqualsDeterministic(inp: LpInput, weights: seq<PvWeight>, mode: Mode,
                                                    q: Percentile, p: Plan)
    requires inp.Sane() && inp.slot0Pv.None?
    requires PercentilesCoincide(inp) && Bandless(inp) && NonNegativePv(weights)
    requires Sum(PvWeightsOf(PvWeightsUsed(weights))) == 1.0
    requires StochasticOf(inp, weights, mode).Ok? && DeterministicOf(inp, q).Ok?
    requires Optimal(DeterministicOf(inp, q).value, p)
    ensures var st, sc := StochasticOf(inp, weights, mode).value, DeterministicOf(inp, q).value;
      && SameShape(st.scenarios) && st.base < |st.scenarios|
      && StochOptimal(st.scenarios, st.base, Everywhere(p, |st.scenarios|))
      && forall x :: StochOptimal(st.scenarios, st.base, x) ==> StochCost(st.scenarios, x) == Cost(sc, p)
  {
    hide StochasticOf, DeterministicOf, SameShape, Optimal, StochOptimal, StochCost, Cost, TickWeight, PvWeightsUsed,
      Bandless, PercentilesCoincide, NonNegativePv, LpInput.Sane, Scenario.Sane;
    TickRefinesDeterministic(inp, weights, mode, q, p);
    UnitWeights(weights, mode);
  }

  /** The shipped weights do. */
  lemma DefaultWeightsAreUnit()
    ensures NonNegativePv([]) && PvWeightsUsed([]) == DEFAULT_SCENARIO_WEIGHTS
    ensures Sum(PvWeightsOf(PvWeightsUsed([]))) == 1.0
  {
    var ws := PvWeightsOf(DEFAULT_SCENARIO_WEIGHTS);
    assert ws == [] + [0.2] + [0.6] + [0.2];
    SumAppend([], 0.2);
    SumAppend([] + [0.2], 0.6);
    SumAppend([] + [0.2] + [0.6], 0.2);
  }
}
