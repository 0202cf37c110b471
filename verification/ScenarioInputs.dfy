/**
  What the scenarios of a tick's program are about (lp/formulation.py, lp/scenarios.py): which prices, PV
  and load each slot sees, and what that asks of their plans, all in terms of the tick's own input.
 */
module ScenarioInputs {
  import opened Reals
  import opened Plans
  import opened Prices
  import opened Modes
  import opened Program
  import opened Builder

  // ---------------------------------------------------------------- PV

  predicate FirstForecast(forecast: seq<PvForecast>, t: int, n: nat)
    requires n < |forecast|
  {
    && forecast[n].start <= t < forecast[n].end
    && forall m :: 0 <= m < n ==> !(forecast[m].start <= t < forecast[m].end)
  }

  predicate Estimates(f: PvForecast, pv: Percentile, kw: real) {
    (pv.P10? ==> kw == f.p10) && (pv.P50? ==> kw == f.p50) && (pv.P90? ==> kw == f.p90)
  }

  /** The percentile of the earliest listed forecast covering the instant; nothing where there is none. */
  ghost predicate SunAt(forecast: seq<PvForecast>, t: int, pv: Percentile, kw: real) {
    || (kw == 0.0 && forall n :: 0 <= n < |forecast| ==> !(forecast[n].start <= t < forecast[n].end))
    || exists n :: 0 <= n < |forecast| && FirstForecast(forecast, t, n) && Estimates(forecast[n], pv, kw)
  }

  lemma {:induction false} EstimateIsFirst(forecast: seq<PvForecast>, t: int, pv: Percentile)
    ensures SunAt(forecast, t, pv, PvEstimateAt(forecast, t, pv))
  {
    if forecast == [] {
    } else if forecast[0].start <= t < forecast[0].end {
      assert FirstForecast(forecast, t, 0) && Estimates(forecast[0], pv, EstimateOf(forecast[0], pv));
    } else {
      var rest, kw := forecast[1..], PvEstimateAt(forecast[1..], t, pv);
      EstimateIsFirst(rest, t, pv);
      assert forall n :: 0 < n < |forecast| ==> forecast[n] == rest[n - 1];
      if n :| 0 <= n < |rest| && FirstForecast(rest, t, n) && Estimates(rest[n], pv, kw) {
        assert FirstForecast(forecast, t, n + 1) && Estimates(forecast[n + 1], pv, kw);
      } else {
        assert forall n :: 0 <= n < |forecast| ==> n == 0 || forecast[n] == rest[n - 1];
      }
    }
  }

  // ---------------------------------------------------------------- one slot of one scenario

  /** The interval is the first to cover the instant, and quotes these prices for the legs. */
  predicate QuotedBy(inp: LpInput, at: int, n: nat, importLeg: Leg, exportLeg: Leg,
                     importPrice: real, exportPrice: real)
    requires n < |inp.prices|
  {
    && FirstCovering(inp.prices, at, n)
    && Quotes(inp.prices[n].imports, importLeg, importPrice)
    && Quotes(inp.prices[n].exports, exportLeg, exportPrice)
  }

  /** A mode masks the slot. */
  predicate Masked(inp: LpInput, t: nat, kind: ModeKind) {
    inp.modes.Some? &&
    var mask := if kind.Buy? then inp.modes.value.buyAt else inp.modes.value.conserveAt;
    t < |mask| && mask[t]
  }

  /** The slot's prices are those of the legs, its PV the percentile's or what was measured, its load the profile's. */
  ghost predicate SlotSees(inp: LpInput, slots: seq<int>, t: nat, i: Input, pv: Percentile,
                           importLeg: Leg, exportLeg: Leg)
    requires t < |slots|
  {
    && (exists n :: 0 <= n < |inp.prices|
          && QuotedBy(inp, slots[t], n, importLeg, exportLeg, i.importPrice, i.exportPrice))
    && (t == 0 && inp.slot0Pv.Some? ==> i.pv == Max(0.0, inp.slot0Pv.value))
    && (t > 0 || inp.slot0Pv.None? ==> SunAt(inp.pvForecast, slots[t], pv, i.pv))
    && inp.slotIndex(slots[t]) < |inp.profile| && i.house == inp.profile[inp.slotIndex(slots[t])]
    && (i.buy <==> Masked(inp, t, Buy)) && (i.conserve <==> Masked(inp, t, Conserve))
  }

  lemma InputSees(inp: LpInput, slots: seq<int>, pv: Percentile, ps: PriceScenario, t: nat)
    requires Buildable(inp, slots) && t < |slots|
    ensures SlotSees(inp, slots, t, InputAt(inp, slots, pv, ps, t), pv, ps.importLeg, ps.exportLeg)
  {
    hide SunAt, Quotes, Resolve;
    PriceAtIsFirst(inp.prices, slots[t]);
    var price := PriceAt(inp.prices, slots[t]).value;
    ResolveQuotes(ps.importLeg, price.imports);
    ResolveQuotes(ps.exportLeg, price.exports);
    var n :| 0 <= n < |inp.prices| && FirstCovering(inp.prices, slots[t], n) && inp.prices[n] == price;
    assert QuotedBy(inp, slots[t], n, ps.importLeg, ps.exportLeg, ps.ImportPrice(price), ps.ExportPrice(price));
    EstimateIsFirst(inp.pvForecast, slots[t], pv);
  }

  // ---------------------------------------------------------------- all scenarios of a tick

  /** The scenario plans with one PV percentile and one pair of legs of the mode, weighed by both, at every slot. */
  ghost predicate ScenarioSees(inp: LpInput, mode: Mode, sc: Scenario, pv: PvWeight, importLeg: Leg, exportLeg: Leg)
    requires inp.Sane()
  {
    && (exists weight :: PlansWith(mode, DEFAULT_BAND_WEIGHTS, importLeg, exportLeg, weight)
          && sc.weight == pv.weight * weight)
    && |sc.inputs| == |TickSlots(inp)|
    && forall t :: 0 <= t < |sc.inputs| ==>
      SlotSees(inp, TickSlots(inp), t, sc.inputs[t], pv.percentile, importLeg, exportLeg)
  }

  lemma MadeSees(inp: LpInput, mode: Mode, pv: PvWeight, ps: PriceScenario)
    requires inp.Sane() && Buildable(inp, TickSlots(inp)) && |TickSlots(inp)| > 0
    requires PlansWith(mode, DEFAULT_BAND_WEIGHTS, ps.importLeg, ps.exportLeg, ps.weight)
    ensures ScenarioSees(inp, mode, MakeScenario(inp, TickSlots(inp), pv.percentile, ps, CompoundWeight(pv, ps)), pv,
                         ps.importLeg, ps.exportLeg)
  {
    hide SlotSees, InputAt, PlansWith, TickSlots, Buildable;
    var slots := TickSlots(inp);
    var sc := MakeScenario(inp, slots, pv.percentile, ps, CompoundWeight(pv, ps));
    forall t | 0 <= t < |slots|
      ensures SlotSees(inp, slots, t, sc.inputs[t], pv.percentile, ps.importLeg, ps.exportLeg)
    {
      InputSees(inp, slots, pv.percentile, ps, t);
    }
    assert sc.weight == pv.weight * ps.weight;
  }

  /** Every scenario of the tick's program is one of these. */
  lemma TickScenarioSees(inp: LpInput, weights: seq<PvWeight>, mode: Mode, i: nat)
      returns (k: nat, importLeg: Leg, exportLeg: Leg)
    requires inp.Sane() && StochasticOf(inp, weights, mode).Ok?
    requires i < |StochasticOf(inp, weights, mode).value.scenarios|
    ensures k < |PvWeightsUsed(weights)|
    ensures ScenarioSees(inp, mode, StochasticOf(inp, weights, mode).value.scenarios[i], PvWeightsUsed(weights)[k],
                         importLeg, exportLeg)
  {
    hide ScenarioSees, StochasticOf, Compound, PlansWith, Buildable, TickSlots, ScenariosOf;
    var pvs, pss := PvWeightsUsed(weights), ScenariosOf(mode, DEFAULT_BAND_WEIGHTS);
    StochasticShape(inp, weights, mode);
    var j;
    k, j := CompoundSees(inp, TickSlots(inp), pvs, pss, i);
    ModePairs(mode, DEFAULT_BAND_WEIGHTS, j);
    importLeg, exportLeg := pss[j].importLeg, pss[j].exportLeg;
    MadeSees(inp, mode, pvs[k], pss[j]);
  }

  /** With a measurement or not, every percentile used is planned with under every pair of legs of the mode. */
  lemma EveryPairIsPlanned(inp: LpInput, weights: seq<PvWeight>, mode: Mode, k: nat, importLeg: Leg, exportLeg: Leg)
      returns (i: nat)
    requires inp.Sane() && StochasticOf(inp, weights, mode).Ok? && k < |PvWeightsUsed(weights)|
    requires mode.Point? ==> importLeg.Predicted? && exportLeg.Predicted?
    requires mode.Shared? ==> importLeg == exportLeg
    ensures var scs := StochasticOf(inp, weights, mode).value.scenarios;
      && i < |scs| && |scs[i].inputs| == |TickSlots(inp)|
      && forall t :: 0 <= t < |scs[i].inputs| ==>
        SlotSees(inp, TickSlots(inp), t, scs[i].inputs[t], PvWeightsUsed(weights)[k].percentile, importLeg, exportLeg)
  {
    hide SlotSees, StochasticOf, Compound, Buildable, TickSlots, ScenariosOf, InputAt, Rank;
    var pvs, pss, slots := PvWeightsUsed(weights), ScenariosOf(mode, DEFAULT_BAND_WEIGHTS), TickSlots(inp);
    StochasticShape(inp, weights, mode);
    ModeCovers(mode, DEFAULT_BAND_WEIGHTS, importLeg, exportLeg);
    var j := Rank(mode, importLeg, exportLeg);
    i := CompoundCovers(inp, slots, pvs, pss, k, j);
    var sc := StochasticOf(inp, weights, mode).value.scenarios[i];
    forall t | 0 <= t < |sc.inputs|
      ensures SlotSees(inp, slots, t, sc.inputs[t], pvs[k].percentile, importLeg, exportLeg)
    {
      InputSees(inp, slots, pvs[k].percentile, pss[j], t);
    }
  }

  // ---------------------------------------------------------------- what that means for prices

  /** The interval is the first to cover the slot, and both prices lie within its bands, at the ends for outer legs. */
  predicate WithinBands(inp: LpInput, at: int, n: nat, i: Input, importLeg: Leg, exportLeg: Leg)
    requires n < |inp.prices|
  {
    && FirstCovering(inp.prices, at, n)
    && BandPrice(inp.prices[n].imports, importLeg, i.importPrice)
    && BandPrice(inp.prices[n].exports, exportLeg, i.exportPrice)
  }

  predicate AllPublished(prices: seq<PriceInterval>) {
    forall n :: 0 <= n < |prices| ==> Published(prices[n].imports) && Published(prices[n].exports)
  }

  lemma PricesWithinBands(inp: LpInput, slots: seq<int>, t: nat, i: Input, pv: Percentile,
                          importLeg: Leg, exportLeg: Leg)
    requires t < |slots| && SlotSees(inp, slots, t, i, pv, importLeg, exportLeg) && AllPublished(inp.prices)
    ensures exists n :: 0 <= n < |inp.prices| && WithinBands(inp, slots[t], n, i, importLeg, exportLeg)
  {
    var n :| 0 <= n < |inp.prices| && QuotedBy(inp, slots[t], n, importLeg, exportLeg, i.importPrice, i.exportPrice);
    assert WithinBands(inp, slots[t], n, i, importLeg, exportLeg);
  }

  /** Scenarios of the three legs see import prices in order at every slot, and export prices likewise. */
  lemma LegsOrderPrices(inp: LpInput, slots: seq<int>, t: nat, low: Input, mid: Input, high: Input, pv: Percentile)
    requires t < |slots| && AllPublished(inp.prices)
    requires SlotSees(inp, slots, t, low, pv, Low, Low) && SlotSees(inp, slots, t, mid, pv, Predicted, Predicted)
    requires SlotSees(inp, slots, t, high, pv, High, High)
    ensures low.importPrice <= mid.importPrice <= high.importPrice
    ensures low.exportPrice <= mid.exportPrice <= high.exportPrice
  {
    hide SunAt;
    PricesWithinBands(inp, slots, t, low, pv, Low, Low);
    PricesWithinBands(inp, slots, t, mid, pv, Predicted, Predicted);
    PricesWithinBands(inp, slots, t, high, pv, High, High);
    var a :| 0 <= a < |inp.prices| && WithinBands(inp, slots[t], a, low, Low, Low);
    var b :| 0 <= b < |inp.prices| && WithinBands(inp, slots[t], b, mid, Predicted, Predicted);
    var c :| 0 <= c < |inp.prices| && WithinBands(inp, slots[t], c, high, High, High);
    assert a == b == c;
  }

  predicate BandPrice(b: Band, leg: Leg, price: real) {
    && Published(b)
    && b.low.value <= price <= b.high.value
    && (leg.Low? ==> price == b.low.value)
    && (leg.Predicted? ==> price == b.predicted.value)
    && (leg.High? ==> price == b.high.value)
  }

  // ---------------------------------------------------------------- what it asks of plans

  /** The user's windows, as every plan of every scenario keeps them. */
  predicate KeepsModes(inp: LpInput, t: nat, i: Input, s: Slot) {
    && (Masked(inp, t, Buy) ==>
      var o := inp.modes.value;
      && (o.buyCeiling.Some? && i.importPrice > o.buyCeiling.value ==> s.bcg == 0.0)
      && s.ge <= s.pve
      && (o.buySocCutoff.Some? ==> s.soc <= o.buySocCutoff.value))
    && (Masked(inp, t, Conserve) ==>
      var o := inp.modes.value;
      o.conserveFloor.Some? && i.exportPrice < o.conserveFloor.value ==> s.ge == 0.0)
  }

  /** The reserve at the horizon end, missed by no more than the slack that is penalised. */
  predicate KeepsReserve(inp: LpInput, slots: seq<int>, p: Plan)
    requires |p.slots| > 0 && |slots| > 0
  {
    var reached := p.slots[|p.slots| - 1].soc + p.terminalSlack;
    && 0.0 <= p.terminalSlack
    && inp.battery.socFloor <= reached && inp.battery.backupSoc <= reached && inp.battery.dischargeCutoff <= reached
    && (inp.terminalOverride.Some? ==> inp.terminalOverride.value <= reached)
    && (inp.terminalOverride.None? ==> inp.terminalTable(slots[|slots| - 1]) <= reached)
  }

  /**
    Any plan of any scenario of the tick: in buy slots nothing is charged from the grid above the
    ceiling, nothing but PV is exported and the cutoff is kept; in conserve slots nothing is exported
    below the floor; and the reserve at the end covers every floor and the table, or the override.
   */
  lemma PlansKeepModes(inp: LpInput, weights: seq<PvWeight>, mode: Mode, i: nat, p: Plan)
    requires inp.Sane() && StochasticOf(inp, weights, mode).Ok?
    requires i < |StochasticOf(inp, weights, mode).value.scenarios|
    requires var sc := StochasticOf(inp, weights, mode).value.scenarios[i]; sc.Sane() && Feasible(sc, p)
    ensures var sc := StochasticOf(inp, weights, mode).value.scenarios[i];
      && |p.slots| == |sc.inputs| == |TickSlots(inp)|
      && |p.slots| > 0
      && (forall t :: 0 <= t < |p.slots| ==> KeepsModes(inp, t, sc.inputs[t], p.slots[t]))
      && KeepsReserve(inp, TickSlots(inp), p)
  {
    hide StochasticOf, Compound, Buildable, TickSlots, ScenariosOf, Feasible, InputAt, SlotSees, KeepsModes,
      KeepsReserve;
    var pvs, pss, slots := PvWeightsUsed(weights), ScenariosOf(mode, DEFAULT_BAND_WEIGHTS), TickSlots(inp);
    StochasticShape(inp, weights, mode);
    var k, j := CompoundSees(inp, slots, pvs, pss, i);
    MadeKeepsReserve(inp, slots, pvs[k].percentile, pss[j], CompoundWeight(pvs[k], pss[j]), p);
    forall t | 0 <= t < |p.slots|
      ensures KeepsModes(inp, t, StochasticOf(inp, weights, mode).value.scenarios[i].inputs[t], p.slots[t])
    {
      MadeKeepsModes(inp, slots, pvs[k].percentile, pss[j], CompoundWeight(pvs[k], pss[j]), p, t);
    }
  }

  lemma MadeKeepsModes(inp: LpInput, slots: seq<int>, pv: Percentile, ps: PriceScenario, w: real, p: Plan, t: nat)
    requires inp.Sane() && Buildable(inp, slots) && |slots| > 0
    requires Feasible(MakeScenario(inp, slots, pv, ps, w), p) && t < |slots|
    ensures |p.slots| == |slots|
    ensures KeepsModes(inp, t, MakeScenario(inp, slots, pv, ps, w).inputs[t], p.slots[t])
  {
    hide LoadsOK, TerminalOK, WithinBounds, FlowsOK, BandOK, DynamicsOK, InputAt, SlotSees;
    var sc := MakeScenario(inp, slots, pv, ps, w);
    InputSees(inp, slots, pv, ps, t);
    MasksSeen(inp, slots, t, sc.inputs[t], pv, ps.importLeg, ps.exportLeg);
    assert SlotOKAt(sc, p, t);
  }

  lemma MasksSeen(inp: LpInput, slots: seq<int>, t: nat, i: Input, pv: Percentile, importLeg: Leg, exportLeg: Leg)
    requires t < |slots| && SlotSees(inp, slots, t, i, pv, importLeg, exportLeg)
    ensures (i.buy <==> Masked(inp, t, Buy)) && (i.conserve <==> Masked(inp, t, Conserve))
  {
  }

  lemma MadeKeepsReserve(inp: LpInput, slots: seq<int>, pv: Percentile, ps: PriceScenario, w: real, p: Plan)
    requires inp.Sane() && Buildable(inp, slots) && |slots| > 0
    requires Feasible(MakeScenario(inp, slots, pv, ps, w), p)
    ensures |p.slots| == |slots| && KeepsReserve(inp, slots, p)
  {
    hide LoadsOK, SlotOKAt, InputAt;
  }
}
