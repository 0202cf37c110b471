/** From a tick's forecasts to the deterministic and the stochastic problem (lp/formulation.py). */
module Builder {
  import opened Options
  import opened Reals
  import opened Plans
  import opened Pulp
  import opened Loads
  import opened Prices
  import opened Modes
  import opened Program
  import opened Formulation

  datatype PvForecast = PvForecast(start: int, end: int, p10: real, p50: real, p90: real)

  datatype Percentile = P10 | P50 | P90

  /** Everything the builders read; `slotIndex` and `terminalTable` hide the time zones. */
  datatype LpInput = LpInput(
    timestamp: int,
    soc0: real,
    prices: seq<PriceInterval>,
    pvForecast: seq<PvForecast>,
    profile: seq<real>,
    slotIndex: int -> nat,
    loads: seq<(LoadConfig, Status)>,
    calendar: Calendar,
    battery: Battery,
    wear: real,
    horizonHours: nat,
    slotMinutes: nat,
    terminalOverride: Option<real>,
    terminalTable: int -> real,
    modes: Option<ModeOverrides>,
    slot0Pv: Option<real>)
  {
    predicate Sane() { 0 < slotMinutes && battery.Sane() }
  }

  // ---------------------------------------------------------------- the slot grid

  /** The start snapped back to a slot boundary within its hour, in minutes. */
  function SnappedMinute(start: int, slotMinutes: nat): int
    requires 0 < slotMinutes
  {
    var minute := start / US_PER_MINUTE;
    minute - (minute % 60) % slotMinutes
  }

  function SlotGrid(start: int, horizonHours: nat, slotMinutes: nat): (slots: seq<int>)
    requires 0 < slotMinutes
    ensures forall t :: 0 <= t < |slots| ==>
      slots[t] == (SnappedMinute(start, slotMinutes) + slotMinutes * t) * US_PER_MINUTE
  {
    seq(horizonHours * 60 / slotMinutes,
        t requires 0 <= t => (SnappedMinute(start, slotMinutes) + slotMinutes * t) * US_PER_MINUTE)
  }

  lemma SnapsToSlots(minute: int, slotMinutes: nat)
    requires 0 < slotMinutes
    ensures var past := (minute % 60) - (minute % 60) % slotMinutes;
      0 <= past < 60 && past % slotMinutes == 0 && (minute - (minute % 60) % slotMinutes) % 60 == past
  {
    var rest := minute % 60;
    var q := rest / slotMinutes;
    assert rest - rest % slotMinutes == q * slotMinutes;
    MultipleHasNoRest(q, slotMinutes);
  }

  lemma MultipleHasNoRest(q: nat, m: nat)
    requires 0 < m
    ensures (q * m) % m == 0
  {
    var p, r := (q * m) / m, (q * m) % m;
    assert q * m == p * m + r && 0 <= r < m;
    assert (q - p) * m == r;
    AtLeastOnce(q - p, m);
  }

  lemma AtLeastOnce(k: int, m: nat)
    ensures 1 <= k ==> m <= k * m
    ensures k <= -1 ==> k * m <= -(m as int)
  {
    if 1 <= k {
      assert (k - 1) * m >= 0;
    }
    if k <= -1 {
      assert (-1 - k) * m >= 0;
    }
  }

  /**
    Slot 0 contains the start: it begins on a slot boundary of its hour, at or before the start and
    less than one slot earlier.
   */
  lemma SlotZeroContainsStart(start: int, horizonHours: nat, slotMinutes: nat)
    requires 0 < slotMinutes && |SlotGrid(start, horizonHours, slotMinutes)| > 0
    ensures var first := SlotGrid(start, horizonHours, slotMinutes)[0];
      first % US_PER_MINUTE == 0 && ((first / US_PER_MINUTE) % 60) % slotMinutes == 0
    ensures var first := SlotGrid(start, horizonHours, slotMinutes)[0];
      first <= start < first + slotMinutes * US_PER_MINUTE
  {
    var minute := start / US_PER_MINUTE;
    assert start == minute * US_PER_MINUTE + start % US_PER_MINUTE;
    assert 0 <= (minute % 60) % slotMinutes < slotMinutes;
    SnapsToSlots(minute, slotMinutes);
  }

  /** The latest end of any interval. */
  function HorizonEnd(prices: seq<PriceInterval>): int
    requires |prices| > 0
  {
    if |prices| == 1 then prices[0].end
    else MaxInt(HorizonEnd(prices[..|prices| - 1]), prices[|prices| - 1].end)
  }

  lemma {:induction false} HorizonEndIsLatest(prices: seq<PriceInterval>)
    requires |prices| > 0
    ensures forall i :: 0 <= i < |prices| ==> prices[i].end <= HorizonEnd(prices)
    ensures exists i :: 0 <= i < |prices| && prices[i].end == HorizonEnd(prices)
  {
    var n := |prices| - 1;
    if n == 0 {
      assert prices[0].end == HorizonEnd(prices);
    } else {
      HorizonEndIsLatest(prices[..n]);
      var i :| 0 <= i < n && prices[..n][i].end == HorizonEnd(prices[..n]);
      assert prices[i].end == HorizonEnd(prices) || prices[n].end == HorizonEnd(prices);
      assert forall j :: 0 <= j < n ==> prices[j] == prices[..n][j];
    }
  }

  /** How many leading slots start before `end`. */
  function PricedCount(slots: seq<int>, end: int): (k: nat)
    ensures k <= |slots|
  {
    if |slots| == 0 || slots[0] >= end then 0 else 1 + PricedCount(slots[1..], end)
  }

  lemma {:induction false} PricedCountUnique(slots: seq<int>, end: int, k: nat)
    requires k <= |slots| && (k < |slots| ==> slots[k] >= end)
    requires forall t :: 0 <= t < k ==> slots[t] < end
    ensures PricedCount(slots, end) == k
  {
    if k == 0 {
    } else {
      PricedCountUnique(slots[1..], end, k - 1);
    }
  }

  /** The slots of a tick: the grid cut to the priced horizon. */
  function TickSlots(inp: LpInput): seq<int>
    requires 0 < inp.slotMinutes
  {
    var grid := SlotGrid(inp.timestamp, inp.horizonHours, inp.slotMinutes);
    if |inp.prices| == 0 then [] else grid[..PricedCount(grid, HorizonEnd(inp.prices))]
  }

  /** Keeps the slots that start before the last priced instant. */
  method TruncateToPriced(slots: seq<int>, prices: seq<PriceInterval>) returns (kept: seq<int>)
    ensures |prices| == 0 ==> kept == []
    ensures |prices| > 0 ==> kept == slots[..PricedCount(slots, HorizonEnd(prices))]
  {
    kept := [];
    if |prices| == 0 {
      return;
    }
    var end := HorizonEnd(prices);
    for t := 0 to |slots|
      invariant kept == slots[..t]
      invariant forall u :: 0 <= u < t ==> slots[u] < end
    {
      if slots[t] >= end {
        PricedCountUnique(slots, end, t);
        return;
      }
      kept := kept + [slots[t]];
    }
    PricedCountUnique(slots, end, |slots|);
  }

  /** A tick's slots are evenly spaced, the first contains its instant, and all start before the priced end. */
  lemma TickSlotsSpaced(inp: LpInput)
    requires 0 < inp.slotMinutes && |TickSlots(inp)| > 0
    ensures var slots := TickSlots(inp);
      && (forall t :: 0 < t < |slots| ==> slots[t] == slots[t - 1] + inp.slotMinutes * US_PER_MINUTE)
      && slots[0] <= inp.timestamp < slots[0] + inp.slotMinutes * US_PER_MINUTE
      && (forall t :: 0 <= t < |slots| ==> slots[t] < HorizonEnd(inp.prices))
  {
    var grid := SlotGrid(inp.timestamp, inp.horizonHours, inp.slotMinutes);
    SlotZeroContainsStart(inp.timestamp, inp.horizonHours, inp.slotMinutes);
    PricedCountKeeps(grid, HorizonEnd(inp.prices));
    var first, step := SnappedMinute(inp.timestamp, inp.slotMinutes), inp.slotMinutes;
    forall t | 0 < t < |grid| ensures grid[t] == grid[t - 1] + step * US_PER_MINUTE {
      assert first + step * t == first + step * (t - 1) + step;
    }
  }

  /**
    A tick plans as far as it can: a further slot would start at or past the priced end, or would not
    fit into the horizon's hours.
   */
  lemma TickSlotsReachFar(inp: LpInput)
    requires 0 < inp.slotMinutes && |inp.prices| > 0
    ensures var n := |TickSlots(inp)|;
      && n * inp.slotMinutes <= 60 * inp.horizonHours
      && (|| (SnappedMinute(inp.timestamp, inp.slotMinutes) + inp.slotMinutes * n) * US_PER_MINUTE
               >= HorizonEnd(inp.prices)
          || 60 * inp.horizonHours < (n + 1) * inp.slotMinutes)
  {
    var grid := SlotGrid(inp.timestamp, inp.horizonHours, inp.slotMinutes);
    var n := |TickSlots(inp)|;
    PricedCountKeeps(grid, HorizonEnd(inp.prices));
    SlotsPerHorizon(60 * inp.horizonHours, inp.slotMinutes, n);
  }

  lemma SlotsPerHorizon(minutes: nat, slotMinutes: nat, n: nat)
    requires 0 < slotMinutes && n <= minutes / slotMinutes
    ensures n * slotMinutes <= minutes
    ensures n == minutes / slotMinutes ==> minutes < (n + 1) * slotMinutes
  {
    var q := minutes / slotMinutes;
    assert minutes == q * slotMinutes + minutes % slotMinutes;
    assert (q - n) * slotMinutes >= 0;
  }

  lemma {:induction false} PricedCountKeeps(slots: seq<int>, end: int)
    ensures forall t :: 0 <= t < PricedCount(slots, end) ==> slots[t] < end
    ensures PricedCount(slots, end) < |slots| ==> slots[PricedCount(slots, end)] >= end
  {
    if |slots| > 0 && slots[0] < end {
      PricedCountKeeps(slots[1..], end);
    }
  }

  // ---------------------------------------------------------------- lookups

  /** The first interval covering `t`; the source raises when there is none. */
  function PriceAt(prices: seq<PriceInterval>, t: int): Option<PriceInterval> {
    if |prices| == 0 then None
    else if prices[0].start <= t < prices[0].end then Some(prices[0])
    else PriceAt(prices[1..], t)
  }

  predicate FirstCovering(prices: seq<PriceInterval>, t: int, i: nat)
    requires i < |prices|
  {
    && prices[i].start <= t < prices[i].end
    && forall j :: 0 <= j < i ==> !(prices[j].start <= t < prices[j].end)
  }

  /** The lookup returns the earliest listed interval covering `t`, if there is one. */
  lemma {:induction false} PriceAtIsFirst(prices: seq<PriceInterval>, t: int)
    ensures PriceAt(prices, t).None? <==> forall i :: 0 <= i < |prices| ==> !(prices[i].start <= t < prices[i].end)
    ensures PriceAt(prices, t).Some? ==>
      exists i :: 0 <= i < |prices| && FirstCovering(prices, t, i) && prices[i] == PriceAt(prices, t).value
  {
    if |prices| > 0 && !(prices[0].start <= t < prices[0].end) {
      var rest := prices[1..];
      PriceAtIsFirst(rest, t);
      assert forall i :: 0 < i < |prices| ==> prices[i] == rest[i - 1];
      if PriceAt(rest, t).Some? {
        var i :| 0 <= i < |rest| && FirstCovering(rest, t, i) && rest[i] == PriceAt(rest, t).value;
        assert FirstCovering(prices, t, i + 1);
      } else {
        assert forall i :: 0 <= i < |prices| ==> i == 0 || prices[i] == rest[i - 1];
      }
    }
  }

  function EstimateOf(f: PvForecast, p: Percentile): real {
    match p
    case P10 => f.p10
    case P50 => f.p50
    case P90 => f.p90
  }

  /** The estimate of the first forecast interval covering `t`, or nothing produced. */
  function PvEstimateAt(forecast: seq<PvForecast>, t: int, p: Percentile): real {
    if |forecast| == 0 then 0.0
    else if forecast[0].start <= t < forecast[0].end then EstimateOf(forecast[0], p)
    else PvEstimateAt(forecast[1..], t, p)
  }

  // ---------------------------------------------------------------- one scenario

  /** Every slot has a price, a profile entry and (with modes) a mask entry. */
  predicate Buildable(inp: LpInput, slots: seq<int>) {
    && (forall t :: 0 <= t < |slots| ==>
      PriceAt(inp.prices, slots[t]).Some? && inp.slotIndex(slots[t]) < |inp.profile|)
    && (inp.modes.Some? ==>
      |inp.modes.value.buyAt| >= |slots| && |inp.modes.value.conserveAt| >= |slots|)
  }

  /** What the PV percentile forecasts for a slot; slot 0 may be measured instead. */
  function PvAt(inp: LpInput, slots: seq<int>, pv: Percentile, t: nat): real
    requires t < |slots|
  {
    if t == 0 && inp.slot0Pv.Some? then Max(0.0, inp.slot0Pv.value)
    else PvEstimateAt(inp.pvForecast, slots[t], pv)
  }

  function InputAt(inp: LpInput, slots: seq<int>, pv: Percentile, ps: PriceScenario, t: nat): Input
    requires Buildable(inp, slots) && t < |slots|
  {
    var price := PriceAt(inp.prices, slots[t]).value;
    Input(
      PvAt(inp, slots, pv, t),
      inp.profile[inp.slotIndex(slots[t])],
      ps.ImportPrice(price),
      ps.ExportPrice(price),
      inp.modes.Some? && inp.modes.value.buyAt[t],
      inp.modes.Some? && inp.modes.value.conserveAt[t])
  }

  function LoadAt(inp: LpInput, slots: seq<int>, l: nat): Load
    requires l < |inp.loads|
  {
    Load(inp.loads[l].0, inp.loads[l].1, inp.calendar, slots, inp.slotMinutes)
  }

  function TickLoads(inp: LpInput, slots: seq<int>): (loads: seq<Load>)
    ensures |loads| == |inp.loads|
    ensures forall l :: 0 <= l < |loads| ==> loads[l].slots == slots && loads[l].slotMinutes == inp.slotMinutes
  {
    seq(|inp.loads|, l requires 0 <= l < |inp.loads| => LoadAt(inp, slots, l))
  }

  function MakeScenario(inp: LpInput, slots: seq<int>, pv: Percentile, ps: PriceScenario, weight: real)
    : (sc: Scenario)
    requires inp.Sane() && Buildable(inp, slots) && |slots| > 0
    ensures sc.Sane() && |sc.inputs| == |slots| && sc.loads == TickLoads(inp, slots)
    ensures sc.weight == weight
    ensures forall t :: 0 <= t < |slots| ==> sc.inputs[t] == InputAt(inp, slots, pv, ps, t)
  {
    Scenario(
      weight,
      inp.battery,
      inp.soc0,
      inp.slotMinutes as real / 60.0,
      seq(|slots|, t requires 0 <= t < |slots| => InputAt(inp, slots, pv, ps, t)),
      TickLoads(inp, slots),
      inp.wear,
      Max(inp.battery.Floor(),
          if inp.terminalOverride.Some? then inp.terminalOverride.value
          else inp.terminalTable(slots[|slots| - 1])),
      if inp.modes.Some? then inp.modes.value.buyCeiling else None,
      if inp.modes.Some? then inp.modes.value.buySocCutoff else None,
      if inp.modes.Some? then inp.modes.value.conserveFloor else None)
  }

  // ---------------------------------------------------------------- compound scenarios

  datatype PvWeight = PvWeight(percentile: Percentile, weight: real)

  const DEFAULT_SCENARIO_WEIGHTS := [PvWeight(P10, 0.2), PvWeight(P50, 0.6), PvWeight(P90, 0.2)]

  function PvWeightsOf(pvs: seq<PvWeight>): (ws: seq<real>)
    ensures |ws| == |pvs|
    ensures forall i :: 0 <= i < |ws| ==> ws[i] == pvs[i].weight
  {
    seq(|pvs|, i requires 0 <= i < |pvs| => pvs[i].weight)
  }

  function CompoundWeight(pv: PvWeight, ps: PriceScenario): real { pv.weight * ps.weight }

  /** One PV percentile paired with each price scenario. */
  function Row(inp: LpInput, slots: seq<int>, pv: PvWeight, pss: seq<PriceScenario>): (row: seq<Scenario>)
    requires inp.Sane() && Buildable(inp, slots) && |slots| > 0
    ensures |row| == |pss|
    ensures forall j :: 0 <= j < |pss| ==>
      row[j] == MakeScenario(inp, slots, pv.percentile, pss[j], CompoundWeight(pv, pss[j]))
  {
    seq(|pss|, j requires 0 <= j < |pss| =>
      MakeScenario(inp, slots, pv.percentile, pss[j], CompoundWeight(pv, pss[j])))
  }

  function Compound(inp: LpInput, slots: seq<int>, pvs: seq<PvWeight>, pss: seq<PriceScenario>): seq<Scenario>
    requires inp.Sane() && Buildable(inp, slots) && |slots| > 0
  {
    if pvs == [] then []
    else Compound(inp, slots, pvs[..|pvs| - 1], pss) + Row(inp, slots, pvs[|pvs| - 1], pss)
  }

  /** Every scenario is a copy of the tick's problem over the same slots and loads. */
  ghost predicate FromTick(scs: seq<Scenario>, inp: LpInput, slots: seq<int>) {
    forall i :: 0 <= i < |scs| ==>
      && scs[i].Sane()
      && |scs[i].inputs| == |slots|
      && scs[i].loads == TickLoads(inp, slots)
  }

  lemma {:induction false} CompoundFromTick(inp: LpInput, slots: seq<int>, pvs: seq<PvWeight>, pss: seq<PriceScenario>)
    requires inp.Sane() && Buildable(inp, slots) && |slots| > 0
    ensures FromTick(Compound(inp, slots, pvs, pss), inp, slots)
  {
    if pvs == [] {
    } else {
      CompoundFromTick(inp, slots, pvs[..|pvs| - 1], pss);
      assert FromTick(Row(inp, slots, pvs[|pvs| - 1], pss), inp, slots);
    }
  }

  /** What every scenario of a tick has in common with the tick's input. */
  ghost predicate SharesTick(sc: Scenario, inp: LpInput, slots: seq<int>)
    requires Buildable(inp, slots)
  {
    && sc.Sane()
    && sc.soc0 == inp.soc0
    && sc.battery == inp.battery
    && sc.slotHours == inp.slotMinutes as real / 60.0
    && sc.wear == inp.wear
    && sc.loads == TickLoads(inp, slots)
    && sc.buyCutoff == (if inp.modes.Some? then inp.modes.value.buySocCutoff else None)
    && |sc.inputs| == |slots|
  }

  /** The scenario's inputs are those of one PV percentile and one pair of price legs. */
  ghost predicate Sees(sc: Scenario, inp: LpInput, slots: seq<int>, pv: Percentile, ps: PriceScenario)
    requires Buildable(inp, slots) && |sc.inputs| == |slots|
  {
    forall t :: 0 <= t < |slots| ==> sc.inputs[t] == InputAt(inp, slots, pv, ps, t)
  }

  lemma {:induction false} CompoundSharesTick(inp: LpInput, slots: seq<int>,
                                               pvs: seq<PvWeight>, pss: seq<PriceScenario>)
    requires inp.Sane() && Buildable(inp, slots) && |slots| > 0
    ensures forall i :: 0 <= i < |Compound(inp, slots, pvs, pss)| ==>
      SharesTick(Compound(inp, slots, pvs, pss)[i], inp, slots)
  {
    if pvs == [] {
      assert Compound(inp, slots, pvs, pss) == [];
    } else {
      CompoundSharesTick(inp, slots, pvs[..|pvs| - 1], pss);
    }
  }

  /** Every compound scenario sees one of the PV percentiles with one of the price scenarios. */
  lemma {:induction false} CompoundSees(inp: LpInput, slots: seq<int>, pvs: seq<PvWeight>, pss: seq<PriceScenario>,
                                        i: nat)
      returns (k: nat, j: nat)
    requires inp.Sane() && Buildable(inp, slots) && |slots| > 0
    requires i < |Compound(inp, slots, pvs, pss)|
    ensures k < |pvs| && j < |pss|
    ensures |Compound(inp, slots, pvs, pss)[i].inputs| == |slots|
    ensures Sees(Compound(inp, slots, pvs, pss)[i], inp, slots, pvs[k].percentile, pss[j])
    ensures Compound(inp, slots, pvs, pss)[i]
      == MakeScenario(inp, slots, pvs[k].percentile, pss[j], CompoundWeight(pvs[k], pss[j]))
  {
    hide InputAt, CompoundWeight;
    var n := |pvs| - 1;
    var before := Compound(inp, slots, pvs[..n], pss);
    if i < |before| {
      k, j := CompoundSees(inp, slots, pvs[..n], pss, i);
    } else {
      k, j := n, i - |before|;
    }
  }

  /** And every such pair is seen by some scenario. */
  lemma {:induction false} CompoundCovers(inp: LpInput, slots: seq<int>, pvs: seq<PvWeight>, pss: seq<PriceScenario>,
                                          k: nat, j: nat)
      returns (i: nat)
    requires inp.Sane() && Buildable(inp, slots) && |slots| > 0
    requires k < |pvs| && j < |pss|
    ensures i < |Compound(inp, slots, pvs, pss)|
    ensures |Compound(inp, slots, pvs, pss)[i].inputs| == |slots|
    ensures Sees(Compound(inp, slots, pvs, pss)[i], inp, slots, pvs[k].percentile, pss[j])
    ensures Compound(inp, slots, pvs, pss)[i]
      == MakeScenario(inp, slots, pvs[k].percentile, pss[j], CompoundWeight(pvs[k], pss[j]))
  {
    hide InputAt, CompoundWeight;
    var n := |pvs| - 1;
    var before := Compound(inp, slots, pvs[..n], pss);
    if k < n {
      i := CompoundCovers(inp, slots, pvs[..n], pss, k, j);
    } else {
      i := |before| + j;
    }
  }

  /** The first scenario of greatest weight. */
  function Heaviest(scs: seq<Scenario>, k: nat): (b: nat)
    requires 0 < k <= |scs|
    ensures b < k
    ensures forall i :: 0 <= i < k ==> scs[i].weight <= scs[b].weight
    ensures forall i :: 0 <= i < b ==> scs[i].weight < scs[b].weight
  {
    if k == 1 then 0
    else
      var b := Heaviest(scs, k - 1);
      if scs[k - 1].weight > scs[b].weight then k - 1 else b
  }

  // ---------------------------------------------------------------- emission

  /** The assignment has at least `k` plans, all of the tick's shape. */
  predicate Covers(x: Assignment, k: nat, n: nat, loads: nat) {
    k <= |x| && forall s :: 0 <= s < |x| ==> PlanShaped(x[s], n, loads)
  }

  ghost predicate AllFeasible(scs: seq<Scenario>, x: Assignment)
    requires |scs| <= |x| && forall i :: 0 <= i < |scs| ==> scs[i].Sane()
  {
    forall i :: 0 <= i < |scs| ==> Feasible(scs[i], x[i])
  }

  /** Both plans are there and have the tick's shape. */
  predicate Pair(x: Assignment, a: nat, b: nat, n: nat, loads: nat) {
    a < |x| && b < |x| && PlanShaped(x[a], n, loads) && PlanShaped(x[b], n, loads)
  }

  /** Ties one relay at every slot. */
  method TieRelay(prob: LpProblem, loads: nat, n: nat, base: nat, other: nat, l: nat)
    requires l < loads
    modifies prob`constraints
    ensures forall x: Assignment | Pair(x, base, other, n, loads) ::
      Sat(prob.constraints, x) <==>
        Sat(old(prob.constraints), x) && x[other].relays[l] == x[base].relays[l]
  {
    for t := 0 to n
      invariant forall x: Assignment | Pair(x, base, other, n, loads) ::
        Sat(prob.constraints, x) <==>
          && Sat(old(prob.constraints), x)
          && forall u :: 0 <= u < t ==> x[other].relays[l][u] == x[base].relays[l][u]
    {
      prob.Add(Equal(Of(Var.Relay(other, l, t)), Of(Var.Relay(base, l, t))));
    }
  }

  /** Ties one scenario to the base: net battery power of slot 0, and every relay slot. */
  method AddNonAnticipativity(prob: LpProblem, loads: seq<Load>, n: nat, base: nat, other: nat)
    requires 0 < n
    modifies prob`constraints
    ensures forall x: Assignment | Pair(x, base, other, n, |loads|) ::
      Sat(prob.constraints, x) <==> Sat(old(prob.constraints), x) && Tied(loads, x[base], x[other])
  {
    var baseNet := Minus(Plus(V(Bcg, base, 0), V(Bcp, base, 0)), V(Bd, base, 0));
    var otherNet := Minus(Plus(V(Bcg, other, 0), V(Bcp, other, 0)), V(Bd, other, 0));
    prob.Add(Equal(otherNet, baseNet));
    ghost var nets := prob.constraints;
    for l := 0 to |loads|
      invariant forall x: Assignment | Pair(x, base, other, n, |loads|) ::
        Sat(prob.constraints, x) <==>
          && Sat(nets, x)
          && forall k :: 0 <= k < l && loads[k].config.Relayed? ==> x[other].relays[k] == x[base].relays[k]
    {
      if loads[l].config.Relayed? {
        TieRelay(prob, |loads|, n, base, other, l);
      }
    }
  }

  datatype Stochastic = Stochastic(scenarios: seq<Scenario>, base: nat)

  function PvWeightsUsed(weights: seq<PvWeight>): seq<PvWeight> {
    if weights == [] then DEFAULT_SCENARIO_WEIGHTS else weights
  }

  /** Why a tick cannot be built, in the order the source checks. */
  function BuildError(inp: LpInput, pvTotal: real): Option<string>
    requires inp.Sane()
  {
    if pvTotal - 1.0 > 0.001 || pvTotal - 1.0 < -0.001 then Some("scenario_weights must sum to 1.0")
    else if |inp.prices| == 0 then Some("requires non-empty prices_planning")
    else if |TickSlots(inp)| == 0 then Some("No LP slots covered by prices_planning")
    else if !Buildable(inp, TickSlots(inp)) then Some("No price interval, profile slot or mode mask entry")
    else None
  }

  /** The scenarios and their base, when the tick can be built. */
  function StochasticOf(inp: LpInput, weights: seq<PvWeight>, mode: Mode): Result<Stochastic>
    requires inp.Sane()
  {
    var pvs := PvWeightsUsed(weights);
    var error := BuildError(inp, Sum(PvWeightsOf(pvs)));
    if error.Some? then Err(error.value)
    else
      var scs := Compound(inp, TickSlots(inp), pvs, ScenariosOf(mode, DEFAULT_BAND_WEIGHTS));
      if |scs| == 0 then Err("no scenarios") else Ok(Stochastic(scs, Heaviest(scs, |scs|)))
  }

  /** The constraints are exactly the scenarios' own and the terms add up to their weighted cost. */
  ghost predicate Emitted(cs: seq<Constraint>, terms: seq<Expr>, scs: seq<Scenario>, inp: LpInput, slots: seq<int>)
    requires FromTick(scs, inp, slots)
  {
    forall x: Assignment | Covers(x, |scs|, |slots|, |inp.loads|) ::
      && (Sat(cs, x) <==> AllFeasible(scs, x))
      && Eval(LpSum(terms), x) == StochCost(scs, x[..|scs|])
  }

  /** One scenario's constraints and cost terms, written after those of the scenarios before it. */
  method EmitScenario(prob: LpProblem, inp: LpInput, slots: seq<int>,
                      scs: seq<Scenario>, sc: Scenario, terms: seq<Expr>)
    returns (more: seq<Expr>)
    requires inp.Sane() && FromTick(scs, inp, slots) && FromTick([sc], inp, slots)
    requires Emitted(prob.constraints, terms, scs, inp, slots)
    modifies prob`constraints
    ensures FromTick(scs + [sc], inp, slots)
    ensures Emitted(prob.constraints, more, scs + [sc], inp, slots)
  {
    hide Cost, Feasible, Sat, AllFeasible, StochCost, Eval;
    assert [sc][0] == sc;
    ghost var was := prob.constraints;
    var lastBuy := AddScenario(prob, sc, |scs|);
    var cost := CostTerms(sc, |scs|, lastBuy);
    more := terms + cost;
    forall x: Assignment | Covers(x, |scs| + 1, |slots|, |inp.loads|)
      ensures Sat(prob.constraints, x) <==> AllFeasible(scs + [sc], x)
      ensures Eval(LpSum(more), x) == StochCost(scs + [sc], x[..|scs| + 1])
    {
      hide *;
      EmittedStep(was, prob.constraints, terms, cost, scs, sc, inp, slots, x);
    }
  }

  /** At one assignment: a further scenario's constraints and terms extend what was emitted. */
  lemma {:induction false} EmittedStep(was: seq<Constraint>, now: seq<Constraint>, terms: seq<Expr>, cost: seq<Expr>,
                    scs: seq<Scenario>, sc: Scenario, inp: LpInput, slots: seq<int>, x: Assignment)
    requires FromTick(scs, inp, slots) && FromTick([sc], inp, slots) && FromTick(scs + [sc], inp, slots)
    requires Covers(x, |scs| + 1, |slots|, |inp.loads|)
    requires Emitted(was, terms, scs, inp, slots)
    requires Holds1(x, |scs|, sc) ==>
      && sc.Sane()
      && (Sat(now, x) <==> Sat(was, x) && Feasible(sc, x[|scs|]))
      && Eval(LpSum(cost), x) == sc.weight * Cost(sc, x[|scs|])
    ensures Sat(now, x) <==> AllFeasible(scs + [sc], x)
    ensures Eval(LpSum(terms + cost), x) == StochCost(scs + [sc], x[..|scs| + 1])
  {
    hide Cost, Feasible, Sat, Eval, LpSum, StochCost, AllFeasible;
    assert [sc][0] == sc;
    assert Covers(x, |scs|, |slots|, |inp.loads|) && Holds1(x, |scs|, sc);
    assert (Sat(was, x) <==> AllFeasible(scs, x)) && Eval(LpSum(terms), x) == StochCost(scs, x[..|scs|]);
    AllFeasibleAppend(scs, sc, x);
    LpSumConcat(terms, cost, x);
    assert x[..|scs| + 1] == x[..|scs|] + [x[|scs|]];
    StochCostAppend(scs, sc, x[..|scs|], x[|scs|]);
  }

  lemma AllFeasibleAppend(scs: seq<Scenario>, sc: Scenario, x: Assignment)
    requires |scs| < |x| && sc.Sane() && forall i :: 0 <= i < |scs| ==> scs[i].Sane()
    ensures AllFeasible(scs + [sc], x) <==> AllFeasible(scs, x) && Feasible(sc, x[|scs|])
  {
    var all := scs + [sc];
    assert forall i :: 0 <= i < |scs| ==> all[i] == scs[i];
    assert all[|scs|] == sc;
  }

  lemma StochCostAppend(scs: seq<Scenario>, sc: Scenario, x: Assignment, p: Plan)
    requires |scs| == |x| && |p.slots| == |sc.inputs|
    requires forall i :: 0 <= i < |scs| ==> |x[i].slots| == |scs[i].inputs|
    ensures StochCost(scs + [sc], x + [p]) == StochCost(scs, x) + sc.weight * Cost(sc, p)
  {
    hide Cost, Dot;
    assert ScenarioWeights(scs + [sc]) == ScenarioWeights(scs) + [sc.weight];
    assert ScenarioCosts(scs + [sc], x + [p]) == ScenarioCosts(scs, x) + [Cost(sc, p)];
    DotAppend(ScenarioWeights(scs), ScenarioCosts(scs, x), sc.weight, Cost(sc, p));
  }

  /** Emits the scenarios of one PV percentile. */
  method EmitRow(prob: LpProblem, inp: LpInput, slots: seq<int>, scs: seq<Scenario>,
                 pv: PvWeight, pss: seq<PriceScenario>, terms: seq<Expr>)
    returns (all: seq<Scenario>, more: seq<Expr>)
    requires inp.Sane() && Buildable(inp, slots) && |slots| > 0 && FromTick(scs, inp, slots)
    requires Emitted(prob.constraints, terms, scs, inp, slots)
    modifies prob`constraints
    ensures all == scs + Row(inp, slots, pv, pss)
    ensures FromTick(all, inp, slots)
    ensures Emitted(prob.constraints, more, all, inp, slots)
  {
    hide Emitted;
    all, more := scs, terms;
    for j := 0 to |pss|
      invariant all == scs + Row(inp, slots, pv, pss)[..j]
      invariant FromTick(all, inp, slots)
      invariant Emitted(prob.constraints, more, all, inp, slots)
    {
      var sc := MakeScenario(inp, slots, pv.percentile, pss[j], CompoundWeight(pv, pss[j]));
      more := EmitScenario(prob, inp, slots, all, sc, more);
      all := all + [sc];
    }
  }

  /** Ties every other scenario to the base. */
  method EmitTies(prob: LpProblem, scs: seq<Scenario>, loads: seq<Load>, n: nat, base: nat)
    requires 0 < n && base < |scs|
    modifies prob`constraints
    ensures forall x: Assignment | Shaped(x, |scs|, n, |loads|) ::
      Sat(prob.constraints, x) <==>
        && Sat(old(prob.constraints), x)
        && forall i :: 0 <= i < |scs| ==> Tied(loads, x[base], x[i])
  {
    for i := 0 to |scs|
      invariant forall x: Assignment | Shaped(x, |scs|, n, |loads|) ::
        Sat(prob.constraints, x) <==>
          && Sat(old(prob.constraints), x)
          && forall k :: 0 <= k < i ==> Tied(loads, x[base], x[k])
    {
      if i != base {
        AddNonAnticipativity(prob, loads, n, base, i);
      }
      assert forall x: Assignment | Shaped(x, |scs|, n, |loads|) :: Pair(x, base, i, n, |loads|);
    }
  }

  /** The two nested scenario loops. */
  method EmitScenarios(prob: LpProblem, inp: LpInput, slots: seq<int>, pvs: seq<PvWeight>, pss: seq<PriceScenario>)
    returns (scs: seq<Scenario>, terms: seq<Expr>)
    requires inp.Sane() && Buildable(inp, slots) && |slots| > 0
    requires prob.constraints == []
    modifies prob`constraints
    ensures scs == Compound(inp, slots, pvs, pss)
    ensures FromTick(scs, inp, slots)
    ensures Emitted(prob.constraints, terms, scs, inp, slots)
  {
    scs, terms := [], [];
    for i := 0 to |pvs|
      invariant scs == Compound(inp, slots, pvs[..i], pss)
      invariant FromTick(scs, inp, slots)
      invariant Emitted(prob.constraints, terms, scs, inp, slots)
    {
      assert pvs[..i + 1][..i] == pvs[..i];
      scs, terms := EmitRow(prob, inp, slots, scs, pvs[i], pss, terms);
    }
    assert pvs[..|pvs|] == pvs;
  }

  lemma FromTickSameShape(scs: seq<Scenario>, inp: LpInput, slots: seq<int>)
    requires |scs| > 0 && |slots| > 0 && FromTick(scs, inp, slots)
    ensures SameShape(scs)
  {
  }

  /** Scenarios, ties and objective. */
  method EmitStochastic(prob: LpProblem, inp: LpInput, slots: seq<int>, pvs: seq<PvWeight>, pss: seq<PriceScenario>)
    returns (scs: seq<Scenario>)
    requires inp.Sane() && Buildable(inp, slots) && |slots| > 0
    requires prob.constraints == []
    modifies prob
    ensures scs == Compound(inp, slots, pvs, pss)
    ensures |scs| > 0 ==> SameShape(scs) && FromTick(scs, inp, slots)
    ensures |scs| > 0 ==>
      forall x: Assignment | Shaped(x, |scs|, |slots|, |inp.loads|) ::
        && (Sat(prob.constraints, x) <==> StochFeasible(scs, Heaviest(scs, |scs|), x))
        && Eval(prob.objective, x) == StochCost(scs, x)
  {
    hide Cost, Feasible, Sat, Eval, LpSum, Tied, Compound;
    var terms;
    scs, terms := EmitScenarios(prob, inp, slots, pvs, pss);
    if |scs| > 0 {
      EmitTies(prob, scs, scs[0].loads, |slots|, Heaviest(scs, |scs|));
    }
    prob.Minimize(LpSum(terms));
    if |scs| > 0 {
      FromTickSameShape(scs, inp, slots);
      forall x: Assignment | Shaped(x, |scs|, |slots|, |inp.loads|)
        ensures Sat(prob.constraints, x) <==> StochFeasible(scs, Heaviest(scs, |scs|), x)
        ensures Eval(prob.objective, x) == StochCost(scs, x)
      {
        assert Covers(x, |scs|, |slots|, |inp.loads|);
        assert x[..|scs|] == x;
      }
    }
  }

  /**
    `build_stochastic_lp`: whatever it emits is the declarative stochastic program of the tick's
    compound scenarios, constraint for constraint and cent for cent.
   */
  method BuildStochasticLp(inp: LpInput, weights: seq<PvWeight>, mode: Mode)
    returns (prob: LpProblem, r: Result<Stochastic>)
    requires inp.Sane()
    ensures fresh(prob)
    ensures r == StochasticOf(inp, weights, mode)
    ensures r.Ok? ==> SameShape(r.value.scenarios) && r.value.base < |r.value.scenarios|
    ensures r.Ok? ==> FromTick(r.value.scenarios, inp, TickSlots(inp))
    ensures r.Ok? ==>
      forall x: Assignment | Shaped(x, |r.value.scenarios|, |TickSlots(inp)|, |inp.loads|) ::
        && (Sat(prob.constraints, x) <==> StochFeasible(r.value.scenarios, r.value.base, x))
        && Eval(prob.objective, x) == StochCost(r.value.scenarios, x)
  {
    hide Cost, Feasible, Sat, Eval, LpSum, Tied, Compound, SlotGrid, PricedCount, HorizonEnd, Buildable, StochCost,
      StochFeasible, Heaviest, SameShape;
    prob := new LpProblem();
    var pvs := PvWeightsUsed(weights);
    var error := BuildError(inp, Sum(PvWeightsOf(pvs)));
    if error.Some? {
      return prob, Err(error.value);
    }
    var slots := TruncateToPriced(SlotGrid(inp.timestamp, inp.horizonHours, inp.slotMinutes), inp.prices);
    var scs := EmitStochastic(prob, inp, slots, pvs, ScenariosOf(mode, DEFAULT_BAND_WEIGHTS));
    r := if |scs| == 0 then Err("no scenarios") else Ok(Stochastic(scs, Heaviest(scs, |scs|)));
  }

  /**
    A tick's program is built if and only if the PV weights add up to 1 within a thousandth, prices are
    given and cover a first slot, and every slot has a price, a profile entry and, with modes, mask entries.
   */
  lemma TickBuildsIff(inp: LpInput, weights: seq<PvWeight>, mode: Mode)
    requires inp.Sane()
    ensures StochasticOf(inp, weights, mode).Ok? <==>
      && -0.001 <= Sum(PvWeightsOf(PvWeightsUsed(weights))) - 1.0 <= 0.001
      && inp.prices != [] && TickSlots(inp) != []
      && forall t :: 0 <= t < |TickSlots(inp)| ==> SlotGiven(inp, TickSlots(inp)[t], t)
  {
    hide TickSlots, Compound, Buildable, SlotGiven;
    var pvs, slots := PvWeightsUsed(weights), TickSlots(inp);
    if slots != [] && Buildable(inp, slots) {
      CompoundNotEmpty(inp, slots, pvs, ScenariosOf(mode, DEFAULT_BAND_WEIGHTS));
    }
    GivenExactly(inp, slots);
    if pvs == [] {
      assert Sum(PvWeightsOf(pvs)) == 0.0;
    }
    assert ScenariosOf(mode, DEFAULT_BAND_WEIGHTS) != [];
  }

  lemma GivenExactly(inp: LpInput, slots: seq<int>)
    ensures Buildable(inp, slots) <==> forall t :: 0 <= t < |slots| ==> SlotGiven(inp, slots[t], t)
  {
    forall t | 0 <= t < |slots| ensures PriceAt(inp.prices, slots[t]).Some? <==> Covered(inp.prices, slots[t]) {
      PriceAtIsFirst(inp.prices, slots[t]);
    }
    MasksLongEnough(inp, slots);
    if forall t :: 0 <= t < |slots| ==> SlotGiven(inp, slots[t], t) {
      forall t | 0 <= t < |slots| ensures MaskGiven(inp, t) {
        assert SlotGiven(inp, slots[t], t);
      }
    }
  }

  /** Some listed interval covers the instant. */
  predicate Covered(prices: seq<PriceInterval>, at: int) {
    exists n :: 0 <= n < |prices| && prices[n].start <= at < prices[n].end
  }

  /** The tick's data say something about the slot. */
  predicate SlotGiven(inp: LpInput, at: int, t: nat) {
    && Covered(inp.prices, at)
    && inp.slotIndex(at) < |inp.profile|
    && MaskGiven(inp, t)
  }

  predicate MaskGiven(inp: LpInput, t: nat) {
    inp.modes.Some? ==> t < |inp.modes.value.buyAt| && t < |inp.modes.value.conserveAt|
  }

  lemma MasksLongEnough(inp: LpInput, slots: seq<int>)
    ensures (inp.modes.Some? ==> |inp.modes.value.buyAt| >= |slots| && |inp.modes.value.conserveAt| >= |slots|) <==>
      forall t :: 0 <= t < |slots| ==> MaskGiven(inp, t)
  {
    if slots != [] && forall t :: 0 <= t < |slots| ==> MaskGiven(inp, t) {
      assert MaskGiven(inp, |slots| - 1);
    }
  }

  lemma CompoundNotEmpty(inp: LpInput, slots: seq<int>, pvs: seq<PvWeight>, pss: seq<PriceScenario>)
    requires inp.Sane() && Buildable(inp, slots) && |slots| > 0
    ensures pvs != [] && pss != [] ==> Compound(inp, slots, pvs, pss) != []
  {
  }

  lemma StochasticShape(inp: LpInput, weights: seq<PvWeight>, mode: Mode)
    requires inp.Sane() && StochasticOf(inp, weights, mode).Ok?
    ensures var st := StochasticOf(inp, weights, mode).value;
      && |TickSlots(inp)| > 0 && Buildable(inp, TickSlots(inp))
      && SameShape(st.scenarios) && st.base < |st.scenarios|
      && st.scenarios
        == Compound(inp, TickSlots(inp), PvWeightsUsed(weights), ScenariosOf(mode, DEFAULT_BAND_WEIGHTS))
  {
    hide Compound;
    CompoundFromTick(inp, TickSlots(inp), PvWeightsUsed(weights), ScenariosOf(mode, DEFAULT_BAND_WEIGHTS));
    FromTickSameShape(StochasticOf(inp, weights, mode).value.scenarios, inp, TickSlots(inp));
  }

  // ---------------------------------------------------------------- the deterministic problem

  /** The single scenario of `build_lp`: the point prices, weight 1, no slot-0 measurement. */
  function DeterministicOf(inp: LpInput, pv: Percentile): (r: Result<Scenario>)
    requires inp.Sane() && inp.slot0Pv.None?
    ensures r.Ok? ==> r.value.Sane()
  {
    var error := BuildError(inp, 1.0);
    if error.Some? then Err(error.value)
    else Ok(MakeScenario(inp, TickSlots(inp), pv, PriceScenario(1.0, Predicted, Predicted), 1.0))
  }

  /** `build_lp`; its caller has no slot-0 measurement to pass. */
  method BuildLp(inp: LpInput, pv: Percentile) returns (prob: LpProblem, r: Result<Scenario>)
    requires inp.Sane() && inp.slot0Pv.None?
    ensures fresh(prob)
    ensures r == DeterministicOf(inp, pv)
    ensures r.Ok? ==> r.value.Sane() && r.value.weight == 1.0
    ensures r.Ok? ==>
      forall x: Assignment | Shaped(x, 1, |TickSlots(inp)|, |inp.loads|) ::
        && (Sat(prob.constraints, x) <==> Feasible(r.value, x[0]))
        && Eval(prob.objective, x) == Cost(r.value, x[0])
  {
    hide Cost, Feasible, SlotGrid, PricedCount, HorizonEnd, Buildable;
    prob := new LpProblem();
    var error := BuildError(inp, 1.0);
    if error.Some? {
      return prob, Err(error.value);
    }
    var slots := TruncateToPriced(SlotGrid(inp.timestamp, inp.horizonHours, inp.slotMinutes), inp.prices);
    var sc := MakeScenario(inp, slots, pv, PriceScenario(1.0, Predicted, Predicted), 1.0);
    r := Ok(sc);
    var lastBuy := AddScenario(prob, sc, 0);
    var terms := CostTerms(sc, 0, lastBuy);
    prob.Minimize(LpSum(terms));
    assert forall x: Assignment :: Shaped(x, 1, |slots|, |inp.loads|) ==> Holds1(x, 0, sc);
  }
}
