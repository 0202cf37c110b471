/** Price intervals and the price scenarios built from their bands (lp/scenarios.py). */
module Prices {
  import opened Options
  import opened Reals

  datatype Band = Band(low: Option<real>, predicted: Option<real>, high: Option<real>, spot: real)

  /** One Amber interval: an import and an export price, each with an optional confidence band. */
  datatype PriceInterval = PriceInterval(start: int, end: int, imports: Band, exports: Band)

  datatype Leg = Low | Predicted | High

  datatype PriceScenario = PriceScenario(weight: real, importLeg: Leg, exportLeg: Leg)
  {
    function ImportPrice(p: PriceInterval): real { Resolve(importLeg, p.imports) }

    function ExportPrice(p: PriceInterval): real { Resolve(exportLeg, p.exports) }
  }

  datatype Mode = Point | Shared | Cross

  datatype BandWeights = BandWeights(low: real, predicted: real, high: real)
  {
    function Total(): real { low + predicted + high }
  }

  const DEFAULT_BAND_WEIGHTS := BandWeights(0.2, 0.6, 0.2)

  /** The fallback chain: requested leg, then the predicted leg, then the spot price. */
  function Resolve(leg: Leg, b: Band): (price: real)
    ensures b.predicted.None? && b.low.None? && b.high.None? ==> price == b.spot
  {
    var requested := match leg
      case Low => b.low
      case Predicted => b.predicted
      case High => b.high;
    if requested.Some? then requested.value
    else if b.predicted.Some? then b.predicted.value
    else b.spot
  }

  function ValidateWeights(w: BandWeights): (error: Option<string>)
    ensures error.None? ==> 0.0 <= w.low && 0.0 <= w.predicted && 0.0 <= w.high
  {
    if w.Total() - 1.0 > 0.000001 || w.Total() - 1.0 < -0.000001 then Some("band_weights must sum to 1.0")
    else if w.low < 0.0 || w.predicted < 0.0 || w.high < 0.0 then Some("band_weights must be non-negative")
    else None
  }

  /** The scenarios pairing one import leg, of weight `k`, with every export leg. */
  function CrossRow(i: Leg, k: real, w: BandWeights): seq<PriceScenario> {
    [PriceScenario(k * w.low, i, Low),
     PriceScenario(k * w.predicted, i, Predicted),
     PriceScenario(k * w.high, i, High)]
  }

  function ScenariosOf(mode: Mode, w: BandWeights): seq<PriceScenario> {
    match mode
    case Point => [PriceScenario(1.0, Predicted, Predicted)]
    case Shared =>
      [PriceScenario(w.low, Low, Low),
       PriceScenario(w.predicted, Predicted, Predicted),
       PriceScenario(w.high, High, High)]
    case Cross => CrossRow(Low, w.low, w) + CrossRow(Predicted, w.predicted, w) + CrossRow(High, w.high, w)
  }

  function BuildPriceScenarios(mode: Mode, w: BandWeights): Result<seq<PriceScenario>> {
    var error := ValidateWeights(w);
    if error.Some? then Err(error.value) else Ok(ScenariosOf(mode, w))
  }

  function Weights(scenarios: seq<PriceScenario>): (ws: seq<real>)
    ensures |ws| == |scenarios|
    ensures forall i :: 0 <= i < |ws| ==> ws[i] == scenarios[i].weight
  {
    seq(|scenarios|, i requires 0 <= i < |scenarios| => scenarios[i].weight)
  }

  /** What the weights of a mode's scenarios add up to: 1, the band total, or its square. */
  function ModeTotal(mode: Mode, w: BandWeights): real {
    match mode
    case Point => 1.0
    case Shared => w.Total()
    case Cross => w.Total() * w.Total()
  }

  lemma Sum3(a: real, b: real, c: real)
    ensures Sum([a, b, c]) == a + b + c
  {
    SumAppend([], a);
    assert [] + [a] == [a];
    SumAppend([a], b);
    assert [a] + [b] == [a, b];
    SumAppend([a, b], c);
    assert [a, b] + [c] == [a, b, c];
  }

  lemma RowTotal(i: Leg, k: real, w: BandWeights)
    ensures Sum(Weights(CrossRow(i, k, w))) == k * w.Total()
  {
    var ws := Weights(CrossRow(i, k, w));
    assert ws[0] == k * w.low && ws[1] == k * w.predicted && ws[2] == k * w.high;
    assert ws == [ws[0], ws[1], ws[2]];
    Sum3(ws[0], ws[1], ws[2]);
    assert k * w.Total() == k * w.low + k * w.predicted + k * w.high;
  }

  lemma WeightsConcat(a: seq<PriceScenario>, b: seq<PriceScenario>)
    ensures Sum(Weights(a + b)) == Sum(Weights(a)) + Sum(Weights(b))
  {
    assert Weights(a + b) == Weights(a) + Weights(b);
    SumConcat(Weights(a), Weights(b));
  }

  lemma WeightsTotal(mode: Mode, w: BandWeights)
    ensures Sum(Weights(ScenariosOf(mode, w))) == ModeTotal(mode, w)
  {
    match mode
    case Point =>
      assert Weights(ScenariosOf(mode, w)) == [1.0] && [1.0][..0] == [];
    case Shared =>
      assert Weights(ScenariosOf(mode, w)) == [w.low, w.predicted, w.high];
      Sum3(w.low, w.predicted, w.high);
    case Cross =>
      WeightsConcat(CrossRow(Low, w.low, w) + CrossRow(Predicted, w.predicted, w), CrossRow(High, w.high, w));
      WeightsConcat(CrossRow(Low, w.low, w), CrossRow(Predicted, w.predicted, w));
      RowTotal(Low, w.low, w);
      RowTotal(Predicted, w.predicted, w);
      RowTotal(High, w.high, w);
  }

  lemma ProductNonNegative(a: real, b: real)
    requires 0.0 <= a && 0.0 <= b
    ensures 0.0 <= a * b
    ensures 0.0 < a && 0.0 < b ==> 0.0 < a * b
  {
  }

  predicate NonNegative(scenarios: seq<PriceScenario>) {
    forall i :: 0 <= i < |scenarios| ==> 0.0 <= scenarios[i].weight
  }

  lemma RowNonNegative(i: Leg, k: real, w: BandWeights)
    requires 0.0 <= k && 0.0 <= w.low && 0.0 <= w.predicted && 0.0 <= w.high
    ensures NonNegative(CrossRow(i, k, w))
  {
    ProductNonNegative(k, w.low);
    ProductNonNegative(k, w.predicted);
    ProductNonNegative(k, w.high);
  }

  lemma ConcatNonNegative(a: seq<PriceScenario>, b: seq<PriceScenario>)
    requires NonNegative(a) && NonNegative(b)
    ensures NonNegative(a + b)
  {
  }

  /**
    Scenarios are built exactly for non-negative band weights adding up to 1 within a millionth; their
    own weights are then non-negative with a positive total, whichever mode is chosen.
   */
  lemma ScenarioWeightsSound(mode: Mode, w: BandWeights)
    ensures BuildPriceScenarios(mode, w).Ok? <==>
      && -0.000001 <= w.Total() - 1.0 <= 0.000001
      && 0.0 <= w.low && 0.0 <= w.predicted && 0.0 <= w.high
    ensures BuildPriceScenarios(mode, w).Ok? ==>
      var scenarios := BuildPriceScenarios(mode, w).value;
      && NonNegative(scenarios)
      && 0.0 < Sum(Weights(scenarios))
      && (w.Total() == 1.0 ==> Sum(Weights(scenarios)) == 1.0)
  {
    if BuildPriceScenarios(mode, w).Ok? {
      ScenariosSound(mode, w);
    }
  }

  lemma ScenariosSound(mode: Mode, w: BandWeights)
    requires ValidateWeights(w).None?
    ensures NonNegative(ScenariosOf(mode, w))
    ensures 0.0 < Sum(Weights(ScenariosOf(mode, w)))
    ensures w.Total() == 1.0 ==> Sum(Weights(ScenariosOf(mode, w))) == 1.0
  {
    WeightsTotal(mode, w);
    ProductNonNegative(w.Total(), w.Total());
    RowNonNegative(Low, w.low, w);
    RowNonNegative(Predicted, w.predicted, w);
    RowNonNegative(High, w.high, w);
    ConcatNonNegative(CrossRow(Low, w.low, w), CrossRow(Predicted, w.predicted, w));
    ConcatNonNegative(CrossRow(Low, w.low, w) + CrossRow(Predicted, w.predicted, w), CrossRow(High, w.high, w));
  }

  // ---------------------------------------------------------------- what a leg costs

  /** A leg's price: the published one; failing that what is predicted; failing that the spot price. */
  predicate Quotes(b: Band, leg: Leg, price: real) {
    && (leg.Low? && b.low.Some? ==> b.low.value == price)
    && (leg.High? && b.high.Some? ==> b.high.value == price)
    && ((leg.Low? && b.low.None?) || (leg.High? && b.high.None?) || leg.Predicted? ==>
      price == if b.predicted.Some? then b.predicted.value else b.spot)
  }

  lemma ResolveQuotes(leg: Leg, b: Band)
    ensures Quotes(b, leg, Resolve(leg, b))
  {
  }

  /** All three legs are published, in order. */
  predicate Published(b: Band) {
    b.low.Some? && b.predicted.Some? && b.high.Some? && b.low.value <= b.predicted.value <= b.high.value
  }

  /** In a published band the legs are priced in order, the outer ones at its ends. */
  lemma LegsInOrder(b: Band, low: real, predicted: real, high: real)
    requires Published(b) && Quotes(b, Low, low) && Quotes(b, Predicted, predicted) && Quotes(b, High, high)
    ensures b.low.value == low <= predicted == b.predicted.value <= high == b.high.value
  {
  }

  function LegWeight(w: BandWeights, leg: Leg): real {
    match leg
    case Low => w.low
    case Predicted => w.predicted
    case High => w.high
  }

  /** The pairs of legs a mode plans with, and what each weighs. */
  predicate PlansWith(mode: Mode, w: BandWeights, importLeg: Leg, exportLeg: Leg, weight: real) {
    match mode
    case Point => importLeg.Predicted? && exportLeg.Predicted? && weight == 1.0
    case Shared => importLeg == exportLeg && weight == LegWeight(w, importLeg)
    case Cross => weight == LegWeight(w, importLeg) * LegWeight(w, exportLeg)
  }

  function LegRank(leg: Leg): nat {
    match leg
    case Low => 0
    case Predicted => 1
    case High => 2
  }

  /** Where a mode lists a pair of legs. */
  function Rank(mode: Mode, importLeg: Leg, exportLeg: Leg): nat {
    match mode
    case Point => 0
    case Shared => LegRank(importLeg)
    case Cross => 3 * LegRank(importLeg) + LegRank(exportLeg)
  }

  lemma RowPairs(i: Leg, k: real, w: BandWeights, j: nat)
    requires j < 3
    ensures var s := CrossRow(i, k, w)[j];
      s.importLeg == i && LegRank(s.exportLeg) == j && s.weight == k * LegWeight(w, s.exportLeg)
  {
  }

  lemma CrossAt(w: BandWeights, k: nat)
    requires k < 9
    ensures |ScenariosOf(Cross, w)| == 9
    ensures ScenariosOf(Cross, w)[k]
      == if k < 3 then CrossRow(Low, w.low, w)[k]
         else if k < 6 then CrossRow(Predicted, w.predicted, w)[k - 3]
         else CrossRow(High, w.high, w)[k - 6]
  {
    hide ScenariosOf, CrossRow;
    CrossRows(w);
  }

  lemma CrossRows(w: BandWeights)
    ensures ScenariosOf(Cross, w)
      == CrossRow(Low, w.low, w) + CrossRow(Predicted, w.predicted, w) + CrossRow(High, w.high, w)
    ensures forall i, k :: |CrossRow(i, k, w)| == 3
  {
  }

  /** Every scenario of a mode is one of its pairs of legs, weighed as such, and no pair comes twice. */
  lemma ModePairs(mode: Mode, w: BandWeights, k: nat)
    requires k < |ScenariosOf(mode, w)|
    ensures var s := ScenariosOf(mode, w)[k];
      PlansWith(mode, w, s.importLeg, s.exportLeg, s.weight) && Rank(mode, s.importLeg, s.exportLeg) == k
  {
    if mode.Cross? {
      hide ScenariosOf, CrossRow;
      CrossCount(w);
      CrossAt(w, k);
      if k < 3 {
        RowPairs(Low, w.low, w, k);
      } else if k < 6 {
        RowPairs(Predicted, w.predicted, w, k - 3);
      } else {
        RowPairs(High, w.high, w, k - 6);
      }
    }
  }

  lemma CrossCount(w: BandWeights)
    ensures |ScenariosOf(Cross, w)| == 9
  {
    CrossAt(w, 0);
  }

  /** And every pair of the mode is there. */
  lemma ModeCovers(mode: Mode, w: BandWeights, importLeg: Leg, exportLeg: Leg)
    requires mode.Point? ==> importLeg.Predicted? && exportLeg.Predicted?
    requires mode.Shared? ==> importLeg == exportLeg
    ensures var k := Rank(mode, importLeg, exportLeg);
      && k < |ScenariosOf(mode, w)|
      && ScenariosOf(mode, w)[k].importLeg == importLeg && ScenariosOf(mode, w)[k].exportLeg == exportLeg
  {
    if mode.Cross? {
      hide ScenariosOf, CrossRow;
      var k := Rank(mode, importLeg, exportLeg);
      CrossCount(w);
      ModePairs(mode, w, k);
    }
  }

  /** Neither channel publishes a low or a high leg. */
  predicate NoBands(p: PriceInterval) {
    p.imports.low.None? && p.imports.high.None? && p.exports.low.None? && p.exports.high.None?
  }

  /** Without bands every scenario of every mode resolves the same prices as the point scenario. */
  lemma BandsCollapse(p: PriceInterval, s: PriceScenario)
    requires NoBands(p)
    ensures s.ImportPrice(p) == PriceScenario(1.0, Predicted, Predicted).ImportPrice(p)
    ensures s.ExportPrice(p) == PriceScenario(1.0, Predicted, Predicted).ExportPrice(p)
  {
  }
}
