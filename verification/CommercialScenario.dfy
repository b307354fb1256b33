/** The preliminary commercial scenario: exact integer arithmetic from decimal texts to a verdict. */
module CommercialScenario {
  import opened Decimals
  import opened Rounding

  const BASIS_POINTS := 10_000
  const RUBLES_TO_KOPECKS := 100
  const SCALE_DIGITS := 15
  const DECIMAL_SCALE := 1_000_000_000_000_000

  /** A JavaScript number; NaN and the infinities are never safe integers. */
  datatype Number = Finite(value: real) | NotFinite

  datatype QuantityScenario = BOQ | PROJECT

  datatype LineInput = LineInput(
    lineKey: string, quantityBoq: string, quantityProject: string,
    tenderUnitPrice: string, fgisUnitPrice: string, marketUnitPrice: string, riskBps: Number)

  datatype Assumptions = Assumptions(
    tenderGrossPrice: string, vatBps: Number, customerFeeBps: Number, overheadBps: Number, reserveBps: Number,
    targetMarginBps: Number, financingBps: Number, tenderWeightBps: Number, fgisWeightBps: Number,
    marketWeightBps: Number)

  datatype LineResult = LineResult(input: LineInput, quantity: string, preliminaryUnitPriceRubles: int, directCostKopecks: int)

  datatype Verdict = PROFIT | LOSS

  datatype ScenarioResult = ScenarioResult(
    scenario: QuantityScenario, lines: seq<LineResult>, directCostKopecks: int, fullCostKopecks: int,
    tenderGrossKopecks: int, tenderNetKopecks: int, availableAfterTermsKopecks: int,
    operatingResultKopecks: int, marginBps: int, requiredGrossKopecks: int, priceGapKopecks: int, verdict: Verdict)

  predicate IsSafeInteger(n: Number) {
    n.Finite? && n.value == n.value.Floor as real && -MAX_SAFE_INTEGER <= n.value.Floor <= MAX_SAFE_INTEGER
  }

  function AssertBasisPoints(n: Number): Result<int> {
    if !IsSafeInteger(n) || n.value < 0.0 || n.value > 100_000.0 then Err(BadBasisPoints) else Ok(n.value.Floor)
  }

  function RoundHalfUp(numerator: int, denominator: int): Result<int> {
    if denominator <= 0 then Err(DenominatorNotPositive) else Ok(Nearest(numerator, denominator))
  }

  function QuantityFor(line: LineInput, scenario: QuantityScenario): string {
    if scenario == PROJECT then line.quantityProject else line.quantityBoq
  }

  function CalculateLine(line: LineInput, a: Assumptions, scenario: QuantityScenario): Result<LineResult> {
    var tenderWeight :- AssertBasisPoints(a.tenderWeightBps);
    var fgisWeight :- AssertBasisPoints(a.fgisWeightBps);
    var marketWeight :- AssertBasisPoints(a.marketWeightBps);
    if tenderWeight + fgisWeight + marketWeight != BASIS_POINTS then Err(WeightsDoNotTotal) else
    var tender :- ParseScaledDecimal(line.tenderUnitPrice, SCALE_DIGITS);
    var fgis :- ParseScaledDecimal(line.fgisUnitPrice, SCALE_DIGITS);
    var market :- ParseScaledDecimal(line.marketUnitPrice, SCALE_DIGITS);
    if tender < 0 || fgis < 0 || market < 0 then Err(NegativePrice) else
    var risk :- AssertBasisPoints(line.riskBps);
    var weighted := tender * tenderWeight + fgis * fgisWeight + market * marketWeight;
    var preliminary :- RoundHalfUp(weighted * (BASIS_POINTS + risk), BASIS_POINTS * BASIS_POINTS * DECIMAL_SCALE);
    var quantity := QuantityFor(line, scenario);
    var quantityScaled :- ParseScaledDecimal(quantity, SCALE_DIGITS);
    if quantityScaled < 0 then Err(NegativeQuantity) else
    var direct :- RoundHalfUp(preliminary * quantityScaled * RUBLES_TO_KOPECKS, DECIMAL_SCALE);
    Ok(LineResult(line, quantity, preliminary, direct))
  }

  function CalculateLines(lines: seq<LineInput>, a: Assumptions, scenario: QuantityScenario): (r: Result<seq<LineResult>>)
    ensures r.Ok? ==> |r.value| == |lines|
    ensures r.Ok? ==> forall i :: 0 <= i < |lines| ==> CalculateLine(lines[i], a, scenario) == Ok(r.value[i])
  {
    if lines == [] then Ok([])
    else
      var first :- CalculateLine(lines[0], a, scenario);
      var rest :- CalculateLines(lines[1..], a, scenario);
      Ok([first] + rest)
  }

  function SumDirect(results: seq<LineResult>): int {
    if results == [] then 0 else SumDirect(results[..|results| - 1]) + results[|results| - 1].directCostKopecks
  }

  datatype Costs = Costs(lines: seq<LineResult>, directCostKopecks: int, fullCostKopecks: int)

  function CostsOf(lines: seq<LineInput>, a: Assumptions, scenario: QuantityScenario): Result<Costs> {
    var results :- CalculateLines(lines, a, scenario);
    var direct := SumDirect(results);
    var overhead :- AssertBasisPoints(a.overheadBps);
    var reserve :- AssertBasisPoints(a.reserveBps);
    var full :- RoundHalfUp(direct * (BASIS_POINTS + overhead) * (BASIS_POINTS + reserve), BASIS_POINTS * BASIS_POINTS);
    Ok(Costs(results, direct, full))
  }

  function GrossOf(a: Assumptions): Result<int> {
    var scaled :- ParseScaledDecimal(a.tenderGrossPrice, SCALE_DIGITS);
    var gross :- RoundHalfUp(scaled * RUBLES_TO_KOPECKS, DECIMAL_SCALE);
    if gross <= 0 then Err(GrossNotPositive) else Ok(gross)
  }

  /** 10000 basis points plus VAT, and the shares of the net price left after the customer's fee and
      financing, and after the target margin as well. */
  datatype Terms = Terms(vatFactor: int, availableShare: int, requiredShare: int)

  function TermsOf(a: Assumptions): Result<Terms> {
    var vat :- AssertBasisPoints(a.vatBps);
    var customerFee :- AssertBasisPoints(a.customerFeeBps);
    var financing :- AssertBasisPoints(a.financingBps);
    var targetMargin :- AssertBasisPoints(a.targetMarginBps);
    var availableShare := BASIS_POINTS - customerFee - financing;
    var requiredShare := availableShare - targetMargin;
    if availableShare <= 0 || requiredShare <= 0 then Err(NoPositiveShare)
    else Ok(Terms(BASIS_POINTS + vat, availableShare, requiredShare))
  }

  function CalculateScenario(lines: seq<LineInput>, a: Assumptions, scenario: QuantityScenario): Result<ScenarioResult> {
    var costs :- CostsOf(lines, a, scenario);
    var gross :- GrossOf(a);
    var t :- TermsOf(a);
    var full := costs.fullCostKopecks;
    var net :- RoundHalfUp(gross * BASIS_POINTS, t.vatFactor);
    var available :- RoundHalfUp(gross * BASIS_POINTS * t.availableShare, t.vatFactor * BASIS_POINTS);
    var operating := available - full;
    var margin :- RoundHalfUp(operating * BASIS_POINTS, net);
    var required :- RoundHalfUp(full * t.vatFactor, t.requiredShare);
    Ok(ScenarioResult(
      scenario, costs.lines, costs.directCostKopecks, full, gross, net, available, operating, margin, required,
      required - gross, if operating >= 0 then PROFIT else LOSS))
  }
}
