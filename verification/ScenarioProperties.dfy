/** What the scenario's figures mean to each other, through every intermediate rounding. */
module ScenarioProperties {
  import opened Decimals
  import opened Rounding
  import opened CommercialScenario

  lemma TermsRange(a: Assumptions)
    requires TermsOf(a).Ok?
    ensures var t := TermsOf(a).value;
            0 < t.requiredShare <= t.availableShare <= BASIS_POINTS <= t.vatFactor <= 110_000
  {
  }

  // ----- when a scenario succeeds -----

  lemma DropCommonFactor(gross: int, share: int, factor: int)
    requires factor > 0
    ensures factor * BASIS_POINTS > 0
    ensures Nearest(gross * BASIS_POINTS * share, factor * BASIS_POINTS) == Nearest(gross * share, factor)
  {
    NearestScale(gross * share, factor, BASIS_POINTS);
    assert gross * BASIS_POINTS * share == gross * share * BASIS_POINTS;
  }

  /** The net of a positive gross price is at least a kopeck, unless the price is below half a
      kopeck of net. */
  lemma NetPositive(gross: int, factor: int)
    requires gross > 0 && factor > 0
    ensures Nearest(gross * BASIS_POINTS, factor) >= 0
    ensures Nearest(gross * BASIS_POINTS, factor) > 0 <==> 2 * gross * BASIS_POINTS >= factor
  {
    NearestIsNearest(gross * BASIS_POINTS, factor);
    var q := Nearest(gross * BASIS_POINTS, factor);
    if q > 1 { MultiplesOrder(1, q, factor); }
  }

  /** The figures of a scenario, each by its own single rounding. */
  ghost predicate Figures(r: ScenarioResult, costs: Costs, gross: int, t: Terms)
    requires t.vatFactor > 0 && t.requiredShare > 0
  {
    && r.lines == costs.lines && r.directCostKopecks == costs.directCostKopecks
    && r.fullCostKopecks == costs.fullCostKopecks && r.tenderGrossKopecks == gross > 0
    && r.tenderNetKopecks == Nearest(gross * BASIS_POINTS, t.vatFactor) > 0
    && r.availableAfterTermsKopecks == Nearest(gross * t.availableShare, t.vatFactor)
    && r.operatingResultKopecks == r.availableAfterTermsKopecks - r.fullCostKopecks
    && r.marginBps == Nearest(r.operatingResultKopecks * BASIS_POINTS, r.tenderNetKopecks)
    && r.requiredGrossKopecks == Nearest(r.fullCostKopecks * t.vatFactor, t.requiredShare)
    && r.priceGapKopecks == r.requiredGrossKopecks - gross
    && r.verdict == (if r.operatingResultKopecks >= 0 then PROFIT else LOSS)
  }

  /** A scenario succeeds exactly when its costs, price and terms are valid and the price is not so
      small against the VAT that its net rounds to zero, the margin's only zero denominator. */
  lemma ScenarioOutcome(lines: seq<LineInput>, a: Assumptions, scenario: QuantityScenario)
    ensures var r := CalculateScenario(lines, a, scenario);
            var costs, gross, terms := CostsOf(lines, a, scenario), GrossOf(a), TermsOf(a);
            if costs.Err? then r == Err(costs.error)
            else if gross.Err? then r == Err(gross.error)
            else if terms.Err? then r == Err(terms.error)
            else if 2 * gross.value * BASIS_POINTS < terms.value.vatFactor then r == Err(DenominatorNotPositive)
            else r.Ok? && 0 < terms.value.requiredShare <= terms.value.availableShare
                 && terms.value.availableShare <= BASIS_POINTS <= terms.value.vatFactor
                 && Figures(r.value, costs.value, gross.value, terms.value)
  {
    var costs, gross, terms := CostsOf(lines, a, scenario), GrossOf(a), TermsOf(a);
    if costs.Ok? && gross.Ok? && terms.Ok? {
      var t := terms.value;
      TermsRange(a);
      NetPositive(gross.value, t.vatFactor);
      DropCommonFactor(gross.value, t.availableShare, t.vatFactor);
    }
  }

  lemma ScenarioFigures(lines: seq<LineInput>, a: Assumptions, scenario: QuantityScenario)
    requires CalculateScenario(lines, a, scenario).Ok?
    ensures CostsOf(lines, a, scenario).Ok? && GrossOf(a).Ok? && TermsOf(a).Ok?
    ensures var t := TermsOf(a).value;
            && 0 < t.requiredShare <= t.availableShare <= BASIS_POINTS <= t.vatFactor
            && Figures(CalculateScenario(lines, a, scenario).value, CostsOf(lines, a, scenario).value, GrossOf(a).value, t)
            && CostsOf(lines, a, scenario).value.fullCostKopecks >= 0
  {
    hide ParseScaledDecimal;
    ScenarioOutcome(lines, a, scenario);
    FullCostNonNegative(lines, a, scenario);
  }

  lemma {:induction false} LinesNeverDivideByZero(lines: seq<LineInput>, a: Assumptions, scenario: QuantityScenario)
    ensures CalculateLines(lines, a, scenario) != Err(DenominatorNotPositive)
  {
    if lines != [] {
      LineNeverDividesByZero(lines[0], a, scenario);
      LinesNeverDivideByZero(lines[1..], a, scenario);
    }
  }

  lemma LineNeverDividesByZero(line: LineInput, a: Assumptions, scenario: QuantityScenario)
    ensures CalculateLine(line, a, scenario) != Err(DenominatorNotPositive)
  {
    hide ParseScaledDecimal;
    ParseErrors(line.tenderUnitPrice, SCALE_DIGITS);
    ParseErrors(line.fgisUnitPrice, SCALE_DIGITS);
    ParseErrors(line.marketUnitPrice, SCALE_DIGITS);
    ParseErrors(QuantityFor(line, scenario), SCALE_DIGITS);
  }

  /** The scenario never meets a zero denominator when VAT is at most 100%. */
  lemma NoZeroDenominator(lines: seq<LineInput>, a: Assumptions, scenario: QuantityScenario)
    requires a.vatBps.Finite? && a.vatBps.value <= 10_000.0
    ensures CalculateScenario(lines, a, scenario) != Err(DenominatorNotPositive)
  {
    hide ParseScaledDecimal;
    ParseErrors(a.tenderGrossPrice, SCALE_DIGITS);
    ScenarioOutcome(lines, a, scenario);
    LinesNeverDivideByZero(lines, a, scenario);
    if TermsOf(a).Ok? {
      assert TermsOf(a).value.vatFactor <= 20_000;
    }
  }

  // ----- the verdict -----

  /** The verdict is an exact inequality between the price and the full cost: the available part of
      the price reaches the full cost to within half a kopeck. */
  lemma VerdictThreshold(lines: seq<LineInput>, a: Assumptions, scenario: QuantityScenario)
    requires CalculateScenario(lines, a, scenario).Ok?
    ensures var r := CalculateScenario(lines, a, scenario).value;
            TermsOf(a).Ok?
            && (r.verdict == PROFIT
                <==> 2 * (r.tenderGrossKopecks * TermsOf(a).value.availableShare)
                     >= 2 * (r.fullCostKopecks * TermsOf(a).value.vatFactor) - TermsOf(a).value.vatFactor)
  {
    hide ParseScaledDecimal;
    ScenarioFigures(lines, a, scenario);
    var r := CalculateScenario(lines, a, scenario).value;
    var t := TermsOf(a).value;
    var n := r.tenderGrossKopecks * t.availableShare;
    assert n >= 0;
    NearestIsNearest(n, t.vatFactor);
    if r.availableAfterTermsKopecks < r.fullCostKopecks {
      MultiplesOrder(r.availableAfterTermsKopecks, r.fullCostKopecks, t.vatFactor);
    } else if r.availableAfterTermsKopecks > r.fullCostKopecks {
      MultiplesOrder(r.fullCostKopecks, r.availableAfterTermsKopecks, t.vatFactor);
    }
  }

  /** Once the price reaches the required price the verdict is PROFIT; a LOSS always shows a gap. */
  lemma NoGapMeansProfit(lines: seq<LineInput>, a: Assumptions, scenario: QuantityScenario)
    requires CalculateScenario(lines, a, scenario).Ok?
    ensures var r := CalculateScenario(lines, a, scenario).value;
            r.priceGapKopecks <= 0 ==> r.verdict == PROFIT
  {
    hide ParseScaledDecimal;
    ScenarioFigures(lines, a, scenario);
    var r := CalculateScenario(lines, a, scenario).value;
    var t := TermsOf(a).value;
    if r.requiredGrossKopecks <= r.tenderGrossKopecks {
      StretchAndShrink(r.fullCostKopecks, t.vatFactor, t.requiredShare);
      RequiredNonNegative(r.fullCostKopecks, t);
      ProductOrder(r.requiredGrossKopecks, r.tenderGrossKopecks, t.requiredShare, t.availableShare);
      NearestMonotone(r.requiredGrossKopecks * t.requiredShare, r.tenderGrossKopecks * t.availableShare, t.vatFactor);
    }
  }

  lemma ProductOrder(a: int, b: int, x: int, y: int)
    requires 0 <= a <= b && 0 <= x <= y
    ensures 0 <= a * x <= b * y
  {
    assert a * x <= a * y;
    assert a * y <= b * y;
  }

  lemma RequiredNonNegative(full: int, t: Terms)
    requires full >= 0 && t.vatFactor > 0 && t.requiredShare > 0
    ensures Nearest(full * t.vatFactor, t.requiredShare) >= 0
  {
    assert full * t.vatFactor >= 0;
    NearestIsNearest(full * t.vatFactor, t.requiredShare);
  }

  function FullCost(direct: int, overhead: int, reserve: int): int {
    Nearest(direct * (BASIS_POINTS + overhead) * (BASIS_POINTS + reserve), BASIS_POINTS * BASIS_POINTS)
  }

  lemma CostsFigures(lines: seq<LineInput>, a: Assumptions, scenario: QuantityScenario)
    requires CostsOf(lines, a, scenario).Ok?
    ensures CalculateLines(lines, a, scenario).Ok?
    ensures AssertBasisPoints(a.overheadBps).Ok? && AssertBasisPoints(a.reserveBps).Ok?
    ensures var c := CostsOf(lines, a, scenario).value;
            var o, v := AssertBasisPoints(a.overheadBps).value, AssertBasisPoints(a.reserveBps).value;
            && o >= 0 && v >= 0
            && c.lines == CalculateLines(lines, a, scenario).value
            && c.directCostKopecks == SumDirect(c.lines)
            && c.fullCostKopecks == FullCost(c.directCostKopecks, o, v)
  {
  }

  lemma FullCostOrder(d: int, d': int, o: int, o': int, v: int, v': int)
    requires 0 <= d <= d' && 0 <= o <= o' && 0 <= v <= v'
    ensures 0 <= FullCost(d, o, v) <= FullCost(d', o', v')
  {
    ProductOrder(d, d', BASIS_POINTS + o, BASIS_POINTS + o');
    ProductOrder(d * (BASIS_POINTS + o), d' * (BASIS_POINTS + o'), BASIS_POINTS + v, BASIS_POINTS + v');
    var n, n' := d * (BASIS_POINTS + o) * (BASIS_POINTS + v), d' * (BASIS_POINTS + o') * (BASIS_POINTS + v');
    NearestIsNearest(n, BASIS_POINTS * BASIS_POINTS);
    NearestMonotone(n, n', BASIS_POINTS * BASIS_POINTS);
  }

  lemma FullCostNonNegative(lines: seq<LineInput>, a: Assumptions, scenario: QuantityScenario)
    requires CostsOf(lines, a, scenario).Ok?
    ensures CostsOf(lines, a, scenario).value.directCostKopecks >= 0
    ensures CostsOf(lines, a, scenario).value.fullCostKopecks >= 0
  {
    CostsFigures(lines, a, scenario);
    var c := CostsOf(lines, a, scenario).value;
    forall i | 0 <= i < |lines| ensures c.lines[i].directCostKopecks >= 0 {
      LineCostNonNegative(lines[i], a, scenario);
    }
    SumNonNegative(c.lines);
    var d := c.directCostKopecks;
    var o, v := AssertBasisPoints(a.overheadBps).value, AssertBasisPoints(a.reserveBps).value;
    FullCostOrder(d, d, o, o, v, v);
  }

  lemma {:induction false} SumNonNegative(results: seq<LineResult>)
    requires forall i :: 0 <= i < |results| ==> results[i].directCostKopecks >= 0
    ensures SumDirect(results) >= 0
  {
    if results != [] {
      SumNonNegative(results[..|results| - 1]);
    }
  }

  // ----- the figures of one line -----

  /** The parsed operands of one line. */
  datatype Operands = Operands(tender: int, fgis: int, market: int, risk: int, quantity: int)

  datatype Weights = Weights(tender: int, fgis: int, market: int)

  /** A basis-point value; the zero of an invalid one is never used by a line that succeeds. */
  function BasisPoints(n: Number): int {
    var r := AssertBasisPoints(n);
    if r.Ok? then r.value else 0
  }

  function WeightsOf(a: Assumptions): Weights {
    Weights(BasisPoints(a.tenderWeightBps), BasisPoints(a.fgisWeightBps), BasisPoints(a.marketWeightBps))
  }

  /** The unrounded risk-adjusted price, in units of 1 / PRICE_UNITS ruble. */
  function PriceNumerator(x: Operands, w: Weights): int {
    (x.tender * w.tender + x.fgis * w.fgis + x.market * w.market) * (BASIS_POINTS + x.risk)
  }

  const PRICE_UNITS := BASIS_POINTS * BASIS_POINTS * DECIMAL_SCALE

  function Parsed(text: string): int {
    var r := ParseScaledDecimal(text, SCALE_DIGITS);
    if r.Ok? then r.value else 0
  }

  /** The operands of a line, with the bill's quantity under BOQ and the project's under PROJECT. */
  function OperandsOf(line: LineInput, scenario: QuantityScenario): Operands {
    var quantity := match scenario case BOQ => line.quantityBoq case PROJECT => line.quantityProject;
    Operands(Parsed(line.tenderUnitPrice), Parsed(line.fgisUnitPrice), Parsed(line.marketUnitPrice),
             BasisPoints(line.riskBps), Parsed(quantity))
  }

  /** Every whole number from 0 to 100000 is a basis-point value. */
  lemma WholeBasisPoints(v: int)
    ensures AssertBasisPoints(Finite(v as real)) == if 0 <= v <= 100_000 then Ok(v) else Err(BadBasisPoints)
  {
    assert (v as real).Floor == v;
  }

  /** Nothing else is. */
  lemma OnlyWholeBasisPoints(n: Number)
    ensures var r := AssertBasisPoints(n);
            r.Ok? ==> 0 <= r.value <= 100_000 && n == Finite(r.value as real)
  {
  }

  predicate Reads(text: string) {
    ParseScaledDecimal(text, SCALE_DIGITS).Ok?
  }

  /** A line is calculated exactly when the weights are basis points that total 10000, the prices, the risk and the
      quantity of the scenario can be read and none is negative; its figures are then one rounding each. */
  lemma LineFigures(line: LineInput, a: Assumptions, scenario: QuantityScenario)
    ensures var x, w, r := OperandsOf(line, scenario), WeightsOf(a), CalculateLine(line, a, scenario);
            var quantity := match scenario case BOQ => line.quantityBoq case PROJECT => line.quantityProject;
            && (r.Ok? <==> && AssertBasisPoints(a.tenderWeightBps).Ok? && AssertBasisPoints(a.fgisWeightBps).Ok?
                           && AssertBasisPoints(a.marketWeightBps).Ok? && w.tender + w.fgis + w.market == 10_000
                           && Reads(line.tenderUnitPrice) && Reads(line.fgisUnitPrice) && Reads(line.marketUnitPrice)
                           && AssertBasisPoints(line.riskBps).Ok? && Reads(quantity)
                           && x.tender >= 0 && x.fgis >= 0 && x.market >= 0 && x.quantity >= 0)
            && (r.Ok? ==>
                  && x.tender >= 0 && x.fgis >= 0 && x.market >= 0 && 0 <= x.risk && x.quantity >= 0
                  && w.tender >= 0 && w.fgis >= 0 && w.market >= 0 && r.value.quantity == quantity
                  && r.value.input == line
                  && r.value.preliminaryUnitPriceRubles == Nearest(PriceNumerator(x, w), PRICE_UNITS)
                  && r.value.directCostKopecks
                     == Nearest(r.value.preliminaryUnitPriceRubles * x.quantity * RUBLES_TO_KOPECKS, DECIMAL_SCALE))
  {
    hide ParseScaledDecimal;
  }

  /** The quantity of the other scenario has no part in a line. */
  lemma OtherQuantityIgnored(line: LineInput, a: Assumptions, other: string)
    ensures SameLine(CalculateLine(line, a, BOQ), CalculateLine(line.(quantityProject := other), a, BOQ))
    ensures SameLine(CalculateLine(line, a, PROJECT), CalculateLine(line.(quantityBoq := other), a, PROJECT))
  {
    hide ParseScaledDecimal;
  }

  predicate SameLine(r: Result<LineResult>, r': Result<LineResult>) {
    if r.Err? || r'.Err? then r == r'
    else r'.value == r.value.(input := r'.value.input)
  }

  /** The terms are accepted exactly when they are basis points and leave a positive share, with the target margin
      and so without it. */
  lemma TermsOutcome(a: Assumptions)
    ensures var fee, financing, target := BasisPoints(a.customerFeeBps), BasisPoints(a.financingBps), BasisPoints(a.targetMarginBps);
            && (TermsOf(a).Ok? <==> && AssertBasisPoints(a.vatBps).Ok? && AssertBasisPoints(a.customerFeeBps).Ok?
                                    && AssertBasisPoints(a.financingBps).Ok? && AssertBasisPoints(a.targetMarginBps).Ok?
                                    && fee + financing + target < 10_000)
            && (TermsOf(a).Ok? ==> TermsOf(a).value
                                   == Terms(10_000 + BasisPoints(a.vatBps), 10_000 - fee - financing, 10_000 - fee - financing - target))
  {
  }

  /** The tender price is accepted exactly when it is at least half a kopeck, and is then its nearest kopeck. */
  lemma GrossOutcome(a: Assumptions)
    ensures GrossOf(a).Ok? <==> Reads(a.tenderGrossPrice) && 2 * Parsed(a.tenderGrossPrice) * RUBLES_TO_KOPECKS >= DECIMAL_SCALE
    ensures GrossOf(a).Ok? ==> GrossOf(a).value == Nearest(Parsed(a.tenderGrossPrice) * RUBLES_TO_KOPECKS, DECIMAL_SCALE) > 0
  {
    hide ParseScaledDecimal;
    NearestIsNearest(Parsed(a.tenderGrossPrice) * RUBLES_TO_KOPECKS, DECIMAL_SCALE);
  }

  /** The costs are calculated exactly when every line is, and overhead and reserve are basis points. */
  lemma {:induction false} LinesOutcome(lines: seq<LineInput>, a: Assumptions, scenario: QuantityScenario)
    ensures CalculateLines(lines, a, scenario).Ok?
       <==> forall i :: 0 <= i < |lines| ==> CalculateLine(lines[i], a, scenario).Ok?
  {
    hide CalculateLine;
    if lines != [] {
      LinesOutcome(lines[1..], a, scenario);
      assert lines == [lines[0]] + lines[1..];
    }
  }

  lemma CostsOutcome(lines: seq<LineInput>, a: Assumptions, scenario: QuantityScenario)
    ensures CostsOf(lines, a, scenario).Ok?
       <==> && (forall i :: 0 <= i < |lines| ==> CalculateLine(lines[i], a, scenario).Ok?)
            && AssertBasisPoints(a.overheadBps).Ok? && AssertBasisPoints(a.reserveBps).Ok?
  {
    LinesOutcome(lines, a, scenario);
    hide CalculateLine;
  }

  lemma PriceNumeratorOrder(x: Operands, y: Operands, w: Weights)
    requires 0 <= x.tender <= y.tender && 0 <= x.fgis <= y.fgis && 0 <= x.market <= y.market && 0 <= x.risk <= y.risk
    requires w.tender >= 0 && w.fgis >= 0 && w.market >= 0
    ensures 0 <= PriceNumerator(x, w) <= PriceNumerator(y, w)
  {
    ProductOrder(x.tender, y.tender, w.tender, w.tender);
    ProductOrder(x.fgis, y.fgis, w.fgis, w.fgis);
    ProductOrder(x.market, y.market, w.market, w.market);
    ProductOrder(x.tender * w.tender + x.fgis * w.fgis + x.market * w.market,
                 y.tender * w.tender + y.fgis * w.fgis + y.market * w.market,
                 BASIS_POINTS + x.risk, BASIS_POINTS + y.risk);
  }

  lemma LineCostNonNegative(line: LineInput, a: Assumptions, scenario: QuantityScenario)
    requires CalculateLine(line, a, scenario).Ok?
    ensures CalculateLine(line, a, scenario).value.preliminaryUnitPriceRubles >= 0
    ensures CalculateLine(line, a, scenario).value.directCostKopecks >= 0
  {
    LineFigures(line, a, scenario);
    var x, w, r := OperandsOf(line, scenario), WeightsOf(a), CalculateLine(line, a, scenario).value;
    PriceNumeratorOrder(x, x, w);
    NearestIsNearest(PriceNumerator(x, w), PRICE_UNITS);
    ProductOrder(0, r.preliminaryUnitPriceRubles, 0, x.quantity);
    NearestIsNearest(r.preliminaryUnitPriceRubles * x.quantity * RUBLES_TO_KOPECKS, DECIMAL_SCALE);
  }

  // ----- monotonicity -----

  /** Every source price, the risk and the quantity of x are at most those of y. */
  predicate OperandsBelow(x: Operands, y: Operands) {
    && x.tender <= y.tender && x.fgis <= y.fgis && x.market <= y.market
    && x.risk <= y.risk && x.quantity <= y.quantity
  }

  predicate LinesBelow(lines: seq<LineInput>, lines': seq<LineInput>, scenario: QuantityScenario) {
    && |lines| == |lines'|
    && forall i :: 0 <= i < |lines| ==> OperandsBelow(OperandsOf(lines[i], scenario), OperandsOf(lines'[i], scenario))
  }

  lemma LineMonotone(line: LineInput, line': LineInput, a: Assumptions, a': Assumptions, scenario: QuantityScenario)
    requires CalculateLine(line, a, scenario).Ok? && CalculateLine(line', a', scenario).Ok?
    requires a'.tenderWeightBps == a.tenderWeightBps && a'.fgisWeightBps == a.fgisWeightBps
    requires a'.marketWeightBps == a.marketWeightBps
    requires OperandsBelow(OperandsOf(line, scenario), OperandsOf(line', scenario))
    ensures CalculateLine(line, a, scenario).value.directCostKopecks
            <= CalculateLine(line', a', scenario).value.directCostKopecks
  {
    LineFigures(line, a, scenario);
    LineFigures(line', a', scenario);
    var x, y, w := OperandsOf(line, scenario), OperandsOf(line', scenario), WeightsOf(a);
    var r, r' := CalculateLine(line, a, scenario).value, CalculateLine(line', a', scenario).value;
    PriceNumeratorOrder(x, y, w);
    NearestMonotone(PriceNumerator(x, w), PriceNumerator(y, w), PRICE_UNITS);
    LineCostNonNegative(line, a, scenario);
    ProductOrder(r.preliminaryUnitPriceRubles, r'.preliminaryUnitPriceRubles, x.quantity, y.quantity);
    NearestMonotone(r.preliminaryUnitPriceRubles * x.quantity * RUBLES_TO_KOPECKS,
                    r'.preliminaryUnitPriceRubles * y.quantity * RUBLES_TO_KOPECKS, DECIMAL_SCALE);
  }

  lemma {:induction false} SumMonotone(results: seq<LineResult>, results': seq<LineResult>)
    requires |results| == |results'|
    requires forall i :: 0 <= i < |results| ==> results[i].directCostKopecks <= results'[i].directCostKopecks
    ensures SumDirect(results) <= SumDirect(results')
  {
    if results != [] {
      SumMonotone(results[..|results| - 1], results'[..|results| - 1]);
    }
  }

  /** Raising any source price, risk, quantity, overhead or reserve, in any lines at once, never lowers
      the direct cost, the full cost or the required price, and never raises the operating result. */
  lemma CostsMonotone(lines: seq<LineInput>, lines': seq<LineInput>, a: Assumptions, a': Assumptions,
                      scenario: QuantityScenario)
    requires CalculateScenario(lines, a, scenario).Ok? && CalculateScenario(lines', a', scenario).Ok?
    requires a' == a.(overheadBps := a'.overheadBps, reserveBps := a'.reserveBps)
    requires AssertBasisPoints(a.overheadBps).Ok? && AssertBasisPoints(a'.overheadBps).Ok?
    requires AssertBasisPoints(a.reserveBps).Ok? && AssertBasisPoints(a'.reserveBps).Ok?
    requires AssertBasisPoints(a.overheadBps).value <= AssertBasisPoints(a'.overheadBps).value
    requires AssertBasisPoints(a.reserveBps).value <= AssertBasisPoints(a'.reserveBps).value
    requires LinesBelow(lines, lines', scenario)
    ensures var r, r' := CalculateScenario(lines, a, scenario).value, CalculateScenario(lines', a', scenario).value;
            && r.directCostKopecks <= r'.directCostKopecks && r.fullCostKopecks <= r'.fullCostKopecks
            && r.requiredGrossKopecks <= r'.requiredGrossKopecks
            && r.operatingResultKopecks >= r'.operatingResultKopecks
  {
    SameTermsAndPrice(a, a');
    ScenarioFigures(lines, a, scenario);
    ScenarioFigures(lines', a', scenario);
    CostsMonotoneOnly(lines, lines', a, a', scenario);
    RequiredOrder(CostsOf(lines, a, scenario).value.fullCostKopecks,
                  CostsOf(lines', a', scenario).value.fullCostKopecks, TermsOf(a).value);
  }

  lemma RequiredOrder(full: int, full': int, t: Terms)
    requires 0 <= full <= full' && t.vatFactor > 0 && t.requiredShare > 0
    ensures Nearest(full * t.vatFactor, t.requiredShare) <= Nearest(full' * t.vatFactor, t.requiredShare)
  {
    ProductOrder(full, full', t.vatFactor, t.vatFactor);
    NearestMonotone(full * t.vatFactor, full' * t.vatFactor, t.requiredShare);
  }

  lemma SameTermsAndPrice(a: Assumptions, a': Assumptions)
    requires a' == a.(overheadBps := a'.overheadBps, reserveBps := a'.reserveBps)
    ensures TermsOf(a') == TermsOf(a) && GrossOf(a') == GrossOf(a)
  {
  }

  lemma CostsMonotoneOnly(lines: seq<LineInput>, lines': seq<LineInput>, a: Assumptions, a': Assumptions,
                          scenario: QuantityScenario)
    requires CostsOf(lines, a, scenario).Ok? && CostsOf(lines', a', scenario).Ok?
    requires a' == a.(overheadBps := a'.overheadBps, reserveBps := a'.reserveBps)
    requires AssertBasisPoints(a.overheadBps).Ok? && AssertBasisPoints(a'.overheadBps).Ok?
    requires AssertBasisPoints(a.reserveBps).Ok? && AssertBasisPoints(a'.reserveBps).Ok?
    requires AssertBasisPoints(a.overheadBps).value <= AssertBasisPoints(a'.overheadBps).value
    requires AssertBasisPoints(a.reserveBps).value <= AssertBasisPoints(a'.reserveBps).value
    requires LinesBelow(lines, lines', scenario)
    ensures var c, c' := CostsOf(lines, a, scenario).value, CostsOf(lines', a', scenario).value;
            c.directCostKopecks <= c'.directCostKopecks && c.fullCostKopecks <= c'.fullCostKopecks
  {
    CostsFigures(lines, a, scenario);
    CostsFigures(lines', a', scenario);
    FullCostNonNegative(lines, a, scenario);
    var c, c' := CostsOf(lines, a, scenario).value, CostsOf(lines', a', scenario).value;
    forall i | 0 <= i < |lines| ensures c.lines[i].directCostKopecks <= c'.lines[i].directCostKopecks {
      LineMonotone(lines[i], lines'[i], a, a', scenario);
    }
    SumMonotone(c.lines, c'.lines);
    FullCostOrder(c.directCostKopecks, c'.directCostKopecks,
                  AssertBasisPoints(a.overheadBps).value, AssertBasisPoints(a'.overheadBps).value,
                  AssertBasisPoints(a.reserveBps).value, AssertBasisPoints(a'.reserveBps).value);
  }

  // ----- how far rounding moves the direct cost -----

  const COST_UNITS := PRICE_UNITS * DECIMAL_SCALE

  /** The unrounded weighted cost of a line in kopecks. */
  function ExactCost(x: Operands, w: Weights): real {
    (PriceNumerator(x, w) * x.quantity * RUBLES_TO_KOPECKS) as real / COST_UNITS as real
  }

  function Quantity(x: Operands): real {
    x.quantity as real / DECIMAL_SCALE as real
  }

  function ExactTotal(lines: seq<LineInput>, w: Weights, scenario: QuantityScenario): real {
    if lines == [] then 0.0
    else ExactTotal(lines[..|lines| - 1], w, scenario) + ExactCost(OperandsOf(lines[|lines| - 1], scenario), w)
  }

  /** Fifty kopecks for every unit of quantity, because the unit price is rounded to whole rubles, and
      half a kopeck for the line total. */
  function ErrorBudget(lines: seq<LineInput>, scenario: QuantityScenario): real {
    if lines == [] then 0.0
    else ErrorBudget(lines[..|lines| - 1], scenario) + 50.0 * Quantity(OperandsOf(lines[|lines| - 1], scenario)) + 0.5
  }

  lemma TwoRoundings(n: int, p: int, q: int, c: int)
    requires n >= 0 && q >= 0 && p >= 0 && IsNearest(n, PRICE_UNITS, p)
    requires IsNearest(p * q * RUBLES_TO_KOPECKS, DECIMAL_SCALE, c)
    ensures -(100 * q * PRICE_UNITS + COST_UNITS)
            <= 2 * (c * COST_UNITS) - 2 * (n * q * RUBLES_TO_KOPECKS)
            <= 100 * q * PRICE_UNITS + COST_UNITS
  {
    ProductOrder(0, p, 0, q);
    var drift := p * PRICE_UNITS - n;
    assert -PRICE_UNITS <= 2 * drift <= PRICE_UNITS;
    DriftTimes(p, n, q);
    BoundTimes(2 * drift, PRICE_UNITS, q);
  }

  lemma DriftTimes(p: int, n: int, q: int)
    ensures (2 * (p * PRICE_UNITS - n)) * q == 2 * ((p * q) * PRICE_UNITS) - 2 * (n * q)
  {
  }

  lemma BoundTimes(x: int, b: int, q: int)
    requires -b <= x <= b && q >= 0
    ensures -(b * q) <= x * q <= b * q
  {
    assert (b - x) * q >= 0;
    assert (b + x) * q >= 0;
  }

  lemma LineError(line: LineInput, a: Assumptions, scenario: QuantityScenario)
    requires CalculateLine(line, a, scenario).Ok?
    ensures var x := OperandsOf(line, scenario);
            var budget := 50.0 * Quantity(x) + 0.5;
            -budget <= CalculateLine(line, a, scenario).value.directCostKopecks as real - ExactCost(x, WeightsOf(a)) <= budget
  {
    LineFigures(line, a, scenario);
    LineCostNonNegative(line, a, scenario);
    var x, w, r := OperandsOf(line, scenario), WeightsOf(a), CalculateLine(line, a, scenario).value;
    PriceNumeratorOrder(x, x, w);
    var n := PriceNumerator(x, w);
    NearestIsNearest(n, PRICE_UNITS);
    ProductOrder(0, r.preliminaryUnitPriceRubles, 0, x.quantity);
    NearestIsNearest(r.preliminaryUnitPriceRubles * x.quantity * RUBLES_TO_KOPECKS, DECIMAL_SCALE);
    TwoRoundings(n, r.preliminaryUnitPriceRubles, x.quantity, r.directCostKopecks);
    ErrorInKopecks(r.directCostKopecks, n * x.quantity * RUBLES_TO_KOPECKS, x.quantity);
  }

  lemma ErrorInKopecks(c: int, e: int, q: int)
    requires -(100 * q * PRICE_UNITS + COST_UNITS) <= 2 * (c * COST_UNITS) - 2 * e <= 100 * q * PRICE_UNITS + COST_UNITS
    ensures var budget := 50.0 * (q as real / DECIMAL_SCALE as real) + 0.5;
            -budget <= c as real - e as real / COST_UNITS as real <= budget
  {
  }

  lemma {:induction false} TotalError(lines: seq<LineInput>, results: seq<LineResult>, a: Assumptions, scenario: QuantityScenario)
    requires |results| == |lines|
    requires forall i :: 0 <= i < |lines| ==> CalculateLine(lines[i], a, scenario) == Ok(results[i])
    ensures -ErrorBudget(lines, scenario)
            <= SumDirect(results) as real - ExactTotal(lines, WeightsOf(a), scenario)
            <= ErrorBudget(lines, scenario)
  {
    hide CalculateLine, OperandsOf, WeightsOf, ExactCost, Quantity;
    if lines != [] {
      var n := |lines| - 1;
      LineError(lines[n], a, scenario);
      TotalError(lines[..n], results[..n], a, scenario);
    }
  }

  /** The summed direct cost is within fifty kopecks per unit of quantity, plus half a kopeck per
      line, of the exact weighted cost. */
  lemma DirectCostError(lines: seq<LineInput>, a: Assumptions, scenario: QuantityScenario)
    requires CalculateScenario(lines, a, scenario).Ok?
    ensures var error := CalculateScenario(lines, a, scenario).value.directCostKopecks as real
                         - ExactTotal(lines, WeightsOf(a), scenario);
            -ErrorBudget(lines, scenario) <= error <= ErrorBudget(lines, scenario)
  {
    ScenarioOutcome(lines, a, scenario);
    CostsFigures(lines, a, scenario);
    var results := CalculateLines(lines, a, scenario).value;
    TotalError(lines, results, a, scenario);
  }

  // ----- re-running at the required price -----

  lemma LineIgnoresPrice(line: LineInput, a: Assumptions, price: string, scenario: QuantityScenario)
    ensures CalculateLine(line, a.(tenderGrossPrice := price), scenario) == CalculateLine(line, a, scenario)
  {
    hide ParseScaledDecimal;
  }

  lemma {:induction false} LinesIgnorePrice(lines: seq<LineInput>, a: Assumptions, price: string, scenario: QuantityScenario)
    ensures CalculateLines(lines, a.(tenderGrossPrice := price), scenario) == CalculateLines(lines, a, scenario)
  {
    if lines != [] {
      LineIgnoresPrice(lines[0], a, price, scenario);
      LinesIgnorePrice(lines[1..], a, price, scenario);
    }
  }

  lemma PriceEntersNeither(lines: seq<LineInput>, a: Assumptions, price: string, scenario: QuantityScenario)
    ensures CostsOf(lines, a.(tenderGrossPrice := price), scenario) == CostsOf(lines, a, scenario)
    ensures TermsOf(a.(tenderGrossPrice := price)) == TermsOf(a)
  {
    hide ParseScaledDecimal;
    var b := a.(tenderGrossPrice := price);
    assert CostsOf(lines, b, scenario) == CostsOf(lines, a, scenario) by {
      LinesIgnorePrice(lines, a, price, scenario);
    }
    TermsIgnorePrice(a, price);
  }

  lemma TermsIgnorePrice(a: Assumptions, price: string)
    ensures TermsOf(a.(tenderGrossPrice := price)) == TermsOf(a)
  {
  }

  lemma GrossOfScaled(a: Assumptions, kopecks: int, scaled: int)
    requires ParseScaledDecimal(a.tenderGrossPrice, SCALE_DIGITS) == Ok(scaled)
    requires scaled * RUBLES_TO_KOPECKS == kopecks * DECIMAL_SCALE
    ensures GrossOf(a) == if kopecks <= 0 then Err(GrossNotPositive) else Ok(kopecks)
  {
    hide ParseScaledDecimal;
    NearestExact(kopecks, DECIMAL_SCALE);
  }

  /** A printed kopeck amount enters the next scenario as that amount: parsing at fifteen digits and
      rounding to kopecks lose nothing. */
  lemma PrintedPriceIsExact(a: Assumptions, kopecks: int)
    requires a.tenderGrossPrice == KopecksToDecimal(kopecks)
    ensures GrossOf(a) == if kopecks <= 0 then Err(GrossNotPositive) else Ok(kopecks)
  {
    hide ParseScaledDecimal;
    ParsePrinted(kopecks, SCALE_DIGITS);
    ScaleIsPower();
    GrossOfScaled(a, kopecks, kopecks * Pow10(13));
  }

  lemma ScaleIsPower()
    ensures Pow10(13) == 10_000_000_000_000
  {
    assert Pow10(3) == 1000;
    Pow10Sum(3, 3);
    Pow10Sum(6, 6);
    Pow10Sum(12, 1);
  }

  /** The distance of the achieved margin from the target, before it is divided by the net price. */
  lemma MarginDrift(full: int, t: Terms, gross: int, net: int, available: int)
    requires full >= 0 && 0 < t.requiredShare <= t.availableShare <= BASIS_POINTS <= t.vatFactor
    requires gross == Nearest(full * t.vatFactor, t.requiredShare)
    requires net == Nearest(gross * BASIS_POINTS, t.vatFactor)
    requires available == Nearest(gross * t.availableShare, t.vatFactor)
    ensures var target := t.availableShare - t.requiredShare;
            -(BASIS_POINTS + t.availableShare)
            <= 2 * ((available - full) * BASIS_POINTS - target * net)
            <= BASIS_POINTS + t.availableShare
  {
    var v, r, s := t.vatFactor, t.requiredShare, t.availableShare;
    RequiredNonNegative(full, t);
    ProductOrder(0, full, 0, v);
    NearestIsNearest(full * v, r);
    ProductOrder(0, gross, 0, s);
    NearestIsNearest(gross * BASIS_POINTS, v);
    NearestIsNearest(gross * s, v);
    // Twice the three rounding errors, each in its own units.
    var e := 2 * (available * v - gross * s);
    var f := 2 * (net * v - gross * BASIS_POINTS);
    var d := 2 * (gross * r - full * v);
    CombineErrors(available, full, net, gross, v, r, s);
    DriftBound(2 * ((available - full) * BASIS_POINTS - (s - r) * net), e, f, d, v, r, s);
  }

  lemma DriftBound(drift: int, e: int, f: int, d: int, v: int, r: int, s: int)
    requires 0 < r <= s <= BASIS_POINTS <= v
    requires -v <= e <= v && -v <= f <= v && -r <= d <= r
    requires drift * v == BASIS_POINTS * e + BASIS_POINTS * d - f * (s - r)
    ensures -(BASIS_POINTS + s) <= drift <= BASIS_POINTS + s
  {
    BoundTimes(f, v, s - r);
    assert BASIS_POINTS * r <= v * r;
    assert v * (s - r) == v * s - v * r;
    assert (BASIS_POINTS + s) * v == BASIS_POINTS * v + v * s;
    CancelFactor(drift, BASIS_POINTS + s, v);
  }

  lemma CombineErrors(available: int, full: int, net: int, gross: int, v: int, r: int, s: int)
    ensures 2 * ((available - full) * BASIS_POINTS - (s - r) * net) * v
            == BASIS_POINTS * (2 * (available * v - gross * s)) + BASIS_POINTS * (2 * (gross * r - full * v))
               - 2 * (net * v - gross * BASIS_POINTS) * (s - r)
  {
    assert ((available - full) * BASIS_POINTS - (s - r) * net) * v
           == BASIS_POINTS * (available * v) - BASIS_POINTS * (full * v) - (net * v) * (s - r);
  }

  lemma CancelFactor(x: int, b: int, v: int)
    requires v > 0 && -(b * v) <= x * v <= b * v
    ensures -b <= x <= b
  {
    if x > b { MultiplesOrder(b, x, v); }
    if x < -b { MultiplesOrder(x, -b, v); }
  }

  /** A drift below half the net price is rounded away. */
  lemma DriftRoundsAway(operating: int, net: int, target: int, bound: int)
    requires 0 <= bound < net && target >= 0
    requires -bound <= 2 * (operating * BASIS_POINTS - target * net) <= bound
    ensures Nearest(operating * BASIS_POINTS, net) == target
  {
    var n := operating * BASIS_POINTS;
    if n < 0 {
      ProductOrder(0, target, 0, net);
      assert target == 0 by { if target > 0 { MultiplesOrder(0, target, net); } }
    }
    NearestUnique(n, net, target);
  }

  /** Twice the error of a rounding, in units of the denominator. */
  function Residue(n: int, d: int): int
    requires d > 0
  {
    2 * (Nearest(n, d) * d - n)
  }

  /** Whether the margin comes back: the residues of the three roundings between cost and margin, weighed
      against the net price they are divided by. All of it is known from the full cost and the terms. */
  predicate MarginReturns(full: int, t: Terms)
    requires t.vatFactor > 0 && t.requiredShare > 0
  {
    var gross := Nearest(full * t.vatFactor, t.requiredShare);
    var net := Nearest(gross * BASIS_POINTS, t.vatFactor);
    var drift := BASIS_POINTS * Residue(gross * t.availableShare, t.vatFactor)
                 + BASIS_POINTS * Residue(full * t.vatFactor, t.requiredShare)
                 - Residue(gross * BASIS_POINTS, t.vatFactor) * (t.availableShare - t.requiredShare);
    -(net * t.vatFactor) <= drift < net * t.vatFactor
  }

  lemma CompareTimes(x: int, y: int, v: int)
    requires v > 0
    ensures x < y <==> x * v < y * v
    ensures x <= y <==> x * v <= y * v
  {
    if x < y { MultiplesOrder(x, y, v); }
    if y < x { MultiplesOrder(y, x, v); }
  }

  /** On target is to be within half a net price of it, for every sign of the operating result. */
  lemma OnTarget(n: int, net: int, target: int)
    requires net > 0 && target >= 0 && (target == 0 ==> n == 0)
    ensures Nearest(n, net) == target <==> -net <= 2 * (n - target * net) < net
  {
    NearestIsNearest(n, net);
    if n < 0 { MultiplesOrder(0, target, net); }
    if IsNearest(n, net, target) { NearestUnique(n, net, target); }
  }

  /** The margin at the required price is the target if and only if the residues say so. */
  lemma MarginExact(full: int, t: Terms, gross: int, net: int, available: int)
    requires full >= 0 && 0 < t.requiredShare <= t.availableShare <= BASIS_POINTS <= t.vatFactor
    requires gross == Nearest(full * t.vatFactor, t.requiredShare)
    requires net == Nearest(gross * BASIS_POINTS, t.vatFactor) > 0
    requires available == Nearest(gross * t.availableShare, t.vatFactor)
    ensures Nearest((available - full) * BASIS_POINTS, net) == t.availableShare - t.requiredShare <==> MarginReturns(full, t)
  {
    var v, r, s := t.vatFactor, t.requiredShare, t.availableShare;
    var n, drift := (available - full) * BASIS_POINTS, 2 * ((available - full) * BASIS_POINTS - (s - r) * net);
    StretchAndShrink(full, v, r);
    assert s == r ==> n == 0;
    var residues := BASIS_POINTS * Residue(gross * s, v) + BASIS_POINTS * Residue(full * v, r)
                    - Residue(gross * BASIS_POINTS, v) * (s - r);
    assert drift * v == residues by { CombineErrors(available, full, net, gross, v, r, s); }
    assert MarginReturns(full, t) <==> -(net * v) <= residues < net * v by { hide Nearest, Residue; }
    hide Nearest, MarginReturns, Residue;
    OnTarget(n, net, s - r);
    CompareTimes(-net, drift, v);
    CompareTimes(drift, net, v);
    NegateProduct(net, v);
  }

  /** The figures of a scenario priced at its own required price. */
  ghost predicate MeetsTarget(r: ScenarioResult, t: Terms)
    requires t.vatFactor > 0 && t.requiredShare > 0
  {
    var target := t.availableShare - t.requiredShare;
    && r.priceGapKopecks == 0
    && r.verdict == PROFIT
    && -(BASIS_POINTS + t.availableShare)
       <= 2 * (r.operatingResultKopecks * BASIS_POINTS - target * r.tenderNetKopecks)
       <= BASIS_POINTS + t.availableShare
    && (r.marginBps == target <==> MarginReturns(r.fullCostKopecks, t))
    && (r.tenderNetKopecks > BASIS_POINTS + t.availableShare ==> r.marginBps == target)
    && (target == 0 ==> r.operatingResultKopecks == 0)
  }

  /** The required price at work. Re-running a scenario with the printed required price and all else
      unchanged fails only when there is no cost to cover; otherwise no gap is left, the verdict is
      PROFIT, and the margin misses its target by at most the stated drift. It hits the target exactly
      when the residues of the roundings allow it, and always once the net price exceeds 10000 kopecks
      plus the available share. */
  lemma RequiredPriceInverts(lines: seq<LineInput>, a: Assumptions, scenario: QuantityScenario)
    requires CalculateScenario(lines, a, scenario).Ok?
    ensures var r := CalculateScenario(lines, a, scenario).value;
            var b := a.(tenderGrossPrice := KopecksToDecimal(r.requiredGrossKopecks));
            var again := CalculateScenario(lines, b, scenario);
            if r.fullCostKopecks == 0 then again == Err(GrossNotPositive)
            else again.Ok? && TermsOf(a).Ok? && TermsOf(a).value.vatFactor > 0 && TermsOf(a).value.requiredShare > 0
                 && MeetsTarget(again.value, TermsOf(a).value)
                 && again.value.tenderGrossKopecks == r.requiredGrossKopecks
                 && again.value.fullCostKopecks == r.fullCostKopecks
  {
    hide ParseScaledDecimal, MeetsTarget;
    var r := CalculateScenario(lines, a, scenario).value;
    var b := a.(tenderGrossPrice := KopecksToDecimal(r.requiredGrossKopecks));
    ScenarioFigures(lines, a, scenario);
    var t := TermsOf(a).value;
    PriceEntersNeither(lines, a, b.tenderGrossPrice, scenario);
    PrintedPriceIsExact(b, r.requiredGrossKopecks);
    ScenarioOutcome(lines, b, scenario);
    if r.fullCostKopecks == 0 {
      NearestExact(0, t.requiredShare);
    } else {
      RequiredReachesNet(r.fullCostKopecks, t);
      RerunFigures(lines, b, scenario);
    }
  }

  /** The required price of a positive cost is at least the cost, so it never nets to zero. */
  lemma RequiredReachesNet(full: int, t: Terms)
    requires full > 0 && 0 < t.requiredShare <= BASIS_POINTS <= t.vatFactor
    ensures var gross := Nearest(full * t.vatFactor, t.requiredShare);
            gross > 0 && 2 * gross * BASIS_POINTS >= t.vatFactor
  {
    var v, r := t.vatFactor, t.requiredShare;
    ProductOrder(1, full, v, v);
    NearestIsNearest(full * v, r);
    var gross := Nearest(full * v, r);
    assert 2 * (gross * r) >= 2 * (full * v) - r >= 2 * v - r >= v;
    assert gross > 0 by { if gross <= 0 { MultiplesOrder(gross - 1, 0, r); } }
    ProductOrder(gross, gross, r, BASIS_POINTS);
  }

  lemma RerunFigures(lines: seq<LineInput>, b: Assumptions, scenario: QuantityScenario)
    requires CalculateScenario(lines, b, scenario).Ok?
    requires CalculateScenario(lines, b, scenario).value.priceGapKopecks == 0
    ensures TermsOf(b).Ok? && TermsOf(b).value.vatFactor > 0 && TermsOf(b).value.requiredShare > 0
    ensures MeetsTarget(CalculateScenario(lines, b, scenario).value, TermsOf(b).value)
  {
    hide ParseScaledDecimal, MarginReturns;
    ScenarioFigures(lines, b, scenario);
    NoGapMeansProfit(lines, b, scenario);
    var r, t := CalculateScenario(lines, b, scenario).value, TermsOf(b).value;
    MarginDrift(r.fullCostKopecks, t, r.tenderGrossKopecks, r.tenderNetKopecks, r.availableAfterTermsKopecks);
    MarginExact(r.fullCostKopecks, t, r.tenderGrossKopecks, r.tenderNetKopecks, r.availableAfterTermsKopecks);
    StretchAndShrink(r.fullCostKopecks, t.vatFactor, t.requiredShare);
    if r.tenderNetKopecks > BASIS_POINTS + t.availableShare {
      DriftRoundsAway(r.operatingResultKopecks, r.tenderNetKopecks, t.availableShare - t.requiredShare,
                      BASIS_POINTS + t.availableShare);
    }
  }

  // ----- scenarios that miss their target -----

  const ZERO := Finite(0.0)

  /** One line at one ruble from every source, in the quantity that makes it cost the given kopecks. */
  function UnitLine(cost: nat): LineInput {
    var quantity, ruble := KopecksToDecimal(cost), KopecksToDecimal(100);
    LineInput("line", quantity, quantity, ruble, ruble, ruble, ZERO)
  }

  /** No VAT, overhead, reserve or financing; prices from the tender alone. */
  function UnitTerms(fee: nat, target: nat, price: nat): Assumptions {
    Assumptions(KopecksToDecimal(price), ZERO, Finite(fee as real), ZERO, ZERO, Finite(target as real), ZERO,
                Finite(10_000.0), ZERO, ZERO)
  }

  lemma UnitLineCost(cost: nat, a: Assumptions, scenario: QuantityScenario)
    requires a == UnitTerms(0, 0, 0).(tenderGrossPrice := a.tenderGrossPrice, customerFeeBps := a.customerFeeBps,
                                      targetMarginBps := a.targetMarginBps)
    ensures CalculateLine(UnitLine(cost), a, scenario).Ok?
    ensures CalculateLine(UnitLine(cost), a, scenario).value.directCostKopecks == cost
  {
    hide ParseScaledDecimal, KopecksToDecimal, CalculateLine, Nearest;
    LineFigures(UnitLine(cost), a, scenario);
    UnitOperands(cost, scenario);
    UnitWeights(a);
    NearestExact(1, PRICE_UNITS);
    NearestExact(cost, DECIMAL_SCALE);
  }

  lemma UnitOperands(cost: nat, scenario: QuantityScenario)
    ensures OperandsOf(UnitLine(cost), scenario) == Operands(DECIMAL_SCALE, DECIMAL_SCALE, DECIMAL_SCALE, 0, cost * Pow10(13))
    ensures Reads(UnitLine(cost).tenderUnitPrice) && Reads(UnitLine(cost).quantityBoq) && Pow10(13) * 100 == DECIMAL_SCALE
  {
    hide ParseScaledDecimal, KopecksToDecimal;
    ParsePrinted(cost, SCALE_DIGITS);
    ParsePrinted(100, SCALE_DIGITS);
    ScaleIsPower();
    WholeBasisPoints(0);
  }

  lemma UnitWeights(a: Assumptions)
    requires a.tenderWeightBps == Finite(10_000.0) && a.fgisWeightBps == ZERO && a.marketWeightBps == ZERO
    ensures WeightsOf(a) == Weights(10_000, 0, 0) && AssertBasisPoints(a.tenderWeightBps).Ok? && AssertBasisPoints(ZERO).Ok?
  {
    WholeBasisPoints(10_000);
    WholeBasisPoints(0);
  }

  lemma UnitCosts(cost: nat, a: Assumptions, scenario: QuantityScenario)
    requires a == UnitTerms(0, 0, 0).(tenderGrossPrice := a.tenderGrossPrice, customerFeeBps := a.customerFeeBps,
                                      targetMarginBps := a.targetMarginBps)
    ensures CostsOf([UnitLine(cost)], a, scenario).Ok?
    ensures CostsOf([UnitLine(cost)], a, scenario).value.fullCostKopecks == cost
  {
    hide ParseScaledDecimal, KopecksToDecimal, UnitLine;
    UnitLineCost(cost, a, scenario);
    var lines := [UnitLine(cost)];
    assert CalculateLines(lines[1..], a, scenario) == Ok([]);
    var results := CalculateLines(lines, a, scenario).value;
    assert SumDirect(results[..0]) == 0;
    assert SumDirect(results) == cost;
    NearestExact(cost, BASIS_POINTS * BASIS_POINTS);
  }

  /** The figures of the one-line scenario at a given price. */
  lemma UnitScenario(cost: nat, fee: nat, target: nat, price: nat, scenario: QuantityScenario)
    requires price > 0 && fee + target < 10_000
    ensures var r := CalculateScenario([UnitLine(cost)], UnitTerms(fee, target, price), scenario);
            && r.Ok? && r.value.fullCostKopecks == cost && r.value.tenderGrossKopecks == price
            && Figures(r.value, CostsOf([UnitLine(cost)], UnitTerms(fee, target, price), scenario).value, price,
                       Terms(10_000, 10_000 - fee, 10_000 - fee - target))
  {
    var a := UnitTerms(fee, target, price);
    assert TermsOf(a) == Ok(Terms(10_000, 10_000 - fee, 10_000 - fee - target)) by { hide KopecksToDecimal; }
    UnitCosts(cost, a, scenario);
    PrintedPriceIsExact(a, price);
    hide ParseScaledDecimal, KopecksToDecimal, UnitLine, Figures;
    ScenarioOutcome([UnitLine(cost)], a, scenario);
    hide CostsOf, GrossOf, TermsOf, CalculateScenario;
    assert CostsOf([UnitLine(cost)], a, scenario).value.fullCostKopecks == cost;
    UnitFull([UnitLine(cost)], a, scenario);
  }

  lemma UnitFull(lines: seq<LineInput>, a: Assumptions, scenario: QuantityScenario)
    requires CalculateScenario(lines, a, scenario).Ok?
    ensures CostsOf(lines, a, scenario).Ok?
    ensures CalculateScenario(lines, a, scenario).value.fullCostKopecks == CostsOf(lines, a, scenario).value.fullCostKopecks
    ensures GrossOf(a).Ok? && CalculateScenario(lines, a, scenario).value.tenderGrossKopecks == GrossOf(a).value
  {
    hide ParseScaledDecimal;
  }

  /** The margin does not always come back: a line that costs 0.85 rubles, with a fee of 98.71% and a target of
      0.43%, has a required price of 98.84 rubles, at which the margin is 0.44%. The net price, 9884 kopecks, is
      just below the 10129 from which on it would have to. */
  lemma SmallPriceMissesTarget(scenario: QuantityScenario)
    ensures var a := UnitTerms(9_871, 43, 9_884);
            var r := CalculateScenario([UnitLine(85)], a, scenario);
            && r.Ok? && r.value.requiredGrossKopecks == 9_884 && r.value.priceGapKopecks == 0
            && r.value.tenderNetKopecks == 9_884 && r.value.marginBps == 44
            && !MarginReturns(85, Terms(10_000, 129, 86))
  {
    hide CalculateScenario, UnitTerms, UnitLine, CostsOf;
    UnitScenario(85, 9_871, 43, 9_884, scenario);
  }

  /** Nor does it come back at an ordinary fee: a cost of 147.71 rubles, 9.05% and a target of 2.63% give 2.62%. */
  lemma OrdinaryTermsMissTarget(scenario: QuantityScenario)
    ensures var a := UnitTerms(905, 263, 16_724);
            var r := CalculateScenario([UnitLine(14_771)], a, scenario);
            && r.Ok? && r.value.requiredGrossKopecks == 16_724 && r.value.priceGapKopecks == 0
            && r.value.marginBps == 262 && !MarginReturns(14_771, Terms(10_000, 9_095, 8_832))
  {
    hide CalculateScenario, UnitTerms, UnitLine, CostsOf;
    UnitScenario(14_771, 905, 263, 16_724, scenario);
  }
}
