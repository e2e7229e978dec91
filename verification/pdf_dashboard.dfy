/** The per-share scenario outcome of components/PdfDashboard.tsx: total
    duration and buyer cost, one `calcScenario` formula run for the pessimistic,
    realistic and optimistic market growth, and the split of the gross area into
    sellable and common space.

    `Math.pow` is called there with fractional exponents (years, and 1 / years),
    which exact arithmetic cannot express; it is a parameter `pow` of the model,
    and the lemmas that need its properties ask for exactly those. */
module PdfDashboard {
  import opened Numeric
  import opened Project

  /** The fields of the project inputs the summary reads. */
  datatype SummaryInputs = SummaryInputs(
    constructionPhases: seq<ConstructionPhase>,
    installments: seq<Installment>,
    marketPricePerMeter: real,
    unitShareSize: real,
    salesCommissionPercentage: real,
    pessimisticMarketGrowth: real,
    optimisticMarketGrowth: real,
    grossTotalArea: real,
    netResidentialArea: real,
    netCommercialArea: real)

  /** The record `calcScenario` returns. Its `futureValueShare` field holds the
      share value after the sales commission, not before. */
  datatype ScenarioResult = ScenarioResult(
    totalCostToBuyer: real,
    futureValueShare: real,
    buyerProfit: real,
    annualRoi: real)

  /** The project length in years: the summed phase durations over 12. */
  function Years(phases: seq<ConstructionPhase>): (y: real)
    ensures y * 12.0 == TotalDuration(phases)
  {
    TotalDuration(phases) / 12.0
  }

  /** The share's market value at delivery, before commission: the price per
      metre compounded at `growth` percent a year over the project's years,
      times the share size. */
  function ShareValue(inp: SummaryInputs, growth: real, pow: (real, real) -> real): real {
    inp.marketPricePerMeter * pow(1.0 + growth / 100.0, Years(inp.constructionPhases)) * inp.unitShareSize
  }

  /** A value less the sales commission. */
  function AfterCommission(value: real, commissionPercentage: real): (r: real)
    ensures value - r == value * (commissionPercentage / 100.0)
  {
    value * (1.0 - commissionPercentage / 100.0)
  }

  /** The total return in percent, guarded against a zero (or negative) cost;
      a loss gives a negative return, it is not clamped. */
  function TotalRoi(profit: real, cost: real): (r: real)
    ensures cost <= 0.0 ==> r == 0.0
    ensures cost > 0.0 ==> (r > 0.0 <==> profit > 0.0) && (r < 0.0 <==> profit < 0.0)
    ensures cost > 0.0 ==> r * cost == profit * 100.0
  {
    if cost > 0.0 then (profit / cost) * 100.0 else 0.0
  }

  /** The compound annual return for a total return over `years`, guarded
      against a project of no length. */
  function AnnualRoi(years: real, totalRoi: real, pow: (real, real) -> real): (r: real)
    ensures years <= 0.0 ==> r == 0.0
    ensures years > 0.0 ==> 1.0 + r / 100.0 == pow(1.0 + totalRoi / 100.0, 1.0 / years)
  {
    if years > 0.0 then (pow(1.0 + totalRoi / 100.0, 1.0 / years) - 1.0) * 100.0 else 0.0
  }

  /** `calcScenario(growth)`: one formula for every scenario, the growth rate
      being its only varying input. The buyer pays the installments, sells at
      the grown value less commission, and the annual return is the compound
      yearly rate that turns the first into the second; a project of no length
      has no annual return, and with nothing paid the total return is taken as
      0, so the yearly factor is a root of 1. */
  function CalcScenario(inp: SummaryInputs, growth: real, pow: (real, real) -> real): (r: ScenarioResult)
    ensures r.totalCostToBuyer == TotalInstallments(inp.installments)
    ensures var value := ShareValue(inp, growth, pow);
            value - r.futureValueShare == value * (inp.salesCommissionPercentage / 100.0)
    ensures r.buyerProfit + r.totalCostToBuyer == r.futureValueShare
    ensures Years(inp.constructionPhases) <= 0.0 ==> r.annualRoi == 0.0
    ensures r.totalCostToBuyer > 0.0 && Years(inp.constructionPhases) > 0.0 ==>
      1.0 + r.annualRoi / 100.0 == pow(r.futureValueShare / r.totalCostToBuyer, 1.0 / Years(inp.constructionPhases))
    ensures r.totalCostToBuyer <= 0.0 && Years(inp.constructionPhases) > 0.0 ==>
      1.0 + r.annualRoi / 100.0 == pow(1.0, 1.0 / Years(inp.constructionPhases))
  {
    var totalCostToBuyer := TotalInstallments(inp.installments);
    var afterCommission := AfterCommission(ShareValue(inp, growth, pow), inp.salesCommissionPercentage);
    var buyerProfit := afterCommission - totalCostToBuyer;
    var totalRoi := TotalRoi(buyerProfit, totalCostToBuyer);
    var annualRoi := AnnualRoi(Years(inp.constructionPhases), totalRoi, pow);
    assert totalCostToBuyer > 0.0 ==> 1.0 + totalRoi / 100.0 == afterCommission / totalCostToBuyer by {
      if totalCostToBuyer > 0.0 {
        GrowthFactorOfReturn(buyerProfit, totalCostToBuyer);
      }
    }
    ScenarioResult(totalCostToBuyer, afterCommission, buyerProfit, annualRoi)
  }

  /** One plus the total return is the ratio of what is got back to what was
      paid. */
  lemma GrowthFactorOfReturn(profit: real, cost: real)
    requires cost > 0.0
    ensures 1.0 + TotalRoi(profit, cost) / 100.0 == (profit + cost) / cost
  {
    var roi := TotalRoi(profit, cost);
    var base := 1.0 + roi / 100.0;
    assert roi * cost == profit * 100.0;
    assert base * cost == cost + roi * cost / 100.0;
    QuotientOfProduct(base, profit + cost, cost);
  }

  /** A number times a positive one is a product only that number gives: it is
      the quotient. */
  lemma QuotientOfProduct(y: real, z: real, c: real)
    requires c > 0.0 && y * c == z
    ensures y == z / c
  {
    var q := z / c;
    assert q * c == z;
    assert (y - q) * c == 0.0;
    if y < q {
      NegativeTimesPositive(y - q, c);
    } else if y > q {
      NegativeTimesPositive(q - y, c);
    }
  }

  /** The realistic growth rate: the mean of the pessimistic and optimistic ones. */
  function RealisticGrowth(pessimistic: real, optimistic: real): (g: real)
    ensures g - pessimistic == optimistic - g
    ensures Min(pessimistic, optimistic) <= g <= Max(pessimistic, optimistic)
  {
    (pessimistic + optimistic) / 2.0
  }

  datatype Scenarios = Scenarios(pessimistic: ScenarioResult, realistic: ScenarioResult, optimistic: ScenarioResult)

  /** The three scenarios of the summary. */
  function AllScenarios(inp: SummaryInputs, pow: (real, real) -> real): (s: Scenarios)
    ensures s.pessimistic == CalcScenario(inp, inp.pessimisticMarketGrowth, pow)
    ensures s.realistic == CalcScenario(inp, RealisticGrowth(inp.pessimisticMarketGrowth, inp.optimisticMarketGrowth), pow)
    ensures s.optimistic == CalcScenario(inp, inp.optimisticMarketGrowth, pow)
  {
    Scenarios(
      CalcScenario(inp, inp.pessimisticMarketGrowth, pow),
      CalcScenario(inp, RealisticGrowth(inp.pessimisticMarketGrowth, inp.optimisticMarketGrowth), pow),
      CalcScenario(inp, inp.optimisticMarketGrowth, pow))
  }

  /** The buyer's cost is the same contractual sum in every scenario, whatever
      the growth rate and whatever `Math.pow` returns. */
  lemma CostToBuyerIndependentOfGrowth(inp: SummaryInputs, pow: (real, real) -> real)
    ensures var s := AllScenarios(inp, pow);
            && s.pessimistic.totalCostToBuyer == TotalInstallments(inp.installments)
            && s.realistic.totalCostToBuyer == TotalInstallments(inp.installments)
            && s.optimistic.totalCostToBuyer == TotalInstallments(inp.installments)
  {
  }

  /** A project of no length has an annual return of 0 in every scenario. */
  lemma NoDurationNoAnnualReturn(inp: SummaryInputs, growth: real, pow: (real, real) -> real)
    requires TotalDuration(inp.constructionPhases) <= 0.0
    ensures CalcScenario(inp, growth, pow).annualRoi == 0.0
  {
  }

  /** With a positive cost, one plus the total return is the ratio of the
      after-commission value to the cost; so the base the annual return takes
      a root of is non-negative whenever that value is. */
  lemma AnnualisationBase(inp: SummaryInputs, growth: real, pow: (real, real) -> real)
    requires TotalInstallments(inp.installments) > 0.0
    ensures var r := CalcScenario(inp, growth, pow);
            var base := 1.0 + TotalRoi(r.buyerProfit, r.totalCostToBuyer) / 100.0;
            && base * r.totalCostToBuyer == r.futureValueShare
            && (r.futureValueShare >= 0.0 ==> base >= 0.0)
  {
    var r := CalcScenario(inp, growth, pow);
    var cost := r.totalCostToBuyer;
    var roi := TotalRoi(r.buyerProfit, cost);
    var base := 1.0 + roi / 100.0;
    assert roi * cost == r.buyerProfit * 100.0;
    assert base * cost == cost + roi * cost / 100.0;
    assert base * cost == r.futureValueShare;
    if base < 0.0 {
      NegativeTimesPositive(base, cost);
    }
  }

  /** A negative number times a positive one is negative. */
  lemma NegativeTimesPositive(a: real, c: real)
    requires a < 0.0 && c > 0.0
    ensures a * c < 0.0
  {
    var b := -a;
    assert b * c > 0.0;
  }

  /** A commission between 0% and 100% keeps a non-negative value non-negative
      and never raises it. */
  lemma CommissionWithinValue(value: real, commissionPercentage: real)
    requires 0.0 <= commissionPercentage <= 100.0 && value >= 0.0
    ensures 0.0 <= AfterCommission(value, commissionPercentage) <= value
  {
    MulMonotone(value, 1.0 - commissionPercentage / 100.0, value, 1.0);
  }

  /** What `Math.pow` is relied on for: a fixed non-negative power of a
      positive base is positive and grows with the base. */
  ghost predicate PowIncreasing(pow: (real, real) -> real, exponent: real) {
    forall a, b :: 0.0 < a <= b ==> 0.0 < pow(a, exponent) <= pow(b, exponent)
  }

  /** More growth never lowers the after-commission value of a share. */
  lemma MoreGrowthMoreValue(inp: SummaryInputs, g1: real, g2: real, pow: (real, real) -> real)
    requires PowIncreasing(pow, Years(inp.constructionPhases))
    requires -100.0 < g1 <= g2
    requires inp.marketPricePerMeter >= 0.0 && inp.unitShareSize >= 0.0
    requires inp.salesCommissionPercentage <= 100.0
    ensures CalcScenario(inp, g1, pow).futureValueShare <= CalcScenario(inp, g2, pow).futureValueShare
  {
    ShareValueMonotone(inp, g1, g2, pow);
    var v1, v2 := ShareValue(inp, g1, pow), ShareValue(inp, g2, pow);
    var keep := 1.0 - inp.salesCommissionPercentage / 100.0;
    MulMonotone(v1, keep, v2, keep);
    assert AfterCommission(v1, inp.salesCommissionPercentage) == v1 * keep;
    assert AfterCommission(v2, inp.salesCommissionPercentage) == v2 * keep;
    assert CalcScenario(inp, g1, pow).futureValueShare == v1 * keep;
    assert CalcScenario(inp, g2, pow).futureValueShare == v2 * keep;
  }

  /** The share value before commission grows with the growth rate. */
  lemma ShareValueMonotone(inp: SummaryInputs, g1: real, g2: real, pow: (real, real) -> real)
    requires PowIncreasing(pow, Years(inp.constructionPhases))
    requires -100.0 < g1 <= g2
    requires inp.marketPricePerMeter >= 0.0 && inp.unitShareSize >= 0.0
    ensures 0.0 <= ShareValue(inp, g1, pow) <= ShareValue(inp, g2, pow)
  {
    var y := Years(inp.constructionPhases);
    var b1, b2 := 1.0 + g1 / 100.0, 1.0 + g2 / 100.0;
    assert 0.0 < b1 <= b2;
    var f1, f2 := pow(b1, y), pow(b2, y);
    assert 0.0 < f1 <= f2;
    MulMonotone(inp.marketPricePerMeter, f1, inp.marketPricePerMeter, f2);
    var v1, v2 := inp.marketPricePerMeter * f1, inp.marketPricePerMeter * f2;
    MulMonotone(v1, inp.unitShareSize, v2, inp.unitShareSize);
  }

  /** With pessimistic growth at most the optimistic one, the realistic
      scenario's value lies between the other two. */
  lemma ScenariosOrdered(inp: SummaryInputs, pow: (real, real) -> real)
    requires PowIncreasing(pow, Years(inp.constructionPhases))
    requires -100.0 < inp.pessimisticMarketGrowth <= inp.optimisticMarketGrowth
    requires inp.marketPricePerMeter >= 0.0 && inp.unitShareSize >= 0.0
    requires inp.salesCommissionPercentage <= 100.0
    ensures var s := AllScenarios(inp, pow);
            s.pessimistic.futureValueShare <= s.realistic.futureValueShare <= s.optimistic.futureValueShare
  {
    var g := RealisticGrowth(inp.pessimisticMarketGrowth, inp.optimisticMarketGrowth);
    MoreGrowthMoreValue(inp, inp.pessimisticMarketGrowth, g, pow);
    MoreGrowthMoreValue(inp, g, inp.optimisticMarketGrowth, pow);
  }

  /** The gross area split into sellable (residential plus commercial) and
      common/service space, with the common share in percent shown only for a
      positive gross area. */
  datatype AreaSplit = AreaSplit(netSellableArea: real, commonAndServiceArea: real, commonSharePercent: Option<real>)

  function SplitArea(inp: SummaryInputs): (r: AreaSplit)
    ensures r.netSellableArea == inp.netResidentialArea + inp.netCommercialArea
    ensures r.netSellableArea + r.commonAndServiceArea == inp.grossTotalArea
    ensures r.commonSharePercent.Some? <==> inp.grossTotalArea > 0.0
    ensures r.commonSharePercent.Some? ==> r.commonSharePercent.value * inp.grossTotalArea == r.commonAndServiceArea * 100.0
  {
    var netSellable := inp.netResidentialArea + inp.netCommercialArea;
    var common := inp.grossTotalArea - netSellable;
    AreaSplit(netSellable, common, if inp.grossTotalArea > 0.0 then Some((common / inp.grossTotalArea) * 100.0) else None)
  }

  /** A worked case: installments of 680, 250, 250, 200 and 150 million, phases
      of 9, 12, 12 and 9 months, 250 million per metre, 10-metre shares, 3%
      commission and the realistic rate between 25% and 45%. The buyer pays 1.53
      billion over 3.5 years and keeps 97% of 2.5 billion compounded at 35%. */
  lemma WorkedScenario(pow: (real, real) -> real)
    ensures var phases := [ConstructionPhase(1, "", 9.0, 0.0), ConstructionPhase(2, "", 12.0, 0.0),
                           ConstructionPhase(3, "", 12.0, 0.0), ConstructionPhase(4, "", 9.0, 0.0)];
            var installments := [Installment(1, "", 680_000_000.0, 0.0), Installment(2, "", 250_000_000.0, 6.0),
                                 Installment(3, "", 250_000_000.0, 12.0), Installment(4, "", 200_000_000.0, 24.0),
                                 Installment(5, "", 150_000_000.0, 36.0)];
            var inp := SummaryInputs(phases, installments, 250_000_000.0, 10.0, 3.0, 25.0, 45.0, 0.0, 0.0, 0.0);
            var r := AllScenarios(inp, pow).realistic;
            && Years(phases) == 3.5
            && r.totalCostToBuyer == 1_530_000_000.0
            && r.buyerProfit == 250_000_000.0 * pow(1.35, 3.5) * 10.0 * 0.97 - 1_530_000_000.0
  {
    var phases := [ConstructionPhase(1, "", 9.0, 0.0), ConstructionPhase(2, "", 12.0, 0.0),
                   ConstructionPhase(3, "", 12.0, 0.0), ConstructionPhase(4, "", 9.0, 0.0)];
    var installments := [Installment(1, "", 680_000_000.0, 0.0), Installment(2, "", 250_000_000.0, 6.0),
                         Installment(3, "", 250_000_000.0, 12.0), Installment(4, "", 200_000_000.0, 24.0),
                         Installment(5, "", 150_000_000.0, 36.0)];
    assert Durations(phases) == [9.0, 12.0, 12.0, 9.0];
    assert Amounts(installments) == [680_000_000.0, 250_000_000.0, 250_000_000.0, 200_000_000.0, 150_000_000.0];
    SumOfFour(9.0, 12.0, 12.0, 9.0);
    SumOfFive(680_000_000.0, 250_000_000.0, 250_000_000.0, 200_000_000.0, 150_000_000.0);
  }

  lemma SumOfFour(a: real, b: real, c: real, d: real)
    ensures Sum([a, b, c, d]) == a + b + c + d
  {
    assert [a, b, c, d][..3] == [a, b, c];
    assert [a, b, c][..2] == [a, b];
    assert [a, b][..1] == [a];
    assert [a][..0] == [];
    assert Sum([a]) == a;
    assert Sum([a, b]) == a + b;
    assert Sum([a, b, c]) == a + b + c;
  }

  lemma SumOfFive(a: real, b: real, c: real, d: real, e: real)
    ensures Sum([a, b, c, d, e]) == a + b + c + d + e
  {
    assert [a, b, c, d, e][..4] == [a, b, c, d];
    SumOfFour(a, b, c, d);
  }
}
