/** The data series of components/Charts.tsx (not their drawing):
    - `ProfitChart`: every six months from 0 to 42, the cumulative cost paid so
      far and the projected value of the project under the pessimistic,
      realistic and optimistic monthly growth, compounded with a whole-number
      exponent;
    - `LandUseChart`: the three slices of the land-use pie;
    - `CashFlowChart`: one entry per month from 0 to the project duration, with
      the money collected and spent in it.
    Amounts are plotted in billions, so every plotted value is divided by 10^9. */
module Charts {
  import opened Numeric
  import opened Utils

  /** The fields of the flat input record the charts read; `additionalFee` is
      optional there. */
  datatype ChartInputs = ChartInputs(
    totalArea: real,
    commercialArea: real,
    unitSharePrice: real,
    constructionCostPerMeter: real,
    durationMonths: real,
    pessimisticGrowth: real,
    optimisticGrowth: real,
    additionalFee: Option<real>)

  /** The plotting unit: one billion. */
  const Billion: real := 1_000_000_000.0

  /** The land cost of the project: one share per 10 square metres, at the
      share price. */
  function TotalLandCost(inp: ChartInputs): real {
    inp.totalArea / 10.0 * inp.unitSharePrice
  }

  function TotalConstructionCost(inp: ChartInputs): real {
    inp.totalArea * inp.constructionCostPerMeter
  }

  /** Non-negative areas and prices give non-negative project costs. */
  lemma CostsNonNegative(inp: ChartInputs)
    requires inp.totalArea >= 0.0 && inp.unitSharePrice >= 0.0 && inp.constructionCostPerMeter >= 0.0
    ensures TotalLandCost(inp) >= 0.0 && TotalConstructionCost(inp) >= 0.0
  {
    MulMonotone(0.0, 0.0, inp.totalArea / 10.0, inp.unitSharePrice);
    MulMonotone(0.0, 0.0, inp.totalArea, inp.constructionCostPerMeter);
  }

  // ---------------------------------------------------------------------------
  // ProfitChart

  /** One sample of the profit chart. */
  datatype ProfitPoint = ProfitPoint(
    month: string,
    investment: real,
    realistic: real,
    optimistic: real,
    pessimistic: real)

  /** The x-axis label of a month: the word for month, a space, and the month
      number in Persian digits. */
  function MonthLabel(month: nat): string {
    "\U{0645}\U{0627}\U{0647} " + ToPersianDigits(NatToString(month))
  }

  /** A month label reads back as its month: after the four-character prefix,
      mapping the digits back to ASCII gives the month's decimal rendering. */
  lemma MonthLabelReadsBack(month: nat)
    ensures var text := MonthLabel(month);
            && |text| > 4 && text[..4] == "\U{0645}\U{0627}\U{0647} "
            && ToAsciiDigits(text[4..]) == NatToString(month)
            && ParseDigits(ToAsciiDigits(text[4..])) == month
  {
    var digits := NatToString(month);
    assert NoPersianDigits(digits) by {
      assert forall i :: 0 <= i < |digits| ==> IsAsciiDigit(digits[i]);
    }
    ToPersianDigitsRoundTrip(digits);
    ParseNatToString(month);
    var text := MonthLabel(month);
    assert text[4..] == ToPersianDigits(digits);
  }

  /** The cost paid in the six months ending at `month`: half the land cost as
      the down payment at month 0, a quarter of it at each of months 6 and 12,
      and a fifth of the construction cost at every later sample. */
  function CostChunk(month: nat, land: real, construction: real): (c: real)
    ensures land >= 0.0 && construction >= 0.0 ==> c >= 0.0
  {
    if month == 0 then land * 0.5
    else if month <= 12 then (land * 0.5) / 2.0
    else (construction / 30.0) * 6.0
  }

  /** The cost paid up to and including the `k`-th sample (month 6k). */
  function CumulativeCost(k: nat, land: real, construction: real): real {
    var chunk := CostChunk(6 * k, land, construction);
    if k == 0 then chunk else CumulativeCost(k - 1, land, construction) + chunk
  }

  /** The cumulative cost in closed form: half the land cost at month 0, three
      quarters at month 6, all of it at month 12, and from there one fifth of the
      construction cost more at every sample. */
  lemma {:induction false} CumulativeCostClosedForm(k: nat, land: real, construction: real)
    ensures k == 0 ==> CumulativeCost(k, land, construction) == land / 2.0
    ensures k == 1 ==> CumulativeCost(k, land, construction) == land * 3.0 / 4.0
    ensures k >= 2 ==> CumulativeCost(k, land, construction) == land + (k - 2) as real * (construction / 5.0)
  {
    if k >= 3 {
      CumulativeCostClosedForm(k - 1, land, construction);
      assert (k - 2) as real * (construction / 5.0) == (k - 3) as real * (construction / 5.0) + construction / 5.0;
    } else if k > 0 {
      CumulativeCostClosedForm(k - 1, land, construction);
    }
  }

  /** By month 42 the whole land cost and the whole construction cost are paid. */
  lemma CumulativeCostAtEnd(land: real, construction: real)
    ensures CumulativeCost(7, land, construction) == land + construction
  {
    CumulativeCostClosedForm(7, land, construction);
  }

  /** With non-negative costs the cumulative cost never falls. */
  lemma CumulativeCostNonDecreasing(k: nat, land: real, construction: real)
    requires land >= 0.0 && construction >= 0.0
    ensures 0.0 <= CumulativeCost(k, land, construction) <= CumulativeCost(k + 1, land, construction)
  {
    CumulativeCostClosedForm(k, land, construction);
    CumulativeCostClosedForm(k + 1, land, construction);
    if k >= 2 {
      MulMonotone(0.0, 0.0, (k - 2) as real, construction / 5.0);
    }
  }

  /** The value the scenarios compound from at `month`: the larger of the
      cumulative cost plus 10% and the project's base value plus 15% spread
      linearly over 42 months. */
  function CurrentBaseValue(inp: ChartInputs, month: nat, cumulativeCost: real): (v: real)
    ensures v >= cumulativeCost * 1.1
    ensures v >= (TotalLandCost(inp) + TotalConstructionCost(inp)) * 1.15 * (month as real / 42.0)
    ensures v == cumulativeCost * 1.1
         || v == (TotalLandCost(inp) + TotalConstructionCost(inp)) * 1.15 * (month as real / 42.0)
  {
    var baseValue := TotalLandCost(inp) + TotalConstructionCost(inp);
    var startVal := baseValue * 1.15;
    Max(cumulativeCost * 1.1, startVal * (month as real / 42.0))
  }

  /** The monthly growth rates: the yearly percentages over 1200, the realistic
      one from the mean of the two. */
  function MonthlyPessimisticRate(inp: ChartInputs): real {
    (inp.pessimisticGrowth / 100.0) / 12.0
  }

  function MonthlyRealisticRate(inp: ChartInputs): real {
    ((inp.optimisticGrowth + inp.pessimisticGrowth) / 200.0) / 12.0
  }

  function MonthlyOptimisticRate(inp: ChartInputs): real {
    (inp.optimisticGrowth / 100.0) / 12.0
  }

  /** The point plotted at `month` once `cumulativeCost` has been paid: the
      base value compounded monthly at each scenario's rate, all in billions.
      With a non-negative cost and 0 <= pessimistic <= optimistic growth the
      realistic line lies between the other two, and at month 0 nothing has
      compounded yet, so all three start at the base value. */
  function SamplePoint(inp: ChartInputs, month: nat, cumulativeCost: real): (p: ProfitPoint)
    ensures p.month == MonthLabel(month)
    ensures p.investment * Billion == cumulativeCost
    ensures cumulativeCost >= 0.0 && 0.0 <= inp.pessimisticGrowth <= inp.optimisticGrowth ==>
      p.pessimistic <= p.realistic <= p.optimistic
    ensures month == 0 ==>
      var start := CurrentBaseValue(inp, 0, cumulativeCost) / Billion;
      p.pessimistic == start && p.realistic == start && p.optimistic == start
  {
    var point := ProfitPoint(
      MonthLabel(month),
      cumulativeCost / Billion,
      Projection(inp, month, cumulativeCost, MonthlyRealisticRate(inp)),
      Projection(inp, month, cumulativeCost, MonthlyOptimisticRate(inp)),
      Projection(inp, month, cumulativeCost, MonthlyPessimisticRate(inp)));
    if cumulativeCost >= 0.0 && 0.0 <= inp.pessimisticGrowth <= inp.optimisticGrowth then
      SampleScenariosOrdered(inp, month, cumulativeCost);
      point
    else
      point
  }

  /** A scenario's projected value at `month`, in billions: the current base
      value compounded monthly at `monthlyRate`. */
  function Projection(inp: ChartInputs, month: nat, cumulativeCost: real, monthlyRate: real): real {
    CurrentBaseValue(inp, month, cumulativeCost) * Pow(1.0 + monthlyRate, month) / Billion
  }

  /** The `k`-th sample of the profit chart: month 6k, with the cost paid up to it. */
  function ProfitSample(inp: ChartInputs, k: nat): ProfitPoint {
    SamplePoint(inp, 6 * k, CumulativeCost(k, TotalLandCost(inp), TotalConstructionCost(inp)))
  }

  /** The chart's loop: months 0, 6, ..., 42, whatever the project's duration,
      accumulating the cost chunk by chunk. */
  method ProfitChartData(inp: ChartInputs) returns (data: seq<ProfitPoint>)
    ensures |data| == 8
    ensures forall k :: 0 <= k < |data| ==> data[k] == ProfitSample(inp, k)
  {
    data := [];
    var cumulativeCost := 0.0;
    var land := TotalLandCost(inp);
    var construction := TotalConstructionCost(inp);
    var i := 0;
    while i <= 42
      invariant i == 6 * |data| && |data| <= 8
      invariant forall k :: 0 <= k < |data| ==> data[k] == ProfitSample(inp, k)
      invariant cumulativeCost == if data == [] then 0.0 else CumulativeCost(|data| - 1, land, construction)
    {
      var costChunk := CostChunk(i, land, construction);
      cumulativeCost := cumulativeCost + costChunk;
      data := data + [SamplePoint(inp, i, cumulativeCost)];
      i := i + 6;
    }
  }

  /** The plotted investment line reaches the project's total cost at month 42
      and, with non-negative inputs, never falls. */
  lemma InvestmentSeries(inp: ChartInputs, k: nat)
    requires inp.totalArea >= 0.0 && inp.unitSharePrice >= 0.0 && inp.constructionCostPerMeter >= 0.0
    ensures ProfitSample(inp, 7).investment * Billion == TotalLandCost(inp) + TotalConstructionCost(inp)
    ensures ProfitSample(inp, k).investment <= ProfitSample(inp, k + 1).investment
  {
    CostsNonNegative(inp);
    CumulativeCostAtEnd(TotalLandCost(inp), TotalConstructionCost(inp));
    CumulativeCostNonDecreasing(k, TotalLandCost(inp), TotalConstructionCost(inp));
  }

  /** With a non-negative base and 0 <= pessimistic <= optimistic growth, the
      realistic projection of a sample lies between the other two. */
  lemma SampleScenariosOrdered(inp: ChartInputs, month: nat, cumulativeCost: real)
    requires cumulativeCost >= 0.0
    requires 0.0 <= inp.pessimisticGrowth <= inp.optimisticGrowth
    ensures Projection(inp, month, cumulativeCost, MonthlyPessimisticRate(inp))
         <= Projection(inp, month, cumulativeCost, MonthlyRealisticRate(inp))
         <= Projection(inp, month, cumulativeCost, MonthlyOptimisticRate(inp))
  {
    var lo, mid, hi := MonthlyPessimisticRate(inp), MonthlyRealisticRate(inp), MonthlyOptimisticRate(inp);
    assert 0.0 <= lo <= mid <= hi;
    ProjectionMonotoneInRate(inp, month, cumulativeCost, lo, mid);
    ProjectionMonotoneInRate(inp, month, cumulativeCost, mid, hi);
  }

  /** A higher non-negative monthly rate never projects less. */
  lemma ProjectionMonotoneInRate(inp: ChartInputs, month: nat, cumulativeCost: real, r1: real, r2: real)
    requires cumulativeCost >= 0.0 && 0.0 <= r1 <= r2
    ensures Projection(inp, month, cumulativeCost, r1) <= Projection(inp, month, cumulativeCost, r2)
  {
    CompoundedMonotone(CurrentBaseValue(inp, month, cumulativeCost), 1.0 + r1, 1.0 + r2, month);
  }

  /** Compounding a non-negative value at a higher non-negative factor never
      gives less. */
  lemma CompoundedMonotone(base: real, x: real, y: real, n: nat)
    requires base >= 0.0 && 0.0 <= x <= y
    ensures base * Pow(x, n) / Billion <= base * Pow(y, n) / Billion
  {
    PowMonotone(x, y, n);
    MulMonotone(base, Pow(x, n), base, Pow(y, n));
  }


  /** With non-negative inputs and a pessimistic growth no higher than the
      optimistic one, the realistic projection lies between the other two at
      every sample, and all three start together at month 0. */
  lemma ScenariosOrdered(inp: ChartInputs, k: nat)
    requires inp.totalArea >= 0.0 && inp.unitSharePrice >= 0.0 && inp.constructionCostPerMeter >= 0.0
    requires 0.0 <= inp.pessimisticGrowth <= inp.optimisticGrowth
    ensures var p := ProfitSample(inp, k);
            p.pessimistic <= p.realistic <= p.optimistic
    ensures var p := ProfitSample(inp, 0);
            var start := CurrentBaseValue(inp, 0, TotalLandCost(inp) / 2.0) / Billion;
            p.pessimistic == start && p.realistic == start && p.optimistic == start
  {
    CostsNonNegative(inp);
    CumulativeCostNonDecreasing(k, TotalLandCost(inp), TotalConstructionCost(inp));
    SampleScenariosOrdered(inp, 6 * k, CumulativeCost(k, TotalLandCost(inp), TotalConstructionCost(inp)));
    CumulativeCostClosedForm(0, TotalLandCost(inp), TotalConstructionCost(inp));
  }

  // ---------------------------------------------------------------------------
  // LandUseChart

  /** The pie's slices: useful residential area, commercial area, and common
      areas estimated at 35% of the residential area. */
  function LandUseData(inp: ChartInputs): (slices: seq<real>)
    ensures |slices| == 3
    ensures slices[0] == inp.totalArea && slices[1] == inp.commercialArea
    ensures slices[2] * 20.0 == inp.totalArea * 7.0
  {
    [inp.totalArea, inp.commercialArea, inp.totalArea * 0.35]
  }

  /** The whole pie is the built area plus the estimated common areas, and
      non-negative areas give non-negative slices. */
  lemma LandUseTotal(inp: ChartInputs)
    ensures Sum(LandUseData(inp)) == inp.totalArea * 1.35 + inp.commercialArea
    ensures inp.totalArea >= 0.0 && inp.commercialArea >= 0.0 ==>
      forall i :: 0 <= i < 3 ==> LandUseData(inp)[i] >= 0.0
  {
    var s := LandUseData(inp);
    assert s[..2] == [inp.totalArea, inp.commercialArea];
    assert s[..2][..1] == [inp.totalArea];
    assert [inp.totalArea][..0] == [];
    assert Sum([inp.totalArea]) == inp.totalArea;
    assert Sum([inp.totalArea, inp.commercialArea]) == inp.totalArea + inp.commercialArea;
  }

  // ---------------------------------------------------------------------------
  // CashFlowChart

  /** The per-share fee: the given one, or 50 million when it is absent or 0. */
  function AdditionalFee(inp: ChartInputs): (fee: real)
    ensures fee != 0.0
    ensures inp.additionalFee.Some? && inp.additionalFee.value != 0.0 ==> fee == inp.additionalFee.value
    ensures fee != 50_000_000.0 ==> inp.additionalFee == Some(fee)
  {
    match inp.additionalFee
    case Some(f) => if f != 0.0 then f else 50_000_000.0
    case None => 50_000_000.0
  }

  function TotalShares(inp: ChartInputs): real {
    inp.totalArea / 10.0
  }

  /** What a share pays at month 0: half the share price plus the fee. */
  function InitialInflowPerShare(inp: ChartInputs): real {
    inp.unitSharePrice * 0.5 + AdditionalFee(inp)
  }

  /** What a share pays at month 12: the other half of the share price. */
  function SecondaryInflowPerShare(inp: ChartInputs): real {
    inp.unitSharePrice * 0.5
  }

  /** The construction cost collected each month after month 12, spread over 30 months. */
  function MonthlyConstructionCollection(inp: ChartInputs): real {
    TotalConstructionCost(inp) / 30.0
  }

  /** The money collected in `month`. */
  function Inflow(inp: ChartInputs, month: nat): real {
    if month == 0 then TotalShares(inp) * InitialInflowPerShare(inp)
    else if month == 12 then TotalShares(inp) * SecondaryInflowPerShare(inp)
    else if month > 12 then MonthlyConstructionCollection(inp)
    else 0.0
  }

  /** The money spent in `month`: 90% of the month-0 collection for the land,
      80% of the month-12 collection for settlements, 95% of each construction
      collection, and a flat billion of overhead in months 1 to 11. */
  function Outflow(inp: ChartInputs, month: nat): real {
    if month == 0 then (TotalShares(inp) * InitialInflowPerShare(inp)) * 0.9
    else if month == 12 then (TotalShares(inp) * SecondaryInflowPerShare(inp)) * 0.8
    else if month > 12 then MonthlyConstructionCollection(inp) * 0.95
    else Billion
  }

  datatype CashFlowEntry = CashFlowEntry(month: int, inflow: real, outflow: real)

  /** The plotted entry of one month, in billions. */
  function CashFlowAt(inp: ChartInputs, month: nat): (e: CashFlowEntry)
    ensures e.month == month
    ensures e.inflow * Billion == Inflow(inp, month) && e.outflow * Billion == Outflow(inp, month)
  {
    CashFlowEntry(month, Inflow(inp, month) / Billion, Outflow(inp, month) / Billion)
  }

  /** How many months the loop `for (i = 0; i <= durationMonths; i++)` visits:
      every whole month from 0 up to the duration, none for a negative one. */
  function MonthCount(duration: real): (n: nat)
    ensures duration < 0.0 ==> n == 0
    ensures duration >= 0.0 ==> (n - 1) as real <= duration < n as real
  {
    if duration < 0.0 then 0 else duration.Floor + 1
  }

  /** The chart's loop over the months. */
  method CashFlowChartData(inp: ChartInputs) returns (data: seq<CashFlowEntry>)
    ensures |data| == MonthCount(inp.durationMonths)
    ensures forall i :: 0 <= i < |data| ==> data[i] == CashFlowAt(inp, i)
  {
    data := [];
    var i := 0;
    while i as real <= inp.durationMonths
      invariant 0 <= i <= MonthCount(inp.durationMonths)
      invariant |data| == i
      invariant forall k :: 0 <= k < i ==> data[k] == CashFlowAt(inp, k)
      decreases MonthCount(inp.durationMonths) - i
    {
      var inflow := 0.0;
      var outflow := 0.0;
      if i == 0 {
        inflow := inflow + TotalShares(inp) * InitialInflowPerShare(inp);
        outflow := outflow + (TotalShares(inp) * InitialInflowPerShare(inp)) * 0.9;
      } else if i == 12 {
        inflow := inflow + TotalShares(inp) * SecondaryInflowPerShare(inp);
        outflow := outflow + (TotalShares(inp) * SecondaryInflowPerShare(inp)) * 0.8;
      } else if i > 12 {
        inflow := inflow + MonthlyConstructionCollection(inp);
        outflow := outflow + MonthlyConstructionCollection(inp) * 0.95;
      } else {
        outflow := outflow + Billion;
      }
      data := data + [CashFlowEntry(i, inflow / Billion, outflow / Billion)];
      i := i + 1;
    }
  }

  /** The spending-to-collection ratios of the schedule. */
  lemma CashFlowRatios(inp: ChartInputs, month: nat)
    ensures var e := CashFlowAt(inp, month);
            && (month == 0 ==> e.outflow == e.inflow * 0.9)
            && (month == 12 ==> e.outflow == e.inflow * 0.8)
            && (month > 12 ==> e.outflow == e.inflow * 0.95)
            && (0 < month < 12 ==> e.inflow == 0.0 && e.outflow == 1.0)
  {
  }

  /** The money collected over the first `n` months. */
  function CollectedOver(inp: ChartInputs, n: nat): real {
    if n == 0 then 0.0 else CollectedOver(inp, n - 1) + Inflow(inp, n - 1)
  }

  /** The collections in closed form: the down payments from month 0 on, the
      second halves from month 12 on, and one thirtieth of the construction cost
      for every month after 12. */
  lemma {:induction false} CollectedOverClosedForm(inp: ChartInputs, n: nat)
    ensures 1 <= n <= 12 ==> CollectedOver(inp, n) == TotalShares(inp) * InitialInflowPerShare(inp)
    ensures n >= 13 ==> (CollectedOver(inp, n) ==
      TotalShares(inp) * InitialInflowPerShare(inp) + TotalShares(inp) * SecondaryInflowPerShare(inp)
      + (n - 13) as real * MonthlyConstructionCollection(inp))
  {
    if n >= 14 {
      CollectedOverClosedForm(inp, n - 1);
      assert (n - 13) as real * MonthlyConstructionCollection(inp)
          == (n - 14) as real * MonthlyConstructionCollection(inp) + MonthlyConstructionCollection(inp);
    } else if n > 1 {
      CollectedOverClosedForm(inp, n - 1);
    }
  }

  /** Over a 42-month project every share pays its full price plus the fee, and
      the whole construction cost is collected. */
  lemma CollectedOverFullProject(inp: ChartInputs)
    requires inp.durationMonths == 42.0
    ensures CollectedOver(inp, MonthCount(inp.durationMonths)) ==
      TotalShares(inp) * (inp.unitSharePrice + AdditionalFee(inp)) + TotalConstructionCost(inp)
  {
    assert MonthCount(inp.durationMonths) == 43;
    CollectedOverClosedForm(inp, 43);
    var s := TotalShares(inp);
    assert s * InitialInflowPerShare(inp) + s * SecondaryInflowPerShare(inp)
        == s * (InitialInflowPerShare(inp) + SecondaryInflowPerShare(inp));
  }
}
