/** The figures components/PdfReport.tsx computes before laying out the report:
    the per-metre cost roll-up (land, construction, admin overhead, gap to the
    market price) and the cross-check of the declared gross area against the
    area the occupancy percentages imply. */
module PdfReport {
  import opened Numeric
  import opened Project

  /** The fields of the project inputs the report reads. */
  datatype ReportInputs = ReportInputs(
    constructionPhases: seq<ConstructionPhase>,
    unitSharePrice: real,
    unitShareSize: real,
    adminOverheadPercentage: real,
    marketPricePerMeter: real,
    landArea: real,
    parkingOccupancyPercentage: real,
    groundFloorOccupancyPercentage: real,
    residentialOccupancyPercentage: real,
    undergroundFloors: real,
    floors: real,
    grossTotalArea: real)

  /** Cost figures per square metre. */
  datatype PerMeterCosts = PerMeterCosts(
    baseConstruction: real,
    land: real,
    totalBase: real,
    withOverhead: real,
    valueGap: real)

  /** The per-metre roll-up. The land cost divides the share price by the share
      size; with a share size of 0 that division yields no finite figure, and
      neither does anything computed from it. Only the base construction cost
      does not depend on the land cost, and the report shows none of the
      figures on its own, so the model makes the whole roll-up `None` there. */
  function CostRollup(inp: ReportInputs): (r: Option<PerMeterCosts>)
    ensures r.Some? <==> inp.unitShareSize != 0.0
    ensures r.Some? ==>
      var c := r.value;
      && c.baseConstruction == TotalCostPerMeter(inp.constructionPhases)
      && c.land * inp.unitShareSize == inp.unitSharePrice
      && c.totalBase == c.land + c.baseConstruction
      && c.withOverhead - c.totalBase == c.totalBase * (inp.adminOverheadPercentage / 100.0)
      && c.valueGap + c.withOverhead == inp.marketPricePerMeter
  {
    if inp.unitShareSize == 0.0 then None
    else
      var baseConstruction := TotalCostPerMeter(inp.constructionPhases);
      var land := inp.unitSharePrice / inp.unitShareSize;
      var totalBase := land + baseConstruction;
      var withOverhead := totalBase * (1.0 + inp.adminOverheadPercentage / 100.0);
      Some(PerMeterCosts(baseConstruction, land, totalBase, withOverhead, inp.marketPricePerMeter - withOverhead))
  }

  /** With no phases the construction part of the roll-up is 0. */
  lemma NoPhasesNoConstructionCost(inp: ReportInputs)
    requires inp.unitShareSize != 0.0 && inp.constructionPhases == []
    ensures CostRollup(inp).value.baseConstruction == 0.0
    ensures CostRollup(inp).value.totalBase * inp.unitShareSize == inp.unitSharePrice
  {
    PhaseTotalsStep([], ConstructionPhase(0, "", 0.0, 0.0));
  }

  /** A non-negative overhead never lowers a non-negative base cost, and an
      overhead of 0% leaves it as it is. */
  lemma OverheadNeverLowersCost(inp: ReportInputs)
    requires inp.unitShareSize != 0.0
    requires inp.adminOverheadPercentage >= 0.0
    ensures var c := CostRollup(inp).value;
            && (c.totalBase >= 0.0 ==> c.withOverhead >= c.totalBase)
            && (inp.adminOverheadPercentage == 0.0 ==> c.withOverhead == c.totalBase)
  {
    var c := CostRollup(inp).value;
    if c.totalBase >= 0.0 {
      assert c.totalBase * (inp.adminOverheadPercentage / 100.0) >= 0.0;
    }
  }

  /** Area of one tier of floors: the land area times the occupancy ratio times
      the number of floors in the tier. */
  function TierArea(landArea: real, occupancyPercentage: real, floorCount: real): (a: real)
    ensures floorCount == 0.0 || landArea == 0.0 || occupancyPercentage == 0.0 ==> a == 0.0
    ensures landArea >= 0.0 && occupancyPercentage >= 0.0 && floorCount >= 0.0 ==> a >= 0.0
  {
    landArea * (occupancyPercentage / 100.0) * floorCount
  }

  /** The relative gap between the calculated and the declared gross area, in
      percent; 0 when no positive gross area is declared. */
  function DifferencePercentage(calculated: real, declared: real): (pct: real)
    ensures pct >= 0.0
    ensures declared <= 0.0 ==> pct == 0.0
    ensures declared > 0.0 ==> pct * declared == Abs(calculated - declared) * 100.0
  {
    if declared > 0.0 then Abs((calculated - declared) / declared) * 100.0 else 0.0
  }

  datatype AreaCheck = AreaCheck(
    parkingArea: real,
    groundFloorArea: real,
    residentialArea: real,
    calculatedGrossArea: real,
    areaDifference: real,
    differencePercentage: real,
    isConsistent: bool)

  /** The occupancy cross-check: parking tiers below ground, one ground floor and
      the residential floors, summed and compared with the declared gross area.
      A gap under 5% counts as consistent; the report only displays the verdict. */
  function OccupancyCheck(inp: ReportInputs): (r: AreaCheck)
    ensures r.parkingArea == TierArea(inp.landArea, inp.parkingOccupancyPercentage, inp.undergroundFloors)
    ensures r.groundFloorArea == TierArea(inp.landArea, inp.groundFloorOccupancyPercentage, 1.0)
    ensures r.residentialArea == TierArea(inp.landArea, inp.residentialOccupancyPercentage, inp.floors)
    ensures r.calculatedGrossArea == r.parkingArea + r.groundFloorArea + r.residentialArea
    ensures r.areaDifference + inp.grossTotalArea == r.calculatedGrossArea
    ensures r.differencePercentage == DifferencePercentage(r.calculatedGrossArea, inp.grossTotalArea)
    ensures inp.grossTotalArea > 0.0 ==>
      (r.isConsistent <==> Abs(r.calculatedGrossArea - inp.grossTotalArea) * 100.0 < 5.0 * inp.grossTotalArea)
    ensures inp.grossTotalArea <= 0.0 ==> r.isConsistent
  {
    var parking := TierArea(inp.landArea, inp.parkingOccupancyPercentage, inp.undergroundFloors);
    var ground := TierArea(inp.landArea, inp.groundFloorOccupancyPercentage, 1.0);
    var residential := TierArea(inp.landArea, inp.residentialOccupancyPercentage, inp.floors);
    var calculated := parking + ground + residential;
    var pct := DifferencePercentage(calculated, inp.grossTotalArea);
    assert inp.grossTotalArea > 0.0 ==>
      (pct < 5.0 <==> Abs(calculated - inp.grossTotalArea) * 100.0 < 5.0 * inp.grossTotalArea) by {
      if inp.grossTotalArea > 0.0 {
        BelowThresholdScaled(pct, 5.0, inp.grossTotalArea, Abs(calculated - inp.grossTotalArea) * 100.0);
      }
    }
    AreaCheck(parking, ground, residential, calculated, calculated - inp.grossTotalArea, pct, pct < 5.0)
  }

  /** Over- and under-estimating the declared area by the same amount gives the
      same percentage. */
  lemma DifferenceSymmetric(declared: real, gap: real)
    ensures DifferencePercentage(declared + gap, declared) == DifferencePercentage(declared - gap, declared)
  {
    if declared > 0.0 {
      var up, down := DifferencePercentage(declared + gap, declared), DifferencePercentage(declared - gap, declared);
      assert up * declared == down * declared;
    }
  }

  /** Scaling both sides of a comparison by a positive factor keeps it. */
  lemma BelowThresholdScaled(x: real, threshold: real, factor: real, scaled: real)
    requires factor > 0.0 && x * factor == scaled
    ensures x < threshold <==> scaled < threshold * factor
  {
    if x < threshold {
      var d := threshold - x;
      assert d > 0.0;
      assert d * factor > 0.0;
      assert (threshold - x) * factor == threshold * factor - x * factor;
    } else {
      MulMonotone(0.0, 0.0, x - threshold, factor);
      assert (x - threshold) * factor == x * factor - threshold * factor;
    }
  }

  /** A declared area that matches the calculated one exactly is consistent
      with a difference of 0%. */
  lemma ExactAreaIsConsistent(inp: ReportInputs)
    requires inp.grossTotalArea > 0.0
    requires OccupancyCheck(inp).calculatedGrossArea == inp.grossTotalArea
    ensures OccupancyCheck(inp).differencePercentage == 0.0
    ensures OccupancyCheck(inp).isConsistent
  {
  }

  /** A worked case: 18500 m2 of land, 80% parking over 4 underground floors,
      60% ground floor, 40% over 13 residential floors, 55000 m2 declared. The
      tiers give 59200 + 11100 + 96200 = 166500 m2, about 203% over the
      declaration, so the check fails. */
  lemma WorkedOccupancyCase()
    ensures var inp := ReportInputs([], 0.0, 10.0, 0.0, 0.0, 18500.0, 80.0, 60.0, 40.0, 4.0, 13.0, 55000.0);
            var r := OccupancyCheck(inp);
            && r.parkingArea == 59200.0 && r.groundFloorArea == 11100.0 && r.residentialArea == 96200.0
            && r.calculatedGrossArea == 166500.0
            && r.differencePercentage * 55000.0 == 11150000.0
            && !r.isConsistent
  {
  }
}
