/** The input form of components/InputSidebar.tsx: the single-field update every
    control sends to the project's input record, and the figures the form shows
    next to its fields (parking and residential footprints, the garden, the two
    halves of the share price, the occupancy bar widths and the progress). */
module InputSidebar {
  import opened Numeric
  import Dashboard

  /** A field's value: the form sends text fields as strings and numeric fields
      as numbers. */
  datatype FieldValue = Text(text: string) | Number(number: real)

  /** The input record, field name to value. */
  type Record = map<string, FieldValue>

  /** `handleChange(field, value)`: the record with `field` set to `value`. */
  function HandleChange(record: Record, field: string, value: FieldValue): (r: Record)
    ensures field in r && r[field] == value
    ensures r.Keys == record.Keys + {field}
    ensures forall f :: f in record && f != field ==> f in r && r[f] == record[f]
  {
    record[field := value]
  }

  /** A second change of the same field overrides the first. */
  lemma LastChangeWins(record: Record, field: string, v1: FieldValue, v2: FieldValue)
    ensures HandleChange(HandleChange(record, field, v1), field, v2) == HandleChange(record, field, v2)
  {
  }

  /** Changes of different fields do not interfere: their order does not matter. */
  lemma ChangesCommute(record: Record, f1: string, v1: FieldValue, f2: string, v2: FieldValue)
    requires f1 != f2
    ensures HandleChange(HandleChange(record, f1, v1), f2, v2) == HandleChange(HandleChange(record, f2, v2), f1, v1)
  {
  }

  /** Setting a field to the value it already has changes nothing. */
  lemma ChangeToSameValue(record: Record, field: string)
    requires field in record
    ensures HandleChange(record, field, record[field]) == record
  {
  }

  /** The fields of the flat input record the form's figures read. */
  datatype SidebarInputs = SidebarInputs(
    landArea: real,
    parkingOccupancyPercentage: real,
    residentialOccupancyPercentage: real,
    unitSharePrice: real,
    durationMonths: real,
    elapsedMonths: Option<real>)

  /** The area a percentage of the land covers, rounded to a whole metre. */
  function Footprint(landArea: real, percentage: real): (a: int)
    ensures a as real - 0.5 <= landArea * percentage / 100.0 < a as real + 0.5
  {
    Round((landArea * percentage) / 100.0)
  }

  /** On a whole number of square metres a percentage from 0 to 100 covers
      between none and all of the land. */
  lemma FootprintWithinLand(landArea: int, percentage: real)
    requires landArea >= 0 && 0.0 <= percentage <= 100.0
    ensures 0 <= Footprint(landArea as real, percentage) <= landArea
  {
    var x := landArea as real * percentage / 100.0;
    MulMonotone(landArea as real, percentage, landArea as real, 100.0);
    RoundMonotone(0.0, x);
    RoundMonotone(x, landArea as real);
    RoundOfInt(0);
    RoundOfInt(landArea);
  }

  /** The first and second payments of a share. */
  datatype Payments = Payments(initialPayment: real, secondPayment: real)

  /** The share price paid in two equal halves. */
  function SplitPayments(unitSharePrice: real): (p: Payments)
    ensures p.initialPayment == p.secondPayment
    ensures p.initialPayment + p.secondPayment == unitSharePrice
  {
    Payments(unitSharePrice * 0.5, unitSharePrice * 0.5)
  }

  /** The width of an occupancy bar: the percentage, capped at 100. Only the top
      is capped: a negative percentage gives a negative width. */
  function BarWidth(percentage: real): (w: real)
    ensures w <= 100.0
    ensures percentage <= 100.0 ==> w == percentage
    ensures percentage > 100.0 ==> w == 100.0
  {
    Min(percentage, 100.0)
  }

  /** The progress shown under the slider: elapsed months (absent or 0 counting
      as 0) over the duration, in whole percent. Over a duration of 0 the
      quotient is not a finite number (0/0 included), and the figure is `None`. */
  function SidebarProgress(elapsed: Option<real>, duration: real): (r: Option<int>)
    ensures r.None? <==> duration == 0.0
    ensures r.Some? ==> r.value as real - 0.5 <= elapsed.GetOr(0.0) / duration * 100.0 < r.value as real + 0.5
  {
    if duration == 0.0 then None
    else Some(Round((elapsed.GetOr(0.0) / duration) * 100.0))
  }

  /** The form's progress agrees with the dashboard's whenever the duration is
      not 0; with a duration of 0 and nothing elapsed the dashboard shows 0 where
      the form's quotient is 0/0. */
  lemma ProgressAgreesWithDashboard(elapsed: Option<real>, duration: real)
    ensures duration != 0.0 ==> SidebarProgress(elapsed, duration) == Dashboard.Progress(elapsed, duration)
    ensures duration == 0.0 && !Dashboard.Truthy(elapsed) ==>
      SidebarProgress(elapsed, duration).None? && Dashboard.Progress(elapsed, duration) == Some(0)
  {
    if duration != 0.0 && !Dashboard.Truthy(elapsed) {
      assert elapsed.GetOr(0.0) / duration * 100.0 == 0.0;
      RoundOfInt(0);
    }
  }

  /** Everything the form displays next to its fields. */
  datatype SidebarFigures = SidebarFigures(
    parkingArea: int,
    residentialFootprint: int,
    gardenArea: real,
    payments: Payments,
    parkingBarWidth: real,
    residentialBarWidth: real,
    progress: Option<int>)

  function DisplayFigures(inp: SidebarInputs): (f: SidebarFigures)
    ensures f.parkingArea == Footprint(inp.landArea, inp.parkingOccupancyPercentage)
    ensures f.residentialFootprint == Footprint(inp.landArea, inp.residentialOccupancyPercentage)
    ensures f.gardenArea + f.residentialFootprint as real == inp.landArea
    ensures f.payments.initialPayment == f.payments.secondPayment
    ensures f.payments.initialPayment + f.payments.secondPayment == inp.unitSharePrice
    ensures f.parkingBarWidth == Min(inp.parkingOccupancyPercentage, 100.0)
    ensures f.residentialBarWidth == Min(inp.residentialOccupancyPercentage, 100.0)
    ensures f.progress == SidebarProgress(inp.elapsedMonths, inp.durationMonths)
  {
    var parkingArea := Footprint(inp.landArea, inp.parkingOccupancyPercentage);
    var residentialFootprint := Footprint(inp.landArea, inp.residentialOccupancyPercentage);
    SidebarFigures(
      parkingArea,
      residentialFootprint,
      inp.landArea - residentialFootprint as real,
      SplitPayments(inp.unitSharePrice),
      BarWidth(inp.parkingOccupancyPercentage),
      BarWidth(inp.residentialOccupancyPercentage),
      SidebarProgress(inp.elapsedMonths, inp.durationMonths))
  }

  /** On a whole number of square metres with an occupancy from 0 to 100%, the
      garden is what the residential footprint leaves, never negative. */
  lemma GardenWithinLand(inp: SidebarInputs)
    requires inp.landArea >= 0.0 && inp.landArea == inp.landArea.Floor as real
    requires 0.0 <= inp.residentialOccupancyPercentage <= 100.0
    ensures 0.0 <= DisplayFigures(inp).gardenArea <= inp.landArea
  {
    FootprintWithinLand(inp.landArea.Floor, inp.residentialOccupancyPercentage);
  }
}
