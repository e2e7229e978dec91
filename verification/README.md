# A verified model of the feasibility tool's calculations

The application is a React front end for pre-sale residential construction
projects, with a UI in Persian. A developer enters a project, and the front end
shows derived figures on a dashboard, in charts, in a timeline and in two PDF
reports. This project models in Dafny the arithmetic and string logic behind
those figures, and proves properties of it:

- **`Utils`** (`utils.ts`):
  - `toPersianDigits`, which turns ASCII digits into Persian ones;
  - `formatCurrency` for integer amounts. It inserts thousands separators
    with the regular expression `\B(?=(\d{3})+(?!\d))`, then localises the
    digits. The regular expression is modelled literally and is proved to
    be the usual right-to-left grouping in threes.
- **`Project`** (`types.ts`): construction phases, buyer installments, and
  the totals the components compute from them with `reduce`.
- **`PdfReport`**: the per-metre cost roll-up, and the check of the
  declared gross area against the area the occupancy percentages imply.
- **`PdfDashboard`**: duration, buyer cost, the `calcScenario` formula for
  the three growth rates, and the split into sellable and common area.
- **`Dashboard`**:
  - the progress percentage and the phase shown for it;
  - the remaining months;
  - the scenario rates;
  - the first-match-wins investment status ladder.
- **`Charts`**: the data series of the profit, land-use and cash-flow charts.
- **`Timeline`**: the bar layout, the progress marker and the axis ticks of
  the construction timeline.
- **`InputSidebar`**: the single-field form update, and the figures the
  form displays next to its fields.
- **`Numeric`**: shared helpers:
  - JavaScript's `Math.round`;
  - an optional value for results that are not finite;
  - an integer power;
  - sums over sequences.

### Modelling choices

- **Numbers.** JavaScript numbers are exact `real`s.
- **Rounding.** `Math.round(x)` is `Floor(x + 1/2)`.
- **Division that is not finite.** A division whose result would not be
  finite (`Infinity` or `NaN`) gives `None`, wherever the source does not
  guard against it.
- **Truthiness.** JavaScript truthiness (`x || 0`, `x ? … : 0`) is modelled
  with an `Option` whose absent value and `0` both count as false.
- **Two input shapes.** The components read two different input shapes.
  Each modelled component therefore has its own input datatype, holding
  exactly the fields it reads.
- **Fractional powers.** `Math.pow` with a fractional exponent (the years of
  a project, and `1 / years`) is a function parameter `pow`. The lemmas
  that need properties of it ask for exactly those, and no more: a positive
  result that grows with a positive base.
- **Integer powers.** The profit chart's monthly compounding has a whole
  exponent, and uses the recursive `Pow`.

## Model

| member | source | states |
|---|---|---|
| Numeric.Round | components/InputSidebar.tsx:30-31 | `Math.round` gives the integer within half a unit of its argument, rounding halves up |
| Numeric.RoundMonotone | components/TimelineChart.tsx:60 | Rounding never reverses the order of two numbers |
| Utils.ToPersianDigits | utils.ts:1-6 | The result has the input's length. Each ASCII digit becomes the Persian digit of the same value, every other character is kept, and no ASCII digit remains |
| Utils.ToAsciiDigits | utils.ts:2-5 | The reverse mapping, Persian digit to ASCII digit, character by character |
| Utils.ToPersianDigitsIdempotent | utils.ts:3-5 | Localising twice gives the same string as localising once |
| Utils.ToPersianDigitsRoundTrip | utils.ts:3-5 | On a string holding no Persian digits, mapping the digits back restores the input |
| Utils.ToPersianDigitsAppend | utils.ts:3-5 | Localisation distributes over concatenation |
| Utils.NatToString | utils.ts:10 | The decimal rendering of a natural number is a non-empty string of digits. It has no leading zero unless the number is 0, and it is one digit long exactly below 10 |
| Utils.ParseNatToString | utils.ts:10 | Reading the decimal rendering back gives the number |
| Utils.IntToString | utils.ts:10 | `toString` of an integer is a minus sign exactly for negative numbers, followed by the digits of its magnitude |
| Utils.CommaMarks | utils.ts:10 | A match sits before position `p` exactly when both `\B` and the lookahead `(\d{3})+(?!\d)` hold there |
| Utils.TriplesInDigitTail | utils.ts:10 | Inside a trailing run of digits, the lookahead holds exactly when a positive multiple of three digits remains |
| Utils.SignedCommaMarks | utils.ts:10 | For a minus sign followed by digits, nothing matches before the sign or between the sign and the first digit. Elsewhere the matches fall where they would without the sign |
| Utils.InsertCommasGroups | utils.ts:10 | On the rendering of any integer, the global replace equals the sign followed by the right-to-left grouping in threes |
| Utils.GroupGrouped | utils.ts:10 | The grouping of digits is well formed: 1 to 3 leading digits, then groups of a comma and exactly three digits |
| Utils.GroupCommaCount | utils.ts:10 | The grouping of `k` digits holds `(k - 1) / 3` commas |
| Utils.GroupStrip | utils.ts:10 | Removing the commas of a grouping gives the digits back |
| Utils.FormatCurrencyDecomposed | utils.ts:8-12 | `formatCurrency` of an integer is its sign followed by the localised grouping of its digits |
| Utils.FormatCurrencyGrouped | utils.ts:8-12 | The output starts with `-` exactly for negative amounts. No comma comes first or right after the sign. Every comma is followed by exactly three Persian digits, and the leading group has 1 to 3 digits |
| Utils.FormatCurrencyCommaCount | utils.ts:8-12 | An amount of `k` digits gets exactly `(k - 1) / 3` commas, so none for up to three digits |
| Utils.FormatCurrencyRoundTrip | utils.ts:8-12 | Removing the commas and mapping the digits back gives `amount.toString()`, whose digits read back as the amount |
| Project.PhaseTotalsStep | components/PdfDashboard.tsx:24 | No phases give a total duration and cost per metre of 0. Appending a phase adds its duration and its cost per metre |
| Project.PhaseTotalsAppend | components/PdfReport.tsx:50 | The phase totals of two lists placed one after the other add up |
| Project.PhaseTotalsNonNegative | components/PdfReport.tsx:50 | Phases with non-negative durations and costs have non-negative totals |
| Project.InstallmentTotalStep | components/PdfDashboard.tsx:27 | No installments total 0, and appending one adds its amount |
| PdfReport.CostRollup | components/PdfReport.tsx:50-54 | The base construction cost is the sum of the phases' costs per metre, and the land cost times the share size is the share price. The overhead adds the percentage of the base cost, and the value gap plus the cost with overhead is the market price. With a share size of 0 the land cost and every figure derived from it have no finite value. The base construction cost alone stays finite, but the report shows no figure built only on it, so the model gives no roll-up exactly when the share size is 0 |
| PdfReport.NoPhasesNoConstructionCost | components/PdfReport.tsx:50-52 | With no phases the construction cost per metre is 0, and the base cost is the land cost |
| PdfReport.OverheadNeverLowersCost | components/PdfReport.tsx:53 | A non-negative overhead never lowers a non-negative base cost, and 0% leaves it unchanged |
| PdfReport.TierArea | components/PdfReport.tsx:56-58 | A tier with no floors, no land or no occupancy contributes 0. Non-negative inputs give a non-negative area |
| PdfReport.DifferencePercentage | components/PdfReport.tsx:61 | The percentage is never negative and is 0 without a positive declared area. Otherwise, times the declared area it is 100 times the absolute gap |
| PdfReport.OccupancyCheck | components/PdfReport.tsx:56-62 | The calculated gross area is parking times underground floors, plus the ground floor once, plus residential times floors. With a positive declared area the check passes exactly when 100 times the gap is under 5 times that area, so a gap of exactly 5% fails. Without a positive declared area it always passes |
| PdfReport.DifferenceSymmetric | components/PdfReport.tsx:60-61 | Over- and under-estimates of the same size give the same percentage |
| PdfReport.ExactAreaIsConsistent | components/PdfReport.tsx:60-62 | A declared area equal to the calculated one gives 0% and passes |
| PdfReport.WorkedOccupancyCase | components/PdfReport.tsx:56-62 | A concrete project whose tiers sum to about three times its declared area fails the check |
| PdfDashboard.Years | components/PdfDashboard.tsx:24-25 | The years times 12 is the summed phase duration |
| PdfDashboard.AfterCommission | components/PdfDashboard.tsx:32 | The value and the value after commission differ by exactly the commission share of the value |
| PdfDashboard.CommissionWithinValue | components/PdfDashboard.tsx:32 | A commission between 0% and 100% leaves a value between 0 and the value before commission |
| PdfDashboard.TotalRoi | components/PdfDashboard.tsx:33-34 | The total return is 0 without a positive cost. With a positive cost it has the sign of the profit, unclamped, and times the cost it is 100 times the profit |
| PdfDashboard.AnnualRoi | components/PdfDashboard.tsx:35 | The annual return is 0 without positive years. Otherwise, one plus it in hundredths is the `1 / years` power of one plus the total return in hundredths |
| PdfDashboard.CalcScenario | components/PdfDashboard.tsx:29-37 | The buyer's cost is the installment total, and the returned "future value" is the share value less the commission share. The profit is that value less the cost. With a positive cost and duration, one plus the annual return is the yearly root of value over cost: the compound rate that turns the cost into the value. A project of no length has an annual return of 0. With no positive cost the total return counts as 0, so the yearly factor is a root of 1 |
| PdfDashboard.AnnualisationBase | components/PdfDashboard.tsx:32-35 | With a positive cost, one plus the total return in hundredths, times the cost, is the after-commission value. So the base of the root is non-negative whenever that value is |
| PdfDashboard.NoDurationNoAnnualReturn | components/PdfDashboard.tsx:35 | With no positive total duration the annual return is 0, whatever the growth rate |
| PdfDashboard.RealisticGrowth | components/PdfDashboard.tsx:39 | The realistic rate is as far from the pessimistic rate as from the optimistic one, and lies between them |
| PdfDashboard.CostToBuyerIndependentOfGrowth | components/PdfDashboard.tsx:27-42 | The buyer's cost is the same installment total in all three scenarios |
| PdfDashboard.ShareValueMonotone | components/PdfDashboard.tsx:30-31 | With a power that grows with its base, more growth never lowers the share value before commission |
| PdfDashboard.MoreGrowthMoreValue | components/PdfDashboard.tsx:30-32 | With a commission of at most 100%, more growth never lowers the value after commission |
| PdfDashboard.ScenariosOrdered | components/PdfDashboard.tsx:39-42 | With pessimistic growth at most the optimistic one, the realistic value lies between the other two |
| PdfDashboard.SplitArea | components/PdfDashboard.tsx:44-45 | Sellable area is residential plus commercial, and sellable plus common area is the gross area. The common share in percent, shown at line 91, exists exactly for a positive gross area |
| PdfDashboard.WorkedScenario | components/PdfDashboard.tsx:24-42 | A concrete project: 3.5 years, a buyer cost of 1.53 billion, and the realistic profit in terms of the compounding factor |
| Dashboard.PhaseInfo | components/Dashboard.tsx:23-29 | Each phase holds exactly on its band: up to 10, up to 30, up to 60, up to 90, above 90, with inclusive upper bounds |
| Dashboard.PhaseMonotone | components/Dashboard.tsx:23-29 | More progress never shows an earlier phase |
| Dashboard.Progress | components/Dashboard.tsx:35 | The progress is 0 when elapsed months are absent or 0, and otherwise the rounded percentage. It is not finite exactly when they are present and non-zero over a zero duration |
| Dashboard.ProgressWithinBounds | components/Dashboard.tsx:35 | Between start and end of the project the progress is a whole number from 0 to 100, and exactly 100 at the end |
| Dashboard.CurrentPhase | components/Dashboard.tsx:35-36 | The phase shown is the band of the progress. A non-finite progress shows delivery when positive and subscription when negative |
| Dashboard.NotStartedIsSubscription | components/Dashboard.tsx:35-36 | A project with no elapsed months shows the subscription phase |
| Dashboard.Remaining | components/Dashboard.tsx:112 | The remaining months plus the elapsed months (absent counting as 0) are the duration |
| Dashboard.RemainingMatchesProgress | components/Dashboard.tsx:112 | Nothing elapsed leaves the whole duration and 0%. Everything elapsed leaves nothing and 100% |
| Dashboard.ScenarioRatesOf | components/Dashboard.tsx:67-75 | The realistic growth is midway between the other two, and the realistic cost escalation equals the pessimistic growth. The pessimistic escalation is 5 points above it and the optimistic one 2 points below |
| Dashboard.ScenarioRatesOrdered | components/Dashboard.tsx:67-75 | Growth rises and escalation falls from the pessimistic to the optimistic scenario |
| Dashboard.JustificationStatus | components/Dashboard.tsx:78-81 | The ladder, first match wins. Excellent exactly above `p + 15`, good exactly in `(p, p + 15]`, acceptable exactly in `(0, p]`, and the default exactly at or below both `p` and 0 |
| Dashboard.StatusBoundaries | components/Dashboard.tsx:78-81 | At exactly `p + 15` the status is good, and at exactly `p` it is acceptable only when `p > 0`. With `p >= 0` no positive return means the default |
| Dashboard.LossRatedGoodUnderNegativeGrowth | components/Dashboard.tsx:78-81 | With a negative `p`, a negative return can be rated good or even excellent |
| Dashboard.StatusMonotone | components/Dashboard.tsx:78-81 | For a fixed `p`, a higher return never lowers the status |
| Charts.CostsNonNegative | components/Charts.tsx:17-18 | Non-negative areas and prices give non-negative land and construction costs |
| Charts.MonthLabelReadsBack | components/Charts.tsx:50 | A sample's label is the word for month and a space, followed by Persian digits that read back as the month |
| Charts.CostChunk | components/Charts.tsx:26-29 | With non-negative costs every six-month chunk is non-negative |
| Charts.CumulativeCostClosedForm | components/Charts.tsx:25-31 | Half the land cost at month 0 and three quarters at month 6. From month 12 on, all of it plus a fifth of the construction cost for each further sample |
| Charts.CumulativeCostAtEnd | components/Charts.tsx:25-31 | By month 42 the whole land and construction cost is paid |
| Charts.CumulativeCostNonDecreasing | components/Charts.tsx:26-31 | With non-negative costs the cumulative cost never falls |
| Charts.CurrentBaseValue | components/Charts.tsx:36-42 | The base value is the larger of the cost paid plus 10% and the start value spread over 42 months |
| Charts.SamplePoint | components/Charts.tsx:45-55 | A sample's label is the month's, and its investment in billions is the cost paid. With a non-negative cost and 0 <= pessimistic <= optimistic growth, the realistic line lies between the other two. At month 0 all three are the base value |
| Charts.ProfitChartData | components/Charts.tsx:12-56 | The loop produces exactly 8 samples, at months 0, 6, ..., 42, each with the cost paid up to it, whatever the duration |
| Charts.InvestmentSeries | components/Charts.tsx:25-51 | The plotted investment never falls, and at month 42 it reaches the total land and construction cost |
| Charts.ProjectionMonotoneInRate | components/Charts.tsx:45-47 | A higher non-negative monthly rate never projects less |
| Charts.CompoundedMonotone | components/Charts.tsx:45-47 | Compounding a non-negative value at a higher non-negative factor never gives less |
| Charts.SampleScenariosOrdered | components/Charts.tsx:21-47 | With 0 <= pessimistic <= optimistic growth, the realistic projection lies between the other two |
| Charts.ScenariosOrdered | components/Charts.tsx:21-47 | The ordering holds at every sample, and all three scenarios equal the base value at month 0 |
| Charts.LandUseData | components/Charts.tsx:98-103 | Three slices: residential, commercial, and common areas at 35% of the residential area |
| Charts.LandUseTotal | components/Charts.tsx:98-103 | The slices sum to 1.35 times the residential area plus the commercial area, and are non-negative for non-negative areas |
| Charts.AdditionalFee | components/Charts.tsx:133 | The fee is never 0: a given non-zero fee is used, and an absent or zero fee becomes 50 million |
| Charts.MonthCount | components/Charts.tsx:145 | The loop `i <= durationMonths` visits every whole month from 0 to the duration: none for a negative duration |
| Charts.CashFlowChartData | components/Charts.tsx:130-167 | One entry per month visited, the `i`-th being month `i`'s |
| Charts.CashFlowRatios | components/Charts.tsx:149-160 | Outflow is 90% of inflow at month 0, 80% at month 12 and 95% after it. Months 1 to 11 collect nothing and spend one billion |
| Charts.CollectedOverClosedForm | components/Charts.tsx:132-156 | The money collected over the first `n` months is the down payments from month 0 on and the second halves from month 12 on. To that is added a thirtieth of the construction cost for each month after 12 |
| Charts.CollectedOverFullProject | components/Charts.tsx:132-156 | Over a 42-month project every share pays its full price plus the fee, and the whole construction cost is collected |
| Timeline.Percent | components/TimelineChart.tsx:31-32 | A percentage times its total is 100 times the part |
| Timeline.PercentAdd | components/TimelineChart.tsx:31-33 | Percentages of one total add up |
| Timeline.PercentNonNegative | components/TimelineChart.tsx:31-32 | A non-negative part of a positive total is a non-negative percentage |
| Timeline.TimelineChart | components/TimelineChart.tsx:19-61 | A total of 0 gives the message and nothing else. Otherwise: one bar per phase, placed by the running total; the marker at the elapsed share of the total, with its label rounded; and the six ticks |
| Timeline.BarsContiguous | components/TimelineChart.tsx:24-33 | The first bar starts at 0, and each next one starts where the previous one ends |
| Timeline.BarLeftsNonDecreasing | components/TimelineChart.tsx:30-33 | With non-negative durations, bars never start before the previous one |
| Timeline.LastBarEndsAtHundred | components/TimelineChart.tsx:30-33 | When the total is the sum of the durations, the last bar ends at exactly 100% |
| Timeline.MarkerWithinChart | components/TimelineChart.tsx:49-52 | Between start and end of the project the marker and its label lie within 0 to 100 |
| Timeline.AxisTicks | components/TimelineChart.tsx:59-61 | There are exactly six ticks: the first 0, the last the rounded total |
| Timeline.AxisTicksNonDecreasing | components/TimelineChart.tsx:59-61 | For a non-negative total the ticks rise from left to right |
| InputSidebar.HandleChange | components/InputSidebar.tsx:14-16 | The named field gets the value, the field set grows by at most that field, and every other field is unchanged |
| InputSidebar.LastChangeWins | components/InputSidebar.tsx:14-16 | Of two changes to one field, the later one wins |
| InputSidebar.ChangesCommute | components/InputSidebar.tsx:14-16 | Changes to different fields can be made in either order |
| InputSidebar.ChangeToSameValue | components/InputSidebar.tsx:14-16 | Setting a field to its current value changes nothing |
| InputSidebar.Footprint | components/InputSidebar.tsx:30-31 | A footprint is within half a metre of the land area times the percentage over 100 |
| InputSidebar.FootprintWithinLand | components/InputSidebar.tsx:30-31 | On whole square metres, a percentage from 0 to 100 covers between none and all of the land |
| InputSidebar.SplitPayments | components/InputSidebar.tsx:34-35 | The two payments are equal and sum to the share price |
| InputSidebar.BarWidth | components/InputSidebar.tsx:104 | A bar width never exceeds 100, and equals the percentage up to 100 |
| InputSidebar.SidebarProgress | components/InputSidebar.tsx:188 | The displayed progress is the rounded percentage of elapsed months, absent counting as 0. It is not finite exactly over a zero duration |
| InputSidebar.ProgressAgreesWithDashboard | components/InputSidebar.tsx:188 | The form and the dashboard show the same progress for any non-zero duration. At duration 0 with nothing elapsed, the dashboard shows 0 where the form's quotient is not finite |
| InputSidebar.DisplayFigures | components/InputSidebar.tsx:30-35 | Garden plus residential footprint is the land area. The payments are two equal halves that sum to the share price. Each bar width is the smaller of its percentage and 100 |
| InputSidebar.GardenWithinLand | components/InputSidebar.tsx:30-32 | On whole square metres with an occupancy from 0 to 100%, the garden lies between 0 and the land area |

## Left out

- Utils.FormatCurrency: modelled for integer amounts below 10^21 in magnitude only. For fractional amounts the regular expression also puts commas among the fraction digits, and from 10^21 on `toString` switches to exponent notation. Neither is modelled.
- Utils.ToPersianDigits: takes the string the value's `toString` produces. Rendering numbers that are not integers is not modelled.
- PdfDashboard.AnnualRoi: `Math.pow` with a fractional exponent is the parameter `pow`. PdfDashboard.ShareValueMonotone, PdfDashboard.MoreGrowthMoreValue and PdfDashboard.ScenariosOrdered assume only that it is positive and grows with a positive base.
- InputSidebar.FootprintWithinLand: bounds are stated for a whole number of square metres only. On fractional land, rounding can exceed the land by up to half a metre.
- InputSidebar.GardenWithinLand: stated for a whole number of square metres only, for the same reason.
- InputSidebar.HandleChange: the field may be any string, not only a key of the input type. The form's `Number(e.target.value)` conversion is not modelled: the value arrives already converted.
- Dashboard.JustificationStatus: with a negative pessimistic growth, a loss can be rated good or excellent. The code does this as written, so the model keeps it and does not treat it as a defect.
- Floating point: IEEE rounding, `NaN` inputs, `toFixed` and `toLocaleString` are not modelled. A division that is not finite becomes `None`, and `Number(x || 0)` on a phase field is the identity on the numbers modelled here.
- components/Dashboard.tsx:205: the scenario table labels the optimistic construction escalation as `Math.max(10, pessimisticGrowth - 5)`, but the figures use `pessimisticGrowth - 2` (line 75). Dashboard.ScenarioRatesOf follows the figures. The label is display text and is not modelled.
- components/Dashboard.tsx:33-34 and 91-105: headline figures used only for display. They are not modelled.
- components/Dashboard.tsx:39-63, `calculateScenario`: compounds with fractional exponents (lines 48 and 54). Its annual return divides by the years without a guard (line 59), which fails for a zero duration. The status ladder takes the realistic annual return as a parameter instead.
- components/InputSidebar.tsx:239: the per-metre price display. It is not modelled.
- All rendering: JSX, Tailwind classes, chart and PDF layout, and font registration.
- components/ProposalView.tsx: only displays text and fixed figures.
- App.tsx: URL state encoding, the clipboard and merging the state object. It is browser glue.
- services/geminiService.ts: a network call to a hosted text model.
- utils.ts:14-20 `getCurrentShamsiDate`: reads the system clock.
- components/InputSidebar.tsx:18-27: the logo upload, which is asynchronous file I/O.
- vite.config.ts: build configuration.
