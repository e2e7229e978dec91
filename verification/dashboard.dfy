/** The threshold logic of components/Dashboard.tsx: the construction phase shown
    for a progress percentage, the progress percentage itself, the months
    remaining, the growth and inflation rates of the three scenarios, and the
    first-match-wins investment status ladder.

    The scenario calculator between the rates and the status (compounding with
    fractional exponents) is not part of this model, so the status ladder takes
    the realistic annual return as a parameter. */
module Dashboard {
  import opened Numeric

  /** The fields of the flat input record the modelled logic reads;
      `elapsedMonths` is optional there. */
  datatype DashboardInputs = DashboardInputs(
    durationMonths: real,
    elapsedMonths: Option<real>,
    pessimisticGrowth: real,
    optimisticGrowth: real)

  /** The five construction phases, in the order the project passes through them. */
  datatype Phase = Subscription | Excavation | Skeleton | Finishing | Delivery {
    function Rank(): (k: nat)
      ensures k <= 4
    {
      match this
      case Subscription => 0
      case Excavation => 1
      case Skeleton => 2
      case Finishing => 3
      case Delivery => 4
    }
  }

  /** `getPhaseInfo`: the first band whose inclusive upper bound the progress
      does not exceed (10, 30, 60, 90), else final delivery. */
  function PhaseInfo(progress: int): (ph: Phase)
    ensures ph == Subscription <==> progress <= 10
    ensures ph == Excavation <==> 10 < progress <= 30
    ensures ph == Skeleton <==> 30 < progress <= 60
    ensures ph == Finishing <==> 60 < progress <= 90
    ensures ph == Delivery <==> 90 < progress
  {
    if progress <= 10 then Subscription
    else if progress <= 30 then Excavation
    else if progress <= 60 then Skeleton
    else if progress <= 90 then Finishing
    else Delivery
  }

  /** More progress never shows an earlier phase. */
  lemma PhaseMonotone(p: int, q: int)
    requires p <= q
    ensures PhaseInfo(p).Rank() <= PhaseInfo(q).Rank()
  {
  }

  /** Whether a JavaScript number is truthy: an absent value and 0 are not. */
  predicate Truthy(x: Option<real>) {
    x.Some? && x.value != 0.0
  }

  /** The progress percentage: 0 when no (or zero) elapsed months are recorded,
      otherwise the rounded ratio of elapsed to total months. A non-zero elapsed
      count over a zero duration is not finite, and is `None`. */
  function Progress(elapsed: Option<real>, duration: real): (r: Option<int>)
    ensures !Truthy(elapsed) ==> r == Some(0)
    ensures r.None? <==> Truthy(elapsed) && duration == 0.0
    ensures Truthy(elapsed) && r.Some? ==>
      r.value as real - 0.5 <= elapsed.value / duration * 100.0 < r.value as real + 0.5
  {
    if !Truthy(elapsed) then Some(0)
    else if duration == 0.0 then None
    else Some(Round(elapsed.value / duration * 100.0))
  }

  /** Between the start and the end of the project the progress is a whole
      percentage from 0 to 100; at the end it is exactly 100. */
  lemma ProgressWithinBounds(elapsed: real, duration: real)
    requires 0.0 <= elapsed <= duration && duration > 0.0
    ensures var p := Progress(Some(elapsed), duration);
            && p.Some? && 0 <= p.value <= 100
            && (elapsed == duration ==> p.value == 100)
  {
    if elapsed != 0.0 {
      var q := elapsed / duration;
      RatioWithinUnit(elapsed, duration);
      RoundMonotone(0.0, q * 100.0);
      RoundMonotone(q * 100.0, 100.0);
      RoundOfInt(0);
      RoundOfInt(100);
      if elapsed == duration {
        RatioOfItself(duration);
      }
    }
  }

  /** The phase on display: the band of the progress figure. A non-finite
      progress compares like an infinity of the elapsed count's sign, so it
      shows delivery when positive and subscription when negative. */
  function CurrentPhase(inp: DashboardInputs): (ph: Phase)
    ensures Progress(inp.elapsedMonths, inp.durationMonths).Some? ==>
      ph == PhaseInfo(Progress(inp.elapsedMonths, inp.durationMonths).value)
    ensures Progress(inp.elapsedMonths, inp.durationMonths).None? ==>
      (ph == Delivery <==> inp.elapsedMonths.value > 0.0) && (ph == Subscription <==> inp.elapsedMonths.value < 0.0)
  {
    match Progress(inp.elapsedMonths, inp.durationMonths)
    case Some(p) => PhaseInfo(p)
    case None => if inp.elapsedMonths.value > 0.0 then Delivery else Subscription
  }

  /** A project not yet started is in the subscription phase. */
  lemma NotStartedIsSubscription(inp: DashboardInputs)
    requires !Truthy(inp.elapsedMonths)
    ensures CurrentPhase(inp) == Subscription
  {
  }

  /** The months still to go; absent elapsed months count as 0. */
  function Remaining(inp: DashboardInputs): (r: real)
    ensures r + inp.elapsedMonths.GetOr(0.0) == inp.durationMonths
  {
    inp.durationMonths - inp.elapsedMonths.GetOr(0.0)
  }

  /** The remaining months and the progress agree at both ends of the project:
      nothing elapsed leaves the whole duration and 0%, everything elapsed
      leaves nothing and 100%. */
  lemma RemainingMatchesProgress(inp: DashboardInputs)
    requires inp.durationMonths > 0.0
    ensures !Truthy(inp.elapsedMonths) ==>
      Remaining(inp) == inp.durationMonths && Progress(inp.elapsedMonths, inp.durationMonths) == Some(0)
    ensures inp.elapsedMonths == Some(inp.durationMonths) ==>
      Remaining(inp) == 0.0 && Progress(inp.elapsedMonths, inp.durationMonths) == Some(100)
  {
    if inp.elapsedMonths == Some(inp.durationMonths) {
      ProgressWithinBounds(inp.durationMonths, inp.durationMonths);
    }
  }

  /** A scenario's market growth and construction-cost escalation, in percent a year. */
  datatype Rates = Rates(marketGrowth: real, costEscalation: real)

  datatype ScenarioRates = ScenarioRates(pessimistic: Rates, realistic: Rates, optimistic: Rates)

  /** The rates the three scenarios run with: the pessimistic one pairs the low
      growth with escalation 5 points above it, the realistic one the mean growth
      with escalation equal to the low growth, the optimistic one the high growth
      with escalation 2 points below the low growth. */
  function ScenarioRatesOf(inp: DashboardInputs): (r: ScenarioRates)
    ensures r.pessimistic.marketGrowth == inp.pessimisticGrowth
    ensures r.optimistic.marketGrowth == inp.optimisticGrowth
    ensures r.realistic.marketGrowth - inp.pessimisticGrowth == inp.optimisticGrowth - r.realistic.marketGrowth
    ensures r.realistic.costEscalation == inp.pessimisticGrowth
    ensures r.pessimistic.costEscalation == r.realistic.costEscalation + 5.0
    ensures r.optimistic.costEscalation == r.realistic.costEscalation - 2.0
  {
    var p := inp.pessimisticGrowth;
    ScenarioRates(
      Rates(p, p + 5.0),
      Rates((p + inp.optimisticGrowth) / 2.0, p),
      Rates(inp.optimisticGrowth, p - 2.0))
  }

  /** The realistic growth lies between the other two, and the scenarios' cost
      escalation falls strictly from pessimistic to optimistic. */
  lemma ScenarioRatesOrdered(inp: DashboardInputs)
    requires inp.pessimisticGrowth <= inp.optimisticGrowth
    ensures var r := ScenarioRatesOf(inp);
            && r.pessimistic.marketGrowth <= r.realistic.marketGrowth <= r.optimistic.marketGrowth
            && r.pessimistic.costEscalation > r.realistic.costEscalation > r.optimistic.costEscalation
  {
  }

  /** The investment verdict, in increasing order of merit; `Average` is the
      label shown when no rung of the ladder matches. */
  datatype Status = Average | Acceptable | Good | Excellent {
    function Rank(): (k: nat)
      ensures k <= 3
    {
      match this
      case Average => 0
      case Acceptable => 1
      case Good => 2
      case Excellent => 3
    }
  }

  /** The status ladder over the realistic annual return and the pessimistic
      growth rate `p`: more than 15 points above `p` is excellent, above `p` is
      good, above 0 acceptable, anything else average. Every comparison is strict. */
  function JustificationStatus(annualRoi: real, p: real): (s: Status)
    ensures s == Excellent <==> annualRoi > p + 15.0
    ensures s == Good <==> p < annualRoi <= p + 15.0
    ensures s == Acceptable <==> 0.0 < annualRoi <= p
    ensures s == Average <==> annualRoi <= Min(p, 0.0)
  {
    if annualRoi > p + 15.0 then Excellent
    else if annualRoi > p then Good
    else if annualRoi > 0.0 then Acceptable
    else Average
  }

  /** The boundaries belong to the lower rung: exactly 15 points above `p` is
      good, exactly `p` is acceptable only when `p` is positive, and with a
      non-negative `p` no positive return means average. */
  lemma StatusBoundaries(p: real)
    ensures JustificationStatus(p + 15.0, p) == Good
    ensures JustificationStatus(p, p) == Acceptable <==> p > 0.0
    ensures JustificationStatus(p, p) == Average <==> p <= 0.0
    ensures forall roi :: roi <= 0.0 && p >= 0.0 ==> JustificationStatus(roi, p) == Average
  {
  }

  /** With a negative pessimistic growth a loss can still rate as good: at
      p = -20 an annual return of -10 is above `p`, and one of -1 is more
      than 15 points above it. */
  lemma LossRatedGoodUnderNegativeGrowth()
    ensures JustificationStatus(-10.0, -20.0) == Good
    ensures JustificationStatus(-1.0, -20.0) == Excellent
  {
  }

  /** For a fixed `p` a better return never lowers the verdict. */
  lemma StatusMonotone(roi1: real, roi2: real, p: real)
    requires roi1 <= roi2
    ensures JustificationStatus(roi1, p).Rank() <= JustificationStatus(roi2, p).Rank()
  {
  }
}
