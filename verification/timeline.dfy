/** The layout computed by components/TimelineChart.tsx: one bar per construction
    phase, placed by the running total of the durations before it, a progress
    marker at the elapsed share of the total duration, and six axis ticks. A total
    duration of 0 shows a message instead of the chart. Positions and widths are
    percentages of the chart's width. */
module Timeline {
  import opened Numeric
  import opened Project

  /** A phase bar: its left edge and its width, in percent. */
  datatype Bar = Bar(left: real, width: real)

  datatype TimelineView =
    | NotDefined
    | Chart(bars: seq<Bar>, markerLeft: real, markerLabel: int, ticks: seq<int>)

  /** `x` as a percentage of a non-zero `total`. */
  function Percent(x: real, total: real): (p: real)
    requires total != 0.0
    ensures p * total == x * 100.0
  {
    (x / total) * 100.0
  }

  /** Percentages of one total add up. */
  lemma PercentAdd(a: real, b: real, total: real)
    requires total != 0.0
    ensures Percent(a + b, total) == Percent(a, total) + Percent(b, total)
  {
    var pab, pa, pb := Percent(a + b, total), Percent(a, total), Percent(b, total);
    assert (pab - pa - pb) * total == 0.0;
  }

  /** A non-negative share of a positive total is a non-negative percentage. */
  lemma PercentNonNegative(x: real, total: real)
    requires x >= 0.0 && total > 0.0
    ensures Percent(x, total) >= 0.0
  {
    var p := Percent(x, total);
    assert p * total >= 0.0;
  }

  /** The `k`-th bar: it starts where the durations of the phases before it end,
      and is as wide as its own duration. */
  function BarAt(phases: seq<ConstructionPhase>, total: real, k: nat): Bar
    requires total != 0.0 && k < |phases|
  {
    Bar(Percent(Sum(Durations(phases)[..k]), total), Percent(phases[k].durationMonths, total))
  }

  /** The `i`-th axis label: the total duration times i/5, rounded. */
  function Tick(total: real, i: nat): int {
    Round(total * (i as real / 5.0))
  }

  /** The six axis labels, at 0, 1/5, ..., 5/5 of the total duration. */
  function AxisTicks(total: real): (ticks: seq<int>)
    ensures |ticks| == 6
    ensures ticks[0] == 0 && ticks[5] == Round(total)
  {
    [Tick(total, 0), Tick(total, 1), Tick(total, 2), Tick(total, 3), Tick(total, 4), Tick(total, 5)]
  }

  /** For a non-negative duration the ticks rise from left to right. */
  lemma AxisTicksNonDecreasing(total: real, i: nat, j: nat)
    requires total >= 0.0 && i <= j < 6
    ensures AxisTicks(total)[i] <= AxisTicks(total)[j]
  {
    var a, b := total * (i as real / 5.0), total * (j as real / 5.0);
    MulMonotone(total, i as real / 5.0, total, j as real / 5.0);
    RoundMonotone(a, b);
    assert AxisTicks(total)[i] == Tick(total, i) && AxisTicks(total)[j] == Tick(total, j);
  }

  /** The component: a message for a total duration of 0, otherwise the bars
      laid out with a running total, the marker and the ticks. */
  method TimelineChart(phases: seq<ConstructionPhase>, totalDuration: real, elapsedMonths: real) returns (view: TimelineView)
    ensures view.NotDefined? <==> totalDuration == 0.0
    ensures view.Chart? ==>
      && |view.bars| == |phases|
      && (forall k :: 0 <= k < |phases| ==> view.bars[k] == BarAt(phases, totalDuration, k))
      && view.markerLeft * totalDuration == elapsedMonths * 100.0
      && view.markerLabel == Round(view.markerLeft)
      && view.ticks == AxisTicks(totalDuration)
  {
    if totalDuration == 0.0 {
      return NotDefined;
    }
    var accumulatedDuration := 0.0;
    var bars: seq<Bar> := [];
    var k := 0;
    while k < |phases|
      invariant 0 <= k <= |phases| && |bars| == k
      invariant accumulatedDuration == Sum(Durations(phases)[..k])
      invariant forall j :: 0 <= j < k ==> bars[j] == BarAt(phases, totalDuration, j)
    {
      var left := (accumulatedDuration / totalDuration) * 100.0;
      var width := (phases[k].durationMonths / totalDuration) * 100.0;
      PrefixSumStep(Durations(phases), k);
      accumulatedDuration := accumulatedDuration + phases[k].durationMonths;
      bars := bars + [Bar(left, width)];
      k := k + 1;
    }
    var marker := (elapsedMonths / totalDuration) * 100.0;
    view := Chart(bars, marker, Round(marker), AxisTicks(totalDuration));
  }

  /** The bars tile the chart without gaps or overlaps: the first starts at 0,
      and each next one starts where the previous one ends. */
  lemma BarsContiguous(phases: seq<ConstructionPhase>, total: real, k: nat)
    requires total != 0.0 && k + 1 < |phases|
    ensures BarAt(phases, total, 0).left == 0.0
    ensures BarAt(phases, total, k + 1).left == BarAt(phases, total, k).left + BarAt(phases, total, k).width
  {
    assert Durations(phases)[..0] == [];
    PrefixSumStep(Durations(phases), k);
    PercentAdd(Sum(Durations(phases)[..k]), phases[k].durationMonths, total);
  }

  /** With non-negative durations and a positive total, bars never start
      before the previous one. */
  lemma BarLeftsNonDecreasing(phases: seq<ConstructionPhase>, total: real, k: nat)
    requires total > 0.0 && k + 1 < |phases|
    requires forall i :: 0 <= i < |phases| ==> phases[i].durationMonths >= 0.0
    ensures BarAt(phases, total, k).left <= BarAt(phases, total, k + 1).left
  {
    BarsContiguous(phases, total, k);
    PercentNonNegative(phases[k].durationMonths, total);
  }

  /** When the total is the sum of the phases' durations, the last bar ends at
      exactly 100%. */
  lemma LastBarEndsAtHundred(phases: seq<ConstructionPhase>)
    requires |phases| > 0 && TotalDuration(phases) != 0.0
    ensures var last := BarAt(phases, TotalDuration(phases), |phases| - 1);
            last.left + last.width == 100.0
  {
    var ds, total, n := Durations(phases), TotalDuration(phases), |phases|;
    PrefixSumStep(ds, n - 1);
    assert ds[..n] == ds;
    PercentAdd(Sum(ds[..n - 1]), phases[n - 1].durationMonths, total);
    RatioOfItself(total);
  }

  /** Between the start and the end of the project the marker's label is a
      whole percentage from 0 to 100. */
  lemma MarkerWithinChart(elapsed: real, total: real)
    requires 0.0 <= elapsed <= total && total > 0.0
    ensures 0.0 <= Percent(elapsed, total) <= 100.0
    ensures 0 <= Round(Percent(elapsed, total)) <= 100
  {
    RatioWithinUnit(elapsed, total);
    RoundMonotone(0.0, Percent(elapsed, total));
    RoundMonotone(Percent(elapsed, total), 100.0);
    RoundOfInt(0);
    RoundOfInt(100);
  }
}
