/** The record shapes of types.ts that carry behaviour elsewhere: construction
    phases and buyer installments, with the left-to-right totals the components
    compute over them with `reduce`. */
module Project {
  import opened Numeric

  /** One construction phase; `durationMonths` and `costPerMeter` are
      non-negative in every input the form produces, but nothing enforces it. */
  datatype ConstructionPhase = ConstructionPhase(id: int, name: string, durationMonths: real, costPerMeter: real)

  /** One payment of the buyer's schedule; `dueMonth == 0` is the down payment. */
  datatype Installment = Installment(id: int, name: string, amount: real, dueMonth: real)

  function Durations(phases: seq<ConstructionPhase>): (ds: seq<real>)
    ensures |ds| == |phases|
    ensures forall i :: 0 <= i < |phases| ==> ds[i] == phases[i].durationMonths
  {
    seq(|phases|, i requires 0 <= i < |phases| => phases[i].durationMonths)
  }

  function CostsPerMeter(phases: seq<ConstructionPhase>): (cs: seq<real>)
    ensures |cs| == |phases|
    ensures forall i :: 0 <= i < |phases| ==> cs[i] == phases[i].costPerMeter
  {
    seq(|phases|, i requires 0 <= i < |phases| => phases[i].costPerMeter)
  }

  function Amounts(installments: seq<Installment>): (xs: seq<real>)
    ensures |xs| == |installments|
    ensures forall i :: 0 <= i < |installments| ==> xs[i] == installments[i].amount
  {
    seq(|installments|, i requires 0 <= i < |installments| => installments[i].amount)
  }

  /** The project's total duration in months: the phases' durations summed. */
  function TotalDuration(phases: seq<ConstructionPhase>): real {
    Sum(Durations(phases))
  }

  /** The base construction cost per metre: the phases' costs per metre summed. */
  function TotalCostPerMeter(phases: seq<ConstructionPhase>): real {
    Sum(CostsPerMeter(phases))
  }

  /** What the buyer pays in all: the installment amounts summed. */
  function TotalInstallments(installments: seq<Installment>): real {
    Sum(Amounts(installments))
  }

  predicate NonNegativePhases(phases: seq<ConstructionPhase>) {
    forall i :: 0 <= i < |phases| ==> phases[i].durationMonths >= 0.0 && phases[i].costPerMeter >= 0.0
  }

  /** A phase list is totalled phase by phase: no phases give 0, and appending a
      phase adds its duration and its cost per metre. */
  lemma PhaseTotalsStep(phases: seq<ConstructionPhase>, p: ConstructionPhase)
    ensures TotalDuration([]) == 0.0 && TotalCostPerMeter([]) == 0.0
    ensures TotalDuration(phases + [p]) == TotalDuration(phases) + p.durationMonths
    ensures TotalCostPerMeter(phases + [p]) == TotalCostPerMeter(phases) + p.costPerMeter
  {
    assert Durations(phases + [p]) == Durations(phases) + [p.durationMonths];
    assert CostsPerMeter(phases + [p]) == CostsPerMeter(phases) + [p.costPerMeter];
    SumAppend(Durations(phases), [p.durationMonths]);
    SumAppend(CostsPerMeter(phases), [p.costPerMeter]);
    assert Sum([p.durationMonths]) == Sum([]) + p.durationMonths;
    assert Sum([p.costPerMeter]) == Sum([]) + p.costPerMeter;
  }

  /** The totals of two phase lists placed one after the other add up. */
  lemma PhaseTotalsAppend(a: seq<ConstructionPhase>, b: seq<ConstructionPhase>)
    ensures TotalDuration(a + b) == TotalDuration(a) + TotalDuration(b)
    ensures TotalCostPerMeter(a + b) == TotalCostPerMeter(a) + TotalCostPerMeter(b)
  {
    assert Durations(a + b) == Durations(a) + Durations(b);
    assert CostsPerMeter(a + b) == CostsPerMeter(a) + CostsPerMeter(b);
    SumAppend(Durations(a), Durations(b));
    SumAppend(CostsPerMeter(a), CostsPerMeter(b));
  }

  /** Non-negative phases have non-negative totals. */
  lemma PhaseTotalsNonNegative(phases: seq<ConstructionPhase>)
    requires NonNegativePhases(phases)
    ensures TotalDuration(phases) >= 0.0 && TotalCostPerMeter(phases) >= 0.0
  {
    SumNonNegative(Durations(phases));
    SumNonNegative(CostsPerMeter(phases));
  }

  /** Installments are totalled one by one: none give 0, and appending one adds
      its amount. */
  lemma InstallmentTotalStep(installments: seq<Installment>, x: Installment)
    ensures TotalInstallments([]) == 0.0
    ensures TotalInstallments(installments + [x]) == TotalInstallments(installments) + x.amount
  {
    assert Amounts(installments + [x]) == Amounts(installments) + [x.amount];
    SumAppend(Amounts(installments), [x.amount]);
    assert Sum([x.amount]) == Sum([]) + x.amount;
  }
}
