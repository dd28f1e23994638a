/** Two defects of `CalculateLoan` as written, each shown on a concrete input,
    and the corrected definitions with the properties they were meant to
    have. */
module Findings {
  import opened Results
  import opened Entities
  import opened Arithmetic
  import opened RateLookup
  import opened Simulation
  import opened Conditions

  /** The two tiers and the request of the repository's calculation test. */
  const SampleTiers: seq<LoanCondition> := [
    LoanCondition("tier1", 5.0, 18, 25, ZeroTime),
    LoanCondition("tier2", 3.0, 26, 40, ZeroTime)
  ]
  const SampleRequest := SimulationRequest(10000.0, 6, Time(1990, 1, 0), "R$", "test@example.com")
  /** A clock reading in 2024, when the sample borrower is 34. */
  const SampleNow := Time(2024, 100, 0)

  /** Inverted tier test, as written: the sample borrower of 34 lies in the
      26-40 tier, yet no tier passes the source's test, the rate stays zero,
      and the installment formula is left dividing zero by zero (where
      `big.Float` panics) — so `CalculateLoan` cannot produce a result. */
  lemma InvertedTestDividesZeroByZero()
    ensures Age(SampleNow, SampleRequest.birthDate) == 34
    ensures TierContains(SampleTiers[1], 34)
    ensures SelectRate(SampleTiers, 34) == 0.0
    ensures Growth(SelectRate(SampleTiers, 34), SampleRequest.installments) == 1.0
    ensures InstallmentPanics(SampleRequest.loanAmount, SelectRate(SampleTiers, 34), SampleRequest.installments)
  {
    DegenerateGrowth(0.0, SampleRequest.installments);
    assert MonthlyRate(0.0) == 0.0;
  }

  /** The same holds for the seeded tiers at every age. */
  lemma SeededTiersNeverSelected(age: int)
    ensures SelectRate(DefaultTiers, age) == 0.0
  {
    DefaultTiersPartitionAges();
    OrderedTiersNeverMatch(DefaultTiers, age);
  }

  /** Inverted tier test, corrected: with the inclusive test every adult age
      up to 100 selects the rate of the seeded tier that contains it. */
  lemma IntendedRateForSeededTiers(age: int)
    requires 18 <= age <= 100
    ensures SelectRateIntended(DefaultTiers, age)
         == if age <= 25 then 5.0 else if age <= 40 then 3.0 else if age <= 60 then 2.0 else 4.0
    ensures SelectRateIntended(DefaultTiers, age) > 0.0
  {
    var i := if age <= 25 then 0 else if age <= 40 then 1 else if age <= 60 then 2 else 3;
    assert LastMatch(DefaultTiers, age, TierContains, i);
    LastMatchDecides(DefaultTiers, age, TierContains, i);
  }

  /** Under the corrected test the seeded tiers always make the formula well
      defined for a positive number of installments. */
  lemma IntendedCalculationDefined(age: int, installments: int)
    requires 18 <= age <= 100
    requires installments >= 1
    ensures Growth(SelectRateIntended(DefaultTiers, age), installments) > 1.0
  {
    IntendedRateForSeededTiers(age);
    GrowthAboveOne(SelectRateIntended(DefaultTiers, age), installments);
  }

  /** A tier list the inverted test does accept: bounds given in reverse. */
  const ReversedTiers: seq<LoanCondition> := [LoanCondition("reversed", 3.0, 40, 26, ZeroTime)]

  /** Schedule passed by value, as written: even when a tier is selected, the
      six installments built for the sample request are dropped and the
      total stays zero. */
  lemma CalculateLoanDropsSchedule()
    ensures SelectRate(ReversedTiers, 34) == 3.0
    ensures Growth(3.0, SampleRequest.installments) > 1.0
    ensures |Schedule(SampleRequest.installments, InstallmentValue(SampleRequest.loanAmount, 3.0, 6), "R$")| == 6
    ensures CalculateLoan(Ok(ReversedTiers), SampleRequest, SampleNow).Ok?
    ensures CalculateLoan(Ok(ReversedTiers), SampleRequest, SampleNow).value.installments == []
    ensures CalculateLoan(Ok(ReversedTiers), SampleRequest, SampleNow).value.amountTobePaid == 0.0
  {
    assert LastMatch(ReversedTiers, 34, TierMatches, 0);
    LastMatchDecides(ReversedTiers, 34, TierMatches, 0);
    GrowthAboveOne(3.0, 6);
  }

  /** A term of no installments does not panic: with a tier selected, the
      factor is 1 but the numerator is 10000 · 0.0025 = 25, so `Quo` yields
      an infinity, the loop builds nothing, and the calculation answers an
      empty simulation. */
  lemma EmptyTermAnswersWithoutPanic()
    ensures Age(SampleNow, SampleRequest.birthDate) == 34
    ensures SelectRate(ReversedTiers, 34) == 3.0
    ensures Growth(3.0, 0) == 1.0
    ensures SampleRequest.loanAmount * MonthlyRate(3.0) * Growth(3.0, 0) == 25.0
    ensures !InstallmentPanics(SampleRequest.loanAmount, 3.0, 0)
    ensures CalculateLoan(Ok(ReversedTiers), SampleRequest.(installments := 0), SampleNow)
         == Ok(LoanSimulation(0.0, 0.0, SampleNow, "R$", [], "test@example.com"))
  {
    assert LastMatch(ReversedTiers, 34, TierMatches, 0);
    LastMatchDecides(ReversedTiers, 34, TierMatches, 0);
    DegenerateGrowth(3.0, 0);
    PanicCondition(SampleRequest.loanAmount, 3.0, 0);
  }

  /** Schedule passed by value, corrected: on the sample request the
      intended calculation keeps six installments whose total, cut to two
      decimals, is 10087.68. */
  lemma IntendedSampleTotals()
    ensures SelectRateIntended(SampleTiers, 34) == 3.0
    ensures Growth(3.0, 6) > 1.0
    ensures var r := CalculateLoanIntended(Ok(SampleTiers), SampleRequest, SampleNow);
            && r.Ok?
            && |r.value.installments| == 6
            && 10087.68 <= r.value.amountTobePaid < 10087.69
  {
    assert LastMatch(SampleTiers, 34, TierContains, 1);
    LastMatchDecides(SampleTiers, 34, TierContains, 1);
    GrowthAboveOne(3.0, 6);
    var v := InstallmentValue(10000.0, 3.0, 6);
    var r := CalculateLoanIntended(Ok(SampleTiers), SampleRequest, SampleNow);
    ScheduleSum(6, v, "R$");
    TimesIsProduct(6, v);
    assert Power(1.0025, 6) == 1.0025 * 1.0025 * 1.0025 * 1.0025 * 1.0025 * 1.0025;
    assert 10087.68 <= 6.0 * v < 10087.69;
  }
}
