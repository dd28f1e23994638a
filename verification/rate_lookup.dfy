/** Age derivation and interest-rate tier selection, the first half of
    `CalculateLoan`. */
module RateLookup {
  import opened Entities

  /** The `years`-th anniversary of `birth` has come by `today`, counted by
      day-of-year number: its year is past, or it is this year and the
      birth's day-of-year number has been reached. */
  ghost predicate AnniversaryReached(today: Time, birth: Time, years: int)
  {
    || birth.year + years < today.year
    || (birth.year + years == today.year && birth.yearDay <= today.yearDay)
  }

  /** The age in whole years: the difference of the calendar years, one less
      while today's day-of-year number is below the birth's. The result is
      the number of anniversaries reached by day-of-year number: the last
      one reached, never the next. After 28 February a leap year shifts the
      day numbers by one, so this is not always the calendar birthday (see
      `DayNumberIsNotCalendarDate`). */
  function Age(today: Time, birth: Time): (age: int)
    ensures age == today.year - birth.year || age == today.year - birth.year - 1
    ensures age == today.year - birth.year - 1 <==> today.yearDay < birth.yearDay
    ensures AnniversaryReached(today, birth, age)
    ensures !AnniversaryReached(today, birth, age + 1)
  {
    var years := today.year - birth.year;
    if today.yearDay < birth.yearDay then years - 1 else years
  }

  /** Born on 1 March 2000 (day 61 of a leap year), on 1 March 2001 (day 60
      of a common year) the borrower is still counted as 0: the day-of-year
      numbers differ although the calendar date has come round. */
  lemma DayNumberIsNotCalendarDate()
    ensures Age(Time(2001, 60, 0), Time(2000, 61, 0)) == 0
  {
  }

  /** The tier test exactly as the source writes it: the minimum bound is
      compared with `>=` and the maximum with `<`, so a tier matches only an
      age strictly above its maximum and at most its minimum. Only a tier
      whose bounds are the wrong way round can pass, and an age that passes
      is never one the tier's bracket contains. */
  function TierMatches(condition: LoanCondition, age: int): (passes: bool)
    ensures condition.minAge <= condition.maxAge ==> !passes
    ensures passes ==> condition.maxAge < condition.minAge
    ensures passes ==> !TierContains(condition, age)
  {
    condition.minAge >= age && condition.maxAge < age
  }

  /** The bracket test the tiers are meant for: both bounds inclusive. */
  predicate TierContains(condition: LoanCondition, age: int)
  {
    condition.minAge <= age <= condition.maxAge
  }

  /** `i` is the last position of `conditions` whose tier passes `matches`. */
  ghost predicate LastMatch(conditions: seq<LoanCondition>, age: int,
                            matches: (LoanCondition, int) -> bool, i: int)
  {
    && 0 <= i < |conditions|
    && matches(conditions[i], age)
    && forall j | i < j < |conditions| :: !matches(conditions[j], age)
  }

  /** The loop over the tiers that overwrites the rate on every match, from a
      zero start: the last matching tier in list order wins, and with no
      match at all the rate stays zero. */
  function SelectRateBy(conditions: seq<LoanCondition>, age: int,
                        matches: (LoanCondition, int) -> bool): (rate: real)
    ensures || (exists i :: LastMatch(conditions, age, matches, i) && rate == conditions[i].interestRate)
            || ((forall i | 0 <= i < |conditions| :: !matches(conditions[i], age)) && rate == 0.0)
  {
    if |conditions| == 0 then 0.0
    else if matches(conditions[|conditions| - 1], age) then
      assert LastMatch(conditions, age, matches, |conditions| - 1);
      conditions[|conditions| - 1].interestRate
    else
      var rate := SelectRateBy(conditions[..|conditions| - 1], age, matches);
      assert forall i | LastMatch(conditions[..|conditions| - 1], age, matches, i) ::
        LastMatch(conditions, age, matches, i);
      rate
  }

  /** The rate the source picks, with its inverted test. */
  function SelectRate(conditions: seq<LoanCondition>, age: int): (rate: real)
    ensures || (exists i :: LastMatch(conditions, age, TierMatches, i) && rate == conditions[i].interestRate)
            || ((forall i | 0 <= i < |conditions| :: !TierMatches(conditions[i], age)) && rate == 0.0)
  {
    SelectRateBy(conditions, age, TierMatches)
  }

  /** The rate the tiers are evidently meant to yield: same loop, inclusive
      bracket test. */
  function SelectRateIntended(conditions: seq<LoanCondition>, age: int): (rate: real)
    ensures || (exists i :: LastMatch(conditions, age, TierContains, i) && rate == conditions[i].interestRate)
            || ((forall i | 0 <= i < |conditions| :: !TierContains(conditions[i], age)) && rate == 0.0)
  {
    SelectRateBy(conditions, age, TierContains)
  }

  /** When one position is the last match, the rate is that tier's rate. */
  lemma {:induction false} LastMatchDecides(conditions: seq<LoanCondition>, age: int,
                                            matches: (LoanCondition, int) -> bool, i: int)
    requires LastMatch(conditions, age, matches, i)
    ensures SelectRateBy(conditions, age, matches) == conditions[i].interestRate
  {
    var rate := SelectRateBy(conditions, age, matches);
    assert matches(conditions[i], age);
    var j :| LastMatch(conditions, age, matches, j) && rate == conditions[j].interestRate;
    assert j == i;
  }

  /** With tiers whose bounds are in order, the inverted test never passes,
      so the rate is zero whatever the age. */
  lemma OrderedTiersNeverMatch(conditions: seq<LoanCondition>, age: int)
    requires forall i | 0 <= i < |conditions| :: conditions[i].minAge <= conditions[i].maxAge
    ensures forall i | 0 <= i < |conditions| :: !TierMatches(conditions[i], age)
    ensures SelectRate(conditions, age) == 0.0
  {
  }
}
