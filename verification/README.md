# Loan engine core in Dafny

A model of the business logic of the loan engine's two use cases.

`LoanSimulation_usecase` turns a batch of simulation requests into loan simulations. It works through the requests one at a time, in input order. Each request is served from the cache when an entry under its email decodes. Otherwise the use case runs `CalculateLoan`, and the first calculation error aborts the whole batch. `CalculateLoan` does the following:
- derives the borrower's age from year and day of year;
- picks an annual rate from the configured tiers, where the last passing tier wins and the default is zero;
- computes the constant (annuity) installment from a repeated-multiplication power;
- builds a schedule.

`LoanCondition_usecase` has three operations:
- a cache-aside read of the tier list under the key `"*"`;
- the field-map update of one tier;
- the fail-fast seeding of four default tiers.

Money and rates are exact `real`s. The operations are pure functions over immutable datatypes. The cache is a `map<string, Payload>`. The repository, the JSON decoder, the cache driver's answer to a write and the calculation are function parameters.

Three of the source's four loops in `loanSimulation_usecase.go` are methods, each proved to compute a recursive reference function; the fourth, the tier loop at :89-93, is the recursive function `SelectRateBy`:
- `CalculatePower` computes `Power`;
- `CreateInstallments`, whose loop is `InstallmentLoop`, computes `Schedule`;
- `GetLoanSimulation` computes `RunBatch`, defined over prefixes of the batch.

Files: `results.dfy` (Option/Result/Outcome), `entities.dfy` (records), `cache.dfy` (the key/value store), `arithmetic.dfy` (power, annuity, schedule), `rate_lookup.dfy` (age, tier selection), `simulation.dfy` (`CalculateLoan`, batch loop), `conditions.dfy` (condition use case), `findings.dfy` (the two defects below).

Two defects in `CalculateLoan` are kept exactly as written. They are shown on concrete inputs, and corrected definitions sit beside them (see "## Findings"):
- the tier test is inverted;
- `createInstallments` receives the schedule and the total by value.

## Model

| member | source | states |
|---|---|---|
| Cache.Lookup | internal/domain/interfaces/cache.go:6 | a present key is a hit that yields its payload; an absent key is a miss |
| Cache.Write | internal/domain/interfaces/cache.go:7 | an accepted write replaces exactly the entry under the key; a refused write changes nothing; other keys are untouched |
| Arithmetic.CalculatePower | internal/usecases/loanSimulation_usecase.go:127-133 | the loop's product is `base` multiplied into 1 `exponent` times; zero or negative exponents give 1 |
| Arithmetic.PowerBase | internal/usecases/loanSimulation_usecase.go:127-133 | power(b, 0) = 1 |
| Arithmetic.PowerStep | internal/usecases/loanSimulation_usecase.go:127-133 | power(b, n+1) = power(b, n) · b |
| Arithmetic.PowerExamples | internal/usecases/loanSimulation_usecase_test.go:55-59 | 2³ = 8, 5⁰ = 1, 3² = 9, 7¹ = 7, 10⁴ = 10000 |
| Arithmetic.PowerAdd | internal/usecases/loanSimulation_usecase.go:127-133 | exponents add: power(b, m+n) = power(b, m) · power(b, n) |
| Arithmetic.PowerOfOne | internal/usecases/loanSimulation_usecase.go:127-133 | any power of 1 is 1 |
| Arithmetic.PowerPositive | internal/usecases/loanSimulation_usecase.go:127-133 | a positive base has positive powers |
| Arithmetic.PowerAboveOne | internal/usecases/loanSimulation_usecase.go:127-133 | a base above 1 raised to n ≥ 1 stays above 1 |
| Arithmetic.DegenerateGrowth | internal/usecases/loanSimulation_usecase.go:96-110 | a zero rate or n ≤ 0 makes (1+m)^n exactly 1, so the denominator at :108 is zero; the division is 0/0 only when the principal or the rate is zero as well (see `PanicCondition`) |
| Arithmetic.GrowthAboveOne | internal/usecases/loanSimulation_usecase.go:96-108 | a positive rate over n ≥ 1 months makes (1+m)^n > 1, so the denominator is positive |
| Arithmetic.InstallmentValue | internal/usecases/loanSimulation_usecase.go:96-110 | the installment v solves v · ((1+m)^n − 1) = P · m · (1+m)^n, with m = rate/1200 |
| Arithmetic.Quotient | internal/usecases/loanSimulation_usecase.go:110 | the quotient times a non-zero divisor gives back the numerator |
| Arithmetic.PanicCondition | internal/usecases/loanSimulation_usecase.go:103-110 | the division panics (0/0) exactly when (1+m)^n = 1 and the principal or the rate is zero; for a term of n ≤ 0, exactly when the principal or the rate is zero |
| Arithmetic.InstallmentClearsLoan | internal/usecases/loanSimulation_usecase.go:96-110 | paying P·m·g/(g−1) monthly, with interest at m = rate/1200 added each month, leaves exactly nothing owed after n months |
| Arithmetic.InstallmentPositive | internal/usecases/loanSimulation_usecase.go:96-110 | positive principal, positive rate and n ≥ 1 give a positive installment |
| Arithmetic.Schedule | internal/usecases/loanSimulation_usecase.go:135-146 | n installments (none for n ≤ 0), numbered 1..n in order, each with amount = fee amount = the installment value and the request's currency |
| Arithmetic.CreateInstallments | internal/usecases/loanSimulation_usecase.go:135-146 | the loop builds exactly that schedule, and its running total is the sum of the amounts, i.e. n × value |
| Arithmetic.InstallmentLoop | internal/usecases/loanSimulation_usecase.go:136-145 | after the loop the lines are the schedule for the requested count, and the total is the value added once per line |
| RateLookup.Age | internal/usecases/loanSimulation_usecase.go:79-85 | age is the year difference, minus one exactly when today's day-of-year number is below the birth's; it counts the anniversaries reached by day-of-year number, never the next |
| RateLookup.DayNumberIsNotCalendarDate | internal/usecases/loanSimulation_usecase.go:79-85 | born 1 March 2000 (day 61), on 1 March 2001 (day 60) the age is still 0: day-of-year numbers are not calendar dates |
| RateLookup.TierMatches | internal/usecases/loanSimulation_usecase.go:90 | the test as written rejects every age for a tier whose MinAge ≤ MaxAge, so only a tier with inverted bounds can pass, and an age it passes is never inside the tier's inclusive bracket |
| RateLookup.SelectRateBy | internal/usecases/loanSimulation_usecase.go:88-93 | the rate is that of the last tier in list order that passes the test, or zero when none passes |
| RateLookup.SelectRate | internal/usecases/loanSimulation_usecase.go:88-93 | the same, with the test as written (`MinAge >= age && MaxAge < age`) |
| RateLookup.SelectRateIntended | internal/usecases/loanSimulation_usecase.go:88-93 | the same, with the inclusive bracket test `MinAge <= age <= MaxAge` |
| RateLookup.LastMatchDecides | internal/usecases/loanSimulation_usecase.go:88-93 | whenever a position is the last passing tier, its rate is the one selected |
| RateLookup.OrderedTiersNeverMatch | internal/usecases/loanSimulation_usecase.go:90 | if every tier has MinAge ≤ MaxAge, no tier passes the test and the rate is zero |
| Simulation.CalculateLoan | internal/usecases/loanSimulation_usecase.go:70-125 | defined on every input except a 0/0 installment (where `Quo` panics); a condition-fetch error comes back wrapped; otherwise the total and fee total are equal, currency and email are copied from the request, the date is the clock reading, and (schedule passed by value) the total is zero with no installments |
| Simulation.CalculateLoanLosesOnlyTheSchedule | internal/usecases/loanSimulation_usecase.go:88-124 | where both are defined, the calculation as written fails exactly as the corrected one does and otherwise answers the corrected simulation with schedule and totals stripped |
| Simulation.CalculateLoanIntended | internal/usecases/loanSimulation_usecase.go:113-124 | with the inclusive tier test and the schedule kept, there are exactly max(n, 0) installments numbered 1..n, the total is their sum, and each installment clears the loan in n months |
| Simulation.ServeRequest | internal/usecases/loanSimulation_usecase.go:39-64 | one iteration fails exactly when there is no decodable entry and the calculation fails, with "Error calculating loan, " + the cause; a hit leaves the cache as it was; a success changes at most the entry under the answer's email |
| Simulation.RunBatch | internal/usecases/loanSimulation_usecase.go:30-68 | a successful batch has exactly one answer per request |
| Simulation.GetLoanSimulation | internal/usecases/loanSimulation_usecase.go:30-68 | the loop, early return included, computes the answer and final cache of the in-order reference; a failure comes from some request whose calculation failed |
| Simulation.AbortIgnoresLaterRequests | internal/usecases/loanSimulation_usecase.go:59-62 | after the first failure, appending further requests changes neither the error nor the cache, so they are never processed |
| Simulation.SuccessfulPrefix | internal/usecases/loanSimulation_usecase.go:37-67 | every prefix of a successful batch succeeds, with the leading answers of the whole batch |
| Simulation.BatchAnswersInOrder | internal/usecases/loanSimulation_usecase.go:37-67 | answer i is what serving request i gave, against the cache left by requests 0..i−1 |
| Simulation.BatchStopsAtFirstFailure | internal/usecases/loanSimulation_usecase.go:59-62 | a failed batch failed at one request after all earlier ones succeeded, returning that error and the cache as the earlier requests left it |
| Simulation.ServeFailsOnlyInCalculation | internal/usecases/loanSimulation_usecase.go:40-62 | serving a request fails exactly when there is no decodable entry and the calculation fails, with message "Error calculating loan, " + the cause |
| Simulation.CacheHitSkipsCalculation | internal/usecases/loanSimulation_usecase.go:40-55 | a decodable entry is emitted as decoded with the cache unchanged, and is independent of the calculation and the write policy |
| Simulation.CacheMissWritesRequest | internal/usecases/loanSimulation_usecase.go:58-64 | on a miss the calculated simulation is emitted and the request is written under the simulation's email; an accepted write changes only that key, a refused one changes nothing |
| Simulation.WriteVerdictIgnored | internal/usecases/loanSimulation_usecase.go:63 | the driver's answer to the write changes neither success nor the answer |
| Simulation.CalculatedKeyIsRequestEmail | internal/usecases/loanSimulation_usecase.go:58-124 | when `CalculateLoan` is the calculation and the request misses the cache, serving it succeeds and writes under the request's own email: an accepted write stores the request there, a refused one changes nothing, and no other key changes |
| Simulation.RefusedWritesKeepCache | internal/usecases/loanSimulation_usecase.go:63 | if the driver refuses every write, a batch leaves the cache as it found it |
| Conditions.GetLoanConditions | internal/usecases/loanCondition_usecase.go:41-67 | a hit always succeeds without touching the cache; a miss with a repository error fails with the wrapped error and no write; a successful miss returns exactly the repository's list; the cache changes only by storing a non-empty list under "*" |
| Conditions.CacheHitIgnoresRepository | internal/usecases/loanCondition_usecase.go:43-50 | on a hit the repository and the write policy are never consulted; the answer is the decoded list, or the empty list with no error when decoding fails |
| Conditions.CacheMissWritesNonEmptyList | internal/usecases/loanCondition_usecase.go:58-64 | on a miss with a non-empty list, an accepted write returns the list and stores it under "*"; a refused write fails the call with the wrapped error and changes nothing |
| Conditions.CacheMissEmptyListNotCached | internal/usecases/loanCondition_usecase.go:58-66 | on a miss with an empty list, nothing is written and the empty list comes back with no error |
| Conditions.SecondReadServedFromCache | internal/usecases/loanCondition_usecase.go:41-66 | once a miss has cached the list, the next read returns the same list from the cache, whatever the repository says by then |
| Conditions.ConditionUpdate | internal/usecases/loanCondition_usecase.go:26-32 | the update is keyed by the tier's name; its fields are exactly name, InterestRate, MaxAge and MinAge; ModifiedDate is never written |
| Conditions.ConditionUpdateRoundTrip | internal/usecases/loanCondition_usecase.go:26-30 | the tier can be read back from the update's fields, all but the modification date |
| Conditions.SetLoanCondition | internal/usecases/loanCondition_usecase.go:25-39 | the answer is the repository's answer to one update keyed by the tier's name whose fields give back the whole tier except its modification date |
| Conditions.SetLoanConditionPassesAnswerThrough | internal/usecases/loanCondition_usecase.go:25-39 | the repository's error is returned unchanged; otherwise the result is nil |
| Conditions.SeedFrom | internal/usecases/loanCondition_usecase.go:69-115 | saves run in list order from a position; all but a failing last one were saved, and the failure names its tier number |
| Conditions.InitLoanEngineConditionsData | internal/usecases/loanCondition_usecase.go:69-115 | nil exactly when all four saves succeed; otherwise the first failing save at position k gives "tier k+1" in the error, and tiers after it are never attempted |
| Conditions.DefaultTiersPartitionAges | internal/usecases/loanCondition_usecase.go:70-108 | the four seeded tiers cover 18-25, 26-40, 41-60 and 61-100, each in order, contiguous and non-overlapping; tiers 3 and 4 reuse the name "tier2" |
| Findings.InvertedTestDividesZeroByZero | internal/usecases/loanSimulation_usecase.go:88-110 | a borrower of 34 inside the 26-40 tier gets rate zero, and the formula divides zero by zero |
| Findings.SeededTiersNeverSelected | internal/usecases/loanCondition_usecase.go:70-108 | under the test as written no seeded tier is ever selected, at any age |
| Findings.IntendedRateForSeededTiers | internal/usecases/loanSimulation_usecase.go:88-93 | under the inclusive test every age 18..100 gets the positive rate of the seeded tier containing it |
| Findings.IntendedCalculationDefined | internal/usecases/loanSimulation_usecase.go:96-110 | under the inclusive test the seeded tiers keep the formula well defined for n ≥ 1 |
| Findings.CalculateLoanDropsSchedule | internal/usecases/loanSimulation_usecase.go:113-124 | even when a tier is selected, the six installments built are dropped and the total is zero |
| Findings.EmptyTermAnswersWithoutPanic | internal/usecases/loanSimulation_usecase.go:103-124 | a term of 0 installments at 3% has factor 1 and numerator 25, so nothing panics and the calculation answers an empty simulation |
| Findings.IntendedSampleTotals | internal/usecases/loanSimulation_usecase_test.go:96-124 | the corrected calculation on the repository's sample (10000 over 6 months at 3%) keeps 6 installments whose total lies in [10087.68, 10087.69) |

## Left out

- HTTP handlers, routing, authentication middleware, OIDC credentials, API docs and program wiring: these are transport and start-up code.
- Database, cache, message-queue, mail and logger drivers, and the test mocks: the model reduces each of them to a map or a function parameter.
- The e-mail step of a cache hit (template rendering and `SendMail`): it is a side effect that never changes the result.
- Log lines: no effect on results.
- JSON encoding and decoding: `decode` is an opaque partial function, and the cache stores typed payloads.
  - Decoding into the `loanSimulation` variable that is reused across iterations, which can merge fields, is not modelled.
  - A `Get` value that is not a string would make the type assertion panic; this is not modelled.
  - In `GetLoanConditions`, a decode failure on a hit yields the empty list, even where `json.Unmarshal` might fill part of the list.
- The cache time-to-live values (5 s, 10 s): entries never expire in the model.
- The cache driver's answer to a write: it is a deterministic function of key and payload.
- The clock: `time.Now()` becomes the parameter `now`, and the two readings in `CalculateLoan` are treated as one.
- `big.Float` precision and rounding: arithmetic is exact `real`.
- Shared cache: in the program wiring both use cases share one cache, so the `"*"` entry written while conditions are fetched lands in the same store the batch reads. The model instead passes `GetLoanConditions`' answer to `CalculateLoan` as a value, and keeps the batch's cache to the simulation entries.
- The repository: it is reduced to its answers. The update's effect on stored documents, and the order-dependent answers of a real store, are not modelled.
- Asynchronous processing, request validation, per-item error collection, persistence of simulations and two-decimal truncation: none of these exists in the modelled code.
- Behaviour the repository's tests expect from fields and symbols the code does not define: not modelled.
- Arithmetic.InstallmentValue: requires the compounding factor to differ from 1. That is stronger than the source. `big.Float.Quo` panics only on 0/0 (`InstallmentPanics`); a non-zero numerator over a zero denominator gives an infinity, which `real` cannot represent. The factor is 1 for every term n ≤ 0, and for a monthly rate of −2 with an even term.
- Simulation.CalculateLoan: does not compute the installment value. The result as written never uses it, so the model needs no infinity; it excludes only the 0/0 panic.
- Simulation.CalculateLoanIntended: requires a factor other than 1 when n ≥ 1. This excludes only a monthly rate of −2 with an even term, where the source would copy an infinite installment into every line.
- Calendar dates: a date is its year and day-of-year number, as the age computation compares them. Leap years are not modelled, so the one-day shift after 28 February is visible only through `RateLookup.DayNumberIsNotCalendarDate`.

## Findings

| source | as written | input that shows it | evidently intended | confidence | as-written member | corrected member |
|---|---|---|---|---|---|---|
| internal/usecases/loanSimulation_usecase.go:90 | the tier test `MinAge >= age && MaxAge < age` passes only ages in (MaxAge, MinAge], so a normally ordered tier never passes; the rate stays zero and :110 divides 0 by 0 | tiers 18-25 and 26-40, birth on day 1 of 1990, today day 100 of 2024: age 34, rate 0, growth 1 | `MinAge <= age && age <= MaxAge` | not executed; high | Findings.InvertedTestDividesZeroByZero | RateLookup.SelectRateIntended |
| internal/usecases/loanSimulation_usecase.go:116 | `createInstallments` receives `loanSimulation` and `AmountTobePaid` by value, so the result carries a zero total and no installments | one tier with bounds 40..26 at 3%; 10000 over 6 installments at age 34: six installments built, none returned | pass both by pointer so the schedule and total reach the result | not executed; high | Findings.CalculateLoanDropsSchedule | Simulation.CalculateLoanIntended |

The corrected calculation keeps `AmountFeeTobePaid` equal to the total, as line 120 assigns it.
