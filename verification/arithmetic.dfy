/** The loan arithmetic of `LoanSimulation_usecase`: repeated-multiplication
    power, the annuity (constant installment) formula and the schedule
    builder. Exact `real` stands in for `big.Float`. */
module Arithmetic {
  import opened Entities

  /** `base` multiplied into 1 `exponent` times; the loop body never runs for
      a zero or negative exponent, so those give 1. */
  function Power(base: real, exponent: int): (product: real)
    decreases exponent
  {
    if exponent <= 0 then 1.0 else Power(base, exponent - 1) * base
  }

  /** `calculatePower`: a counting loop over a running product. */
  method CalculatePower(base: real, exponent: int) returns (result: real)
    ensures result == Power(base, exponent)
    ensures exponent <= 0 ==> result == 1.0
  {
    result := 1.0;
    var i := 0;
    while i < exponent
      invariant 0 <= i
      invariant exponent >= 0 ==> i <= exponent
      invariant exponent < 0 ==> i == 0
      invariant result == Power(base, i)
    {
      result := result * base;
      i := i + 1;
    }
  }

  lemma PowerBase(base: real)
    ensures Power(base, 0) == 1.0
  {
  }

  lemma PowerStep(base: real, n: nat)
    ensures Power(base, n + 1) == Power(base, n) * base
  {
  }

  /** The concrete cases the repository's own tests exercise. */
  lemma PowerExamples()
    ensures Power(2.0, 3) == 8.0
    ensures Power(5.0, 0) == 1.0
    ensures Power(3.0, 2) == 9.0
    ensures Power(7.0, 1) == 7.0
    ensures Power(10.0, 4) == 10000.0
  {
    assert Power(10.0, 2) == 100.0;
  }

  /** Exponents add: the repeated product splits at any point. */
  lemma {:induction false} PowerAdd(base: real, m: nat, n: nat)
    ensures Power(base, m + n) == Power(base, m) * Power(base, n)
  {
    if n > 0 {
      PowerAdd(base, m, n - 1);
      PowerStep(base, m + n - 1);
      PowerStep(base, n - 1);
      MulAssoc(Power(base, m + n), Power(base, m + n - 1), Power(base, m),
               Power(base, n), Power(base, n - 1), base);
    }
  }

  /** One step of `PowerAdd` over plain reals: with `abc = ab * c`,
      `ab = a * b` and `bc = b * c`, also `abc = a * bc`. Each power is
      passed in as its own variable so that the inductive step stays a
      linear fact about named values instead of a product of powers. */
  lemma MulAssoc(abc: real, ab: real, a: real, bc: real, b: real, c: real)
    requires abc == ab * c
    requires ab == a * b
    requires bc == b * c
    ensures abc == a * bc
  {
  }

  lemma {:induction false} PowerOfOne(n: int)
    ensures Power(1.0, n) == 1.0
    decreases n
  {
    if n > 0 {
      PowerOfOne(n - 1);
    }
  }

  lemma {:induction false} PowerPositive(base: real, n: int)
    requires base > 0.0
    ensures Power(base, n) > 0.0
    decreases n
  {
    if n > 0 {
      PowerPositive(base, n - 1);
      var p := Power(base, n - 1);
      assert p * base > 0.0;
    }
  }

  /** A base above one raised to a positive exponent stays above one. */
  lemma {:induction false} PowerAboveOne(base: real, n: int)
    requires base > 1.0
    requires n >= 1
    ensures Power(base, n) > 1.0
    decreases n
  {
    if n > 1 {
      PowerAboveOne(base, n - 1);
      var p := Power(base, n - 1);
      assert p * base - p == p * (base - 1.0);
      assert p * (base - 1.0) > 0.0;
    }
  }

  /** The annual rate in percent spread over twelve months: `rate / (12*100)`. */
  function MonthlyRate(annualRate: real): (monthly: real)
  {
    annualRate / 1200.0
  }

  /** `(1 + r)^n`, the compounding factor over the whole loan. */
  function Growth(annualRate: real, installments: int): (factor: real)
  {
    Power(1.0 + MonthlyRate(annualRate), installments)
  }

  /** A zero rate, or a schedule of no installments, makes the compounding
      factor exactly 1, so the annuity formula's denominator is zero. */
  lemma DegenerateGrowth(annualRate: real, installments: int)
    requires annualRate == 0.0 || installments <= 0
    ensures Growth(annualRate, installments) == 1.0
  {
    PowerOfOne(installments);
  }

  /** A positive rate over at least one month compounds to more than 1, so
      the formula's denominator is positive. */
  lemma GrowthAboveOne(annualRate: real, installments: int)
    requires annualRate > 0.0
    requires installments >= 1
    ensures Growth(annualRate, installments) > 1.0
  {
    PowerAboveOne(1.0 + MonthlyRate(annualRate), installments);
  }

  /** The constant installment `P * r * (1+r)^n / ((1+r)^n - 1)`. A factor
      of exactly 1 makes the denominator zero: `big.Float.Quo` then panics
      (zero numerator, see `InstallmentPanics`) or yields an infinity, which
      `real` cannot hold, so the factor is required to differ from 1. */
  function InstallmentValue(principal: real, annualRate: real, installments: int): (value: real)
    requires Growth(annualRate, installments) != 1.0
    ensures value * (Growth(annualRate, installments) - 1.0)
         == principal * MonthlyRate(annualRate) * Growth(annualRate, installments)
  {
    Quotient(principal * MonthlyRate(annualRate) * Growth(annualRate, installments),
             Growth(annualRate, installments) - 1.0)
  }

  /** `big.Float.Quo` on finite operands and a non-zero divisor. */
  function Quotient(numerator: real, denominator: real): (quotient: real)
    requires denominator != 0.0
    ensures quotient * denominator == numerator
  {
    numerator / denominator
  }

  /** The condition under which `big.Float.Quo` panics in the installment
      formula: zero divided by zero, i.e. a zero numerator `P * r * (1+r)^n`
      over a compounding factor of exactly 1. */
  predicate InstallmentPanics(principal: real, annualRate: real, installments: int)
  {
    && principal * MonthlyRate(annualRate) * Growth(annualRate, installments) == 0.0
    && Growth(annualRate, installments) == 1.0
  }

  /** The formula panics exactly when the factor is 1 and the principal or
      the rate is zero. Any non-zero loan at a non-zero rate over a term of
      no installments gets an infinity instead, and no panic. */
  lemma PanicCondition(principal: real, annualRate: real, installments: int)
    ensures InstallmentPanics(principal, annualRate, installments)
        <==> Growth(annualRate, installments) == 1.0 && (principal == 0.0 || annualRate == 0.0)
    ensures installments <= 0 ==>
              (InstallmentPanics(principal, annualRate, installments)
               <==> principal == 0.0 || annualRate == 0.0)
  {
    if installments <= 0 {
      DegenerateGrowth(annualRate, installments);
    }
    if Growth(annualRate, installments) == 1.0 {
      ProductZero(principal, MonthlyRate(annualRate), Growth(annualRate, installments));
    }
  }

  /** `a * b * g` with `g = 1` vanishes exactly when `a` or `b` does. */
  lemma ProductZero(a: real, b: real, g: real)
    requires g == 1.0
    ensures a * b * g == 0.0 <==> a == 0.0 || b == 0.0
  {
    assert a * b * g == a * b;
    if a != 0.0 && b != 0.0 {
      assert a * b != 0.0;
    }
  }

  /** What is still owed after `months` monthly payments of `payment`, when
      each month first adds interest at `monthly` and then takes the payment. */
  function Balance(principal: real, monthly: real, payment: real, months: int): (owed: real)
    decreases months
  {
    if months <= 0 then principal
    else Balance(principal, monthly, payment, months - 1) * (1.0 + monthly) - payment
  }

  /** The balance in closed form, scaled by the monthly rate to stay free of
      division. */
  lemma {:induction false} BalanceClosedForm(principal: real, monthly: real, payment: real, months: nat)
    ensures monthly * Balance(principal, monthly, payment, months)
         == monthly * principal * Power(1.0 + monthly, months)
            - payment * (Power(1.0 + monthly, months) - 1.0)
  {
    if months > 0 {
      BalanceClosedForm(principal, monthly, payment, months - 1);
      ClosedFormStep(principal, monthly, payment, months);
    } else {
      ClosedFormBase(principal, monthly, payment);
    }
  }

  /** The closed form at month zero. */
  lemma ClosedFormBase(principal: real, monthly: real, payment: real)
    ensures monthly * Balance(principal, monthly, payment, 0)
         == monthly * principal * Power(1.0 + monthly, 0)
            - payment * (Power(1.0 + monthly, 0) - 1.0)
  {
    ClosedFormStart(principal, monthly, payment, Balance(principal, monthly, payment, 0),
                    Power(1.0 + monthly, 0));
  }

  /** The closed form carried from one month to the next. */
  lemma ClosedFormStep(principal: real, monthly: real, payment: real, months: nat)
    requires months > 0
    requires monthly * Balance(principal, monthly, payment, months - 1)
          == monthly * principal * Power(1.0 + monthly, months - 1)
             - payment * (Power(1.0 + monthly, months - 1) - 1.0)
    ensures monthly * Balance(principal, monthly, payment, months)
         == monthly * principal * Power(1.0 + monthly, months)
            - payment * (Power(1.0 + monthly, months) - 1.0)
  {
    BalanceStep(principal, monthly, payment,
                Balance(principal, monthly, payment, months - 1), Power(1.0 + monthly, months - 1),
                Balance(principal, monthly, payment, months), Power(1.0 + monthly, months));
  }

  /** Month zero of the closed form: nothing has compounded yet. */
  lemma ClosedFormStart(principal: real, monthly: real, payment: real, b: real, q: real)
    requires b == principal
    requires q == 1.0
    ensures monthly * b == monthly * principal * q - payment * (q - 1.0)
  {
  }

  /** One month of the closed form: if `b` satisfies it for `q`, then the
      next balance `b'` satisfies it for `q' = q * (1 + monthly)`. */
  lemma BalanceStep(principal: real, monthly: real, payment: real, b: real, q: real, b': real, q': real)
    requires monthly * b == monthly * principal * q - payment * (q - 1.0)
    requires b' == b * (1.0 + monthly) - payment
    requires q' == q * (1.0 + monthly)
    ensures monthly * b' == monthly * principal * q' - payment * (q' - 1.0)
  {
    calc {
      monthly * b';
      monthly * (b * (1.0 + monthly) - payment);
      (monthly * b) * (1.0 + monthly) - monthly * payment;
      (monthly * principal * q - payment * (q - 1.0)) * (1.0 + monthly) - monthly * payment;
      monthly * principal * (q * (1.0 + monthly)) - payment * (q * (1.0 + monthly) - 1.0);
      monthly * principal * q' - payment * (q' - 1.0);
    }
  }

  /** The annuity promise: paying the installment every month for the whole
      term leaves exactly nothing owed. */
  lemma InstallmentClearsLoan(principal: real, annualRate: real, installments: int)
    requires Growth(annualRate, installments) != 1.0
    ensures Balance(principal, MonthlyRate(annualRate),
                    InstallmentValue(principal, annualRate, installments), installments) == 0.0
  {
    NondegenerateTerm(annualRate, installments);
    AnnuityClears(principal, MonthlyRate(annualRate),
                  InstallmentValue(principal, annualRate, installments),
                  installments, Growth(annualRate, installments),
                  principal * MonthlyRate(annualRate) * Growth(annualRate, installments));
  }

  /** A compounding factor other than 1 means a nonzero rate over at least
      one month. */
  lemma NondegenerateTerm(annualRate: real, installments: int)
    requires Growth(annualRate, installments) != 1.0
    ensures annualRate != 0.0 && installments >= 1
  {
    if annualRate == 0.0 || installments <= 0 {
      DegenerateGrowth(annualRate, installments);
      assert false;
    }
  }

  /** `InstallmentClearsLoan` with the rate, payment and compounding factor
      as plain values. */
  lemma AnnuityClears(principal: real, monthly: real, payment: real, months: nat,
                      growth: real, numerator: real)
    requires monthly != 0.0
    requires growth == Power(1.0 + monthly, months)
    requires growth != 1.0
    requires numerator == principal * monthly * growth
    requires payment == Quotient(numerator, growth - 1.0)
    ensures Balance(principal, monthly, payment, months) == 0.0
  {
    BalanceClosedForm(principal, monthly, payment, months);
    ClosedFormClears(monthly, Balance(principal, monthly, payment, months), principal, growth,
                     payment, numerator);
  }

  /** The algebra behind `InstallmentClearsLoan`, over plain reals: a
      payment of `principal * m * g / (g - 1)` zeroes the closed form. */
  lemma ClosedFormClears(m: real, balance: real, principal: real, g: real, payment: real,
                         numerator: real)
    requires m != 0.0
    requires g != 1.0
    requires numerator == principal * m * g
    requires payment == Quotient(numerator, g - 1.0)
    requires m * balance == m * principal * g - payment * (g - 1.0)
    ensures balance == 0.0
  {
    assert payment * (g - 1.0) == principal * m * g;
    assert m * balance == 0.0;
  }

  /** With a positive rate, at least one installment and a positive principal,
      the installment is positive. */
  lemma InstallmentPositive(principal: real, annualRate: real, installments: int)
    requires principal > 0.0
    requires annualRate > 0.0
    requires installments >= 1
    ensures Growth(annualRate, installments) > 1.0
    ensures InstallmentValue(principal, annualRate, installments) > 0.0
  {
    GrowthAboveOne(annualRate, installments);
    var m := MonthlyRate(annualRate);
    var g := Growth(annualRate, installments);
    assert principal * m > 0.0;
    assert principal * m * g > 0.0;
    assert g - 1.0 > 0.0;
  }

  /** The installments `createInstallments` builds: `count` lines numbered
      1..count, each carrying the same amount as both amount and fee. */
  function Schedule(count: int, value: real, currency: string): (lines: seq<Installment>)
    ensures |lines| == (if count <= 0 then 0 else count)
    ensures forall i | 0 <= i < |lines| ::
      && lines[i].number == i + 1
      && lines[i].amount == value
      && lines[i].feeAmount == value
      && lines[i].currency == currency
    decreases count
  {
    if count <= 0 then [] else Schedule(count - 1, value, currency) + [Installment(count, value, value, currency)]
  }

  /** The sum of the installment amounts of a schedule. */
  function TotalAmount(lines: seq<Installment>): (total: real)
  {
    if |lines| == 0 then 0.0 else TotalAmount(lines[..|lines| - 1]) + lines[|lines| - 1].amount
  }

  lemma TotalAmountAppend(lines: seq<Installment>, line: Installment)
    ensures TotalAmount(lines + [line]) == TotalAmount(lines) + line.amount
  {
    assert (lines + [line])[..|lines|] == lines;
  }

  /** `value` added to zero `k` times. */
  function Times(k: nat, value: real): (sum: real)
  {
    if k == 0 then 0.0 else Times(k - 1, value) + value
  }

  lemma {:induction false} TimesIsProduct(k: nat, value: real)
    ensures Times(k, value) == k as real * value
  {
    if k > 0 {
      TimesIsProduct(k - 1, value);
      assert (k - 1) as real * value + value == k as real * value;
    }
  }

  /** Lines that all carry the same amount add up to repeated addition. */
  lemma {:induction false} EqualLinesSum(lines: seq<Installment>, value: real)
    requires forall i | 0 <= i < |lines| :: lines[i].amount == value
    ensures TotalAmount(lines) == Times(|lines|, value)
  {
    if |lines| > 0 {
      EqualLinesSum(lines[..|lines| - 1], value);
    }
  }

  lemma ScheduleSum(count: int, value: real, currency: string)
    ensures TotalAmount(Schedule(count, value, currency)) == Times(|Schedule(count, value, currency)|, value)
  {
    EqualLinesSum(Schedule(count, value, currency), value);
  }

  /** A total built by repeated addition over some lines is their count
      times the value. */
  lemma TotalIsProduct(lines: seq<Installment>, value: real, total: real)
    requires total == Times(|lines|, value)
    ensures total == |lines| as real * value
  {
    TimesIsProduct(|lines|, value);
  }

  /** `createInstallments` as written: it appends one line per month and keeps
      a running total. Both live only in the callee's copies (see
      `Simulation.CalculateLoan`). The total is the schedule's sum, that is
      the number of lines times the installment value. */
  method CreateInstallments(request: SimulationRequest, installmentValue: real)
    returns (installments: seq<Installment>, amountTobePaid: real)
    ensures installments == Schedule(request.installments, installmentValue, request.currency)
    ensures amountTobePaid == TotalAmount(installments)
    ensures amountTobePaid == |installments| as real * installmentValue
  {
    installments, amountTobePaid := InstallmentLoop(request, installmentValue);
    ScheduleTotal(request.installments, installmentValue, request.currency, installments, amountTobePaid);
  }

  /** The loop of `createInstallments`: month `i + 1` appends line `i + 1`
      and adds the value to the running total. */
  method InstallmentLoop(request: SimulationRequest, installmentValue: real)
    returns (installments: seq<Installment>, amountTobePaid: real)
    ensures installments == Schedule(request.installments, installmentValue, request.currency)
    ensures amountTobePaid == Times(|installments|, installmentValue)
  {
    installments := [];
    amountTobePaid := 0.0;
    var i := 0;
    while i < request.installments
      invariant 0 <= i
      invariant request.installments >= 0 ==> i <= request.installments
      invariant request.installments < 0 ==> i == 0
      invariant installments == Schedule(i, installmentValue, request.currency)
      invariant amountTobePaid == Times(i, installmentValue)
    {
      installments := installments + [Installment(i + 1, installmentValue, installmentValue, request.currency)];
      amountTobePaid := amountTobePaid + installmentValue;
      i := i + 1;
    }
    assert Schedule(i, installmentValue, request.currency)
        == Schedule(request.installments, installmentValue, request.currency);
  }

  /** A running total that added `value` once per line of a schedule is the
      schedule's total, and the count of lines times `value`. */
  lemma ScheduleTotal(count: int, value: real, currency: string, lines: seq<Installment>, total: real)
    requires lines == Schedule(count, value, currency)
    requires total == Times(|lines|, value)
    ensures total == TotalAmount(lines)
    ensures total == |lines| as real * value
  {
    ScheduleSum(count, value, currency);
    TotalIsProduct(lines, value, total);
  }
}
