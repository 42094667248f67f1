/** The amortization engine (utils/calculations.ts): the level monthly payment
    of a fixed-rate loan and the month-by-month schedule that repays it.

    All arithmetic is exact (`real`). The recurrence the engine's loop runs is
    given first as functions of the period index; the method `CalculateLoan`
    runs the loop and is proved to produce exactly what those functions say.
    The lemmas after it prove what the schedule means: a running sum of the
    interest, a balance that is the principal still owed, and (for the
    annuity payment) a balance that reaches exactly zero after the last month. */
module Amortization {
  import opened LoanTypes
  import opened RealAlgebra

  // ---------------------------------------------------------------------------
  // The formula
  // ---------------------------------------------------------------------------

  /** `Math.pow(x, n)` for a whole exponent. */
  function Pow(x: real, n: nat): real
    decreases n
  {
    if n == 0 then 1.0 else x * Pow(x, n - 1)
  }

  /** `Math.max(0, x)`: the smallest value that is at least 0 and at least x. */
  function ClampAtZero(x: real): (c: real)
    ensures c >= 0.0 && c >= x
    ensures c == 0.0 || c == x
  {
    if x > 0.0 then x else 0.0
  }

  /** The periodic rate: the annual percentage over 100, over 12 months. */
  function MonthlyRate(interestRate: real): (r: real)
    ensures r * 1200.0 == interestRate
    ensures r > 0.0 <==> interestRate > 0.0
  {
    interestRate / 100.0 / 12.0
  }

  /** The number of monthly payments over the term. */
  function NumberOfPayments(termYears: nat): nat
  {
    termYears * 12
  }

  /** The inputs for which the payment formula is defined: a positive rate
      keeps the denominator `(1 + r)^n - 1` away from zero, and so does a
      term of at least one year. */
  predicate ValidTerms(details: LoanDetails)
  {
    details.interestRate > 0.0 && details.termYears >= 1
  }

  /** The level payment `P * r * (1 + r)^n / ((1 + r)^n - 1)`: the payment
      that satisfies the annuity equation. */
  function MonthlyPayment(principal: real, rate: real, n: nat): (m: real)
    requires rate > 0.0 && n >= 1
    ensures LevelPayment(principal, rate, n, m)
  {
    PowAboveOne(1.0 + rate, n);
    principal * rate * Pow(1.0 + rate, n) / (Pow(1.0 + rate, n) - 1.0)
  }

  /** `x^n >= 1` for `x >= 1`. */
  lemma {:induction false} PowAtLeastOne(x: real, n: nat)
    requires x >= 1.0
    ensures Pow(x, n) >= 1.0
    decreases n
  {
    if n > 0 {
      PowAtLeastOne(x, n - 1);
      ProductAtLeastOne(x, Pow(x, n - 1), Pow(x, n));
    }
  }

  /** `x^n > 1` for `x > 1` and `n >= 1`: the formula's denominator
      `(1 + r)^n - 1` is positive. */
  lemma {:induction false} PowAboveOne(x: real, n: nat)
    requires x > 1.0 && n >= 1
    ensures Pow(x, n) > 1.0
  {
    PowAtLeastOne(x, n - 1);
    ProductAtLeastOne(x, Pow(x, n - 1), Pow(x, n));
  }

  /** `1 <= x^i <= x^j` for `x >= 1` and `i <= j`. */
  lemma {:induction false} PowMonotone(x: real, i: nat, j: nat)
    requires x >= 1.0 && i <= j
    ensures 1.0 <= Pow(x, i) <= Pow(x, j)
    decreases j
  {
    if i < j {
      PowMonotone(x, i, j - 1);
      ProductAtLeastOne(x, Pow(x, j - 1), Pow(x, j));
    } else {
      PowAtLeastOne(x, i);
    }
  }

  /** `m` is a level payment for `n` months at `rate`:
      `m * ((1 + rate)^n - 1) == principal * rate * (1 + rate)^n`. */
  predicate LevelPayment(principal: real, rate: real, n: nat, m: real)
  {
    m * (Pow(1.0 + rate, n) - 1.0) == principal * rate * Pow(1.0 + rate, n)
  }

  /** The formula's payment is the only level payment; it exceeds the first
      month's interest on a positive loan and is zero for a zero loan. */
  lemma {:induction false} PaymentEquation(principal: real, rate: real, n: nat)
    requires rate > 0.0 && n >= 1
    ensures forall m :: LevelPayment(principal, rate, n, m) <==> m == MonthlyPayment(principal, rate, n)
    ensures principal > 0.0 ==> MonthlyPayment(principal, rate, n) > principal * rate
    ensures principal == 0.0 ==> MonthlyPayment(principal, rate, n) == 0.0
  {
    var q := Pow(1.0 + rate, n);
    PowAboveOne(1.0 + rate, n);
    var m := MonthlyPayment(principal, rate, n);
    PaymentAlgebra(principal, rate, q, m);
    forall m' | LevelPayment(principal, rate, n, m')
      ensures m' == m
    {
      SolutionUnique(m', m, q - 1.0, principal * rate * q);
    }
  }

  // ---------------------------------------------------------------------------
  // The recurrence of the loop, as functions of the period index
  // ---------------------------------------------------------------------------

  /** The interest charged for one month on a balance. */
  function Interest(balance: real, rate: real): real
  {
    balance * rate
  }

  /** The running (unclamped) balance after `k` payments of `payment`: each
      month the interest on the balance is charged and the payment less that
      interest is taken off. */
  function Balance(principal: real, rate: real, payment: real, k: nat): real
    decreases k
  {
    if k == 0 then principal
    else
      var b := Balance(principal, rate, payment, k - 1);
      b - (payment - Interest(b, rate))
  }

  /** The running interest total after `k` months. */
  function TotalInterest(principal: real, rate: real, payment: real, k: nat): real
    decreases k
  {
    if k == 0 then 0.0
    else TotalInterest(principal, rate, payment, k - 1) + Interest(Balance(principal, rate, payment, k - 1), rate)
  }

  /** The record the loop appends in month `k + 1` (so `k` is its 0-based index). */
  function Period(principal: real, rate: real, payment: real, k: nat): AmortizationPeriod
  {
    var b := Balance(principal, rate, payment, k);
    var interest := Interest(b, rate);
    var principalPaid := payment - interest;
    AmortizationPeriod(
      k + 1,
      payment,
      principalPaid,
      interest,
      ClampAtZero(b - principalPaid),
      TotalInterest(principal, rate, payment, k) + interest)
  }

  /** The first `n` records of the schedule, in month order. */
  function Schedule(principal: real, rate: real, payment: real, n: nat): (s: seq<AmortizationPeriod>)
    ensures |s| == n
    decreases n
  {
    if n == 0 then []
    else Schedule(principal, rate, payment, n - 1) + [Period(principal, rate, payment, n - 1)]
  }

  /** What `n` payments of `payment` add up to. */
  function TotalPaid(payment: real, n: nat): real
  {
    payment * (n as real)
  }

  /** One more payment adds one payment to the total. */
  lemma TotalPaidStep(payment: real, n: nat)
    requires n > 0
    ensures TotalPaid(payment, n - 1) + payment == TotalPaid(payment, n)
  {
    ScaleStep(payment, (n - 1) as real, n as real);
  }

  /** What `calculateLoan` returns for valid terms. */
  function Calculate(details: LoanDetails): CalculationResult
    requires ValidTerms(details)
  {
    var rate := MonthlyRate(details.interestRate);
    var n := NumberOfPayments(details.termYears);
    var m := MonthlyPayment(details.principal, rate, n);
    CalculationResult(m, TotalPaid(m, n), TotalInterest(details.principal, rate, m, n),
                      Schedule(details.principal, rate, m, n))
  }

  /** The fields of the record of month `k + 1`, one by one: the interest is
      charged on the unclamped balance before the month, the principal part
      is the payment less that interest, the next balance is the balance less
      the principal part, and the reported balance is that next balance
      clamped at zero. */
  lemma {:induction false} PeriodFields(principal: real, rate: real, payment: real, k: nat)
    ensures var e := Period(principal, rate, payment, k);
      e.month == k + 1 && e.payment == payment &&
      e.interest == Balance(principal, rate, payment, k) * rate &&
      e.principal == payment - e.interest &&
      Balance(principal, rate, payment, k + 1) == Balance(principal, rate, payment, k) - e.principal &&
      e.balance == ClampAtZero(Balance(principal, rate, payment, k + 1)) &&
      e.totalInterest == TotalInterest(principal, rate, payment, k + 1)
  {
  }

  // ---------------------------------------------------------------------------
  // The engine
  // ---------------------------------------------------------------------------

  /** `calculateLoan`: computes the level payment once, then runs the balance
      and interest recurrence for `termYears * 12` months, appending one
      record per month whose reported balance is clamped at zero while the
      unclamped balance feeds the next month. */
  method CalculateLoan(details: LoanDetails) returns (result: CalculationResult)
    requires ValidTerms(details)
    ensures result == Calculate(details)
    ensures |result.schedule| == details.termYears * 12
    ensures forall k :: 0 <= k < |result.schedule| ==>
      var e := result.schedule[k];
      e.month == k + 1 && e.payment == result.monthlyPayment &&
      e.principal + e.interest == e.payment && e.balance >= 0.0
    ensures result.totalInterest == result.schedule[|result.schedule| - 1].totalInterest
    ensures result.totalPayment == TotalPaid(result.monthlyPayment, |result.schedule|)
  {
    var principal := details.principal;
    var monthlyRate := MonthlyRate(details.interestRate);
    var numberOfPayments := NumberOfPayments(details.termYears);
    var monthlyPayment := MonthlyPayment(principal, monthlyRate, numberOfPayments);

    var schedule: seq<AmortizationPeriod> := [];
    var balance := principal;
    var totalInterest := 0.0;
    for i := 1 to numberOfPayments + 1
      invariant balance == Balance(principal, monthlyRate, monthlyPayment, i - 1)
      invariant totalInterest == TotalInterest(principal, monthlyRate, monthlyPayment, i - 1)
      invariant schedule == Schedule(principal, monthlyRate, monthlyPayment, i - 1)
    {
      var interest := Interest(balance, monthlyRate);
      var principalPaid := monthlyPayment - interest;
      balance := balance - principalPaid;
      totalInterest := totalInterest + interest;
      schedule := schedule + [AmortizationPeriod(i, monthlyPayment, principalPaid, interest,
                                                 ClampAtZero(balance), totalInterest)];
    }

    var totalPayment := TotalPaid(monthlyPayment, numberOfPayments);
    result := CalculationResult(monthlyPayment, totalPayment, totalInterest, schedule);
    ScheduleShape(principal, monthlyRate, monthlyPayment, numberOfPayments);
    TotalInterestIsLast(principal, monthlyRate, monthlyPayment, numberOfPayments);
  }

  // ---------------------------------------------------------------------------
  // The schedule's structure, for any payment
  // ---------------------------------------------------------------------------

  /** Entry `k` of the schedule is the record of month `k + 1`. */
  lemma {:induction false} ScheduleAt(principal: real, rate: real, payment: real, n: nat, k: nat)
    requires k < n
    ensures Schedule(principal, rate, payment, n)[k] == Period(principal, rate, payment, k)
    ensures Schedule(principal, rate, payment, n)[k].month == k + 1
    decreases n
  {
    if k < n - 1 {
      ScheduleAt(principal, rate, payment, n - 1, k);
    }
  }

  /** A longer schedule starts with the shorter one: months are never revised. */
  lemma {:induction false} SchedulePrefix(principal: real, rate: real, payment: real, n: nat, k: nat)
    requires k <= n
    ensures Schedule(principal, rate, payment, n)[..k] == Schedule(principal, rate, payment, k)
    decreases n
  {
    if k < n {
      var s := Schedule(principal, rate, payment, n - 1);
      assert Schedule(principal, rate, payment, n)[..n - 1] == s;
      SchedulePrefix(principal, rate, payment, n - 1, k);
    }
  }

  /** Every entry is numbered one past its index (so the months run 1, 2,
      ..., n with no gap), pays the one payment, splits it exactly into
      principal part and interest, and reports a balance that is not
      negative. */
  lemma {:induction false} ScheduleShape(principal: real, rate: real, payment: real, n: nat)
    ensures var s := Schedule(principal, rate, payment, n);
      forall k :: 0 <= k < n ==>
        s[k].month == k + 1 && s[k].payment == payment &&
        s[k].principal + s[k].interest == payment && s[k].balance >= 0.0
  {
    var s := Schedule(principal, rate, payment, n);
    forall k | 0 <= k < n
      ensures s[k].month == k + 1 && s[k].payment == payment &&
        s[k].principal + s[k].interest == payment && s[k].balance >= 0.0
    {
      ScheduleAt(principal, rate, payment, n, k);
      PeriodFields(principal, rate, payment, k);
    }
  }

  /** The months of a computed schedule are numbered from 1 without gaps. */
  lemma {:induction false} ScheduleMonthsNumbered(principal: real, rate: real, payment: real, n: nat)
    ensures forall k :: 0 <= k < n ==> Schedule(principal, rate, payment, n)[k].month == k + 1
  {
    forall k | 0 <= k < n
      ensures Schedule(principal, rate, payment, n)[k].month == k + 1
    {
      ScheduleAt(principal, rate, payment, n, k);
    }
  }

  /** Entry `k`'s interest is charged on the unclamped balance before it, the
      next balance is that balance less the entry's principal part (the clamp
      is never fed back), the reported balance is that next balance clamped
      at zero, and principal part plus interest make up the payment. */
  lemma {:induction false} EntryRecurrence(principal: real, rate: real, payment: real, n: nat, k: nat)
    requires k < n
    ensures var e := Schedule(principal, rate, payment, n)[k];
      e.interest == Balance(principal, rate, payment, k) * rate &&
      Balance(principal, rate, payment, k + 1) == Balance(principal, rate, payment, k) - e.principal &&
      e.balance == ClampAtZero(Balance(principal, rate, payment, k + 1)) &&
      e.principal + e.interest == payment
  {
    ScheduleAt(principal, rate, payment, n, k);
    PeriodFields(principal, rate, payment, k);
  }

  /** The sum of the `interest` fields of a sequence of records. */
  function SumInterest(s: seq<AmortizationPeriod>): real
  {
    if s == [] then 0.0 else SumInterest(s[..|s| - 1]) + s[|s| - 1].interest
  }

  /** The sum of the `principal` fields of a sequence of records. */
  function SumPrincipal(s: seq<AmortizationPeriod>): real
  {
    if s == [] then 0.0 else SumPrincipal(s[..|s| - 1]) + s[|s| - 1].principal
  }

  /** The sum of the `payment` fields of a sequence of records. */
  function SumPayment(s: seq<AmortizationPeriod>): real
  {
    if s == [] then 0.0 else SumPayment(s[..|s| - 1]) + s[|s| - 1].payment
  }

  /** The running interest total is the sum of the interest of the records. */
  lemma {:induction false} SumInterestOfSchedule(principal: real, rate: real, payment: real, n: nat)
    ensures SumInterest(Schedule(principal, rate, payment, n)) == TotalInterest(principal, rate, payment, n)
    decreases n
  {
    if n > 0 {
      var s := Schedule(principal, rate, payment, n);
      assert s[..n - 1] == Schedule(principal, rate, payment, n - 1);
      SumInterestOfSchedule(principal, rate, payment, n - 1);
      PeriodFields(principal, rate, payment, n - 1);
    }
  }

  /** Entry `k`'s `totalInterest` is the sum of the `interest` of entries
      `0..k`. */
  lemma {:induction false} RunningInterest(principal: real, rate: real, payment: real, n: nat, k: nat)
    requires k < n
    ensures var s := Schedule(principal, rate, payment, n);
      s[k].totalInterest == SumInterest(s[..k + 1])
  {
    ScheduleAt(principal, rate, payment, n, k);
    PeriodFields(principal, rate, payment, k);
    SchedulePrefix(principal, rate, payment, n, k + 1);
    SumInterestOfSchedule(principal, rate, payment, k + 1);
  }

  /** The interest total after `n` months is the sum of the interest of all
      `n` records: the last record's `totalInterest`, or 0 when there are no
      records. */
  lemma {:induction false} TotalInterestIsLast(principal: real, rate: real, payment: real, n: nat)
    ensures var s := Schedule(principal, rate, payment, n);
      TotalInterest(principal, rate, payment, n) == SumInterest(s) &&
      TotalInterest(principal, rate, payment, n) == if n == 0 then 0.0 else s[n - 1].totalInterest
  {
    SumInterestOfSchedule(principal, rate, payment, n);
    if n > 0 {
      ScheduleAt(principal, rate, payment, n, n - 1);
      PeriodFields(principal, rate, payment, n - 1);
    }
  }

  /** The unclamped running balance is the principal less the principal
      parts repaid so far. */
  lemma {:induction false} BalanceIsOutstanding(principal: real, rate: real, payment: real, k: nat)
    ensures Balance(principal, rate, payment, k) == principal - SumPrincipal(Schedule(principal, rate, payment, k))
    decreases k
  {
    if k > 0 {
      var s := Schedule(principal, rate, payment, k);
      assert s[..k - 1] == Schedule(principal, rate, payment, k - 1);
      BalanceIsOutstanding(principal, rate, payment, k - 1);
      PeriodFields(principal, rate, payment, k - 1);
    }
  }

  /** Over the first `n` months the payments add up to `n` times the payment. */
  lemma {:induction false} PaymentsAddUp(principal: real, rate: real, payment: real, n: nat)
    ensures SumPayment(Schedule(principal, rate, payment, n)) == TotalPaid(payment, n)
    decreases n
  {
    if n > 0 {
      var s := Schedule(principal, rate, payment, n);
      assert s[..n - 1] == Schedule(principal, rate, payment, n - 1);
      PaymentsAddUp(principal, rate, payment, n - 1);
      assert s[n - 1].payment == payment;
      TotalPaidStep(payment, n);
      assert SumPayment(s) == TotalPaid(payment, n - 1) + payment;
    }
  }

  /** The payments split exactly into principal parts and interest. */
  lemma {:induction false} PaymentsSplit(principal: real, rate: real, payment: real, n: nat)
    ensures var s := Schedule(principal, rate, payment, n);
      SumPrincipal(s) + SumInterest(s) == SumPayment(s)
    decreases n
  {
    if n > 0 {
      var s := Schedule(principal, rate, payment, n);
      assert s[..n - 1] == Schedule(principal, rate, payment, n - 1);
      PaymentsSplit(principal, rate, payment, n - 1);
      var e := s[n - 1];
      assert e.principal + e.interest == e.payment;
    }
  }

  /** With no principal and no payment nothing is ever owed. */
  lemma {:induction false} ZeroLoanStaysZero(rate: real, k: nat)
    ensures Balance(0.0, rate, 0.0, k) == 0.0 && TotalInterest(0.0, rate, 0.0, k) == 0.0
    decreases k
  {
    if k > 0 {
      ZeroLoanStaysZero(rate, k - 1);
    }
  }

  // ---------------------------------------------------------------------------
  // The annuity: the level payment repays the loan exactly
  // ---------------------------------------------------------------------------

  /** The closed form of the balance after `k` months, with `q = 1 + rate`:
      `Balance(k) * rate == principal * rate * q^k - payment * (q^k - 1)`. */
  predicate ClosedFormAt(principal: real, rate: real, payment: real, k: nat)
  {
    Balance(principal, rate, payment, k) * rate ==
      principal * rate * Pow(1.0 + rate, k) - payment * (Pow(1.0 + rate, k) - 1.0)
  }

  /** The recurrence has the closed form after every month. */
  lemma {:induction false} BalanceClosedForm(principal: real, rate: real, payment: real, k: nat)
    ensures ClosedFormAt(principal, rate, payment, k)
    decreases k
  {
    if k > 0 {
      BalanceClosedForm(principal, rate, payment, k - 1);
      ClosedFormStep(Balance(principal, rate, payment, k - 1), Balance(principal, rate, payment, k),
                     rate, Pow(1.0 + rate, k - 1), Pow(1.0 + rate, k), principal, payment);
    }
  }

  /** A payment drives the unclamped balance to exactly zero after `n`
      months if and only if it is the formula's level payment. */
  lemma {:induction false} PaysOffIffLevel(principal: real, rate: real, payment: real, n: nat)
    requires rate > 0.0 && n >= 1
    ensures Balance(principal, rate, payment, n) == 0.0 <==> payment == MonthlyPayment(principal, rate, n)
  {
    PowAboveOne(1.0 + rate, n);
    BalanceClosedForm(principal, rate, payment, n);
    ZeroBalanceAlgebra(Balance(principal, rate, payment, n), rate, Pow(1.0 + rate, n), principal, payment);
    assert Balance(principal, rate, payment, n) == 0.0 <==> LevelPayment(principal, rate, n, payment);
    PaymentEquation(principal, rate, n);
  }

  /** The balance after `k` months of a level payment over `n` months, with
      `q = 1 + rate`: `Balance(k) * (q^n - 1) == principal * (q^n - q^k)`. */
  predicate AnnuityFormAt(principal: real, rate: real, payment: real, n: nat, k: nat)
  {
    Balance(principal, rate, payment, k) * (Pow(1.0 + rate, n) - 1.0) ==
      principal * (Pow(1.0 + rate, n) - Pow(1.0 + rate, k))
  }

  /** For a level payment the balance has the annuity form after every month. */
  lemma {:induction false} AnnuityBalance(principal: real, rate: real, payment: real, n: nat, k: nat)
    requires rate > 0.0 && LevelPayment(principal, rate, n, payment)
    ensures AnnuityFormAt(principal, rate, payment, n, k)
  {
    BalanceClosedForm(principal, rate, payment, k);
    AnnuityAlgebra(Balance(principal, rate, payment, k), rate, Pow(1.0 + rate, k), Pow(1.0 + rate, n),
                   principal, payment);
  }

  /** The level payment drives the unclamped balance to exactly zero after
      the last of the `n` months, so the last reported balance is 0, the
      principal parts add up to the principal, and the `n` payments add up to
      the principal plus the interest. */
  lemma {:induction false} AnnuityPaysOff(principal: real, rate: real, n: nat)
    requires rate > 0.0 && n >= 1
    ensures Balance(principal, rate, MonthlyPayment(principal, rate, n), n) == 0.0
    ensures Schedule(principal, rate, MonthlyPayment(principal, rate, n), n)[n - 1].balance == 0.0
    ensures SumPrincipal(Schedule(principal, rate, MonthlyPayment(principal, rate, n), n)) == principal
    ensures TotalPaid(MonthlyPayment(principal, rate, n), n) ==
      principal + TotalInterest(principal, rate, MonthlyPayment(principal, rate, n), n)
  {
    PaysOffIffLevel(principal, rate, MonthlyPayment(principal, rate, n), n);
    BalanceIsOutstanding(principal, rate, MonthlyPayment(principal, rate, n), n);
    EntryRecurrence(principal, rate, MonthlyPayment(principal, rate, n), n, n - 1);
    PaymentsAddUp(principal, rate, MonthlyPayment(principal, rate, n), n);
    PaymentsSplit(principal, rate, MonthlyPayment(principal, rate, n), n);
    SumInterestOfSchedule(principal, rate, MonthlyPayment(principal, rate, n), n);
  }

  /** The unclamped balance after `k` months lies between 0 and the principal. */
  predicate BalanceInRange(principal: real, rate: real, payment: real, k: nat)
  {
    0.0 <= Balance(principal, rate, payment, k) <= principal
  }

  /** For a non-negative loan and a level payment over `n` months, the
      unclamped balance stays between 0 and the principal for `n` months. */
  lemma {:induction false} AnnuityBalanceRange(principal: real, rate: real, payment: real, n: nat, k: nat)
    requires principal >= 0.0 && rate > 0.0 && 1 <= n && k <= n && LevelPayment(principal, rate, n, payment)
    ensures BalanceInRange(principal, rate, payment, k)
  {
    PowAboveOne(1.0 + rate, n);
    PowMonotone(1.0 + rate, k, n);
    AnnuityBalance(principal, rate, payment, n, k);
    RangeAlgebra(principal, Pow(1.0 + rate, n), Pow(1.0 + rate, k), Balance(principal, rate, payment, k));
  }

  /** A payment that covers at least the first month's interest never lets
      the unclamped balance grow: each month's interest is at most the
      payment. */
  lemma {:induction false} BalanceNonIncreasing(principal: real, rate: real, payment: real, k: nat)
    requires rate >= 0.0 && payment >= principal * rate
    ensures Balance(principal, rate, payment, k) * rate <= payment
    ensures Balance(principal, rate, payment, k + 1) <= Balance(principal, rate, payment, k)
  {
    BalanceClosedForm(principal, rate, payment, k);
    PowAtLeastOne(1.0 + rate, k);
    InterestBelowPayment(Balance(principal, rate, payment, k), rate, Pow(1.0 + rate, k), principal, payment);
  }

  /** One entry of a level-payment schedule on a non-negative principal: its
      interest is non-negative and its reported balance is the unclamped one,
      at most the principal: the clamp never changes a value. */
  lemma {:induction false} EntryBounds(principal: real, rate: real, payment: real, n: nat, k: nat)
    requires principal >= 0.0 && rate > 0.0 && k < n && LevelPayment(principal, rate, n, payment)
    ensures var e := Schedule(principal, rate, payment, n)[k];
      e.interest >= 0.0 && e.balance == Balance(principal, rate, payment, k + 1) && e.balance <= principal
  {
    AnnuityBalanceRange(principal, rate, payment, n, k);
    AnnuityBalanceRange(principal, rate, payment, n, k + 1);
    EntryRecurrence(principal, rate, payment, n, k);
    ProductNonNegative(Balance(principal, rate, payment, k), rate);
  }

  // ---------------------------------------------------------------------------
  // What the result of a calculation satisfies
  // ---------------------------------------------------------------------------

  /** The last reported balance is 0, the principal parts repay the
      principal, and the total paid is the principal plus the total interest. */
  lemma {:induction false} CalculationRepaysLoan(details: LoanDetails)
    requires ValidTerms(details)
    ensures var res := Calculate(details);
      res.schedule[|res.schedule| - 1].balance == 0.0 &&
      SumPrincipal(res.schedule) == details.principal &&
      res.totalPayment == details.principal + res.totalInterest
  {
    AnnuityPaysOff(details.principal, MonthlyRate(details.interestRate), NumberOfPayments(details.termYears));
  }

  /** For a non-negative principal the reported balance is the unclamped
      balance and never increases, each month's interest is non-negative and
      the running interest total never decreases. */
  lemma {:induction false} CalculationMonotone(details: LoanDetails)
    requires ValidTerms(details) && details.principal >= 0.0
    ensures var res := Calculate(details);
      var s := res.schedule;
      var rate := MonthlyRate(details.interestRate);
      (forall k :: 0 <= k < |s| ==>
         s[k].interest >= 0.0 && s[k].balance == Balance(details.principal, rate, res.monthlyPayment, k + 1)) &&
      s[0].balance <= details.principal &&
      (forall k :: 0 < k < |s| ==>
         s[k].balance <= s[k - 1].balance && s[k - 1].totalInterest <= s[k].totalInterest)
  {
    var rate := MonthlyRate(details.interestRate);
    var n := NumberOfPayments(details.termYears);
    var p := details.principal;
    var m := MonthlyPayment(p, rate, n);
    PaymentEquation(p, rate, n);
    var s := Schedule(p, rate, m, n);
    forall k | 0 <= k < n
      ensures s[k].interest >= 0.0 && s[k].balance == Balance(p, rate, m, k + 1)
    {
      EntryBounds(p, rate, m, n, k);
    }
    forall k | 0 < k < n
      ensures s[k].balance <= s[k - 1].balance && s[k - 1].totalInterest <= s[k].totalInterest
    {
      EntryBounds(p, rate, m, n, k);
      EntryBounds(p, rate, m, n, k - 1);
      BalanceNonIncreasing(p, rate, m, k);
      ScheduleAt(p, rate, m, n, k);
      ScheduleAt(p, rate, m, n, k - 1);
      PeriodFields(p, rate, m, k);
      PeriodFields(p, rate, m, k - 1);
    }
    EntryBounds(p, rate, m, n, 0);
  }

  /** A zero principal gives a zero payment and a schedule of all-zero
      entries. */
  lemma {:induction false} CalculationZeroPrincipal(details: LoanDetails)
    requires ValidTerms(details) && details.principal == 0.0
    ensures var res := Calculate(details);
      res.monthlyPayment == 0.0 && res.totalPayment == 0.0 && res.totalInterest == 0.0 &&
      forall k :: 0 <= k < |res.schedule| ==>
        var e := res.schedule[k];
        e.payment == 0.0 && e.principal == 0.0 && e.interest == 0.0 &&
        e.balance == 0.0 && e.totalInterest == 0.0
  {
    var rate := MonthlyRate(details.interestRate);
    var n := NumberOfPayments(details.termYears);
    PaymentEquation(0.0, rate, n);
    var s := Schedule(0.0, rate, 0.0, n);
    ZeroLoanStaysZero(rate, n);
    forall k | 0 <= k < n
      ensures s[k].payment == 0.0 && s[k].principal == 0.0 && s[k].interest == 0.0 &&
        s[k].balance == 0.0 && s[k].totalInterest == 0.0
    {
      ScheduleAt(0.0, rate, 0.0, n, k);
      PeriodFields(0.0, rate, 0.0, k);
      ZeroLoanStaysZero(rate, k);
      ZeroLoanStaysZero(rate, k + 1);
    }
  }
}
