# Loan amortization engine — a Dafny model

This project models the computational core of a fixed-rate loan calculator.

- **`calculateLoan`** takes a principal, an annual nominal rate in percent and a term in years. It computes the level monthly payment `P·r·(1+r)^n / ((1+r)^n − 1)`, with `r` the monthly rate and `n` the number of months. It then runs the balance recurrence month by month and returns:
  - the payment;
  - the total paid;
  - the total interest;
  - the full schedule of monthly records (month, payment, principal part, interest, balance, running interest total).
- **The chart's downsampling rule** plots a schedule of at most 120 months in full. A longer schedule is plotted as every sixth month, starting with the first.

The files:

- `types.dfy`, module `LoanTypes`: the records `LoanDetails`, `AmortizationPeriod` and `CalculationResult`.
- `real_algebra.dfy`, module `RealAlgebra`: small facts of field arithmetic that the annuity proofs use.
- `amortization.dfy`, module `Amortization`:
  - the payment formula;
  - the recurrence as functions of the month index (`Balance`, `TotalInterest`, `Period`, `Schedule`, `Calculate`);
  - the imperative `CalculateLoan`, whose loop is proved to produce exactly `Calculate`;
  - lemmas about what the schedule means: running sums, the balance as the principal still owed, the annuity identity that drives the balance to exactly zero, and monotonicity.
- `loan_chart.dfy`, module `LoanChart`:
  - `Stride` picks 6 or 1 from the length;
  - `KeepEvery` is the index filter `index % step === 0`;
  - `SampledData` is the chart's `sampledData`;
  - lemmas characterise the filter for any stride and for the two strides the chart uses.

All arithmetic is exact `real` arithmetic. `Math.pow(1 + r, n)` with a whole exponent is the recursive `Pow`. The engine has no zero-rate branch (`utils/calculations.ts:10-12`): at a zero rate its formula divides zero by zero. So the model takes a positive rate and a term of at least one year as the precondition `ValidTerms`, and it does not invent a straight-line payment `principal / n` for the zero-rate case.

## Model

| member | source | states |
|---|---|---|
| Amortization.CalculateLoan | utils/calculations.ts:4-42 | The loop returns exactly `Calculate(details)`: `termYears*12` records; record k is month k+1 and pays the one level payment; principal part plus interest equals the payment; the reported balance is never negative; the result's interest total is the last record's running total; the total paid is the payment times the number of months |
| Amortization.MonthlyRate | utils/calculations.ts:6 | The monthly rate is the annual percentage over 1200, and it is positive exactly when the annual rate is |
| Amortization.ClampAtZero | utils/calculations.ts:31 | `Math.max(0, x)`: the result is at least 0 and at least x, and is one of them |
| Amortization.MonthlyPayment | utils/calculations.ts:9-12 | The formula's payment m solves the annuity equation `m·((1+r)^n − 1) = P·r·(1+r)^n` |
| Amortization.PowAboveOne | utils/calculations.ts:11-12 | For r > 0 and n ≥ 1, `(1+r)^n > 1`, so the formula's denominator is positive |
| Amortization.PaymentEquation | utils/calculations.ts:9-12 | The formula's payment is the only solution of the annuity equation; it exceeds the first month's interest when P > 0 and is 0 when P = 0 |
| Amortization.ScheduleAt | utils/calculations.ts:18-33 | Entry k of the schedule is the record built in iteration k+1, with month k+1 |
| Amortization.SchedulePrefix | utils/calculations.ts:26-33 | Records are only appended: the schedule after k months is a prefix of the schedule after n ≥ k months |
| Amortization.ScheduleShape | utils/calculations.ts:18-33 | For every entry: month = index + 1, payment = the level payment, principal + interest = payment, balance ≥ 0 |
| Amortization.ScheduleMonthsNumbered | utils/calculations.ts:18-27 | The months of a computed schedule run 1, 2, …, n |
| Amortization.EntryRecurrence | utils/calculations.ts:15-31 | Entry k's interest is the unclamped balance before it times the rate; the next balance is that balance less the entry's principal part, so the clamp is never fed back; the reported balance is the clamped next balance |
| Amortization.SumInterestOfSchedule | utils/calculations.ts:16-22 | The running interest total after n months is the sum of the records' interest |
| Amortization.RunningInterest | utils/calculations.ts:16-32 | Entry k's `totalInterest` is the sum of the interest of entries 0..k |
| Amortization.TotalInterestIsLast | utils/calculations.ts:32-39 | The returned interest total is the last record's `totalInterest`, or 0 for an empty schedule |
| Amortization.BalanceIsOutstanding | utils/calculations.ts:15-21 | The unclamped balance is the principal less the principal parts repaid so far |
| Amortization.PaymentsAddUp | utils/calculations.ts:28-38 | The payments of the first n records add up to n times the payment, the returned total paid |
| Amortization.PaymentsSplit | utils/calculations.ts:19-30 | The principal parts plus the interest add up to the payments, over any prefix |
| Amortization.ZeroLoanStaysZero | utils/calculations.ts:15-22 | With no principal and no payment, the balance and the interest total stay 0 |
| Amortization.BalanceClosedForm | utils/calculations.ts:15-21 | Closed form of the recurrence: `B_k·r = P·r·(1+r)^k − m·((1+r)^k − 1)` |
| Amortization.PaysOffIffLevel | utils/calculations.ts:9-22 | A payment drives the unclamped balance to exactly 0 after n months if and only if it is the formula's payment |
| Amortization.AnnuityBalance | utils/calculations.ts:9-21 | For the level payment, `B_k·((1+r)^n − 1) = P·((1+r)^n − (1+r)^k)` |
| Amortization.AnnuityPaysOff | utils/calculations.ts:9-39 | With the formula's payment, the unclamped balance after n months is 0, the last record reports 0, the principal parts add up to P, and the total paid is P plus the total interest |
| Amortization.AnnuityBalanceRange | utils/calculations.ts:15-21 | For P ≥ 0 and the level payment, the unclamped balance stays between 0 and P for all n months |
| Amortization.BalanceNonIncreasing | utils/calculations.ts:19-21 | A payment that covers the first month's interest covers every month's interest, so the balance never grows |
| Amortization.EntryBounds | utils/calculations.ts:19-31 | For P ≥ 0 and the level payment, each record's interest is ≥ 0 and its reported balance equals the unclamped balance, which is at most P (the clamp never changes a value) |
| Amortization.CalculationRepaysLoan | utils/calculations.ts:4-42 | The last reported balance is 0, the principal parts repay the principal, and total paid = principal + total interest |
| Amortization.CalculationMonotone | utils/calculations.ts:18-34 | For P ≥ 0, interest is never negative, reported balances never increase, and the running interest total never decreases |
| Amortization.CalculationZeroPrincipal | utils/calculations.ts:4-42 | A zero principal gives a zero payment, zero totals and all-zero records |
| LoanChart.KeepEveryPositions | components/LoanChart.tsx:21 | Element j of the filtered output is the input element at the j-th kept position |
| LoanChart.KeptPositions | components/LoanChart.tsx:21 | The kept positions are exactly the multiples of the stride below the length, in strictly increasing order |
| LoanChart.KeepEveryOne | components/LoanChart.tsx:21 | With stride 1 the filter keeps everything |
| LoanChart.SixthPositions | components/LoanChart.tsx:21 | With stride 6 the kept positions are 0, 6, 12, …, and there are ⌈length / 6⌉ of them |
| LoanChart.ShortScheduleUnchanged | components/LoanChart.tsx:21 | A schedule of at most 120 records is plotted unchanged |
| LoanChart.LongScheduleSampled | components/LoanChart.tsx:21 | A longer schedule is plotted as the records at 0, 6, 12, …, in order, `(len + 5) / 6` of them |
| LoanChart.SampledLength | components/LoanChart.tsx:21 | The plotted length is the length when at most 120, else `(len + 5) / 6` |
| LoanChart.SampledIsSubsequence | components/LoanChart.tsx:21 | The plotted records are an order-preserving subsequence, taken at exactly the positions that are multiples of the stride |
| LoanChart.FirstRecordKept | components/LoanChart.tsx:21 | A non-empty schedule keeps its first record |
| LoanChart.SampledMonthsIncreasing | components/LoanChart.tsx:21 | Strictly increasing months stay strictly increasing after sampling |
| LoanChart.SampledMonths | components/LoanChart.tsx:21 | When record k is month k+1, the plotted months are 1, 1+s, 1+2s, … for the stride s |
| LoanChart.SampledScheduleMonths | components/LoanChart.tsx:21 | On a computed schedule the plotted months are 1, 1+s, 1+2s, … and strictly increase |

## Left out

- Zero or negative rate, and a zero term, are not modelled. `ValidTerms` requires a positive annual rate and at least one year. A negative rate is outside what the formula is meant for. In the code these inputs give non-numbers:
  - At a zero rate and a term of at least one year, the payment is `0/0 = NaN`. Record 1 has interest 0 and running total 0, but its principal part and balance are NaN. From month 2 on, the interest is `NaN · 0 = NaN`, so every real field of every later record is NaN. The returned interest total and total paid are NaN.
  - At a zero term, the denominator `(1+r)^0 - 1` is 0. The payment is ±Infinity when `P·r ≠ 0` and NaN when `P·r = 0`. The schedule is empty, the interest total is 0, and the total paid is `payment · 0`, which is NaN in both cases.
- A straight-line payment `principal / n` at a zero rate is not modelled, because the code has no zero-rate branch (`utils/calculations.ts:10-12`).
- IEEE-754 double arithmetic is not modelled: rounding drift, `Math.pow` precision, NaN and Infinity. All arithmetic is exact `real`. So "the final balance is exactly 0" holds in the model, but in the running program it holds only up to rounding.
- `termYears` is a whole number (`nat`) in the model. The program reads it with `parseInt`; a fractional term would give a fractional month count, which the model does not cover.
- The optional `monthlyIncome` and `monthlyExpenses` fields of `LoanDetails` are not modelled; the engine does not read them.
- `formatCurrency` and `formatPercent` (`utils/calculations.ts:44-56`) are not modelled. They wrap the host's number formatting.
- The React components, recharts configuration, `App.tsx` state handling and input parsing, and `StatCard` are not modelled. They are rendering only.
- The generative-AI advice service (`services/geminiService.ts`) is not modelled. It is a network call to a third-party service.
- The in-place `push` onto a JavaScript array is modelled as a `seq` that the loop reassigns. Nothing else holds a reference to the array while the loop runs, so no aliasing is lost.
