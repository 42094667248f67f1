/** The record shapes the loan engine reads and produces (types.ts). */
module LoanTypes {

  /** The three inputs of one calculation: the amount borrowed, the nominal
      annual rate in percent (6.5 means 6.5%) and the term in whole years. */
  datatype LoanDetails = LoanDetails(principal: real, interestRate: real, termYears: nat)

  /** One month of the schedule. `balance` is the balance reported after the
      month's payment; `totalInterest` is the interest paid up to and
      including this month. */
  datatype AmortizationPeriod = AmortizationPeriod(
    month: nat,
    payment: real,
    principal: real,
    interest: real,
    balance: real,
    totalInterest: real)

  /** What one calculation returns: the level payment, the totals and the
      full month-by-month schedule. */
  datatype CalculationResult = CalculationResult(
    monthlyPayment: real,
    totalPayment: real,
    totalInterest: real,
    schedule: seq<AmortizationPeriod>)
}
