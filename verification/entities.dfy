/** The records the loan engine passes around: the domain entities and the
    simulation request of the HTTP layer. `big.Float` fields become `real`. */
module Entities {

  /** A `time.Time` as far as the engine looks at it: the calendar year, the
      day of that year (1 to 366) and everything finer, kept opaque. */
  datatype Time = Time(year: int, yearDay: int, clock: int)

  /** Go's zero `time.Time`: 1 January of year 1. */
  const ZeroTime := Time(1, 1, 0)

  /** An interest-rate tier: an age bracket and its annual rate in percent. */
  datatype LoanCondition = LoanCondition(
    name: string,
    interestRate: real,
    minAge: int,
    maxAge: int,
    modifiedDate: Time)

  /** One line of a repayment schedule. */
  datatype Installment = Installment(
    number: int,
    amount: real,
    feeAmount: real,
    currency: string)

  /** A computed (or cached) simulation, the unit the batch emits. */
  datatype LoanSimulation = LoanSimulation(
    amountTobePaid: real,
    amountFeeTobePaid: real,
    simulationDate: Time,
    currency: string,
    installments: seq<Installment>,
    email: string)

  /** One element of the batch a client submits. `installments` is a Go `int`
      and may be zero or negative; nothing validates it. */
  datatype SimulationRequest = SimulationRequest(
    loanAmount: real,
    installments: int,
    birthDate: Time,
    currency: string,
    email: string)
}
