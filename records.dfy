/**
 * The rows of the income, expenses and savings_goals tables as the dashboard
 * reads them. Amounts are reals (rounding is not modelled); dates are abstract
 * day numbers, so "newest first" and "yesterday" are plain integer order.
 */
module Records {
  import opened Wrappers

  /** A calendar day; consecutive days are consecutive integers. */
  type Day = int

  datatype Income = Income(id: string, userId: string, amount: real, source: string, date: Day, createdAt: string)

  datatype Expense = Expense(id: string, userId: string, amount: real, description: string, date: Day, createdAt: string)

  datatype SavingsGoal = SavingsGoal(
    id: string,
    userId: string,
    name: string,
    targetAmount: real,
    currentAmount: real,
    targetDate: Option<Day>,
    createdAt: string)
}
