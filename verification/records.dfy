/** The rows the calculators and pages read, with only the columns their
    queries use (the shape follows models.py). Amounts are exact reals in
    place of DECIMAL(10,2) and Python floats. */
module Records {
  import opened Calendar

  type UserId = int

  /** The `type` column of a category: 'income' or 'expense'. */
  datatype CategoryKind = IncomeKind | ExpenseKind

  datatype Category = Category(id: int, name: string, kind: CategoryKind, isCustom: bool)

  datatype Income = Income(userId: UserId, amount: real, categoryId: int, date: Date)

  datatype Expense = Expense(userId: UserId, amount: real, categoryId: int, date: Date, necessity: string)
}
