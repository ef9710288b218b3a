/**
 The wallet's test scenarios, one lemma each. Amounts are in cents and times in
 milliseconds. A fixture stamped with the current time takes that time as a lemma
 parameter, so the scenario holds whatever the clock reads.

 Each proof computes the two-record report with `QueryOfTwo` and then names the
 step from the public query to `Query`, which keeps the solver's search short.
 */
module Scenarios {
  import opened Wrappers
  import opened Ledger

  /** 2022-01-01T00:00:00Z in milliseconds since the epoch. */
  const StartDate: int := 1640995200000

  /** 2022-01-31T00:00:00Z in milliseconds since the epoch. */
  const EndDate: int := 1643587200000

  /** A wallet holding `a` and then `b`. */
  function WalletOf(a: Transaction, b: Transaction): Wallet {
    AddTransaction(AddTransaction(EmptyWallet, a), b)
  }

  /** A query over a two-record wallet lists the qualifying records in the
      order they were added and sums their contributions. */
  lemma QueryOfTwo(p: Polarity, a: Transaction, b: Transaction, start: Option<int>, end: Option<int>)
    ensures Query(p, WalletOf(a, b), start, end)
         == Report((if Selected(p, a, start, end) then Contribution(p, a) else 0)
                     + (if Selected(p, b, start, end) then Contribution(p, b) else 0),
                   (if Selected(p, a, start, end) then [a] else [])
                     + (if Selected(p, b, start, end) then [b] else []))
  {
    assert Query(p, EmptyWallet, start, end) == Report(0, []);
    AddTransactionQuery(p, EmptyWallet, a, start, end);
    AddTransactionQuery(p, AddTransaction(EmptyWallet, a), b, start, end);
  }

  lemma GetsAllIncomes(nowA: int, nowB: int)
    ensures var incomeA := Transaction(5031, nowA, 5031);
            var incomeB := Transaction(8000, nowB, 8000);
            var incomes := GetAllIncomes(WalletOf(incomeA, incomeB), None, None);
            && incomes.total == 13031
            && incomeA in incomes.list
            && incomeB in incomes.list
  {
    var incomeA := Transaction(5031, nowA, 5031);
    var incomeB := Transaction(8000, nowB, 8000);
    QueryOfTwo(Income, incomeA, incomeB, None, None);
    var w := WalletOf(incomeA, incomeB);
    assert GetAllIncomes(w, None, None) == Query(Income, w, None, None);
  }

  lemma GetsIncomesAndNoExpenses(nowA: int, nowB: int)
    ensures var income := Transaction(5031, nowA, 5031);
            var expense := Transaction(-3500, nowB, -3500);
            var incomes := GetAllIncomes(WalletOf(income, expense), None, None);
            && incomes.total == 5031
            && income in incomes.list
            && expense !in incomes.list
  {
    var income := Transaction(5031, nowA, 5031);
    var expense := Transaction(-3500, nowB, -3500);
    QueryOfTwo(Income, income, expense, None, None);
    var w := WalletOf(income, expense);
    assert GetAllIncomes(w, None, None) == Query(Income, w, None, None);
  }

  lemma IncomesBeforeStartExcluded()
    ensures var incomeBeforeStart := Transaction(5031, StartDate - 1, 5031);
            var incomeAfterStart := Transaction(8000, StartDate + 1, 8000);
            var incomes := GetAllIncomes(WalletOf(incomeAfterStart, incomeBeforeStart), Some(StartDate), None);
            && incomes.total == 8000
            && incomeAfterStart in incomes.list
            && incomeBeforeStart !in incomes.list
  {
    var incomeBeforeStart := Transaction(5031, StartDate - 1, 5031);
    var incomeAfterStart := Transaction(8000, StartDate + 1, 8000);
    QueryOfTwo(Income, incomeAfterStart, incomeBeforeStart, Some(StartDate), None);
    var w := WalletOf(incomeAfterStart, incomeBeforeStart);
    assert GetAllIncomes(w, Some(StartDate), None) == Query(Income, w, Some(StartDate), None);
  }

  lemma IncomesAfterEndExcluded()
    ensures var incomeBeforeEnd := Transaction(5031, EndDate - 1, 5031);
            var incomeAfterEnd := Transaction(8000, EndDate + 1, 8000);
            var incomes := GetAllIncomes(WalletOf(incomeBeforeEnd, incomeAfterEnd), Some(StartDate), Some(EndDate));
            && incomes.total == 5031
            && incomeBeforeEnd in incomes.list
            && incomeAfterEnd !in incomes.list
  {
    var incomeBeforeEnd := Transaction(5031, EndDate - 1, 5031);
    var incomeAfterEnd := Transaction(8000, EndDate + 1, 8000);
    QueryOfTwo(Income, incomeBeforeEnd, incomeAfterEnd, Some(StartDate), Some(EndDate));
    var w := WalletOf(incomeBeforeEnd, incomeAfterEnd);
    assert GetAllIncomes(w, Some(StartDate), Some(EndDate)) == Query(Income, w, Some(StartDate), Some(EndDate));
  }

  lemma GetsAllExpenses(nowA: int, nowB: int)
    ensures var expenseA := Transaction(-3500, nowA, -3500);
            var expenseB := Transaction(-1299, nowB, -1299);
            var expenses := GetAllExpenses(WalletOf(expenseA, expenseB), None, None);
            && expenses.total == 4799
            && expenseA in expenses.list
            && expenseB in expenses.list
  {
    var expenseA := Transaction(-3500, nowA, -3500);
    var expenseB := Transaction(-1299, nowB, -1299);
    QueryOfTwo(Expense, expenseA, expenseB, None, None);
    var w := WalletOf(expenseA, expenseB);
    assert GetAllExpenses(w, None, None) == Query(Expense, w, None, None);
  }

  lemma GetsExpensesAndNoIncomes(nowA: int, nowB: int)
    ensures var income := Transaction(5031, nowA, 5031);
            var expense := Transaction(-1299, nowB, -1299);
            var expenses := GetAllExpenses(WalletOf(income, expense), None, None);
            && expenses.total == 1299
            && expense in expenses.list
            && income !in expenses.list
  {
    var income := Transaction(5031, nowA, 5031);
    var expense := Transaction(-1299, nowB, -1299);
    QueryOfTwo(Expense, income, expense, None, None);
    var w := WalletOf(income, expense);
    assert GetAllExpenses(w, None, None) == Query(Expense, w, None, None);
  }

  lemma ExpensesBeforeStartExcluded()
    ensures var expenseBeforeStart := Transaction(-3500, StartDate - 1, -3500);
            var expenseAfterStart := Transaction(-1299, StartDate + 1, -1299);
            var expenses := GetAllExpenses(WalletOf(expenseBeforeStart, expenseAfterStart), Some(StartDate), None);
            && expenses.total == 1299
            && expenseBeforeStart !in expenses.list
            && expenseAfterStart in expenses.list
  {
    var expenseBeforeStart := Transaction(-3500, StartDate - 1, -3500);
    var expenseAfterStart := Transaction(-1299, StartDate + 1, -1299);
    QueryOfTwo(Expense, expenseBeforeStart, expenseAfterStart, Some(StartDate), None);
    var w := WalletOf(expenseBeforeStart, expenseAfterStart);
    assert GetAllExpenses(w, Some(StartDate), None) == Query(Expense, w, Some(StartDate), None);
  }

  lemma ExpensesAfterEndExcluded()
    ensures var expenseBeforeEnd := Transaction(-3500, EndDate - 1, -3500);
            var expenseAfterEnd := Transaction(-1299, EndDate + 1, -1299);
            var expenses := GetAllExpenses(WalletOf(expenseBeforeEnd, expenseAfterEnd), Some(StartDate), Some(EndDate));
            && expenses.total == 3500
            && expenseBeforeEnd in expenses.list
            && expenseAfterEnd !in expenses.list
  {
    var expenseBeforeEnd := Transaction(-3500, EndDate - 1, -3500);
    var expenseAfterEnd := Transaction(-1299, EndDate + 1, -1299);
    QueryOfTwo(Expense, expenseBeforeEnd, expenseAfterEnd, Some(StartDate), Some(EndDate));
    var w := WalletOf(expenseBeforeEnd, expenseAfterEnd);
    assert GetAllExpenses(w, Some(StartDate), Some(EndDate)) == Query(Expense, w, Some(StartDate), Some(EndDate));
  }
}
