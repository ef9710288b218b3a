/**
 The Wallet ledger: an append-only sequence of caller-supplied transactions and
 two read queries, "all incomes" and "all expenses", each optionally bounded by
 a start date and an end date and each answering `{ total, list }`.

 Amounts are integers: a transaction's own `getValue()` result is carried as a
 whole number of cents (50.31 is 5031), and timestamps are milliseconds.
 */
module Ledger {
  import opened Wrappers

  /** A caller-supplied transaction record.
      `value` is the signed amount in minor units; its sign decides polarity.
      `createdAt` is the creation timestamp in milliseconds.
      `amount` is what the record's own `getValue()` reports, in cents. */
  datatype Transaction = Transaction(value: int, createdAt: int, amount: int)

  /** The ledger state: every transaction added so far, in insertion order. */
  datatype Wallet = Wallet(transactions: seq<Transaction>)

  /** The answer of a query: the summed amount and the selected records. */
  datatype Report = Report(total: int, list: seq<Transaction>)

  /** Which of the two queries is asked. */
  datatype Polarity = Income | Expense

  /** A freshly constructed wallet holds no transactions. */
  const EmptyWallet: Wallet := Wallet([])

  /** A new wallet answers both queries with a zero total and an empty list. */
  lemma EmptyWalletReports(start: Option<int>, end: Option<int>)
    ensures GetAllIncomes(EmptyWallet, start, end) == Report(0, [])
    ensures GetAllExpenses(EmptyWallet, start, end) == Report(0, [])
  {
  }

  /** Stores one more transaction; nothing already stored is removed or changed. */
  function AddTransaction(w: Wallet, t: Transaction): (w': Wallet)
    ensures |w'.transactions| == |w.transactions| + 1
    ensures w'.transactions[..|w.transactions|] == w.transactions
    ensures w'.transactions[|w.transactions|] == t
  {
    Wallet(w.transactions + [t])
  }

  /** Incomes have a positive `value`, expenses a negative one. */
  predicate HasPolarity(p: Polarity, t: Transaction) {
    match p
    case Income => t.value > 0
    case Expense => t.value < 0
  }

  /** An omitted bound does not restrict; a given bound is compared strictly. */
  predicate InWindow(t: Transaction, start: Option<int>, end: Option<int>) {
    && (start.None? || start.value < t.createdAt)
    && (end.None? || t.createdAt < end.value)
  }

  /** The selection rule of a query. */
  predicate Selected(p: Polarity, t: Transaction, start: Option<int>, end: Option<int>) {
    HasPolarity(p, t) && InWindow(t, start, end)
  }

  function Abs(x: int): (r: nat)
    ensures r == x || r == -x
  {
    if x < 0 then -x else x
  }

  /** What one selected record adds to a total: its `getValue()` for incomes,
      the magnitude of its `getValue()` for expenses. */
  function Contribution(p: Polarity, t: Transaction): int {
    match p
    case Income => t.amount
    case Expense => Abs(t.amount)
  }

  /** The selected records of `ts`, kept in the order they were added.
      What it keeps is stated by `SelectContents`, the order by `SelectAppend`. */
  function Select(p: Polarity, ts: seq<Transaction>, start: Option<int>, end: Option<int>): (r: seq<Transaction>)
    ensures |r| <= |ts|
  {
    if |ts| == 0 then []
    else
      var rest := Select(p, ts[1..], start, end);
      if Selected(p, ts[0], start, end) then [ts[0]] + rest else rest
  }

  /** Each record occurs in the selection exactly as often as in the ledger
      when it qualifies, and not at all otherwise. */
  lemma {:induction false} SelectContents(p: Polarity, ts: seq<Transaction>, start: Option<int>, end: Option<int>)
    ensures forall t :: multiset(Select(p, ts, start, end))[t]
                     == if Selected(p, t, start, end) then multiset(ts)[t] else 0
  {
    if |ts| > 0 {
      assert ts == [ts[0]] + ts[1..];
      SelectContents(p, ts[1..], start, end);
    }
  }

  /** The sum of the contributions of `ts`, front to back. */
  function Total(p: Polarity, ts: seq<Transaction>): (r: int)
    ensures p == Expense ==> r >= 0
  {
    if |ts| == 0 then 0 else Contribution(p, ts[0]) + Total(p, ts[1..])
  }

  /** Reference total: every stored record contributes when selected and
      counts zero otherwise, accumulated in insertion order. */
  function MaskedTotal(p: Polarity, ts: seq<Transaction>, start: Option<int>, end: Option<int>): int {
    if |ts| == 0 then 0
    else
      var last := ts[|ts| - 1];
      MaskedTotal(p, ts[..|ts| - 1], start, end)
        + (if Selected(p, last, start, end) then Contribution(p, last) else 0)
  }

  /** One query of either polarity over the whole ledger. */
  function Query(p: Polarity, w: Wallet, start: Option<int>, end: Option<int>): (r: Report)
    ensures forall t {:trigger multiset(r.list)[t]} :: multiset(r.list)[t] == if Selected(p, t, start, end) then multiset(w.transactions)[t] else 0
    ensures forall t {:trigger t in r.list} :: t in r.list <==> t in w.transactions && Selected(p, t, start, end)
    ensures r.total == MaskedTotal(p, w.transactions, start, end)
    ensures p == Expense ==> r.total >= 0
  {
    var list := Select(p, w.transactions, start, end);
    SelectContents(p, w.transactions, start, end);
    SelectTotal(p, w.transactions, start, end);
    Report(Total(p, list), list)
  }

  /** `getAllIncomes(startDate?, endDate?)`. */
  function GetAllIncomes(w: Wallet, start: Option<int>, end: Option<int>): (r: Report)
    ensures forall t :: t in r.list <==> t in w.transactions && t.value > 0 && InWindow(t, start, end)
    ensures forall t :: multiset(r.list)[t] == if t.value > 0 && InWindow(t, start, end) then multiset(w.transactions)[t] else 0
    ensures r.total == MaskedTotal(Income, w.transactions, start, end)
  {
    Query(Income, w, start, end)
  }

  /** `getAllExpenses(startDate?, endDate?)`; the total is a non-negative magnitude. */
  function GetAllExpenses(w: Wallet, start: Option<int>, end: Option<int>): (r: Report)
    ensures forall t :: t in r.list <==> t in w.transactions && t.value < 0 && InWindow(t, start, end)
    ensures forall t :: multiset(r.list)[t] == if t.value < 0 && InWindow(t, start, end) then multiset(w.transactions)[t] else 0
    ensures r.total == MaskedTotal(Expense, w.transactions, start, end)
    ensures r.total >= 0
  {
    Query(Expense, w, start, end)
  }

  /** Selecting from a ledger with one more record at the end selects what was
      selected before, followed by that record when it qualifies. */
  lemma {:induction false} SelectAppend(p: Polarity, ts: seq<Transaction>, t: Transaction, start: Option<int>, end: Option<int>)
    ensures Select(p, ts + [t], start, end)
         == Select(p, ts, start, end) + (if Selected(p, t, start, end) then [t] else [])
  {
    var tail := if Selected(p, t, start, end) then [t] else [];
    if |ts| == 0 {
      assert ts + [t] == [t];
      assert Select(p, [t], start, end) == tail;
    } else {
      var xs := ts + [t];
      assert xs[0] == ts[0];
      assert xs[1..] == ts[1..] + [t];
      SelectAppend(p, ts[1..], t, start, end);
      var rest := Select(p, ts[1..], start, end);
      assert Select(p, xs, start, end)
          == (if Selected(p, ts[0], start, end) then [ts[0]] else []) + Select(p, xs[1..], start, end);
      assert Select(p, ts, start, end)
          == (if Selected(p, ts[0], start, end) then [ts[0]] else []) + rest;
    }
  }

  lemma {:induction false} TotalAppend(p: Polarity, ts: seq<Transaction>, t: Transaction)
    ensures Total(p, ts + [t]) == Total(p, ts) + Contribution(p, t)
  {
    if |ts| == 0 {
      assert ts + [t] == [t];
    } else {
      assert (ts + [t])[1..] == ts[1..] + [t];
      TotalAppend(p, ts[1..], t);
    }
  }

  /** Summing the selected list gives the reference total over the whole ledger. */
  lemma {:induction false} SelectTotal(p: Polarity, ts: seq<Transaction>, start: Option<int>, end: Option<int>)
    ensures Total(p, Select(p, ts, start, end)) == MaskedTotal(p, ts, start, end)
  {
    if |ts| > 0 {
      var init, last := ts[..|ts| - 1], ts[|ts| - 1];
      assert ts == init + [last];
      SelectTotal(p, init, start, end);
      SelectAppend(p, init, last, start, end);
      var before := Select(p, init, start, end);
      if Selected(p, last, start, end) {
        assert Select(p, ts, start, end) == before + [last];
        TotalAppend(p, before, last);
      } else {
        assert Select(p, ts, start, end) == before;
      }
    }
  }

  /** After `addTransaction(t)`, a query answers what it answered before,
      extended by `t` and its contribution exactly when `t` qualifies. */
  lemma AddTransactionQuery(p: Polarity, w: Wallet, t: Transaction, start: Option<int>, end: Option<int>)
    ensures Query(p, AddTransaction(w, t), start, end)
         == (var before := Query(p, w, start, end);
             if Selected(p, t, start, end)
             then Report(before.total + Contribution(p, t), before.list + [t])
             else before)
  {
    SelectAppend(p, w.transactions, t, start, end);
    if Selected(p, t, start, end) {
      TotalAppend(p, Select(p, w.transactions, start, end), t);
    }
  }

  /** Adding an expense leaves the income report untouched. */
  lemma IncomesIgnoreExpense(w: Wallet, t: Transaction, start: Option<int>, end: Option<int>)
    requires t.value < 0
    ensures GetAllIncomes(AddTransaction(w, t), start, end) == GetAllIncomes(w, start, end)
  {
    AddTransactionQuery(Income, w, t, start, end);
  }

  /** Adding an income leaves the expense report untouched. */
  lemma ExpensesIgnoreIncome(w: Wallet, t: Transaction, start: Option<int>, end: Option<int>)
    requires t.value > 0
    ensures GetAllExpenses(AddTransaction(w, t), start, end) == GetAllExpenses(w, start, end)
  {
    AddTransactionQuery(Expense, w, t, start, end);
  }

  /** Date bounds, for a stored record of the queried polarity: created before
      a given start or after a given end, it is left out; created strictly
      inside every given bound, it is listed. */
  lemma BoundsFilter(p: Polarity, w: Wallet, t: Transaction, start: Option<int>, end: Option<int>)
    requires t in w.transactions && HasPolarity(p, t)
    ensures start.Some? && t.createdAt < start.value ==> t !in Query(p, w, start, end).list
    ensures end.Some? && t.createdAt > end.value ==> t !in Query(p, w, start, end).list
    ensures (start.None? || start.value < t.createdAt) && (end.None? || t.createdAt < end.value)
            ==> t in Query(p, w, start, end).list
  {
  }
}
