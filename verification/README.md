# Wallet ledger model

A Dafny model of the Wallet ledger. The ledger is an append-only store of
caller-supplied transactions. It answers two read queries:

- `getAllIncomes(startDate?, endDate?)`
- `getAllExpenses(startDate?, endDate?)`

Each query returns `{ total, list }`.

The model specifies the behaviour that `src/wallet.test.js` pins down;
`src/Wallet.js` itself is not modelled line by line.

Layout:

- `wrappers.dfy`: module `Wrappers`, the `Option` datatype used for the optional date bounds.
- `ledger.dfy`: module `Ledger`, the data model, `AddTransaction`, the two queries and the general lemmas.
- `scenarios.dfy`: module `Scenarios`, one lemma per test scenario.

Representation:

- A transaction is `Transaction(value, createdAt, amount)`.
- `value` is the signed amount in minor units. Its sign decides polarity.
- `createdAt` is a timestamp in integer milliseconds.
- `amount` is what the record's own `getValue()` returns, as integer cents.
  In every test fixture `amount == value` (5031 is 50.31, -1299 is -12.99).
  The ledger never derives `amount` from `value`. It only reads it, like the
  source calls `getValue()`.
- A wallet is an immutable `Wallet(transactions)`. `AddTransaction` returns the
  wallet with one more record at the end.
- A query is a pure function of the wallet and the two optional bounds.
  Calling it twice without an intervening `AddTransaction` trivially gives the same answer.
- Incomes and expenses share one definition, `Ledger.Query`, parameterised by `Polarity`.
- `Ledger.MaskedTotal` is the reference total. It walks the whole ledger from the back,
  counting each selected record's contribution and zero for every other record.
  The query computes its total differently: it filters first, then sums the list front to back.
  `Ledger.SelectTotal` proves the two agree.

Choices the tests do not pin down. The model makes them, and they are the model's own,
not facts the tests back:

- Bounds are strict at both ends: `start < createdAt < end`. The tests only probe a
  bound ±1 ms. Only `Ledger.BoundsFilter` and the scenario lemmas stay strictly off a bound.
  The query contracts and the general lemmas carry the strict rule through `Selected`,
  so what they say at a bound is the model's choice, not the tests'.
- A zero-valued transaction is neither an income nor an expense.
- `list` keeps insertion order. The tests only use `toContain`.
  `Ledger.SelectAppend`, `Ledger.AddTransactionQuery` and `Scenarios.QueryOfTwo` state this order. The other contracts
  speak only of membership and multiplicity.
- Each bound is optional on its own, so an end bound without a start bound is accepted.
- The expense total adds the magnitude of each `getValue()`. For consistent fixtures,
  where an expense's `getValue()` is negative, this equals minus the signed sum.

## Model

| member | source | states |
|---|---|---|
| Ledger.EmptyWalletReports | src/wallet.test.js:6 | a new wallet holds no transactions, so both queries answer with total 0 and an empty list, whatever the bounds |
| Ledger.AddTransaction | src/wallet.test.js:17-18 | `addTransaction(t)` makes the wallet one record longer, keeps every stored record in place and puts `t` last |
| Ledger.Query | src/wallet.test.js:20-24 | the shared query of either polarity: a record is listed iff it is stored and selected, with its multiplicity; the total is the reference masked total over the whole ledger and is never negative for expenses |
| Ledger.GetAllIncomes | src/wallet.test.js:5-94 | a record is listed iff it is stored, has a positive value and lies inside the given bounds; it is listed as many times as it was added; total is the sum of `getValue()` over exactly those records (the reference masked total over the whole ledger) |
| Ledger.GetAllExpenses | src/wallet.test.js:96-184 | a record is listed iff it is stored, has a negative value and lies inside the given bounds, with its multiplicity; total is the sum of the magnitudes of their `getValue()` results and is never negative |
| Ledger.SelectContents | src/wallet.test.js:23-24 | the filtered list contains each record exactly as often as the ledger does when it qualifies, and not at all otherwise |
| Ledger.SelectTotal | src/wallet.test.js:20-22 | summing the filtered list gives the same total as counting every stored record's contribution when selected and zero otherwise |
| Ledger.AddTransactionQuery | src/wallet.test.js:17-20 | after `addTransaction(t)` a query answers what it answered before, extended by `t` and its contribution exactly when `t` qualifies, and unchanged otherwise |
| Ledger.IncomesIgnoreExpense | src/wallet.test.js:27-47 | adding a negative-value transaction changes neither the income list nor the income total |
| Ledger.ExpensesIgnoreIncome | src/wallet.test.js:118-138 | adding a positive-value transaction changes neither the expense list nor the expense total |
| Ledger.BoundsFilter | src/wallet.test.js:49-94 | a stored record of the queried polarity created before a given start or after a given end is not listed; one created strictly inside every given bound is listed |
| Scenarios.GetsAllIncomes | src/wallet.test.js:5-25 | incomes 50.31 and 80 with no bounds give total 130.31 and both are listed, whatever their creation times |
| Scenarios.GetsIncomesAndNoExpenses | src/wallet.test.js:27-47 | income 50.31 plus expense -35 give income total 50.31; the expense is not listed |
| Scenarios.IncomesBeforeStartExcluded | src/wallet.test.js:49-70 | with only a start date, the income 1 ms before it is left out and the one 1 ms after it is listed; total 80 |
| Scenarios.IncomesAfterEndExcluded | src/wallet.test.js:72-94 | with both dates, the income 1 ms before the end is listed and the one 1 ms after it is left out; total 50.31 |
| Scenarios.GetsAllExpenses | src/wallet.test.js:96-116 | expenses -35 and -12.99 with no bounds give total 47.99 and both are listed |
| Scenarios.GetsExpensesAndNoIncomes | src/wallet.test.js:118-138 | income 50.31 plus expense -12.99 give expense total 12.99; the income is not listed |
| Scenarios.ExpensesBeforeStartExcluded | src/wallet.test.js:139-160 | with only a start date, the expense 1 ms before it is left out and the one 1 ms after it is listed; total 12.99 |
| Scenarios.ExpensesAfterEndExcluded | src/wallet.test.js:162-184 | with both dates, the expense 1 ms before the end is listed and the one 1 ms after it is left out; total 35 |
| Scenarios.QueryOfTwo | src/wallet.test.js:17-20 | a query over a wallet built by two `addTransaction` calls lists the qualifying records in the order added and totals their contributions |

## Left out

- Floating point: `getValue()` results and the totals are integer cents, so the exact float equality of `toBe` is not modelled.
- Date construction and parsing (`new Date('2022-01-01')`): timestamps are integer milliseconds. The two fixed dates are written out as constants.
- Current-time fixtures (`new Date()`): the clock reading becomes a lemma parameter, so each such scenario is proved for every time.
- The Jest harness (`describe`, `it`, `expect`): each scenario is a lemma.
- Duck-typed records and `getValue` closures: `getValue()` is a plain field of the record. A record missing `getValue` or carrying a non-comparable `createdAt` cannot be built in the model. So the runtime fault such a record raises at query time is not modelled.
- Object identity: `toContain` compares references, while the model compares records by value. Two distinct objects with equal fields are indistinguishable here.
- In-place mutation of the wallet object: `addTransaction` is a function returning the extended wallet.
- Behaviour exactly at a bound, for zero-valued transactions, list order and an end bound without a start bound: the model fixes these as described above, but no test constrains them.
