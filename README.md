# Ledger engine of a personal-finance app, in Dafny

This project models the core of a small personal-finance application. It records
income, expense and transfer movements against accounts and categories, and derives
account balances and an expense report from them. The model covers four layers:

- **Domain records** (`entities.dfy`): `TxType`, `Account`, `Category` and `Transaction`,
  with the defaults the dataclasses declare.
- **Storage rows and mappers** (`models.dfy`, `mappers.dfy`): the column sets of the three
  mapped tables, and the field-for-field conversions in both directions.
- **Repositories and the unit of work** (`tables.dfy`, `movements.dfy`, `repositories.dfy`):
  - `Repository` is a generic CRUD table keyed by an auto-increment id. It is a class
    whose `rows` and `nextId` fields its methods update.
  - The per-entity filtered queries are module-level methods that take a repository.
  - `movements.dfy` holds the query filters and the account balance, which both the
    data-access layer and the ledger arithmetic use.
  - `UnitOfWork` opens a session by taking a snapshot of the three tables, commits on a
    clean exit and restores the snapshot when the body raised.
- **The service** (`ledger.dfy`, `services.dfy`): `FinanceService` holds the business rules:
  - the order of validation;
  - the sign convention (income `+amount`, expense `-amount`);
  - the two-leg transfer;
  - the balance and expense reports.

  Each operation is first stated as a function on the store value (`AddIncomeSpec`,
  `TransferSpec`, …). The service's methods, which act step by step on the unit of work,
  are proved to produce exactly that result and that new store.

Amounts are integers in minor units. Timestamps are opaque integers supplied by the
caller (`now`). A failed validation is a `Failure` carrying one `LedgerError` variant
per distinct `ValueError` message.

## Model

| member | source | states |
|---|---|---|
| Entities.TxTypeOf | app/domain/entities.py:7-10 | `TxType(v)` yields the member whose value is `v`, and no member for any other string |
| Entities.TxTypeMembers | app/domain/entities.py:7-10 | the enum has exactly INCOME, EXPENSE and TRANSFER; each one's value is its own name, and looking up that value gives the member back |
| Entities.AccountDefaults | app/domain/entities.py:12-17 | a fresh account has no id, an empty name, currency "UAH" and the creation time it was given |
| Entities.CategoryDefaults | app/domain/entities.py:19-23 | a fresh category has no id and an empty name, and is an expense category (`isIncome` false) |
| Entities.TransactionDefaults | app/domain/entities.py:25-36 | a fresh transaction has no id, kind EXPENSE, account 0, amount 0, an empty description, and no category or counterpart account |
| Models.OrmTxTypeOf | app/dal/models.py:12-15 | the storage enum's lookup by value: a member exactly when its value matches |
| Mappers.AccountToDomain | app/dal/mappers.py:4-5 | defines the domain account built from a stored row, field for field |
| Mappers.AccountFromDomain | app/dal/mappers.py:7-9 | defines the stored row built from a domain account, field for field |
| Mappers.CategoryToDomain | app/dal/mappers.py:11-12 | defines the domain category built from a stored row, field for field |
| Mappers.CategoryFromDomain | app/dal/mappers.py:14-15 | defines the stored row built from a domain category, field for field |
| Mappers.TxToDomain | app/dal/mappers.py:17-27 | defines the domain transaction built from a stored row; the kind goes through its string value |
| Mappers.TxFromDomain | app/dal/mappers.py:29-39 | defines the stored row built from a domain transaction; the kind goes through its string value |
| Mappers.KindToDomain | app/dal/mappers.py:20 | the domain kind has the same string value as the stored kind |
| Mappers.KindFromDomain | app/dal/mappers.py:32 | the stored kind has the same string value as the domain kind |
| Mappers.KindRoundTrip | app/dal/mappers.py:17-39 | the kind conversion is a bijection: converting there and back gives the original in both directions |
| Mappers.AccountRoundTrip | app/dal/mappers.py:4-9 | `account_to_domain(account_from_domain(a)) == a`, and the other way round for rows |
| Mappers.CategoryRoundTrip | app/dal/mappers.py:11-15 | `category_to_domain(category_from_domain(c)) == c`, and the other way round for rows |
| Mappers.TxRoundTrip | app/dal/mappers.py:17-39 | a transaction survives the round trip with every field, including the optional category and counterpart account, in both directions |
| Tables.IndexOf | app/dal/repositories.py:25 | a found position holds a row with that key; nothing is found exactly when no row has the key |
| Tables.Lookup | app/dal/repositories.py:25 | defines `session.get`: the row whose key is `id`, or `None` |
| Tables.LookupUnique | app/dal/repositories.py:24-26 | in a well-keyed table, looking up a row's key finds that very row |
| Tables.LookupAppend | app/dal/repositories.py:18-22 | appending a row with a different key does not change what a key finds |
| Tables.Insert | app/dal/repositories.py:19-21 | defines `session.add` plus `flush`: a keyless row gets the counter's next key and is appended; a row with a taken key is refused |
| Tables.InsertSpec | app/dal/repositories.py:18-22 | an insert fails exactly when the row brings a key that is already taken; otherwise it appends one row, keeps the table well keyed, and gives a row without a key the counter's next value |
| Tables.InsertThenLookup | app/dal/repositories.py:18-26 | after an insert, `get` of the new key finds the stored row and every other key finds what it found before |
| Tables.AssignAll | app/dal/repositories.py:39-40 | defines the `setattr` loop: the columns assigned one after another, in order |
| Tables.AssignAllKeeps | app/dal/repositories.py:39-40 | the `setattr` loop leaves unchanged every field that no assignment touches |
| Tables.AssignAllKeepsKey | app/dal/repositories.py:39-40 | the `setattr` loop never changes the primary key |
| Repositories.OrmClassesLawful | app/dal/repositories.py:51-67 | for each of the three mapped classes, assigning a key sets it and no column assignment changes the key |
| Repositories.Repository.constructor | app/dal/repositories.py:12-16 | the repository holds its mapped class, its two mappers and the given table |
| Repositories.Repository.Add | app/dal/repositories.py:18-22 | the table becomes the insert's result and the stored row, with its key, comes back as a domain record; a taken key leaves the table unchanged |
| Repositories.Repository.Get | app/dal/repositories.py:24-26 | `None` exactly when no row has that key; otherwise the record of the row with that key |
| Repositories.Repository.List | app/dal/repositories.py:28-33 | without a filter, every row in table order; with one, exactly the rows satisfying it (complete and sound), mapped to domain records |
| Repositories.Repository.Update | app/dal/repositories.py:35-42 | a missing key gives `None` and no change; otherwise only that row changes, by applying the named columns in order, and its key and the other rows stay |
| Repositories.Repository.Delete | app/dal/repositories.py:44-49 | `False` and no change for a missing key; otherwise `True`, and that row alone is removed, every other row kept in order |
| Repositories.Repository.Restore | app/dal/repositories.py:104-105 | the table becomes the given snapshot |
| Repositories.IncomeCategories | app/dal/repositories.py:59-60 | the categories whose `isIncome` is true, in table order |
| Repositories.ExpenseCategories | app/dal/repositories.py:62-63 | the categories whose `isIncome` is false, in table order |
| Repositories.CategoriesPartition | app/dal/repositories.py:59-63 | the income and expense categories partition the table, counting multiplicity, and no row is in both |
| Repositories.ByAccount | app/dal/repositories.py:69-70 | exactly the transactions whose account is `accountId`, in table order |
| Repositories.ByCategory | app/dal/repositories.py:72-73 | exactly the transactions whose category equals `categoryId` (absent matches absent), in table order |
| Repositories.ByAccountIsLedgerSelect | app/dal/repositories.py:69-70 | filtering the rows and then mapping them equals filtering the domain ledger by account |
| Repositories.ByCategoryIsLedgerSelect | app/dal/repositories.py:72-73 | filtering the rows and then mapping them equals filtering the domain ledger by category |
| Repositories.AccountIds | app/dal/repositories.py:76 | the distinct accounts that occur in the transactions table, each once |
| Repositories.TotalsByAccount | app/dal/repositories.py:75-77 | one group per account that has transactions, with no group repeated, each carrying that account's balance |
| Repositories.UnitOfWork.constructor | app/dal/repositories.py:80-85 | the three repositories over the given database, with no session open |
| Repositories.UnitOfWork.Enter | app/dal/repositories.py:87-92 | opens a session that remembers the current tables and changes no table |
| Repositories.UnitOfWork.Commit | app/dal/repositories.py:101-102 | keeps the tables and makes them the session's new starting point |
| Repositories.UnitOfWork.Rollback | app/dal/repositories.py:104-105 | the tables return to the session's starting point |
| Repositories.UnitOfWork.Exit | app/dal/repositories.py:94-99 | when the body raised, the tables are those at `__enter__` (rolled back); otherwise they stay as the body left them (committed); the session is then closed |
| Movements.OnAccount | app/dal/repositories.py:70 | defines the `by_account` filter: the row's account equals `id` |
| Movements.InCategory | app/dal/repositories.py:73 | defines the `by_category` filter: the row's category equals `id`, with absent matching absent |
| Movements.Balance | app/bll/services.py:75-78 | defines an account's balance: the amounts of the rows on that account, accumulated in ledger order |
| Ledger.Total | app/bll/services.py:78 | defines the sum of the amounts of a list of transactions |
| Ledger.ExpenseTotal | app/bll/services.py:93 | defines a category's expense total: the amounts of its EXPENSE rows, accumulated in ledger order |
| Ledger.TotalConcat | app/bll/services.py:78 | the sum of amounts is additive over concatenation |
| Ledger.BalanceAppend | app/bll/services.py:75-78 | one more row moves only its own account's balance, by its amount |
| Ledger.BalanceIsTotalOfAccountRows | app/bll/services.py:75-78 | an account's balance is the sum of the amounts of the rows on that account |
| Ledger.BalanceWithoutRows | app/bll/services.py:75-78 | an account without rows has balance 0 |
| Ledger.ExpenseTotalIsTotalOfSelected | app/bll/services.py:93 | a category's expense total is the sum over its EXPENSE rows |
| Ledger.ExpenseTotalIsTotalOfCategoryRows | app/bll/services.py:93 | that equals the sum over the EXPENSE rows among those `by_category` returns |
| Ledger.ExpenseTotalNotPositive | app/bll/services.py:95 | when every expense row is negative, a category's expense total is at most 0 |
| Ledger.SumBalancesAppend | app/bll/services.py:80-86 | one more row changes the sum of the balances of distinct accounts by its amount when its account is among them, and not otherwise |
| Ledger.SumBalancesIsTotal | app/bll/services.py:80-86 | the balances of distinct accounts that cover every row add up to the total of the ledger |
| Ledger.PostedAppendPosting | app/bll/services.py:41-43 | appending one income or expense posting keeps the ledger well formed |
| Ledger.PostedAppendTransfer | app/bll/services.py:66-72 | appending one transfer pair keeps the ledger well formed |
| Ledger.PostedSigns | app/bll/services.py:32-72 | in a well-formed ledger, income rows are positive and expense rows negative and both have a category; transfer legs have no category and do have a counterpart |
| Ledger.TransfersCancel | app/bll/services.py:58-72 | transfers cancel out: the total of a well-formed ledger is the total of its income and expense rows |
| Services.Record | app/bll/services.py:43 | defines `transactions.add` of a new transaction on the store value: the stored record and the new store |
| Services.CreateAccountSpec | app/bll/services.py:10-13 | defines `create_account` on the store value: the stored account and the new store |
| Services.CreateCategorySpec | app/bll/services.py:20-23 | defines `create_category` on the store value: the stored category and the new store |
| Services.AddIncomeSpec | app/bll/services.py:32-43 | defines `add_income` on the store value: the checks in source order, each failure leaving the store as it was, then one INCOME row with `+amount` |
| Services.AddExpenseSpec | app/bll/services.py:45-56 | defines `add_expense` on the store value: the same checks with expense polarity, then one EXPENSE row with `-amount` |
| Services.TransferSpec | app/bll/services.py:58-72 | defines `transfer` on the store value: amount, then distinct accounts, then existence, then the out leg and the in leg |
| Services.BalancesSpec | app/bll/services.py:80-86 | defines the balances report: each stored account with its balance |
| Services.ExpenseReportSpec | app/bll/services.py:88-96 | defines the expense report: each expense category with the absolute value of its expense total |
| Services.RecordSpec | app/bll/services.py:41-43 | adding a new transaction stores it under the counter's next key, appends it to the ledger and touches neither accounts nor categories |
| Services.CreateAccountEffect | app/bll/services.py:10-13 | the new account gets the next free key and the given name and currency; `get` then finds it, and nothing else changes |
| Services.CreateCategoryEffect | app/bll/services.py:20-23 | the new category gets the next free key and the given name and polarity; `get` then finds it, and nothing else changes |
| Services.AmountCheckedFirst | app/bll/services.py:33-60 | a non-positive amount fails income, expense and transfer with the amount error, whatever else is wrong, and writes nothing |
| Services.SameAccountBeforeLookup | app/bll/services.py:58-65 | a transfer onto its own account fails with the same-account error even when that account does not exist |
| Services.AddIncomeOutcome | app/bll/services.py:32-43 | success exactly when the amount is positive, the account exists and the category exists and is an income category; each failure names the first check that fails and leaves the store unchanged |
| Services.AddExpenseOutcome | app/bll/services.py:45-56 | success exactly when the amount is positive, the account exists and the category exists and is not an income category; failures leave the store unchanged |
| Services.TransferOutcome | app/bll/services.py:58-72 | success exactly when the amount is positive and the two accounts differ and both exist; failures leave the store unchanged |
| Services.AddIncomeEffect | app/bll/services.py:41-43 | exactly one INCOME row is appended, with `+amount`, the account and category and no counterpart; that account's balance rises by `amount`, every other balance stays |
| Services.AddExpenseEffect | app/bll/services.py:51-56 | exactly one EXPENSE row is appended, with `-amount`; that account's balance falls by `amount`, every other balance stays |
| Services.TransferEffect | app/bll/services.py:66-72 | exactly two TRANSFER rows are appended: the out leg on `from` with `-amount` and counterpart `to`, then the in leg on `to` with `+amount` and counterpart `from`; `from` loses `amount`, `to` gains it, other balances and the total stay |
| Services.AccountKeysSpec | app/dal/models.py:21 | the keys of the stored accounts are distinct and include every account that can be found |
| Services.TransferKeepsSumOfBalances | app/bll/services.py:58-72 | a transfer leaves the sum of the balances of all accounts unchanged |
| Services.EmptyStoreConsistent | app/dal/models.py:18-62 | an empty database satisfies the store invariant |
| Services.CreateAccountKeepsConsistent | app/bll/services.py:10-13 | creating an account keeps the store invariant |
| Services.CreateCategoryKeepsConsistent | app/bll/services.py:20-23 | creating a category keeps the store invariant |
| Services.AddIncomeKeepsConsistent | app/bll/services.py:32-43 | `add_income` keeps the store invariant: well keyed, a well-formed ledger, every row referring to existing accounts and to a category of matching polarity |
| Services.AddExpenseKeepsConsistent | app/bll/services.py:45-56 | `add_expense` keeps the store invariant |
| Services.TransferKeepsConsistent | app/bll/services.py:58-72 | `transfer` keeps the store invariant |
| Services.AccountBalanceIsSumOfRows | app/bll/services.py:75-78 | the sum of the amounts of the rows `by_account` returns is the account's balance, and 0 for an account without rows |
| Services.BalancesReportSums | app/bll/services.py:80-86 | one entry per stored account in table order, each the account's record and its balance; under the invariant the balances sum to the total of the income and expense rows |
| Services.ExpenseReportSpecOK | app/bll/services.py:88-96 | one entry per expense category in table order, each the absolute value of the sum over that category's EXPENSE rows, so never negative; under the invariant it equals the category's spending |
| Services.ExpenseSums | app/bll/services.py:91-94 | for each category, the sum of the amounts of the EXPENSE rows `by_category` returns for it |
| Services.ExpenseReportFromTotals | app/bll/services.py:95-96 | taking absolute values of those sums yields the expense report |
| Services.FinanceService.constructor | app/bll/services.py:5-7 | the service holds the given unit of work |
| Services.FinanceService.CreateAccount | app/bll/services.py:10-13 | returns the stored account, and the store becomes the one `CreateAccountSpec` describes |
| Services.FinanceService.ListAccounts | app/bll/services.py:15-17 | every stored account in table order; the store is unchanged |
| Services.FinanceService.CreateCategory | app/bll/services.py:20-23 | returns the stored category, and the store becomes the one `CreateCategorySpec` describes |
| Services.FinanceService.ListCategories | app/bll/services.py:25-29 | all categories without a flag, otherwise only the income or only the expense ones; the store is unchanged |
| Services.FinanceService.AddIncome | app/bll/services.py:32-43 | the result and the new store are those of `AddIncomeSpec`; a failure after the session opened rolls back |
| Services.FinanceService.AddExpense | app/bll/services.py:45-56 | the result and the new store are those of `AddExpenseSpec` |
| Services.FinanceService.Transfer | app/bll/services.py:58-72 | the result and the new store are those of `TransferSpec` |
| Services.FinanceService.PostTransfer | app/bll/services.py:66-72 | the two `add` calls of a validated transfer produce the legs and the store `TransferSpec` describes |
| Services.FinanceService.AccountBalance | app/bll/services.py:75-78 | the balance of the account in the current ledger; the store is unchanged |
| Services.FinanceService.BalancesByAccount | app/bll/services.py:80-86 | the balances report of the current store, built by the loop over the accounts |
| Services.FinanceService.ExpenseByCategory | app/bll/services.py:88-96 | the expense report of the current store |
| Services.FinanceService.TransactionsForAccount | app/bll/services.py:98-100 | exactly the ledger rows on that account, in table order; the store is unchanged |

## Left out

- Floating point: amounts are integers in minor units, and `round(…, 2)` is the identity on them.
- Timestamps: `datetime.utcnow` defaults are replaced by a `now` value the caller passes in, once per operation.
- The console menu, seeding, engine/session construction and table creation are not part of this model.
- SQL query construction (`select`, `where`, `group_by`, `func.sum`): these become filters and sums over in-memory sequences.
- Session `flush` and `close`: a write is visible as soon as it is made, within its session.
- The unique-name constraints on accounts and categories: these are backend constraints that the service never checks. An insert that breaks one is not modelled as failing.
- Foreign-key enforcement and the `delete-orphan` cascade from an account to its transactions belong to the backend mapping and are not modelled.
- Repositories.Repository.Delete: removes only the row itself; the cascade to an account's transactions is not modelled.
- Repositories.UnitOfWork.constructor: the three repositories are created once here, not anew at every `__enter__`. Both over the same session give the same view of the tables.
- Repositories.Repository.Add: ids come from a counter standing for `autoincrement`. The counter never goes back except on rollback, which restores it with the rest of the snapshot. A deleted key is not reused.
- Repositories.TotalsByAccount: lists the groups in order of first appearance; SQL leaves the order of `GROUP BY` unspecified.
- Repositories.Repository.List: returns rows in table (insertion) order. A `SELECT` without `ORDER BY` promises no order, so the source only guarantees the same rows as a multiset. The same holds for `ByAccount`, `ByCategory`, `IncomeCategories`, `ExpenseCategories` and the reports built on them (`BalancesSpec`, `ExpenseReportSpec`).
- Services.TransferEffect: both legs carry the same `occurredAt`, because the model passes one `now` to the operation. The source builds each leg with its own `datetime.utcnow` default (app/bll/services.py:66-69), so the two timestamps can differ there.
- Repositories.Repository.Update: the columns are the mapped non-key fields; assigning the primary key or a name that is not a column is not modelled.
- Services.FinanceService.BalancesByAccount: the source calls `account_balance`, which re-enters the same unit of work for each account. The model computes each balance inside the one session.
- `FinanceService` takes an already-built unit of work; the factory form of `uow` is not modelled.
- Services.FinanceService.AddIncome: an `Add` that fails for a storage reason cannot happen here, because new transactions carry no key. Such failures are not modelled.
