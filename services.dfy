/** The business-rule layer: validation, the sign convention, the two-leg
    transfer and the balance and expense reports. Each operation is first
    stated as a function on the store value; the service's methods, which act
    on the unit of work step by step, are proved to do exactly that. */
module Services {
  import opened Common
  import opened Seqs
  import opened Tables
  import opened Entities
  import M = Models
  import opened Mappers
  import opened Movements
  import opened Ledger
  import opened Repositories

  /** The `ValueError`s the service raises, one per message. */
  datatype LedgerError =
    | InvalidAmount                        // "Amount must be > 0"
    | SameAccount                          // "Use different accounts for transfer"
    | AccountNotFound                      // "Account not found"
    | CategoryMismatch(incomeRequired: bool) // "Category must be income type" / "... expense type"

  /** The transactions table as domain records, in table order. */
  function LedgerOf(s: Store): seq<Transaction>
  {
    Project(TxToDomain, s.transactions.rows)
  }

  function FindAccount(s: Store, id: int): Option<Account>
  {
    Lookup(AccountOrm.key, s.accounts.rows, id).Map(AccountToDomain)
  }

  function FindCategory(s: Store, id: int): Option<Category>
  {
    Lookup(CategoryOrm.key, s.categories.rows, id).Map(CategoryToDomain)
  }

  /** The keys of the stored accounts, in table order. */
  function AccountKeys(s: Store): seq<int>
    requires StoreWellKeyed(s)
  {
    seq(|s.accounts.rows|, i requires 0 <= i < |s.accounts.rows| => s.accounts.rows[i].id.value)
  }

  /** `transactions.add(tx)` for a record without a key. */
  function Record(s: Store, tx: Transaction): (Transaction, Store)
    requires tx.id.None?
  {
    var (t, stored) := Insert(TransactionOrm, s.transactions, TxFromDomain(tx)).value;
    (TxToDomain(stored), s.(transactions := t))
  }

  /** Recording stores `tx` under the counter's next key, appends it to the
      ledger and touches neither the accounts nor the categories. */
  lemma RecordSpec(s: Store, tx: Transaction)
    requires tx.id.None?
    ensures var (stored, s') := Record(s, tx);
      && stored == tx.(id := Some(s.transactions.nextId))
      && LedgerOf(s') == LedgerOf(s) + [stored]
      && s'.accounts == s.accounts && s'.categories == s.categories
      && s'.transactions.nextId == s.transactions.nextId + 1
      && (StoreWellKeyed(s) ==> StoreWellKeyed(s'))
  {
    var row := TxFromDomain(tx).(id := Some(s.transactions.nextId));
    TxRoundTrip(tx.(id := Some(s.transactions.nextId)), row);
    ProjectAppend(TxToDomain, s.transactions.rows, row);
    OrmClassesLawful();
    if StoreWellKeyed(s) {
      InsertSpec(TransactionOrm, s.transactions, TxFromDomain(tx));
    }
  }

  function CreateAccountSpec(s: Store, name: string, currency: string, now: Timestamp): (Account, Store)
  {
    var (t, stored) := Insert(AccountOrm, s.accounts, AccountFromDomain(Account(name := name, currency := currency, createdAt := now))).value;
    (AccountToDomain(stored), s.(accounts := t))
  }

  function CreateCategorySpec(s: Store, name: string, isIncome: bool): (Category, Store)
  {
    var (t, stored) := Insert(CategoryOrm, s.categories, CategoryFromDomain(Category(name := name, isIncome := isIncome))).value;
    (CategoryToDomain(stored), s.(categories := t))
  }

  function AddIncomeSpec(s: Store, accountId: int, amount: int, categoryId: int, description: string, now: Timestamp)
    : (Result<Transaction, LedgerError>, Store)
  {
    if amount <= 0 then (Failure(InvalidAmount), s)
    else if FindAccount(s, accountId).None? then (Failure(AccountNotFound), s)
    else if FindCategory(s, categoryId).None? || !FindCategory(s, categoryId).value.isIncome then (Failure(CategoryMismatch(true)), s)
    else
      var (tx, s') := Record(s, Transaction(txType := INCOME, accountId := accountId, amount := amount,
                                            categoryId := Some(categoryId), description := description, occurredAt := now));
      (Success(tx), s')
  }

  function AddExpenseSpec(s: Store, accountId: int, amount: int, categoryId: int, description: string, now: Timestamp)
    : (Result<Transaction, LedgerError>, Store)
  {
    if amount <= 0 then (Failure(InvalidAmount), s)
    else if FindAccount(s, accountId).None? then (Failure(AccountNotFound), s)
    else if FindCategory(s, categoryId).None? || FindCategory(s, categoryId).value.isIncome then (Failure(CategoryMismatch(false)), s)
    else
      var (tx, s') := Record(s, Transaction(txType := EXPENSE, accountId := accountId, amount := -amount,
                                            categoryId := Some(categoryId), description := description, occurredAt := now));
      (Success(tx), s')
  }

  function TransferSpec(s: Store, fromId: int, toId: int, amount: int, description: string, now: Timestamp)
    : (Result<(Transaction, Transaction), LedgerError>, Store)
  {
    if amount <= 0 then (Failure(InvalidAmount), s)
    else if fromId == toId then (Failure(SameAccount), s)
    else if FindAccount(s, fromId).None? || FindAccount(s, toId).None? then (Failure(AccountNotFound), s)
    else
      var (outTx, s1) := Record(s, Transaction(txType := TRANSFER, accountId := fromId, toAccountId := Some(toId),
                                               amount := -amount, description := description, occurredAt := now));
      var (inTx, s2) := Record(s1, Transaction(txType := TRANSFER, accountId := toId, toAccountId := Some(fromId),
                                               amount := amount, description := description, occurredAt := now));
      (Success((outTx, inTx)), s2)
  }

  /** `balances_by_account`: each stored account with its balance, in table order. */
  function BalancesSpec(s: Store): seq<(Account, int)>
    requires StoreWellKeyed(s)
  {
    var ledger := LedgerOf(s);
    seq(|s.accounts.rows|, i requires 0 <= i < |s.accounts.rows| =>
      (AccountToDomain(s.accounts.rows[i]), Balance(ledger, s.accounts.rows[i].id.value)))
  }

  function ExpenseCategoriesOf(s: Store): seq<Category>
  {
    Project(CategoryToDomain, Select(s.categories.rows, IsExpenseRow))
  }

  /** `expense_by_category`: each expense category with the absolute value of
      its EXPENSE rows' total. */
  function ExpenseReportSpec(s: Store): seq<(Category, int)>
  {
    var cats := ExpenseCategoriesOf(s);
    var ledger := LedgerOf(s);
    seq(|cats|, i requires 0 <= i < |cats| => (cats[i], Abs(ExpenseTotal(ledger, cats[i].id))))
  }

  // ---------------------------------------------------------------------------
  // Validation order and failure without writes

  /** A non-positive amount is refused first, whatever else is wrong, and nothing is written. */
  lemma AmountCheckedFirst(s: Store, accountId: int, toId: int, amount: int, categoryId: int, description: string, now: Timestamp)
    requires amount <= 0
    ensures AddIncomeSpec(s, accountId, amount, categoryId, description, now) == (Failure(InvalidAmount), s)
    ensures AddExpenseSpec(s, accountId, amount, categoryId, description, now) == (Failure(InvalidAmount), s)
    ensures TransferSpec(s, accountId, toId, amount, description, now) == (Failure(InvalidAmount), s)
  {
  }

  /** A transfer onto its own source account is refused as such even when that
      account does not exist: the same-account check precedes the lookups. */
  lemma SameAccountBeforeLookup(s: Store, x: int, amount: int, description: string, now: Timestamp)
    requires amount > 0
    ensures TransferSpec(s, x, x, amount, description, now) == (Failure(SameAccount), s)
  {
  }

  /** `add_income` succeeds exactly when the amount is positive, the account
      exists and the category exists and is an income category; each failure
      names the first check that failed and leaves the store as it was. */
  lemma AddIncomeOutcome(s: Store, accountId: int, amount: int, categoryId: int, description: string, now: Timestamp)
    ensures var (r, s') := AddIncomeSpec(s, accountId, amount, categoryId, description, now);
      && (r.Success? <==> amount > 0 && FindAccount(s, accountId).Some?
                            && FindCategory(s, categoryId).Some? && FindCategory(s, categoryId).value.isIncome)
      && (r.Failure? ==> s' == s)
      && (r == Failure(AccountNotFound) <==> amount > 0 && FindAccount(s, accountId).None?)
      && (r == Failure(CategoryMismatch(true)) <==>
            amount > 0 && FindAccount(s, accountId).Some?
            && (FindCategory(s, categoryId).None? || !FindCategory(s, categoryId).value.isIncome))
  {
  }

  /** `add_expense` succeeds exactly when the amount is positive, the account
      exists and the category exists and is not an income category. */
  lemma AddExpenseOutcome(s: Store, accountId: int, amount: int, categoryId: int, description: string, now: Timestamp)
    ensures var (r, s') := AddExpenseSpec(s, accountId, amount, categoryId, description, now);
      && (r.Success? <==> amount > 0 && FindAccount(s, accountId).Some?
                            && FindCategory(s, categoryId).Some? && !FindCategory(s, categoryId).value.isIncome)
      && (r.Failure? ==> s' == s)
      && (r == Failure(AccountNotFound) <==> amount > 0 && FindAccount(s, accountId).None?)
      && (r == Failure(CategoryMismatch(false)) <==>
            amount > 0 && FindAccount(s, accountId).Some?
            && (FindCategory(s, categoryId).None? || FindCategory(s, categoryId).value.isIncome))
  {
  }

  /** `transfer` succeeds exactly when the amount is positive and the two
      accounts are distinct and both exist; failures leave the store as it was. */
  lemma TransferOutcome(s: Store, fromId: int, toId: int, amount: int, description: string, now: Timestamp)
    ensures var (r, s') := TransferSpec(s, fromId, toId, amount, description, now);
      && (r.Success? <==> amount > 0 && fromId != toId && FindAccount(s, fromId).Some? && FindAccount(s, toId).Some?)
      && (r.Failure? ==> s' == s)
      && (r == Failure(SameAccount) <==> amount > 0 && fromId == toId)
      && (r == Failure(AccountNotFound) <==>
            amount > 0 && fromId != toId && (FindAccount(s, fromId).None? || FindAccount(s, toId).None?))
  {
  }

  // ---------------------------------------------------------------------------
  // Effects of the successful operations

  /** A successful `add_income` appends one INCOME row carrying `+amount`, the
      account and the category and no counterpart; that account's balance rises
      by `amount` and every other balance stays. */
  lemma AddIncomeEffect(s: Store, accountId: int, amount: int, categoryId: int, description: string, now: Timestamp)
    requires AddIncomeSpec(s, accountId, amount, categoryId, description, now).0.Success?
    ensures var (r, s') := AddIncomeSpec(s, accountId, amount, categoryId, description, now);
      var tx := r.value;
      && LedgerOf(s') == LedgerOf(s) + [tx]
      && tx == Transaction(id := Some(s.transactions.nextId), txType := INCOME, accountId := accountId, amount := amount,
                           description := description, occurredAt := now, categoryId := Some(categoryId), toAccountId := None)
      && s'.accounts == s.accounts && s'.categories == s.categories
      && Balance(LedgerOf(s'), accountId) == Balance(LedgerOf(s), accountId) + amount
      && (forall id :: id != accountId ==> Balance(LedgerOf(s'), id) == Balance(LedgerOf(s), id))
  {
    var tx := Transaction(txType := INCOME, accountId := accountId, amount := amount,
                          categoryId := Some(categoryId), description := description, occurredAt := now);
    RecordSpec(s, tx);
    var (stored, s') := Record(s, tx);
    forall id
      ensures Balance(LedgerOf(s'), id) == Balance(LedgerOf(s), id) + (if id == accountId then amount else 0)
    {
      BalanceAppend(LedgerOf(s), stored, id);
    }
  }

  /** A successful `add_expense` appends one EXPENSE row carrying `-amount`;
      that account's balance falls by `amount` and every other balance stays. */
  lemma AddExpenseEffect(s: Store, accountId: int, amount: int, categoryId: int, description: string, now: Timestamp)
    requires AddExpenseSpec(s, accountId, amount, categoryId, description, now).0.Success?
    ensures var (r, s') := AddExpenseSpec(s, accountId, amount, categoryId, description, now);
      var tx := r.value;
      && LedgerOf(s') == LedgerOf(s) + [tx]
      && tx == Transaction(id := Some(s.transactions.nextId), txType := EXPENSE, accountId := accountId, amount := -amount,
                           description := description, occurredAt := now, categoryId := Some(categoryId), toAccountId := None)
      && s'.accounts == s.accounts && s'.categories == s.categories
      && Balance(LedgerOf(s'), accountId) == Balance(LedgerOf(s), accountId) - amount
      && (forall id :: id != accountId ==> Balance(LedgerOf(s'), id) == Balance(LedgerOf(s), id))
  {
    var tx := Transaction(txType := EXPENSE, accountId := accountId, amount := -amount,
                          categoryId := Some(categoryId), description := description, occurredAt := now);
    RecordSpec(s, tx);
    var (stored, s') := Record(s, tx);
    forall id
      ensures Balance(LedgerOf(s'), id) == Balance(LedgerOf(s), id) + (if id == accountId then -amount else 0)
    {
      BalanceAppend(LedgerOf(s), stored, id);
    }
  }

  /** A successful `transfer` appends exactly two TRANSFER rows, the out leg on
      `fromId` with `-amount` and counterpart `toId`, then the in leg on `toId`
      with `+amount` and counterpart `fromId`; `fromId` loses `amount`, `toId`
      gains it, every other balance and the ledger's total stay. */
  lemma TransferEffect(s: Store, fromId: int, toId: int, amount: int, description: string, now: Timestamp)
    requires TransferSpec(s, fromId, toId, amount, description, now).0.Success?
    ensures var (r, s') := TransferSpec(s, fromId, toId, amount, description, now);
      var (outTx, inTx) := r.value;
      && LedgerOf(s') == LedgerOf(s) + [outTx, inTx]
      && outTx == Transaction(id := Some(s.transactions.nextId), txType := TRANSFER, accountId := fromId, amount := -amount,
                              description := description, occurredAt := now, categoryId := None, toAccountId := Some(toId))
      && inTx == Transaction(id := Some(s.transactions.nextId + 1), txType := TRANSFER, accountId := toId, amount := amount,
                             description := description, occurredAt := now, categoryId := None, toAccountId := Some(fromId))
      && IsTransferPair(outTx, inTx)
      && s'.accounts == s.accounts && s'.categories == s.categories
      && Balance(LedgerOf(s'), fromId) == Balance(LedgerOf(s), fromId) - amount
      && Balance(LedgerOf(s'), toId) == Balance(LedgerOf(s), toId) + amount
      && (forall id :: id != fromId && id != toId ==> Balance(LedgerOf(s'), id) == Balance(LedgerOf(s), id))
      && Total(LedgerOf(s')) == Total(LedgerOf(s))
  {
    var out := Transaction(txType := TRANSFER, accountId := fromId, toAccountId := Some(toId),
                           amount := -amount, description := description, occurredAt := now);
    RecordSpec(s, out);
    var (outTx, s1) := Record(s, out);
    var into := Transaction(txType := TRANSFER, accountId := toId, toAccountId := Some(fromId),
                            amount := amount, description := description, occurredAt := now);
    RecordSpec(s1, into);
    var (inTx, s2) := Record(s1, into);
    assert LedgerOf(s2) == LedgerOf(s) + [outTx] + [inTx];
    assert LedgerOf(s) + [outTx] + [inTx] == LedgerOf(s) + [outTx, inTx];
    forall id
      ensures Balance(LedgerOf(s2), id) == Balance(LedgerOf(s), id)
                + (if id == fromId then -amount else 0) + (if id == toId then amount else 0)
    {
      BalanceAppend(LedgerOf(s), outTx, id);
      BalanceAppend(LedgerOf(s1), inTx, id);
    }
    TotalConcat(LedgerOf(s), [outTx, inTx]);
  }

  /** The keys of the stored accounts are distinct, and an account that can be
      found is among them. */
  lemma AccountKeysSpec(s: Store)
    requires StoreWellKeyed(s)
    ensures Distinct(AccountKeys(s))
    ensures forall id :: FindAccount(s, id).Some? ==> id in AccountKeys(s)
  {
    var keys := AccountKeys(s);
    forall i, j | 0 <= i < j < |keys|
      ensures keys[i] != keys[j]
    {
      assert AccountOrm.key(s.accounts.rows[i]) != AccountOrm.key(s.accounts.rows[j]);
    }
    forall id | FindAccount(s, id).Some?
      ensures id in keys
    {
      var i := IndexOf(AccountOrm.key, s.accounts.rows, id).value;
      assert keys[i] == id;
    }
  }

  /** A transfer between two existing accounts leaves the sum of all account balances unchanged. */
  lemma TransferKeepsSumOfBalances(s: Store, fromId: int, toId: int, amount: int, description: string, now: Timestamp)
    requires StoreWellKeyed(s)
    requires TransferSpec(s, fromId, toId, amount, description, now).0.Success?
    ensures var s' := TransferSpec(s, fromId, toId, amount, description, now).1;
      StoreWellKeyed(s') && SumBalances(AccountKeys(s'), LedgerOf(s')) == SumBalances(AccountKeys(s), LedgerOf(s))
  {
    TransferEffect(s, fromId, toId, amount, description, now);
    var (r, s') := TransferSpec(s, fromId, toId, amount, description, now);
    var (outTx, inTx) := r.value;
    AccountKeysSpec(s);
    var keys := AccountKeys(s);
    SumBalancesAppend(keys, LedgerOf(s), outTx);
    SumBalancesAppend(keys, LedgerOf(s) + [outTx], inTx);
    assert LedgerOf(s) + [outTx] + [inTx] == LedgerOf(s) + [outTx, inTx];
  }

  /** `create_account` stores a new account under the counter's next key with
      the given name and currency, `get` finds it there afterwards, and nothing
      else changes. */
  lemma CreateAccountEffect(s: Store, name: string, currency: string, now: Timestamp)
    requires StoreWellKeyed(s)
    ensures var (a, s') := CreateAccountSpec(s, name, currency, now);
      && a == Account(id := Some(s.accounts.nextId), name := name, currency := currency, createdAt := now)
      && FindAccount(s', s.accounts.nextId) == Some(a)
      && (forall id :: id != s.accounts.nextId ==> FindAccount(s', id) == FindAccount(s, id))
      && FindAccount(s, s.accounts.nextId).None?
      && s'.categories == s.categories && s'.transactions == s.transactions
      && StoreWellKeyed(s')
  {
    var entity := Account(name := name, currency := currency, createdAt := now);
    OrmClassesLawful();
    InsertSpec(AccountOrm, s.accounts, AccountFromDomain(entity));
    InsertThenLookup(AccountOrm, s.accounts, AccountFromDomain(entity));
    AccountRoundTrip(entity.(id := Some(s.accounts.nextId)), AccountFromDomain(entity).(id := Some(s.accounts.nextId)));
  }

  /** `create_category` stores a new category under the counter's next key with
      the given name and polarity, `get` finds it there afterwards, and nothing
      else changes. */
  lemma CreateCategoryEffect(s: Store, name: string, isIncome: bool)
    requires StoreWellKeyed(s)
    ensures var (c, s') := CreateCategorySpec(s, name, isIncome);
      && c == Category(id := Some(s.categories.nextId), name := name, isIncome := isIncome)
      && FindCategory(s', s.categories.nextId) == Some(c)
      && (forall id :: id != s.categories.nextId ==> FindCategory(s', id) == FindCategory(s, id))
      && FindCategory(s, s.categories.nextId).None?
      && s'.accounts == s.accounts && s'.transactions == s.transactions
      && StoreWellKeyed(s')
  {
    var entity := Category(name := name, isIncome := isIncome);
    OrmClassesLawful();
    InsertSpec(CategoryOrm, s.categories, CategoryFromDomain(entity));
    InsertThenLookup(CategoryOrm, s.categories, CategoryFromDomain(entity));
    CategoryRoundTrip(entity.(id := Some(s.categories.nextId)), CategoryFromDomain(entity).(id := Some(s.categories.nextId)));
  }

  // ---------------------------------------------------------------------------
  // The invariant every service operation keeps

  /** Row `t` refers to an account that exists, to an existing counterpart when
      it names one, and to an existing category of the matching polarity when
      it names one. */
  ghost predicate WellReferenced(s: Store, t: Transaction)
  {
    && FindAccount(s, t.accountId).Some?
    && (t.toAccountId.Some? ==> FindAccount(s, t.toAccountId.value).Some?)
    && (t.categoryId.Some? ==>
          FindCategory(s, t.categoryId.value).Some?
          && FindCategory(s, t.categoryId.value).value.isIncome == (t.txType == INCOME))
  }

  /** A store the service could have built: well keyed, a ledger of postings
      and transfer pairs, and every row well referenced. */
  ghost predicate Consistent(s: Store)
  {
    && StoreWellKeyed(s)
    && Posted(LedgerOf(s))
    && forall t :: t in LedgerOf(s) ==> WellReferenced(s, t)
  }

  /** Appending well-referenced rows to the ledger, accounts and categories
      untouched, keeps the store consistent. */
  lemma AppendKeepsConsistent(s: Store, s': Store, txs: seq<Transaction>)
    requires Consistent(s) && StoreWellKeyed(s') && Posted(LedgerOf(s'))
    requires s'.accounts == s.accounts && s'.categories == s.categories
    requires LedgerOf(s') == LedgerOf(s) + txs
    requires forall t :: t in txs ==> WellReferenced(s, t)
    ensures Consistent(s')
  {
    forall t | t in LedgerOf(s')
      ensures WellReferenced(s', t)
    {
      assert WellReferenced(s, t);
    }
  }

  lemma EmptyStoreConsistent()
    ensures Consistent(Store(EmptyTable(), EmptyTable(), EmptyTable()))
  {
    assert LedgerOf(Store(EmptyTable(), EmptyTable(), EmptyTable())) == [];
  }

  lemma CreateAccountKeepsConsistent(s: Store, name: string, currency: string, now: Timestamp)
    requires Consistent(s)
    ensures Consistent(CreateAccountSpec(s, name, currency, now).1)
  {
    CreateAccountEffect(s, name, currency, now);
  }

  lemma CreateCategoryKeepsConsistent(s: Store, name: string, isIncome: bool)
    requires Consistent(s)
    ensures Consistent(CreateCategorySpec(s, name, isIncome).1)
  {
    CreateCategoryEffect(s, name, isIncome);
  }

  lemma AddIncomeKeepsConsistent(s: Store, accountId: int, amount: int, categoryId: int, description: string, now: Timestamp)
    requires Consistent(s)
    ensures Consistent(AddIncomeSpec(s, accountId, amount, categoryId, description, now).1)
  {
    var (r, s') := AddIncomeSpec(s, accountId, amount, categoryId, description, now);
    if r.Success? {
      var tx := Transaction(txType := INCOME, accountId := accountId, amount := amount,
                            categoryId := Some(categoryId), description := description, occurredAt := now);
      RecordSpec(s, tx);
      AddIncomeOutcome(s, accountId, amount, categoryId, description, now);
      AddIncomeEffect(s, accountId, amount, categoryId, description, now);
      assert WellReferenced(s, r.value);
      PostedAppendPosting(LedgerOf(s), r.value);
      AppendKeepsConsistent(s, s', [r.value]);
    }
  }

  lemma AddExpenseKeepsConsistent(s: Store, accountId: int, amount: int, categoryId: int, description: string, now: Timestamp)
    requires Consistent(s)
    ensures Consistent(AddExpenseSpec(s, accountId, amount, categoryId, description, now).1)
  {
    var (r, s') := AddExpenseSpec(s, accountId, amount, categoryId, description, now);
    if r.Success? {
      var tx := Transaction(txType := EXPENSE, accountId := accountId, amount := -amount,
                            categoryId := Some(categoryId), description := description, occurredAt := now);
      RecordSpec(s, tx);
      AddExpenseOutcome(s, accountId, amount, categoryId, description, now);
      AddExpenseEffect(s, accountId, amount, categoryId, description, now);
      assert WellReferenced(s, r.value);
      PostedAppendPosting(LedgerOf(s), r.value);
      AppendKeepsConsistent(s, s', [r.value]);
    }
  }

  lemma TransferKeepsConsistent(s: Store, fromId: int, toId: int, amount: int, description: string, now: Timestamp)
    requires Consistent(s)
    ensures Consistent(TransferSpec(s, fromId, toId, amount, description, now).1)
  {
    var (r, s') := TransferSpec(s, fromId, toId, amount, description, now);
    if r.Success? {
      TransferOutcome(s, fromId, toId, amount, description, now);
      var out := Transaction(txType := TRANSFER, accountId := fromId, toAccountId := Some(toId),
                             amount := -amount, description := description, occurredAt := now);
      RecordSpec(s, out);
      var (outTx, s1) := Record(s, out);
      var into := Transaction(txType := TRANSFER, accountId := toId, toAccountId := Some(fromId),
                              amount := amount, description := description, occurredAt := now);
      RecordSpec(s1, into);
      var (inTx, s2) := Record(s1, into);
      assert s' == s2 && r.value == (outTx, inTx);
      assert LedgerOf(s2) == LedgerOf(s) + [outTx, inTx] by {
        assert LedgerOf(s) + [outTx] + [inTx] == LedgerOf(s) + [outTx, inTx];
      }
      PostedAppendTransfer(LedgerOf(s), outTx, inTx);
      assert WellReferenced(s, outTx) && WellReferenced(s, inTx);
      AppendKeepsConsistent(s, s2, [outTx, inTx]);
    }
  }

  // ---------------------------------------------------------------------------
  // Reports

  /** The sum `expense_by_category` takes for category `c`: the amounts of the
      EXPENSE rows among those `by_category(c.id)` returns. */
  function CategoryRowsTotal(s: Store, c: Category): int
  {
    Total(Select(Project(TxToDomain, Select(s.transactions.rows, RowInCategory(c.id))), IsExpense))
  }

  /** `account_balance`: the amounts of the rows `by_account` returns, summed;
      it is the ledger balance of that account, and 0 for an account without rows. */
  lemma AccountBalanceIsSumOfRows(s: Store, id: int)
    ensures Total(Project(TxToDomain, Select(s.transactions.rows, RowOnAccount(id)))) == Balance(LedgerOf(s), id)
    ensures (forall t :: t in LedgerOf(s) ==> t.accountId != id) ==> Balance(LedgerOf(s), id) == 0
  {
    ByAccountIsLedgerSelect(s.transactions.rows, id);
    BalanceIsTotalOfAccountRows(LedgerOf(s), id);
    if forall t :: t in LedgerOf(s) ==> t.accountId != id {
      BalanceWithoutRows(LedgerOf(s), id);
    }
  }

  /** The balances report lists every stored account once, in table order, and
      under the invariant its balances add up to the total of the income and
      expense rows: transfers move money between accounts but create none. */
  lemma BalancesReportSums(s: Store)
    requires Consistent(s)
    ensures |BalancesSpec(s)| == |s.accounts.rows|
    ensures forall i :: 0 <= i < |s.accounts.rows| ==>
      BalancesSpec(s)[i].0 == AccountToDomain(s.accounts.rows[i])
      && FindAccount(s, AccountKeys(s)[i]) == Some(BalancesSpec(s)[i].0)
      && BalancesSpec(s)[i].1 == Balance(LedgerOf(s), AccountKeys(s)[i])
    ensures Distinct(AccountKeys(s))
    ensures SumBalances(AccountKeys(s), LedgerOf(s)) == Total(Select(LedgerOf(s), IsMovement))
  {
    AccountKeysSpec(s);
    forall i | 0 <= i < |s.accounts.rows|
      ensures FindAccount(s, AccountKeys(s)[i]) == Some(AccountToDomain(s.accounts.rows[i]))
    {
      LookupUnique(AccountOrm.key, s.accounts, i);
    }
    SumBalancesIsTotal(AccountKeys(s), LedgerOf(s));
    TransfersCancel(LedgerOf(s));
  }

  /** The expense report has one entry per expense category, in table order,
      each the absolute value of the EXPENSE rows `by_category` returns for it;
      under the invariant that is the category's spending, `-ExpenseTotal`. */
  lemma ExpenseReportSpecOK(s: Store)
    ensures |ExpenseReportSpec(s)| == |ExpenseCategoriesOf(s)|
    ensures forall c :: c in ExpenseCategoriesOf(s) <==>
      exists r :: r in s.categories.rows && !r.isIncome && c == CategoryToDomain(r)
    ensures forall i :: 0 <= i < |ExpenseReportSpec(s)| ==>
      var (c, total) := ExpenseReportSpec(s)[i];
      && c == ExpenseCategoriesOf(s)[i] && !c.isIncome
      && total == Abs(CategoryRowsTotal(s, c))
      && total >= 0
      && (Consistent(s) ==> total == -ExpenseTotal(LedgerOf(s), c.id))
  {
    var cats := ExpenseCategoriesOf(s);
    var selected := Select(s.categories.rows, IsExpenseRow);
    forall c
      ensures c in cats <==> exists r :: r in s.categories.rows && !r.isIncome && c == CategoryToDomain(r)
    {
      if c in cats {
        var i :| 0 <= i < |cats| && cats[i] == c;
        assert selected[i] in selected;
      }
      if exists r :: r in s.categories.rows && !r.isIncome && c == CategoryToDomain(r) {
        var r :| r in s.categories.rows && !r.isIncome && c == CategoryToDomain(r);
        assert r in selected;
        var i :| 0 <= i < |selected| && selected[i] == r;
        assert cats[i] == c;
      }
    }
    forall i | 0 <= i < |cats|
      ensures !cats[i].isIncome
      ensures ExpenseReportSpec(s)[i].1 == Abs(CategoryRowsTotal(s, cats[i]))
      ensures Consistent(s) ==> ExpenseReportSpec(s)[i].1 == -ExpenseTotal(LedgerOf(s), cats[i].id)
    {
      assert selected[i] in selected;
      assert IsExpenseRow(selected[i]);
      assert cats[i] == CategoryToDomain(selected[i]);
      ByCategoryIsLedgerSelect(s.transactions.rows, cats[i].id);
      ExpenseTotalIsTotalOfCategoryRows(LedgerOf(s), cats[i].id);
      if Consistent(s) {
        PostedSigns(LedgerOf(s));
        ExpenseTotalNotPositive(LedgerOf(s), cats[i].id);
      }
    }
  }

  /** The loop of `expense_by_category`: for each category, the sum of the
      amounts of the EXPENSE rows `by_category` returns for it. */
  method ExpenseSums(repo: TransactionsRepository, cats: seq<Category>) returns (result: seq<(Category, int)>)
    ensures |result| == |cats|
    ensures forall j :: 0 <= j < |cats| ==>
      result[j] == (cats[j], Total(Select(Project(repo.toDomain, Select(repo.rows, RowInCategory(cats[j].id))), IsExpense)))
  {
    result := [];
    for i := 0 to |cats|
      invariant |result| == i
      invariant forall j :: 0 <= j < i ==>
        result[j] == (cats[j], Total(Select(Project(repo.toDomain, Select(repo.rows, RowInCategory(cats[j].id))), IsExpense)))
    {
      var c := cats[i];
      var rows := ByCategory(repo, c.id);
      result := result + [(c, Total(Select(rows, IsExpense)))];
    }
  }

  /** Taking absolute values of the per-category sums, in the order of the
      expense categories, yields the expense report. */
  lemma ExpenseReportFromTotals(s: Store, result: seq<(Category, int)>, report: seq<(Category, int)>)
    requires |result| == |ExpenseCategoriesOf(s)|
    requires forall j :: 0 <= j < |result| ==> result[j] == (ExpenseCategoriesOf(s)[j], CategoryRowsTotal(s, ExpenseCategoriesOf(s)[j]))
    requires report == seq(|result|, i requires 0 <= i < |result| => (result[i].0, Abs(result[i].1)))
    ensures report == ExpenseReportSpec(s)
  {
    ExpenseReportSpecOK(s);
  }

  // ---------------------------------------------------------------------------
  // The service over a unit of work

  /** The business layer; every operation runs in one session of `uow`. */
  class FinanceService {
    const uow: UnitOfWork

    ghost predicate Valid()
      reads this, uow, uow.accounts, uow.categories, uow.transactions
    {
      uow.Valid() && !uow.InSession()
    }

    constructor (uow: UnitOfWork)
      requires uow.Valid() && !uow.InSession()
      ensures Valid() && this.uow == uow
    {
      this.uow := uow;
    }

    method CreateAccount(name: string, currency: string := "UAH", nameonly now: Timestamp) returns (a: Account)
      requires Valid()
      modifies uow, uow.accounts, uow.categories, uow.transactions
      ensures Valid()
      ensures (a, uow.Current()) == CreateAccountSpec(old(uow.Current()), name, currency, now)
    {
      uow.Enter();
      var added := uow.accounts.Add(Account(name := name, currency := currency, createdAt := now));
      assert added.Success?;
      a := added.value;
      uow.Exit(false);
    }

    method ListAccounts() returns (accounts: seq<Account>)
      requires Valid()
      modifies uow, uow.accounts, uow.categories, uow.transactions
      ensures Valid() && uow.Current() == old(uow.Current())
      ensures accounts == Project(AccountToDomain, uow.accounts.rows)
    {
      uow.Enter();
      accounts := uow.accounts.List(None);
      uow.Exit(false);
    }

    method CreateCategory(name: string, isIncome: bool) returns (c: Category)
      requires Valid()
      modifies uow, uow.accounts, uow.categories, uow.transactions
      ensures Valid()
      ensures (c, uow.Current()) == CreateCategorySpec(old(uow.Current()), name, isIncome)
    {
      uow.Enter();
      var added := uow.categories.Add(Category(name := name, isIncome := isIncome));
      assert added.Success?;
      c := added.value;
      uow.Exit(false);
    }

    /** All categories, or only those of one polarity. */
    method ListCategories(isIncome: Option<bool> := None) returns (cs: seq<Category>)
      requires Valid()
      modifies uow, uow.accounts, uow.categories, uow.transactions
      ensures Valid() && uow.Current() == old(uow.Current())
      ensures cs == match isIncome
        case None => Project(CategoryToDomain, uow.categories.rows)
        case Some(true) => Project(CategoryToDomain, Select(uow.categories.rows, IsIncomeRow))
        case Some(false) => Project(CategoryToDomain, Select(uow.categories.rows, IsExpenseRow))
    {
      uow.Enter();
      match isIncome {
        case None =>
          cs := uow.categories.List(None);
        case Some(income) =>
          if income {
            cs := IncomeCategories(uow.categories);
          } else {
            cs := ExpenseCategories(uow.categories);
          }
      }
      uow.Exit(false);
    }

    method AddIncome(accountId: int, amount: int, categoryId: int, description: string := "", nameonly now: Timestamp)
      returns (r: Result<Transaction, LedgerError>)
      requires Valid()
      modifies uow, uow.accounts, uow.categories, uow.transactions
      ensures Valid()
      ensures (r, uow.Current()) == AddIncomeSpec(old(uow.Current()), accountId, amount, categoryId, description, now)
    {
      if amount <= 0 {
        return Failure(InvalidAmount);
      }
      ghost var s := uow.Current();
      uow.Enter();
      var account := uow.accounts.Get(accountId);
      assert account == FindAccount(s, accountId);
      if account.None? {
        uow.Exit(true);
        return Failure(AccountNotFound);
      }
      var cat := uow.categories.Get(categoryId);
      assert cat == FindCategory(s, categoryId);
      if cat.None? || !cat.value.isIncome {
        uow.Exit(true);
        return Failure(CategoryMismatch(true));
      }
      var tx := Transaction(txType := INCOME, accountId := accountId, amount := amount,
                            categoryId := Some(categoryId), description := description, occurredAt := now);
      var added := uow.transactions.Add(tx);
      assert (added.value, uow.Current()) == Record(s, tx);
      r := Success(added.value);
      uow.Exit(false);
    }

    method AddExpense(accountId: int, amount: int, categoryId: int, description: string := "", nameonly now: Timestamp)
      returns (r: Result<Transaction, LedgerError>)
      requires Valid()
      modifies uow, uow.accounts, uow.categories, uow.transactions
      ensures Valid()
      ensures (r, uow.Current()) == AddExpenseSpec(old(uow.Current()), accountId, amount, categoryId, description, now)
    {
      if amount <= 0 {
        return Failure(InvalidAmount);
      }
      ghost var s := uow.Current();
      uow.Enter();
      var account := uow.accounts.Get(accountId);
      assert account == FindAccount(s, accountId);
      if account.None? {
        uow.Exit(true);
        return Failure(AccountNotFound);
      }
      var cat := uow.categories.Get(categoryId);
      assert cat == FindCategory(s, categoryId);
      if cat.None? || cat.value.isIncome {
        uow.Exit(true);
        return Failure(CategoryMismatch(false));
      }
      var tx := Transaction(txType := EXPENSE, accountId := accountId, amount := -amount,
                            categoryId := Some(categoryId), description := description, occurredAt := now);
      var added := uow.transactions.Add(tx);
      assert (added.value, uow.Current()) == Record(s, tx);
      r := Success(added.value);
      uow.Exit(false);
    }

    method Transfer(fromId: int, toId: int, amount: int, description: string := "", nameonly now: Timestamp)
      returns (r: Result<(Transaction, Transaction), LedgerError>)
      requires Valid()
      modifies uow, uow.accounts, uow.categories, uow.transactions
      ensures Valid()
      ensures (r, uow.Current()) == TransferSpec(old(uow.Current()), fromId, toId, amount, description, now)
    {
      if amount <= 0 {
        return Failure(InvalidAmount);
      }
      if fromId == toId {
        return Failure(SameAccount);
      }
      ghost var s := uow.Current();
      uow.Enter();
      var source := uow.accounts.Get(fromId);
      var target := uow.accounts.Get(toId);
      assert source == FindAccount(s, fromId) && target == FindAccount(s, toId);
      if source.None? || target.None? {
        uow.Exit(true);
        return Failure(AccountNotFound);
      }
      var legs := PostTransfer(fromId, toId, amount, description, now);
      r := Success(legs);
      uow.Exit(false);
    }

    /** The two `add` calls of a validated transfer, inside the open session. */
    method PostTransfer(fromId: int, toId: int, amount: int, description: string, now: Timestamp)
      returns (legs: (Transaction, Transaction))
      requires uow.Valid() && uow.InSession()
      requires TransferSpec(uow.Current(), fromId, toId, amount, description, now).0.Success?
      modifies uow.transactions
      ensures uow.Valid() && uow.InSession()
      ensures (Success(legs), uow.Current()) == TransferSpec(old(uow.Current()), fromId, toId, amount, description, now)
    {
      ghost var s := uow.Current();
      var outTx := Transaction(txType := TRANSFER, accountId := fromId, toAccountId := Some(toId),
                               amount := -amount, description := description, occurredAt := now);
      var inTx := Transaction(txType := TRANSFER, accountId := toId, toAccountId := Some(fromId),
                              amount := amount, description := description, occurredAt := now);
      var outAdded := uow.transactions.Add(outTx);
      ghost var s1 := uow.Current();
      assert (outAdded.value, s1) == Record(s, outTx);
      var inAdded := uow.transactions.Add(inTx);
      assert (inAdded.value, uow.Current()) == Record(s1, inTx);
      legs := (outAdded.value, inAdded.value);
    }

    method AccountBalance(accountId: int) returns (balance: int)
      requires Valid()
      modifies uow, uow.accounts, uow.categories, uow.transactions
      ensures Valid() && uow.Current() == old(uow.Current())
      ensures balance == Balance(LedgerOf(uow.Current()), accountId)
    {
      uow.Enter();
      var txs := ByAccount(uow.transactions, accountId);
      balance := Total(txs);
      AccountBalanceIsSumOfRows(uow.Current(), accountId);
      uow.Exit(false);
    }

    method BalancesByAccount() returns (res: seq<(Account, int)>)
      requires Valid()
      modifies uow, uow.accounts, uow.categories, uow.transactions
      ensures Valid() && uow.Current() == old(uow.Current())
      ensures res == BalancesSpec(uow.Current())
    {
      uow.Enter();
      var accounts := uow.accounts.List(None);
      var s := uow.Current();
      var ledger := LedgerOf(s);
      res := [];
      for i := 0 to |accounts|
        invariant res == BalancesSpec(s)[..i]
      {
        var a := accounts[i];
        res := res + [(a, Balance(ledger, a.id.value))];
      }
      uow.Exit(false);
    }

    method ExpenseByCategory() returns (report: seq<(Category, int)>)
      requires Valid()
      modifies uow, uow.accounts, uow.categories, uow.transactions
      ensures Valid() && uow.Current() == old(uow.Current())
      ensures report == ExpenseReportSpec(uow.Current())
    {
      uow.Enter();
      var cats := ExpenseCategories(uow.categories);
      ghost var s := uow.Current();
      assert cats == ExpenseCategoriesOf(s);
      var result := ExpenseSums(uow.transactions, cats);
      report := seq(|result|, i requires 0 <= i < |result| => (result[i].0, Abs(result[i].1)));
      ExpenseReportFromTotals(s, result, report);
      uow.Exit(false);
    }

    method TransactionsForAccount(accountId: int) returns (txs: seq<Transaction>)
      requires Valid()
      modifies uow, uow.accounts, uow.categories, uow.transactions
      ensures Valid() && uow.Current() == old(uow.Current())
      ensures txs == Select(LedgerOf(uow.Current()), OnAccount(accountId))
    {
      uow.Enter();
      txs := ByAccount(uow.transactions, accountId);
      ByAccountIsLedgerSelect(uow.transactions.rows, accountId);
      uow.Exit(false);
    }
  }
}
