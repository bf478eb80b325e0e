/** Storage rows: the columns of the three mapped tables, without the ORM machinery. */
module Models {
  import opened Common

  /** The storage layer's own copy of the movement kind. */
  datatype OrmTxType = INCOME | EXPENSE | TRANSFER {
    function Value(): string
    {
      match this
      case INCOME => "INCOME"
      case EXPENSE => "EXPENSE"
      case TRANSFER => "TRANSFER"
    }
  }

  /** `OrmTxType(v)`: the storage member whose value is `v`. */
  function OrmTxTypeOf(v: string): (r: Option<OrmTxType>)
    ensures forall t: OrmTxType :: r == Some(t) <==> t.Value() == v
  {
    if v == "INCOME" then Some(INCOME)
    else if v == "EXPENSE" then Some(EXPENSE)
    else if v == "TRANSFER" then Some(TRANSFER)
    else None
  }

  /** A row of `accounts`. `id` is `None` until the backend assigns the key. */
  datatype AccountRow = AccountRow(id: Option<int>, name: string, currency: string, createdAt: Timestamp)

  /** A row of `categories`. */
  datatype CategoryRow = CategoryRow(id: Option<int>, name: string, isIncome: bool)

  /** A row of `transactions`; `toAccountId` and `categoryId` are nullable columns. */
  datatype TransactionRow = TransactionRow(
    id: Option<int>,
    txType: OrmTxType,
    accountId: int,
    toAccountId: Option<int>,
    amount: int,
    description: string,
    occurredAt: Timestamp,
    categoryId: Option<int>)

  /** One `column=value` argument of `update(**fields)` on each table (the key is not among them). */
  datatype AccountColumn = AccountName(string) | AccountCurrency(string) | AccountCreatedAt(Timestamp)

  datatype CategoryColumn = CategoryName(string) | CategoryIsIncome(bool)

  datatype TransactionColumn =
    | TxTypeColumn(OrmTxType)
    | AccountIdColumn(int)
    | ToAccountIdColumn(Option<int>)
    | AmountColumn(int)
    | DescriptionColumn(string)
    | OccurredAtColumn(Timestamp)
    | CategoryIdColumn(Option<int>)

  /** `setattr(row, column, value)` for one column. */
  function SetAccountColumn(r: AccountRow, c: AccountColumn): AccountRow
  {
    match c
    case AccountName(v) => r.(name := v)
    case AccountCurrency(v) => r.(currency := v)
    case AccountCreatedAt(v) => r.(createdAt := v)
  }

  function SetCategoryColumn(r: CategoryRow, c: CategoryColumn): CategoryRow
  {
    match c
    case CategoryName(v) => r.(name := v)
    case CategoryIsIncome(v) => r.(isIncome := v)
  }

  function SetTransactionColumn(r: TransactionRow, c: TransactionColumn): TransactionRow
  {
    match c
    case TxTypeColumn(v) => r.(txType := v)
    case AccountIdColumn(v) => r.(accountId := v)
    case ToAccountIdColumn(v) => r.(toAccountId := v)
    case AmountColumn(v) => r.(amount := v)
    case DescriptionColumn(v) => r.(description := v)
    case OccurredAtColumn(v) => r.(occurredAt := v)
    case CategoryIdColumn(v) => r.(categoryId := v)
  }
}
