/** Domain records of the ledger: plain data with the defaults the dataclasses declare. */
module Entities {
  import opened Common

  /** Kind of a ledger movement. The enum derives from `str`: each member's value is its name. */
  datatype TxType = INCOME | EXPENSE | TRANSFER {
    function Value(): string
    {
      match this
      case INCOME => "INCOME"
      case EXPENSE => "EXPENSE"
      case TRANSFER => "TRANSFER"
    }
  }

  /** `TxType(v)`: the member whose value is `v`; the enum has none for any other string. */
  function TxTypeOf(v: string): (r: Option<TxType>)
    ensures forall t: TxType :: r == Some(t) <==> t.Value() == v
  {
    if v == "INCOME" then Some(INCOME)
    else if v == "EXPENSE" then Some(EXPENSE)
    else if v == "TRANSFER" then Some(TRANSFER)
    else None
  }

  /** The enum has exactly three members, each with its own name as value. */
  lemma TxTypeMembers(t: TxType)
    ensures t == INCOME || t == EXPENSE || t == TRANSFER
    ensures t == INCOME ==> t.Value() == "INCOME"
    ensures t == EXPENSE ==> t.Value() == "EXPENSE"
    ensures t == TRANSFER ==> t.Value() == "TRANSFER"
    ensures TxTypeOf(t.Value()) == Some(t)
  {
  }

  /** An account; `createdAt` is filled from the clock when the record is built. */
  datatype Account = Account(
    id: Option<int> := None,
    name: string := "",
    currency: string := "UAH",
    createdAt: Timestamp)

  /** A category is either an income category or (by default) an expense category. */
  datatype Category = Category(
    id: Option<int> := None,
    name: string := "",
    isIncome: bool := false)

  /** One ledger movement. `categoryId` is set for income and expense,
      `toAccountId` names the counterpart account of a transfer leg. */
  datatype Transaction = Transaction(
    id: Option<int> := None,
    txType: TxType := EXPENSE,
    accountId: int := 0,
    amount: int := 0,
    description: string := "",
    occurredAt: Timestamp,
    categoryId: Option<int> := None,
    toAccountId: Option<int> := None)

  lemma AccountDefaults(now: Timestamp)
    ensures var a := Account(createdAt := now);
      a.id == None && a.name == "" && a.currency == "UAH" && a.createdAt == now
  {
  }

  lemma CategoryDefaults()
    ensures var c := Category();
      c.id == None && c.name == "" && !c.isIncome
  {
  }

  lemma TransactionDefaults(now: Timestamp)
    ensures var t := Transaction(occurredAt := now);
      && t.id == None && t.txType == EXPENSE && t.accountId == 0 && t.amount == 0
      && t.description == "" && t.occurredAt == now
      && t.categoryId == None && t.toAccountId == None
  {
  }
}
