/** Field-for-field conversion between domain records and storage rows. */
module Mappers {
  import opened Common
  import E = Entities
  import M = Models

  function AccountToDomain(a: M.AccountRow): E.Account
  {
    E.Account(id := a.id, name := a.name, currency := a.currency, createdAt := a.createdAt)
  }

  function AccountFromDomain(a: E.Account): M.AccountRow
  {
    M.AccountRow(a.id, a.name, a.currency, a.createdAt)
  }

  function CategoryToDomain(c: M.CategoryRow): E.Category
  {
    E.Category(id := c.id, name := c.name, isIncome := c.isIncome)
  }

  function CategoryFromDomain(c: E.Category): M.CategoryRow
  {
    M.CategoryRow(c.id, c.name, c.isIncome)
  }

  /** `TxType(t.tx_type.value)`: the domain member with the same value. */
  function KindToDomain(k: M.OrmTxType): (r: E.TxType)
    ensures r.Value() == k.Value()
  {
    match E.TxTypeOf(k.Value())
    case Some(t) => t
    case None => assert false; E.EXPENSE
  }

  /** `OrmTxType(t.tx_type.value)`: the storage member with the same value. */
  function KindFromDomain(k: E.TxType): (r: M.OrmTxType)
    ensures r.Value() == k.Value()
  {
    match M.OrmTxTypeOf(k.Value())
    case Some(t) => t
    case None => assert false; M.EXPENSE
  }

  function TxToDomain(t: M.TransactionRow): E.Transaction
  {
    E.Transaction(
      id := t.id,
      txType := KindToDomain(t.txType),
      accountId := t.accountId,
      amount := t.amount,
      description := t.description,
      occurredAt := t.occurredAt,
      categoryId := t.categoryId,
      toAccountId := t.toAccountId)
  }

  function TxFromDomain(t: E.Transaction): M.TransactionRow
  {
    M.TransactionRow(
      id := t.id,
      txType := KindFromDomain(t.txType),
      accountId := t.accountId,
      toAccountId := t.toAccountId,
      amount := t.amount,
      description := t.description,
      occurredAt := t.occurredAt,
      categoryId := t.categoryId)
  }

  lemma AccountRoundTrip(a: E.Account, r: M.AccountRow)
    ensures AccountToDomain(AccountFromDomain(a)) == a
    ensures AccountFromDomain(AccountToDomain(r)) == r
  {
  }

  lemma CategoryRoundTrip(c: E.Category, r: M.CategoryRow)
    ensures CategoryToDomain(CategoryFromDomain(c)) == c
    ensures CategoryFromDomain(CategoryToDomain(r)) == r
  {
  }

  /** The kind conversion is a bijection between the two enums. */
  lemma KindRoundTrip(k: E.TxType, o: M.OrmTxType)
    ensures KindToDomain(KindFromDomain(k)) == k
    ensures KindFromDomain(KindToDomain(o)) == o
  {
    var back := KindToDomain(KindFromDomain(k));
    assert back.Value() == k.Value();
    assert E.TxTypeOf(k.Value()) == Some(back) && E.TxTypeOf(k.Value()) == Some(k);
    var fwd := KindFromDomain(KindToDomain(o));
    assert M.OrmTxTypeOf(o.Value()) == Some(fwd) && M.OrmTxTypeOf(o.Value()) == Some(o);
  }

  lemma TxRoundTrip(t: E.Transaction, r: M.TransactionRow)
    ensures TxToDomain(TxFromDomain(t)) == t
    ensures TxFromDomain(TxToDomain(r)) == r
  {
    KindRoundTrip(t.txType, r.txType);
  }
}
