/** What a transaction query selects and what an account's rows add up to:
    the definitions shared by the data-access layer and the ledger arithmetic. */
module Movements {
  import opened Common
  import opened Entities

  /** Balance of account `id`: the amounts of the rows on that account,
      accumulated row by row (the reference definition). */
  function Balance(txs: seq<Transaction>, id: int): int
    decreases |txs|
  {
    if txs == [] then 0
    else
      var t := txs[|txs| - 1];
      Balance(txs[..|txs| - 1], id) + (if t.accountId == id then t.amount else 0)
  }

  /** The filter of `by_account`. */
  function OnAccount(id: int): Transaction -> bool
  {
    (t: Transaction) => t.accountId == id
  }

  /** The filter of `by_category`; comparing with `None` is SQL's `IS NULL`. */
  function InCategory(id: Option<int>): Transaction -> bool
  {
    (t: Transaction) => t.categoryId == id
  }

  /** No key occurs twice. */
  predicate Distinct(ids: seq<int>)
  {
    forall i, j :: 0 <= i < j < |ids| ==> ids[i] != ids[j]
  }
}
