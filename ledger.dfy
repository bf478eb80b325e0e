/** Ledger arithmetic over domain transactions: sums, balances and the shape
    every ledger built by the service has (single postings and transfer pairs). */
module Ledger {
  import opened Common
  import opened Seqs
  import opened Entities
  import opened Movements

  /** `sum(t.amount for t in txs)`. */
  function Total(txs: seq<Transaction>): int
    decreases |txs|
  {
    if txs == [] then 0 else Total(txs[..|txs| - 1]) + txs[|txs| - 1].amount
  }

  lemma {:induction false} TotalConcat(txs: seq<Transaction>, more: seq<Transaction>)
    ensures Total(txs + more) == Total(txs) + Total(more)
    decreases |more|
  {
    if more == [] {
      assert txs + more == txs;
    } else {
      var init := more[..|more| - 1];
      assert (txs + more)[..|txs + more| - 1] == txs + init;
      assert (txs + more)[|txs + more| - 1] == more[|more| - 1];
      TotalConcat(txs, init);
    }
  }


  lemma BalanceAppend(txs: seq<Transaction>, t: Transaction, id: int)
    ensures Balance(txs + [t], id) == Balance(txs, id) + (if t.accountId == id then t.amount else 0)
  {
    assert (txs + [t])[..|txs|] == txs;
  }



  predicate IsExpense(t: Transaction)
  {
    t.txType == EXPENSE
  }

  /** Summing the rows `by_account` selects gives the balance. */
  lemma {:induction false} BalanceIsTotalOfAccountRows(txs: seq<Transaction>, id: int)
    ensures Balance(txs, id) == Total(Select(txs, OnAccount(id)))
    decreases |txs|
  {
    if txs != [] {
      var init, t := txs[..|txs| - 1], txs[|txs| - 1];
      assert txs == init + [t];
      BalanceIsTotalOfAccountRows(init, id);
      SelectAppend(init, t, OnAccount(id));
      if t.accountId == id {
        TotalConcat(Select(init, OnAccount(id)), [t]);
      }
    }
  }

  /** An account with no rows has balance 0. */
  lemma {:induction false} BalanceWithoutRows(txs: seq<Transaction>, id: int)
    requires forall t :: t in txs ==> t.accountId != id
    ensures Balance(txs, id) == 0
    decreases |txs|
  {
    if txs != [] {
      BalanceWithoutRows(txs[..|txs| - 1], id);
    }
  }

  /** Total of the EXPENSE rows of category `cid` (the reference definition). */
  function ExpenseTotal(txs: seq<Transaction>, cid: Option<int>): int
    decreases |txs|
  {
    if txs == [] then 0
    else
      var t := txs[|txs| - 1];
      ExpenseTotal(txs[..|txs| - 1], cid) + (if t.categoryId == cid && IsExpense(t) then t.amount else 0)
  }

  function ExpenseOfCategory(cid: Option<int>): Transaction -> bool
  {
    (t: Transaction) => t.categoryId == cid && IsExpense(t)
  }

  /** Summing the EXPENSE rows among those `by_category` selects gives the category's expense total. */
  lemma {:induction false} ExpenseTotalIsTotalOfCategoryRows(txs: seq<Transaction>, cid: Option<int>)
    ensures ExpenseTotal(txs, cid) == Total(Select(Select(txs, InCategory(cid)), IsExpense))
    decreases |txs|
  {
    SelectSelect(txs, InCategory(cid), IsExpense, ExpenseOfCategory(cid));
    ExpenseTotalIsTotalOfSelected(txs, cid);
  }

  lemma {:induction false} ExpenseTotalIsTotalOfSelected(txs: seq<Transaction>, cid: Option<int>)
    ensures ExpenseTotal(txs, cid) == Total(Select(txs, ExpenseOfCategory(cid)))
    decreases |txs|
  {
    if txs != [] {
      var init, t := txs[..|txs| - 1], txs[|txs| - 1];
      assert txs == init + [t];
      ExpenseTotalIsTotalOfSelected(init, cid);
      SelectAppend(init, t, ExpenseOfCategory(cid));
      assert ExpenseOfCategory(cid)(t) == (t.categoryId == cid && IsExpense(t));
      if ExpenseOfCategory(cid)(t) {
        TotalConcat(Select(init, ExpenseOfCategory(cid)), [t]);
        assert ExpenseTotal(txs, cid) == ExpenseTotal(init, cid) + t.amount;
      } else {
        assert ExpenseTotal(txs, cid) == ExpenseTotal(init, cid);
      }
    }
  }

  /** When every expense row is negative, a category's expense total is not positive. */
  lemma {:induction false} ExpenseTotalNotPositive(txs: seq<Transaction>, cid: Option<int>)
    requires forall t :: t in txs && IsExpense(t) ==> t.amount < 0
    ensures ExpenseTotal(txs, cid) <= 0
    decreases |txs|
  {
    if txs != [] {
      ExpenseTotalNotPositive(txs[..|txs| - 1], cid);
    }
  }


  /** Sum of the balances of the accounts `ids`. */
  function SumBalances(ids: seq<int>, txs: seq<Transaction>): int
    decreases |ids|
  {
    if ids == [] then 0 else SumBalances(ids[..|ids| - 1], txs) + Balance(txs, ids[|ids| - 1])
  }

  /** One more row moves the sum of the balances of distinct accounts by its
      amount when its account is among them, and not at all otherwise. */
  lemma {:induction false} SumBalancesAppend(ids: seq<int>, txs: seq<Transaction>, t: Transaction)
    requires Distinct(ids)
    ensures SumBalances(ids, txs + [t]) == SumBalances(ids, txs) + (if t.accountId in ids then t.amount else 0)
    decreases |ids|
  {
    if ids != [] {
      var init, last := ids[..|ids| - 1], ids[|ids| - 1];
      assert ids == init + [last];
      SumBalancesAppend(init, txs, t);
      BalanceAppend(txs, t, last);
      assert t.accountId in ids <==> t.accountId in init || t.accountId == last;
      assert last !in init;
    }
  }

  /** The balances of a list of distinct accounts that covers every row add up
      to the total of the ledger. */
  lemma {:induction false} SumBalancesIsTotal(ids: seq<int>, txs: seq<Transaction>)
    requires Distinct(ids)
    requires forall t :: t in txs ==> t.accountId in ids
    ensures SumBalances(ids, txs) == Total(txs)
    decreases |txs|
  {
    if txs == [] {
      SumBalancesOfEmpty(ids);
    } else {
      var init, t := txs[..|txs| - 1], txs[|txs| - 1];
      assert txs == init + [t];
      SumBalancesIsTotal(ids, init);
      SumBalancesAppend(ids, init, t);
    }
  }

  lemma {:induction false} SumBalancesOfEmpty(ids: seq<int>)
    ensures SumBalances(ids, []) == 0
    decreases |ids|
  {
    if ids != [] {
      SumBalancesOfEmpty(ids[..|ids| - 1]);
    }
  }

  /** An income or expense row as the service records it. */
  predicate IsPosting(t: Transaction)
  {
    && ((t.txType == INCOME && t.amount > 0) || (t.txType == EXPENSE && t.amount < 0))
    && t.categoryId.Some?
    && t.toAccountId.None?
  }

  /** The two legs of one transfer, out leg first: opposite amounts on two
      distinct accounts, each naming the other as counterpart. */
  predicate IsTransferPair(out: Transaction, into: Transaction)
  {
    && out.txType == TRANSFER && into.txType == TRANSFER
    && into.amount > 0 && out.amount == -into.amount
    && out.accountId != into.accountId
    && out.toAccountId == Some(into.accountId)
    && into.toAccountId == Some(out.accountId)
    && out.categoryId.None? && into.categoryId.None?
    && out.description == into.description
  }

  /** A ledger built only by the service: a sequence of single postings and
      adjacent transfer pairs. */
  predicate Posted(txs: seq<Transaction>)
    decreases |txs|
  {
    || txs == []
    || (IsPosting(txs[|txs| - 1]) && Posted(txs[..|txs| - 1]))
    || (|txs| >= 2 && IsTransferPair(txs[|txs| - 2], txs[|txs| - 1]) && Posted(txs[..|txs| - 2]))
  }

  lemma PostedAppendPosting(txs: seq<Transaction>, t: Transaction)
    requires Posted(txs) && IsPosting(t)
    ensures Posted(txs + [t])
  {
    assert (txs + [t])[..|txs|] == txs;
  }

  lemma PostedAppendTransfer(txs: seq<Transaction>, out: Transaction, into: Transaction)
    requires Posted(txs) && IsTransferPair(out, into)
    ensures Posted(txs + [out, into])
  {
    assert (txs + [out, into])[..|txs|] == txs;
  }

  /** Sign convention of a posted ledger: income positive, expense negative,
      transfer legs without category and with a counterpart. */
  lemma {:induction false} PostedSigns(txs: seq<Transaction>)
    requires Posted(txs)
    ensures forall t :: t in txs ==>
      && (t.txType == INCOME ==> t.amount > 0 && t.categoryId.Some?)
      && (t.txType == EXPENSE ==> t.amount < 0 && t.categoryId.Some?)
      && (t.txType == TRANSFER ==> t.categoryId.None? && t.toAccountId.Some?)
    decreases |txs|
  {
    if txs != [] {
      if IsPosting(txs[|txs| - 1]) && Posted(txs[..|txs| - 1]) {
        PostedSigns(txs[..|txs| - 1]);
        assert txs == txs[..|txs| - 1] + [txs[|txs| - 1]];
      } else {
        PostedSigns(txs[..|txs| - 2]);
        assert txs == txs[..|txs| - 2] + [txs[|txs| - 2], txs[|txs| - 1]];
      }
    }
  }

  predicate IsMovement(t: Transaction)
  {
    t.txType != TRANSFER
  }

  /** Transfers cancel out: the total of a posted ledger is the total of its
      income and expense rows alone. */
  lemma {:induction false} TransfersCancel(txs: seq<Transaction>)
    requires Posted(txs)
    ensures Total(txs) == Total(Select(txs, IsMovement))
    decreases |txs|
  {
    if txs != [] {
      if IsPosting(txs[|txs| - 1]) && Posted(txs[..|txs| - 1]) {
        var init, t := txs[..|txs| - 1], txs[|txs| - 1];
        assert txs == init + [t];
        TransfersCancel(init);
        SelectAppend(init, t, IsMovement);
        TotalConcat(Select(init, IsMovement), [t]);
      } else {
        var init, out, into := txs[..|txs| - 2], txs[|txs| - 2], txs[|txs| - 1];
        assert txs == init + [out, into];
        assert txs == (init + [out]) + [into];
        TransfersCancel(init);
        SelectAppend(init, out, IsMovement);
        SelectAppend(init + [out], into, IsMovement);
        TotalConcat(init, [out, into]);
      }
    }
  }
}
