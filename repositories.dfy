/** The data-access layer: a generic repository over one table, the
    per-entity queries, and the unit of work that scopes a session. */
module Repositories {
  import opened Common
  import opened Seqs
  import opened Tables
  import opened Entities
  import M = Models
  import opened Mappers
  import opened Movements

  /** The three mapped classes: the key column is `id`, and the backend fills it at flush. */
  const AccountOrm: OrmClass<M.AccountRow, M.AccountColumn> :=
    OrmClass((r: M.AccountRow) => r.id, (r: M.AccountRow, k: int) => r.(id := Some(k)), M.SetAccountColumn)

  const CategoryOrm: OrmClass<M.CategoryRow, M.CategoryColumn> :=
    OrmClass((r: M.CategoryRow) => r.id, (r: M.CategoryRow, k: int) => r.(id := Some(k)), M.SetCategoryColumn)

  const TransactionOrm: OrmClass<M.TransactionRow, M.TransactionColumn> :=
    OrmClass((r: M.TransactionRow) => r.id, (r: M.TransactionRow, k: int) => r.(id := Some(k)), M.SetTransactionColumn)

  lemma OrmClassesLawful()
    ensures Lawful(AccountOrm) && Lawful(CategoryOrm) && Lawful(TransactionOrm)
  {
  }

  /** The rows a `list(where)` call returns: all of them when there is no filter. */
  function Matching<R(!new)>(rows: seq<R>, where: Option<R -> bool>): seq<R>
  {
    match where
    case None => rows
    case Some(p) => Select(rows, p)
  }

  /** CRUD access to one table. `orm` stands for the mapped class, `toDomain`
      and `fromDomain` for the mapper pair the repository is built with. */
  class Repository<D, R(!new), F(!new)> {
    const orm: OrmClass<R, F>
    const toDomain: R -> D
    const fromDomain: D -> R
    var rows: seq<R>
    var nextId: nat

    function State(): Table<R>
      reads this
    {
      Table(rows, nextId)
    }

    ghost predicate Valid()
      reads this
    {
      Lawful(orm) && WellKeyed(orm.key, State())
    }

    /** A repository over the table `t` as the session finds it. */
    constructor (orm: OrmClass<R, F>, toDomain: R -> D, fromDomain: D -> R, t: Table<R>)
      requires Lawful(orm) && WellKeyed(orm.key, t)
      ensures Valid() && State() == t
      ensures this.orm == orm && this.toDomain == toDomain && this.fromDomain == fromDomain
    {
      this.orm := orm;
      this.toDomain := toDomain;
      this.fromDomain := fromDomain;
      rows, nextId := t.rows, t.nextId;
    }

    /** Stores `entity` and returns it as stored, with its key. */
    method Add(entity: D) returns (r: Result<D, StorageError>)
      requires Valid()
      modifies this
      ensures Valid()
      ensures match Insert(orm, old(State()), fromDomain(entity))
        case Success((t, stored)) => State() == t && r == Success(toDomain(stored))
        case Failure(e) => State() == old(State()) && r == Failure(e)
    {
      InsertSpec(orm, State(), fromDomain(entity));
      var row := fromDomain(entity);
      match orm.key(row)
      case None =>
        row := orm.withKey(row, nextId);
        rows, nextId := rows + [row], nextId + 1;
        r := Success(toDomain(row));
      case Some(k) =>
        if Lookup(orm.key, rows, k).Some? {
          r := Failure(DuplicateKey(k));
        } else {
          rows := rows + [row];
          if k + 1 > nextId {
            nextId := k + 1;
          }
          r := Success(toDomain(row));
        }
    }

    /** The row with key `id`, mapped; `None` when there is none. */
    method Get(id: int) returns (r: Option<D>)
      ensures r == Lookup(orm.key, rows, id).Map(toDomain)
      ensures r.None? <==> forall i :: 0 <= i < |rows| ==> orm.key(rows[i]) != Some(id)
      ensures r.Some? ==> exists i :: 0 <= i < |rows| && orm.key(rows[i]) == Some(id) && r.value == toDomain(rows[i])
    {
      var row := Lookup(orm.key, rows, id);
      r := row.Map(toDomain);
    }

    /** Every row, or exactly the rows the filter admits, in table order, mapped. */
    method List(where: Option<R -> bool>) returns (xs: seq<D>)
      ensures xs == Project(toDomain, Matching(rows, where))
      ensures where.None? ==> |xs| == |rows|
      ensures forall x :: x in rows && (where.None? || where.value(x)) ==> toDomain(x) in xs
      ensures forall y :: y in xs ==> exists x :: x in rows && (where.None? || where.value(x)) && y == toDomain(x)
    {
      var matching := Matching(rows, where);
      xs := Project(toDomain, matching);
      forall x | x in rows && (where.None? || where.value(x))
        ensures toDomain(x) in xs
      {
        var i :| 0 <= i < |matching| && matching[i] == x;
        assert xs[i] == toDomain(x);
      }
      forall y | y in xs
        ensures exists x :: x in rows && (where.None? || where.value(x)) && y == toDomain(x)
      {
        var i :| 0 <= i < |xs| && xs[i] == y;
        var x := matching[i];
        assert x in matching;
        assert x in rows && (where.None? || where.value(x)) && y == toDomain(x);
      }
    }

    /** `setattr` of each named column, in order, on the row with key `id`;
        `None` and no change when there is no such row. */
    method Update(id: int, columns: seq<F>) returns (r: Option<D>)
      requires Valid()
      modifies this
      ensures Valid() && nextId == old(nextId)
      ensures IndexOf(orm.key, old(rows), id).None? ==> r.None? && rows == old(rows)
      ensures IndexOf(orm.key, old(rows), id).Some? ==>
        var i := IndexOf(orm.key, old(rows), id).value;
        && rows == old(rows)[i := AssignAll(orm.assign, old(rows)[i], columns)]
        && r == Some(toDomain(rows[i]))
    {
      var found := IndexOf(orm.key, rows, id);
      if found.None? {
        return None;
      }
      var i := found.value;
      var row := rows[i];
      var k := 0;
      while k < |columns|
        invariant 0 <= k <= |columns|
        invariant row == AssignAll(orm.assign, rows[i], columns[..k])
      {
        assert columns[..k + 1][..k] == columns[..k];
        row := orm.assign(row, columns[k]);
        k := k + 1;
      }
      assert columns[..k] == columns;
      AssignAllKeepsKey(orm, rows[i], columns);
      rows := rows[i := row];
      r := Some(toDomain(row));
    }

    /** Removes the row with key `id`; `false` and no change when there is none. */
    method Delete(id: int) returns (deleted: bool)
      requires Valid()
      modifies this
      ensures Valid() && nextId == old(nextId)
      ensures deleted == IndexOf(orm.key, old(rows), id).Some?
      ensures !deleted ==> rows == old(rows)
      ensures deleted ==>
        var i := IndexOf(orm.key, old(rows), id).value;
        rows == old(rows)[..i] + old(rows)[i + 1..]
      ensures forall x :: x in rows <==> x in old(rows) && orm.key(x) != Some(id)
    {
      var found := IndexOf(orm.key, rows, id);
      if found.None? {
        return false;
      }
      var i := found.value;
      ghost var before := rows;
      rows := rows[..i] + rows[i + 1..];
      deleted := true;
      forall x
        ensures x in rows <==> x in before && orm.key(x) != Some(id)
      {
        if x in before && orm.key(x) != Some(id) {
          var j :| 0 <= j < |before| && before[j] == x;
          assert j != i;
          if j < i {
            assert rows[j] == x;
          } else {
            assert rows[j - 1] == x;
          }
        }
      }
    }

    /** What a session rollback does to this table: it is put back as `t`. */
    method Restore(t: Table<R>)
      requires Lawful(orm) && WellKeyed(orm.key, t)
      modifies this
      ensures Valid() && State() == t
    {
      rows, nextId := t.rows, t.nextId;
    }
  }

  type AccountsRepository = Repository<Account, M.AccountRow, M.AccountColumn>
  type CategoriesRepository = Repository<Category, M.CategoryRow, M.CategoryColumn>
  type TransactionsRepository = Repository<Transaction, M.TransactionRow, M.TransactionColumn>

  /** The filters of `income_categories` and `expense_categories`. */
  predicate IsIncomeRow(r: M.CategoryRow)
  {
    r.isIncome
  }

  predicate IsExpenseRow(r: M.CategoryRow)
  {
    !r.isIncome
  }

  method IncomeCategories(repo: CategoriesRepository) returns (cs: seq<Category>)
    ensures cs == Project(repo.toDomain, Select(repo.rows, IsIncomeRow))
  {
    cs := repo.List(Some(IsIncomeRow));
  }

  method ExpenseCategories(repo: CategoriesRepository) returns (cs: seq<Category>)
    ensures cs == Project(repo.toDomain, Select(repo.rows, IsExpenseRow))
  {
    cs := repo.List(Some(IsExpenseRow));
  }

  /** Income and expense categories split the table: every row is in exactly one of the two lists. */
  lemma CategoriesPartition(rows: seq<M.CategoryRow>)
    ensures multiset(Select(rows, IsIncomeRow)) + multiset(Select(rows, IsExpenseRow)) == multiset(rows)
    ensures forall r :: r in Select(rows, IsIncomeRow) ==> r !in Select(rows, IsExpenseRow)
  {
    SelectPartition(rows, IsIncomeRow);
    SelectCongruent(rows, Not(IsIncomeRow), IsExpenseRow);
  }

  /** The filters of `by_account` and `by_category` on stored rows. */
  function RowOnAccount(id: int): M.TransactionRow -> bool
  {
    (r: M.TransactionRow) => r.accountId == id
  }

  function RowInCategory(id: Option<int>): M.TransactionRow -> bool
  {
    (r: M.TransactionRow) => r.categoryId == id
  }

  method ByAccount(repo: TransactionsRepository, accountId: int) returns (txs: seq<Transaction>)
    ensures txs == Project(repo.toDomain, Select(repo.rows, RowOnAccount(accountId)))
  {
    txs := repo.List(Some(RowOnAccount(accountId)));
  }

  method ByCategory(repo: TransactionsRepository, categoryId: Option<int>) returns (txs: seq<Transaction>)
    ensures txs == Project(repo.toDomain, Select(repo.rows, RowInCategory(categoryId)))
  {
    txs := repo.List(Some(RowInCategory(categoryId)));
  }

  /** Mapping the rows of one account gives the domain rows of that account. */
  lemma ByAccountIsLedgerSelect(rows: seq<M.TransactionRow>, id: int)
    ensures Project(TxToDomain, Select(rows, RowOnAccount(id))) == Select(Project(TxToDomain, rows), OnAccount(id))
  {
    ProjectSelect(TxToDomain, rows, RowOnAccount(id), OnAccount(id));
  }

  lemma ByCategoryIsLedgerSelect(rows: seq<M.TransactionRow>, id: Option<int>)
    ensures Project(TxToDomain, Select(rows, RowInCategory(id))) == Select(Project(TxToDomain, rows), InCategory(id))
  {
    ProjectSelect(TxToDomain, rows, RowInCategory(id), InCategory(id));
  }

  /** The account ids of `rows`, each once, in order of first appearance. */
  function AccountIds(rows: seq<M.TransactionRow>): (ids: seq<int>)
    ensures Distinct(ids)
    ensures forall id :: id in ids <==> exists r :: r in rows && r.accountId == id
    decreases |rows|
  {
    if rows == [] then []
    else
      var init, last := rows[..|rows| - 1], rows[|rows| - 1];
      assert forall r :: r in rows <==> r in init || r == last;
      var ids := AccountIds(init);
      if last.accountId in ids then ids else ids + [last.accountId]
  }

  /** `SELECT account_id, SUM(amount) ... GROUP BY account_id`: one pair per
      account that has rows, carrying that account's balance. */
  method TotalsByAccount(repo: TransactionsRepository) returns (totals: seq<(int, int)>)
    ensures Distinct(seq(|totals|, i requires 0 <= i < |totals| => totals[i].0))
    ensures forall r :: r in repo.rows ==> exists i :: 0 <= i < |totals| && totals[i].0 == r.accountId
    ensures forall i :: 0 <= i < |totals| ==>
      && (exists r :: r in repo.rows && r.accountId == totals[i].0)
      && totals[i].1 == Balance(Project(TxToDomain, repo.rows), totals[i].0)
  {
    var rows := repo.rows;
    var ids := AccountIds(rows);
    var ledger := Project(TxToDomain, rows);
    totals := seq(|ids|, i requires 0 <= i < |ids| => (ids[i], Balance(ledger, ids[i])));
    assert seq(|totals|, i requires 0 <= i < |totals| => totals[i].0) == ids;
    forall r | r in rows
      ensures exists i :: 0 <= i < |totals| && totals[i].0 == r.accountId
    {
      assert r.accountId in ids;
      var i :| 0 <= i < |ids| && ids[i] == r.accountId;
      assert totals[i].0 == r.accountId;
    }
    forall i | 0 <= i < |totals|
      ensures exists r :: r in rows && r.accountId == totals[i].0
      ensures totals[i].1 == Balance(ledger, totals[i].0)
    {
      assert ids[i] in ids;
      var r :| r in rows && r.accountId == ids[i];
      assert totals[i] == (ids[i], Balance(ledger, ids[i]));
    }
  }

  /** The three tables as one value. */
  datatype Store = Store(
    accounts: Table<M.AccountRow>,
    categories: Table<M.CategoryRow>,
    transactions: Table<M.TransactionRow>)

  ghost predicate StoreWellKeyed(s: Store)
  {
    && WellKeyed(AccountOrm.key, s.accounts)
    && WellKeyed(CategoryOrm.key, s.categories)
    && WellKeyed(TransactionOrm.key, s.transactions)
  }

  /** A session scope: the three repositories and, while a session is open,
      the store as it stood when the session began or last committed. */
  class UnitOfWork {
    const accounts: AccountsRepository
    const categories: CategoriesRepository
    const transactions: TransactionsRepository
    var snapshot: Option<Store>

    ghost predicate Valid()
      reads this, accounts, categories, transactions
    {
      && accounts.Valid() && categories.Valid() && transactions.Valid()
      && accounts.orm == AccountOrm && accounts.toDomain == AccountToDomain && accounts.fromDomain == AccountFromDomain
      && categories.orm == CategoryOrm && categories.toDomain == CategoryToDomain && categories.fromDomain == CategoryFromDomain
      && transactions.orm == TransactionOrm && transactions.toDomain == TxToDomain && transactions.fromDomain == TxFromDomain
      && (snapshot.Some? ==> StoreWellKeyed(snapshot.value))
    }

    function Current(): Store
      reads this, accounts, categories, transactions
    {
      Store(accounts.State(), categories.State(), transactions.State())
    }

    predicate InSession()
      reads this
    {
      snapshot.Some?
    }

    /** A unit of work over the database `db`; no session is open yet. */
    constructor (db: Store)
      requires StoreWellKeyed(db)
      ensures Valid() && Current() == db && !InSession()
      ensures fresh(accounts) && fresh(categories) && fresh(transactions)
    {
      OrmClassesLawful();
      accounts := new Repository(AccountOrm, AccountToDomain, AccountFromDomain, db.accounts);
      categories := new Repository(CategoryOrm, CategoryToDomain, CategoryFromDomain, db.categories);
      transactions := new Repository(TransactionOrm, TxToDomain, TxFromDomain, db.transactions);
      snapshot := None;
    }

    /** `__enter__`: opens a session, which remembers the store as it is now. */
    method Enter()
      requires Valid()
      modifies this
      ensures Valid() && Current() == old(Current())
      ensures snapshot == Some(Current())
    {
      snapshot := Some(Current());
    }

    /** Makes the session's changes permanent: the session now starts from here. */
    method Commit()
      requires Valid() && InSession()
      modifies this
      ensures Valid() && Current() == old(Current())
      ensures snapshot == Some(Current())
    {
      snapshot := Some(Current());
    }

    /** Discards the session's changes: the store goes back to where the session started. */
    method Rollback()
      requires Valid() && InSession()
      modifies this, accounts, categories, transactions
      ensures Valid() && snapshot == old(snapshot)
      ensures Current() == old(snapshot.value)
    {
      var s := snapshot.value;
      accounts.Restore(s.accounts);
      categories.Restore(s.categories);
      transactions.Restore(s.transactions);
    }

    /** `__exit__`: commit when the body raised nothing, roll back otherwise, then close the session. */
    method Exit(raised: bool)
      requires Valid() && InSession()
      modifies this, accounts, categories, transactions
      ensures Valid() && !InSession()
      ensures raised ==> Current() == old(snapshot.value)
      ensures !raised ==> Current() == old(Current())
    {
      if raised {
        Rollback();
      } else {
        Commit();
      }
      snapshot := None;
    }
  }
}
