/** One storage table as a value: its rows in insertion order and the next
    key the backend's auto-increment counter will hand out. */
module Tables {
  import opened Common

  /** What a repository learns from a mapped class: the primary key of a row,
      the row with a key assigned by the backend, and `setattr` of one column. */
  datatype OrmClass<!R, !F> = OrmClass(key: R -> Option<int>, withKey: (R, int) -> R, assign: (R, F) -> R)

  /** Assigning a key sets it, and no column assignment touches the key. */
  ghost predicate Lawful<R(!new), F(!new)>(orm: OrmClass<R, F>)
  {
    && (forall r, k :: orm.key(orm.withKey(r, k)) == Some(k))
    && (forall r, c :: orm.key(orm.assign(r, c)) == orm.key(r))
  }

  datatype Table<R> = Table(rows: seq<R>, nextId: nat)

  /** A fresh table: no rows, and SQLite's first key is 1. */
  function EmptyTable<R>(): Table<R>
  {
    Table([], 1)
  }

  /** Every stored row has a key below the counter, and no two rows share a key. */
  ghost predicate WellKeyed<R>(key: R -> Option<int>, t: Table<R>)
  {
    && (forall i :: 0 <= i < |t.rows| ==> key(t.rows[i]).Some? && key(t.rows[i]).value < t.nextId)
    && (forall i, j :: 0 <= i < j < |t.rows| ==> key(t.rows[i]) != key(t.rows[j]))
  }

  /** Position of the row whose primary key is `id`, if any. */
  function IndexOf<R>(key: R -> Option<int>, rows: seq<R>, id: int): (r: Option<nat>)
    ensures r.Some? ==> r.value < |rows| && key(rows[r.value]) == Some(id)
    ensures r.None? <==> forall i :: 0 <= i < |rows| ==> key(rows[i]) != Some(id)
    decreases |rows|
  {
    if rows == [] then None
    else if key(rows[|rows| - 1]) == Some(id) then Some(|rows| - 1)
    else IndexOf(key, rows[..|rows| - 1], id)
  }

  /** `session.get(cls, id)`: the row with primary key `id`, or `None`. */
  function Lookup<R>(key: R -> Option<int>, rows: seq<R>, id: int): Option<R>
  {
    match IndexOf(key, rows, id)
    case Some(i) => Some(rows[i])
    case None => None
  }

  /** In a well-keyed table the row with a given key is the only one: it is found wherever it sits. */
  lemma {:induction false} LookupUnique<R>(key: R -> Option<int>, t: Table<R>, i: nat)
    requires WellKeyed(key, t) && i < |t.rows|
    ensures Lookup(key, t.rows, key(t.rows[i]).value) == Some(t.rows[i])
  {
    var id := key(t.rows[i]).value;
    var j := IndexOf(key, t.rows, id).value;
    assert i == j;
  }

  /** Appending a row whose key differs from `id` does not change what `id` finds. */
  lemma LookupAppend<R>(key: R -> Option<int>, rows: seq<R>, x: R, id: int)
    requires key(x) != Some(id)
    ensures Lookup(key, rows + [x], id) == Lookup(key, rows, id)
  {
    assert (rows + [x])[..|rows|] == rows;
  }

  datatype StorageError = DuplicateKey(id: int)

  /** `session.add(row); session.flush()`: a row without a key gets the counter's
      next value; a row that brings its own key is stored as it is, unless that
      key is taken, which the backend refuses. */
  function Insert<R, F>(orm: OrmClass<R, F>, t: Table<R>, row: R): Result<(Table<R>, R), StorageError>
  {
    match orm.key(row)
    case None =>
      var stored := orm.withKey(row, t.nextId);
      Success((Table(t.rows + [stored], t.nextId + 1), stored))
    case Some(k) =>
      if Lookup(orm.key, t.rows, k).Some? then Failure(DuplicateKey(k))
      else Success((Table(t.rows + [row], if k + 1 > t.nextId then k + 1 else t.nextId), row))
  }

  /** What an insert does to a well-keyed table: it fails exactly on a taken key,
      and otherwise appends one row, keyed with the counter when the row had no
      key, keeping the table well keyed. */
  lemma InsertSpec<R(!new), F(!new)>(orm: OrmClass<R, F>, t: Table<R>, row: R)
    requires Lawful(orm) && WellKeyed(orm.key, t)
    ensures Insert(orm, t, row).Failure? <==>
      orm.key(row).Some? && exists i :: 0 <= i < |t.rows| && orm.key(t.rows[i]) == orm.key(row)
    ensures Insert(orm, t, row).Success? ==>
      var (t', stored) := Insert(orm, t, row).value;
      && t'.rows == t.rows + [stored]
      && WellKeyed(orm.key, t')
      && t'.nextId >= t.nextId
      && (orm.key(row).None? ==> stored == orm.withKey(row, t.nextId) && orm.key(stored) == Some(t.nextId) && t'.nextId == t.nextId + 1)
      && (orm.key(row).Some? ==> stored == row)
  {
    match orm.key(row)
    case None =>
    case Some(k) =>
      if IndexOf(orm.key, t.rows, k).Some? {
        var i := IndexOf(orm.key, t.rows, k).value;
        assert orm.key(t.rows[i]) == orm.key(row);
      }
  }

  /** After a successful insert, looking up the stored row's key finds exactly
      that row, and every other key finds what it found before. */
  lemma InsertThenLookup<R(!new), F(!new)>(orm: OrmClass<R, F>, t: Table<R>, row: R)
    requires Lawful(orm) && WellKeyed(orm.key, t)
    requires Insert(orm, t, row).Success?
    ensures var (t', stored) := Insert(orm, t, row).value;
      && orm.key(stored).Some?
      && Lookup(orm.key, t'.rows, orm.key(stored).value) == Some(stored)
      && forall id :: id != orm.key(stored).value ==> Lookup(orm.key, t'.rows, id) == Lookup(orm.key, t.rows, id)
  {
    InsertSpec(orm, t, row);
    var (t', stored) := Insert(orm, t, row).value;
    forall id | id != orm.key(stored).value
      ensures Lookup(orm.key, t'.rows, id) == Lookup(orm.key, t.rows, id)
    {
      LookupAppend(orm.key, t.rows, stored, id);
    }
  }

  /** The row after `setattr` of each column in turn. */
  function AssignAll<R, F>(assign: (R, F) -> R, row: R, columns: seq<F>): R
    decreases |columns|
  {
    if columns == [] then row
    else assign(AssignAll(assign, row, columns[..|columns| - 1]), columns[|columns| - 1])
  }

  /** Any observation of a row that no column in `columns` changes is the same
      after the assignments as before: columns not named keep their values. */
  lemma {:induction false} AssignAllKeeps<R(!new), F(!new), V>(assign: (R, F) -> R, observe: R -> V, row: R, columns: seq<F>)
    requires forall c, r :: c in columns ==> observe(assign(r, c)) == observe(r)
    ensures observe(AssignAll(assign, row, columns)) == observe(row)
    decreases |columns|
  {
    if columns != [] {
      AssignAllKeeps(assign, observe, row, columns[..|columns| - 1]);
    }
  }

  /** Column assignments never change a row's key. */
  lemma AssignAllKeepsKey<R(!new), F(!new)>(orm: OrmClass<R, F>, row: R, columns: seq<F>)
    requires Lawful(orm)
    ensures orm.key(AssignAll(orm.assign, row, columns)) == orm.key(row)
  {
    AssignAllKeeps(orm.assign, orm.key, row, columns);
  }
}
