/**
 Physical tables of a ReplacingMergeTree database.  A table is a sequence of
 physical rows; a row has a sorting key, a version and the remaining columns.
 `FINAL` returns, per key, a row of the greatest version; a background merge
 drops rows that another row of the same key dominates.
 */
module Tables {

  datatype Option<+T> = None | Some(value: T)

  datatype Row<K, D> = Row(key: K, version: int, data: D)

  /** `r` may be returned by a FINAL read: nothing stored under its key is newer. */
  predicate IsNewest<K(==), D(==)>(table: seq<Row<K, D>>, r: Row<K, D>)
  {
    r in table && forall q | q in table && q.key == r.key :: q.version <= r.version
  }

  /** What a FINAL read of one key may answer. */
  predicate FinalRead<K(==), D(==)>(table: seq<Row<K, D>>, key: K, found: Option<Row<K, D>>)
  {
    match found
    case None => forall r | r in table :: r.key != key
    case Some(r) => r.key == key && IsNewest(table, r)
  }

  function Without<T>(table: seq<T>, i: nat): (rest: seq<T>)
    requires i < |table|
  {
    table[..i] + table[i + 1..]
  }

  /** Dropping one physical row keeps every other one. */
  lemma WithoutKeeps<T>(table: seq<T>, i: nat)
    requires i < |table|
    ensures forall r | r in Without(table, i) :: r in table
    ensures forall j | 0 <= j < |table| && j != i :: table[j] in Without(table, i)
    ensures forall r | r in table && r != table[i] :: r in Without(table, i)
  {
    var rest := Without(table, i);
    forall j | 0 <= j < |table| && j != i
      ensures table[j] in rest
    {
      assert rest[if j < i then j else j - 1] == table[j];
    }
  }

  /** The second table holds no more copies of the row than the first. */
  ghost predicate NoMore<T>(table: seq<T>, table': seq<T>, r: T)
  {
    multiset(table')[r] <= multiset(table)[r]
  }

  lemma NoMoreIsIn<T>(table: seq<T>, table': seq<T>, r: T)
    requires NoMore(table, table', r)
    ensures r in table' ==> r in table
  {
    assert r in table' ==> multiset(table')[r] > 0;
  }

  lemma OthersAppended<T>(table: seq<T>, rows: seq<T>, r: T)
    requires r !in rows
    ensures NoMore(table, table + rows, r)
  {
    assert multiset(rows)[r] == 0;
  }

  lemma OneRemoved<T>(table: seq<T>, i: nat, r: T)
    requires i < |table|
    ensures NoMore(table, Without(table, i), r)
  {
    assert table == table[..i] + [table[i]] + table[i + 1..];
  }

  /** A merge may drop row `i` because row `j` has the same key and is not older. */
  predicate Dominated<K(==), D>(table: seq<Row<K, D>>, i: nat, j: nat)
  {
    i < |table| && j < |table| && i != j && table[i].key == table[j].key && table[i].version <= table[j].version
  }

  /** Every stored key has a newest row. */
  lemma {:induction false} NewestExists<K, D>(table: seq<Row<K, D>>, r: Row<K, D>) returns (newest: Row<K, D>)
    requires r in table
    ensures newest.key == r.key && IsNewest(table, newest) && r.version <= newest.version
  {
    var last := |table| - 1;
    var front := table[..last];
    assert table == front + [table[last]];
    if r in front {
      newest := NewestExists(front, r);
      if table[last].key == r.key && table[last].version > newest.version {
        newest := table[last];
      }
    } else {
      newest := r;
      if exists q | q in front :: q.key == r.key {
        var q :| q in front && q.key == r.key;
        var n := NewestExists(front, q);
        if n.version > r.version {
          newest := n;
        }
      }
    }
  }
}
