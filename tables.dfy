/**
 * Tables as sequences of rows, and what a UNIQUE constraint means for them.
 * A table key is given as a function from a row to the key's columns.
 */
module Tables {
  import opened Common

  /** No two rows share a key: the meaning of a UNIQUE constraint (or a primary key). */
  predicate UniqueBy<T, K(==)>(rows: seq<T>, key: T -> K)
  {
    forall i, j :: 0 <= i < j < |rows| ==> key(rows[i]) != key(rows[j])
  }

  /** No row of the table has key `k`. */
  predicate KeyAbsent<T, K(==)>(rows: seq<T>, key: T -> K, k: K)
  {
    forall i :: 0 <= i < |rows| ==> key(rows[i]) != k
  }

  /** The number of rows whose key is `k`. */
  function Count<T, K(==)>(rows: seq<T>, key: T -> K, k: K): (n: nat)
    ensures n == 0 <==> KeyAbsent(rows, key, k)
    ensures n <= |rows|
  {
    if rows == [] then 0
    else (if key(rows[0]) == k then 1 else 0) + Count(rows[1..], key, k)
  }

  /**
   * The row a `select ... where key == k` query hands to `scalar_one_or_none`:
   * the first row with that key, or none.
   */
  function Find<T, K(==)>(rows: seq<T>, key: T -> K, k: K): (r: Option<T>)
    ensures r.None? <==> KeyAbsent(rows, key, k)
    ensures r.Some? ==> r.value in rows && key(r.value) == k
  {
    if rows == [] then None
    else if key(rows[0]) == k then Some(rows[0])
    else Find(rows[1..], key, k)
  }

  /** Under a UNIQUE constraint the query finds exactly the row that has the key. */
  lemma {:induction false} FindUnique<T, K>(rows: seq<T>, key: T -> K, row: T)
    requires UniqueBy(rows, key)
    requires row in rows
    ensures Find(rows, key, key(row)) == Some(row)
  {
    var found := Find(rows, key, key(row));
    assert found.Some?;
    var i :| 0 <= i < |rows| && rows[i] == row;
    var j :| 0 <= j < |rows| && rows[j] == found.value;
    assert key(rows[i]) == key(rows[j]);
    assert i == j;
  }

  /** Inserting a row whose key is not yet taken keeps the constraint. */
  lemma {:induction false} UniqueAppend<T, K>(rows: seq<T>, key: T -> K, row: T)
    requires UniqueBy(rows, key)
    requires KeyAbsent(rows, key, key(row))
    ensures UniqueBy(rows + [row], key)
  {
    var s := rows + [row];
    forall i, j | 0 <= i < j < |s|
      ensures key(s[i]) != key(s[j])
    {
      if j == |rows| {
        assert s[i] == rows[i] && s[j] == row;
      } else {
        assert s[i] == rows[i] && s[j] == rows[j];
      }
    }
  }

  /** Under a UNIQUE constraint every key occurs at most once. */
  lemma {:induction false} UniqueCountAtMostOne<T, K>(rows: seq<T>, key: T -> K, k: K)
    requires UniqueBy(rows, key)
    ensures Count(rows, key, k) <= 1
  {
    if rows != [] {
      var tail := rows[1..];
      assert UniqueBy(tail, key) by {
        forall i, j | 0 <= i < j < |tail| ensures key(tail[i]) != key(tail[j]) {
          assert tail[i] == rows[i + 1] && tail[j] == rows[j + 1];
        }
      }
      if key(rows[0]) == k {
        assert KeyAbsent(tail, key, k) by {
          forall i | 0 <= i < |tail| ensures key(tail[i]) != k {
            assert tail[i] == rows[i + 1];
          }
        }
      } else {
        UniqueCountAtMostOne(tail, key, k);
      }
    }
  }
}
