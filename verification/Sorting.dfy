/** A stable sort by an integer key, as Python's list.sort and sorted are used here. */
module Sorting {
  function Keys<T>(rows: seq<T>, key: T -> int): (keys: seq<int>)
    ensures |keys| == |rows|
    ensures forall i | 0 <= i < |rows| :: keys[i] == key(rows[i])
  {
    seq(|rows|, i requires 0 <= i < |rows| => key(rows[i]))
  }

  /** Insertion behind equal keys. */
  function Insert<T>(row: T, rows: seq<T>, key: T -> int): (r: seq<T>)
    ensures |r| == |rows| + 1
  {
    if rows == [] then [row]
    else
      var n := |rows| - 1;
      if key(rows[n]) <= key(row) then rows + [row] else Insert(row, rows[..n], key) + [rows[n]]
  }

  function SortedBy<T>(rows: seq<T>, key: T -> int): (r: seq<T>)
    ensures |r| == |rows|
  {
    if rows == [] then [] else Insert(rows[|rows| - 1], SortedBy(rows[..|rows| - 1], key), key)
  }

  lemma KeysAppend<T>(rows: seq<T>, row: T, key: T -> int)
    ensures Keys(rows + [row], key) == Keys(rows, key) + [key(row)]
  {
  }

  lemma {:induction false} InsertPermutes<T>(row: T, rows: seq<T>, key: T -> int)
    ensures multiset(Insert(row, rows, key)) == multiset(rows + [row])
  {
    if rows != [] && key(rows[|rows| - 1]) > key(row) {
      var n := |rows| - 1;
      assert rows == rows[..n] + [rows[n]];
      InsertPermutes(row, rows[..n], key);
    }
  }

  lemma {:induction false} InsertPermutesKeys<T>(row: T, rows: seq<T>, key: T -> int)
    ensures multiset(Keys(Insert(row, rows, key), key)) == multiset(Keys(rows, key)) + multiset{key(row)}
  {
    KeysAppend(rows, row, key);
    if rows != [] && key(rows[|rows| - 1]) > key(row) {
      var n := |rows| - 1;
      assert rows == rows[..n] + [rows[n]];
      InsertPermutesKeys(row, rows[..n], key);
      KeysAppend(rows[..n], rows[n], key);
      KeysAppend(Insert(row, rows[..n], key), rows[n], key);
    }
  }

  /** Sorting keeps the rows and their keys. */
  lemma {:induction false} SortedPermutes<T>(rows: seq<T>, key: T -> int)
    ensures multiset(SortedBy(rows, key)) == multiset(rows)
    ensures multiset(Keys(SortedBy(rows, key), key)) == multiset(Keys(rows, key))
  {
    if rows != [] {
      var n := |rows| - 1;
      assert rows == rows[..n] + [rows[n]];
      SortedPermutes(rows[..n], key);
      InsertPermutes(rows[n], SortedBy(rows[..n], key), key);
      InsertPermutesKeys(rows[n], SortedBy(rows[..n], key), key);
      KeysAppend(rows[..n], rows[n], key);
    }
  }

  predicate Ascending<T>(rows: seq<T>, key: T -> int) {
    forall i, j | 0 <= i < j < |rows| :: key(rows[i]) <= key(rows[j])
  }

  lemma {:induction false} InsertKeepsAscending<T>(row: T, rows: seq<T>, key: T -> int)
    requires Ascending(rows, key)
    ensures Ascending(Insert(row, rows, key), key)
    ensures forall r | r in Insert(row, rows, key) :: r == row || r in rows
  {
    if rows != [] {
      var n := |rows| - 1;
      if key(rows[n]) > key(row) {
        InsertKeepsAscending(row, rows[..n], key);
        var tail := Insert(row, rows[..n], key);
        forall i | 0 <= i < |tail| ensures key(tail[i]) <= key(rows[n]) {
          assert tail[i] in tail;
        }
      }
    }
  }

  lemma {:induction false} SortedIsAscending<T>(rows: seq<T>, key: T -> int)
    ensures Ascending(SortedBy(rows, key), key)
  {
    if rows != [] {
      SortedIsAscending(rows[..|rows| - 1], key);
      InsertKeepsAscending(rows[|rows| - 1], SortedBy(rows[..|rows| - 1], key), key);
    }
  }

  /** Sorting what is sorted changes nothing. */
  lemma {:induction false} AscendingStays<T>(rows: seq<T>, key: T -> int)
    requires Ascending(rows, key)
    ensures SortedBy(rows, key) == rows
  {
    if rows != [] {
      var n := |rows| - 1;
      AscendingStays(rows[..n], key);
      assert SortedBy(rows, key) == Insert(rows[n], rows[..n], key);
      assert rows == rows[..n] + [rows[n]];
      if n > 0 { assert rows[..n][n - 1] == rows[n - 1]; }
    }
  }

  /** Keys are distinct exactly when they are as many as their set. */
  lemma {:induction false} DistinctBySetSize(keys: seq<int>)
    ensures |set k | k in keys| <= |keys|
    ensures |set k | k in keys| == |keys| <==> forall i, j | 0 <= i < j < |keys| :: keys[i] != keys[j]
  {
    if keys != [] {
      var n := |keys| - 1;
      DistinctBySetSize(keys[..n]);
      assert keys == keys[..n] + [keys[n]];
      var before := set k | k in keys[..n];
      assert (set k | k in keys) == before + {keys[n]};
      if keys[n] in before {
        assert before + {keys[n]} == before;
        var i :| 0 <= i < n && keys[i] == keys[n];
      }
    }
  }

  /** So distinctness does not depend on the order. */
  lemma DistinctAnyOrder(a: seq<int>, b: seq<int>)
    requires multiset(a) == multiset(b)
    requires forall i, j | 0 <= i < j < |a| :: a[i] != a[j]
    ensures forall i, j | 0 <= i < j < |b| :: b[i] != b[j]
  {
    DistinctBySetSize(a);
    DistinctBySetSize(b);
    assert |multiset(a)| == |a| && |multiset(b)| == |b|;
    assert forall k :: k in a <==> k in multiset(a);
    assert forall k :: k in b <==> k in multiset(b);
    assert (set k | k in a) == (set k | k in b);
  }
}
