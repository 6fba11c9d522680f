/** Sums over table rows.  A measure is a function from a row to a number. */
module Sums {
  function Sum<T>(rows: seq<T>, measure: T -> int): int {
    if rows == [] then 0
    else Sum(rows[..|rows| - 1], measure) + measure(rows[|rows| - 1])
  }

  lemma SumAppend<T>(rows: seq<T>, row: T, measure: T -> int)
    ensures Sum(rows + [row], measure) == Sum(rows, measure) + measure(row)
  {
  }

  lemma {:induction false} SumUpdate<T>(rows: seq<T>, i: nat, row: T, measure: T -> int)
    requires i < |rows|
    ensures Sum(rows[i := row], measure) == Sum(rows, measure) - measure(rows[i]) + measure(row)
  {
    var n := |rows| - 1;
    if i < n {
      assert rows[i := row][..n] == rows[..n][i := row];
      SumUpdate(rows[..n], i, row, measure);
    } else {
      assert rows[i := row][..n] == rows[..n];
    }
  }

  lemma {:induction false} SumConcat<T>(a: seq<T>, b: seq<T>, measure: T -> int)
    ensures Sum(a + b, measure) == Sum(a, measure) + Sum(b, measure)
  {
    if b == [] {
      assert a + b == a;
    } else {
      var n := |b| - 1;
      assert (a + b)[..|a + b| - 1] == a + b[..n];
      SumConcat(a, b[..n], measure);
    }
  }

  lemma {:induction false} SumOfNaturals<T>(rows: seq<T>, measure: T -> int)
    requires forall r | r in rows :: measure(r) >= 0
    ensures Sum(rows, measure) >= 0
    ensures forall r | r in rows :: measure(r) <= Sum(rows, measure)
  {
    if rows != [] {
      var n := |rows| - 1;
      assert rows == rows[..n] + [rows[n]];
      SumOfNaturals(rows[..n], measure);
    }
  }

  lemma {:induction false} SumSame<T>(rows: seq<T>, f: T -> int, g: T -> int)
    requires forall r | r in rows :: f(r) == g(r)
    ensures Sum(rows, f) == Sum(rows, g)
  {
    if rows != [] {
      var n := |rows| - 1;
      assert rows == rows[..n] + [rows[n]];
      SumSame(rows[..n], f, g);
    }
  }
}
