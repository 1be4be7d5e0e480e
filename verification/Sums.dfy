// Finite sums of integers: congruence, splitting, flattening, exchange of order and bounds.
// A sum of sums is given by the outer summand and, for each index, the inner summand.
module Sums {
  function Sum(n: nat, f: int -> int): (r: int) {
    if n == 0 then 0 else Sum(n - 1, f) + f(n - 1)
  }

  lemma SumNext(n: nat, f: int -> int)
    ensures Sum(0, f) == 0 && Sum(n + 1, f) == Sum(n, f) + f(n)
  {
  }

  lemma {:induction false} SumCongruence(n: nat, f: int -> int, g: int -> int)
    requires forall i | 0 <= i < n :: f(i) == g(i)
    ensures Sum(n, f) == Sum(n, g)
  {
    if n != 0 {
      SumCongruence(n - 1, f, g);
    }
  }

  lemma {:induction false} SumOfSums(n: nat, f: int -> int, g: int -> int, h: int -> int)
    requires forall i | 0 <= i < n :: h(i) == f(i) + g(i)
    ensures Sum(n, h) == Sum(n, f) + Sum(n, g)
  {
    if n != 0 {
      SumOfSums(n - 1, f, g, h);
    }
  }

  lemma {:induction false} SumSplit(m: nat, n: nat, f: int -> int, tail: int -> int)
    requires forall j | 0 <= j < n :: tail(j) == f(m + j)
    ensures Sum(m + n, f) == Sum(m, f) + Sum(n, tail)
  {
    if n != 0 {
      SumSplit(m, n - 1, f, tail);
    }
  }

  lemma {:induction false} SumZero(n: nat, f: int -> int)
    requires forall i | 0 <= i < n :: f(i) == 0
    ensures Sum(n, f) == 0
  {
    if n != 0 {
      SumZero(n - 1, f);
    }
  }

  // All but one summand zero.
  lemma {:induction false} SumOne(n: nat, f: int -> int, j: nat)
    requires j < n && forall i | 0 <= i < n && i != j :: f(i) == 0
    ensures Sum(n, f) == f(j)
  {
    if j == n - 1 {
      SumZero(n - 1, f);
    } else {
      SumOne(n - 1, f, j);
    }
  }

  // ---- tables -----------------------------------------------------------------------

  function Row(g: (int, int) -> int, i: int): (f: int -> int) { j => g(i, j) }

  function Col(g: (int, int) -> int, j: int): (f: int -> int) { i => g(i, j) }

  function RowSums(n: nat, g: (int, int) -> int): (f: int -> int) { i => Sum(n, Row(g, i)) }

  function ColSums(m: nat, g: (int, int) -> int): (f: int -> int) { j => Sum(m, Col(g, j)) }

  lemma SumOneMoreRow(m: nat, start: nat, n: nat, f: int -> int, rows: int -> int, row: int -> int)
    requires Sum(start, f) == Sum(m, rows) && rows(m) == Sum(n, row)
    requires forall j | 0 <= j < n :: row(j) == f(start + j)
    ensures Sum(start + n, f) == Sum(m + 1, rows)
  {
    SumSplit(start, n, f, row);
  }

  // A sum in row-major order, row by row.
  lemma {:induction false} SumFlatten(m: nat, n: nat, f: int -> int, g: (int, int) -> int)
    requires forall i, j | 0 <= i < m && 0 <= j < n :: g(i, j) == f(i * n + j)
    ensures Sum(m * n, f) == Sum(m, RowSums(n, g))
  {
    hide Sum;
    if m == 0 {
      SumNext(0, f);
      SumNext(0, RowSums(n, g));
    } else {
      var last := m - 1;
      SumFlatten(last, n, f, g);
      SumOneMoreRow(last, last * n, n, f, RowSums(n, g), Row(g, last));
      assert m * n == last * n + n;
    }
  }

  // Adding up a table by rows or by columns.
  lemma {:induction false} SumExchange(m: nat, n: nat, g: (int, int) -> int)
    ensures Sum(m, RowSums(n, g)) == Sum(n, ColSums(m, g))
  {
    if m == 0 {
      SumZero(n, ColSums(m, g));
    } else {
      SumExchange(m - 1, n, g);
      SumOfSums(n, ColSums(m - 1, g), Row(g, m - 1), ColSums(m, g));
    }
  }

  // A sum in row-major order, column by column.
  lemma SumColumns(m: nat, n: nat, f: int -> int, g: (int, int) -> int)
    requires forall i, j | 0 <= i < m && 0 <= j < n :: g(i, j) == f(i * n + j)
    ensures Sum(m * n, f) == Sum(n, ColSums(m, g))
  {
    SumFlatten(m, n, f, g);
    SumExchange(m, n, g);
  }

  lemma {:induction false} SumBound(n: nat, f: int -> int, b: int)
    requires 0 <= b && forall i | 0 <= i < n :: -b <= f(i) <= b
    ensures -(n * b) <= Sum(n, f) <= n * b
  {
    if n != 0 {
      SumBound(n - 1, f, b);
      assert n * b == (n - 1) * b + b;
    }
  }
}
