// Row-major positions, and the division that takes them apart.
module Arithmetic {
  // Position (a, b, c) in a row-major box whose last two extents are B and C.
  function Ix(a: int, B: int, b: int, C: int, c: int): (r: int) {
    (a * B + b) * C + c
  }

  lemma MulMono(a: int, b: int, c: int)
    requires a <= b && 0 <= c
    ensures a * c <= b * c
  {
  }

  lemma PairBound(a: int, A: int, b: int, B: int)
    requires 0 <= a < A && 0 <= b < B
    ensures 0 <= a * B + b < A * B
  {
    MulMono(0, a, B);
    MulMono(a, A - 1, B);
  }

  lemma PairInjective(a: int, b: int, a': int, b': int, B: int)
    requires 0 <= b < B && 0 <= b' < B
    ensures a * B + b == a' * B + b' <==> a == a' && b == b'
  {
    if a < a' {
      MulMono(a + 1, a', B);
    } else if a > a' {
      MulMono(a' + 1, a, B);
    }
  }

  lemma PairDivMod(a: int, b: int, B: int)
    requires 0 <= a && 0 <= b < B
    ensures (a * B + b) / B == a && (a * B + b) % B == b
  {
    var n := a * B + b;
    assert n == (n / B) * B + n % B;
    PairInjective(a, b, n / B, n % B, B);
  }

  lemma IxBound(a: int, A: int, b: int, B: int, c: int, C: int)
    requires 0 <= a < A && 0 <= b < B && 0 <= c < C
    ensures 0 <= Ix(a, B, b, C, c) < A * B * C
  {
    PairBound(a, A, b, B);
    PairBound(a * B + b, A * B, c, C);
  }

  lemma IxInjective(a: int, b: int, c: int, a': int, b': int, c': int, B: int, C: int)
    requires 0 <= b < B && 0 <= b' < B && 0 <= c < C && 0 <= c' < C
    ensures Ix(a, B, b, C, c) == Ix(a', B, b', C, c') <==> a == a' && b == b' && c == c'
  {
    PairInjective(a * B + b, c, a' * B + b', c', C);
    PairInjective(a, b, a', b', B);
  }

  // Position (i, j) in a row-major matrix with n columns.
  function Pos(i: int, n: int, j: int): (p: int)
    ensures 0 <= i && 0 <= n && 0 <= j ==> 0 <= p
  {
    i * n + j
  }

  lemma PosBound(i: int, m: int, j: int, n: int)
    requires 0 <= i < m && 0 <= j < n
    ensures 0 <= Pos(i, n, j) < m * n
  {
    PairBound(i, m, j, n);
  }

  lemma PosInjective(i: int, j: int, i': int, j': int, n: int)
    requires 0 <= j < n && 0 <= j' < n
    ensures Pos(i, n, j) == Pos(i', n, j') <==> i == i' && j == j'
  {
    PairInjective(i, j, i', j', n);
  }
}
