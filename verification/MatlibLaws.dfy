// The products told by the elements of the arrays.
module MatlibLaws {
  import opened Arithmetic
  import opened Matlib
  import opened MatlibVec

  // The inner product, element by element.
  lemma DotNext(a: seq<real>, pa: nat, b: seq<real>, pb: nat, n: nat)
    requires pa + n < |a| && pb + n < |b|
    ensures Dot(a, pa, b, pb, 0) == 0.0
    ensures Dot(a, pa, b, pb, n + 1) == Dot(a, pa, b, pb, n) + a[pa + n] * b[pb + n]
  {
  }

  // Row r of the one matrix against row q of the other.
  lemma ProductEntry(a: seq<real>, b: seq<real>, c: seq<real>, c': seq<real>, n: nat, m: nat, o: nat, r: nat, q: nat)
    requires IsProduct(a, b, c, c', n, m, o) && n * m <= |c| && r < n && q < m
    ensures 0 <= r * o && 0 <= q * o && 0 <= r * m + q < |c'|
    ensures c'[r * m + q] == Dot(a, r * o, b, q * o, o)
  {
    PosBound(r, n, q, m);
    MulMono(0, r, o);
    MulMono(0, q, o);
    assert At(c', Pos(r, m, q)) == Entry(a, b, o, r, q, o);
  }

  // What is past the matrix stays.
  lemma ProductKeeps(a: seq<real>, b: seq<real>, c: seq<real>, c': seq<real>, n: nat, m: nat, o: nat, p: nat)
    requires IsProduct(a, b, c, c', n, m, o) && n * m <= p < |c|
    ensures |c'| == |c| && c'[p] == c[p]
  {
    assert At(c', p) == At(c, p);
  }

  ghost predicate IsIdentity(b: seq<real>, o: nat) {
    forall r, q | 0 <= r < o && 0 <= q < o :: At(b, Pos(r, o, q)) == if r == q then 1.0 else 0.0
  }

  // A row against row q of the unit matrix picks its element q.
  lemma {:induction false} DotUnit(a: seq<real>, pa: nat, b: seq<real>, o: nat, q: nat, n: nat)
    requires IsIdentity(b, o) && q < o && n <= o
    ensures Dot(a, pa, b, Pos(q, o, 0), n) == if q < n then At(a, pa + q) else 0.0
  {
    if n > 0 {
      DotUnit(a, pa, b, o, q, n - 1);
      PosNext(q, o, n - 1);
      hide Pos, At;
      assert At(b, Pos(q, o, n - 1)) == if q == n - 1 then 1.0 else 0.0;
      ProductByUnit(At(a, pa + n - 1));
    }
  }

  lemma PosNext(q: nat, o: nat, k: nat)
    ensures Pos(q, o, 0) + k == Pos(q, o, k)
  {
  }

  lemma ProductByUnit(x: real)
    ensures Product(x, 1.0) == x && Product(x, 0.0) == 0.0
  {
  }

  // Multiplying by the unit matrix copies.
  lemma IdentityCopies(a: seq<real>, b: seq<real>, c: seq<real>, c': seq<real>, n: nat, o: nat, r: nat, q: nat)
    requires n * o <= |a| && n * o <= |c| && IsIdentity(b, o) && IsProduct(a, b, c, c', n, o, o) && r < n && q < o
    ensures 0 <= r * o + q < |a| && r * o + q < |c'|
    ensures c'[r * o + q] == a[r * o + q]
  {
    PosBound(r, n, q, o);
    PosNext(r, o, q);
    assert At(c', Pos(r, o, q)) == Entry(a, b, o, r, q, o);
    DotUnit(a, Pos(r, o, 0), b, o, q, o);
  }

  // Swapping the factors transposes the product.
  lemma SwapTransposes(a: seq<real>, b: seq<real>, c: seq<real>, d: seq<real>, c': seq<real>, d': seq<real>,
                       n: nat, m: nat, o: nat)
    requires IsProduct(a, b, c, c', n, m, o) && IsProduct(b, a, d, d', m, n, o)
    ensures IsTranspose(c', d', n, m)
  {
    hide Pos, Dot, At;
    forall r, q | 0 <= r < m && 0 <= q < n ensures At(d', Pos(r, n, q)) == At(c', Pos(q, m, r)) {
      DotCommutes(a, Pos(q, o, 0), b, Pos(r, o, 0), o);
    }
  }

  lemma {:induction false} DotCommutes(a: seq<real>, pa: nat, b: seq<real>, pb: nat, n: nat)
    ensures Dot(a, pa, b, pb, n) == Dot(b, pb, a, pa, n)
  {
    if n > 0 {
      DotCommutes(a, pa, b, pb, n - 1);
      ProductCommutes(At(a, pa + n - 1), At(b, pb + n - 1));
    }
  }

  lemma ProductCommutes(x: real, y: real)
    ensures Product(x, y) == Product(y, x)
  {
  }

  // The element moved by a transposition.
  lemma TransposeEntry(a: seq<real>, t: seq<real>, n: nat, m: nat, r: nat, q: nat)
    requires IsTranspose(a, t, n, m) && n * m <= |a| && m * n <= |t| && r < m && q < n
    ensures 0 <= r * n + q < |t| && 0 <= q * m + r < |a|
    ensures t[r * n + q] == a[q * m + r]
  {
    PosBound(r, m, q, n);
    PosBound(q, n, r, m);
    assert At(t, Pos(r, n, q)) == At(a, Pos(q, m, r));
  }

  // The two matrix-vector products, element by element.
  lemma RowProductNext(a: seq<real>, m: nat, i: nat, b: seq<real>, k: nat)
    requires 0 <= i * m && i * m + k < |a| && k < |b|
    ensures RowDot(a, m, i, b, 0) == 0.0
    ensures RowDot(a, m, i, b, k + 1) == RowDot(a, m, i, b, k) + a[i * m + k] * b[k]
  {
  }

  lemma ColumnProductNext(a: seq<real>, m: nat, i: nat, b: seq<real>, k: nat)
    requires 0 <= k * m && k * m + i < |a| && k < |b|
    ensures ColumnDot(a, m, i, b, 0) == 0.0
    ensures ColumnDot(a, m, i, b, k + 1) == ColumnDot(a, m, i, b, k) + a[k * m + i] * b[k]
  {
  }
}
