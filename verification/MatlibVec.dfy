// Matrix-vector products by rows and by columns, and the transpose that relates them.
module MatlibVec {
  import opened Arithmetic
  import opened Matlib

  // The sum over J < n of a[J][i] * b[J], down column i of a matrix with m columns.
  function ColumnDot(a: seq<real>, m: nat, i: nat, b: seq<real>, n: nat): (r: real) {
    if n == 0 then 0.0 else ColumnDot(a, m, i, b, n - 1) + Product(At(a, Pos(n - 1, m, i)), At(b, n - 1))
  }

  function RowDot(a: seq<real>, m: nat, i: nat, b: seq<real>, n: nat): (r: real) { Dot(a, Pos(i, m, 0), b, 0, n) }

  lemma RowDotNext(a: seq<real>, m: nat, i: nat, b: seq<real>, n: nat)
    ensures RowDot(a, m, i, b, n + 1) == RowDot(a, m, i, b, n) + Product(At(a, Pos(i, m, n)), At(b, n))
    ensures RowDot(a, m, i, b, 0) == 0.0
  {
  }

  // A strided load of vl elements.
  method LoadStrided(vlmax: nat, a: array<real>, i: nat, j: nat, m: nat, vl: nat, n: nat) returns (v: seq<real>)
    requires vl <= vlmax && i + vl <= n && j < m && n * m <= a.Length
    ensures |v| == vlmax && forall l | 0 <= l < vl :: v[l] == At(a[..], Pos(i + l, m, j))
  {
    hide Pos;
    var s := a[..];
    v := seq(vlmax, l requires 0 <= l => At(s, Pos(i + l, m, j)));
  }

  // vfmacc by a scalar on the first vl lanes, the others left undisturbed.
  function MulAddScalar(s: seq<real>, x: real, a: seq<real>, vl: nat): (r: seq<real>)
    requires |s| == |a|
    ensures |r| == |s|
    ensures forall l | 0 <= l < |s| && l < vl :: r[l] == s[l] + Product(a[l], x)
  {
    seq(|s|, l requires 0 <= l < |s| => if l < vl then s[l] + Product(a[l], x) else s[l])
  }

  method Store(c: array<real>, p: nat, v: seq<real>, vl: nat)
    requires vl <= |v| && p + vl <= c.Length
    modifies c
    ensures forall q | 0 <= q < c.Length :: c[q] == if p <= q < p + vl then v[q - p] else old(c[q])
  {
    for l := 0 to vl
      invariant forall q | 0 <= q < c.Length :: c[q] == if p <= q < p + l then v[q - p] else old(c[q])
    {
      c[p + l] := v[l];
    }
  }

  // c = A b, by strips of rows.
  method Matvec(vlmax: nat, a: array<real>, b: array<real>, c: array<real>, n: nat, m: nat)
    requires vlmax > 0 && c != a && c != b && n * m <= a.Length && m <= b.Length && n <= c.Length
    modifies c
    ensures forall i | 0 <= i < n :: c[i] == RowDot(a[..], m, i, b[..], m)
    ensures forall i | n <= i < c.Length :: c[i] == old(c[i])
  {
    hide Pos, RowDot, MulAddScalar;
    ghost var A, B := a[..], b[..];
    var k, I := n, 0;
    while k > 0
      invariant k + I == n
      invariant forall i | 0 <= i < I :: c[i] == RowDot(A, m, i, B, m)
      invariant forall i | n <= i < c.Length :: c[i] == old(c[i])
      decreases k
    {
      var vl := VsetVl(vlmax, k);
      var vc := seq(vlmax, _ => 0.0);
      forall l | 0 <= l < vl ensures vc[l] == RowDot(A, m, I + l, B, 0) {
        RowDotNext(A, m, I + l, B, 0);
      }
      ghost var held := c[..];
      for J := 0 to m
        invariant c[..] == held
        invariant |vc| == vlmax && forall l | 0 <= l < vl :: vc[l] == RowDot(A, m, I + l, B, J)
      {
        var va := LoadStrided(vlmax, a, I, J, m, vl, n);
        ghost var before := vc;
        vc := MulAddScalar(vc, b[J], va, vl);
        RowLanes(A, m, I, B, J, before, b[J], va, vl);
      }
      Store(c, I, vc, vl);
      k, I := k - vl, I + vl;
    }
  }

  lemma RowLanes(a: seq<real>, m: nat, i: nat, b: seq<real>, J: nat, s: seq<real>, x: real, va: seq<real>, vl: nat)
    requires |s| == |va| && vl <= |s| && x == At(b, J)
    requires forall l | 0 <= l < vl :: va[l] == At(a, Pos(i + l, m, J))
    requires forall l | 0 <= l < vl :: s[l] == RowDot(a, m, i + l, b, J)
    ensures forall l | 0 <= l < vl :: MulAddScalar(s, x, va, vl)[l] == RowDot(a, m, i + l, b, J + 1)
  {
    hide Pos, RowDot;
    forall l | 0 <= l < vl ensures MulAddScalar(s, x, va, vl)[l] == RowDot(a, m, i + l, b, J + 1) {
      RowDotNext(a, m, i + l, b, J);
    }
  }

  // c = A' b, by strips of columns; each load is contiguous.
  method MatvecTranspose(vlmax: nat, a: array<real>, b: array<real>, c: array<real>, n: nat, m: nat)
    requires vlmax > 0 && c != a && c != b && n * m <= a.Length && n <= b.Length && m <= c.Length
    modifies c
    ensures forall i | 0 <= i < m :: c[i] == ColumnDot(a[..], m, i, b[..], n)
    ensures forall i | m <= i < c.Length :: c[i] == old(c[i])
  {
    hide Pos, ColumnDot, MulAddScalar;
    ghost var A, B := a[..], b[..];
    var k, I := m, 0;
    while k > 0
      invariant k + I == m
      invariant forall i | 0 <= i < I :: c[i] == ColumnDot(A, m, i, B, n)
      invariant forall i | m <= i < c.Length :: c[i] == old(c[i])
      decreases k
    {
      var vl := VsetVl(vlmax, k);
      var vc := seq(vlmax, _ => 0.0);
      forall l | 0 <= l < vl ensures vc[l] == ColumnDot(A, m, I + l, B, 0) {
        ColumnDotNext(A, m, I + l, B, 0);
      }
      ghost var held := c[..];
      for J := 0 to n
        invariant c[..] == held
        invariant |vc| == vlmax && forall l | 0 <= l < vl :: vc[l] == ColumnDot(A, m, I + l, B, J)
      {
        RowInside(J, n, I, vl, m);
        var va := Load(vlmax, a, Pos(J, m, I), vl);
        ghost var before := vc;
        forall l | 0 <= l < vl ensures va[l] == At(A, Pos(J, m, I + l)) {
          PosPlus(J, m, I, l);
        }
        vc := MulAddScalar(vc, b[J], va, vl);
        ColumnLanes(A, m, I, B, J, before, b[J], va, vl);
      }
      Store(c, I, vc, vl);
      k, I := k - vl, I + vl;
    }
  }

  lemma PosPlus(r: nat, C: nat, q: nat, l: nat)
    ensures Pos(r, C, q + l) == Pos(r, C, q) + l
  {
  }

  lemma ColumnDotNext(a: seq<real>, m: nat, i: nat, b: seq<real>, n: nat)
    ensures ColumnDot(a, m, i, b, n + 1) == ColumnDot(a, m, i, b, n) + Product(At(a, Pos(n, m, i)), At(b, n))
    ensures ColumnDot(a, m, i, b, 0) == 0.0
  {
  }

  lemma ColumnLanes(a: seq<real>, m: nat, i: nat, b: seq<real>, J: nat, s: seq<real>, x: real, va: seq<real>, vl: nat)
    requires |s| == |va| && vl <= |s| && x == At(b, J)
    requires forall l | 0 <= l < vl :: va[l] == At(a, Pos(J, m, i + l))
    requires forall l | 0 <= l < vl :: s[l] == ColumnDot(a, m, i + l, b, J)
    ensures forall l | 0 <= l < vl :: MulAddScalar(s, x, va, vl)[l] == ColumnDot(a, m, i + l, b, J + 1)
  {
    hide Pos, ColumnDot;
    forall l | 0 <= l < vl ensures MulAddScalar(s, x, va, vl)[l] == ColumnDot(a, m, i + l, b, J + 1) {
      ColumnDotNext(a, m, i + l, b, J);
    }
  }

  // b = A', row by row of b; each load is strided.
  method Transpose(vlmax: nat, a: array<real>, b: array<real>, n: nat, m: nat)
    requires vlmax > 0 && a != b && n * m <= a.Length && m * n <= b.Length
    modifies b
    ensures IsTranspose(a[..], b[..], n, m)
    ensures forall p | m * n <= p < b.Length :: b[p] == old(b[p])
  {
    hide Pos;
    ghost var A := a[..];
    for j := 0 to m
      invariant forall p | m * n <= p < b.Length :: b[p] == old(b[p])
      invariant forall r, q | 0 <= r < j && 0 <= q < n :: At(b[..], Pos(r, n, q)) == At(A, Pos(q, m, r))
    {
      var k, l := n, 0;
      while k > 0
        invariant k + l == n
        invariant forall p | m * n <= p < b.Length :: b[p] == old(b[p])
        invariant forall r, q | 0 <= r < j && 0 <= q < n :: At(b[..], Pos(r, n, q)) == At(A, Pos(q, m, r))
        invariant forall q | 0 <= q < l :: At(b[..], Pos(j, n, q)) == At(A, Pos(q, m, j))
        decreases k
      {
        var vl := VsetVl(vlmax, k);
        var va := LoadStrided(vlmax, a, l, j, m, vl, n);
        RowInside(j, m, l, vl, n);
        ghost var before := b[..];
        Store(b, Pos(j, n, l), va, vl);
        StripMoved(A, before, b[..], n, m, j, l, va, vl);
        k, l := k - vl, l + vl;
      }
    }
  }

  ghost predicate IsTranspose(a: seq<real>, t: seq<real>, n: nat, m: nat) {
    forall r, q | 0 <= r < m && 0 <= q < n :: At(t, Pos(r, n, q)) == At(a, Pos(q, m, r))
  }

  lemma StripMoved(a: seq<real>, b: seq<real>, b': seq<real>, n: nat, m: nat, j: nat, l: nat, va: seq<real>, vl: nat)
    requires j < m && l + vl <= n && vl <= |va| && |b'| == |b| && m * n <= |b|
    requires forall i | 0 <= i < vl :: va[i] == At(a, Pos(l + i, m, j))
    requires forall p | 0 <= p < |b| ::
               b'[p] == if Pos(j, n, l) <= p < Pos(j, n, l) + vl then va[p - Pos(j, n, l)] else b[p]
    ensures forall r, q | 0 <= r < j && 0 <= q < n :: At(b', Pos(r, n, q)) == At(b, Pos(r, n, q))
    ensures forall q | 0 <= q < l :: At(b', Pos(j, n, q)) == At(b, Pos(j, n, q))
    ensures forall q | l <= q < l + vl :: At(b', Pos(j, n, q)) == At(a, Pos(q, m, j))
  {
    forall r, q | 0 <= r < j && 0 <= q < n ensures At(b', Pos(r, n, q)) == At(b, Pos(r, n, q)) {
      EarlierRow(r, j, q, n, m);
    }
    hide Pos;
    forall q | 0 <= q < n
      ensures At(b', Pos(j, n, q)) == if l <= q < l + vl then At(a, Pos(q, m, j)) else At(b, Pos(j, n, q))
    {
      PosBound(j, m, q, n);
      PosPlus(j, n, 0, q);
      PosPlus(j, n, 0, l);
      if l <= q < l + vl {
        assert va[q - l] == At(a, Pos(l + (q - l), m, j));
      }
    }
  }

  lemma EarlierRow(r: nat, j: nat, q: nat, n: nat, m: nat)
    requires r < j < m && q < n
    ensures Pos(r, n, q) < Pos(j, n, 0) && Pos(r, n, q) < m * n
    ensures forall l: nat :: Pos(r, n, q) < Pos(j, n, l)
  {
    PosBound(r, m, q, n);
    MulMono(r + 1, j, n);
  }

  // The column product of a matrix is the row product of its transpose: transposing and then
  // multiplying by rows gives what multiplying by columns gives.
  lemma {:induction false} ColumnsAreTransposedRows(a: seq<real>, t: seq<real>, n: nat, m: nat, i: nat, b: seq<real>,
                                                    k: nat)
    requires IsTranspose(a, t, n, m) && i < m && k <= n
    ensures ColumnDot(a, m, i, b, k) == RowDot(t, n, i, b, k)
  {
    hide Pos, RowDot, ColumnDot;
    if k == 0 {
      ColumnDotNext(a, m, i, b, 0);
      RowDotNext(t, n, i, b, 0);
    } else {
      ColumnsAreTransposedRows(a, t, n, m, i, b, k - 1);
      ColumnDotNext(a, m, i, b, k - 1);
      RowDotNext(t, n, i, b, k - 1);
    }
  }

  // The two ways of computing A' b, side by side.
  method BothWays(vlmax: nat, a: array<real>, b: array<real>, n: nat, m: nat)
    returns (direct: array<real>, viaTranspose: array<real>)
    requires vlmax > 0 && n * m <= a.Length && n <= b.Length
    ensures direct[..] == viaTranspose[..] && direct.Length == m
  {
    direct := new real[m](_ => 0.0);
    viaTranspose := new real[m](_ => 0.0);
    var t := new real[m * n](_ => 0.0);
    MatvecTranspose(vlmax, a, b, direct, n, m);
    Transpose(vlmax, a, t, n, m);
    Matvec(vlmax, t, b, viaTranspose, m, n);
    forall i | 0 <= i < m ensures direct[i] == viaTranspose[i] {
      ColumnsAreTransposedRows(a[..], t[..], n, m, i, b[..], n);
    }
  }
}
