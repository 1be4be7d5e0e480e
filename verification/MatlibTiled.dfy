// The tiled product: the same entries, accumulated tile by tile.
module MatlibTiled {
  import opened Arithmetic
  import opened Matlib

  function Min(x: nat, y: nat): (r: nat) { if x < y then x else y }

  // Where the q-th tile starts.
  function Start(q: nat, tile: nat): (i: nat) { q * tile }

  lemma StartNext(q: nat, tile: nat)
    ensures Start(q + 1, tile) == Start(q, tile) + tile && Start(0, tile) == 0
  {
  }

  // The extent the source computes with a remainder is what is left of the matrix.
  function Extent(i: nat, tile: nat, n: nat): (e: nat)
    requires tile > 0
  {
    if i + tile <= n then tile else n % tile
  }

  lemma ExtentIs(q: nat, tile: nat, n: nat)
    requires tile > 0 && Start(q, tile) < n
    ensures Start(q, tile) + Extent(Start(q, tile), tile, n) == Min(Start(q, tile) + tile, n)
  {
    var i := Start(q, tile);
    if i + tile > n {
      PairDivMod(q, n - i, tile);
    }
  }

  // Growing an entry by the products from k on.
  lemma EntryGrows(a: seq<real>, b: seq<real>, o: nat, r: nat, q: nat, k: nat, len: nat)
    ensures Entry(a, b, o, r, q, k + len) == Entry(a, b, o, r, q, k) + Dot(a, Pos(r, o, k), b, Pos(q, o, k), len)
    ensures Entry(a, b, o, r, q, 0) == 0.0
  {
    DotSplit(a, Pos(r, o, 0), b, Pos(q, o, 0), k, len);
  }

  ghost predicate Untouched(c: seq<real>, c': seq<real>, m: nat, rlo: nat, rhi: nat, clo: nat, chi: nat) {
    forall r, q | rlo <= r < rhi && clo <= q < chi :: At(c', Pos(r, m, q)) == At(c, Pos(r, m, q))
  }

  // matmul_rvvt: one tile of C, from one tile each of A and B.
  method MatmulTile(vlmax: nat, a: array<real>, b: array<real>, c: array<real>, i: nat, j: nat, k: nat,
                    n: nat, m: nat, o: nat, tile: nat, ghost qi: nat, ghost qj: nat, ghost qk: nat)
    requires vlmax > 0 && c != a && c != b && tile > 0
    requires n * o <= a.Length && m * o <= b.Length && n * m <= c.Length
    requires i == Start(qi, tile) < n && j == Start(qj, tile) < m && k == Start(qk, tile) < o
    requires k > 0 ==> Filled(a[..], b[..], c[..], m, o, i, Min(i + tile, n), j, Min(j + tile, m), k)
    modifies c
    ensures Filled(a[..], b[..], c[..], m, o, i, Min(i + tile, n), j, Min(j + tile, m), Min(k + tile, o))
    ensures Kept(old(c[..]), c[..], n, m, i, Min(i + tile, n), j, Min(j + tile, m))
  {
    hide Pos, Dot, At, Entry, Start, Extent;
    ExtentIs(qi, tile, n);
    ExtentIs(qj, tile, m);
    ExtentIs(qk, tile, o);
    var N, M, O := Extent(i, tile, n), Extent(j, tile, m), Extent(k, tile, o);
    ghost var A, B, C := a[..], b[..], c[..];
    for I := 0 to N
      invariant Filled(A, B, c[..], m, o, i, i + I, j, j + M, k + O)
      invariant Kept(C, c[..], n, m, i, i + I, j, j + M)
    {
      for J := 0 to M
        invariant Filled(A, B, c[..], m, o, i, i + I, j, j + M, k + O)
        invariant Filled(A, B, c[..], m, o, i + I, i + I + 1, j, j + J, k + O)
        invariant Untouched(C, c[..], m, i + I, i + I + 1, j + J, j + M)
        invariant Kept(C, c[..], n, m, i, i + I + 1, j, j + M)
      {
        RowInside(i + I, n, k, O, o);
        RowInside(j + J, m, k, O, o);
        var sum := DotRvv(vlmax, a, Pos(i + I, o, k), b, Pos(j + J, o, k), O);
        ghost var before := c[..];
        PosBound(i + I, n, j + J, m);
        var p := Pos(i + I, m, j + J);
        var x := if k == 0 then sum else c[p] + sum;
        EntryGrows(A, B, o, i + I, j + J, k, O);
        AtIs(before, p);
        EntryWritten(A, B, before, m, o, n, i + I, j + J, x);
        c[p] := x;
        assert c[..] == before[p := x];
      }
    }
  }

  lemma AtIs(s: seq<real>, p: nat)
    requires p < |s|
    ensures At(s, p) == s[p]
  {
  }

  method MatmulTiled(vlmax: nat, a: array<real>, b: array<real>, c: array<real>, n: nat, m: nat, o: nat, tile: nat)
    requires vlmax > 0 && c != a && c != b && tile > 0
    requires n * o <= a.Length && m * o <= b.Length && n * m <= c.Length
    modifies c
    ensures o > 0 ==> IsProduct(a[..], b[..], old(c[..]), c[..], n, m, o)
    ensures o == 0 ==> c[..] == old(c[..])
  {
    hide Pos, Dot, At, Entry, Start;
    ghost var A, B, C := a[..], b[..], c[..];
    StartNext(0, tile);
    var i := 0;
    ghost var qi := 0;
    while i < n
      invariant i == Start(qi, tile)
      invariant o == 0 ==> c[..] == C
      invariant o > 0 ==> Filled(A, B, c[..], m, o, 0, Min(i, n), 0, m, o)
      invariant Kept(C, c[..], n, m, 0, Min(i, n), 0, m)
      decreases n - i
    {
      var j := 0;
      ghost var qj := 0;
      while j < m
        invariant j == Start(qj, tile)
        invariant o == 0 ==> c[..] == C
        invariant o > 0 ==> Filled(A, B, c[..], m, o, 0, i, 0, m, o)
        invariant o > 0 ==> Filled(A, B, c[..], m, o, i, Min(i + tile, n), 0, Min(j, m), o)
        invariant Kept(C, c[..], n, m, 0, Min(i + tile, n), 0, m)
        decreases m - j
      {
        var k := 0;
        ghost var qk := 0;
        while k < o
          invariant k == Start(qk, tile)
          invariant o == 0 ==> c[..] == C
          invariant o > 0 ==> Filled(A, B, c[..], m, o, 0, i, 0, m, o)
          invariant o > 0 ==> Filled(A, B, c[..], m, o, i, Min(i + tile, n), 0, j, o)
          invariant k > 0 ==> Filled(A, B, c[..], m, o, i, Min(i + tile, n), j, Min(j + tile, m), Min(k, o))
          invariant Kept(C, c[..], n, m, 0, Min(i + tile, n), 0, m)
          decreases o - k
        {
          MatmulTile(vlmax, a, b, c, i, j, k, n, m, o, tile, qi, qj, qk);
          StartNext(qk, tile);
          k, qk := k + tile, qk + 1;
        }
        StartNext(qj, tile);
        j, qj := j + tile, qj + 1;
      }
      StartNext(qi, tile);
      i, qi := i + tile, qi + 1;
    }
  }

  // ---- tiled against untiled --------------------------------------------------------

  // What a call leaves in C: with no columns to sum over, the tiled form never writes.
  ghost predicate Result(a: seq<real>, b: seq<real>, c: seq<real>, c': seq<real>, n: nat, m: nat, o: nat, tiled: bool) {
    if tiled && o == 0 then c' == c else IsProduct(a, b, c, c', n, m, o)
  }

  // matmul_rvv: a tile size of -1 asks for the untiled form.
  method Matmul(vlmax: nat, a: array<real>, b: array<real>, c: array<real>, n: nat, m: nat, o: nat, tileSize: int)
    requires vlmax > 0 && c != a && c != b && (tileSize == -1 || tileSize > 0)
    requires n * o <= a.Length && m * o <= b.Length && n * m <= c.Length
    modifies c
    ensures Result(a[..], b[..], old(c[..]), c[..], n, m, o, tileSize != -1)
  {
    hide IsProduct;
    if tileSize == -1 {
      MatmulUntiled(vlmax, a, b, c, n, m, o);
    } else {
      MatmulTiled(vlmax, a, b, c, n, m, o, tileSize);
    }
  }

  lemma PositionSplit(p: nat, n: nat, m: nat)
    requires p < n * m
    ensures m > 0 && p / m < n && p % m < m && p == Pos(p / m, m, p % m)
  {
    var r := p / m;
    if r >= n {
      MulMono(n, r, m);
    }
  }

  lemma ProductUnique(a: seq<real>, b: seq<real>, c: seq<real>, c1: seq<real>, c2: seq<real>, n: nat, m: nat, o: nat)
    requires IsProduct(a, b, c, c1, n, m, o) && IsProduct(a, b, c, c2, n, m, o)
    ensures c1 == c2
  {
    hide Pos, Entry, At;
    forall p | 0 <= p < |c| ensures c1[p] == c2[p] {
      AtIs(c1, p);
      AtIs(c2, p);
      if p < n * m {
        PositionSplit(p, n, m);
        assert At(c1, Pos(p / m, m, p % m)) == Entry(a, b, o, p / m, p % m, o);
      }
    }
  }

  ghost predicate ZeroMatrix(c: seq<real>, n: nat, m: nat) {
    forall r, q | 0 <= r < n && 0 <= q < m :: At(c, Pos(r, m, q)) == 0.0
  }

  // The two forms leave the same C exactly when there is a column to sum over or C was
  // already zero.
  lemma TiledAgreesIff(a: seq<real>, b: seq<real>, c: seq<real>, c1: seq<real>, c2: seq<real>, n: nat, m: nat, o: nat)
    requires Result(a, b, c, c1, n, m, o, true) && Result(a, b, c, c2, n, m, o, false)
    ensures c1 == c2 <==> o > 0 || ZeroMatrix(c, n, m)
  {
    if o > 0 {
      ProductUnique(a, b, c, c1, c2, n, m, o);
    } else {
      hide Pos, At;
      forall r: nat, q: nat ensures Entry(a, b, o, r, q, o) == 0.0 {
        EntryGrows(a, b, o, r, q, 0, 0);
      }
      if ZeroMatrix(c, n, m) {
        ProductUnique(a, b, c, c1, c2, n, m, o);
      }
    }
  }
}
