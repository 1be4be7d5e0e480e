// Strip-mined matrix products, over the reals. A vector register is a sequence of VLMAX
// lanes; every strip takes any length the vector specification allows.
module Matlib {
  import opened Arithmetic

  // ---- the vector unit --------------------------------------------------------------

  // The vl that vsetvl may return for a requested length, by section 6.3 of the RISC-V "V"
  // Vector Extension 1.0.
  predicate LegalVl(vlmax: nat, avl: nat, vl: nat) {
    if avl <= vlmax then vl == avl
    else if avl < 2 * vlmax then (avl + 1) / 2 <= vl <= vlmax
    else vl == vlmax
  }

  method VsetVl(vlmax: nat, avl: nat) returns (vl: nat)
    requires vlmax > 0
    ensures LegalVl(vlmax, avl, vl)
    ensures avl <= vlmax ==> vl == avl
    ensures vlmax < avl < 2 * vlmax ==> avl <= 2 * vl && vl <= vlmax
    ensures 2 * vlmax <= avl ==> vl == vlmax
    ensures avl > 0 ==> 0 < vl <= vlmax && vl <= avl
  {
    assert LegalVl(vlmax, avl, if avl <= vlmax then avl else vlmax);
    vl :| LegalVl(vlmax, avl, vl);
  }

  // A load fills the first vl lanes; the others may hold anything.
  method Load(vlmax: nat, a: array<real>, p: nat, vl: nat) returns (v: seq<real>)
    requires vl <= vlmax && p + vl <= a.Length
    ensures |v| == vlmax && forall l | 0 <= l < vl :: v[l] == a[p + l]
  {
    var tail: seq<real> := seq(vlmax - vl, _ => 0.0);
    v := a[p..p + vl] + tail;
  }

  function Product(x: real, y: real): (r: real) { x * y }

  // vfmacc on the first vl lanes. The lanes from vl on are taken to be left undisturbed.
  function MulAdd(s: seq<real>, a: seq<real>, b: seq<real>, vl: nat): (r: seq<real>)
    requires |s| == |a| == |b|
    ensures |r| == |s|
  {
    seq(|s|, l requires 0 <= l < |s| => if l < vl then s[l] + Product(a[l], b[l]) else s[l])
  }

  // vfredusum: the sum of the lanes, in whatever order.
  function LaneSum(s: seq<real>): (r: real) {
    if s == [] then 0.0 else LaneSum(s[..|s| - 1]) + s[|s| - 1]
  }

  // ---- the plain sum ----------------------------------------------------------------

  function At(a: seq<real>, i: int): (r: real) { if 0 <= i < |a| then a[i] else 0.0 }

  // The sum over k < n of a[pa + k] * b[pb + k].
  function Dot(a: seq<real>, pa: nat, b: seq<real>, pb: nat, n: nat): (r: real) {
    if n == 0 then 0.0 else Dot(a, pa, b, pb, n - 1) + Product(At(a, pa + n - 1), At(b, pb + n - 1))
  }

  lemma {:induction false} DotSplit(a: seq<real>, pa: nat, b: seq<real>, pb: nat, n: nat, k: nat)
    ensures Dot(a, pa, b, pb, n + k) == Dot(a, pa, b, pb, n) + Dot(a, pa + n, b, pb + n, k)
  {
    if k > 0 {
      DotSplit(a, pa, b, pb, n, k - 1);
    }
  }

  // Accumulating vl products into the lanes adds them to the sum of the lanes.
  lemma {:induction false} LanesAccumulate(s: seq<real>, va: seq<real>, vb: seq<real>, vl: nat,
                                           a: seq<real>, pa: nat, b: seq<real>, pb: nat)
    requires |s| == |va| == |vb| && vl <= |s|
    requires forall l | 0 <= l < vl :: va[l] == At(a, pa + l) && vb[l] == At(b, pb + l)
    ensures LaneSum(MulAdd(s, va, vb, vl)) == LaneSum(s) + Dot(a, pa, b, pb, vl)
  {
    var r := MulAdd(s, va, vb, vl);
    if s != [] {
      var n := |s| - 1;
      if vl == |s| {
        assert r[..n] == MulAdd(s[..n], va[..n], vb[..n], n);
        LanesAccumulate(s[..n], va[..n], vb[..n], n, a, pa, b, pb);
      } else {
        assert r[..n] == MulAdd(s[..n], va[..n], vb[..n], vl);
        LanesAccumulate(s[..n], va[..n], vb[..n], vl, a, pa, b, pb);
      }
    }
  }

  lemma {:induction false} ZeroLanes(s: seq<real>)
    requires forall l | 0 <= l < |s| :: s[l] == 0.0
    ensures LaneSum(s) == 0.0
  {
    if s != [] {
      ZeroLanes(s[..|s| - 1]);
    }
  }

  // The strip-mined inner product, for any lengths the unit picks.
  method DotRvv(vlmax: nat, a: array<real>, pa: nat, b: array<real>, pb: nat, len: nat) returns (sum: real)
    requires vlmax > 0 && pa + len <= a.Length && pb + len <= b.Length
    ensures sum == Dot(a[..], pa, b[..], pb, len)
  {
    hide Dot, LaneSum, MulAdd;
    var s := seq(vlmax, _ => 0.0);
    ZeroLanes(s);
    EmptyDot(a[..], pa, b[..], pb);
    var k, done := len, 0;
    while k > 0
      invariant k + done == len && |s| == vlmax
      invariant LaneSum(s) == Dot(a[..], pa, b[..], pb, done)
      decreases k
    {
      var vl := VsetVl(vlmax, k);
      var va := Load(vlmax, a, pa + done, vl);
      var vb := Load(vlmax, b, pb + done, vl);
      LanesAccumulate(s, va, vb, vl, a[..], pa + done, b[..], pb + done);
      DotSplit(a[..], pa, b[..], pb, done, vl);
      s := MulAdd(s, va, vb, vl);
      k, done := k - vl, done + vl;
    }
    sum := LaneSum(s);
  }

  lemma EmptyDot(a: seq<real>, pa: nat, b: seq<real>, pb: nat)
    ensures Dot(a, pa, b, pb, 0) == 0.0
  {
  }

  // ---- A[n][o] times B[m][o], the second by rows as well -----------------------------

  // Where `len` elements from column k of row r are.
  lemma RowInside(r: nat, R: nat, k: nat, len: nat, C: nat)
    requires r < R && k + len <= C
    ensures Pos(r, C, k) + len <= R * C
  {
    MulMono(r + 1, R, C);
  }

  // One entry of the product, over the first len elements of the rows.
  function Entry(a: seq<real>, b: seq<real>, o: nat, r: nat, q: nat, len: nat): (x: real) {
    Dot(a, Pos(r, o, 0), b, Pos(q, o, 0), len)
  }

  // The entries of rows rlo to rhi and columns clo to chi are sums of the first len products.
  ghost predicate Filled(a: seq<real>, b: seq<real>, c: seq<real>, m: nat, o: nat,
                         rlo: nat, rhi: nat, clo: nat, chi: nat, len: nat) {
    forall r, q | rlo <= r < rhi && clo <= q < chi :: At(c, Pos(r, m, q)) == Entry(a, b, o, r, q, len)
  }

  // Outside that block the matrix is as it was.
  ghost predicate Kept(c: seq<real>, c': seq<real>, n: nat, m: nat, rlo: nat, rhi: nat, clo: nat, chi: nat) {
    && |c'| == |c|
    && (forall r, q | 0 <= r < n && 0 <= q < m && !(rlo <= r < rhi && clo <= q < chi) ::
          At(c', Pos(r, m, q)) == At(c, Pos(r, m, q)))
    && (forall p | n * m <= p < |c| :: At(c', p) == At(c, p))
  }

  // Every entry is the plain sum, and nothing past the matrix has changed.
  ghost predicate IsProduct(a: seq<real>, b: seq<real>, c: seq<real>, c': seq<real>, n: nat, m: nat, o: nat) {
    Filled(a, b, c', m, o, 0, n, 0, m, o) && Kept(c, c', n, m, 0, n, 0, m)
  }

  // Writing entry (r, q) of a block filled up to it.
  lemma EntryWritten(a: seq<real>, b: seq<real>, c: seq<real>, m: nat, o: nat, n: nat, r: nat, q: nat, x: real)
    requires r < n && q < m && n * m <= |c|
    ensures Pos(r, m, q) < |c|
    ensures var c' := c[Pos(r, m, q) := x];
            && At(c', Pos(r, m, q)) == x
            && Kept(c, c', n, m, r, r + 1, q, q + 1)
  {
    PosBound(r, n, q, m);
    var c' := c[Pos(r, m, q) := x];
    forall r', q' | 0 <= r' < n && 0 <= q' < m && !(r <= r' < r + 1 && q <= q' < q + 1)
      ensures At(c', Pos(r', m, q')) == At(c, Pos(r', m, q'))
    {
      PosInjective(r, q, r', q', m);
    }
  }

  // The untiled product: every entry a strip-mined inner product.
  method MatmulUntiled(vlmax: nat, a: array<real>, b: array<real>, c: array<real>, n: nat, m: nat, o: nat)
    requires vlmax > 0 && c != a && c != b
    requires n * o <= a.Length && m * o <= b.Length && n * m <= c.Length
    modifies c
    ensures IsProduct(a[..], b[..], old(c[..]), c[..], n, m, o)
  {
    hide Pos, Dot, At, Entry;
    ghost var A, B, C := a[..], b[..], c[..];
    for i := 0 to n
      invariant Filled(A, B, c[..], m, o, 0, i, 0, m, o)
      invariant Kept(C, c[..], n, m, 0, i, 0, m)
    {
      for j := 0 to m
        invariant Filled(A, B, c[..], m, o, 0, i, 0, m, o) && Filled(A, B, c[..], m, o, i, i + 1, 0, j, o)
        invariant Kept(C, c[..], n, m, 0, i + 1, 0, m)
      {
        RowInside(i, n, 0, o, o);
        RowInside(j, m, 0, o, o);
        var sum := DotRvv(vlmax, a, Pos(i, o, 0), b, Pos(j, o, 0), o);
        ghost var before := c[..];
        EntryWritten(A, B, before, m, o, n, i, j, sum);
        EntryIs(A, B, o, i, j, o);
        c[Pos(i, m, j)] := sum;
        assert c[..] == before[Pos(i, m, j) := sum];
      }
    }
  }

  lemma EntryIs(a: seq<real>, b: seq<real>, o: nat, r: nat, q: nat, len: nat)
    ensures Entry(a, b, o, r, q, len) == Dot(a, Pos(r, o, 0), b, Pos(q, o, 0), len)
  {
  }
}
