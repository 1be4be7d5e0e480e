// The benchmark's paths: the scalar reference, the software paths B and C around the matrix
// unit, the hardware path A, and the run that compares them.
module ConvPaths {
  import opened Sums
  import opened Arithmetic
  import opened ConvSpec
  import opened Requant
  import opened ConvBench
  import opened ConvWrites

  function AccAt(a: seq<acc>, i: int): (r: acc) {
    if 0 <= i < |a| then a[i] else 0
  }

  // ---- the matrix unit --------------------------------------------------------------

  function Dot(a: seq<elem>, w: seq<elem>, i: int, K: int, j: int, N: int): (f: int -> int) {
    k => At(a, Pos(i, K, k)) as int * At(w, Pos(k, N, j)) as int
  }

  lemma DotBound(a: seq<elem>, w: seq<elem>, i: int, K: int, j: int, N: int, k: int)
    ensures -0x4000 <= Dot(a, w, i, K, j, N)(k) <= 0x4000
  {
    ProductBound(At(a, Pos(i, K, k)) as int, At(w, Pos(k, N, j)) as int);
  }

  // Entries of the product computed so far by two loops that are at (i, j).
  ghost predicate Multiplied(N: nat, K: nat, a: seq<elem>, w: seq<elem>, b: seq<acc>, c: seq<acc>, i: int, j: int)
    requires N <= |b|
  {
    forall i', j' | 0 <= i' && 0 <= j' < N && (i' < i || (i' == i && j' < j)) ::
      AccAt(c, Pos(i', N, j')) as int == b[j'] as int + Sum(K, Dot(a, w, i', K, j', N))
  }

  // A bias and K products of 8-bit numbers stay within 32 bits.
  predicate Bounded(b: acc, K: nat) {
    -0x8000_0000 < b as int - K * 0x4000 && b as int + K * 0x4000 < 0x8000_0000
  }

  lemma PartialFits(b: acc, K: nat, n: nat, f: int -> int)
    requires Bounded(b, K) && n <= K
    requires forall k | 0 <= k < n :: -0x4000 <= f(k) <= 0x4000
    ensures -0x8000_0000 <= b as int + Sum(n, f) < 0x8000_0000
  {
    SumBound(n, f, 0x4000);
  }

  // The contract of tiled_matmul_auto with a repeated bias row: bias + A * W.
  method TiledMatmulAuto(M: nat, N: nat, K: nat, a: array<elem>, w: array<elem>, bias: array<acc>, c: array<acc>)
    requires a.Length >= M * K && w.Length >= K * N && bias.Length >= N && c.Length >= M * N
    requires bias != c
    requires forall j | 0 <= j < N :: Bounded(bias[j], K)
    modifies c
    ensures Multiplied(N, K, a[..], w[..], bias[..], c[..], M, 0)
  {
    hide At, Pos, Sum;
    for i := 0 to M
      invariant Multiplied(N, K, a[..], w[..], bias[..], c[..], i, 0)
    {
      for j := 0 to N
        invariant Multiplied(N, K, a[..], w[..], bias[..], c[..], i, j)
      {
        var s := DotProduct(a, w, bias[j], i, K, j, N, M);
        PosBound(i, M, j, N);
        ghost var before := c[..];
        c[Pos(i, N, j)] := s;
        MultipliedOneMore(N, K, a[..], w[..], bias[..], before, i, j, s);
      }
    }
  }

  lemma MultipliedOneMore(N: nat, K: nat, a: seq<elem>, w: seq<elem>, b: seq<acc>, c: seq<acc>, i: int, j: int, s: acc)
    requires N <= |b| && 0 <= i && 0 <= j < N && 0 <= Pos(i, N, j) < |c|
    requires Multiplied(N, K, a, w, b, c, i, j)
    requires s as int == b[j] as int + Sum(K, Dot(a, w, i, K, j, N))
    ensures Multiplied(N, K, a, w, b, c[Pos(i, N, j) := s], i, j + 1)
  {
    var c' := c[Pos(i, N, j) := s];
    forall i', j' | 0 <= i' && 0 <= j' < N && (i' < i || (i' == i && j' < j + 1))
      ensures AccAt(c', Pos(i', N, j')) as int == b[j'] as int + Sum(K, Dot(a, w, i', K, j', N))
    {
      hide Pos, Sum, Dot;
      PosInjective(i', j', i, j, N);
    }
  }

  method DotProduct(a: array<elem>, w: array<elem>, b: acc, i: nat, K: nat, j: nat, N: nat, ghost M: nat)
    returns (s: acc)
    requires i < M && j < N && a.Length >= M * K && w.Length >= K * N && Bounded(b, K)
    ensures s as int == b as int + Sum(K, Dot(a[..], w[..], i, K, j, N))
  {
    hide Pos;
    s := b;
    ghost var f := Dot(a[..], w[..], i, K, j, N);
    for k := 0 to K
      invariant s as int == b as int + Sum(k, f)
    {
      PosBound(i, M, k, K);
      PosBound(k, K, j, N);
      forall k' | 0 <= k' < k + 1 ensures -0x4000 <= f(k') <= 0x4000 {
        DotBound(a[..], w[..], i, K, j, N, k');
      }
      PartialFits(b, K, k + 1, f);
      s := (s as int + a[Pos(i, K, k)] as int * w[Pos(k, N, j)] as int) as acc;
    }
  }

  // ---- requantisation of accumulator rows -------------------------------------------

  // The output after the rows base .. base+i and, of the next one, the first oc channels have
  // been written over out0; position p of channel o is at Pos(o, T, p).
  ghost predicate Requantized(q: Quant, OC: nat, T: nat, base: int, a: seq<acc>, out0: seq<elem>, out: seq<elem>,
                              i: int, oc: int) {
    forall o, p | 0 <= o < OC && 0 <= p < T ::
      At(out, Pos(o, T, p)) ==
      if base <= p < base + i || (p == base + i && o < oc) then Requantize(q, AccAt(a, Pos(p - base, OC, o)))
      else At(out0, Pos(o, T, p))
  }

  lemma RequantizedOneMore(q: Quant, OC: nat, T: nat, base: nat, a: seq<acc>, out0: seq<elem>, out: seq<elem>,
                           i: nat, oc: nat)
    requires oc < OC && base + i < T && 0 <= Pos(oc, T, base + i) < |out|
    requires Requantized(q, OC, T, base, a, out0, out, i, oc)
    ensures Requantized(q, OC, T, base, a, out0,
                        out[Pos(oc, T, base + i) := Requantize(q, AccAt(a, Pos(i, OC, oc)))], i, oc + 1)
  {
    var at, v := Pos(oc, T, base + i), Requantize(q, AccAt(a, Pos(i, OC, oc)));
    var out' := out[at := v];
    forall o, p | 0 <= o < OC && 0 <= p < T
      ensures At(out', Pos(o, T, p)) ==
              if base <= p < base + i || (p == base + i && o < oc + 1)
              then Requantize(q, AccAt(a, Pos(p - base, OC, o)))
              else At(out0, Pos(o, T, p))
    {
      hide Pos, Requantize, AccAt;
      PosInjective(o, p, oc, base + i, T);
      assert At(out', Pos(o, T, p)) == if Pos(o, T, p) == at then v else At(out, Pos(o, T, p));
    }
  }

  // From element n on nothing has changed.
  ghost predicate SamePast(before: seq<elem>, after: seq<elem>, n: int) {
    |before| == |after| && forall k | 0 <= k < |before| && n <= k :: after[k] == before[k]
  }

  // requant_rows. `log` is the elements written, in order.
  method RequantRows(a: array<acc>, out: array<elem>, base: nat, rows: nat, s: Shape, q: Quant)
    returns (ghost log: seq<int>)
    requires s.Valid() && base + rows <= s.Rows()
    requires a.Length >= rows * s.OC && out.Length >= s.OC * s.Rows()
    modifies out
    ensures Requantized(q, s.OC, s.Rows(), base, a[..], old(out[..]), out[..], rows, 0)
    ensures SamePast(old(out[..]), out[..], s.OC * s.Rows())
    ensures log == RowsLog(s.OC, s.Rows(), base, rows)
  {
    hide Pos, Requantize, AccAt, Shape.OH, Shape.OW, Shape.Rows;
    ghost var T := s.Rows();
    log := [];
    for i := 0 to rows
      invariant log == RowsLog(s.OC, T, base, i)
      invariant Requantized(q, s.OC, T, base, a[..], old(out[..]), out[..], i, 0)
      invariant SamePast(old(out[..]), out[..], s.OC * T)
    {
      var outIdx := base + i;
      RowPosition(s, outIdx);
      var dst0 := outIdx / s.OW() * s.OW() + outIdx % s.OW();
      for oc := 0 to s.OC
        invariant log == RowsLog(s.OC, T, base, i) + RowLog(T, outIdx, oc)
        invariant Requantized(q, s.OC, T, base, a[..], old(out[..]), out[..], i, oc)
        invariant SamePast(old(out[..]), out[..], s.OC * T)
      {
        PosBound(i, rows, oc, s.OC);
        PosBound(oc, s.OC, outIdx, T);
        PlaneOffset(s, oc, outIdx);
        ghost var before := out[..];
        assert a[Pos(i, s.OC, oc)] == AccAt(a[..], Pos(i, s.OC, oc)) by {
          AccAtArray(a, Pos(i, s.OC, oc));
        }
        out[oc * s.OH() * s.OW() + dst0] := Requantize(q, a[Pos(i, s.OC, oc)]);
        log := log + [oc * s.OH() * s.OW() + dst0];
        RequantizedOneMore(q, s.OC, T, base, a[..], old(out[..]), before, i, oc);
        assert out[..] == before[Pos(oc, T, outIdx) := Requantize(q, AccAt(a[..], Pos(i, s.OC, oc)))];
      }
    }
  }

  lemma AccAtArray(a: array<acc>, i: nat)
    requires i < a.Length
    ensures AccAt(a[..], i) == a[i]
  {
  }

  lemma RowPosition(s: Shape, r: nat)
    requires s.Valid() && r < s.Rows()
    ensures s.OW() > 0 && r / s.OW() * s.OW() + r % s.OW() == r
    ensures 0 <= r / s.OW() < s.OH() && 0 <= r % s.OW() < s.OW()
  {
    hide Shape.OH, Shape.OW;
    var oh, ow := s.OH(), s.OW();
    if ow != 0 {
      var d := r / ow;
      assert r == d * ow + r % ow;
      if d >= oh {
        MulMono(oh, d, ow);
      }
    }
  }

  // Where an output row starts in a channel's plane, as requant_rows addresses it.
  lemma PlaneOffset(s: Shape, oc: int, r: nat)
    requires s.Valid() && r < s.Rows()
    ensures s.OW() > 0
    ensures oc * s.OH() * s.OW() + (r / s.OW() * s.OW() + r % s.OW()) == Pos(oc, s.Rows(), r)
  {
    hide Shape.OH, Shape.OW;
    RowPosition(s, r);
    assert oc * s.OH() * s.OW() == oc * (s.OH() * s.OW());
  }

  // ---- what every path should produce -----------------------------------------------

  ghost predicate Ready(cv: Conv) {
    cv.Valid() && forall oc | 0 <= oc < cv.s.OC :: Bounded(cv.b[oc], cv.s.K())
  }

  lemma ReadyIsValid(cv: Conv)
    requires Ready(cv)
    ensures cv.Valid() && cv.s.Valid()
  {
  }

  lemma LineSumBound(cv: Conv, oc: int, oh: int, ow: int, ic: int, kh: int)
    requires cv.Valid()
    ensures -(cv.s.KW * 0x4000) <= Sum(cv.s.KW, Row(cv.Taps(oc, oh, ow, ic), kh)) <= cv.s.KW * 0x4000
  {
    hide Conv.Term;
    var f := Row(cv.Taps(oc, oh, ow, ic), kh);
    forall kw | 0 <= kw < cv.s.KW ensures -0x4000 <= f(kw) <= 0x4000 {
      cv.TermBound(oc, oh, ow, ic, kh, kw);
    }
    SumBound(cv.s.KW, f, 0x4000);
  }

  // The direct sum of any n leading products is bounded by n products.
  lemma DirectPartBound(cv: Conv, oc: int, oh: int, ow: int, ic: nat, kh: nat, kw: nat)
    requires cv.Valid() && kh <= cv.s.KH && kw <= cv.s.KW
    ensures var part := Sum(ic, cv.Planes(oc, oh, ow)) + Sum(kh, RowSums(cv.s.KW, cv.Taps(oc, oh, ow, ic)))
                        + Sum(kw, Row(cv.Taps(oc, oh, ow, ic), kh));
            var n := Ix(ic, cv.s.KH, kh, cv.s.KW, kw);
            -(n * 0x4000) <= part <= n * 0x4000
  {
    hide Conv.Term, Conv.Valid, Sum;
    var KH, KW := cv.s.KH, cv.s.KW;
    PlanesBound(cv, oc, oh, ow, ic);
    LinesBound(cv, oc, oh, ow, ic, kh);
    var f := Row(cv.Taps(oc, oh, ow, ic), kh);
    forall j | 0 <= j < kw ensures -0x4000 <= f(j) <= 0x4000 {
      cv.TermBound(oc, oh, ow, ic, kh, j);
    }
    SumBound(kw, f, 0x4000);
    assert Ix(ic, KH, kh, KW, kw) == ic * KH * KW + kh * KW + kw;
    assert ic * (KH * KW) == ic * KH * KW;
  }

  lemma LinesBound(cv: Conv, oc: int, oh: int, ow: int, ic: int, kh: nat)
    requires cv.Valid()
    ensures -(kh * cv.s.KW * 0x4000) <= Sum(kh, RowSums(cv.s.KW, cv.Taps(oc, oh, ow, ic))) <= kh * cv.s.KW * 0x4000
  {
    hide Conv.Term, Conv.Valid, Conv.Taps;
    var g := RowSums(cv.s.KW, cv.Taps(oc, oh, ow, ic));
    forall i | 0 <= i < kh ensures -(cv.s.KW * 0x4000) <= g(i) <= cv.s.KW * 0x4000 {
      LineSumBound(cv, oc, oh, ow, ic, i);
    }
    SumBound(kh, g, cv.s.KW * 0x4000);
    assert kh * (cv.s.KW * 0x4000) == kh * cv.s.KW * 0x4000;
  }

  lemma PlanesBound(cv: Conv, oc: int, oh: int, ow: int, ic: nat)
    requires cv.Valid()
    ensures -(ic * (cv.s.KH * cv.s.KW) * 0x4000) <= Sum(ic, cv.Planes(oc, oh, ow)) <= ic * (cv.s.KH * cv.s.KW) * 0x4000
  {
    hide Conv.Term, Conv.Valid, Conv.Taps;
    var g, N := cv.Planes(oc, oh, ow), cv.s.KH * cv.s.KW;
    forall i | 0 <= i < ic ensures -(N * 0x4000) <= g(i) <= N * 0x4000 {
      LinesBound(cv, oc, oh, ow, i, cv.s.KH);
    }
    SumBound(ic, g, N * 0x4000);
    assert ic * (N * 0x4000) == ic * N * 0x4000;
  }

  lemma DirectFits(cv: Conv, oc: int, oh: int, ow: int)
    requires Ready(cv) && 0 <= oc < cv.s.OC
    ensures -0x8000_0000 <= cv.Direct(oc, oh, ow) < 0x8000_0000
  {
    hide Sum;
    PlanesBound(cv, oc, oh, ow, cv.s.IC);
    assert cv.s.IC * (cv.s.KH * cv.s.KW) == cv.s.K();
  }

  // The exact accumulator of output channel oc at output position r.
  function Exact(cv: Conv, oc: int, r: nat): (v: acc)
    requires Ready(cv) && 0 <= oc < cv.s.OC && cv.s.OW() > 0
  {
    DirectFits(cv, oc, r / cv.s.OW(), r % cv.s.OW());
    cv.Direct(oc, r / cv.s.OW(), r % cv.s.OW()) as acc
  }

  // The first n positions of every output channel are the requantised convolution.
  ghost predicate OutputUpTo(cv: Conv, q: Quant, out: seq<elem>, n: int)
    requires Ready(cv)
  {
    forall oc, r | 0 <= oc < cv.s.OC && 0 <= r < cv.s.Rows() && r < n ::
      cv.s.OW() > 0 && At(out, Pos(oc, cv.s.Rows(), r)) == Requantize(q, Exact(cv, oc, r))
  }

  ghost predicate IsOutput(cv: Conv, q: Quant, out: seq<elem>)
    requires Ready(cv)
  {
    OutputUpTo(cv, q, out, cv.s.Rows())
  }

  // The same of the windows themselves, whatever their numbers: the element of channel oc at
  // window (oh, ow).
  ghost predicate OnWindows(cv: Conv, q: Quant, out: seq<elem>)
    requires Ready(cv)
  {
    cv.s.KH <= cv.s.IH + 2 * cv.s.PH && cv.s.KW <= cv.s.IW + 2 * cv.s.PW ==>
      forall NH: nat, NW: nat |
        && CountsWindows(cv.s.IH + 2 * cv.s.PH, cv.s.KH, cv.s.SH, NH)
        && CountsWindows(cv.s.IW + 2 * cv.s.PW, cv.s.KW, cv.s.SW, NW) :: OnGrid(cv, q, out, NH, NW)
  }

  ghost predicate OnGrid(cv: Conv, q: Quant, out: seq<elem>, NH: nat, NW: nat)
    requires Ready(cv)
  {
    forall oc, oh, ow | 0 <= oc < cv.s.OC && 0 <= oh < NH && 0 <= ow < NW ::
      At(out, (oc * NH + oh) * NW + ow) == Requantize(q, DirectAcc(cv, oc, oh, ow))
  }

  function DirectAcc(cv: Conv, oc: int, oh: int, ow: int): (v: acc)
    requires Ready(cv) && 0 <= oc < cv.s.OC
  {
    DirectFits(cv, oc, oh, ow);
    cv.Direct(oc, oh, ow) as acc
  }

  lemma OutputOnGrid(cv: Conv, q: Quant, out: seq<elem>, NH: nat, NW: nat)
    requires Ready(cv) && IsOutput(cv, q, out)
    requires cv.s.KH <= cv.s.IH + 2 * cv.s.PH && cv.s.KW <= cv.s.IW + 2 * cv.s.PW
    requires CountsWindows(cv.s.IH + 2 * cv.s.PH, cv.s.KH, cv.s.SH, NH)
    requires CountsWindows(cv.s.IW + 2 * cv.s.PW, cv.s.KW, cv.s.SW, NW)
    ensures OnGrid(cv, q, out, NH, NW)
  {
    var s := cv.s;
    hide Requantize, Exact, Shape.OH, Shape.OW, Ready, CountsWindows, Conv.Direct;
    ReadyIsValid(cv);
    ExtentsCountWindows(s);
    SameCount(s.IH + 2 * s.PH, s.KH, s.SH, NH, s.OH());
    SameCount(s.IW + 2 * s.PW, s.KW, s.SW, NW, s.OW());
    forall oc, oh, ow | 0 <= oc < s.OC && 0 <= oh < NH && 0 <= ow < NW
      ensures At(out, (oc * NH + oh) * NW + ow) == Requantize(q, DirectAcc(cv, oc, oh, ow))
    {
      OutIndex(s, oc, oh, ow);
      assert At(out, Pos(oc, s.Rows(), oh * NW + ow)) == Requantize(q, Exact(cv, oc, oh * NW + ow));
      ExactIs(cv, oc, oh * NW + ow, DirectAcc(cv, oc, oh, ow));
    }
  }

  lemma OutputOnWindows(cv: Conv, q: Quant, out: seq<elem>)
    requires Ready(cv) && IsOutput(cv, q, out)
    ensures OnWindows(cv, q, out)
  {
    var s := cv.s;
    if s.KH <= s.IH + 2 * s.PH && s.KW <= s.IW + 2 * s.PW {
      forall NH: nat, NW: nat |
        && CountsWindows(s.IH + 2 * s.PH, s.KH, s.SH, NH)
        && CountsWindows(s.IW + 2 * s.PW, s.KW, s.SW, NW)
        ensures OnGrid(cv, q, out, NH, NW)
      {
        OutputOnGrid(cv, q, out, NH, NW);
      }
    }
  }

  // ---- the scalar reference ---------------------------------------------------------

  ghost predicate Holds(cv: Conv, input: array<elem>, weight: array<elem>, bias: array<acc>)
    reads input, weight, bias
  {
    cv.x == input[..] && cv.w == weight[..] && cv.b == bias[..]
  }

  lemma TermIndices(s: Shape, kh: int, kw: int, ic: int, oc: int)
    requires 0 <= kh < s.KH && 0 <= kw < s.KW && 0 <= ic < s.IC && 0 <= oc < s.OC
    ensures 0 <= Ix(kh, s.KW, kw, s.IC, ic) * s.OC + oc < s.KH * s.KW * s.IC * s.OC
  {
    IxBound(kh, s.KH, kw, s.KW, ic, s.IC);
    PairBound(Ix(kh, s.KW, kw, s.IC, ic), s.KH * s.KW * s.IC, oc, s.OC);
  }

  // One product, read from the reference's own layouts.
  method Product(input: array<elem>, weight: array<elem>, bias: array<acc>, ghost cv: Conv, s: Shape,
                 oc: nat, oh: nat, ow: nat, ic: nat, kh: nat, kw: nat) returns (p: int)
    requires cv.Valid() && cv.s == s && Holds(cv, input, weight, bias)
    requires oc < s.OC && ic < s.IC && kh < s.KH && kw < s.KW
    ensures p == cv.Term(oc, oh, ow, ic, kh, kw)
  {
    var ih, iw := oh * s.SH - s.PH + kh, ow * s.SW - s.PW + kw;
    var v: elem := 0;
    if !(ih < 0 || ih >= s.IH || iw < 0 || iw >= s.IW) {
      IxBound(ic, s.IC, ih, s.IH, iw, s.IW);
      v := input[Ix(ic, s.IH, ih, s.IW, iw)];
    }
    assert v as int == cv.Pixel(ic, ih, iw);
    TermIndices(s, kh, kw, ic, oc);
    var w := weight[Ix(kh, s.KW, kw, s.IC, ic) * s.OC + oc];
    assert w as int == cv.Weight(kh, kw, ic, oc);
    hide Conv.Pixel, Conv.Weight, Ix;
    p := v as int * w as int;
  }

  lemma PartFits(cv: Conv, oc: nat, oh: nat, ow: nat, ic: nat, kh: nat, kw: nat)
    requires Ready(cv) && oc < cv.s.OC && ic < cv.s.IC && kh < cv.s.KH && kw <= cv.s.KW
    ensures var part := cv.b[oc] as int + Sum(ic, cv.Planes(oc, oh, ow))
                        + Sum(kh, RowSums(cv.s.KW, cv.Taps(oc, oh, ow, ic)))
                        + Sum(kw, Row(cv.Taps(oc, oh, ow, ic), kh));
            -0x8000_0000 <= part < 0x8000_0000
  {
    hide Conv.Taps, Conv.Planes, Sum, Ix;
    DirectPartBound(cv, oc, oh, ow, ic, kh, kw);
    IxAtMost(ic, cv.s.IC, kh, cv.s.KH, kw, cv.s.KW);
  }

  lemma IxAtMost(a: int, A: int, b: int, B: int, c: int, C: int)
    requires 0 <= a < A && 0 <= b < B && 0 <= c <= C
    ensures Ix(a, B, b, C, c) <= A * B * C
  {
    PairBound(a, A, b, B);
    MulMono(a * B + b + 1, A * B, C);
  }

  // The five inner lines of the reference: a 32-bit accumulator that never overflows.
  method Accumulate(input: array<elem>, weight: array<elem>, bias: array<acc>, ghost cv: Conv, s: Shape,
                    oc: nat, oh: nat, ow: nat) returns (a: acc)
    requires Ready(cv) && cv.s == s && Holds(cv, input, weight, bias) && oc < s.OC
    ensures a as int == cv.Direct(oc, oh, ow)
  {
    hide Conv.Term, Conv.Taps, Conv.Planes, Conv.Valid, Ready, Row, RowSums, Sum;
    ReadyIsValid(cv);
    ghost var planes := cv.Planes(oc, oh, ow);
    SumNext(0, planes);
    a := bias[oc];
    for ic := 0 to s.IC
      invariant a as int == cv.b[oc] as int + Sum(ic, planes)
    {
      ghost var lines := RowSums(s.KW, cv.Taps(oc, oh, ow, ic));
      SumNext(0, lines);
      for kh := 0 to s.KH
        invariant a as int == cv.b[oc] as int + Sum(ic, planes) + Sum(kh, lines)
      {
        ghost var taps := Row(cv.Taps(oc, oh, ow, ic), kh);
        SumNext(0, taps);
        for kw := 0 to s.KW
          invariant a as int == cv.b[oc] as int + Sum(ic, planes) + Sum(kh, lines) + Sum(kw, taps)
        {
          var p := Product(input, weight, bias, cv, s, oc, oh, ow, ic, kh, kw);
          RowAt(cv, oc, oh, ow, ic, kh, kw);
          PartFits(cv, oc, oh, ow, ic, kh, kw + 1);
          SumNext(kw, taps);
          a := (a as int + p) as acc;
        }
        LineAt(s.KW, cv.Taps(oc, oh, ow, ic), kh);
        SumNext(kh, lines);
      }
      PlaneAt(cv, oc, oh, ow, ic);
      SumNext(ic, planes);
    }
  }

  lemma RowAt(cv: Conv, oc: int, oh: int, ow: int, ic: int, kh: int, kw: int)
    requires cv.Valid()
    ensures Row(cv.Taps(oc, oh, ow, ic), kh)(kw) == cv.Term(oc, oh, ow, ic, kh, kw)
  {
    hide Conv.Term;
  }

  lemma PlaneAt(cv: Conv, oc: int, oh: int, ow: int, ic: int)
    requires cv.Valid()
    ensures cv.Planes(oc, oh, ow)(ic) == Sum(cv.s.KH, RowSums(cv.s.KW, cv.Taps(oc, oh, ow, ic)))
  {
  }

  lemma LineAt(KW: nat, g: (int, int) -> int, kh: int)
    ensures RowSums(KW, g)(kh) == Sum(KW, Row(g, kh))
  {
  }

  // Positions of the reference output done so far by loops that are at channel oc, position r.
  ghost predicate Referenced(cv: Conv, q: Quant, out: seq<elem>, oc: int, r: int)
    requires Ready(cv)
  {
    forall o, p | 0 <= o < cv.s.OC && 0 <= p < cv.s.Rows() && (o < oc || (o == oc && p < r)) ::
      cv.s.OW() > 0 && At(out, Pos(o, cv.s.Rows(), p)) == Requantize(q, Exact(cv, o, p))
  }

  lemma ReferencedOneMore(cv: Conv, q: Quant, out: seq<elem>, oc: nat, r: nat, v: elem)
    requires Ready(cv) && oc < cv.s.OC && r < cv.s.Rows() && cv.s.OW() > 0
    requires 0 <= Pos(oc, cv.s.Rows(), r) < |out|
    requires Referenced(cv, q, out, oc, r) && v == Requantize(q, Exact(cv, oc, r))
    ensures Referenced(cv, q, out[Pos(oc, cv.s.Rows(), r) := v], oc, r + 1)
  {
    var T := cv.s.Rows();
    var out' := out[Pos(oc, T, r) := v];
    forall o, p | 0 <= o < cv.s.OC && 0 <= p < T && (o < oc || (o == oc && p < r + 1))
      ensures At(out', Pos(o, T, p)) == Requantize(q, Exact(cv, o, p))
    {
      hide Pos, Requantize, Exact, Ready;
      PosInjective(o, p, oc, r, T);
      assert At(out', Pos(o, T, p)) == if Pos(o, T, p) == Pos(oc, T, r) then v else At(out, Pos(o, T, p));
    }
  }

  lemma OutIndex(s: Shape, oc: nat, oh: nat, ow: nat)
    requires s.Valid() && oc < s.OC && oh < s.OH() && ow < s.OW()
    ensures Ix(oc, s.OH(), oh, s.OW(), ow) == Pos(oc, s.Rows(), oh * s.OW() + ow)
    ensures 0 <= oh * s.OW() + ow < s.Rows()
    ensures (oh * s.OW() + ow) / s.OW() == oh && (oh * s.OW() + ow) % s.OW() == ow
  {
    hide Shape.OH, Shape.OW;
    PairBound(oh, s.OH(), ow, s.OW());
    PairDivMod(oh, ow, s.OW());
    IxIsPos(oc, s.OH(), oh, s.OW(), ow);
  }

  lemma IxIsPos(a: int, B: int, b: int, C: int, c: int)
    ensures Ix(a, B, b, C, c) == Pos(a, B * C, b * C + c)
  {
    assert (a * B + b) * C == a * (B * C) + b * C;
  }

  // golden
  method Golden(input: array<elem>, weight: array<elem>, bias: array<acc>, out: array<elem>, ghost cv: Conv,
                s: Shape, q: Quant)
    requires Ready(cv) && cv.s == s && Holds(cv, input, weight, bias)
    requires out.Length >= s.OC * s.Rows() && out != input && out != weight
    modifies out
    ensures IsOutput(cv, q, out[..]) && OnWindows(cv, q, out[..])
    ensures SamePast(old(out[..]), out[..], s.OC * s.Rows())
  {
    hide Ix, Pos, Requantize, Exact, Ready, Shape.OH, Shape.OW, Shape.Rows, Conv.Direct, OnWindows;
    ReadyIsValid(cv);
    for oc := 0 to s.OC
      invariant Referenced(cv, q, out[..], oc, 0)
      invariant SamePast(old(out[..]), out[..], s.OC * s.Rows())
    {
      for oh := 0 to s.OH()
        invariant Referenced(cv, q, out[..], oc, oh * s.OW())
        invariant SamePast(old(out[..]), out[..], s.OC * s.Rows())
      {
        for ow := 0 to s.OW()
          invariant Referenced(cv, q, out[..], oc, oh * s.OW() + ow)
          invariant SamePast(old(out[..]), out[..], s.OC * s.Rows())
        {
          var a := Accumulate(input, weight, bias, cv, s, oc, oh, ow);
          OutIndex(s, oc, oh, ow);
          PosBound(oc, s.OC, oh * s.OW() + ow, s.Rows());
          ExactIs(cv, oc, oh * s.OW() + ow, a);
          ghost var before := out[..];
          out[Ix(oc, s.OH(), oh, s.OW(), ow)] := Requantize(q, a);
          ReferencedOneMore(cv, q, before, oc, oh * s.OW() + ow, Requantize(q, a));
        }
        assert (oh + 1) * s.OW() == oh * s.OW() + s.OW();
      }
      ChannelDone(cv, q, out[..], oc);
    }
    AllChannelsDone(cv, q, out[..]);
    OutputOnWindows(cv, q, out[..]);
  }

  lemma ExactIs(cv: Conv, oc: nat, r: nat, a: acc)
    requires Ready(cv) && oc < cv.s.OC && cv.s.OW() > 0
    requires a as int == cv.Direct(oc, r / cv.s.OW(), r % cv.s.OW())
    ensures Exact(cv, oc, r) == a
  {
  }

  lemma ChannelDone(cv: Conv, q: Quant, out: seq<elem>, oc: nat)
    requires Ready(cv) && Referenced(cv, q, out, oc, cv.s.OH() * cv.s.OW())
    ensures Referenced(cv, q, out, oc + 1, 0)
  {
    ReadyIsValid(cv);
    hide Requantize, Exact, Pos, Ready, Shape.OH, Shape.OW;
    forall o, p | 0 <= o < cv.s.OC && 0 <= p < cv.s.Rows() && o < oc + 1
      ensures cv.s.OW() > 0 && At(out, Pos(o, cv.s.Rows(), p)) == Requantize(q, Exact(cv, o, p))
    {
      assert p < cv.s.OH() * cv.s.OW();
    }
  }

  lemma AllChannelsDone(cv: Conv, q: Quant, out: seq<elem>)
    requires Ready(cv) && Referenced(cv, q, out, cv.s.OC, 0)
    ensures IsOutput(cv, q, out)
  {
    hide Requantize, Exact, Pos, Ready;
  }

  // ---- the software paths -----------------------------------------------------------

  // The products of one im2col row against one weight column are the terms of the direct sum.
  lemma RowTerms(cv: Conv, n: seq<elem>, im: seq<elem>, i: nat, r: nat, oc: nat, kh: nat, kw: nat, ic: nat)
    requires cv.Valid() && cv.s.OW() > 0 && oc < cv.s.OC && kh < cv.s.KH && kw < cv.s.KW && ic < cv.s.IC
    requires IsChannelLast(cv.s, cv.x, n)
    requires 0 <= i * cv.s.K() && (i + 1) * cv.s.K() <= |im|
    requires i * cv.s.K() <= (i + 1) * cv.s.K()
    requires IsIm2colRow(cv.s, n, r, im[i * cv.s.K()..(i + 1) * cv.s.K()])
    ensures Dot(im, cv.w, i, cv.s.K(), oc, cv.s.OC)(Tap(cv.s, kh, kw, ic)) ==
            cv.Term(oc, r / cv.s.OW(), r % cv.s.OW(), ic, kh, kw)
  {
    ShapeIsValid(cv);
    hide Ix, Conv.Valid, Shape.K, Shape.OW, Padded, Conv.Pixel, Conv.Weight;
    var s := cv.s;
    var K, t := s.K(), Tap(s, kh, kw, ic);
    var oh, ow := r / s.OW(), r % s.OW();
    var ih, iw := oh * s.SH - s.PH + kh, ow * s.SW - s.PW + kw;
    TapBound(s, kh, kw, ic);
    var row := im[i * K..(i + 1) * K];
    assert LineDone(s, n, oh * s.SH - s.PH, ow * s.SW - s.PW, row, kh);
    assert At(row, t) == Padded(s, n, ih, iw, ic);
    SliceAt(im, i, K, t);
    PaddedIsPixel(cv, n, ic, ih, iw);
    WeightAt(cv, kh, kw, ic, oc);
  }

  lemma ShapeIsValid(cv: Conv)
    requires cv.Valid()
    ensures cv.s.Valid()
  {
  }

  lemma SliceAt(im: seq<elem>, i: int, K: int, t: int)
    requires 0 <= t < K && 0 <= i * K <= (i + 1) * K <= |im|
    ensures At(im, Pos(i, K, t)) == At(im[i * K..(i + 1) * K], t)
  {
    assert (i + 1) * K == i * K + K;
  }

  lemma PaddedIsPixel(cv: Conv, n: seq<elem>, ic: nat, ih: int, iw: int)
    requires cv.Valid() && ic < cv.s.IC && IsChannelLast(cv.s, cv.x, n)
    ensures Padded(cv.s, n, ih, iw, ic) as int == cv.Pixel(ic, ih, iw)
  {
    hide Ix;
    if 0 <= ih < cv.s.IH && 0 <= iw < cv.s.IW {
      IxBound(ic, cv.s.IC, ih, cv.s.IH, iw, cv.s.IW);
    }
  }

  lemma WeightAt(cv: Conv, kh: int, kw: int, ic: int, oc: int)
    requires cv.Valid() && 0 <= kh < cv.s.KH && 0 <= kw < cv.s.KW && 0 <= ic < cv.s.IC && 0 <= oc < cv.s.OC
    ensures At(cv.w, Pos(Tap(cv.s, kh, kw, ic), cv.s.OC, oc)) as int == cv.Weight(kh, kw, ic, oc)
  {
    TermIndices(cv.s, kh, kw, ic, oc);
  }

  // So a product row is the row of exact accumulators.
  lemma ProductRowExact(cv: Conv, n: seq<elem>, im: seq<elem>, c: seq<acc>, M: nat, i: nat, r: nat, oc: nat)
    requires Ready(cv) && cv.s.OW() > 0 && oc < cv.s.OC && i < M
    requires IsChannelLast(cv.s, cv.x, n)
    requires 0 <= i * cv.s.K() <= (i + 1) * cv.s.K() <= |im|
    requires IsIm2colRow(cv.s, n, r, im[i * cv.s.K()..(i + 1) * cv.s.K()])
    requires Multiplied(cv.s.OC, cv.s.K(), im, cv.w, cv.b, c, M, 0)
    ensures AccAt(c, Pos(i, cv.s.OC, oc)) == Exact(cv, oc, r)
  {
    hide Tap, Conv.Term, Conv.Direct, Dot, IsIm2colRow, IsChannelLast, AccAt, Pos, Shape.OW, Shape.K;
    var f := Dot(im, cv.w, i, cv.s.K(), oc, cv.s.OC);
    var oh, ow := r / cv.s.OW(), r % cv.s.OW();
    forall kh, kw, ic | 0 <= kh < cv.s.KH && 0 <= kw < cv.s.KW && 0 <= ic < cv.s.IC
      ensures f(Tap(cv.s, kh, kw, ic)) == cv.Term(oc, oh, ow, ic, kh, kw)
    {
      RowTerms(cv, n, im, i, r, oc, kh, kw, ic);
    }
    SumOfTaps(cv, oc, oh, ow, f);
    ExactIs(cv, oc, r, AccAt(c, Pos(i, cv.s.OC, oc)));
  }

  // Row i of the workspace is the im2col row of position base + i.
  ghost predicate RowGathered(s: Shape, n: seq<elem>, im: seq<elem>, base: nat, i: nat)
    requires s.Valid()
  {
    s.OW() > 0 && 0 <= i * s.K() <= (i + 1) * s.K() <= |im| &&
    IsIm2colRow(s, n, base + i, im[i * s.K()..(i + 1) * s.K()])
  }

  ghost predicate RowsGathered(s: Shape, n: seq<elem>, im: seq<elem>, base: nat, m: nat)
    requires s.Valid()
  {
    forall i | 0 <= i < m :: RowGathered(s, n, im, base, i)
  }

  // Rows that later writes do not touch stay gathered.
  lemma GatheredKept(s: Shape, n: seq<elem>, im: seq<elem>, im': seq<elem>, base: nat, m: nat)
    requires s.Valid() && RowsGathered(s, n, im, base, m) && |im| == |im'| && m * s.K() <= |im|
    requires forall j | 0 <= j < m * s.K() :: im'[j] == im[j]
    ensures RowsGathered(s, n, im', base, m)
  {
    hide IsIm2colRow, Shape.K, Shape.OW;
    forall i | 0 <= i < m
      ensures RowGathered(s, n, im', base, i)
    {
      assert RowGathered(s, n, im, base, i);
      MulMono(i + 1, m, s.K());
      assert im'[i * s.K()..(i + 1) * s.K()] == im[i * s.K()..(i + 1) * s.K()];
    }
  }

  // The gather loop shared by both paths: `rows` rows, for positions base .. base+rows.
  method Gather(im: array<elem>, wsInput: array<elem>, s: Shape, base: nat, rows: nat)
    requires s.Valid() && s.OW() > 0 && im != wsInput
    requires rows * s.K() <= im.Length && wsInput.Length >= s.IC * s.IH * s.IW
    modifies im
    ensures RowsGathered(s, wsInput[..], im[..], base, rows)
  {
    hide IsIm2colRow, Shape.K, Shape.OW;
    MulMono(0, rows, s.K());
    for r := 0 to rows
      invariant RowsGathered(s, wsInput[..], im[..], base, r)
    {
      MulMono(0, r, s.K());
      MulMono(r + 1, rows, s.K());
      assert (r + 1) * s.K() == r * s.K() + s.K();
      ghost var before := im[..];
      Im2colRow(im, r * s.K(), base + r, wsInput, s);
      GatheredKept(s, wsInput[..], before, im[..], base, r);
    }
  }

  // Requantised rows of exact accumulators extend the finished part of the output.
  lemma TileDone(cv: Conv, q: Quant, n: seq<elem>, im: seq<elem>, c: seq<acc>, M: nat,
                 out0: seq<elem>, out: seq<elem>, base: nat, rows: nat)
    requires Ready(cv) && cv.s.OW() > 0 && rows <= M && IsChannelLast(cv.s, cv.x, n)
    requires RowsGathered(cv.s, n, im, base, rows)
    requires Multiplied(cv.s.OC, cv.s.K(), im, cv.w, cv.b, c, M, 0)
    requires Requantized(q, cv.s.OC, cv.s.Rows(), base, c, out0, out, rows, 0)
    requires OutputUpTo(cv, q, out0, base)
    ensures OutputUpTo(cv, q, out, base + rows)
  {
    hide Pos, AccAt, Requantize, Exact, IsIm2colRow, IsChannelLast, Multiplied, Ready, Shape.K, Shape.OW, Shape.Rows;
    ReadyIsValid(cv);
    forall oc, r | 0 <= oc < cv.s.OC && 0 <= r < cv.s.Rows() && r < base + rows
      ensures At(out, Pos(oc, cv.s.Rows(), r)) == Requantize(q, Exact(cv, oc, r))
    {
      if r >= base {
        var i := r - base;
        assert RowGathered(cv.s, n, im, base, i);
        ProductRowExact(cv, n, im, c, M, i, r, oc);
      }
    }
  }

  ghost predicate Sized(s: Shape, input: array<elem>, weight: array<elem>, bias: array<acc>,
                        wsInput: array<elem>, out: array<elem>)
    requires s.Valid()
  {
    && wsInput.Length >= s.IC * s.IH * s.IW && out.Length >= s.OC * s.Rows()
    && wsInput != input && wsInput != weight && out != input && out != weight && out != wsInput
  }

  lemma WeightForms(s: Shape)
    ensures s.K() * s.OC == s.KH * s.KW * s.IC * s.OC
  {
    KForms(s);
  }

  // Path C: gather every row once, one product, requantise.
  method PathC(input: array<elem>, weight: array<elem>, bias: array<acc>, ghost cv: Conv, s: Shape, q: Quant,
               wsInput: array<elem>, im: array<elem>, wsAcc: array<acc>, out: array<elem>)
    returns (ghost log: seq<int>)
    requires Ready(cv) && cv.s == s && Holds(cv, input, weight, bias)
    requires Sized(s, input, weight, bias, wsInput, out)
    requires im.Length >= s.Rows() * s.K() && wsAcc.Length >= s.Rows() * s.OC
    requires im != input && im != weight && im != wsInput && im != out && wsAcc != bias
    modifies wsInput, im, wsAcc, out
    ensures IsOutput(cv, q, out[..]) && OnWindows(cv, q, out[..])
    ensures SamePast(old(out[..]), out[..], s.OC * s.Rows())
    ensures WrittenOnce(log, s.OC, s.Rows())
  {
    hide Pos, AccAt, Requantize, Exact, IsIm2colRow, IsChannelLast, Multiplied, Requantized, Shape.K, Shape.OW,
         Shape.Rows, RowsLog, OnWindows;
    ReadyIsValid(cv);
    Transpose(input, wsInput, s);
    ghost var n := wsInput[..];
    var total := s.Rows();
    AllWrittenOnce(s.OC, total);
    log := [];
    if s.OW() == 0 {
      NoRows(s);
      OutputOnWindows(cv, q, out[..]);
      return;
    }
    Gather(im, wsInput, s, 0, total);
    WeightForms(s);
    TiledMatmulAuto(total, s.OC, s.K(), im, weight, bias, wsAcc);
    ghost var out0 := out[..];
    log := RequantRows(wsAcc, out, 0, total, s, q);
    TileDone(cv, q, n, im[..], wsAcc[..], total, out0, out[..], 0, total);
    OutputOnWindows(cv, q, out[..]);
  }

  lemma NoRows(s: Shape)
    requires s.Valid() && s.OW() == 0
    ensures s.Rows() == 0
  {
  }

  // Path B: the same in tiles of DIM rows that reuse one workspace; the rows of the last tile
  // past the end of the output are zero-filled, multiplied and never written out.
  method PathB(input: array<elem>, weight: array<elem>, bias: array<acc>, ghost cv: Conv, s: Shape, q: Quant, DIM: nat,
               wsInput: array<elem>, im: array<elem>, wsAcc: array<acc>, out: array<elem>)
    returns (ghost log: seq<int>)
    requires Ready(cv) && cv.s == s && Holds(cv, input, weight, bias) && DIM >= 1
    requires Sized(s, input, weight, bias, wsInput, out)
    requires im.Length >= DIM * s.K() && wsAcc.Length >= DIM * s.OC
    requires im != input && im != weight && im != wsInput && im != out && wsAcc != bias
    modifies wsInput, im, wsAcc, out
    ensures IsOutput(cv, q, out[..]) && OnWindows(cv, q, out[..])
    ensures SamePast(old(out[..]), out[..], s.OC * s.Rows())
    ensures WrittenOnce(log, s.OC, s.Rows())
  {
    hide Pos, AccAt, Requantize, Exact, IsIm2colRow, IsChannelLast, Multiplied, Requantized, Shape.K, Shape.OW,
         Shape.Rows, Ready, OutputUpTo, RowsLog, WrittenOnce, OnWindows;
    ReadyIsValid(cv);
    Transpose(input, wsInput, s);
    ghost var n := wsInput[..];
    var total := s.Rows();
    WeightForms(s);
    var ti := 0;
    log := [];
    RowsLogNone(s.OC, total);
    NothingDone(cv, q, out[..]);
    while ti < total
      invariant OutputUpTo(cv, q, out[..], if ti < total then ti else total)
      invariant wsInput[..] == n
      invariant log == RowsLog(s.OC, total, 0, if ti < total then ti else total)
      invariant SamePast(old(out[..]), out[..], s.OC * total)
    {
      RowPosition(s, ti);
      var rows := if total - ti < DIM then total - ti else DIM;
      MulMono(rows, DIM, s.K());
      Gather(im, wsInput, s, ti, rows);
      ghost var gathered := im[..];
      ZeroRows(im, rows, DIM, s.K());
      GatheredKept(s, n, gathered, im[..], ti, rows);
      BiasBounded(cv);
      TiledMatmulAuto(DIM, s.OC, s.K(), im, weight, bias, wsAcc);
      ghost var out0 := out[..];
      MulMono(rows, DIM, s.OC);
      ghost var tile := RequantRows(wsAcc, out, ti, rows, s, q);
      TileDone(cv, q, n, im[..], wsAcc[..], DIM, out0, out[..], ti, rows);
      RowsLogAppend(s.OC, total, 0, ti, rows);
      log := log + tile;
      ti := ti + DIM;
    }
    AllWrittenOnce(s.OC, total);
    OutputOnWindows(cv, q, out[..]);
  }

  lemma NothingDone(cv: Conv, q: Quant, out: seq<elem>)
    requires Ready(cv)
    ensures OutputUpTo(cv, q, out, 0)
  {
  }

  lemma BiasBounded(cv: Conv)
    requires Ready(cv)
    ensures forall j | 0 <= j < cv.s.OC :: Bounded(cv.b[j], cv.s.K())
  {
  }

  method ZeroRows(im: array<elem>, rows: nat, DIM: nat, K: nat)
    requires rows <= DIM && rows * K <= DIM * K <= im.Length
    modifies im
    ensures forall j | 0 <= j < rows * K :: im[j] == old(im[j])
    ensures forall j | rows * K <= j < DIM * K :: im[j] == 0
  {
    for i := rows to DIM
      invariant forall j | 0 <= j < rows * K :: im[j] == old(im[j])
      invariant forall j | rows * K <= j < i * K :: im[j] == 0
    {
      MulMono(rows, i, K);
      MulMono(i + 1, DIM, K);
      assert (i + 1) * K == i * K + K;
      VZeroI8(im, i * K, K);
    }
  }
}
