// A zero-padded convolution of one image, as a mathematical value: its shape, the layouts of
// its buffers, the direct sum, and the same sum read off an im2col matrix.
module ConvSpec {
  import opened Sums
  import opened Arithmetic

  newtype elem = x: int | -128 <= x < 128
  newtype acc = x: int | -0x8000_0000 <= x < 0x8000_0000

  // ---- shapes -----------------------------------------------------------------------

  // C's division, which truncates towards zero.
  function TruncDiv(a: int, b: int): (r: int)
    requires b > 0
  {
    if a >= 0 then a / b else -((-a) / b)
  }

  // Input channels, height and width; output channels; kernel, stride and padding.
  datatype Shape = Shape(IC: nat, IH: nat, IW: nat, OC: nat, KH: nat, KW: nat,
                         SH: nat, SW: nat, PH: nat, PW: nat)
  {
    // Strides are positive and the padded input holds the kernel at least zero times.
    predicate Valid() {
      && SH > 0 && SW > 0
      && TruncDiv(IH + 2 * PH - KH, SH) + 1 >= 0
      && TruncDiv(IW + 2 * PW - KW, SW) + 1 >= 0
    }

    function OH(): (r: nat)
      requires Valid()
    {
      TruncDiv(IH + 2 * PH - KH, SH) + 1
    }

    function OW(): (r: nat)
      requires Valid()
    {
      TruncDiv(IW + 2 * PW - KW, SW) + 1
    }

    // Rows and columns of the im2col matrix.
    function Rows(): (r: nat)
      requires Valid()
    {
      OH() * OW()
    }

    function K(): (r: nat) { IC * KH * KW }
  }

  // ---- windows ----------------------------------------------------------------------

  // The o-th placement of a kernel of k, by steps of `stride`, ends within the first n places.
  predicate Inside(n: int, k: int, stride: int, o: int) { o * stride + k <= n }

  // N is the number of placements that fit.
  ghost predicate CountsWindows(n: int, k: int, stride: int, N: nat) {
    forall o: nat :: o < N <==> Inside(n, k, stride, o)
  }

  lemma QuotientReaches(a: nat, stride: nat, o: nat)
    requires stride > 0
    ensures o <= a / stride <==> o * stride <= a
  {
    var d := a / stride;
    assert a == d * stride + a % stride;
    if o <= d {
      MulMono(o, d, stride);
    } else {
      MulMono(d + 1, o, stride);
    }
  }

  lemma QuotientCounts(n: int, k: int, stride: nat)
    requires stride > 0 && TruncDiv(n - k, stride) + 1 >= 0
    ensures k <= n ==> CountsWindows(n, k, stride, TruncDiv(n - k, stride) + 1)
    ensures n < k < n + stride ==> TruncDiv(n - k, stride) + 1 == 1 && !Inside(n, k, stride, 0)
    ensures n + stride <= k ==> TruncDiv(n - k, stride) + 1 == 0 && CountsWindows(n, k, stride, 0)
  {
    if k <= n {
      forall o: nat ensures o < TruncDiv(n - k, stride) + 1 <==> Inside(n, k, stride, o) {
        QuotientReaches(n - k, stride, o);
      }
    } else {
      QuotientReaches(k - n, stride, 1);
      forall o: nat ensures !Inside(n, k, stride, o) {
        MulMono(0, o, stride);
      }
    }
  }

  // The source's expressions count the windows that fit the padded image exactly when the
  // kernel fits it, or misses it by a whole stride: by less, truncation counts one window that
  // does not fit.
  lemma ExtentsCountWindows(s: Shape)
    requires s.Valid()
    ensures CountsWindows(s.IH + 2 * s.PH, s.KH, s.SH, s.OH()) <==>
            s.KH <= s.IH + 2 * s.PH || s.IH + 2 * s.PH + s.SH <= s.KH
    ensures CountsWindows(s.IW + 2 * s.PW, s.KW, s.SW, s.OW()) <==>
            s.KW <= s.IW + 2 * s.PW || s.IW + 2 * s.PW + s.SW <= s.KW
  {
    hide TruncDiv;
    QuotientCounts(s.IH + 2 * s.PH, s.KH, s.SH);
    QuotientCounts(s.IW + 2 * s.PW, s.KW, s.SW);
  }

  // A number of windows is unique.
  lemma SameCount(n: int, k: int, stride: int, M: nat, N: nat)
    requires CountsWindows(n, k, stride, M) && CountsWindows(n, k, stride, N)
    ensures M == N
  {
    assert M < M <==> Inside(n, k, stride, M);
    assert N < N <==> Inside(n, k, stride, N);
  }

  // A shape with its image (channel-major), its weights (output channel fastest) and biases.
  datatype Conv = Conv(s: Shape, x: seq<elem>, w: seq<elem>, b: seq<acc>) {
    predicate Valid() {
      && s.Valid()
      && |x| >= s.IC * s.IH * s.IW
      && |w| >= s.KH * s.KW * s.IC * s.OC
      && |b| >= s.OC
    }

    // The image, with zeros around it.
    function Pixel(ic: int, ih: int, iw: int): (r: int)
      requires Valid() && 0 <= ic < s.IC
      ensures -128 <= r < 128
    {
      if 0 <= ih < s.IH && 0 <= iw < s.IW then
        IxBound(ic, s.IC, ih, s.IH, iw, s.IW);
        x[Ix(ic, s.IH, ih, s.IW, iw)] as int
      else 0
    }

    function Weight(kh: int, kw: int, ic: int, oc: int): (r: int)
      requires Valid() && 0 <= kh < s.KH && 0 <= kw < s.KW && 0 <= ic < s.IC && 0 <= oc < s.OC
      ensures -128 <= r < 128
    {
      IxBound(kh, s.KH, kw, s.KW, ic, s.IC);
      PairBound(Ix(kh, s.KW, kw, s.IC, ic), s.KH * s.KW * s.IC, oc, s.OC);
      w[Ix(kh, s.KW, kw, s.IC, ic) * s.OC + oc] as int
    }

    // One product of the convolution at output channel oc, row oh and column ow.
    function Term(oc: int, oh: int, ow: int, ic: int, kh: int, kw: int): (r: int)
      requires Valid()
    {
      if 0 <= ic < s.IC && 0 <= kh < s.KH && 0 <= kw < s.KW && 0 <= oc < s.OC then
        Pixel(ic, oh * s.SH - s.PH + kh, ow * s.SW - s.PW + kw) * Weight(kh, kw, ic, oc)
      else 0
    }

    lemma TermBound(oc: int, oh: int, ow: int, ic: int, kh: int, kw: int)
      requires Valid()
      ensures -0x4000 <= Term(oc, oh, ow, ic, kh, kw) <= 0x4000
    {
      hide Pixel, Weight;
      if 0 <= ic < s.IC && 0 <= kh < s.KH && 0 <= kw < s.KW && 0 <= oc < s.OC {
        ProductBound(Pixel(ic, oh * s.SH - s.PH + kh, ow * s.SW - s.PW + kw), Weight(kh, kw, ic, oc));
      }
    }

    // The direct sum in the order the scalar reference adds it up: input channel, then kernel
    // row, then kernel column.
    function Taps(oc: int, oh: int, ow: int, ic: int): (g: (int, int) -> int)
      requires Valid()
    {
      (kh, kw) => Term(oc, oh, ow, ic, kh, kw)
    }

    function Planes(oc: int, oh: int, ow: int): (f: int -> int)
      requires Valid()
    {
      ic => Sum(s.KH, RowSums(s.KW, Taps(oc, oh, ow, ic)))
    }

    function Direct(oc: int, oh: int, ow: int): (r: int)
      requires Valid() && 0 <= oc < s.OC
    {
      b[oc] as int + Sum(s.IC, Planes(oc, oh, ow))
    }
  }

  lemma ProductBound(p: int, q: int)
    requires -128 <= p < 128 && -128 <= q < 128
    ensures -0x4000 <= p * q <= 0x4000
  {
    if q >= 0 {
      MulMono(-128, p, q);
      MulMono(p, 128, q);
    } else {
      MulMono(-128, p, -q);
      MulMono(p, 128, -q);
      assert p * (-q) == -(p * q);
    }
  }

  // ---- the im2col order -------------------------------------------------------------

  // Row-major position of a tap in an im2col row: kernel row, kernel column, channel.
  function Tap(s: Shape, kh: int, kw: int, ic: int): (r: int) {
    Ix(kh, s.KW, kw, s.IC, ic)
  }

  lemma TapBound(s: Shape, kh: int, kw: int, ic: int)
    requires 0 <= kh < s.KH && 0 <= kw < s.KW && 0 <= ic < s.IC
    ensures 0 <= Tap(s, kh, kw, ic) < s.K()
  {
    IxBound(kh, s.KH, kw, s.KW, ic, s.IC);
    KForms(s);
  }

  lemma KForms(s: Shape)
    ensures s.K() == s.KH * s.KW * s.IC
  {
    assert s.IC * s.KH * s.KW == s.IC * (s.KH * s.KW);
  }

  // One input channel of the direct sum, its taps in row-major order.
  lemma PlaneOfTaps(cv: Conv, oc: int, oh: int, ow: int, ic: int, f: int -> int)
    requires cv.Valid()
    requires forall kh, kw | 0 <= kh < cv.s.KH && 0 <= kw < cv.s.KW ::
               cv.Term(oc, oh, ow, ic, kh, kw) == f(kh * cv.s.KW + kw)
    ensures cv.Planes(oc, oh, ow)(ic) == Sum(cv.s.KH * cv.s.KW, f)
  {
    hide Conv.Term, Conv.Valid, Sum, RowSums;
    var g := cv.Taps(oc, oh, ow, ic);
    forall kh, kw | 0 <= kh < cv.s.KH && 0 <= kw < cv.s.KW
      ensures g(kh, kw) == f(kh * cv.s.KW + kw)
    {
    }
    SumFlatten(cv.s.KH, cv.s.KW, f, g);
  }

  // Read off an im2col row, tap by tap, a sum is the direct sum.
  lemma SumOfTaps(cv: Conv, oc: int, oh: int, ow: int, f: int -> int)
    requires cv.Valid() && 0 <= oc < cv.s.OC
    requires forall kh, kw, ic | 0 <= kh < cv.s.KH && 0 <= kw < cv.s.KW && 0 <= ic < cv.s.IC ::
               f(Tap(cv.s, kh, kw, ic)) == cv.Term(oc, oh, ow, ic, kh, kw)
    ensures cv.b[oc] as int + Sum(cv.s.K(), f) == cv.Direct(oc, oh, ow)
  {
    hide Conv.Term, Conv.Planes, Conv.Valid, Shape.K, Sum;
    var IC, N := cv.s.IC, cv.s.KH * cv.s.KW;
    var g := (i: int, ic: int) => f(i * IC + ic);
    forall ic | 0 <= ic < IC
      ensures cv.Planes(oc, oh, ow)(ic) == ColSums(N, g)(ic)
    {
      forall kh, kw | 0 <= kh < cv.s.KH && 0 <= kw < cv.s.KW
        ensures cv.Term(oc, oh, ow, ic, kh, kw) == Col(g, ic)(kh * cv.s.KW + kw)
      {
        assert f(Tap(cv.s, kh, kw, ic)) == cv.Term(oc, oh, ow, ic, kh, kw);
      }
      PlaneOfTaps(cv, oc, oh, ow, ic, Col(g, ic));
    }
    SumCongruence(IC, cv.Planes(oc, oh, ow), ColSums(N, g));
    KForms(cv.s);
    SumColumns(N, IC, f, g);
  }
}
