// What the convolution and its requantisation are, told without their formulas.
module ConvLaws {
  import opened Sums
  import opened Arithmetic
  import opened ConvSpec
  import opened Requant
  import opened ConvBench
  import opened ConvPaths
  import opened ConvRun

  // ---- the convolution --------------------------------------------------------------

  // The image element under tap (ic, kh, kw) of window (oh, ow): zero outside the image.
  function Under(cv: Conv, oh: int, ow: int, ic: int, kh: int, kw: int): (r: int)
    requires cv.Valid() && 0 <= ic < cv.s.IC
  {
    var ih, iw := oh * cv.s.SH - cv.s.PH + kh, ow * cv.s.SW - cv.s.PW + kw;
    if 0 <= ih < cv.s.IH && 0 <= iw < cv.s.IW then
      IxBound(ic, cv.s.IC, ih, cv.s.IH, iw, cv.s.IW);
      cv.x[(ic * cv.s.IH + ih) * cv.s.IW + iw] as int
    else 0
  }

  // Weights by position, output channel fastest.
  function WeightOf(cv: Conv, oc: int, ic: int, kh: int, kw: int): (r: int)
    requires cv.Valid() && 0 <= oc < cv.s.OC && 0 <= ic < cv.s.IC && 0 <= kh < cv.s.KH && 0 <= kw < cv.s.KW
  {
    IxBound(kh, cv.s.KH, kw, cv.s.KW, ic, cv.s.IC);
    PairBound((kh * cv.s.KW + kw) * cv.s.IC + ic, cv.s.KH * cv.s.KW * cv.s.IC, oc, cv.s.OC);
    cv.w[((kh * cv.s.KW + kw) * cv.s.IC + ic) * cv.s.OC + oc] as int
  }

  lemma TermIs(cv: Conv, oc: int, oh: int, ow: int, ic: int, kh: int, kw: int)
    requires cv.Valid() && 0 <= oc < cv.s.OC && 0 <= ic < cv.s.IC && 0 <= kh < cv.s.KH && 0 <= kw < cv.s.KW
    ensures cv.Term(oc, oh, ow, ic, kh, kw) == Under(cv, oh, ow, ic, kh, kw) * WeightOf(cv, oc, ic, kh, kw)
  {
    UnderIs(cv, oh, ow, ic, kh, kw);
    WeightIs(cv, oc, ic, kh, kw);
    hide Under, WeightOf, Conv.Pixel, Conv.Weight;
  }

  lemma UnderIs(cv: Conv, oh: int, ow: int, ic: int, kh: int, kw: int)
    requires cv.Valid() && 0 <= ic < cv.s.IC
    ensures cv.Pixel(ic, oh * cv.s.SH - cv.s.PH + kh, ow * cv.s.SW - cv.s.PW + kw) == Under(cv, oh, ow, ic, kh, kw)
  {
  }

  lemma WeightIs(cv: Conv, oc: int, ic: int, kh: int, kw: int)
    requires cv.Valid() && 0 <= oc < cv.s.OC && 0 <= ic < cv.s.IC && 0 <= kh < cv.s.KH && 0 <= kw < cv.s.KW
    ensures cv.Weight(kh, kw, ic, oc) == WeightOf(cv, oc, ic, kh, kw)
  {
  }

  // A kernel with a single tap picks the image element under it, scaled, on top of the bias.
  lemma OneTap(cv: Conv, oc: nat, oh: int, ow: int, ic: nat, kh: nat, kw: nat)
    requires cv.Valid() && oc < cv.s.OC && ic < cv.s.IC && kh < cv.s.KH && kw < cv.s.KW
    requires forall i, h, w | 0 <= i < cv.s.IC && 0 <= h < cv.s.KH && 0 <= w < cv.s.KW &&
                              !(i == ic && h == kh && w == kw) :: WeightOf(cv, oc, i, h, w) == 0
    ensures cv.Direct(oc, oh, ow) ==
            cv.b[oc] as int + Under(cv, oh, ow, ic, kh, kw) * WeightOf(cv, oc, ic, kh, kw)
  {
    hide Conv.Valid, Conv.Term, WeightOf, Under, Sum;
    forall i, h, w | 0 <= i < cv.s.IC && 0 <= h < cv.s.KH && 0 <= w < cv.s.KW &&
                     !(i == ic && h == kh && w == kw)
      ensures cv.Term(oc, oh, ow, i, h, w) == 0
    {
      TermIs(cv, oc, oh, ow, i, h, w);
    }
    TermIs(cv, oc, oh, ow, ic, kh, kw);
    forall i | 0 <= i < cv.s.IC && i != ic ensures cv.Planes(oc, oh, ow)(i) == 0 {
      EmptyPlane(cv, oc, oh, ow, i);
    }
    OneTapPlane(cv, oc, oh, ow, ic, kh, kw);
    SumOne(cv.s.IC, cv.Planes(oc, oh, ow), ic);
  }

  lemma EmptyPlane(cv: Conv, oc: int, oh: int, ow: int, ic: int)
    requires cv.Valid()
    requires forall h, w | 0 <= h < cv.s.KH && 0 <= w < cv.s.KW :: cv.Term(oc, oh, ow, ic, h, w) == 0
    ensures cv.Planes(oc, oh, ow)(ic) == 0
  {
    hide Conv.Valid, Conv.Term, Sum;
    var g := cv.Taps(oc, oh, ow, ic);
    forall h | 0 <= h < cv.s.KH ensures RowSums(cv.s.KW, g)(h) == 0 {
      SumZero(cv.s.KW, Row(g, h));
    }
    SumZero(cv.s.KH, RowSums(cv.s.KW, g));
  }

  lemma OneTapPlane(cv: Conv, oc: int, oh: int, ow: int, ic: int, kh: nat, kw: nat)
    requires cv.Valid() && kh < cv.s.KH && kw < cv.s.KW
    requires forall h, w | 0 <= h < cv.s.KH && 0 <= w < cv.s.KW && !(h == kh && w == kw) ::
               cv.Term(oc, oh, ow, ic, h, w) == 0
    ensures cv.Planes(oc, oh, ow)(ic) == cv.Term(oc, oh, ow, ic, kh, kw)
  {
    hide Conv.Valid, Conv.Term, Sum;
    var g := cv.Taps(oc, oh, ow, ic);
    forall h | 0 <= h < cv.s.KH && h != kh ensures RowSums(cv.s.KW, g)(h) == 0 {
      SumZero(cv.s.KW, Row(g, h));
    }
    SumOne(cv.s.KW, Row(g, kh), kw);
    SumOne(cv.s.KH, RowSums(cv.s.KW, g), kh);
  }

  // ---- the outputs ------------------------------------------------------------------

  lemma WindowIndex(cv: Conv, NH: nat, NW: nat, oc: nat, oh: nat, ow: nat)
    requires oc < cv.s.OC && oh < NH && ow < NW
    ensures 0 <= (oc * NH + oh) * NW + ow < cv.s.OC * NH * NW
  {
    IxBound(oc, cv.s.OC, oh, NH, ow, NW);
  }

  // What the paths leave, element by element, for NH by NW windows that fit the padded image.
  lemma WindowElement(cv: Conv, q: Quant, out: seq<elem>, NH: nat, NW: nat, oc: nat, oh: nat, ow: nat)
    requires Ready(cv) && OnWindows(cv, q, out) && |out| >= cv.s.OC * NH * NW
    requires cv.s.KH <= cv.s.IH + 2 * cv.s.PH && cv.s.KW <= cv.s.IW + 2 * cv.s.PW
    requires CountsWindows(cv.s.IH + 2 * cv.s.PH, cv.s.KH, cv.s.SH, NH)
    requires CountsWindows(cv.s.IW + 2 * cv.s.PW, cv.s.KW, cv.s.SW, NW)
    requires oc < cv.s.OC && oh < NH && ow < NW
    ensures 0 <= (oc * NH + oh) * NW + ow < |out|
    ensures -0x8000_0000 <= cv.Direct(oc, oh, ow) < 0x8000_0000
    ensures out[(oc * NH + oh) * NW + ow] == Requantize(q, cv.Direct(oc, oh, ow) as acc)
  {
    WindowIndex(cv, NH, NW, oc, oh, ow);
    DirectFits(cv, oc, oh, ow);
    hide Ready, CountsWindows, Requantize, Conv.Direct, OnGrid;
    assert OnGrid(cv, q, out, NH, NW);
    hide OnWindows;
    GridElement(cv, q, out, NH, NW, oc, oh, ow, (oc * NH + oh) * NW + ow);
  }

  lemma GridElement(cv: Conv, q: Quant, out: seq<elem>, NH: nat, NW: nat, oc: nat, oh: nat, ow: nat, p: int)
    requires Ready(cv) && OnGrid(cv, q, out, NH, NW) && p == (oc * NH + oh) * NW + ow
    requires oc < cv.s.OC && oh < NH && ow < NW
    ensures At(out, p) == Requantize(q, DirectAcc(cv, oc, oh, ow))
  {
    hide Ready, Requantize, DirectAcc, At;
  }

  // The same for the hardware path, within one unit.
  lemma WindowElementClose(cv: Conv, out: seq<elem>, NH: nat, NW: nat, oc: nat, oh: nat, ow: nat)
    requires Ready(cv) && CloseOnWindows(cv, out) && |out| >= cv.s.OC * NH * NW
    requires cv.s.KH <= cv.s.IH + 2 * cv.s.PH && cv.s.KW <= cv.s.IW + 2 * cv.s.PW
    requires CountsWindows(cv.s.IH + 2 * cv.s.PH, cv.s.KH, cv.s.SH, NH)
    requires CountsWindows(cv.s.IW + 2 * cv.s.PW, cv.s.KW, cv.s.SW, NW)
    requires oc < cv.s.OC && oh < NH && ow < NW
    ensures 0 <= (oc * NH + oh) * NW + ow < |out|
    ensures -0x8000_0000 <= cv.Direct(oc, oh, ow) < 0x8000_0000
    ensures var r := Requantize(R_QUANT, cv.Direct(oc, oh, ow) as acc) as int;
            r - 1 <= out[(oc * NH + oh) * NW + ow] as int <= r + 1
  {
    WindowIndex(cv, NH, NW, oc, oh, ow);
    DirectFits(cv, oc, oh, ow);
    hide Ready, CountsWindows, Requantize, Conv.Direct, CloseOnGrid;
    assert CloseOnGrid(cv, out, NH, NW);
    hide CloseOnWindows;
    CloseElement(cv, out, NH, NW, oc, oh, ow, (oc * NH + oh) * NW + ow);
  }

  lemma CloseElement(cv: Conv, out: seq<elem>, NH: nat, NW: nat, oc: nat, oh: nat, ow: nat, p: int)
    requires Ready(cv) && CloseOnGrid(cv, out, NH, NW) && p == (oc * NH + oh) * NW + ow
    requires oc < cv.s.OC && oh < NH && ow < NW
    ensures var r := Requantize(R_QUANT, DirectAcc(cv, oc, oh, ow)) as int; r - 1 <= At(out, p) as int <= r + 1
  {
    hide Ready, Requantize, DirectAcc, At;
  }

  // ---- requantisation ---------------------------------------------------------------

  lemma PowerOfTwo(n: nat)
    ensures Pow2(0) == 1 && Pow2(n + 1) == 2 * Pow2(n)
  {
  }

  lemma Nearest(x: int, d: int, r: int)
    requires d > 0 && 0 <= x - d * r < d
    ensures x / d == r
  {
    DivBracket(x, d);
    if x / d < r {
      MulMono(x / d + 1, r, d);
    } else {
      MulMono(r + 1, x / d + 1, d);
    }
  }

  // Two roundings to the nearest, half up: first by 2^31, then by 2^shift; then the offset and
  // the clamp.
  lemma RequantizeIs(q: Quant, a: acc, s1: int, s2: int)
    requires 0 <= q.mult < 0x8000_0000 && q.shift >= 1 && -128 <= q.amin <= q.amax <= 127
    requires 0 <= a as int * q.mult + 0x4000_0000 - 0x8000_0000 * s1 < 0x8000_0000
    requires 0 <= 2 * s1 + Pow2(q.shift) - 2 * (Pow2(q.shift) * s2) < 2 * Pow2(q.shift)
    requires -0x8000_0000 <= s2 + q.off < 0x8000_0000
    ensures Requantize(q, a) as int ==
            if s2 + q.off < q.amin then q.amin else if s2 + q.off > q.amax then q.amax else s2 + q.off
  {
    ScaleIs(q, a, Pow2(q.shift), s1, s2);
    hide ToInt32, ToInt8, RoundQ31, Scale, Pow2;
    ToInt32Fits(s2 + q.off);
    ToInt8Fits(Clamp(q, s2 + q.off));
  }

  lemma ScaleIs(q: Quant, a: acc, d: int, s1: int, s2: int)
    requires 0 <= q.mult < 0x8000_0000 && q.shift >= 1 && d == Pow2(q.shift)
    requires 0 <= a as int * q.mult + 0x4000_0000 - 0x8000_0000 * s1 < 0x8000_0000
    requires 0 <= 2 * s1 + d - 2 * (d * s2) < 2 * d
    ensures Scale(q, a) as int == s2
  {
    var p := Pow2(q.shift - 1);
    PowerOfTwo(q.shift - 1);
    Nearest(a as int * q.mult + HALF_Q31, Q31, s1);
    Nearest(s1 + p, 2 * p, s2);
    ScaleFits(a as int, q.mult);
    ToInt32Fits(s1);
    HalvedFits(s1, s2, p);
    ToInt32Fits(s2);
    hide ToInt32, RoundQ31, Scale, Pow2;
    RoundIs(a as int, q.mult, s1);
    ScaleForms(q, a);
  }

  lemma RoundIs(a: int, m: int, s1: int)
    requires (a * m + HALF_Q31) / Q31 == s1
    ensures RoundQ31(a, m) == s1
  {
  }

  // Without a second rounding, and with a left shift for a negative one.
  lemma RequantizeUnshifted(q: Quant, a: acc, s1: int)
    requires 0 <= q.mult < 0x8000_0000 && q.shift <= 0 && -128 <= q.amin <= q.amax <= 127
    requires 0 <= a as int * q.mult + 0x4000_0000 - 0x8000_0000 * s1 < 0x8000_0000
    requires -0x8000_0000 <= s1 * Pow2(-q.shift) < 0x8000_0000
    requires -0x8000_0000 <= s1 * Pow2(-q.shift) + q.off < 0x8000_0000
    ensures var s := s1 * Pow2(-q.shift) + q.off;
            Requantize(q, a) as int == if s < q.amin then q.amin else if s > q.amax then q.amax else s
  {
    Nearest(a as int * q.mult + HALF_Q31, Q31, s1);
    ScaleFits(a as int, q.mult);
    ToInt32Fits(s1);
    ToInt32Fits(s1 * Pow2(-q.shift));
    ToInt32Fits(s1 * Pow2(-q.shift) + q.off);
    hide ToInt32, ToInt8, RoundQ31;
    RoundIs(a as int, q.mult, s1);
    ToInt8Fits(Clamp(q, s1 * Pow2(-q.shift) + q.off));
    assert q.shift == 0 ==> s1 * Pow2(-q.shift) == s1;
  }

  // The folded multiplier is the multiplier over 2^shift, to the nearest, half up.
  lemma FoldIs(mult: int, shift: nat, d: int, m': int)
    requires shift >= 1 && d == Pow2(shift) && 0 <= 2 * mult + d - 2 * (d * m') < 2 * d
    ensures Fold(mult, shift) == m' && Fold(mult, 0) == mult
  {
    PowerOfTwo(shift - 1);
    FoldForm(mult, shift);
    hide Pow2, Fold, Quotient;
    HalfUp(mult, Pow2(shift - 1), d, m');
  }

  function Quotient(x: int, d: int): (r: int)
    requires d > 0
  {
    x / d
  }

  lemma FoldForm(mult: int, shift: nat)
    requires shift >= 1
    ensures Fold(mult, shift) == Quotient(mult + Pow2(shift - 1), Pow2(shift)) && Fold(mult, 0) == mult
  {
    hide Pow2;
  }

  lemma HalfUp(x: int, p: int, d: int, r: int)
    requires p > 0 && d == 2 * p && 0 <= 2 * x + d - 2 * (d * r) < 2 * d
    ensures Quotient(x + p, d) == r
  {
    Nearest(x + p, d, r);
  }

  // The hardware rounds once, to the nearest, half up, and saturates.
  lemma HwRequantizeIs(scale: int, a: acc, t: int)
    requires 0 <= a as int * scale + 0x4000_0000 - 0x8000_0000 * t < 0x8000_0000
    ensures HwRequantize(scale, a) as int == if t < -128 then -128 else if t > 127 then 127 else t
  {
    Nearest(a as int * scale + HALF_Q31, Q31, t);
    hide RoundQ31;
    RoundIs(a as int, scale, t);
  }
}
