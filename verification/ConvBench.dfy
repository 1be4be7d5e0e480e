// The convolution benchmark's software: layout change, im2col gather, matrix product,
// requantisation, the scalar reference, and the paths built from them.
module ConvBench {
  import opened Arithmetic
  import opened ConvSpec

  // An element of a buffer, or zero past its end, so that contracts can index freely.
  function At(a: seq<elem>, i: int): (r: elem) {
    if 0 <= i < |a| then a[i] else 0
  }

  // ---- layout change ----------------------------------------------------------------

  // Channel-last positions done so far by three nested loops that are at (c, h, w).
  ghost predicate Moved(s: Shape, x: seq<elem>, n: seq<elem>, c: int, h: int, w: int) {
    forall ic, ih, iw | 0 <= ic < s.IC && 0 <= ih < s.IH && 0 <= iw < s.IW &&
                        (ic < c || (ic == c && (ih < h || (ih == h && iw < w)))) ::
      At(n, Ix(ih, s.IW, iw, s.IC, ic)) == At(x, Ix(ic, s.IH, ih, s.IW, iw))
  }

  ghost predicate IsChannelLast(s: Shape, x: seq<elem>, n: seq<elem>) {
    Moved(s, x, n, s.IC, 0, 0)
  }

  lemma ImageForms(s: Shape)
    ensures s.IH * s.IW * s.IC == s.IC * s.IH * s.IW
  {
    assert s.IH * s.IW * s.IC == s.IC * (s.IH * s.IW);
  }

  lemma MovedOneMore(s: Shape, x: seq<elem>, n: seq<elem>, c: int, h: int, w: int, n': seq<elem>)
    requires 0 <= c < s.IC && 0 <= h < s.IH && 0 <= w < s.IW
    requires Moved(s, x, n, c, h, w)
    requires 0 <= Ix(h, s.IW, w, s.IC, c) < |n|
    requires n' == n[Ix(h, s.IW, w, s.IC, c) := At(x, Ix(c, s.IH, h, s.IW, w))]
    ensures Moved(s, x, n', c, h, w + 1)
  {
    forall ic, ih, iw | 0 <= ic < s.IC && 0 <= ih < s.IH && 0 <= iw < s.IW &&
                        (ic < c || (ic == c && (ih < h || (ih == h && iw < w + 1))))
      ensures At(n', Ix(ih, s.IW, iw, s.IC, ic)) == At(x, Ix(ic, s.IH, ih, s.IW, iw))
    {
      hide Ix;
      IxInjective(ih, iw, ic, h, w, c, s.IW, s.IC);
    }
  }

  // transpose_nchw_nhwc
  method Transpose(input: array<elem>, wsInput: array<elem>, s: Shape)
    requires input != wsInput
    requires input.Length >= s.IC * s.IH * s.IW && wsInput.Length >= s.IC * s.IH * s.IW
    modifies wsInput
    ensures IsChannelLast(s, input[..], wsInput[..])
  {
    hide Ix;
    ghost var x := input[..];
    ImageForms(s);
    for c := 0 to s.IC
      invariant Moved(s, x, wsInput[..], c, 0, 0)
    {
      for h := 0 to s.IH
        invariant Moved(s, x, wsInput[..], c, h, 0)
      {
        for w := 0 to s.IW
          invariant Moved(s, x, wsInput[..], c, h, w)
        {
          IxBound(c, s.IC, h, s.IH, w, s.IW);
          IxBound(h, s.IH, w, s.IW, c, s.IC);
          ghost var n := wsInput[..];
          wsInput[Ix(h, s.IW, w, s.IC, c)] := input[Ix(c, s.IH, h, s.IW, w)];
          MovedOneMore(s, x, n, c, h, w, wsInput[..]);
        }
      }
    }
  }

  // ---- im2col gather ----------------------------------------------------------------

  method VCopyI8(dst: array<elem>, at: nat, src: array<elem>, from: nat, n: nat)
    requires dst != src && at + n <= dst.Length && from + n <= src.Length
    modifies dst
    ensures forall j | 0 <= j < dst.Length ::
              dst[j] == if at <= j < at + n then src[from + (j - at)] else old(dst[j])
  {
    for i := 0 to n
      invariant forall j | 0 <= j < dst.Length ::
                  dst[j] == if at <= j < at + i then src[from + (j - at)] else old(dst[j])
    {
      dst[at + i] := src[from + i];
    }
  }

  method VZeroI8(dst: array<elem>, at: nat, n: nat)
    requires at + n <= dst.Length
    modifies dst
    ensures forall j | 0 <= j < dst.Length :: dst[j] == if at <= j < at + n then 0 else old(dst[j])
  {
    for i := 0 to n
      invariant forall j | 0 <= j < dst.Length :: dst[j] == if at <= j < at + i then 0 else old(dst[j])
    {
      dst[at + i] := 0;
    }
  }

  // The kernel columns of an output position that fall inside the image, as the gather
  // computes them from the image column of kernel column zero.
  function KwLo(s: Shape, iw0: int): (r: int) {
    var lo := if -iw0 > 0 then -iw0 else 0;
    if lo > s.KW then s.KW else lo
  }

  function KwHi(s: Shape, iw0: int): (r: int) {
    var hi := if s.IW - iw0 < s.KW then s.IW - iw0 else s.KW;
    if hi < KwLo(s, iw0) then KwLo(s, iw0) else hi
  }

  lemma KwRange(s: Shape, iw0: int, kw: int)
    requires 0 <= kw < s.KW
    ensures 0 <= KwLo(s, iw0) <= KwHi(s, iw0) <= s.KW
    ensures KwLo(s, iw0) <= kw < KwHi(s, iw0) <==> 0 <= iw0 + kw < s.IW
  {
  }

  // A pixel of the channel-last image, with zeros around it.
  function Padded(s: Shape, n: seq<elem>, ih: int, iw: int, ic: int): (r: elem) {
    if 0 <= ih < s.IH && 0 <= iw < s.IW then At(n, Ix(ih, s.IW, iw, s.IC, ic)) else 0
  }

  // Kernel line kh of the im2col row for the position whose window has its top left corner
  // at (ih0, iw0).
  ghost predicate LineDone(s: Shape, n: seq<elem>, ih0: int, iw0: int, row: seq<elem>, kh: int) {
    forall kw, ic | 0 <= kw < s.KW && 0 <= ic < s.IC ::
      At(row, Tap(s, kh, kw, ic)) == Padded(s, n, ih0 + kh, iw0 + kw, ic)
  }

  ghost predicate LinesDone(s: Shape, n: seq<elem>, ih0: int, iw0: int, row: seq<elem>, m: int) {
    forall kh | 0 <= kh < m :: LineDone(s, n, ih0, iw0, row, kh)
  }

  ghost predicate IsIm2colRow(s: Shape, n: seq<elem>, r: nat, row: seq<elem>)
    requires s.Valid() && s.OW() > 0
  {
    |row| == s.K() &&
    LinesDone(s, n, r / s.OW() * s.SH - s.PH, r % s.OW() * s.SW - s.PW, row, s.KH)
  }

  // Element j of a kernel line, as zero-fill, copy and zero-fill leave it.
  function LineElement(s: Shape, n: seq<elem>, ih: int, iw0: int, j: int): (r: elem) {
    if 0 <= ih < s.IH && KwLo(s, iw0) * s.IC <= j < KwHi(s, iw0) * s.IC
    then At(n, (ih * s.IW + iw0) * s.IC + j) else 0
  }

  ghost predicate LineFilled(s: Shape, n: seq<elem>, ih: int, iw0: int, row: seq<elem>, base: int) {
    forall j | base <= j < base + s.KW * s.IC :: At(row, j) == LineElement(s, n, ih, iw0, j - base)
  }

  lemma PairBelow(a: int, b: int, m: int, B: int)
    requires 0 <= b < B
    ensures m * B <= a * B + b <==> m <= a
  {
    if a < m {
      MulMono(a + 1, m, B);
    } else {
      MulMono(m, a, B);
    }
  }

  lemma PixelInLine(ih: int, IW: int, iw0: int, kw: int, IC: int, ic: int)
    ensures (ih * IW + iw0) * IC + (kw * IC + ic) == Ix(ih, IW, iw0 + kw, IC, ic)
  {
    assert (ih * IW + iw0) * IC + kw * IC == (ih * IW + iw0 + kw) * IC;
  }

  lemma LineElementIsPixel(s: Shape, n: seq<elem>, ih: int, iw0: int, kw: int, ic: int)
    requires 0 <= kw < s.KW && 0 <= ic < s.IC
    ensures LineElement(s, n, ih, iw0, kw * s.IC + ic) == Padded(s, n, ih, iw0 + kw, ic)
  {
    hide At, KwLo, KwHi, Ix;
    KwRange(s, iw0, kw);
    PairBelow(kw, ic, KwLo(s, iw0), s.IC);
    PairBelow(kw, ic, KwHi(s, iw0), s.IC);
    PixelInLine(ih, s.IW, iw0, kw, s.IC, ic);
  }

  lemma TapInLine(s: Shape, kh: int, kw: int, ic: int)
    ensures Tap(s, kh, kw, ic) == kh * s.KW * s.IC + (kw * s.IC + ic)
  {
    assert (kh * s.KW + kw) * s.IC == kh * s.KW * s.IC + kw * s.IC;
  }

  lemma LineFilledDone(s: Shape, n: seq<elem>, ih0: int, iw0: int, row: seq<elem>, kh: int)
    requires LineFilled(s, n, ih0 + kh, iw0, row, kh * s.KW * s.IC)
    ensures LineDone(s, n, ih0, iw0, row, kh)
  {
    forall kw, ic | 0 <= kw < s.KW && 0 <= ic < s.IC
      ensures At(row, Tap(s, kh, kw, ic)) == Padded(s, n, ih0 + kh, iw0 + kw, ic)
    {
      hide At, LineElement, Padded, Tap;
      PairBound(kw, s.KW, ic, s.IC);
      TapInLine(s, kh, kw, ic);
      LineElementIsPixel(s, n, ih0 + kh, iw0, kw, ic);
      var j := kh * s.KW * s.IC + (kw * s.IC + ic);
      assert At(row, j) == LineElement(s, n, ih0 + kh, iw0, j - kh * s.KW * s.IC);
    }
  }

  // Lines that later writes do not touch stay done.
  lemma LinesKept(s: Shape, n: seq<elem>, ih0: int, iw0: int, row: seq<elem>, row': seq<elem>, m: nat)
    requires LinesDone(s, n, ih0, iw0, row, m)
    requires forall j | 0 <= j < m * s.KW * s.IC :: At(row', j) == At(row, j)
    ensures LinesDone(s, n, ih0, iw0, row', m)
  {
    forall kh | 0 <= kh < m
      ensures LineDone(s, n, ih0, iw0, row', kh)
    {
      hide At, Padded;
      assert LineDone(s, n, ih0, iw0, row, kh);
      forall kw, ic | 0 <= kw < s.KW && 0 <= ic < s.IC
        ensures At(row', Tap(s, kh, kw, ic)) == Padded(s, n, ih0 + kh, iw0 + kw, ic)
      {
        IxBound(kh, m, kw, s.KW, ic, s.IC);
      }
    }
  }

  lemma LineFits(s: Shape, kh: nat)
    requires kh < s.KH
    ensures 0 <= kh * s.KW * s.IC
    ensures (kh + 1) * s.KW * s.IC == kh * s.KW * s.IC + s.KW * s.IC <= s.K()
  {
    assert (kh + 1) * s.KW * s.IC == (kh * s.KW + s.KW) * s.IC;
    MulMono(kh + 1, s.KH, s.KW);
    MulMono((kh + 1) * s.KW, s.KH * s.KW, s.IC);
    KForms(s);
  }

  // One kernel line of the gather.
  method Im2colLine(im: array<elem>, base: nat, wsInput: array<elem>, s: Shape, ih: int, iw0: int)
    requires im != wsInput
    requires base + s.KW * s.IC <= im.Length && wsInput.Length >= s.IC * s.IH * s.IW
    modifies im
    ensures forall j | 0 <= j < im.Length ::
              im[j] == if base <= j < base + s.KW * s.IC
                       then LineElement(s, wsInput[..], ih, iw0, j - base) else old(im[j])
  {
    hide LineElement;
    if ih < 0 || ih >= s.IH {
      VZeroI8(im, base, s.KW * s.IC);
      OutsideImage(s, wsInput[..], ih, iw0);
      return;
    }
    var lo, hi := KwLo(s, iw0), KwHi(s, iw0);
    LineBounds(s, ih, iw0);
    VZeroI8(im, base, lo * s.IC);
    if hi > lo {
      VCopyI8(im, base + lo * s.IC, wsInput, (ih * s.IW + (iw0 + lo)) * s.IC, (hi - lo) * s.IC);
    }
    VZeroI8(im, base + hi * s.IC, (s.KW - hi) * s.IC);
    forall j | 0 <= j < s.KW * s.IC
      ensures im[base + j] == LineElement(s, wsInput[..], ih, iw0, j)
    {
      LineElementCases(s, wsInput[..], ih, iw0, j);
    }
  }

  lemma OutsideImage(s: Shape, n: seq<elem>, ih: int, iw0: int)
    requires ih < 0 || ih >= s.IH
    ensures forall j :: LineElement(s, n, ih, iw0, j) == 0
  {
  }

  lemma ThreeStretches(lo: int, hi: int, KW: int, IC: int)
    requires 0 <= lo <= hi <= KW && 0 <= IC
    ensures 0 <= lo * IC <= hi * IC <= KW * IC
    ensures (hi - lo) * IC == hi * IC - lo * IC
    ensures (KW - hi) * IC == KW * IC - hi * IC
  {
    MulMono(0, lo, IC);
    MulMono(lo, hi, IC);
    MulMono(hi, KW, IC);
  }

  lemma StretchInImage(ih: int, IH: int, IW: int, IC: int, first: int, last: int)
    requires 0 <= ih < IH && 0 <= first <= last <= IW && 0 <= IC
    ensures 0 <= (ih * IW + first) * IC
    ensures (ih * IW + first) * IC + (last - first) * IC <= IH * IW * IC
  {
    MulMono(0, ih, IW);
    MulMono(ih + 1, IH, IW);
    MulMono(0, ih * IW + first, IC);
    MulMono(ih * IW + last, IH * IW, IC);
    assert (ih * IW + first) * IC + (last - first) * IC == (ih * IW + last) * IC;
  }

  // The three stretches of a line lie end to end, and the copied one inside the image.
  lemma LineBounds(s: Shape, ih: int, iw0: int)
    requires 0 <= ih < s.IH
    ensures var lo, hi := KwLo(s, iw0), KwHi(s, iw0);
            && 0 <= lo <= hi <= s.KW
            && 0 <= lo * s.IC <= hi * s.IC <= s.KW * s.IC
            && (hi - lo) * s.IC == hi * s.IC - lo * s.IC
            && (s.KW - hi) * s.IC == s.KW * s.IC - hi * s.IC
            && (hi > lo ==> 0 <= (ih * s.IW + (iw0 + lo)) * s.IC &&
                            (ih * s.IW + (iw0 + lo)) * s.IC + (hi - lo) * s.IC <= s.IC * s.IH * s.IW)
  {
    var lo, hi := KwLo(s, iw0), KwHi(s, iw0);
    ThreeStretches(lo, hi, s.KW, s.IC);
    if hi > lo {
      StretchInImage(ih, s.IH, s.IW, s.IC, iw0 + lo, iw0 + hi);
      ImageForms(s);
    }
  }

  lemma LineElementCases(s: Shape, n: seq<elem>, ih: int, iw0: int, j: int)
    requires 0 <= ih < s.IH
    requires |n| >= s.IC * s.IH * s.IW
    requires 0 <= j < s.KW * s.IC
    ensures var lo, hi := KwLo(s, iw0), KwHi(s, iw0);
            var from := (ih * s.IW + (iw0 + lo)) * s.IC;
            if lo * s.IC <= j < hi * s.IC
            then 0 <= from + (j - lo * s.IC) < |n| && LineElement(s, n, ih, iw0, j) == n[from + (j - lo * s.IC)]
            else LineElement(s, n, ih, iw0, j) == 0
  {
    var lo, hi := KwLo(s, iw0), KwHi(s, iw0);
    LineBounds(s, ih, iw0);
    if lo * s.IC <= j < hi * s.IC {
      assert hi > lo by {
        if hi <= lo {
          MulMono(hi, lo, s.IC);
        }
      }
      assert (ih * s.IW + (iw0 + lo)) * s.IC == (ih * s.IW + iw0) * s.IC + lo * s.IC;
    }
  }

  // im2col_row: the row of output position r, written at `at`.
  method Im2colRow(im: array<elem>, at: nat, r: nat, wsInput: array<elem>, s: Shape)
    requires s.Valid() && s.OW() > 0 && im != wsInput
    requires at + s.K() <= im.Length && wsInput.Length >= s.IC * s.IH * s.IW
    modifies im
    ensures IsIm2colRow(s, wsInput[..], r, im[at..at + s.K()])
    ensures forall j | 0 <= j < at || at + s.K() <= j < im.Length :: im[j] == old(im[j])
  {
    hide LineDone, LineFilled, LineElement, Shape.K;
    var owIdx, ohIdx := r % s.OW(), r / s.OW();
    var iw0, ih0 := owIdx * s.SW - s.PW, ohIdx * s.SH - s.PH;
    ghost var n := wsInput[..];
    for kh := 0 to s.KH
      invariant LinesDone(s, n, ih0, iw0, im[at..at + s.K()], kh)
      invariant forall j | 0 <= j < at || at + s.K() <= j < im.Length :: im[j] == old(im[j])
    {
      LineFits(s, kh);
      ghost var row := im[at..at + s.K()];
      var base := kh * s.KW * s.IC;
      Im2colLine(im, at + base, wsInput, s, ih0 + kh, iw0);
      ghost var row' := im[at..at + s.K()];
      LinesKept(s, n, ih0, iw0, row, row', kh);
      LineIsFilled(s, n, ih0 + kh, iw0, row', base);
      LineFilledDone(s, n, ih0, iw0, row', kh);
    }
  }

  lemma LineIsFilled(s: Shape, n: seq<elem>, ih: int, iw0: int, row: seq<elem>, base: nat)
    requires base + s.KW * s.IC <= |row|
    requires forall j | base <= j < base + s.KW * s.IC :: row[j] == LineElement(s, n, ih, iw0, j - base)
    ensures LineFilled(s, n, ih, iw0, row, base)
  {
  }
}
