// One run of the benchmark on a shape: the reference and the three paths, and the errors it
// reports for them.
module ConvRun {
  import opened Arithmetic
  import opened ConvSpec
  import opened Requant
  import opened ConvBench
  import opened ConvPaths

  const R_MULT: int := 0x6000_0000
  const R_SHIFT: int := 1
  const R_QUANT := Quant(R_MULT, R_SHIFT, 0, -128, 127)

  // ---- comparing outputs ------------------------------------------------------------

  function Gap(a: elem, b: elem): (r: nat) {
    if a >= b then (a as int - b as int) else (b as int - a as int)
  }

  // max_abs_err
  method MaxAbsErr(a: array<elem>, b: array<elem>, n: nat) returns (m: nat)
    requires n <= a.Length && n <= b.Length
    ensures forall i | 0 <= i < n :: Gap(a[i], b[i]) <= m
    ensures m == 0 || exists i | 0 <= i < n :: Gap(a[i], b[i]) == m
    ensures forall i | 0 <= i < n :: a[i] as int - b[i] as int <= m && b[i] as int - a[i] as int <= m
    ensures m == 0 || exists i | 0 <= i < n :: a[i] as int - b[i] as int == m || b[i] as int - a[i] as int == m
  {
    m := 0;
    for i := 0 to n
      invariant forall j | 0 <= j < i :: Gap(a[j], b[j]) <= m
      invariant m == 0 || exists j | 0 <= j < i :: Gap(a[j], b[j]) == m
    {
      var d := a[i] as int - b[i] as int;
      if d < 0 {
        d := -d;
      }
      assert d == Gap(a[i], b[i]);
      if d > m {
        m := d;
      }
    }
  }

  // Every index of a channel-major output is the position of one channel and one pixel.
  lemma SplitIndex(k: nat, A: nat, B: nat) returns (a: nat, b: nat)
    requires k < A * B
    ensures a < A && b < B && k == Pos(a, B, b)
  {
    if B != 0 {
      a, b := k / B, k % B;
      if a >= A {
        MulMono(A, a, B);
      }
    } else {
      assert false;
    }
  }

  // Two arrays that both hold the requantised convolution agree element by element.
  lemma OutputsAgree(cv: Conv, q: Quant, out: seq<elem>, out': seq<elem>, k: nat)
    requires Ready(cv) && IsOutput(cv, q, out) && IsOutput(cv, q, out')
    requires k < cv.s.OC * cv.s.Rows() && k < |out| && k < |out'|
    ensures out[k] == out'[k] && Gap(out[k], out'[k]) == 0
  {
    hide Pos, Requantize, Exact, Ready, Shape.Rows, Shape.OW;
    ReadyIsValid(cv);
    var oc, r := SplitIndex(k, cv.s.OC, cv.s.Rows());
    assert At(out, Pos(oc, cv.s.Rows(), r)) == Requantize(q, Exact(cv, oc, r));
    assert At(out', Pos(oc, cv.s.Rows(), r)) == Requantize(q, Exact(cv, oc, r));
  }

  // ---- path A -----------------------------------------------------------------------

  // The hardware's single rounding, saturated to eight bits.
  function HwRequantize(scale: int, a: acc): (r: elem) {
    var t := RoundQ31(a as int, scale);
    if t < -128 then -128 else if t > 127 then 127 else t as elem
  }

  // With no offset, and clamped to eight bits, narrowing loses nothing.
  lemma RequantizeIsClamp(a: acc)
    ensures Requantize(R_QUANT, a) as int == Clamp(R_QUANT, Scale(R_QUANT, a) as int)
  {
    hide Scale, ToInt32, ToInt8;
    ToInt32Fits(Scale(R_QUANT, a) as int);
    ToInt8Fits(Clamp(R_QUANT, Scale(R_QUANT, a) as int));
  }

  lemma HwIsClamp(scale: int, a: acc)
    ensures HwRequantize(scale, a) as int == Clamp(R_QUANT, RoundQ31(a as int, scale))
  {
    hide RoundQ31;
  }

  // The folded hardware scale drifts from the two-stage requantisation by at most one unit.
  lemma HwWithinOne(a: acc)
    ensures Gap(HwRequantize(Fold(R_MULT, R_SHIFT), a), Requantize(R_QUANT, a)) <= 1
  {
    hide RoundQ31, Scale, Clamp, Fold, HwRequantize, Requantize;
    FoldedWithinOne(R_QUANT, a);
    HwIsClamp(Fold(R_MULT, R_SHIFT), a);
    RequantizeIsClamp(a);
  }

  // Channel-last hardware outputs written so far by loops at position p, channel oc.
  ghost predicate HwWritten(cv: Conv, scale: int, out: seq<elem>, p: int, oc: int)
    requires Ready(cv)
  {
    forall r, o | 0 <= r < cv.s.Rows() && 0 <= o < cv.s.OC && (r < p || (r == p && o < oc)) ::
      cv.s.OW() > 0 && At(out, Pos(r, cv.s.OC, o)) == HwRequantize(scale, Exact(cv, o, r))
  }

  // The contract of tiled_conv_auto: im2col, product and requantisation in hardware.
  method TiledConvAuto(wsInput: array<elem>, weight: array<elem>, bias: array<acc>, ghost cv: Conv, s: Shape,
                       scale: int, out: array<elem>)
    requires Ready(cv) && cv.s == s && cv.w == weight[..] && cv.b == bias[..]
    requires wsInput.Length >= s.IC * s.IH * s.IW && IsChannelLast(s, cv.x, wsInput[..])
    requires out.Length >= s.Rows() * s.OC && out != wsInput && out != weight
    modifies out
    ensures HwWritten(cv, scale, out[..], s.Rows(), 0)
  {
    hide Pos, AccAt, HwRequantize, Exact, IsIm2colRow, IsChannelLast, Multiplied, Shape.K, Shape.OW, Shape.Rows, Ready;
    ReadyIsValid(cv);
    var total := s.Rows();
    if s.OW() == 0 {
      NoRows(s);
      return;
    }
    MulMono(0, total, s.K());
    var im := new elem[total * s.K()];
    var c := new acc[total * s.OC];
    ghost var n := wsInput[..];
    Gather(im, wsInput, s, 0, total);
    WeightForms(s);
    BiasBounded(cv);
    TiledMatmulAuto(total, s.OC, s.K(), im, weight, bias, c);
    forall p, oc | 0 <= p < total && 0 <= oc < s.OC
      ensures AccAt(c[..], Pos(p, s.OC, oc)) == Exact(cv, oc, p)
    {
      assert RowGathered(s, n, im[..], 0, p);
      ProductRowExact(cv, n, im[..], c[..], total, p, p, oc);
    }
    HwStore(c, cv, s, scale, out);
  }

  // The unit's move-out: every accumulator requantised once.
  method HwStore(c: array<acc>, ghost cv: Conv, s: Shape, scale: int, out: array<elem>)
    requires Ready(cv) && cv.s == s && s.OW() > 0
    requires c.Length >= s.Rows() * s.OC && out.Length >= s.Rows() * s.OC
    requires forall p, oc | 0 <= p < s.Rows() && 0 <= oc < s.OC :: AccAt(c[..], Pos(p, s.OC, oc)) == Exact(cv, oc, p)
    modifies out
    ensures HwWritten(cv, scale, out[..], s.Rows(), 0)
  {
    hide Pos, AccAt, HwRequantize, Exact, Shape.K, Shape.OW, Shape.Rows, Ready;
    ReadyIsValid(cv);
    for p := 0 to s.Rows()
      invariant HwWritten(cv, scale, out[..], p, 0)
    {
      for oc := 0 to s.OC
        invariant HwWritten(cv, scale, out[..], p, oc)
      {
        PosBound(p, s.Rows(), oc, s.OC);
        AccAtArray(c, Pos(p, s.OC, oc));
        ghost var before := out[..];
        out[Pos(p, s.OC, oc)] := HwRequantize(scale, c[Pos(p, s.OC, oc)]);
        HwOneMore(cv, scale, before, p, oc, out[Pos(p, s.OC, oc)]);
      }
    }
  }

  lemma HwOneMore(cv: Conv, scale: int, out: seq<elem>, p: nat, oc: nat, v: elem)
    requires Ready(cv) && oc < cv.s.OC && p < cv.s.Rows() && cv.s.OW() > 0
    requires 0 <= Pos(p, cv.s.OC, oc) < |out|
    requires HwWritten(cv, scale, out, p, oc) && v == HwRequantize(scale, Exact(cv, oc, p))
    ensures HwWritten(cv, scale, out[Pos(p, cv.s.OC, oc) := v], p, oc + 1)
  {
    var at := Pos(p, cv.s.OC, oc);
    var out' := out[at := v];
    forall r, o | 0 <= r < cv.s.Rows() && 0 <= o < cv.s.OC && (r < p || (r == p && o < oc + 1))
      ensures At(out', Pos(r, cv.s.OC, o)) == HwRequantize(scale, Exact(cv, o, r))
    {
      hide Pos, HwRequantize, Exact, Ready;
      PosInjective(r, o, p, oc, cv.s.OC);
      assert At(out', Pos(r, cv.s.OC, o)) == if Pos(r, cv.s.OC, o) == at then v else At(out, Pos(r, cv.s.OC, o));
    }
  }

  // The last layout change of path A, from channel-last to channel-major.
  ghost predicate Unmoved(T: nat, OC: nat, n: seq<elem>, out: seq<elem>, oc: int, p: int) {
    forall o, r | 0 <= o < OC && 0 <= r < T && (o < oc || (o == oc && r < p)) ::
      At(out, Pos(o, T, r)) == At(n, Pos(r, OC, o))
  }

  method ToChannelMajor(nhwc: array<elem>, out: array<elem>, OC: nat, T: nat)
    requires nhwc != out && nhwc.Length >= T * OC && out.Length >= OC * T
    modifies out
    ensures Unmoved(T, OC, nhwc[..], out[..], OC, 0)
  {
    hide Pos;
    for oc := 0 to OC
      invariant Unmoved(T, OC, nhwc[..], out[..], oc, 0)
    {
      for p := 0 to T
        invariant Unmoved(T, OC, nhwc[..], out[..], oc, p)
      {
        PosBound(oc, OC, p, T);
        PosBound(p, T, oc, OC);
        ghost var before := out[..];
        out[Pos(oc, T, p)] := nhwc[Pos(p, OC, oc)];
        UnmovedOneMore(T, OC, nhwc[..], before, oc, p);
      }
    }
  }

  lemma UnmovedOneMore(T: nat, OC: nat, n: seq<elem>, out: seq<elem>, oc: nat, p: nat)
    requires oc < OC && p < T && 0 <= Pos(oc, T, p) < |out| && Unmoved(T, OC, n, out, oc, p)
    ensures Unmoved(T, OC, n, out[Pos(oc, T, p) := At(n, Pos(p, OC, oc))], oc, p + 1)
  {
    var v := At(n, Pos(p, OC, oc));
    var out' := out[Pos(oc, T, p) := v];
    forall o, r | 0 <= o < OC && 0 <= r < T && (o < oc || (o == oc && r < p + 1))
      ensures At(out', Pos(o, T, r)) == At(n, Pos(r, OC, o))
    {
      hide Pos;
      PosInjective(o, r, oc, p, T);
      assert At(out', Pos(o, T, r)) == if Pos(o, T, r) == Pos(oc, T, p) then v else At(out, Pos(o, T, r));
    }
  }

  // tiled_conv_auto takes one stride, one padding and one kernel size for both directions.
  predicate Square(s: Shape) {
    s.SH == s.SW && s.PH == s.PW && s.KH == s.KW
  }

  // Every output is within one unit of the requantised convolution.
  ghost predicate IsClose(cv: Conv, out: seq<elem>)
    requires Ready(cv)
  {
    forall oc, r | 0 <= oc < cv.s.OC && 0 <= r < cv.s.Rows() ::
      cv.s.OW() > 0 && Gap(At(out, Pos(oc, cv.s.Rows(), r)), Requantize(R_QUANT, Exact(cv, oc, r))) <= 1
  }

  // The same of the windows themselves.
  ghost predicate CloseOnWindows(cv: Conv, out: seq<elem>)
    requires Ready(cv)
  {
    cv.s.KH <= cv.s.IH + 2 * cv.s.PH && cv.s.KW <= cv.s.IW + 2 * cv.s.PW ==>
      forall NH: nat, NW: nat |
        && CountsWindows(cv.s.IH + 2 * cv.s.PH, cv.s.KH, cv.s.SH, NH)
        && CountsWindows(cv.s.IW + 2 * cv.s.PW, cv.s.KW, cv.s.SW, NW) :: CloseOnGrid(cv, out, NH, NW)
  }

  ghost predicate CloseOnGrid(cv: Conv, out: seq<elem>, NH: nat, NW: nat)
    requires Ready(cv)
  {
    forall oc, oh, ow | 0 <= oc < cv.s.OC && 0 <= oh < NH && 0 <= ow < NW ::
      -1 <= At(out, (oc * NH + oh) * NW + ow) as int - Requantize(R_QUANT, DirectAcc(cv, oc, oh, ow)) as int <= 1
  }

  lemma CloseGrid(cv: Conv, out: seq<elem>, NH: nat, NW: nat)
    requires Ready(cv) && IsClose(cv, out)
    requires cv.s.KH <= cv.s.IH + 2 * cv.s.PH && cv.s.KW <= cv.s.IW + 2 * cv.s.PW
    requires CountsWindows(cv.s.IH + 2 * cv.s.PH, cv.s.KH, cv.s.SH, NH)
    requires CountsWindows(cv.s.IW + 2 * cv.s.PW, cv.s.KW, cv.s.SW, NW)
    ensures CloseOnGrid(cv, out, NH, NW)
  {
    var s := cv.s;
    hide Requantize, Exact, Shape.OH, Shape.OW, Ready, CountsWindows, Conv.Direct;
    ReadyIsValid(cv);
    ExtentsCountWindows(s);
    SameCount(s.IH + 2 * s.PH, s.KH, s.SH, NH, s.OH());
    SameCount(s.IW + 2 * s.PW, s.KW, s.SW, NW, s.OW());
    forall oc, oh, ow | 0 <= oc < s.OC && 0 <= oh < NH && 0 <= ow < NW
      ensures -1 <= At(out, (oc * NH + oh) * NW + ow) as int
                    - Requantize(R_QUANT, DirectAcc(cv, oc, oh, ow)) as int <= 1
    {
      OutIndex(s, oc, oh, ow);
      assert Gap(At(out, Pos(oc, s.Rows(), oh * NW + ow)), Requantize(R_QUANT, Exact(cv, oc, oh * NW + ow))) <= 1;
      ExactIs(cv, oc, oh * NW + ow, DirectAcc(cv, oc, oh, ow));
    }
  }

  lemma CloseWindows(cv: Conv, out: seq<elem>)
    requires Ready(cv) && IsClose(cv, out)
    ensures CloseOnWindows(cv, out)
  {
    var s := cv.s;
    if s.KH <= s.IH + 2 * s.PH && s.KW <= s.IW + 2 * s.PW {
      forall NH: nat, NW: nat |
        && CountsWindows(s.IH + 2 * s.PH, s.KH, s.SH, NH)
        && CountsWindows(s.IW + 2 * s.PW, s.KW, s.SW, NW)
        ensures CloseOnGrid(cv, out, NH, NW)
      {
        CloseGrid(cv, out, NH, NW);
      }
    }
  }

  // Path A: the hardware convolution with the folded scale.
  method PathA(input: array<elem>, weight: array<elem>, bias: array<acc>, ghost cv: Conv, s: Shape,
               wsInput: array<elem>, nhwc: array<elem>, out: array<elem>)
    requires Ready(cv) && cv.s == s && Holds(cv, input, weight, bias) && Square(s)
    requires Sized(s, input, weight, bias, wsInput, out)
    requires nhwc.Length >= s.Rows() * s.OC
    requires nhwc != wsInput && nhwc != weight && nhwc != out && nhwc != input
    modifies wsInput, nhwc, out
    ensures IsClose(cv, out[..]) && CloseOnWindows(cv, out[..])
  {
    hide Pos, HwRequantize, Exact, IsChannelLast, HwWritten, Unmoved, Shape.K, Shape.OW, Shape.Rows, Ready, Fold,
         IsClose, CloseOnWindows;
    ReadyIsValid(cv);
    Transpose(input, wsInput, s);
    var scale := Fold(R_MULT, R_SHIFT);
    TiledConvAuto(wsInput, weight, bias, cv, s, scale, nhwc);
    assert s.Rows() * s.OC == s.OC * s.Rows();
    ToChannelMajor(nhwc, out, s.OC, s.Rows());
    HwIsClose(cv, nhwc[..], out[..]);
    CloseWindows(cv, out[..]);
  }

  lemma HwIsClose(cv: Conv, nhwc: seq<elem>, out: seq<elem>)
    requires Ready(cv) && HwWritten(cv, Fold(R_MULT, R_SHIFT), nhwc, cv.s.Rows(), 0)
    requires Unmoved(cv.s.Rows(), cv.s.OC, nhwc, out, cv.s.OC, 0)
    ensures IsClose(cv, out)
  {
    hide Pos, Requantize, HwRequantize, Exact, Ready, Shape.Rows, Shape.OW, Fold, Gap;
    ReadyIsValid(cv);
    forall oc, r | 0 <= oc < cv.s.OC && 0 <= r < cv.s.Rows()
      ensures cv.s.OW() > 0 && Gap(At(out, Pos(oc, cv.s.Rows(), r)), Requantize(R_QUANT, Exact(cv, oc, r))) <= 1
    {
      RowPosition(cv.s, r);
      assert At(out, Pos(oc, cv.s.Rows(), r)) == At(nhwc, Pos(r, cv.s.OC, oc));
      HwWithinOne(Exact(cv, oc, r));
    }
  }

  // ---- the run ----------------------------------------------------------------------

  lemma ErrorsAt(cv: Conv, a: seq<elem>, b: seq<elem>, c: seq<elem>, gold: seq<elem>, k: nat)
    requires Ready(cv) && k < cv.s.OC * cv.s.Rows()
    requires k < |a| && k < |b| && k < |c| && k < |gold|
    requires IsClose(cv, a)
    requires IsOutput(cv, R_QUANT, b) && IsOutput(cv, R_QUANT, c) && IsOutput(cv, R_QUANT, gold)
    ensures Gap(a[k], gold[k]) <= 1 && Gap(b[k], gold[k]) == 0 && Gap(c[k], gold[k]) == 0
  {
    hide Pos, Requantize, Exact, Ready, Shape.Rows, Shape.OW;
    ReadyIsValid(cv);
    OutputsAgree(cv, R_QUANT, b, gold, k);
    OutputsAgree(cv, R_QUANT, c, gold, k);
    var oc, r := SplitIndex(k, cv.s.OC, cv.s.Rows());
    RowPosition(cv.s, r);
    assert Gap(At(a, Pos(oc, cv.s.Rows(), r)), Requantize(R_QUANT, Exact(cv, oc, r))) <= 1;
    assert At(gold, Pos(oc, cv.s.Rows(), r)) == Requantize(R_QUANT, Exact(cv, oc, r));
  }

  // The static buffers are large enough for the shape, and apart from each other.
  ghost predicate BuffersFit(s: Shape, DIM: nat, input: array<elem>, weight: array<elem>, bias: array<acc>,
                             wsInput: array<elem>, nhwc: array<elem>, im: array<elem>, wsAcc: array<acc>)
    requires s.Valid()
  {
    && wsInput.Length >= s.IC * s.IH * s.IW && nhwc.Length >= s.Rows() * s.OC
    && im.Length >= s.Rows() * s.K() && im.Length >= DIM * s.K()
    && wsAcc.Length >= s.Rows() * s.OC && wsAcc.Length >= DIM * s.OC && wsAcc != bias
    && wsInput != input && wsInput != weight && nhwc != input && nhwc != weight && im != input && im != weight
    && wsInput != nhwc && wsInput != im && nhwc != im
  }

  ghost predicate OutputFits(s: Shape, out: array<elem>, others: set<object>)
    requires s.Valid()
  {
    out.Length >= s.OC * s.Rows() && out !in others
  }

  // bench_run_shape: the errors reported for the two software paths are always zero, and the
  // one for the hardware path is at most one.
  method BenchRunShape(input: array<elem>, weight: array<elem>, bias: array<acc>, ghost cv: Conv, s: Shape, DIM: nat,
                       wsInput: array<elem>, nhwc: array<elem>, im: array<elem>, wsAcc: array<acc>,
                       outGold: array<elem>, outA: array<elem>, outB: array<elem>, outC: array<elem>)
    returns (errA: nat, errB: nat, errC: nat)
    requires Ready(cv) && cv.s == s && Holds(cv, input, weight, bias) && Square(s) && DIM >= 1
    requires BuffersFit(s, DIM, input, weight, bias, wsInput, nhwc, im, wsAcc)
    requires OutputFits(s, outGold, {input, weight, wsInput, nhwc, im})
    requires OutputFits(s, outA, {input, weight, wsInput, nhwc, im, outGold})
    requires OutputFits(s, outB, {input, weight, wsInput, nhwc, im, outGold, outA})
    requires OutputFits(s, outC, {input, weight, wsInput, nhwc, im, outGold, outA, outB})
    modifies wsInput, nhwc, im, wsAcc, outGold, outA, outB, outC
    ensures errA <= 1 && errB == 0 && errC == 0
  {
    hide IsOutput, IsClose, Shape.K, Shape.OW, Shape.Rows, Ready, Square;
    ReadyIsValid(cv);
    Golden(input, weight, bias, outGold, cv, s, R_QUANT);
    PathA(input, weight, bias, cv, s, wsInput, nhwc, outA);
    var _ := PathB(input, weight, bias, cv, s, R_QUANT, DIM, wsInput, im, wsAcc, outB);
    var _ := PathC(input, weight, bias, cv, s, R_QUANT, wsInput, im, wsAcc, outC);
    errA, errB, errC := Errors(cv, s, outGold, outA, outB, outC);
  }

  method Errors(ghost cv: Conv, s: Shape, outGold: array<elem>, outA: array<elem>, outB: array<elem>, outC: array<elem>)
    returns (errA: nat, errB: nat, errC: nat)
    requires Ready(cv) && cv.s == s
    requires outGold.Length >= s.OC * s.Rows() && outA.Length >= s.OC * s.Rows()
    requires outB.Length >= s.OC * s.Rows() && outC.Length >= s.OC * s.Rows()
    requires IsOutput(cv, R_QUANT, outGold[..]) && IsClose(cv, outA[..])
    requires IsOutput(cv, R_QUANT, outB[..]) && IsOutput(cv, R_QUANT, outC[..])
    ensures errA <= 1 && errB == 0 && errC == 0
  {
    hide IsOutput, IsClose, Shape.Rows, Ready, Gap;
    ReadyIsValid(cv);
    var n := s.OC * s.Rows();
    errA := MaxAbsErr(outA, outGold, n);
    errB := MaxAbsErr(outB, outGold, n);
    errC := MaxAbsErr(outC, outGold, n);
    forall k | 0 <= k < n
      ensures Gap(outA[k], outGold[k]) <= 1 && Gap(outB[k], outGold[k]) == 0 && Gap(outC[k], outGold[k]) == 0
    {
      ErrorsAt(cv, outA[..], outB[..], outC[..], outGold[..], k);
    }
  }
}
