// Requantisation of a 32-bit accumulator to an 8-bit output: the two-stage rounding of the
// software paths, and the single-stage rounding with a folded scale.
module Requant {
  import opened Arithmetic
  import opened ConvSpec

  const Q31: int := 0x8000_0000
  const HALF_Q31: int := 0x4000_0000

  function Pow2(n: nat): (r: int)
    ensures r >= 1
  {
    if n == 0 then 1 else 2 * Pow2(n - 1)
  }

  // C's conversions to 32 and 8 bits.
  function ToInt32(x: int): (r: acc) {
    var m := x % 0x1_0000_0000;
    (if m < 0x8000_0000 then m else m - 0x1_0000_0000) as acc
  }

  function ToInt8(x: int): (r: elem) {
    var m := x % 0x100;
    (if m < 0x80 then m else m - 0x100) as elem
  }

  // An arithmetic right shift rounds towards minus infinity; so does / by a positive divisor.
  function RoundQ31(a: int, scale: int): (r: int) {
    (a * scale + HALF_Q31) / Q31
  }

  datatype Quant = Quant(mult: int, shift: int, off: int, amin: int, amax: int)

  function Scale(q: Quant, a: acc): (r: acc) {
    var s := ToInt32(RoundQ31(a as int, q.mult));
    if q.shift > 0 then ToInt32((s as int + Pow2(q.shift - 1)) / Pow2(q.shift))
    else if q.shift < 0 then ToInt32(s as int * Pow2(-q.shift))
    else s
  }

  function Clamp(q: Quant, x: int): (r: int) {
    var s := if x < q.amin then q.amin else x;
    if s > q.amax then q.amax else s
  }

  // The whole step: scale in two roundings, add the offset, clamp, narrow.
  function Requantize(q: Quant, a: acc): (r: elem) {
    ToInt8(Clamp(q, ToInt32(Scale(q, a) as int + q.off) as int))
  }

  // The multiplier and shift folded into one Q0.31 scale.
  function Fold(mult: int, shift: nat): (r: int) {
    if shift == 0 then mult else (mult + Pow2(shift - 1)) / Pow2(shift)
  }

  // ---- folding costs at most one unit -----------------------------------------------

  lemma DivBracket(x: int, d: int)
    requires d > 0
    ensures d * (x / d) <= x < d * (x / d) + d
  {
  }

  lemma ProductWithin(a: int, b: int, A: int, B: int)
    requires -A <= a <= A && -B <= b <= B
    ensures -(A * B) <= a * b <= A * B
  {
    if b >= 0 {
      MulMono(-A, a, b);
      MulMono(a, A, b);
      MulMono(b, B, A);
    } else {
      MulMono(-A, a, -b);
      MulMono(a, A, -b);
      MulMono(-b, B, A);
    }
  }

  lemma ScaleFits(a: int, mult: int)
    requires -Q31 <= a < Q31 && 0 <= mult < Q31
    ensures -Q31 < RoundQ31(a, mult) < Q31
  {
    MulMono(-Q31, a, mult);
    MulMono(a, Q31 - 1, mult);
    DivBracket(a * mult + HALF_Q31, Q31);
  }

  lemma ToInt32Fits(x: int)
    requires -Q31 <= x < Q31
    ensures ToInt32(x) as int == x
  {
  }

  lemma ToInt8Fits(x: int)
    requires -128 <= x < 128
    ensures ToInt8(x) as int == x
  {
  }

  lemma RoundingIdentity(a: int, m: int, p: int, s1: int, s2: int, m': int, t: int)
    ensures Q31 * (2 * (p * (s2 - t))) ==
            -(a * m - Q31 * s1) - Q31 * (s1 - 2 * p * s2) + a * (m - 2 * p * m') + 2 * (p * (a * m' - Q31 * t))
  {
    assert a * (m - 2 * p * m') == a * m - 2 * (a * p * m');
    assert p * (a * m' - Q31 * t) == a * p * m' - Q31 * (p * t);
    assert p * (s2 - t) == p * s2 - p * t;
  }

  lemma BelowTwo(p: int, d: int)
    requires p >= 1 && -2 * p < p * d < 2 * p
    ensures -1 <= d <= 1
  {
    if d >= 2 {
      MulMono(2, d, p);
    } else if d <= -2 {
      MulMono(d, -2, p);
    }
  }

  // Four roundings, each off by at most half a step, cannot add up to two steps.
  lemma FourRoundings(a: int, m: int, p: int, s1: int, s2: int, m': int, t: int)
    requires p >= 1 && -Q31 <= a <= Q31
    requires -HALF_Q31 <= a * m - Q31 * s1 < HALF_Q31
    requires -p <= s1 - 2 * p * s2 < p
    requires -p <= m - 2 * p * m' < p
    requires -HALF_Q31 <= a * m' - Q31 * t < HALF_Q31
    ensures -1 <= s2 - t <= 1
  {
    RoundingIdentity(a, m, p, s1, s2, m', t);
    ProductWithin(a, m - 2 * p * m', Q31, p);
    ProductWithin(p, a * m' - Q31 * t, p, HALF_Q31);
    RoundingBound(p, p * (s2 - t), a * m - Q31 * s1, s1 - 2 * p * s2, a * (m - 2 * p * m'), p * (a * m' - Q31 * t));
    BelowTwo(p, s2 - t);
  }

  lemma RoundingBound(p: int, x: int, e1: int, e2: int, e3: int, e4: int)
    requires p >= 1 && Q31 * (2 * x) == -e1 - Q31 * e2 + e3 + 2 * e4
    requires -HALF_Q31 <= e1 <= HALF_Q31 && -p <= e2 <= p
    requires -(Q31 * p) <= e3 <= Q31 * p && -(p * HALF_Q31) <= e4 <= p * HALF_Q31
    ensures -2 * p < x < 2 * p
  {
  }

  // For every accumulator, multiplier and shift: one rounding with the folded scale is within
  // one unit of the two roundings, both before and after clamping.
  lemma FoldedWithinOne(q: Quant, a: acc)
    requires 0 <= q.mult < Q31 && q.shift >= 1
    ensures var x, y := Scale(q, a) as int, RoundQ31(a as int, Fold(q.mult, q.shift));
            -1 <= x - y <= 1 && (q.amin <= q.amax ==> -1 <= Clamp(q, x) - Clamp(q, y) <= 1)
  {
    hide RoundQ31, Scale, Fold, ToInt32;
    var p := Pow2(q.shift - 1);
    ScaleForms(q, a);
    var s1, m' := RoundQ31(a as int, q.mult), Fold(q.mult, q.shift);
    var s2, t := (s1 + p) / (2 * p), RoundQ31(a as int, m');
    RoundingsOf(a as int, q.mult, p, s1, s2, m', t);
    ScaleFits(a as int, q.mult);
    ToInt32Fits(s1);
    HalvedFits(s1, s2, p);
    ToInt32Fits(s2);
    FourRoundings(a as int, q.mult, p, s1, s2, m', t);
  }

  lemma ScaleForms(q: Quant, a: acc)
    requires q.shift >= 1
    ensures var p := Pow2(q.shift - 1);
            && Fold(q.mult, q.shift) == (q.mult + p) / (2 * p)
            && Scale(q, a) == ToInt32((ToInt32(RoundQ31(a as int, q.mult)) as int + p) / (2 * p))
  {
    hide RoundQ31, ToInt32;
    assert Pow2(q.shift) == 2 * Pow2(q.shift - 1);
  }

  lemma RoundingsOf(a: int, m: int, p: int, s1: int, s2: int, m': int, t: int)
    requires p >= 1
    requires s1 == RoundQ31(a, m) && s2 == (s1 + p) / (2 * p)
    requires m' == (m + p) / (2 * p) && t == RoundQ31(a, m')
    ensures -HALF_Q31 <= a * m - Q31 * s1 < HALF_Q31
    ensures -p <= s1 - 2 * p * s2 < p
    ensures -p <= m - 2 * p * m' < p
    ensures -HALF_Q31 <= a * m' - Q31 * t < HALF_Q31
  {
    DivBracket(a * m + HALF_Q31, Q31);
    DivBracket(s1 + p, 2 * p);
    DivBracket(m + p, 2 * p);
    DivBracket(a * m' + HALF_Q31, Q31);
  }

  lemma HalvedFits(s1: int, s2: int, p: int)
    requires p >= 1 && -Q31 < s1 < Q31 && -p <= s1 - 2 * p * s2 < p
    ensures -Q31 <= s2 < Q31
  {
    if s2 >= Q31 {
      MulMono(Q31, s2, 2 * p);
      MulMono(1, p, Q31);
    } else if s2 < -Q31 {
      MulMono(s2, -Q31 - 1, 2 * p);
      MulMono(1, p, Q31);
    }
  }
}
