// The correction computes the best covariance any gain could give. The error covariance after
// correcting with a gain g is (I - g H) P (I - g H)' + r g g', for any g at all; the step
// (I - K H) P with K = P H' / S is its minimum, in every direction.
module KalmanGain {
  import opened Linear3
  import opened Kalman

  function Outer(g: Vec, r: real): (m: Mat) {
    Mat(Scaled(Times(r, g.x), g), Scaled(Times(r, g.y), g), Scaled(Times(r, g.z), g))
  }

  // The covariance after a correction by an arbitrary gain.
  function WithGain(p: Mat, i: nat, r: real, g: Vec): (m: Mat)
    requires i < 3
  {
    MatAdd(Mul(Mul(Shrink(g, i), p), Transpose(Shrink(g, i))), Outer(g, r))
  }

  lemma ShrinkTransposed(g: Vec, i: nat, v: Vec)
    requires i < 3
    ensures Apply(Transpose(Shrink(g, i)), v) == Add(v, Scaled(-Dot(g, v), Unit(i)))
  {
  }

  lemma OuterRow(g: Vec, r: real, v: Vec)
    ensures Apply(Outer(g, r), v) == Scaled(Times(r, Dot(g, v)), g)
  {
    hide Dot, Scaled, Times;
    DotScale(v, g, Times(r, g.x));
    DotScale(v, g, Times(r, g.y));
    DotScale(v, g, Times(r, g.z));
    ThreeScaled(r, g, Dot(g, v));
    DotCommutes(g, v);
  }

  lemma ThreeScaled(r: real, g: Vec, d: real)
    ensures Scaled(Times(r, d), g) == Vec(Times(Times(r, g.x), d), Times(Times(r, g.y), d), Times(Times(r, g.z), d))
  {
  }

  lemma OuterForm(g: Vec, r: real, v: Vec)
    ensures Quad(Outer(g, r), v) == Times(r, Times(Dot(g, v), Dot(g, v)))
  {
    hide Dot, Scaled, Times, Outer, Apply;
    OuterRow(g, r, v);
    DotScale(v, g, Times(r, Dot(g, v)));
    DotCommutes(g, v);
    Reassociate(r, Dot(g, v));
  }

  lemma Reassociate(r: real, d: real)
    ensures Times(Times(r, d), d) == Times(r, Times(d, d))
  {
  }

  // With t = g.v, the form after a correction is q - 2 t u + t^2 s.
  lemma WithGainForm(p: Mat, i: nat, r: real, g: Vec, v: Vec)
    requires i < 3 && Symmetric(p)
    ensures
      var t, u, s := Dot(g, v), Apply(p, v).At(i), p.Row(i).At(i) + r;
      Quad(WithGain(p, i, r, g), v) == Quad(p, v) - 2.0 * Times(t, u) + Times(Times(t, t), s)
  {
    var t, f := Dot(g, v), Shrink(g, i);
    hide Quad, Dot, Apply, Mul, MatAdd, Transpose, Shrink, Outer, Times, Add, Scaled, Unit, Symmetric, Vec.At, Mat.Row;
    QuadAdd(Mul(Mul(f, p), Transpose(f)), Outer(g, r), v);
    QuadCongruence(f, p, v);
    ShrinkTransposed(g, i, v);
    ShiftedForm(p, i, v, t);
    OuterForm(g, r, v);
    Distribute(t, p.Row(i).At(i), r);
  }

  lemma Distribute(t: real, d: real, r: real)
    ensures Times(Times(t, t), d + r) == Times(Times(t, t), d) + Times(r, Times(t, t))
  {
  }

  // No gain does better in any direction, and the source's own gain attains the minimum.
  lemma GainOptimal(k: Filter, o: Observed, meas: real, r: real, g: Vec, v: Vec)
    requires Healthy(k) && r > 0.0
    ensures S(k, o, r) > 0.0
    ensures Quad(Corrected(k, o, meas, r).P, v) <= Quad(WithGain(k.P, Index(o), r, g), v)
    ensures Quad(Corrected(k, o, meas, r).P, v) == Quad(WithGain(k.P, Index(o), r, Gain(k, o, r)), v)
  {
    InnovationVariancePositive(k, o, r);
    var p, i, s := k.P, Index(o), S(k, o, r);
    var u := Apply(p, v).At(i);
    var t := Times(u, Inverse(s));
    hide Quad, Dot, Mul, Shrink, Scaled, Add, Unit, Vec.At, Mat.Row, Times, Inverse, Apply, WithGain;
    DivMul(u, s);
    CorrectedForm(p, i, s, v, t);
    OwnGain(k, o, r, v);
    WithGainForm(p, i, r, g, v);
    WithGainForm(p, i, r, Gain(k, o, r), v);
    SquareCompleted(Dot(g, v), t, u, s);
    SquareCompleted(t, t, u, s);
  }

  lemma OwnGain(k: Filter, o: Observed, r: real, v: Vec)
    requires Symmetric(k.P) && S(k, o, r) != 0.0
    ensures Dot(Gain(k, o, r), v) == Times(Apply(k.P, v).At(Index(o)), Inverse(S(k, o, r)))
  {
    var i, c := Index(o), Apply(k.P, Unit(Index(o)));
    hide Dot, Apply, Scaled, Times, Inverse, Vec.At, Unit, S, Symmetric;
    RowIsColumn(k.P, i, v);
    DotScale(v, c, Inverse(S(k, o, r)));
    DotCommutes(v, c);
    TimesCommutes(Inverse(S(k, o, r)), Dot(c, v));
  }

  lemma SquareCompleted(t': real, t: real, u: real, s: real)
    requires Times(t, s) == u && s > 0.0
    ensures -Times(Times(t, t), s) <= -(2.0 * Times(t', u)) + Times(Times(t', t'), s)
    ensures t' == t ==> -Times(Times(t, t), s) == -(2.0 * Times(t', u)) + Times(Times(t', t'), s)
  {
    SquareScaled(s, t' - t);
    MulEq(t', u, t * s);
    MulEq(t, u, t * s);
  }
}
