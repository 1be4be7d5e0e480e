// The per-axis filter of the estimator: position, velocity and accelerometer bias, with the
// covariance kept as six scalars. The specification is the textbook filter on full matrices.
module Kalman {
  import opened Linear3

  // ---- the filter on matrices -------------------------------------------------------

  // State (p, v, ba), its covariance, and the two process-noise variances.
  datatype Filter = Filter(x: Vec, P: Mat, sa2: real, sba2: real)

  function Half(dt: real): (r: real) { 0.5 * dt * dt }

  function F(dt: real): (m: Mat) {
    Mat(Vec(1.0, dt, -Half(dt)), Vec(0.0, 1.0, -dt), Vec(0.0, 0.0, 1.0))
  }

  // How measured acceleration enters the state.
  function B(dt: real): (u: Vec) { Vec(Half(dt), dt, 0.0) }

  // Accelerometer white noise into position and velocity, random walk into the bias.
  function Q(dt: real, sa2: real, sba2: real): (m: Mat) {
    Mat(Vec(sa2 * (Half(dt) * Half(dt)), sa2 * (Half(dt) * dt), 0.0),
        Vec(sa2 * (Half(dt) * dt), sa2 * (dt * dt), 0.0),
        Vec(0.0, 0.0, sba2 * (dt * dt)))
  }

  function Predicted(k: Filter, a: real, dt: real): (r: Filter) {
    k.(x := Add(Apply(F(dt), k.x), Scaled(a, B(dt))),
       P := MatAdd(Mul(Mul(F(dt), k.P), Transpose(F(dt))), Q(dt, k.sa2, k.sba2)))
  }

  // What a scalar measurement observes.
  datatype Observed = Position | Velocity

  function Index(o: Observed): (i: nat)
    ensures i < 3
  {
    if o.Position? then 0 else 1
  }

  // The innovation variance.
  function S(k: Filter, o: Observed, r: real): (s: real) {
    k.P.Row(Index(o)).At(Index(o)) + r
  }

  function Innovation(k: Filter, o: Observed, meas: real): (e: real) {
    meas - k.x.At(Index(o))
  }

  // The chi-square gate: an innovation too large for its variance is rejected.
  predicate Gated(resid: real, s: real, gate: real) {
    gate > 0.0 && resid * resid > gate * s
  }

  function Gain(k: Filter, o: Observed, r: real): (g: Vec)
    requires S(k, o, r) != 0.0
  {
    Scaled(Inverse(S(k, o, r)), Apply(k.P, Unit(Index(o))))
  }

  // I - K H for the measurement of one coordinate.
  function Shrink(g: Vec, i: nat): (m: Mat)
    requires i < 3
  {
    var h := Unit(i);
    Mat(Add(Unit(0), Scaled(-g.x, h)), Add(Unit(1), Scaled(-g.y, h)), Add(Unit(2), Scaled(-g.z, h)))
  }

  function Corrected(k: Filter, o: Observed, meas: real, r: real): (c: Filter)
    requires S(k, o, r) != 0.0
  {
    var g := Gain(k, o, r);
    k.(x := Add(k.x, Scaled(Innovation(k, o, meas), g)), P := Mul(Shrink(g, Index(o)), k.P))
  }

  function Updated(k: Filter, o: Observed, meas: real, r: real, gate: real): (c: Filter)
    requires Gated(Innovation(k, o, meas), S(k, o, r), gate) || S(k, o, r) != 0.0
  {
    if Gated(Innovation(k, o, meas), S(k, o, r), gate) then k else Corrected(k, o, meas, r)
  }

  // ---- the covariance stays a covariance --------------------------------------------

  ghost predicate Healthy(k: Filter) {
    Psd(k.P) && k.sa2 >= 0.0 && k.sba2 >= 0.0
  }

  lemma NoiseAlgebra(h: real, d: real, a: real, b: real, x: real, y: real, z: real)
    ensures x * (a * (h * h) * x + a * (h * d) * y + 0.0 * z) + y * (a * (h * d) * x + a * (d * d) * y + 0.0 * z)
            + z * (0.0 * x + 0.0 * y + b * (d * d) * z)
            == a * ((h * x + d * y) * (h * x + d * y)) + b * ((d * z) * (d * z))
  {
  }

  lemma NoiseForm(dt: real, sa2: real, sba2: real, v: Vec)
    ensures var u, w := Half(dt) * v.x + dt * v.y, dt * v.z;
            Quad(Q(dt, sa2, sba2), v) == sa2 * (u * u) + sba2 * (w * w)
  {
    hide Half;
    NoiseAlgebra(Half(dt), dt, sa2, sba2, v.x, v.y, v.z);
  }

  lemma SquareScaled(c: real, u: real)
    requires c >= 0.0
    ensures c * (u * u) >= 0.0
  {
  }

  lemma NoiseNonNegative(dt: real, sa2: real, sba2: real, v: Vec)
    requires sa2 >= 0.0 && sba2 >= 0.0
    ensures Quad(Q(dt, sa2, sba2), v) >= 0.0
  {
    hide Quad, Q, Half;
    NoiseForm(dt, sa2, sba2, v);
    SquareScaled(sa2, Half(dt) * v.x + dt * v.y);
    SquareScaled(sba2, dt * v.z);
  }

  lemma NoisePsd(dt: real, sa2: real, sba2: real)
    requires sa2 >= 0.0 && sba2 >= 0.0
    ensures Psd(Q(dt, sa2, sba2))
  {
    forall v ensures Quad(Q(dt, sa2, sba2), v) >= 0.0 {
      NoiseNonNegative(dt, sa2, sba2, v);
    }
  }

  lemma PredictedHealthy(k: Filter, a: real, dt: real)
    requires Healthy(k)
    ensures Healthy(Predicted(k, a, dt))
  {
    hide Psd, Mul, MatAdd, Transpose, Q, F;
    PsdCongruence(F(dt), k.P);
    NoisePsd(dt, k.sa2, k.sba2);
    PsdAdd(Mul(Mul(F(dt), k.P), Transpose(F(dt))), Q(dt, k.sa2, k.sba2));
  }

  // Every divisor is positive.
  lemma InnovationVariancePositive(k: Filter, o: Observed, r: real)
    requires Healthy(k) && r > 0.0
    ensures S(k, o, r) > 0.0
  {
    PsdDiagonal(k.P, Index(o));
  }

  // (I - K H) v for a column v: subtract v's observed coordinate times the gain.
  lemma ShrinkApply(g: Vec, i: nat, v: Vec)
    requires i < 3
    ensures Apply(Shrink(g, i), v) == Add(v, Scaled(-v.At(i), g))
  {
  }

  lemma RowIsColumn(p: Mat, i: nat, v: Vec)
    requires i < 3 && Symmetric(p)
    ensures Apply(p, v).At(i) == Dot(v, Apply(p, Unit(i)))
    ensures Apply(p, Unit(i)).At(i) == p.Row(i).At(i)
  {
  }

  lemma MulEq(a: real, b: real, c: real)
    requires b == c
    ensures a * b == a * c
  {
  }

  // The corrected form is the old one less the square of the observed direction over s.
  lemma CorrectedForm(p: Mat, i: nat, s: real, v: Vec, t: real)
    requires i < 3 && Symmetric(p) && s != 0.0
    requires Times(t, s) == Apply(p, v).At(i)
    ensures Quad(Mul(Shrink(Scaled(Inverse(s), Apply(p, Unit(i))), i), p), v) == Quad(p, v) - Times(Times(t, t), s)
  {
    var c := Apply(p, Unit(i));
    var g := Scaled(Inverse(s), c);
    var w := Apply(p, v);
    hide Dot, Apply, Mul, Scaled, Add, Shrink, Unit, Symmetric, Vec.At, Times, Inverse;
    var u := w.At(i);
    ApplyMul(Shrink(g, i), p, v);
    ShrinkApply(g, i, w);
    RowIsColumn(p, i, v);
    DotAdd(v, w, Scaled(-u, g));
    DotScale(v, g, -u);
    DotScale(v, c, Inverse(s));
    Quotient(s, t, u);
  }

  lemma Quotient(s: real, t: real, u: real)
    requires s != 0.0 && Times(t, s) == u
    ensures Times(-u, Times(Inverse(s), u)) == -Times(Times(t, t), s)
  {
    assert (1.0 / s) * u == t;
    MulEq(u, (1.0 / s) * u, t);
    MulEq(t, u, t * s);
  }

  lemma ShiftedBy(p: Mat, v: Vec, t: real, e: Vec, c: Vec, a: Vec, u: real, d: real)
    requires c == Apply(p, e) && a == Apply(p, v)
    requires Dot(e, a) == u && Dot(e, c) == d && Dot(v, c) == u
    ensures Quad(p, Add(v, Scaled(-t, e))) == Quad(p, v) - 2.0 * Times(t, u) + Times(Times(t, t), d)
  {
    hide Dot, Apply, Add, Scaled, Times;
    QuadSum(p, v, Scaled(-t, e));
    ApplyLinear(p, e, e, -t);
    DotScale(v, c, -t);
    DotScale(a, e, -t);
    DotScale(Scaled(-t, c), e, -t);
    DotScale(e, c, -t);
    Negations(t, u, d);
  }

  // Moving v along a coordinate: completing the square.
  lemma ShiftedForm(p: Mat, i: nat, v: Vec, t: real)
    requires i < 3 && Symmetric(p)
    ensures Quad(p, Add(v, Scaled(-t, Unit(i)))) ==
            Quad(p, v) - 2.0 * Times(t, Apply(p, v).At(i)) + Times(Times(t, t), p.Row(i).At(i))
  {
    hide Quad, Dot, Apply, Add, Scaled, Unit, Symmetric, Vec.At, Mat.Row, Times;
    var e, c, a := Unit(i), Apply(p, Unit(i)), Apply(p, v);
    UnitDot(i, a);
    UnitDot(i, c);
    RowIsColumn(p, i, v);
    ShiftedBy(p, v, t, e, c, a, a.At(i), p.Row(i).At(i));
  }

  lemma UnitDot(i: nat, v: Vec)
    requires i < 3
    ensures Dot(Unit(i), v) == v.At(i)
  {
  }

  lemma Negations(t: real, u: real, d: real)
    ensures Times(-t, u) == -Times(t, u)
    ensures Times(-t, Times(-t, d)) == Times(Times(t, t), d)
  {
  }

  // So it is non-negative when the old one is and the measurement variance is positive.
  lemma CorrectedNonNegative(p: Mat, i: nat, r: real, v: Vec)
    requires i < 3 && Psd(p) && r > 0.0
    ensures p.Row(i).At(i) + r != 0.0
    ensures Quad(Mul(Shrink(Scaled(Inverse(p.Row(i).At(i) + r), Apply(p, Unit(i))), i), p), v) >= 0.0
  {
    PsdDiagonal(p, i);
    hide Quad, Apply, Mul, Scaled, Add, Shrink, Unit, Vec.At, Mat.Row, Times, Inverse;
    var d, u := p.Row(i).At(i), Apply(p, v).At(i);
    var t := Times(u, Inverse(d + r));
    DivMul(u, d + r);
    CorrectedForm(p, i, d + r, v, t);
    ShiftedForm(p, i, v, t);
    assert Quad(p, Add(v, Scaled(-t, Unit(i)))) >= 0.0;
    CompleteSquare(Quad(p, v), t, u, d, r);
  }

  lemma DivMul(u: real, s: real)
    requires s != 0.0
    ensures Times(Times(u, Inverse(s)), s) == u
  {
  }

  lemma CompleteSquare(q: real, t: real, u: real, d: real, r: real)
    requires Times(t, d + r) == u && r > 0.0
    requires q - 2.0 * Times(t, u) + Times(Times(t, t), d) >= 0.0
    ensures q - Times(Times(t, t), d + r) >= 0.0
  {
    MulEq(t, u, t * (d + r));
    SquareScaled(r, t);
  }

  lemma CorrectedSymmetric(p: Mat, i: nat, s: real)
    requires i < 3 && Symmetric(p) && s != 0.0
    ensures Symmetric(Mul(Shrink(Scaled(Inverse(s), Apply(p, Unit(i))), i), p))
  {
  }

  lemma CorrectedHealthy(k: Filter, o: Observed, meas: real, r: real)
    requires Healthy(k) && r > 0.0
    ensures S(k, o, r) > 0.0
    ensures Healthy(Corrected(k, o, meas, r))
  {
    InnovationVariancePositive(k, o, r);
    CorrectedSymmetric(k.P, Index(o), S(k, o, r));
    hide Quad, Apply, Mul, Scaled, Add, Shrink, Unit, Symmetric;
    var p' := Corrected(k, o, meas, r).P;
    forall v ensures Quad(p', v) >= 0.0 {
      CorrectedNonNegative(k.P, Index(o), r, v);
    }
  }
}
