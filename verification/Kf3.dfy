// The filter as the estimator stores it: nine scalars updated in place. Each operation is
// proved to be one step of the filter on full matrices. Times and Over are the source's
// product and quotient of two numbers, named so that proofs can treat them as terms.
module Kf3Filter {
  import opened Linear3
  import opened Kalman
  import opened KalmanRuns
  import opened KalmanLaws

  function SymmetricOf(p00: real, p01: real, p02: real, p11: real, p12: real, p22: real): (m: Mat) {
    Mat(Vec(p00, p01, p02), Vec(p01, p11, p12), Vec(p02, p12, p22))
  }

  class Kf3 {
    var p: real
    var v: real
    var ba: real
    var P00: real
    var P01: real
    var P02: real
    var P11: real
    var P12: real
    var P22: real
    var sigmaA2: real
    var sigmaBa2: real

    // The filter these scalars stand for: the covariance is the symmetric matrix with them
    // as its upper triangle.
    ghost function Model(): (k: Filter)
      reads this
    {
      Filter(Vec(p, v, ba), SymmetricOf(P00, P01, P02, P11, P12, P22), sigmaA2, sigmaBa2)
    }

    constructor (p0: real, sigmaA: real, sigmaBa: real, p22: real)
      ensures Model() == Initial(p0, sigmaA, sigmaBa, p22)
      ensures p == p0 && v == 0.0 && ba == 0.0 && P00 == 0.01 && P11 == 0.01 && P22 == p22
      ensures P01 == 0.0 && P02 == 0.0 && P12 == 0.0 && sigmaA2 == sigmaA * sigmaA && sigmaBa2 == sigmaBa * sigmaBa
    {
      p, v, ba := p0, 0.0, 0.0;
      P00, P11, P22 := 0.01, 0.01, p22;
      P01, P02, P12 := 0.0, 0.0, 0.0;
      sigmaA2 := sigmaA * sigmaA;
      sigmaBa2 := sigmaBa * sigmaBa;
    }

    method Predict(aMeas: real, dt: real)
      modifies this
      ensures Model() == Predicted(old(Model()), aMeas, dt)
      ensures p == old(p) + Times(old(v), dt) + Times(0.5 * dt * dt, aMeas - old(ba))
      ensures v == old(v) + Times(aMeas - old(ba), dt) && ba == old(ba)
    {
      HalfIs(dt);
      hide Predicted, Times, Half;
      ScalarsPredicted(Model(), aMeas, dt);
      var h2 := Half(dt);
      var a := aMeas - ba;
      p := p + (Times(v, dt) + Times(h2, a));
      v := v + Times(a, dt);

      var a00 := P00 + Times(dt, P01) - Times(h2, P02);
      var a01 := P01 + Times(dt, P11) - Times(h2, P12);
      var a02 := P02 + Times(dt, P12) - Times(h2, P22);
      var a11 := P11 - Times(dt, P12);
      var a12 := P12 - Times(dt, P22);
      var a22 := P22;
      var np00 := a00 + Times(a01, dt) - Times(a02, h2);
      var np01 := a01 - Times(a02, dt);
      var np02 := a02;
      var np11 := a11 - Times(a12, dt);
      var np12 := a12;
      var np22 := a22;
      var dt2 := Times(dt, dt);
      var dt3 := Times(dt2, dt);
      var dt4 := Times(dt2, dt2);
      np00 := np00 + Times(sigmaA2, dt4) * 0.25;
      np01 := np01 + Times(sigmaA2, dt3) * 0.5;
      np11 := np11 + Times(sigmaA2, dt2);
      np22 := np22 + Times(sigmaBa2, dt2);
      P00, P01, P02, P11, P12, P22 := np00, np01, np02, np11, np12, np22;
    }

    // Whether the sample was used; a gated one leaves everything as it was.
    method UpdatePos(meas: real, r: real, gate: real) returns (accepted: bool)
      requires Gated(Innovation(Model(), Position, meas), S(Model(), Position, r), gate)
               || S(Model(), Position, r) != 0.0
      modifies this
      ensures accepted <==> gate <= 0.0 || (meas - old(p)) * (meas - old(p)) <= gate * (old(P00) + r)
      ensures !accepted ==> Model() == old(Model())
      ensures Model() == Updated(old(Model()), Position, meas, r, gate)
    {
      hide Corrected, Times, Over, Gated;
      var s := P00 + r;
      var resid := meas - p;
      GateWithin(resid, s, gate);
      if Gated(resid, s, gate) {
        return false;
      }
      ScalarsCorrected(Model(), Position, meas, r);
      var k0, k1, k2 := Over(P00, s), Over(P01, s), Over(P02, s);
      p, v, ba := p + Times(k0, resid), v + Times(k1, resid), ba + Times(k2, resid);
      var np00 := P00 - Times(k0, P00);
      var np01 := P01 - Times(k0, P01);
      var np02 := P02 - Times(k0, P02);
      var np11 := P11 - Times(k1, P01);
      var np12 := P12 - Times(k1, P02);
      var np22 := P22 - Times(k2, P02);
      P00, P01, P02, P11, P12, P22 := np00, np01, np02, np11, np12, np22;
      return true;
    }

    method UpdateVel(meas: real, r: real, gate: real) returns (accepted: bool)
      requires Gated(Innovation(Model(), Velocity, meas), S(Model(), Velocity, r), gate)
               || S(Model(), Velocity, r) != 0.0
      modifies this
      ensures accepted <==> gate <= 0.0 || (meas - old(v)) * (meas - old(v)) <= gate * (old(P11) + r)
      ensures !accepted ==> Model() == old(Model())
      ensures Model() == Updated(old(Model()), Velocity, meas, r, gate)
    {
      hide Corrected, Times, Over, Gated;
      var s := P11 + r;
      var resid := meas - v;
      GateWithin(resid, s, gate);
      if Gated(resid, s, gate) {
        return false;
      }
      ScalarsCorrected(Model(), Velocity, meas, r);
      var k0, k1, k2 := Over(P01, s), Over(P11, s), Over(P12, s);
      p, v, ba := p + Times(k0, resid), v + Times(k1, resid), ba + Times(k2, resid);
      var np00 := P00 - Times(k0, P01);
      var np01 := P01 - Times(k0, P11);
      var np02 := P02 - Times(k0, P12);
      var np11 := P11 - Times(k1, P11);
      var np12 := P12 - Times(k1, P12);
      var np22 := P22 - Times(k2, P12);
      P00, P01, P02, P11, P12, P22 := np00, np01, np02, np11, np12, np22;
      return true;
    }
  }

  lemma HalfIs(dt: real)
    ensures Half(dt) == 0.5 * dt * dt
  {
  }

  // ---- the scalar formulas are the matrix step --------------------------------------

  lemma StatePredicted(x: Vec, a: real, dt: real)
    ensures var acc := a - x.z;
            Add(Apply(F(dt), x), Scaled(a, B(dt)))
            == Vec(x.x + (Times(x.y, dt) + Times(Half(dt), acc)), x.y + Times(acc, dt), x.z)
  {
  }

  lemma ApplyF(dt: real, v: Vec)
    ensures Apply(F(dt), v) ==
            Vec(v.x + Times(v.y, dt) - Times(v.z, Half(dt)), v.y - Times(v.z, dt), v.z)
  {
    hide Half;
  }

  lemma MulF(dt: real, p: Mat)
    requires Symmetric(p)
    ensures
      var h2, m := Half(dt), Mul(F(dt), p);
      && m.r0 == Vec(p.r0.x + Times(dt, p.r0.y) - Times(h2, p.r0.z),
                     p.r0.y + Times(dt, p.r1.y) - Times(h2, p.r1.z),
                     p.r0.z + Times(dt, p.r1.z) - Times(h2, p.r2.z))
      && m.r1 == Vec(p.r0.y - Times(dt, p.r0.z), p.r1.y - Times(dt, p.r1.z), p.r1.z - Times(dt, p.r2.z))
      && m.r2 == p.r2
  {
    hide Half;
  }

  lemma MulTransposeF(dt: real, m: Mat)
    ensures Mul(m, Transpose(F(dt))) == Mat(Apply(F(dt), m.r0), Apply(F(dt), m.r1), Apply(F(dt), m.r2))
  {
    hide Apply;
    TransposeTwice(F(dt));
  }

  // The prior covariance carried through the dynamics, from its upper triangle.
  lemma CovarianceCarried(p: Mat, dt: real)
    requires Symmetric(p)
    ensures
      var h2 := Half(dt);
      var a01 := p.r0.y + Times(dt, p.r1.y) - Times(h2, p.r1.z);
      var a02 := p.r0.z + Times(dt, p.r1.z) - Times(h2, p.r2.z);
      var a12 := p.r1.z - Times(dt, p.r2.z);
      Mul(Mul(F(dt), p), Transpose(F(dt))) == SymmetricOf(
        p.r0.x + Times(dt, p.r0.y) - Times(h2, p.r0.z) + Times(a01, dt) - Times(a02, h2),
        a01 - Times(a02, dt), a02,
        p.r1.y - Times(dt, p.r1.z) - Times(a12, dt), a12,
        p.r2.z)
  {
    var m := Mul(F(dt), p);
    CongruenceSymmetric(F(dt), p);
    hide Mul, Apply, F, Times, Half;
    MulF(dt, p);
    MulTransposeF(dt, m);
    ApplyF(dt, m.r0);
    ApplyF(dt, m.r1);
    ApplyF(dt, m.r2);
  }

  lemma NoiseScalars(dt: real, sa2: real, sba2: real)
    ensures
      var dt2 := Times(dt, dt);
      Q(dt, sa2, sba2) == SymmetricOf(Times(sa2, Times(dt2, dt2)) * 0.25, Times(sa2, Times(dt2, dt)) * 0.5, 0.0,
                                      Times(sa2, dt2), 0.0, Times(sba2, dt2))
  {
  }

  lemma ScalarsPredicted(k: Filter, a: real, dt: real)
    requires Symmetric(k.P)
    ensures
      var p, h2, acc := k.P, Half(dt), a - k.x.z;
      var a01 := p.r0.y + Times(dt, p.r1.y) - Times(h2, p.r1.z);
      var a02 := p.r0.z + Times(dt, p.r1.z) - Times(h2, p.r2.z);
      var a12 := p.r1.z - Times(dt, p.r2.z);
      var dt2 := Times(dt, dt);
      Predicted(k, a, dt) ==
      k.(x := Vec(k.x.x + (Times(k.x.y, dt) + Times(h2, acc)), k.x.y + Times(acc, dt), k.x.z),
         P := SymmetricOf(
           p.r0.x + Times(dt, p.r0.y) - Times(h2, p.r0.z) + Times(a01, dt) - Times(a02, h2)
             + Times(k.sa2, Times(dt2, dt2)) * 0.25,
           a01 - Times(a02, dt) + Times(k.sa2, Times(dt2, dt)) * 0.5,
           a02,
           p.r1.y - Times(dt, p.r1.z) - Times(a12, dt) + Times(k.sa2, dt2),
           a12,
           p.r2.z + Times(k.sba2, dt2)))
  {
    hide Apply, Mul, Q, F, B, Scaled, Times, Half;
    StatePredicted(k.x, a, dt);
    CovarianceCarried(k.P, dt);
    NoiseScalars(dt, k.sa2, k.sba2);
  }

  lemma GainScalars(k: Filter, o: Observed, r: real)
    requires Symmetric(k.P) && S(k, o, r) != 0.0
    ensures
      var s, row := S(k, o, r), k.P.Row(Index(o));
      Gain(k, o, r) == Vec(Over(row.x, s), Over(row.y, s), Over(row.z, s))
  {
    hide S;
  }

  lemma ShrinkScalars(g: Vec, i: nat, p: Mat)
    requires i < 3
    ensures
      var row := p.Row(i);
      && Mul(Shrink(g, i), p).r0
         == Vec(p.r0.x - Times(g.x, row.x), p.r0.y - Times(g.x, row.y), p.r0.z - Times(g.x, row.z))
      && Mul(Shrink(g, i), p).r1
         == Vec(p.r1.x - Times(g.y, row.x), p.r1.y - Times(g.y, row.y), p.r1.z - Times(g.y, row.z))
      && Mul(Shrink(g, i), p).r2
         == Vec(p.r2.x - Times(g.z, row.x), p.r2.y - Times(g.z, row.y), p.r2.z - Times(g.z, row.z))
  {
    hide Times;
    var m := Shrink(g, i);
    RowShrunk(m.r0, 0, g.x, i, p);
    RowShrunk(m.r1, 1, g.y, i, p);
    RowShrunk(m.r2, 2, g.z, i, p);
  }

  lemma RowShrunk(u: Vec, j: nat, c: real, i: nat, p: Mat)
    requires i < 3 && j < 3 && u == Add(Unit(j), Scaled(-c, Unit(i)))
    ensures Apply(Transpose(p), u) ==
            Vec(p.Row(j).x - Times(c, p.Row(i).x), p.Row(j).y - Times(c, p.Row(i).y), p.Row(j).z - Times(c, p.Row(i).z))
  {
    hide Apply, Scaled, Transpose, Times, Unit, Mat.Row;
    var t := Transpose(p);
    RowOf(p, j);
    RowOf(p, i);
    ApplyLinear(t, Unit(j), Scaled(-c, Unit(i)), 0.0);
    ApplyLinear(t, Unit(i), Unit(i), -c);
    ScaledNegated(c, p.Row(i));
  }

  lemma ScaledNegated(c: real, v: Vec)
    ensures Scaled(-c, v) == Vec(-Times(c, v.x), -Times(c, v.y), -Times(c, v.z))
  {
  }

  lemma RowOf(p: Mat, i: nat)
    requires i < 3
    ensures Apply(Transpose(p), Unit(i)) == p.Row(i)
  {
  }

  lemma ScalarsCorrected(k: Filter, o: Observed, meas: real, r: real)
    requires Symmetric(k.P) && S(k, o, r) != 0.0
    ensures
      var s, e, row := S(k, o, r), Innovation(k, o, meas), k.P.Row(Index(o));
      var k0, k1, k2 := Over(row.x, s), Over(row.y, s), Over(row.z, s);
      Corrected(k, o, meas, r) ==
      k.(x := Vec(k.x.x + Times(k0, e), k.x.y + Times(k1, e), k.x.z + Times(k2, e)),
         P := SymmetricOf(k.P.r0.x - Times(k0, row.x), k.P.r0.y - Times(k0, row.y), k.P.r0.z - Times(k0, row.z),
                          k.P.r1.y - Times(k1, row.y), k.P.r1.z - Times(k1, row.z), k.P.r2.z - Times(k2, row.z)))
  {
    var e, g := Innovation(k, o, meas), Gain(k, o, r);
    CorrectedSymmetric(k.P, Index(o), S(k, o, r));
    hide Gain, Mul, Shrink, Times, Over, S, Innovation, Scaled;
    GainScalars(k, o, r);
    ShrinkScalars(g, Index(o), k.P);
    ScaledScalars(e, g);
  }

  lemma ScaledScalars(e: real, g: Vec)
    ensures Scaled(e, g) == Vec(Times(g.x, e), Times(g.y, e), Times(g.z, e))
  {
  }
}
