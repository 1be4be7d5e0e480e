// What one step of the per-axis filter means, told without its matrices.
module KalmanLaws {
  import opened Linear3
  import opened Kalman

  // ---- prediction -------------------------------------------------------------------

  // Constant acceleration, less the bias.
  lemma StateMoves(k: Filter, a: real, dt: real)
    ensures
      var x, acc := Predicted(k, a, dt).x, a - k.x.z;
      && x.x == k.x.x + k.x.y * dt + 0.5 * dt * dt * acc
      && x.y == k.x.y + acc * dt
      && x.z == k.x.z
  {
  }

  // Predicting twice is predicting once over both periods, as far as the state goes.
  lemma PredictionsCompose(k: Filter, a: real, d1: real, d2: real)
    ensures Predicted(Predicted(k, a, d1), a, d2).x == Predicted(k, a, d1 + d2).x
  {
    hide Predicted;
    StateMoves(k, a, d1);
    StateMoves(Predicted(k, a, d1), a, d2);
    StateMoves(k, a, d1 + d2);
  }

  // How a direction of the state looks back over a period.
  function Back(v: Vec, dt: real): (u: Vec) {
    Vec(v.x, dt * v.x + v.y, v.z - 0.5 * dt * dt * v.x - dt * v.y)
  }

  lemma BackIs(v: Vec, dt: real)
    ensures Apply(Transpose(F(dt)), v) == Back(v, dt)
  {
  }

  // The variance of any combination of the state: what it was before, looked back, and the
  // noise of acceleration and of the bias.
  lemma VarianceMoves(k: Filter, a: real, dt: real, v: Vec)
    ensures
      var n, m := 0.5 * dt * dt * v.x + dt * v.y, dt * v.z;
      Quad(Predicted(k, a, dt).P, v) == Quad(k.P, Back(v, dt)) + k.sa2 * (n * n) + k.sba2 * (m * m)
  {
    var f := F(dt);
    BackIs(v, dt);
    NoiseForm(dt, k.sa2, k.sba2, v);
    hide Quad, Mul, MatAdd, Transpose, F, Q, Apply, Back;
    QuadAdd(Mul(Mul(f, k.P), Transpose(f)), Q(dt, k.sa2, k.sba2), v);
    QuadCongruence(f, k.P, v);
  }

  // ---- correction -------------------------------------------------------------------

  // Each coordinate moves by its covariance with the observed one, relative to the variance
  // of the innovation.
  lemma StateCorrected(k: Filter, o: Observed, meas: real, r: real, j: nat)
    requires Symmetric(k.P) && j < 3 && S(k, o, r) != 0.0
    ensures
      var c, i := Corrected(k, o, meas, r), Index(o);
      Times(c.x.At(j) - k.x.At(j), k.P.Row(i).At(i) + r) == Times(meas - k.x.At(i), k.P.Row(i).At(j))
  {
    var i, e, g := Index(o), Innovation(k, o, meas), Gain(k, o, r);
    CorrectedAt(k, o, meas, r, j);
    GainAt(k, o, r, j);
    hide Gain, Times, Corrected, Vec.At, Mat.Row;
    Regroup(e, g.At(j), S(k, o, r), k.P.Row(i).At(j));
  }

  lemma CorrectedAt(k: Filter, o: Observed, meas: real, r: real, j: nat)
    requires j < 3 && S(k, o, r) != 0.0
    ensures Corrected(k, o, meas, r).x.At(j) - k.x.At(j) == Times(Innovation(k, o, meas), Gain(k, o, r).At(j))
  {
    hide Gain, Times, Mul, Shrink, S, Innovation, Scaled;
    SumAndScale(Gain(k, o, r), Gain(k, o, r), Innovation(k, o, meas));
  }

  lemma GainAt(k: Filter, o: Observed, r: real, j: nat)
    requires Symmetric(k.P) && j < 3 && S(k, o, r) != 0.0
    ensures Times(Gain(k, o, r).At(j), S(k, o, r)) == k.P.Row(Index(o)).At(j)
  {
    var c := Apply(k.P, Unit(Index(o)));
    SymmetricColumn(k.P, Index(o), j);
    hide Apply, S, Symmetric, Inverse, Unit, Times;
    SumAndScale(c, c, Inverse(S(k, o, r)));
    Undivide(c.At(j), S(k, o, r));
  }

  lemma SymmetricColumn(p: Mat, i: nat, j: nat)
    requires Symmetric(p) && i < 3 && j < 3
    ensures Apply(p, Unit(i)).At(j) == p.Row(i).At(j)
  {
  }

  lemma Undivide(c: real, s: real)
    requires s != 0.0
    ensures Times(Times(Inverse(s), c), s) == c
  {
    assert Inverse(s) * s == 1.0;
  }

  lemma Regroup(e: real, g: real, s: real, p: real)
    requires Times(g, s) == p
    ensures Times(Times(e, g), s) == Times(e, p)
  {
    assert e * (g * s) == e * p;
  }

  // The observed coordinate ends at the mean of its two values weighted by the other's
  // variance, and with the variance of that mean.
  lemma ObservedIsMean(k: Filter, o: Observed, meas: real, r: real)
    requires Healthy(k) && r > 0.0
    ensures S(k, o, r) > 0.0
    ensures
      var c, i := Corrected(k, o, meas, r), Index(o);
      var p := k.P.Row(i).At(i);
      && Times(c.x.At(i), p + r) == Times(k.x.At(i), r) + Times(meas, p)
      && Times(c.P.Row(i).At(i), p + r) == Times(p, r)
  {
    InnovationVariancePositive(k, o, r);
    var c, i := Corrected(k, o, meas, r), Index(o);
    var p := k.P.Row(i).At(i);
    StateCorrected(k, o, meas, r, i);
    VarianceCorrected(k, o, meas, r);
    hide Corrected, S, Healthy, Vec.At, Mat.Row;
    MeanAlgebra(c.x.At(i), k.x.At(i), meas, p, r);
  }

  lemma MeanAlgebra(x': real, x: real, m: real, p: real, r: real)
    requires Times(x' - x, p + r) == Times(m - x, p)
    ensures Times(x', p + r) == Times(x, r) + Times(m, p)
  {
  }

  lemma VarianceCorrected(k: Filter, o: Observed, meas: real, r: real)
    requires Symmetric(k.P) && S(k, o, r) != 0.0
    ensures var i := Index(o);
            var p := k.P.Row(i).At(i);
            Times(Corrected(k, o, meas, r).P.Row(i).At(i), p + r) == Times(p, r)
  {
    var i, g := Index(o), Gain(k, o, r);
    var p := k.P.Row(i).At(i);
    GainAt(k, o, r, i);
    hide Gain, Vec.At, Mat.Row, Mul, Shrink, Times, Symmetric;
    ShrunkAt(g, i, k.P);
    ShrunkVariance(g.At(i), p, r);
  }

  // Entry (i, i) of (I - K H) P.
  lemma ShrunkAt(g: Vec, i: nat, p: Mat)
    requires i < 3
    ensures Mul(Shrink(g, i), p).Row(i).At(i) == p.Row(i).At(i) - Times(g.At(i), p.Row(i).At(i))
  {
    if i == 0 {
      EntryShrunk(g.x, p.r0.x, p.r1.x, p.r2.x);
    } else if i == 1 {
      EntryShrunk(g.y, p.r1.y, p.r0.y, p.r2.y);
    } else {
      EntryShrunk(g.z, p.r2.z, p.r0.z, p.r1.z);
    }
  }

  lemma EntryShrunk(g: real, a: real, b: real, c: real)
    ensures (1.0 + -g * 1.0) * a + (0.0 + -g * 0.0) * b + (0.0 + -g * 0.0) * c == a - Times(g, a)
  {
  }

  lemma ShrunkVariance(g: real, p: real, r: real)
    requires Times(g, p + r) == p
    ensures Times(p - Times(g, p), p + r) == Times(p, r)
  {
    assert (p - g * p) * (p + r) == p * (p + r) - p * (g * (p + r));
  }

  // The variance of any combination falls by the square of its covariance with the innovation,
  // relative to the variance of the innovation.
  lemma VarianceFalls(k: Filter, o: Observed, meas: real, r: real, v: Vec)
    requires Symmetric(k.P) && S(k, o, r) != 0.0
    ensures
      var u := Apply(k.P, v).At(Index(o));
      Times(Quad(k.P, v) - Quad(Corrected(k, o, meas, r).P, v), S(k, o, r)) == Times(u, u)
  {
    var i, s, u := Index(o), S(k, o, r), Apply(k.P, v).At(Index(o));
    var t := Times(u, Inverse(s));
    hide Quad, Apply, Mul, Scaled, Add, Shrink, Unit, Vec.At, Mat.Row, Times, Inverse, S;
    DivMul(u, s);
    CorrectedForm(k.P, i, s, v, t);
    SquareOver(t, s, u);
  }

  lemma SquareOver(t: real, s: real, u: real)
    requires Times(t, s) == u
    ensures Times(Times(Times(t, t), s), s) == Times(u, u)
  {
  }

  // ---- the gate ---------------------------------------------------------------------

  // A sample is used exactly when there is no gate or its innovation is within it, on either
  // side; one that is not used changes nothing.
  lemma UpdatedIff(k: Filter, o: Observed, meas: real, r: real, gate: real)
    requires Healthy(k) && r > 0.0
    ensures S(k, o, r) > 0.0
    ensures
      var i := Index(o);
      var e := meas - k.x.At(i);
      Updated(k, o, meas, r, gate) ==
      if gate <= 0.0 || e * e <= gate * (k.P.Row(i).At(i) + r) then Corrected(k, o, meas, r) else k
  {
    InnovationVariancePositive(k, o, r);
    GateWithin(meas - k.x.At(Index(o)), S(k, o, r), gate);
    hide Corrected, Healthy, Gated, Vec.At, Mat.Row;
  }

  lemma GateWithin(e: real, s: real, gate: real)
    ensures !Gated(e, s, gate) <==> gate <= 0.0 || e * e <= gate * s
  {
  }

  // Samples equally far above and below the estimate are both used or both not.
  lemma GateIsEven(k: Filter, o: Observed, e: real, r: real, gate: real)
    requires Healthy(k) && r > 0.0 && e != 0.0 && k.P.Row(Index(o)).At(Index(o)) > 0.0
    ensures S(k, o, r) > 0.0
    ensures
      var x := k.x.At(Index(o));
      Updated(k, o, x + e, r, gate) == k <==> Updated(k, o, x - e, r, gate) == k
  {
    InnovationVariancePositive(k, o, r);
    var x := k.x.At(Index(o));
    Moves(k, o, x + e, r);
    Moves(k, o, x - e, r);
    EvenGate(e, S(k, o, r), gate);
    hide Corrected, Healthy, S, Gated;
    assert Innovation(k, o, x + e) == e && Innovation(k, o, x - e) == -e;
  }

  lemma EvenGate(e: real, s: real, gate: real)
    ensures Gated(e, s, gate) == Gated(-e, s, gate)
  {
  }

  // A correction with anything to correct moves the observed coordinate.
  lemma Moves(k: Filter, o: Observed, meas: real, r: real)
    requires Symmetric(k.P) && S(k, o, r) != 0.0
    requires meas != k.x.At(Index(o)) && k.P.Row(Index(o)).At(Index(o)) > 0.0
    ensures Corrected(k, o, meas, r) != k
  {
    var i := Index(o);
    StateCorrected(k, o, meas, r, i);
    hide Corrected, S, Vec.At, Mat.Row;
    NonZeroProduct(meas - k.x.At(i), k.P.Row(i).At(i));
    ZeroTimes(k.P.Row(i).At(i) + r);
  }

  lemma NonZeroProduct(a: real, b: real)
    requires a != 0.0 && b != 0.0
    ensures Times(a, b) != 0.0
  {
  }

  lemma ZeroTimes(a: real)
    ensures Times(0.0, a) == 0.0
  {
  }
}
