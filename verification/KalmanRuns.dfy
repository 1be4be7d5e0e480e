// Whole runs of the per-axis filter.
module KalmanRuns {
  import opened Linear3
  import opened Kalman

  function Initial(p0: real, sigmaA: real, sigmaBa: real, p22: real): (k: Filter) {
    Filter(Vec(p0, 0.0, 0.0),
           Mat(Vec(0.01, 0.0, 0.0), Vec(0.0, 0.01, 0.0), Vec(0.0, 0.0, p22)),
           sigmaA * sigmaA, sigmaBa * sigmaBa)
  }

  lemma SquareNonNegative(a: real)
    ensures a * a >= 0.0
  {
  }

  lemma DiagonalForm(a: real, b: real, v: Vec)
    ensures Quad(Mat(Vec(a, 0.0, 0.0), Vec(0.0, a, 0.0), Vec(0.0, 0.0, b)), v) ==
            a * (v.x * v.x) + a * (v.y * v.y) + b * (v.z * v.z)
  {
  }

  // The initial filter is healthy exactly when the initial bias variance is not negative.
  lemma InitialHealthyIff(p0: real, sigmaA: real, sigmaBa: real, p22: real)
    ensures Healthy(Initial(p0, sigmaA, sigmaBa, p22)) <==> p22 >= 0.0
  {
    SquareNonNegative(sigmaA);
    SquareNonNegative(sigmaBa);
    var k := Initial(p0, sigmaA, sigmaBa, p22);
    if p22 >= 0.0 {
      forall v ensures Quad(k.P, v) >= 0.0 {
        DiagonalNonNegative(p22, v);
      }
    } else {
      DiagonalForm(0.01, p22, Unit(2));
      assert Quad(k.P, Unit(2)) < 0.0;
    }
  }

  lemma DiagonalNonNegative(b: real, v: Vec)
    requires b >= 0.0
    ensures Quad(Mat(Vec(0.01, 0.0, 0.0), Vec(0.0, 0.01, 0.0), Vec(0.0, 0.0, b)), v) >= 0.0
  {
    hide Quad;
    DiagonalForm(0.01, b, v);
    SquareScaled(0.01, v.x);
    SquareScaled(0.01, v.y);
    SquareScaled(b, v.z);
  }

  // ---- any sequence of operations ---------------------------------------------------

  datatype Step = Predict(a: real, dt: real) | Update(o: Observed, meas: real, r: real, gate: real)

  predicate Legal(s: Step) { s.Update? ==> s.r > 0.0 }

  ghost function Next(k: Filter, s: Step): (k': Filter)
    requires Healthy(k) && Legal(s)
    ensures Healthy(k')
  {
    match s
    case Predict(a, dt) =>
      PredictedHealthy(k, a, dt);
      Predicted(k, a, dt)
    case Update(o, meas, r, gate) =>
      CorrectedHealthy(k, o, meas, r);
      Updated(k, o, meas, r, gate)
  }

  // The filter after a run: it stays healthy, whatever the inputs, gated or not.
  ghost function Run(k: Filter, steps: seq<Step>): (k': Filter)
    requires Healthy(k) && forall s <- steps :: Legal(s)
    ensures Healthy(k')
  {
    if steps == [] then k else Next(Run(k, steps[..|steps| - 1]), steps[|steps| - 1])
  }

  lemma RunSnoc(k: Filter, steps: seq<Step>, s: Step)
    requires Healthy(k) && (forall s <- steps :: Legal(s)) && Legal(s)
    ensures Run(k, steps + [s]) == Next(Run(k, steps), s)
  {
    assert (steps + [s])[..|steps|] == steps;
  }

  // In every state reached from init, every divisor an update can use is positive.
  lemma DivisorsPositive(p0: real, sigmaA: real, sigmaBa: real, p22: real, steps: seq<Step>, o: Observed, r: real)
    requires p22 >= 0.0 && r > 0.0 && forall s <- steps :: Legal(s)
    ensures Healthy(Initial(p0, sigmaA, sigmaBa, p22))
    ensures S(Run(Initial(p0, sigmaA, sigmaBa, p22), steps), o, r) > 0.0
  {
    InitialHealthyIff(p0, sigmaA, sigmaBa, p22);
    InnovationVariancePositive(Run(Initial(p0, sigmaA, sigmaBa, p22), steps), o, r);
  }

  // ---- an axis that only sees velocity ----------------------------------------------

  function P11(k: Filter): (r: real) { k.P.r1.y }

  function P12(k: Filter): (r: real) { k.P.r1.z }

  predicate FlowStep(s: Step) {
    match s
    case Predict(a, dt) => dt >= 0.0
    case Update(o, meas, r, gate) => o.Velocity? && r > 0.0
  }

  // The velocity variance that one step of acceleration noise adds.
  function Noise(k: Filter, dt: real): (r: real) { Times(k.sa2, Times(dt, dt)) }

  lemma PredictedVariances(k: Filter, a: real, dt: real)
    requires Symmetric(k.P)
    ensures P11(Predicted(k, a, dt)) ==
            P11(k) - 2.0 * (dt * P12(k)) + (dt * dt) * k.P.r2.z + Noise(k, dt)
    ensures P12(Predicted(k, a, dt)) == P12(k) - dt * k.P.r2.z
  {
  }

  lemma SignProducts(dt: real, p12: real, p22: real)
    requires dt >= 0.0 && p12 <= 0.0 && p22 >= 0.0
    ensures dt * p12 <= 0.0 && dt * p22 >= 0.0 && (dt * dt) * p22 >= 0.0
  {
  }

  // Each prediction raises the velocity variance by at least the process noise.
  lemma PredictRaisesVariance(k: Filter, a: real, dt: real)
    requires Healthy(k) && dt >= 0.0 && P12(k) <= 0.0
    ensures P11(Predicted(k, a, dt)) >= P11(k) + Noise(k, dt)
    ensures P12(Predicted(k, a, dt)) <= 0.0
  {
    PsdDiagonal(k.P, 2);
    hide Psd, Predicted, Noise;
    PredictedVariances(k, a, dt);
    SignProducts(dt, P12(k), k.P.r2.z);
  }

  lemma CorrectedCoupling(k: Filter, meas: real, r: real)
    requires Symmetric(k.P) && S(k, Velocity, r) != 0.0
    ensures P12(Corrected(k, Velocity, meas, r)) == P12(k) - Times(Times(Inverse(S(k, Velocity, r)), P11(k)), P12(k))
  {
  }

  lemma ShrunkSign(p11: real, p12: real, r: real)
    requires p11 >= 0.0 && r > 0.0 && p12 <= 0.0
    ensures p12 - Times(Times(Inverse(p11 + r), p11), p12) <= 0.0
  {
    var i := Inverse(p11 + r);
    assert i > 0.0;
    assert i * (p11 + r) == 1.0;
    assert i * r > 0.0;
    assert 1.0 - i * p11 == i * r;
    assert p12 - (i * p11) * p12 == (i * r) * p12;
  }

  // An axis fed only by predictions and velocity updates keeps P12 at most zero.
  lemma {:induction false} CouplingNeverPositive(k: Filter, steps: seq<Step>)
    requires Healthy(k) && P12(k) <= 0.0 && forall s <- steps :: Legal(s) && FlowStep(s)
    ensures P12(Run(k, steps)) <= 0.0
  {
    if steps != [] {
      var before, s := Run(k, steps[..|steps| - 1]), steps[|steps| - 1];
      CouplingNeverPositive(k, steps[..|steps| - 1]);
      OneFlowStep(before, s);
    }
  }

  lemma VelocityUpdateSign(k: Filter, meas: real, r: real, gate: real)
    requires Healthy(k) && P12(k) <= 0.0 && r > 0.0
    ensures S(k, Velocity, r) > 0.0
    ensures P12(Updated(k, Velocity, meas, r, gate)) <= 0.0
  {
    InnovationVariancePositive(k, Velocity, r);
    PsdDiagonal(k.P, 1);
    VelocityVariance(k, r);
    assert P11(k) >= 0.0;
    hide Psd, Corrected, Times, P11, P12, S, Inverse;
    CorrectedCoupling(k, meas, r);
    ShrunkSign(P11(k), P12(k), r);
  }

  lemma OneFlowStep(k: Filter, s: Step)
    requires Healthy(k) && P12(k) <= 0.0 && Legal(s) && FlowStep(s)
    ensures P12(Next(k, s)) <= 0.0
  {
    match s
    case Predict(a, dt) => PredictRaisesVariance(k, a, dt);
    case Update(o, meas, r, gate) =>
      VelocityUpdateSign(k, meas, r, gate);
  }

  // The weight the next velocity sample gets: the velocity gain, as a function of P11.
  function Weight(p11: real, r: real): (w: real)
    requires p11 + r != 0.0
  {
    Inverse(p11 + r) * p11
  }

  // A larger variance gives the sample more weight, so a dropout does.
  lemma MoreVarianceMoreWeight(p: real, q: real, r: real)
    requires 0.0 <= p < q && r > 0.0
    ensures Weight(p, r) < Weight(q, r)
  {
    WeightComplement(p, r);
    WeightComplement(q, r);
    SmallerInverse(p + r, q + r, r);
  }

  lemma WeightComplement(p: real, r: real)
    requires p + r != 0.0
    ensures Weight(p, r) == 1.0 - Times(Inverse(p + r), r)
  {
    assert Inverse(p + r) * (p + r) == 1.0;
  }

  lemma SmallerInverse(a: real, b: real, r: real)
    requires 0.0 < a < b && r > 0.0
    ensures Times(Inverse(b), r) < Times(Inverse(a), r)
  {
    hide Times, Inverse;
    InversePositive(a);
    InversePositive(b);
    LessTimes(a, b, Inverse(b));
    CancelLess(Inverse(b), Inverse(a), a);
    TimesCommutes(Inverse(a), r);
    TimesCommutes(Inverse(b), r);
    LessTimes(Inverse(b), Inverse(a), r);
  }

  lemma InversePositive(a: real)
    requires a > 0.0
    ensures Inverse(a) > 0.0 && Times(Inverse(a), a) == 1.0
  {
  }

  lemma CancelLess(x: real, y: real, a: real)
    requires Times(x, a) < Times(y, a) && a > 0.0
    ensures x < y
  {
  }

  lemma DropoutRaisesWeight(k: Filter, a: real, dt: real, r: real)
    requires Healthy(k) && P12(k) <= 0.0 && k.sa2 > 0.0 && dt > 0.0 && r > 0.0
    ensures P11(k) >= 0.0 && P11(Predicted(k, a, dt)) > P11(k)
    ensures Weight(P11(k), r) < Weight(P11(Predicted(k, a, dt)), r)
  {
    PsdDiagonal(k.P, 1);
    hide Psd, Predicted, Noise;
    PredictRaisesVariance(k, a, dt);
    NoisePositive(k, dt);
    MoreVarianceMoreWeight(P11(k), P11(Predicted(k, a, dt)), r);
  }

  lemma NoisePositive(k: Filter, dt: real)
    requires k.sa2 > 0.0 && dt > 0.0
    ensures Noise(k, dt) > 0.0
  {
    hide Times;
    TimesZero(dt);
    TimesZero(k.sa2);
    LessTimes(0.0, dt, dt);
    LessTimes(0.0, Times(dt, dt), k.sa2);
  }

  // ---- how long a run of rejections can be ------------------------------------------

  datatype Sample = Sample(a: real, meas: real)

  // Each sample is predicted, compared, and rejected by the gate; each innovation is at most
  // `bound` in magnitude.
  ghost predicate AllRejected(k: Filter, samples: seq<Sample>, dt: real, r: real, gate: real, bound: real)
    decreases |samples|
  {
    samples != [] ==>
      var k' := Predicted(k, samples[0].a, dt);
      var e := Innovation(k', Velocity, samples[0].meas);
      && Gated(e, S(k', Velocity, r), gate)
      && Times(e, e) <= Times(bound, bound)
      && AllRejected(k', samples[1..], dt, r, gate, bound)
  }

  lemma RejectedBound(e: real, s: real, gate: real, bound: real, lower: real)
    requires Gated(e, s, gate) && Times(e, e) <= Times(bound, bound) && lower < s
    ensures Times(gate, lower) < Times(bound, bound)
  {
    assert gate * lower < gate * s;
  }

  lemma VelocityVariance(k: Filter, r: real)
    ensures S(k, Velocity, r) == P11(k) + r
  {
  }

  // After n consecutive rejections the innovation variance exceeds n steps of process noise,
  // so the n-th innovation could only be rejected if it was larger still.
  lemma {:induction false} RejectionsGrow(k: Filter, samples: seq<Sample>, dt: real, r: real, gate: real,
                                          bound: real, base: real)
    requires Healthy(k) && P12(k) <= 0.0 && dt >= 0.0 && r > 0.0 && gate > 0.0 && samples != []
    requires P11(k) >= base
    requires AllRejected(k, samples, dt, r, gate, bound)
    ensures Times(gate, base + Times(|samples| as real, Noise(k, dt))) < Times(bound, bound)
    decreases |samples|
  {
    var k' := Predicted(k, samples[0].a, dt);
    PredictedHealthy(k, samples[0].a, dt);
    PredictRaisesVariance(k, samples[0].a, dt);
    VelocityVariance(k', r);
    assert Noise(k', dt) == Noise(k, dt);
    hide Predicted, Healthy, Times, Noise, Gated, Innovation, S, P11, P12;
    MoreNoise(base, Noise(k, dt), |samples|);
    if |samples| == 1 {
      RejectedBound(Innovation(k', Velocity, samples[0].meas), S(k', Velocity, r), gate, bound, base + Noise(k, dt));
    } else {
      RejectionsGrow(k', samples[1..], dt, r, gate, bound, base + Noise(k, dt));
    }
  }

  lemma MoreNoise(base: real, noise: real, n: nat)
    requires n >= 1
    ensures base + noise + Times((n - 1) as real, noise) == base + Times(n as real, noise)
    ensures n == 1 ==> Times(n as real, noise) == noise
  {
  }

  // A run of n consecutive rejections with innovations of at most `bound` satisfies
  // n * gate * sigma_a^2 * dt^2 < bound^2.
  lemma RejectionRunBounded(k: Filter, samples: seq<Sample>, dt: real, r: real, gate: real, bound: real)
    requires Healthy(k) && P12(k) <= 0.0 && dt >= 0.0 && r > 0.0 && gate > 0.0 && samples != []
    requires AllRejected(k, samples, dt, r, gate, bound)
    ensures Times(|samples| as real, Times(gate, Noise(k, dt))) < Times(bound, bound)
  {
    PsdDiagonal(k.P, 1);
    hide Healthy, AllRejected, Noise, Times;
    RejectionsGrow(k, samples, dt, r, gate, bound, 0.0);
    Regroup(gate, |samples| as real, Noise(k, dt));
  }

  lemma Regroup(gate: real, n: real, noise: real)
    ensures Times(gate, 0.0 + Times(n, noise)) == Times(n, Times(gate, noise))
  {
  }
}
