// The flight estimator: the attitude filter and one Kalman filter for each axis.
module Estimator {
  import opened Linear3
  import opened Quaternion
  import opened Mahony
  import opened Kalman
  import opened KalmanRuns
  import opened Kf3Filter

  // Every axis starts with the same noise settings.
  ghost function Start(p0: real): (k: Filter)
    ensures Healthy(k) && P12(k) == 0.0
  {
    InitialHealthyIff(p0, 2.0, 0.05, 0.25);
    Initial(p0, 2.0, 0.05, 0.25)
  }

  const FLOW_R := 0.0009
  const TOF_R := 0.0001
  const WALL_R := 0.004
  const FLOW_GATE := 9.0
  const TOF_GATE := 25.0

  function WorldAccel(q: Quat, accel: Vec): (a: Vec) { Add(Apply(Rot(q), accel), Vec(0.0, 0.0, -9.81)) }

  // The world-frame velocity along one axis, from the two flow components of the body.
  function WorldFlow(row: Vec, fx: real, fy: real): (v: real) { Times(row.x, fx) + Times(row.y, fy) }

  // What one update feeds an axis: the prediction, then the measurement if it is fresh.
  function Fed(a: real, dt: real, ready: bool, measured: Step): (s: seq<Step>) {
    if ready then [Predict(a, dt), measured] else [Predict(a, dt)]
  }

  function FlowSample(v: real): (s: Step) { Update(Velocity, v, FLOW_R, FLOW_GATE) }

  function TofSample(h: real): (s: Step) { Update(Position, h, TOF_R, TOF_GATE) }

  // A pair of facing walls.
  function WallUpdate(near: real, far: real): (s: Step) { Update(Position, 0.5 * (far - near), WALL_R, 0.0) }

  lemma FlowIsRotated(m: Mat, fx: real, fy: real)
    ensures WorldFlow(m.r0, fx, fy) == Apply(m, Vec(fx, fy, 0.0)).x
    ensures WorldFlow(m.r1, fx, fy) == Apply(m, Vec(fx, fy, 0.0)).y
  {
  }

  // The body vertical is the world's, and a rotation undoes its transpose.
  lemma RotatesBack(q: Quat, w: Vec)
    requires UnitQuat(q)
    ensures Apply(Rot(q), Up(q)) == Vec(0.0, 0.0, 1.0)
    ensures Apply(Rot(q), Apply(Transpose(Rot(q)), w)) == w
  {
    var m := Rot(q);
    RotOrthonormal(q);
    TransposeTwice(m);
    IdentityApplies(w);
    hide Row0, Row1, Row2, Dot, Cross, Transpose;
    assert Mul(m, Transpose(m)).r2 == Apply(m, m.r2);
    hide Apply, Mul;
    ApplyMul(m, Transpose(m), w);
  }

  lemma IdentityApplies(w: Vec)
    ensures Apply(ID, w) == w
  {
  }

  // The accelerometer feels gravity upwards: at rest the world acceleration is zero, and what
  // is felt beyond that is the acceleration.
  lemma RestAndMotion(q: Quat, accel: Vec)
    requires UnitQuat(q)
    ensures accel == Scaled(9.81, Up(q)) ==> WorldAccel(q, accel) == Vec(0.0, 0.0, 0.0)
    ensures forall w :: accel == Add(Scaled(9.81, Up(q)), Apply(Transpose(Rot(q)), w)) ==> WorldAccel(q, accel) == w
  {
    RotatesBack(q, accel);
    ApplyLinear(Rot(q), Up(q), accel, 9.81);
    assert Scaled(9.81, Vec(0.0, 0.0, 1.0)) == Vec(0.0, 0.0, 9.81);
    forall w | accel == Add(Scaled(9.81, Up(q)), Apply(Transpose(Rot(q)), w))
      ensures WorldAccel(q, accel) == w
    {
      hide Rot, Up, Apply, Transpose, Scaled, UnitQuat;
      RotatesBack(q, w);
      ApplyLinear(Rot(q), Scaled(9.81, Up(q)), Apply(Transpose(Rot(q)), w), 9.81);
      assert WorldAccel(q, accel) == w;
    }
  }

  ghost predicate AllLegal(steps: seq<Step>) { forall s <- steps :: Legal(s) }

  // The filter holds what its log of operations says.
  ghost predicate Follows(k: Filter, p0: real, log: seq<Step>) {
    AllLegal(log) && k == KalmanRuns.Run(Start(p0), log)
  }

  lemma FollowsOne(k: Filter, p0: real, log: seq<Step>, s: Step)
    requires Follows(k, p0, log) && Legal(s)
    ensures Healthy(k)
    ensures Follows(Next(k, s), p0, log + [s])
  {
    RunSnoc(Start(p0), log, s);
  }

  class EkfEstimator {
    const att: MahonyAttitude
    const kx: Kf3
    const ky: Kf3
    const kz: Kf3
    var rate: Vec
    var accWorld: Vec
    var dtLast: real
    var delaySteps: real
    // The operations each axis has seen since init.
    ghost var logX: seq<Step>
    ghost var logY: seq<Step>
    ghost var logZ: seq<Step>
    ghost var origin: Vec

    ghost predicate Valid()
      reads this, att, kx, ky, kz
    {
      && kx != ky && kx != kz && ky != kz
      && UnitQuat(att.Q()) && att.kp == 0.5
      && Follows(kx.Model(), origin.x, logX)
      && Follows(ky.Model(), origin.y, logY)
      && Follows(kz.Model(), origin.z, logZ)
    }

    constructor (x0: real, y0: real, z0: real)
      ensures Valid()
      ensures fresh(att) && fresh(kx) && fresh(ky) && fresh(kz)
      ensures origin == Vec(x0, y0, z0) && logX == [] && logY == [] && logZ == [] && delaySteps == 1.0
      ensures att.Q() == ONE
      ensures kx.Model() == Initial(x0, 2.0, 0.05, 0.25) && ky.Model() == Initial(y0, 2.0, 0.05, 0.25)
      ensures kz.Model() == Initial(z0, 2.0, 0.05, 0.25)
    {
      att := new MahonyAttitude();
      kx := new Kf3(x0, 2.0, 0.05, 0.25);
      ky := new Kf3(y0, 2.0, 0.05, 0.25);
      kz := new Kf3(z0, 2.0, 0.05, 0.25);
      rate, accWorld, dtLast, delaySteps := Vec(0.0, 0.0, 0.0), Vec(0.0, 0.0, 0.0), 0.0, 1.0;
      origin := Vec(x0, y0, z0);
      logX, logY, logZ := [], [], [];
    }

    // Calibrates the heading once; the filters of the axes are as they were.
    method SetInitYaw(psi: real, cos: real -> real, sin: real -> real)
      requires Valid() && AreCosineAndSine(cos, sin)
      modifies att
      ensures Valid() && Rot(att.Q()) == AboutVertical(cos(psi), sin(psi))
    {
      hide UnitQuat, Rot, AreCosineAndSine, Follows, Kf3.Model;
      att.SetYaw(psi, cos, sin);
    }

    // The predictions and the fresh measurements of one period.
    method FeedAxes(a: Vec, dt: real, vfx: real, vfy: real, flowValid: bool, height: real, tofValid: bool)
      requires Valid()
      modifies this`logX, this`logY, this`logZ, kx, ky, kz
      ensures Valid()
      ensures logX == old(logX) + Fed(a.x, dt, flowValid, FlowSample(vfx))
      ensures logY == old(logY) + Fed(a.y, dt, flowValid, FlowSample(vfy))
      ensures logZ == old(logZ) + Fed(a.z, dt, tofValid, TofSample(height))
    {
      hide UnitQuat, Predicted, Corrected, Healthy, Follows, Kf3.Model, Next, Gated, S, Innovation, MahonyAttitude.Q;
      ghost var hx, hy, hz := logX, logY, logZ;
      logX := hx + Fed(a.x, dt, flowValid, FlowSample(vfx));
      logY := hy + Fed(a.y, dt, flowValid, FlowSample(vfy));
      logZ := hz + Fed(a.z, dt, tofValid, TofSample(height));

      Moved(kx.Model(), origin.x, hx, a.x, dt);
      Moved(ky.Model(), origin.y, hy, a.y, dt);
      Moved(kz.Model(), origin.z, hz, a.z, dt);
      kx.Predict(a.x, dt);
      ky.Predict(a.y, dt);
      kz.Predict(a.z, dt);
      if flowValid {
        Measured(kx.Model(), origin.x, hx + [Predict(a.x, dt)], FlowSample(vfx));
        Measured(ky.Model(), origin.y, hy + [Predict(a.y, dt)], FlowSample(vfy));
        Snoc(hx, Predict(a.x, dt), FlowSample(vfx));
        Snoc(hy, Predict(a.y, dt), FlowSample(vfy));
        var _ := kx.UpdateVel(vfx, FLOW_R, FLOW_GATE);
        var _ := ky.UpdateVel(vfy, FLOW_R, FLOW_GATE);
      }
      if tofValid {
        Measured(kz.Model(), origin.z, hz + [Predict(a.z, dt)], TofSample(height));
        Snoc(hz, Predict(a.z, dt), TofSample(height));
        var _ := kz.UpdatePos(height, TOF_R, TOF_GATE);
      }
    }

    // One control period: every axis predicts with the world acceleration; the horizontal
    // axes take the flow velocity, the vertical one the height, each only when fresh.
    method Update(accel: Vec, gyro: Vec, flowX: real, flowY: real, flowValid: bool, height: real, tofValid: bool,
                  dt: real, root: real -> real)
      requires Valid() && IsRoot(root)
      modifies this, att, kx, ky, kz
      ensures Valid()
      ensures rate == gyro && dtLast == dt && origin == old(origin) && delaySteps == old(delaySteps)
      ensures att.Q() == Advanced(old(att.Q()), 0.5, accel, gyro, dt, root)
      ensures accWorld == WorldAccel(att.Q(), accel)
      // At rest the acceleration is zero; otherwise it is what was added to rest.
      ensures accel == Scaled(9.81, Up(att.Q())) ==> accWorld == Vec(0.0, 0.0, 0.0)
      ensures forall w ::
                accel == Add(Scaled(9.81, Up(att.Q())), Apply(Transpose(Rot(att.Q())), w)) ==> accWorld == w
      ensures logX == old(logX) + [Predict(accWorld.x, dt)]
                      + if flowValid
                        then [Step.Update(Velocity, Apply(Rot(att.Q()), Vec(flowX, flowY, 0.0)).x, 0.0009, 9.0)] else []
      ensures logY == old(logY) + [Predict(accWorld.y, dt)]
                      + if flowValid
                        then [Step.Update(Velocity, Apply(Rot(att.Q()), Vec(flowX, flowY, 0.0)).y, 0.0009, 9.0)] else []
      ensures logZ == old(logZ) + [Predict(accWorld.z, dt)]
                      + if tofValid then [Step.Update(Position, height, 0.0001, 25.0)] else []
    {
      hide Up, Transpose, Scaled, Add;
      hide UnitQuat, Advanced, Predicted, Corrected, Healthy, Rot, Apply, WorldFlow, Follows, IsRoot, Kf3.Model,
           Next, Gated, S, Innovation;
      hide WorldAccel, MahonyAttitude.Q;
      rate := gyro;
      AdvancedUnit(att.Q(), 0.5, accel, gyro, dt, root);
      att.Update(accel, gyro, dt, root);
      var q := Quat(att.qw, att.qx, att.qy, att.qz);
      assert q == att.Q() by { Same(att); }
      var a := WorldAccel(q, accel);
      accWorld := a;
      dtLast := dt;
      RestAndMotion(q, accel);
      FlowIsRotated(Rot(q), flowX, flowY);
      var vfx := WorldFlow(Rot(q).r0, flowX, flowY);
      var vfy := WorldFlow(Rot(q).r1, flowX, flowY);
      FeedAxes(a, dt, vfx, vfy, flowValid, height, tofValid);
    }

    // The state reported to the controller: each filter's own prediction run ahead by the
    // known actuation delay, with the last acceleration and body rate.
    method GetState(root: real -> real) returns (pos: Vec, rod: Vec, vel: Vec, omega: Vec)
      requires Valid() && IsRoot(root)
      ensures
        var h := Times(delaySteps, dtLast);
        var x, y, z := Predicted(kx.Model(), accWorld.x, h).x, Predicted(ky.Model(), accWorld.y, h).x,
                       Predicted(kz.Model(), accWorld.z, h).x;
        var q := Normalised(QMul(att.Q(), Quat(1.0, Times(0.5 * h, rate.x), Times(0.5 * h, rate.y),
                                               Times(0.5 * h, rate.z))), root);
        var w := if -0.000000001 < q.w < 0.0 then -0.000000001 else if 0.0 <= q.w < 0.000000001 then 0.000000001
                 else q.w;
        && pos == Vec(x.x, y.x, z.x) && vel == Vec(x.y, y.y, z.y)
        && UnitQuat(q) && Vec(Times(w, rod.x), Times(w, rod.y), Times(w, rod.z)) == Vec(q.x, q.y, q.z)
        && omega == Apply(Rot(att.Q()), rate)
    {
      hide Times, Predicted, Rot, Apply, Rodrigues, QMul, Normalised, Follows, Guarded, NormSq, IsRoot, SumOfSquares;
      var h := Times(delaySteps, dtLast);
      var q := Quat(att.qw, att.qx, att.qy, att.qz);
      Same(att);
      StepNorm(q, rate, h);
      var p := Integrated(q, rate, h);
      Normalises(p, root);
      rod := Rodrigues(Normalised(p, root));
      RodriguesIs(Normalised(p, root));
      omega := Apply(Rot(q), rate);
      LedState(kx.Model(), accWorld.x, h);
      LedState(ky.Model(), accWorld.y, h);
      LedState(kz.Model(), accWorld.z, h);
      var cax, cay, caz := accWorld.x - kx.ba, accWorld.y - ky.ba, accWorld.z - kz.ba;
      pos := Vec(kx.p + Times(kx.v, h) + Times(Times(0.5 * cax, h), h),
                 ky.p + Times(ky.v, h) + Times(Times(0.5 * cay, h), h),
                 kz.p + Times(kz.v, h) + Times(Times(0.5 * caz, h), h));
      vel := Vec(kx.v + Times(cax, h), ky.v + Times(cay, h), kz.v + Times(caz, h));
    }

    // Corridor walls anchor the horizontal positions; each axis needs its own pair in range.
    method FuseWalls(front: real, back: real, left: real, right: real, rmax: real)
      requires Valid()
      modifies this, kx, ky
      ensures Valid()
      ensures rate == old(rate) && accWorld == old(accWorld) && dtLast == old(dtLast) && origin == old(origin)
      ensures delaySteps == old(delaySteps)
      ensures logX == old(logX) + if front < 0.95 * rmax && back < 0.95 * rmax
                                  then [Step.Update(Position, 0.5 * (back - front), 0.004, 0.0)] else []
      ensures logY == old(logY) + if left < 0.95 * rmax && right < 0.95 * rmax
                                  then [Step.Update(Position, 0.5 * (right - left), 0.004, 0.0)] else []
      ensures logZ == old(logZ)
    {
      hide UnitQuat, Corrected, Healthy, Follows, Kf3.Model, Gated, S, Innovation;
      var lim := 0.95 * rmax;
      if left < lim && right < lim {
        Measured(ky.Model(), origin.y, logY, WallUpdate(left, right));
        var _ := ky.UpdatePos(0.5 * (right - left), WALL_R, 0.0);
        logY := logY + [WallUpdate(left, right)];
      }
      if front < lim && back < lim {
        Measured(kx.Model(), origin.x, logX, WallUpdate(front, back));
        var _ := kx.UpdatePos(0.5 * (back - front), WALL_R, 0.0);
        logX := logX + [WallUpdate(front, back)];
      }
    }
  }

  // Rodrigues parameters, with the scalar part kept away from zero.
  function Guarded(w: real): (r: real)
    ensures r != 0.0
  {
    if Abs(w) < 0.000000001 then (if w >= 0.0 then 0.000000001 else -0.000000001) else w
  }

  function Rodrigues(q: Quat): (r: Vec) {
    var w := Guarded(q.w);
    Vec(Over(q.x, w), Over(q.y, w), Over(q.z, w))
  }

  lemma RodriguesIs(q: Quat)
    ensures
      var w := if -0.000000001 < q.w < 0.0 then -0.000000001 else if 0.0 <= q.w < 0.000000001 then 0.000000001
               else q.w;
      var r := Rodrigues(q);
      Vec(Times(w, r.x), Times(w, r.y), Times(w, r.z)) == Vec(q.x, q.y, q.z)
  {
    hide Times, Over;
    var w := Guarded(q.w);
    OverTimes(q.x, w);
    OverTimes(q.y, w);
    OverTimes(q.z, w);
    TimesCommutes(w, Over(q.x, w));
    TimesCommutes(w, Over(q.y, w));
    TimesCommutes(w, Over(q.z, w));
  }

  lemma LedState(k: Filter, a: real, h: real)
    ensures
      var c, next := a - k.x.z, Predicted(k, a, h).x;
      && next.x == k.x.x + Times(k.x.y, h) + Times(Times(0.5 * c, h), h)
      && next.y == k.x.y + Times(c, h)
  {
    hide Times, Apply, Add, Scaled, F, B, Mul, MatAdd, Q;
    StatePredicted(k.x, a, h);
    HalfSquare(a - k.x.z, h);
  }

  lemma HalfSquare(c: real, h: real)
    ensures Times(Half(h), c) == Times(Times(0.5 * c, h), h)
  {
  }

  // Whatever the estimator has been fed, its covariances are positive semidefinite and every
  // divisor its filters can form is positive.
  lemma EstimatorHealthy(e: EkfEstimator, r: real)
    requires e.Valid() && r > 0.0
    ensures Healthy(e.kx.Model()) && e.kx.P00 + r > 0.0 && e.kx.P11 + r > 0.0
    ensures Healthy(e.ky.Model()) && e.ky.P00 + r > 0.0 && e.ky.P11 + r > 0.0
    ensures Healthy(e.kz.Model()) && e.kz.P00 + r > 0.0 && e.kz.P11 + r > 0.0
  {
    AxisDivisors(e.kx, e.origin.x, e.logX, r);
    AxisDivisors(e.ky, e.origin.y, e.logY, r);
    AxisDivisors(e.kz, e.origin.z, e.logZ, r);
  }

  lemma AxisDivisors(k: Kf3, p0: real, log: seq<Step>, r: real)
    requires Follows(k.Model(), p0, log) && r > 0.0
    ensures Healthy(k.Model()) && k.P00 + r > 0.0 && k.P11 + r > 0.0
  {
    InnovationVariancePositive(k.Model(), Position, r);
    InnovationVariancePositive(k.Model(), Velocity, r);
  }

  // An axis that has only seen flow and non-negative time steps has its bias and velocity
  // errors never positively correlated.
  lemma FlowAxisCoupling(e: EkfEstimator)
    requires e.Valid()
    ensures (forall s <- e.logX :: FlowStep(s)) ==> e.kx.P12 <= 0.0
    ensures (forall s <- e.logY :: FlowStep(s)) ==> e.ky.P12 <= 0.0
  {
    if forall s <- e.logX :: FlowStep(s) {
      CouplingNeverPositive(Start(e.origin.x), e.logX);
    }
    if forall s <- e.logY :: FlowStep(s) {
      CouplingNeverPositive(Start(e.origin.y), e.logY);
    }
  }

  lemma Same(att: MahonyAttitude)
    ensures att.Q() == Quat(att.qw, att.qx, att.qy, att.qz)
  {
  }

  lemma Snoc(log: seq<Step>, s: Step, t: Step)
    ensures log + [s] + [t] == log + [s, t]
  {
  }

  lemma Moved(k: Filter, p0: real, log: seq<Step>, a: real, dt: real)
    requires Follows(k, p0, log)
    ensures Follows(Predicted(k, a, dt), p0, log + [Predict(a, dt)])
  {
    FollowsOne(k, p0, log, Predict(a, dt));
  }

  // A measurement step needs a positive variance, and so a non-zero divisor.
  lemma Measured(k: Filter, p0: real, log: seq<Step>, s: Step)
    requires Follows(k, p0, log) && s.Update? && s.r > 0.0
    ensures S(k, s.o, s.r) != 0.0
    ensures Follows(Updated(k, s.o, s.meas, s.r, s.gate), p0, log + [s])
  {
    FollowsOne(k, p0, log, s);
    InnovationVariancePositive(k, s.o, s.r);
  }
}
