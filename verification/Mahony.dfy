// The quaternion attitude filter: gyro integration with a gravity trim gated by the measured
// acceleration's magnitude.
module Mahony {
  import opened Linear3
  import opened Quaternion

  // What the filter needs of a square root.
  ghost predicate IsRoot(root: real -> real) {
    forall x :: x >= 0.0 ==> root(x) >= 0.0 && Times(root(x), root(x)) == x
  }

  function Abs(x: real): (r: real) { if x < 0.0 then -x else x }

  // How much of the trim is applied: none below or at zero.
  function TrimGate(amag: real): (g: real) { 1.0 - Abs(amag - 9.81) / (0.5 * 9.81) }

  predicate Trimmed(amag: real) { amag > 0.001 && TrimGate(amag) > 0.0 }

  // The measured direction against the predicted one.
  function TiltError(q: Quat, accel: Vec, amag: real): (e: Vec)
    requires amag != 0.0
  {
    Cross(Scaled(Inverse(amag), accel), Up(q))
  }

  // The body rate with the trim added.
  function Rate(q: Quat, kp: real, accel: Vec, gyro: Vec, root: real -> real): (w: Vec) {
    var amag := root(Dot(accel, accel));
    if Trimmed(amag) then Add(gyro, Scaled(Times(kp, TrimGate(amag)), TiltError(q, accel, amag))) else gyro
  }

  // Half the rotation vector of one step.
  function HalfTurn(w: Vec, dt: real): (b: Vec) {
    Vec(Times(0.5 * dt, w.x), Times(0.5 * dt, w.y), Times(0.5 * dt, w.z))
  }

  function Turn(b: Vec): (q: Quat) { Quat(1.0, b.x, b.y, b.z) }

  // One step, before the length is restored: a product of quaternions.
  function Integrated(q: Quat, w: Vec, dt: real): (r: Quat) { QMul(q, Turn(HalfTurn(w, dt))) }

  function Normalised(q: Quat, root: real -> real): (r: Quat) {
    var n := root(NormSq(q));
    if n > 0.000000001 then Quat(Over(q.w, n), Over(q.x, n), Over(q.y, n), Over(q.z, n)) else q
  }

  function Advanced(q: Quat, kp: real, accel: Vec, gyro: Vec, dt: real, root: real -> real): (r: Quat) {
    Normalised(Integrated(q, Rate(q, kp, accel, gyro, root), dt), root)
  }

  // ---- heading ----------------------------------------------------------------------

  // What the heading needs of the two functions: one circle, and the half-angle formulas.
  ghost predicate AreCosineAndSine(cos: real -> real, sin: real -> real) {
    forall x: real :: HalfAngle(cos(x), sin(x), cos(0.5 * x), sin(0.5 * x))
  }

  predicate HalfAngle(c: real, s: real, c2: real, s2: real) {
    c2 * c2 + s2 * s2 == 1.0 && c == c2 * c2 - s2 * s2 && s == 2.0 * (c2 * s2)
  }

  function Heading(psi: real, cos: real -> real, sin: real -> real): (q: Quat) {
    Quat(cos(0.5 * psi), 0.0, 0.0, sin(0.5 * psi))
  }

  // The rotation by an angle about the world vertical, from its cosine and sine.
  function AboutVertical(c: real, s: real): (m: Mat) {
    Mat(Vec(c, -s, 0.0), Vec(s, c, 0.0), Vec(0.0, 0.0, 1.0))
  }

  lemma HalfAngleRows(c: real, s: real, c2: real, s2: real)
    requires HalfAngle(c, s, c2, s2)
    ensures SumOfSquares(c2, 0.0, 0.0, s2) == 1.0
    ensures Row0(c2, 0.0, 0.0, s2) == Vec(c, -s, 0.0)
    ensures Row1(c2, 0.0, 0.0, s2) == Vec(s, c, 0.0)
    ensures Row2(c2, 0.0, 0.0, s2) == Vec(0.0, 0.0, 1.0)
  {
  }

  // The quaternion seeded turns the body by exactly psi about the vertical.
  lemma HeadingIsYaw(psi: real, cos: real -> real, sin: real -> real)
    requires AreCosineAndSine(cos, sin)
    ensures UnitQuat(Heading(psi, cos, sin))
    ensures Rot(Heading(psi, cos, sin)) == AboutVertical(cos(psi), sin(psi))
  {
    hide HalfAngle, Row0, Row1, Row2, SumOfSquares;
    HalfAngleRows(cos(psi), sin(psi), cos(0.5 * psi), sin(0.5 * psi));
  }

  // ---- the filter as the source stores it -------------------------------------------

  class MahonyAttitude {
    var qw: real
    var qx: real
    var qy: real
    var qz: real
    var kp: real

    ghost function Q(): (q: Quat)
      reads this
    {
      Quat(qw, qx, qy, qz)
    }

    constructor ()
      ensures Q() == ONE && kp == 0.5 && UnitQuat(Q())
    {
      qw, qx, qy, qz := 1.0, 0.0, 0.0, 0.0;
      kp := 0.5;
    }

    // A level quaternion at heading psi.
    method SetYaw(psi: real, cos: real -> real, sin: real -> real)
      requires AreCosineAndSine(cos, sin)
      modifies this
      ensures kp == old(kp) && Q() == Heading(psi, cos, sin)
      ensures UnitQuat(Q()) && Rot(Q()) == AboutVertical(cos(psi), sin(psi))
    {
      qw, qx, qy, qz := cos(0.5 * psi), 0.0, 0.0, sin(0.5 * psi);
      HeadingIsYaw(psi, cos, sin);
    }

    method Update(accel: Vec, gyro: Vec, dt: real, root: real -> real)
      modifies this
      ensures kp == old(kp)
      ensures Q() == Advanced(old(Q()), kp, accel, gyro, dt, root)
      ensures
        var amag := root(Dot(accel, accel));
        var off := if amag < 9.81 then 9.81 - amag else amag - 9.81;
        var w := if amag > 0.001 && off < 0.5 * 9.81 then
                   Add(gyro, Scaled(Times(kp, 1.0 - off / 4.905), Cross(Scaled(Inverse(amag), accel), Up(old(Q())))))
                 else gyro;
        Q() == Normalised(QMul(old(Q()), Quat(1.0, Times(0.5 * dt, w.x), Times(0.5 * dt, w.y), Times(0.5 * dt, w.z))),
                          root)
      ensures
        var amag := root(Dot(accel, accel));
        && (|| amag <= 0.001 || amag >= 1.5 * 9.81 || amag <= 0.5 * 9.81 || accel == Scaled(amag, Up(old(Q()))))
        ==> Q() == Normalised(QMul(old(Q()), Quat(1.0, Times(0.5 * dt, gyro.x), Times(0.5 * dt, gyro.y),
                                                  Times(0.5 * dt, gyro.z))), root)
    {
      AdvancedIs(Q(), kp, accel, gyro, dt, root);
      hide Times, Row2, Cross, Dot, TrimGate, QMul, HalfTurn, Over, Scaled, Inverse, SumOfSquares;
      ghost var q := Q();
      var w := gyro;
      var amag := root(Dot(accel, accel));
      if amag > 0.001 {
        var gate := TrimGate(amag);
        if gate > 0.0 {
          var a := Scaled(Inverse(amag), accel);
          UpProducts(qw, qx, qy, qz);
          var vu := Vec(2.0 * (Times(qx, qz) - Times(qw, qy)),
                        2.0 * (Times(qy, qz) + Times(qw, qx)),
                        1.0 - 2.0 * (Times(qx, qx) + Times(qy, qy)));
          var k := Times(kp, gate);
          w := Add(w, Scaled(k, Cross(a, vu)));
        }
      }
      assert w == Rate(q, kp, accel, gyro, root);
      IntegratedProducts(q, w, dt);
      var dqw := -0.5 * (Times(qx, w.x) + Times(qy, w.y) + Times(qz, w.z));
      var dqx := 0.5 * (Times(qw, w.x) + Times(qy, w.z) - Times(qz, w.y));
      var dqy := 0.5 * (Times(qw, w.y) - Times(qx, w.z) + Times(qz, w.x));
      var dqz := 0.5 * (Times(qw, w.z) + Times(qx, w.y) - Times(qy, w.x));
      qw, qx, qy, qz := qw + Times(dqw, dt), qx + Times(dqx, dt), qy + Times(dqy, dt), qz + Times(dqz, dt);
      assert Q() == Integrated(q, w, dt);
      var n := root(SumOfSquares(qw, qx, qy, qz));
      if n > 0.000000001 {
        qw, qx, qy, qz := Over(qw, n), Over(qx, n), Over(qy, n), Over(qz, n);
      }
    }
  }

  // One step by its formulas: the rate integrated is the gyro's, and the trim's where it
  // applies; without a trim or a tilt the gyro's alone.
  lemma AdvancedIs(q: Quat, kp: real, accel: Vec, gyro: Vec, dt: real, root: real -> real)
    ensures
      var amag := root(Dot(accel, accel));
      var off := if amag < 9.81 then 9.81 - amag else amag - 9.81;
      var w := if amag > 0.001 && off < 0.5 * 9.81 then
                 Add(gyro, Scaled(Times(kp, 1.0 - off / 4.905), Cross(Scaled(Inverse(amag), accel), Up(q))))
               else gyro;
      Advanced(q, kp, accel, gyro, dt, root)
      == Normalised(QMul(q, Quat(1.0, Times(0.5 * dt, w.x), Times(0.5 * dt, w.y), Times(0.5 * dt, w.z))), root)
    ensures
      var amag := root(Dot(accel, accel));
      && (|| amag <= 0.001 || amag >= 1.5 * 9.81 || amag <= 0.5 * 9.81 || accel == Scaled(amag, Up(q)))
      ==> Advanced(q, kp, accel, gyro, dt, root)
          == Normalised(QMul(q, Quat(1.0, Times(0.5 * dt, gyro.x), Times(0.5 * dt, gyro.y), Times(0.5 * dt, gyro.z))),
                        root)
  {
    var amag := root(Dot(accel, accel));
    TrimGateIs(amag);
    hide Dot, Cross, Scaled, Row0, Row1, Row2, QMul, Normalised, TrimGate, Times, Inverse, Add;
    if amag > 0.001 && accel == Scaled(amag, Up(q)) {
      ScaledBack(amag, Up(q));
      CrossSelf(Up(q), Times(kp, TrimGate(amag)));
      AddZero(gyro);
    }
  }

  lemma TrimGateIs(amag: real)
    ensures var off := if amag < 9.81 then 9.81 - amag else amag - 9.81;
            TrimGate(amag) == 1.0 - off / 4.905 && (TrimGate(amag) > 0.0 <==> off < 0.5 * 9.81)
  {
  }

  lemma ScaledBack(n: real, v: Vec)
    requires n != 0.0
    ensures Scaled(Inverse(n), Scaled(n, v)) == v
  {
  }

  lemma CrossSelf(v: Vec, k: real)
    ensures Scaled(k, Cross(v, v)) == Vec(0.0, 0.0, 0.0)
  {
  }

  lemma AddZero(v: Vec)
    ensures Add(v, Vec(0.0, 0.0, 0.0)) == v
  {
  }

  lemma UpProducts(w: real, x: real, y: real, z: real)
    ensures Row2(w, x, y, z) == Vec(2.0 * (Times(x, z) - Times(w, y)), 2.0 * (Times(y, z) + Times(w, x)),
                                    1.0 - 2.0 * (Times(x, x) + Times(y, y)))
  {
  }

  lemma StepW(w: real, x: real, y: real, z: real, a: real, b: real, c: real, dt: real)
    ensures ProductW(w, x, y, z, 1.0, Times(0.5 * dt, a), Times(0.5 * dt, b), Times(0.5 * dt, c))
            == w + Times(-0.5 * (Times(x, a) + Times(y, b) + Times(z, c)), dt)
  {
  }

  lemma StepX(w: real, x: real, y: real, z: real, a: real, b: real, c: real, dt: real)
    ensures ProductX(w, x, y, z, 1.0, Times(0.5 * dt, a), Times(0.5 * dt, b), Times(0.5 * dt, c))
            == x + Times(0.5 * (Times(w, a) + Times(y, c) - Times(z, b)), dt)
  {
  }

  lemma StepY(w: real, x: real, y: real, z: real, a: real, b: real, c: real, dt: real)
    ensures ProductY(w, x, y, z, 1.0, Times(0.5 * dt, a), Times(0.5 * dt, b), Times(0.5 * dt, c))
            == y + Times(0.5 * (Times(w, b) - Times(x, c) + Times(z, a)), dt)
  {
  }

  lemma StepZ(w: real, x: real, y: real, z: real, a: real, b: real, c: real, dt: real)
    ensures ProductZ(w, x, y, z, 1.0, Times(0.5 * dt, a), Times(0.5 * dt, b), Times(0.5 * dt, c))
            == z + Times(0.5 * (Times(w, c) + Times(x, b) - Times(y, a)), dt)
  {
  }

  // The derivative the source integrates is half the product with the rate.
  lemma IntegratedProducts(q: Quat, w: Vec, dt: real)
    ensures Integrated(q, w, dt) ==
            Quat(q.w + Times(-0.5 * (Times(q.x, w.x) + Times(q.y, w.y) + Times(q.z, w.z)), dt),
                 q.x + Times(0.5 * (Times(q.w, w.x) + Times(q.y, w.z) - Times(q.z, w.y)), dt),
                 q.y + Times(0.5 * (Times(q.w, w.y) - Times(q.x, w.z) + Times(q.z, w.x)), dt),
                 q.z + Times(0.5 * (Times(q.w, w.z) + Times(q.x, w.y) - Times(q.y, w.x)), dt))
  {
    hide ProductW, ProductX, ProductY, ProductZ, Times;
    StepW(q.w, q.x, q.y, q.z, w.x, w.y, w.z, dt);
    StepX(q.w, q.x, q.y, q.z, w.x, w.y, w.z, dt);
    StepY(q.w, q.x, q.y, q.z, w.x, w.y, w.z, dt);
    StepZ(q.w, q.x, q.y, q.z, w.x, w.y, w.z, dt);
  }

  // ---- the quaternion stays unit ----------------------------------------------------

  lemma HalfTurnNorm(w: Vec, dt: real)
    ensures Dot(HalfTurn(w, dt), HalfTurn(w, dt)) == 0.25 * Times(Times(dt, dt), Dot(w, w))
    ensures Dot(HalfTurn(w, dt), HalfTurn(w, dt)) >= 0.0
  {
    hide Dot, Times;
    HalfTurnNormScalars(w.x, w.y, w.z, dt);
    var b := HalfTurn(w, dt);
    DotIs(b.x, b.y, b.z, b.x, b.y, b.z);
    DotIs(w.x, w.y, w.z, w.x, w.y, w.z);
    SumOfSquaresNonNegative(b.x, b.y, b.z);
    hide Dot6;
  }

  lemma HalfTurnNormScalars(a: real, b: real, c: real, dt: real)
    ensures Dot6(Times(0.5 * dt, a), Times(0.5 * dt, b), Times(0.5 * dt, c),
                 Times(0.5 * dt, a), Times(0.5 * dt, b), Times(0.5 * dt, c))
            == 0.25 * Times(Times(dt, dt), Dot6(a, b, c, a, b, c))
  {
  }

  lemma SumOfSquaresNonNegative(a: real, b: real, c: real)
    ensures Dot6(a, b, c, a, b, c) >= 0.0
  {
  }

  lemma TurnNorm(b: Vec)
    ensures NormSq(Turn(b)) == 1.0 + Dot(b, b)
  {
  }

  // From a unit quaternion the squared norm before normalising is 1 + dt^2 |w|^2 / 4.
  lemma StepNorm(q: Quat, w: Vec, dt: real)
    requires UnitQuat(q)
    ensures NormSq(Integrated(q, w, dt)) == 1.0 + 0.25 * Times(Times(dt, dt), Dot(w, w))
    ensures NormSq(Integrated(q, w, dt)) >= 1.0
  {
    hide NormSq, QMul, HalfTurn, Dot;
    NormMultiplies(q, Turn(HalfTurn(w, dt)));
    TurnNorm(HalfTurn(w, dt));
    HalfTurnNorm(w, dt);
  }

  lemma RootAtLeastOne(root: real -> real, x: real)
    requires IsRoot(root) && x >= 1.0
    ensures root(x) >= 1.0
  {
    var n := root(x);
    assert Times(n, n) == x && n >= 0.0;
    if n < 1.0 {
      SmallSquare(n);
    }
  }

  lemma SmallSquare(n: real)
    requires 0.0 <= n < 1.0
    ensures Times(n, n) < 1.0
  {
    if n > 0.0 {
      LessTimes(n, 1.0, n);
    }
  }

  lemma DividedNorm(w: real, x: real, y: real, z: real, n: real)
    requires n != 0.0
    ensures Times(SumOfSquares(w, x, y, z), Times(n, n))
            == SumOfSquares(Times(w, n), Times(x, n), Times(y, n), Times(z, n))
  {
  }

  lemma OverTimes(a: real, n: real)
    requires n != 0.0
    ensures Times(Over(a, n), n) == a
  {
  }

  lemma Normalises(p: Quat, root: real -> real)
    requires IsRoot(root) && NormSq(p) >= 1.0
    ensures root(NormSq(p)) >= 1.0
    ensures UnitQuat(Normalised(p, root))
    ensures
      var n, r := root(NormSq(p)), Normalised(p, root);
      p == Quat(Times(r.w, n), Times(r.x, n), Times(r.y, n), Times(r.z, n))
  {
    hide Times, SumOfSquares, Over;
    var n, r := root(NormSq(p)), Normalised(p, root);
    RootAtLeastOne(root, NormSq(p));
    OverTimes(p.w, n);
    OverTimes(p.x, n);
    OverTimes(p.y, n);
    OverTimes(p.z, n);
    DividedNorm(r.w, r.x, r.y, r.z, n);
    CancelOne(NormSq(r), NormSq(p));
  }

  lemma CancelOne(a: real, s: real)
    requires Times(a, s) == s && s != 0.0
    ensures a == 1.0
  {
    assert (a - 1.0) * s == 0.0;
  }

  // Every update leaves the quaternion unit, and its division guard is always taken.
  lemma AdvancedUnit(q: Quat, kp: real, accel: Vec, gyro: Vec, dt: real, root: real -> real)
    requires IsRoot(root) && UnitQuat(q)
    ensures root(NormSq(Integrated(q, Rate(q, kp, accel, gyro, root), dt))) >= 1.0
    ensures UnitQuat(Advanced(q, kp, accel, gyro, dt, root))
  {
    hide Rate, Integrated, Normalised, NormSq;
    var w := Rate(q, kp, accel, gyro, root);
    StepNorm(q, w, dt);
    Normalises(Integrated(q, w, dt), root);
  }

  datatype Sample = Sample(accel: Vec, gyro: Vec, dt: real)

  function Run(q: Quat, kp: real, samples: seq<Sample>, root: real -> real): (r: Quat)
    decreases |samples|
  {
    if samples == [] then q
    else
      var s := samples[|samples| - 1];
      Advanced(Run(q, kp, samples[..|samples| - 1], root), kp, s.accel, s.gyro, s.dt, root)
  }

  lemma RunNext(q: Quat, kp: real, samples: seq<Sample>, s: Sample, root: real -> real)
    ensures Run(q, kp, [], root) == q
    ensures Run(q, kp, samples + [s], root) == Advanced(Run(q, kp, samples, root), kp, s.accel, s.gyro, s.dt, root)
  {
    hide Advanced;
    assert (samples + [s])[..|samples|] == samples;
  }

  // After any inputs the quaternion is unit, so the matrix taken from it is a rotation.
  lemma {:induction false} RunIsRotation(q: Quat, kp: real, samples: seq<Sample>, root: real -> real)
    requires IsRoot(root) && UnitQuat(q)
    ensures UnitQuat(Run(q, kp, samples, root))
    ensures var m := Rot(Run(q, kp, samples, root)); Mul(m, Transpose(m)) == ID && Det(m) == 1.0
    decreases |samples|
  {
    hide Advanced, UnitQuat, Rot, Mul, Det, Transpose;
    if samples != [] {
      var before := samples[..|samples| - 1];
      RunIsRotation(q, kp, before, root);
      var s := samples[|samples| - 1];
      AdvancedUnit(Run(q, kp, before, root), kp, s.accel, s.gyro, s.dt, root);
    }
    RotOrthonormal(Run(q, kp, samples, root));
  }

  // ---- the gravity trim -------------------------------------------------------------

  lemma CrossOrthogonal(u: Vec, v: Vec)
    ensures Dot(Cross(u, v), v) == 0.0 && Dot(v, Cross(u, v)) == 0.0
  {
  }

  // The trim has no component about the predicted world vertical: yaw is left to the gyro.
  lemma TrimKeepsHeading(q: Quat, accel: Vec, amag: real, k: real)
    requires amag != 0.0
    ensures Apply(Rot(q), Scaled(k, TiltError(q, accel, amag))).z == 0.0
  {
    hide Dot, Scaled, Cross, Row0, Row1, Row2;
    var a := Scaled(Inverse(amag), accel);
    CrossOrthogonal(a, Up(q));
    DotScale(Up(q), Cross(a, Up(q)), k);
  }

  // What a turn by b does to the vertical seen from the body, before dividing by 1 + |b|^2.
  function Turned(b: Vec, u: Vec): (r: Vec) {
    var s, d, c := 1.0 - Dot(b, b), 2.0 * Dot(b, u), Cross(b, u);
    Vec(Times(s, u.x) + Times(d, b.x) - 2.0 * c.x,
        Times(s, u.y) + Times(d, b.y) - 2.0 * c.y,
        Times(s, u.z) + Times(d, b.z) - 2.0 * c.z)
  }

  lemma TurnedScalars(w: real, x: real, y: real, z: real, a: real, b: real, c: real)
    ensures
      var w', x', y', z' := w - x * a - y * b - z * c, w * a + x + y * c - z * b, w * b - x * c + y + z * a,
                            w * c + x * b - y * a + z;
      var u, v, t := 2.0 * (x * z - w * y), 2.0 * (y * z + w * x), w * w + z * z - x * x - y * y;
      var s, d := 1.0 - (a * a + b * b + c * c), 2.0 * (a * u + b * v + c * t);
      UpScaled(w', x', y', z') == Vec(Times(s, u) + Times(d, a) - 2.0 * (b * t - c * v),
                                      Times(s, v) + Times(d, b) - 2.0 * (c * u - a * t),
                                      Times(s, t) + Times(d, c) - 2.0 * (a * v - b * u))
  {
  }

  lemma TurnedIs(a: real, b: real, c: real, u: real, v: real, t: real)
    ensures
      var s, d := 1.0 - Dot6(a, b, c, a, b, c), 2.0 * Dot6(a, b, c, u, v, t);
      Turned(Vec(a, b, c), Vec(u, v, t)) == Vec(Times(s, u) + Times(d, a) - 2.0 * Minor(b, c, v, t),
                                                Times(s, v) + Times(d, b) - 2.0 * Minor(c, a, t, u),
                                                Times(s, t) + Times(d, c) - 2.0 * Minor(a, b, u, v))
  {
    hide Dot, Cross, Times, Dot6, Minor;
    DotIs(a, b, c, a, b, c);
    DotIs(a, b, c, u, v, t);
    CrossIs(a, b, c, u, v, t);
  }

  lemma FormsExpanded(w: real, x: real, y: real, z: real, a: real, b: real, c: real)
    ensures
      var u, v, t := 2.0 * (x * z - w * y), 2.0 * (y * z + w * x), w * w + z * z - x * x - y * y;
      && Dot6(a, b, c, a, b, c) == a * a + b * b + c * c
      && Dot6(a, b, c, u, v, t) == a * u + b * v + c * t
      && Minor(b, c, v, t) == b * t - c * v && Minor(c, a, t, u) == c * u - a * t && Minor(a, b, u, v) == a * v - b * u
  {
  }

  lemma UpScaledIs(w: real, x: real, y: real, z: real)
    ensures UpScaled(w, x, y, z) == Vec(2.0 * (x * z - w * y), 2.0 * (y * z + w * x), w * w + z * z - x * x - y * y)
  {
  }

  lemma ProductTurned(w: real, x: real, y: real, z: real, a: real, b: real, c: real)
    ensures UpScaled(ProductW(w, x, y, z, 1.0, a, b, c), ProductX(w, x, y, z, 1.0, a, b, c),
                     ProductY(w, x, y, z, 1.0, a, b, c), ProductZ(w, x, y, z, 1.0, a, b, c))
            == Turned(Vec(a, b, c), UpScaled(w, x, y, z))
  {
    hide Turned, Times, UpScaled, Dot6, Minor;
    TurnedScalars(w, x, y, z, a, b, c);
    UpScaledIs(w, x, y, z);
    FormsExpanded(w, x, y, z, a, b, c);
    TurnedIs(a, b, c, 2.0 * (x * z - w * y), 2.0 * (y * z + w * x), w * w + z * z - x * x - y * y);
  }

  lemma UpOfQuotient(w: real, x: real, y: real, z: real, n: real)
    ensures
      var u := UpScaled(w, x, y, z);
      UpScaled(Times(w, n), Times(x, n), Times(y, n), Times(z, n))
      == Vec(Times(Times(n, n), u.x), Times(Times(n, n), u.y), Times(Times(n, n), u.z))
  {
    hide UpScaled;
    QuotientScalars(w, x, y, z, n);
    UpScaledIs(w, x, y, z);
    UpScaledIs(Times(w, n), Times(x, n), Times(y, n), Times(z, n));
  }

  lemma QuotientScalars(w: real, x: real, y: real, z: real, n: real)
    ensures 2.0 * (Times(x, n) * Times(z, n) - Times(w, n) * Times(y, n)) == Times(Times(n, n), 2.0 * (x * z - w * y))
    ensures 2.0 * (Times(y, n) * Times(z, n) + Times(w, n) * Times(x, n)) == Times(Times(n, n), 2.0 * (y * z + w * x))
    ensures Times(w, n) * Times(w, n) + Times(z, n) * Times(z, n)
            - Times(x, n) * Times(x, n) - Times(y, n) * Times(y, n)
            == Times(Times(n, n), w * w + z * z - x * x - y * y)
  {
  }

  lemma DotScaledAll(m: real, a: Vec, u: Vec)
    ensures Dot(a, Vec(Times(m, u.x), Times(m, u.y), Times(m, u.z))) == Times(m, Dot(a, u))
  {
    hide Dot, Times, Scaled;
    SumAndScale(u, u, m);
    DotScale(a, u, m);
  }

  lemma DotTurned(a: Vec, b: Vec, u: Vec)
    ensures Dot(a, Turned(b, u))
            == Times(1.0 - Dot(b, b), Dot(a, u)) + Times(2.0 * Dot(b, u), Dot(a, b)) - 2.0 * Dot(a, Cross(b, u))
  {
    var s, d, c := 1.0 - Dot(b, b), 2.0 * Dot(b, u), Cross(b, u);
    hide Dot, Cross, Times, Scaled;
    SumAndScale(u, u, s);
    SumAndScale(b, b, d);
    SumAndScale(c, c, -2.0);
    TimesTwo(c);
    DotScale(a, u, s);
    DotScale(a, b, d);
    DotScale(a, c, -2.0);
    DotAdd(a, Scaled(s, u), Scaled(d, b));
    DotAdd(a, Add(Scaled(s, u), Scaled(d, b)), Scaled(-2.0, c));
    MinusTwo(Dot(a, c));
  }

  lemma MinusTwo(a: real)
    ensures Times(-2.0, a) == -2.0 * a
  {
  }

  lemma TimesTwo(c: Vec)
    ensures Scaled(-2.0, c) == Vec(-2.0 * c.x, -2.0 * c.y, -2.0 * c.z)
  {
  }

  // The vertical seen from the body after turning by b.
  lemma UpAfterTurn(q: Quat, b: Vec, a: Vec, root: real -> real)
    requires IsRoot(root) && UnitQuat(q)
    ensures Dot(b, b) >= 0.0
    ensures
      var q' := Normalised(QMul(q, Turn(b)), root);
      Times(1.0 + Dot(b, b), Dot(a, Up(q'))) == Dot(a, Turned(b, Up(q)))
  {
    var p := QMul(q, Turn(b));
    var n, r := root(NormSq(p)), Normalised(p, root);
    UpOfUnit(q);
    ProductTurned(q.w, q.x, q.y, q.z, b.x, b.y, b.z);
    assert Turned(b, Up(q)) == UpScaled(p.w, p.x, p.y, p.z);
    hide Dot, Turned, UpScaled, Times, NormSq, QMul, Row2;
    NormMultiplies(q, Turn(b));
    TurnNorm(b);
    OneTimes(1.0 + Dot(b, b));
    SquareOfVec(b);
    Normalises(p, root);
    UpOfUnit(r);
    UpOfQuotient(r.w, r.x, r.y, r.z, n);
    DotScaledAll(Times(n, n), a, Up(r));
  }

  lemma OneTimes(a: real)
    ensures Times(1.0, a) == a
  {
  }

  lemma SquareOfVec(b: Vec)
    ensures Dot(b, b) >= 0.0
  {
    hide Dot, Dot6;
    DotIs(b.x, b.y, b.z, b.x, b.y, b.z);
    SumOfSquaresNonNegative(b.x, b.y, b.z);
  }

  lemma TripleProduct(a: Vec, e: Vec, u: Vec)
    ensures Dot(a, Cross(e, u)) == -Dot(e, Cross(a, u))
  {
  }

  lemma CrossScaled(c: real, e: Vec, u: Vec)
    ensures Cross(Scaled(c, e), u) == Scaled(c, Cross(e, u))
  {
    var s := Scaled(c, e);
    hide Cross, Scaled, Minor, Times;
    SumAndScale(e, e, c);
    SumAndScale(Cross(e, u), u, c);
    CrossIs(e.x, e.y, e.z, u.x, u.y, u.z);
    CrossIs(s.x, s.y, s.z, u.x, u.y, u.z);
    MinorScaled(c, e.y, e.z, u.y, u.z);
    MinorScaled(c, e.z, e.x, u.z, u.x);
    MinorScaled(c, e.x, e.y, u.x, u.y);
  }

  lemma MinorScaled(c: real, a: real, b: real, d: real, e: real)
    ensures Minor(Times(c, a), Times(c, b), d, e) == Times(c, Minor(a, b, d, e))
  {
  }

  // A turn about a x u: the tilt cosine C = a.u becomes C' with
  // (1 + c^2 E) (C' - C) = 2 c E (1 - c C), where E = |a x u|^2.
  lemma TurnTowards(a: Vec, u: Vec, c: real, cos': real)
    requires Times(1.0 + Dot(Scaled(c, Cross(a, u)), Scaled(c, Cross(a, u))), cos')
             == Dot(a, Turned(Scaled(c, Cross(a, u)), u))
    ensures
      var cos, e := Dot(a, u), Dot(Cross(a, u), Cross(a, u));
      Times(1.0 + Times(Times(c, c), e), cos' - cos) == 2.0 * Times(Times(c, e), 1.0 - Times(c, cos))
  {
    var e := Cross(a, u);
    var b := Scaled(c, e);
    CrossOrthogonal(a, u);
    CrossScaled(c, e, u);
    TripleProduct(a, e, u);
    hide Dot, Cross, Scaled, Times, Turned;
    DotTurned(a, b, u);
    DotScale(e, e, c);
    DotScale(b, e, c);
    DotScale(u, e, c);
    DotScale(a, Cross(e, u), c);
    DotCommutes(b, u);
    TimesZero(c);
    TimesZeroLeft(Dot(a, b));
    TurnAlgebra(c, Dot(e, e), Dot(a, u), cos');
  }

  lemma TimesZeroLeft(a: real)
    ensures Times(0.0, a) == 0.0
  {
  }

  lemma TurnAlgebra(c: real, e: real, cos: real, cos': real)
    requires Times(1.0 + Times(c, Times(c, e)), cos') == Times(1.0 - Times(c, Times(c, e)), cos) - 2.0 * Times(c, -e)
    ensures Times(1.0 + Times(Times(c, c), e), cos' - cos) == 2.0 * Times(Times(c, e), 1.0 - Times(c, cos))
  {
    TurnAlgebraRaw(c, e, cos, cos');
  }

  lemma TurnAlgebraRaw(c: real, e: real, cos: real, cos': real)
    ensures Times(1.0 + Times(c, Times(c, e)), cos') - Times(1.0 - Times(c, Times(c, e)), cos) + 2.0 * Times(c, -e)
            == Times(1.0 + Times(Times(c, c), e), cos' - cos) - 2.0 * Times(Times(c, e), 1.0 - Times(c, cos))
  {
  }

  const STILL := Vec(0.0, 0.0, 0.0)

  // Half the angle of the trim per unit of tilt error.
  function TrimStep(kp: real, amag: real, dt: real): (c: real) { Times(0.5 * dt, Times(kp, TrimGate(amag))) }

  lemma TrimTurn(q: Quat, kp: real, accel: Vec, dt: real, root: real -> real)
    requires Trimmed(root(Dot(accel, accel)))
    ensures var amag := root(Dot(accel, accel));
            HalfTurn(Rate(q, kp, accel, STILL, root), dt)
            == Scaled(TrimStep(kp, amag, dt), TiltError(q, accel, amag))
  {
    hide Dot, Cross, Times, TrimGate, TiltError, Scaled;
    var amag := root(Dot(accel, accel));
    var e, k := TiltError(q, accel, amag), Times(kp, TrimGate(amag));
    ScaledTwice(0.5 * dt, k, e);
    AddStill(Scaled(k, e));
  }

  lemma AddStill(v: Vec)
    ensures Add(STILL, v) == v
  {
  }

  lemma ScaledTwice(h: real, k: real, e: Vec)
    ensures var v := Scaled(k, e); Vec(Times(h, v.x), Times(h, v.y), Times(h, v.z)) == Scaled(Times(h, k), e)
  {
  }

  lemma SignOfTurn(c: real, e: real, cos: real, cos': real)
    requires c >= 0.0 && e >= 0.0
    requires Times(1.0 + Times(Times(c, c), e), cos' - cos) == 2.0 * Times(Times(c, e), 1.0 - Times(c, cos))
    ensures cos' >= cos <==> c == 0.0 || e == 0.0 || Times(c, cos) <= 1.0
  {
    var m, p, d := 1.0 + Times(Times(c, c), e), Times(c, e), 1.0 - Times(c, cos);
    assert m >= 1.0 by {
      ProductSign(c, c);
      ProductSign(Times(c, c), e);
    }
    ProductSign(c, e);
    hide Times;
    SignOfProduct(m, cos' - cos);
    SignOfProduct(p, d);
  }

  lemma ProductSign(a: real, b: real)
    requires a >= 0.0 && b >= 0.0
    ensures Times(a, b) >= 0.0 && (Times(a, b) == 0.0 <==> a == 0.0 || b == 0.0)
  {
  }

  lemma SignOfProduct(p: real, d: real)
    requires p >= 0.0
    ensures Times(p, d) >= 0.0 <==> p == 0.0 || d >= 0.0
  {
  }

  // With no body rate, one trimmed update brings the predicted vertical towards the measured
  // direction, or leaves it, exactly when the step does not overshoot.
  lemma TrimImprovesIff(q: Quat, kp: real, accel: Vec, dt: real, root: real -> real)
    requires IsRoot(root) && UnitQuat(q) && kp >= 0.0 && dt >= 0.0
    requires Trimmed(root(Dot(accel, accel)))
    ensures
      var amag := root(Dot(accel, accel));
      var a, c, e := Scaled(Inverse(amag), accel), TrimStep(kp, amag, dt), TiltError(q, accel, amag);
      Dot(a, Up(Advanced(q, kp, accel, STILL, dt, root))) >= Dot(a, Up(q))
      <==> c == 0.0 || Dot(e, e) == 0.0 || Times(c, Dot(a, Up(q))) <= 1.0
  {
    var amag := root(Dot(accel, accel));
    var a, c, e := Scaled(Inverse(amag), accel), TrimStep(kp, amag, dt), TiltError(q, accel, amag);
    TrimTurn(q, kp, accel, dt, root);
    ProductSign(kp, TrimGate(amag));
    ProductSign(0.5 * dt, Times(kp, TrimGate(amag)));
    hide Dot, Cross, Times, TrimGate, Turned, Scaled, Up, Rate, HalfTurn, Normalised, QMul, NormSq;
    var b := Scaled(c, e);
    UpAfterTurn(q, b, a, root);
    SquareOfVec(e);
    var cos' := Dot(a, Up(Advanced(q, kp, accel, STILL, dt, root)));
    TurnTowards(a, Up(q), c, cos');
    SignOfTurn(c, Dot(e, e), Dot(a, Up(q)), cos');
  }

  lemma UnitDirection(accel: Vec, root: real -> real)
    requires IsRoot(root) && root(Dot(accel, accel)) > 0.0
    ensures var a := Scaled(Inverse(root(Dot(accel, accel))), accel); Dot(a, a) == 1.0
  {
    var n := root(Dot(accel, accel));
    SquareOfVec(accel);
    hide Dot, Scaled, Times, Inverse;
    DotScale(Scaled(Inverse(n), accel), accel, Inverse(n));
    DotScale(accel, accel, Inverse(n));
    InverseTwice(n);
  }

  lemma InverseTwice(n: real)
    requires n != 0.0
    ensures Times(Inverse(n), Times(Inverse(n), Times(n, n))) == 1.0
  {
    assert Inverse(n) * n == 1.0;
    assert Inverse(n) * (n * n) == n;
  }

  // Two unit vectors have a dot product of at most one.
  lemma CosineAtMostOne(u: Vec, v: Vec)
    requires Dot(u, u) == 1.0 && Dot(v, v) == 1.0
    ensures Dot(u, v) <= 1.0
  {
    var d := Add(u, Scaled(-1.0, v));
    hide Dot, Scaled, Add;
    SquareOfVec(d);
    DotAdd(d, u, Scaled(-1.0, v));
    DotAdd(u, u, Scaled(-1.0, v));
    DotAdd(v, u, Scaled(-1.0, v));
    DotScale(d, v, -1.0);
    DotScale(u, v, -1.0);
    DotScale(v, v, -1.0);
    DotCommutes(u, v);
    DotCommutes(u, d);
    DotCommutes(v, d);
  }

  lemma GateAtMostOne(kp: real, amag: real, dt: real)
    requires kp == 0.5 && 0.0 <= dt <= 4.0 && Trimmed(amag)
    ensures 0.0 <= TrimStep(kp, amag, dt) <= 1.0
  {
    var g := TrimGate(amag);
    assert 0.0 <= g <= 1.0;
    assert 0.0 <= dt * g <= 4.0 by {
      ProductSign(dt, g);
      ProductSign(dt, 1.0 - g);
      assert dt * (1.0 - g) == dt - dt * g;
    }
    assert TrimStep(kp, amag, dt) == 0.25 * (dt * g);
  }

  // With the filter's own gain the trim never takes the vertical further from the measured
  // direction, for any step of at most four seconds.
  lemma TrimNeverWorsens(q: Quat, accel: Vec, dt: real, root: real -> real)
    requires IsRoot(root) && UnitQuat(q) && 0.0 <= dt <= 4.0
    requires Trimmed(root(Dot(accel, accel)))
    ensures var a := Scaled(Inverse(root(Dot(accel, accel))), accel);
            Dot(a, Up(Advanced(q, 0.5, accel, STILL, dt, root))) >= Dot(a, Up(q))
  {
    var amag := root(Dot(accel, accel));
    var a, c := Scaled(Inverse(amag), accel), TrimStep(0.5, amag, dt);
    GateAtMostOne(0.5, amag, dt);
    assert amag > 0.0;
    hide Dot, Scaled, Times, Up, Advanced, Trimmed, TrimStep, Inverse, NormSq;
    UnitDirection(accel, root);
    UpOfUnit(q);
    CosineAtMostOne(a, Up(q));
    AtMostOne(c, Dot(a, Up(q)));
    TrimImprovesIff(q, 0.5, accel, dt, root);
  }

  lemma AtMostOne(c: real, d: real)
    requires 0.0 <= c <= 1.0 && d <= 1.0
    ensures Times(c, d) <= 1.0
  {
    if d > 0.0 {
      ProductSign(1.0 - c, d);
      assert (1.0 - c) * d == d - c * d;
    } else {
      ProductSign(c, -d);
    }
  }
}
