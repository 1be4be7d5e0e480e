// Quaternions over the reals, and the rotation of space a unit quaternion stands for.
module Quaternion {
  import opened Linear3

  datatype Quat = Quat(w: real, x: real, y: real, z: real)

  const ONE := Quat(1.0, 0.0, 0.0, 0.0)

  // The four components of a product, of scalars.
  function ProductW(aw: real, ax: real, ay: real, az: real, bw: real, bx: real, by_: real, bz: real): (r: real) {
    aw * bw - ax * bx - ay * by_ - az * bz
  }

  function ProductX(aw: real, ax: real, ay: real, az: real, bw: real, bx: real, by_: real, bz: real): (r: real) {
    aw * bx + ax * bw + ay * bz - az * by_
  }

  function ProductY(aw: real, ax: real, ay: real, az: real, bw: real, bx: real, by_: real, bz: real): (r: real) {
    aw * by_ - ax * bz + ay * bw + az * bx
  }

  function ProductZ(aw: real, ax: real, ay: real, az: real, bw: real, bx: real, by_: real, bz: real): (r: real) {
    aw * bz + ax * by_ - ay * bx + az * bw
  }

  function SumOfSquares(w: real, x: real, y: real, z: real): (n: real) { w * w + x * x + y * y + z * z }

  function NormSq(q: Quat): (n: real) { SumOfSquares(q.w, q.x, q.y, q.z) }

  predicate UnitQuat(q: Quat) { NormSq(q) == 1.0 }

  function QMul(a: Quat, b: Quat): (r: Quat) {
    Quat(ProductW(a.w, a.x, a.y, a.z, b.w, b.x, b.y, b.z),
         ProductX(a.w, a.x, a.y, a.z, b.w, b.x, b.y, b.z),
         ProductY(a.w, a.x, a.y, a.z, b.w, b.x, b.y, b.z),
         ProductZ(a.w, a.x, a.y, a.z, b.w, b.x, b.y, b.z))
  }

  function Pure(v: Vec): (r: Quat) { Quat(0.0, v.x, v.y, v.z) }

  lemma FourSquares(aw: real, ax: real, ay: real, az: real, bw: real, bx: real, by_: real, bz: real)
    ensures
      SumOfSquares(aw * bw - ax * bx - ay * by_ - az * bz, aw * bx + ax * bw + ay * bz - az * by_,
                   aw * by_ - ax * bz + ay * bw + az * bx, aw * bz + ax * by_ - ay * bx + az * bw)
      == Times(SumOfSquares(aw, ax, ay, az), SumOfSquares(bw, bx, by_, bz))
  {
  }

  lemma ProductNorm(aw: real, ax: real, ay: real, az: real, bw: real, bx: real, by_: real, bz: real)
    ensures
      SumOfSquares(ProductW(aw, ax, ay, az, bw, bx, by_, bz), ProductX(aw, ax, ay, az, bw, bx, by_, bz),
                   ProductY(aw, ax, ay, az, bw, bx, by_, bz), ProductZ(aw, ax, ay, az, bw, bx, by_, bz))
      == Times(SumOfSquares(aw, ax, ay, az), SumOfSquares(bw, bx, by_, bz))
  {
    hide SumOfSquares, Times;
    FourSquares(aw, ax, ay, az, bw, bx, by_, bz);
  }

  // Hamilton's rules: i^2 = j^2 = k^2 = ijk = -1.
  lemma HamiltonRules(q: Quat)
    ensures
      var i, j, k := Quat(0.0, 1.0, 0.0, 0.0), Quat(0.0, 0.0, 1.0, 0.0), Quat(0.0, 0.0, 0.0, 1.0);
      var minus := Quat(-1.0, 0.0, 0.0, 0.0);
      && QMul(i, i) == minus && QMul(j, j) == minus && QMul(k, k) == minus && QMul(QMul(i, j), k) == minus
      && QMul(ONE, q) == q && QMul(q, ONE) == q
  {
  }

  function Im(q: Quat): (v: Vec) { Vec(q.x, q.y, q.z) }

  // The product by the two products of vectors.
  lemma ProductByVectors(a: Quat, b: Quat)
    ensures QMul(a, b).w == Times(a.w, b.w) - Dot(Im(a), Im(b))
    ensures Im(QMul(a, b)) == Add(Add(Scaled(a.w, Im(b)), Scaled(b.w, Im(a))), Cross(Im(a), Im(b)))
  {
    hide Dot, Cross, Scaled, Times, ProductW, ProductX, ProductY, ProductZ;
    SumAndScale(Im(b), Im(b), a.w);
    SumAndScale(Im(a), Im(a), b.w);
    ProductScalars(a.w, a.x, a.y, a.z, b.w, b.x, b.y, b.z);
  }

  lemma ProductScalars(aw: real, ax: real, ay: real, az: real, bw: real, bx: real, by_: real, bz: real)
    ensures ProductW(aw, ax, ay, az, bw, bx, by_, bz) == Times(aw, bw) - Dot(Vec(ax, ay, az), Vec(bx, by_, bz))
    ensures
      var c := Cross(Vec(ax, ay, az), Vec(bx, by_, bz));
      && ProductX(aw, ax, ay, az, bw, bx, by_, bz) == Times(aw, bx) + Times(bw, ax) + c.x
      && ProductY(aw, ax, ay, az, bw, bx, by_, bz) == Times(aw, by_) + Times(bw, ay) + c.y
      && ProductZ(aw, ax, ay, az, bw, bx, by_, bz) == Times(aw, bz) + Times(bw, az) + c.z
  {
  }

  // The norm of a product is the product of the norms.
  lemma NormMultiplies(a: Quat, b: Quat)
    ensures NormSq(QMul(a, b)) == Times(NormSq(a), NormSq(b))
  {
    hide ProductW, ProductX, ProductY, ProductZ, SumOfSquares, Times;
    ProductNorm(a.w, a.x, a.y, a.z, b.w, b.x, b.y, b.z);
  }

  // ---- the rotation matrix ----------------------------------------------------------

  // Body-to-world rotation, row by row.
  function Row0(w: real, x: real, y: real, z: real): (r: Vec) {
    Vec(1.0 - 2.0 * (y * y + z * z), 2.0 * (x * y - w * z), 2.0 * (x * z + w * y))
  }

  function Row1(w: real, x: real, y: real, z: real): (r: Vec) {
    Vec(2.0 * (x * y + w * z), 1.0 - 2.0 * (x * x + z * z), 2.0 * (y * z - w * x))
  }

  function Row2(w: real, x: real, y: real, z: real): (r: Vec) {
    Vec(2.0 * (x * z - w * y), 2.0 * (y * z + w * x), 1.0 - 2.0 * (x * x + y * y))
  }

  function Rot(q: Quat): (m: Mat) {
    Mat(Row0(q.w, q.x, q.y, q.z), Row1(q.w, q.x, q.y, q.z), Row2(q.w, q.x, q.y, q.z))
  }

  function Dot6(a: real, b: real, c: real, d: real, e: real, f: real): (r: real) { a * d + b * e + c * f }

  lemma DotIs(a: real, b: real, c: real, d: real, e: real, f: real)
    ensures Dot(Vec(a, b, c), Vec(d, e, f)) == Dot6(a, b, c, d, e, f)
  {
  }

  lemma RowsOrthonormalScalars(w: real, x: real, y: real, z: real)
    requires w * w + x * x + y * y + z * z == 1.0
    ensures
      var a, b, c := 1.0 - 2.0 * (y * y + z * z), 2.0 * (x * y - w * z), 2.0 * (x * z + w * y);
      var d, e, f := 2.0 * (x * y + w * z), 1.0 - 2.0 * (x * x + z * z), 2.0 * (y * z - w * x);
      var g, h, i := 2.0 * (x * z - w * y), 2.0 * (y * z + w * x), 1.0 - 2.0 * (x * x + y * y);
      && Dot6(a, b, c, a, b, c) == 1.0 && Dot6(d, e, f, d, e, f) == 1.0 && Dot6(g, h, i, g, h, i) == 1.0
      && Dot6(a, b, c, d, e, f) == 0.0 && Dot6(a, b, c, g, h, i) == 0.0 && Dot6(d, e, f, g, h, i) == 0.0
  {
  }

  lemma RowsOrthonormal(w: real, x: real, y: real, z: real)
    requires w * w + x * x + y * y + z * z == 1.0
    ensures var r0, r1, r2 := Row0(w, x, y, z), Row1(w, x, y, z), Row2(w, x, y, z);
            && Dot(r0, r0) == 1.0 && Dot(r1, r1) == 1.0 && Dot(r2, r2) == 1.0
            && Dot(r0, r1) == 0.0 && Dot(r0, r2) == 0.0 && Dot(r1, r2) == 0.0
  {
    hide Dot, Dot6;
    RowsOrthonormalScalars(w, x, y, z);
    var r0, r1, r2 := Row0(w, x, y, z), Row1(w, x, y, z), Row2(w, x, y, z);
    DotIs(r0.x, r0.y, r0.z, r0.x, r0.y, r0.z);
    DotIs(r1.x, r1.y, r1.z, r1.x, r1.y, r1.z);
    DotIs(r2.x, r2.y, r2.z, r2.x, r2.y, r2.z);
    DotIs(r0.x, r0.y, r0.z, r1.x, r1.y, r1.z);
    DotIs(r0.x, r0.y, r0.z, r2.x, r2.y, r2.z);
    DotIs(r1.x, r1.y, r1.z, r2.x, r2.y, r2.z);
  }

  lemma CrossIs(a: real, b: real, c: real, d: real, e: real, f: real)
    ensures Cross(Vec(a, b, c), Vec(d, e, f)) == Vec(Minor(b, c, e, f), Minor(c, a, f, d), Minor(a, b, d, e))
  {
  }

  function Minor(a: real, b: real, c: real, d: real): (r: real) { a * d - b * c }

  lemma RowsRightHandedScalars(w: real, x: real, y: real, z: real)
    requires w * w + x * x + y * y + z * z == 1.0
    ensures
      var d, e, f := 2.0 * (x * y + w * z), 1.0 - 2.0 * (x * x + z * z), 2.0 * (y * z - w * x);
      var g, h, i := 2.0 * (x * z - w * y), 2.0 * (y * z + w * x), 1.0 - 2.0 * (x * x + y * y);
      && Minor(e, f, h, i) == 1.0 - 2.0 * (y * y + z * z)
      && Minor(f, d, i, g) == 2.0 * (x * y - w * z)
      && Minor(d, e, g, h) == 2.0 * (x * z + w * y)
  {
  }

  lemma RowsRightHanded(w: real, x: real, y: real, z: real)
    requires w * w + x * x + y * y + z * z == 1.0
    ensures Cross(Row1(w, x, y, z), Row2(w, x, y, z)) == Row0(w, x, y, z)
  {
    hide Cross, Minor;
    RowsRightHandedScalars(w, x, y, z);
    var r1, r2 := Row1(w, x, y, z), Row2(w, x, y, z);
    CrossIs(r1.x, r1.y, r1.z, r2.x, r2.y, r2.z);
  }

  // The matrix of a unit quaternion is a rotation.
  lemma RotOrthonormal(q: Quat)
    requires UnitQuat(q)
    ensures Mul(Rot(q), Transpose(Rot(q))) == ID && Det(Rot(q)) == 1.0
  {
    hide Row0, Row1, Row2, Dot, Cross;
    RowsOrthonormal(q.w, q.x, q.y, q.z);
    RowsRightHanded(q.w, q.x, q.y, q.z);
    var m := Rot(q);
    DotCommutes(m.r0, m.r1);
    DotCommutes(m.r0, m.r2);
    DotCommutes(m.r1, m.r2);
    TransposeTwice(m);
  }

  lemma RotatedIs(w: real, x: real, y: real, z: real, v: Vec)
    ensures
      && Dot(Row0(w, x, y, z), v)
         == Dot6(1.0 - 2.0 * (y * y + z * z), 2.0 * (x * y - w * z), 2.0 * (x * z + w * y), v.x, v.y, v.z)
      && Dot(Row1(w, x, y, z), v)
         == Dot6(2.0 * (x * y + w * z), 1.0 - 2.0 * (x * x + z * z), 2.0 * (y * z - w * x), v.x, v.y, v.z)
      && Dot(Row2(w, x, y, z), v)
         == Dot6(2.0 * (x * z - w * y), 2.0 * (y * z + w * x), 1.0 - 2.0 * (x * x + y * y), v.x, v.y, v.z)
  {
    hide Dot, Dot6;
    var r0, r1, r2 := Row0(w, x, y, z), Row1(w, x, y, z), Row2(w, x, y, z);
    DotIs(r0.x, r0.y, r0.z, v.x, v.y, v.z);
    DotIs(r1.x, r1.y, r1.z, v.x, v.y, v.z);
    DotIs(r2.x, r2.y, r2.z, v.x, v.y, v.z);
  }

  lemma RowsExpanded(w: real, x: real, y: real, z: real, a: real, b: real, c: real)
    ensures
      var d := (1.0 - 2.0 * (y * y + z * z)) * a + 2.0 * (x * y - w * z) * b + 2.0 * (x * z + w * y) * c;
      var e := 2.0 * (x * y + w * z) * a + (1.0 - 2.0 * (x * x + z * z)) * b + 2.0 * (y * z - w * x) * c;
      var f := 2.0 * (x * z - w * y) * a + 2.0 * (y * z + w * x) * b + (1.0 - 2.0 * (x * x + y * y)) * c;
      && d == Dot6(1.0 - 2.0 * (y * y + z * z), 2.0 * (x * y - w * z), 2.0 * (x * z + w * y), a, b, c)
      && e == Dot6(2.0 * (x * y + w * z), 1.0 - 2.0 * (x * x + z * z), 2.0 * (y * z - w * x), a, b, c)
      && f == Dot6(2.0 * (x * z - w * y), 2.0 * (y * z + w * x), 1.0 - 2.0 * (x * x + y * y), a, b, c)
  {
  }

  lemma ConjugatesWX(w: real, x: real, y: real, z: real, a: real, b: real, c: real)
    requires w * w + x * x + y * y + z * z == 1.0
    ensures
      var d := (1.0 - 2.0 * (y * y + z * z)) * a + 2.0 * (x * y - w * z) * b + 2.0 * (x * z + w * y) * c;
      var e := 2.0 * (x * y + w * z) * a + (1.0 - 2.0 * (x * x + z * z)) * b + 2.0 * (y * z - w * x) * c;
      var f := 2.0 * (x * z - w * y) * a + 2.0 * (y * z + w * x) * b + (1.0 - 2.0 * (x * x + y * y)) * c;
      && ProductW(0.0, d, e, f, w, x, y, z) == ProductW(w, x, y, z, 0.0, a, b, c)
      && ProductX(0.0, d, e, f, w, x, y, z) == ProductX(w, x, y, z, 0.0, a, b, c)
  {
  }

  lemma ConjugatesYZ(w: real, x: real, y: real, z: real, a: real, b: real, c: real)
    requires w * w + x * x + y * y + z * z == 1.0
    ensures
      var d := (1.0 - 2.0 * (y * y + z * z)) * a + 2.0 * (x * y - w * z) * b + 2.0 * (x * z + w * y) * c;
      var e := 2.0 * (x * y + w * z) * a + (1.0 - 2.0 * (x * x + z * z)) * b + 2.0 * (y * z - w * x) * c;
      var f := 2.0 * (x * z - w * y) * a + 2.0 * (y * z + w * x) * b + (1.0 - 2.0 * (x * x + y * y)) * c;
      && ProductY(0.0, d, e, f, w, x, y, z) == ProductY(w, x, y, z, 0.0, a, b, c)
      && ProductZ(0.0, d, e, f, w, x, y, z) == ProductZ(w, x, y, z, 0.0, a, b, c)
  {
  }

  lemma RotatedConjugates(w: real, x: real, y: real, z: real, a: real, b: real, c: real)
    requires w * w + x * x + y * y + z * z == 1.0
    ensures
      var v := Vec(a, b, c);
      var d, e, f := Dot(Row0(w, x, y, z), v), Dot(Row1(w, x, y, z), v), Dot(Row2(w, x, y, z), v);
      QMul(Quat(0.0, d, e, f), Quat(w, x, y, z)) == QMul(Quat(w, x, y, z), Quat(0.0, a, b, c))
  {
    hide Row0, Row1, Row2, Dot, Dot6, ProductW, ProductX, ProductY, ProductZ;
    ConjugatesWX(w, x, y, z, a, b, c);
    ConjugatesYZ(w, x, y, z, a, b, c);
    RowsExpanded(w, x, y, z, a, b, c);
    RotatedIs(w, x, y, z, Vec(a, b, c));
  }

  // It is the rotation v -> q v q^-1 of the quaternion.
  lemma RotConjugates(q: Quat, v: Vec)
    requires UnitQuat(q)
    ensures QMul(Pure(Apply(Rot(q), v)), q) == QMul(q, Pure(v))
  {
    hide Row0, Row1, Row2, Dot, QMul;
    RotatedConjugates(q.w, q.x, q.y, q.z, v.x, v.y, v.z);
  }

  // ---- the world vertical seen from the body ----------------------------------------

  function Up(q: Quat): (u: Vec) { Row2(q.w, q.x, q.y, q.z) }

  // The same vector scaled by the squared norm, for a quaternion of any length.
  function UpScaled(w: real, x: real, y: real, z: real): (u: Vec) {
    Vec(2.0 * (x * z - w * y), 2.0 * (y * z + w * x), w * w + z * z - x * x - y * y)
  }

  lemma UpOfUnit(q: Quat)
    requires UnitQuat(q)
    ensures Up(q) == UpScaled(q.w, q.x, q.y, q.z) && Dot(Up(q), Up(q)) == 1.0
  {
    hide Dot;
    RowsOrthonormal(q.w, q.x, q.y, q.z);
  }
}
