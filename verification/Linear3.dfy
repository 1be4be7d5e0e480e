// Vectors and matrices of three real coordinates.
module Linear3 {
  datatype Vec = Vec(x: real, y: real, z: real) {
    function At(i: nat): (r: real)
      requires i < 3
    {
      if i == 0 then x else if i == 1 then y else z
    }
  }

  // A matrix by its rows.
  datatype Mat = Mat(r0: Vec, r1: Vec, r2: Vec) {
    function Row(i: nat): (r: Vec)
      requires i < 3
    {
      if i == 0 then r0 else if i == 1 then r1 else r2
    }
  }

  // A product of two reals as a term of its own, for proofs that must not expand it.
  function Times(a: real, b: real): (r: real) { a * b }

  // Likewise a quotient.
  function Over(a: real, s: real): (r: real)
    requires s != 0.0
  {
    a / s
  }

  function Inverse(s: real): (r: real)
    requires s != 0.0
  {
    1.0 / s
  }

  function Dot(u: Vec, v: Vec): (r: real) { u.x * v.x + u.y * v.y + u.z * v.z }

  function Add(u: Vec, v: Vec): (r: Vec) { Vec(u.x + v.x, u.y + v.y, u.z + v.z) }

  function Scaled(c: real, u: Vec): (r: Vec) { Vec(c * u.x, c * u.y, c * u.z) }

  function Cross(u: Vec, v: Vec): (r: Vec) {
    Vec(u.y * v.z - u.z * v.y, u.z * v.x - u.x * v.z, u.x * v.y - u.y * v.x)
  }

  function Apply(m: Mat, v: Vec): (r: Vec) { Vec(Dot(m.r0, v), Dot(m.r1, v), Dot(m.r2, v)) }

  function Transpose(m: Mat): (r: Mat) {
    Mat(Vec(m.r0.x, m.r1.x, m.r2.x), Vec(m.r0.y, m.r1.y, m.r2.y), Vec(m.r0.z, m.r1.z, m.r2.z))
  }

  function Mul(m: Mat, n: Mat): (r: Mat) {
    var t := Transpose(n);
    Mat(Apply(t, m.r0), Apply(t, m.r1), Apply(t, m.r2))
  }

  function MatAdd(m: Mat, n: Mat): (r: Mat) { Mat(Add(m.r0, n.r0), Add(m.r1, n.r1), Add(m.r2, n.r2)) }

  function Det(m: Mat): (r: real) { Dot(m.r0, Cross(m.r1, m.r2)) }

  const ID := Mat(Vec(1.0, 0.0, 0.0), Vec(0.0, 1.0, 0.0), Vec(0.0, 0.0, 1.0))

  function Unit(i: nat): (r: Vec)
    requires i < 3
  {
    ID.Row(i)
  }

  predicate Symmetric(m: Mat) { Transpose(m) == m }

  function Quad(m: Mat, v: Vec): (r: real) { Dot(v, Apply(m, v)) }

  ghost predicate Psd(m: Mat) {
    Symmetric(m) && forall v :: Quad(m, v) >= 0.0
  }

  // ---- laws -------------------------------------------------------------------------

  lemma DotAdd(u: Vec, v: Vec, w: Vec)
    ensures Dot(u, Add(v, w)) == Dot(u, v) + Dot(u, w)
    ensures Dot(Add(v, w), u) == Dot(v, u) + Dot(w, u)
  {
  }

  lemma DotScale(u: Vec, v: Vec, c: real)
    ensures Dot(u, Scaled(c, v)) == Times(c, Dot(u, v))
    ensures Dot(Scaled(c, v), u) == Times(c, Dot(v, u))
  {
  }

  lemma DotCommutes(u: Vec, v: Vec)
    ensures Dot(u, v) == Dot(v, u)
  {
  }

  lemma TimesCommutes(a: real, b: real)
    ensures Times(a, b) == Times(b, a)
  {
  }

  lemma LessTimes(a: real, b: real, c: real)
    requires a < b && c > 0.0
    ensures Times(c, a) < Times(c, b)
  {
  }

  lemma TimesZero(a: real)
    ensures Times(a, 0.0) == 0.0
  {
  }

  lemma ApplyLinear(m: Mat, v: Vec, w: Vec, c: real)
    ensures Apply(m, Add(v, w)) == Add(Apply(m, v), Apply(m, w))
    ensures Apply(m, Scaled(c, v)) == Scaled(c, Apply(m, v))
  {
    hide Dot, Add, Scaled, Times;
    DotAdd(m.r0, v, w);
    DotAdd(m.r1, v, w);
    DotAdd(m.r2, v, w);
    DotScale(m.r0, v, c);
    DotScale(m.r1, v, c);
    DotScale(m.r2, v, c);
    SumAndScale(Apply(m, v), Apply(m, w), c);
    SumAndScale(v, w, c);
  }

  lemma SumAndScale(u: Vec, v: Vec, c: real)
    ensures Add(u, v) == Vec(u.x + v.x, u.y + v.y, u.z + v.z)
    ensures Scaled(c, u) == Vec(Times(c, u.x), Times(c, u.y), Times(c, u.z))
  {
  }

  lemma Adjoint(m: Mat, u: Vec, v: Vec)
    ensures Dot(u, Apply(m, v)) == Dot(Apply(Transpose(m), u), v)
  {
  }

  lemma ApplyMul(m: Mat, n: Mat, v: Vec)
    ensures Apply(Mul(m, n), v) == Apply(m, Apply(n, v))
  {
    RowMul(m.r0, n, v);
    RowMul(m.r1, n, v);
    RowMul(m.r2, n, v);
  }

  lemma RowMul(u: Vec, n: Mat, v: Vec)
    ensures Dot(Apply(Transpose(n), u), v) == Dot(u, Apply(n, v))
  {
    Adjoint(n, u, v);
  }

  lemma ApplyAdd(m: Mat, n: Mat, v: Vec)
    ensures Apply(MatAdd(m, n), v) == Add(Apply(m, v), Apply(n, v))
  {
  }

  lemma QuadSum(m: Mat, v: Vec, w: Vec)
    ensures Quad(m, Add(v, w)) == Quad(m, v) + Dot(v, Apply(m, w)) + Dot(w, Apply(m, v)) + Quad(m, w)
  {
    hide Dot, Apply, Add, Scaled, Times;
    ApplyLinear(m, v, w, 0.0);
    DotAdd(Add(v, w), Apply(m, v), Apply(m, w));
    DotAdd(Apply(m, v), v, w);
    DotAdd(Apply(m, w), v, w);
  }

  lemma QuadAdd(m: Mat, n: Mat, v: Vec)
    ensures Quad(MatAdd(m, n), v) == Quad(m, v) + Quad(n, v)
  {
    hide Dot, Apply, MatAdd, Add;
    ApplyAdd(m, n, v);
    DotAdd(v, Apply(m, v), Apply(n, v));
  }

  lemma TransposeMul(m: Mat, n: Mat)
    ensures Transpose(Mul(m, n)) == Mul(Transpose(n), Transpose(m))
  {
  }

  // Congruence by any matrix keeps a form non-negative.
  lemma QuadCongruence(f: Mat, p: Mat, v: Vec)
    ensures Quad(Mul(Mul(f, p), Transpose(f)), v) == Quad(p, Apply(Transpose(f), v))
  {
    hide Dot, Apply, Mul, Transpose;
    var g := Transpose(f);
    ApplyMul(Mul(f, p), g, v);
    ApplyMul(f, p, Apply(g, v));
    Adjoint(f, v, Apply(p, Apply(g, v)));
  }

  lemma CongruenceSymmetric(f: Mat, p: Mat)
    requires Symmetric(p)
    ensures Symmetric(Mul(Mul(f, p), Transpose(f)))
  {
    hide Mul;
    TransposeMul(Mul(f, p), Transpose(f));
    TransposeMul(f, p);
    TransposeTwice(f);
    MulAssociates(f, p, Transpose(f));
  }

  lemma TransposeTwice(m: Mat)
    ensures Transpose(Transpose(m)) == m
  {
  }

  lemma MulAssociates(m: Mat, n: Mat, p: Mat)
    ensures Mul(Mul(m, n), p) == Mul(m, Mul(n, p))
  {
    RowMulMul(m.r0, n, p);
    RowMulMul(m.r1, n, p);
    RowMulMul(m.r2, n, p);
  }

  lemma RowMulMul(u: Vec, n: Mat, p: Mat)
    ensures Apply(Transpose(p), Apply(Transpose(n), u)) == Apply(Transpose(Mul(n, p)), u)
  {
    hide Apply, Transpose, Mul;
    TransposeMul(n, p);
    ApplyMul(Transpose(p), Transpose(n), u);
  }

  lemma PsdCongruence(f: Mat, p: Mat)
    requires Psd(p)
    ensures Psd(Mul(Mul(f, p), Transpose(f)))
  {
    CongruenceSymmetric(f, p);
    hide Quad, Mul, Transpose, Symmetric;
    forall v ensures Quad(Mul(Mul(f, p), Transpose(f)), v) >= 0.0 {
      QuadCongruence(f, p, v);
    }
  }

  lemma PsdAdd(m: Mat, n: Mat)
    requires Psd(m) && Psd(n)
    ensures Psd(MatAdd(m, n))
  {
    SymmetricAdd(m, n);
    hide Quad, MatAdd, Symmetric;
    forall v ensures Quad(MatAdd(m, n), v) >= 0.0 {
      QuadAdd(m, n, v);
    }
  }

  lemma SymmetricAdd(m: Mat, n: Mat)
    requires Symmetric(m) && Symmetric(n)
    ensures Symmetric(MatAdd(m, n))
  {
  }

  // A non-negative form has a non-negative diagonal.
  lemma PsdDiagonal(m: Mat, i: nat)
    requires Psd(m) && i < 3
    ensures m.Row(i).At(i) >= 0.0
  {
    assert Quad(m, Unit(i)) == m.Row(i).At(i);
  }
}
