/** Real vectors and square matrices: the arithmetic of `small_random_rotation`
    (ip_adapter_utils/random_rotate.py) taken over exact reals. */
module LinAlg {

  type Vector = seq<real>
  type Matrix = seq<seq<real>>

  predicate IsSquare(m: Matrix, n: nat) {
    |m| == n && forall i :: 0 <= i < n ==> |m[i]| == n
  }

  /** `a` equals the negation of its transpose. */
  ghost predicate IsSkew(a: Matrix, n: nat)
    requires IsSquare(a, n)
  {
    forall i, j :: 0 <= i < n && 0 <= j < n ==> a[i][j] == -a[j][i]
  }

  /** `torch.eye(n)` */
  function Identity(n: nat): (m: Matrix)
    ensures IsSquare(m, n)
    ensures forall i, j :: 0 <= i < n && 0 <= j < n ==> m[i][j] == if i == j then 1.0 else 0.0
  {
    seq(n, i => seq(n, j => if i == j then 1.0 else 0.0))
  }

  /** `m.t()` */
  function Transpose(m: Matrix, n: nat): (t: Matrix)
    requires IsSquare(m, n)
    ensures IsSquare(t, n)
    ensures forall i, j :: 0 <= i < n && 0 <= j < n ==> t[i][j] == m[j][i]
  {
    seq(n, i requires 0 <= i < n => seq(n, j requires 0 <= j < n => m[j][i]))
  }

  /** `(m - m.t()) / 2`: the skew-symmetric part of `m`. */
  function SkewPart(m: Matrix, n: nat): (a: Matrix)
    requires IsSquare(m, n)
    ensures IsSquare(a, n)
    ensures forall i, j :: 0 <= i < n && 0 <= j < n ==> a[i][j] == (m[i][j] - Transpose(m, n)[i][j]) / 2.0
  {
    seq(n, i requires 0 <= i < n => seq(n, j requires 0 <= j < n => (m[i][j] - Transpose(m, n)[i][j]) / 2.0))
  }

  /** Whatever matrix is drawn, `(m - m.t()) / 2` is skew-symmetric, so its
      diagonal is zero. */
  lemma SkewPartIsSkew(m: Matrix, n: nat)
    requires IsSquare(m, n)
    ensures IsSkew(SkewPart(m, n), n)
    ensures forall i :: 0 <= i < n ==> SkewPart(m, n)[i][i] == 0.0
  {
    var a, t := SkewPart(m, n), Transpose(m, n);
    forall i, j | 0 <= i < n && 0 <= j < n
      ensures a[i][j] == -a[j][i]
    {
      assert a[i][j] == (m[i][j] - m[j][i]) / 2.0;
      assert a[j][i] == (m[j][i] - m[i][j]) / 2.0;
    }
  }

  /** `I + eps * a`: the first-order approximation of a rotation by `a`. */
  function NearIdentity(a: Matrix, n: nat, eps: real): (r: Matrix)
    requires IsSquare(a, n)
    ensures IsSquare(r, n)
    ensures forall i, j :: 0 <= i < n && 0 <= j < n ==> r[i][j] == Identity(n)[i][j] + eps * a[i][j]
  {
    seq(n, i requires 0 <= i < n => seq(n, j requires 0 <= j < n => Identity(n)[i][j] + eps * a[i][j]))
  }

  /** Sum over the first `k` rows of column `j` weighted by `v`: Σ_{i<k} v[i]·m[i][j]. */
  function ColumnSum(v: Vector, m: Matrix, j: nat, k: nat): real
    requires IsSquare(m, |v|) && j < |v| && k <= |v|
  {
    if k == 0 then 0.0 else ColumnSum(v, m, j, k - 1) + v[k - 1] * m[k - 1][j]
  }

  /** `torch.matmul(v, m)` for a row vector `v`. */
  function VecMat(v: Vector, m: Matrix): (r: Vector)
    requires IsSquare(m, |v|)
    ensures |r| == |v|
    ensures forall j :: 0 <= j < |v| ==> r[j] == ColumnSum(v, m, j, |v|)
  {
    seq(|v|, j requires 0 <= j < |v| => ColumnSum(v, m, j, |v|))
  }

  function Add(u: Vector, v: Vector): (r: Vector)
    requires |u| == |v|
    ensures |r| == |u| && forall i :: 0 <= i < |u| ==> r[i] == u[i] + v[i]
  {
    seq(|u|, i requires 0 <= i < |u| => u[i] + v[i])
  }

  function Scale(e: real, v: Vector): (r: Vector)
    ensures |r| == |v| && forall i :: 0 <= i < |v| ==> r[i] == e * v[i]
  {
    seq(|v|, i requires 0 <= i < |v| => e * v[i])
  }

  /** Σ_{i<k} u[i]·v[i] */
  function DotUpTo(u: Vector, v: Vector, k: nat): real
    requires |u| == |v| && k <= |u|
  {
    if k == 0 then 0.0 else DotUpTo(u, v, k - 1) + u[k - 1] * v[k - 1]
  }

  function Dot(u: Vector, v: Vector): real
    requires |u| == |v|
  {
    DotUpTo(u, v, |u|)
  }

  // ---------------------------------------------------------------------------
  // Multiplying by I + eps * a
  // ---------------------------------------------------------------------------

  lemma Distrib(p: real, q: real, r: real)
    ensures p * (q + r) == p * q + p * r
  {
  }

  lemma {:induction false} ColumnSumIdentity(v: Vector, j: nat, k: nat)
    requires j < |v| && k <= |v|
    ensures ColumnSum(v, Identity(|v|), j, k) == if j < k then v[j] else 0.0
  {
    if k > 0 {
      ColumnSumIdentity(v, j, k - 1);
    }
  }

  /** Multiplying by the identity changes nothing. */
  lemma VecMatIdentity(v: Vector)
    ensures VecMat(v, Identity(|v|)) == v
  {
    forall j | 0 <= j < |v|
      ensures VecMat(v, Identity(|v|))[j] == v[j]
    {
      ColumnSumIdentity(v, j, |v|);
    }
  }

  lemma {:induction false} ColumnSumNearIdentity(v: Vector, a: Matrix, eps: real, j: nat, k: nat)
    requires IsSquare(a, |v|) && j < |v| && k <= |v|
    ensures ColumnSum(v, NearIdentity(a, |v|, eps), j, k)
         == ColumnSum(v, Identity(|v|), j, k) + eps * ColumnSum(v, a, j, k)
  {
    if k > 0 {
      ColumnSumNearIdentity(v, a, eps, j, k - 1);
      assert NearIdentity(a, |v|, eps)[k - 1][j] == Identity(|v|)[k - 1][j] + eps * a[k - 1][j];
      Distrib(v[k - 1], Identity(|v|)[k - 1][j], eps * a[k - 1][j]);
      assert v[k - 1] * (eps * a[k - 1][j]) == eps * (v[k - 1] * a[k - 1][j]);
      Distrib(eps, ColumnSum(v, a, j, k - 1), v[k - 1] * a[k - 1][j]);
    }
  }

  /** `v (I + eps a) = v + eps (v a)`. */
  lemma VecMatNearIdentity(v: Vector, a: Matrix, eps: real)
    requires IsSquare(a, |v|)
    ensures VecMat(v, NearIdentity(a, |v|, eps)) == Add(v, Scale(eps, VecMat(v, a)))
  {
    var lhs, rhs := VecMat(v, NearIdentity(a, |v|, eps)), Add(v, Scale(eps, VecMat(v, a)));
    forall j | 0 <= j < |v|
      ensures lhs[j] == rhs[j]
    {
      ColumnSumNearIdentity(v, a, eps, j, |v|);
      ColumnSumIdentity(v, j, |v|);
    }
    assert lhs == rhs;
  }

  // ---------------------------------------------------------------------------
  // A skew-symmetric matrix moves v orthogonally to v
  // ---------------------------------------------------------------------------

  /** Σ_{j<m} v[j]·ColumnSum(v, a, j, n): the quadratic form of `a` at `v`,
      restricted to the first `n` rows and `m` columns. */
  function Quad(v: Vector, a: Matrix, n: nat, m: nat): real
    requires IsSquare(a, |v|) && n <= |v| && m <= |v|
  {
    if m == 0 then 0.0 else Quad(v, a, n, m - 1) + v[m - 1] * ColumnSum(v, a, m - 1, n)
  }

  /** Σ_{j<m} v[j]·(v[n]·a[n][j]): the contribution of row `n` to `Quad`. */
  function RowTerms(v: Vector, a: Matrix, n: nat, m: nat): real
    requires IsSquare(a, |v|) && n < |v| && m <= |v|
  {
    if m == 0 then 0.0 else RowTerms(v, a, n, m - 1) + v[m - 1] * (v[n] * a[n][m - 1])
  }

  lemma {:induction false} QuadAddRow(v: Vector, a: Matrix, n: nat, m: nat)
    requires IsSquare(a, |v|) && n < |v| && m <= |v|
    ensures Quad(v, a, n + 1, m) == Quad(v, a, n, m) + RowTerms(v, a, n, m)
  {
    if m > 0 {
      QuadAddRow(v, a, n, m - 1);
      assert ColumnSum(v, a, m - 1, n + 1) == ColumnSum(v, a, m - 1, n) + v[n] * a[n][m - 1];
      Distrib(v[m - 1], ColumnSum(v, a, m - 1, n), v[n] * a[n][m - 1]);
    }
  }

  lemma {:induction false} RowTermsSkew(v: Vector, a: Matrix, n: nat, m: nat)
    requires IsSquare(a, |v|) && IsSkew(a, |v|) && n < |v| && m <= |v|
    ensures RowTerms(v, a, n, m) == -(v[n] * ColumnSum(v, a, n, m))
  {
    if m > 0 {
      RowTermsSkew(v, a, n, m - 1);
      assert a[m - 1][n] == -a[n][m - 1];
      assert v[m - 1] * (v[n] * a[n][m - 1]) == -(v[n] * (v[m - 1] * a[m - 1][n]));
      Distrib(v[n], ColumnSum(v, a, n, m - 1), v[m - 1] * a[m - 1][n]);
    }
  }

  lemma {:induction false} QuadSkewZero(v: Vector, a: Matrix, n: nat)
    requires IsSquare(a, |v|) && IsSkew(a, |v|) && n <= |v|
    ensures Quad(v, a, n, n) == 0.0
  {
    if n > 0 {
      var k := n - 1;
      QuadSkewZero(v, a, k);
      QuadAddRow(v, a, k, n);
      RowTermsSkew(v, a, k, n);
      assert a[k][k] == 0.0;
      assert ColumnSum(v, a, k, n) == ColumnSum(v, a, k, k);
    }
  }

  lemma {:induction false} DotVecMat(v: Vector, a: Matrix, m: nat)
    requires IsSquare(a, |v|) && m <= |v|
    ensures DotUpTo(v, VecMat(v, a), m) == Quad(v, a, |v|, m)
  {
    if m > 0 {
      DotVecMat(v, a, m - 1);
    }
  }

  /** For skew-symmetric `a`, `v a` is orthogonal to `v`. */
  lemma SkewOrthogonal(v: Vector, a: Matrix)
    requires IsSquare(a, |v|) && IsSkew(a, |v|)
    ensures Dot(v, VecMat(v, a)) == 0.0
  {
    DotVecMat(v, a, |v|);
    QuadSkewZero(v, a, |v|);
  }

  // ---------------------------------------------------------------------------
  // Dot products of v + e y
  // ---------------------------------------------------------------------------

  lemma {:induction false} DotAddRight(x: Vector, y: Vector, z: Vector, k: nat)
    requires |x| == |y| == |z| && k <= |x|
    ensures DotUpTo(x, Add(y, z), k) == DotUpTo(x, y, k) + DotUpTo(x, z, k)
  {
    if k > 0 {
      DotAddRight(x, y, z, k - 1);
      Distrib(x[k - 1], y[k - 1], z[k - 1]);
    }
  }

  lemma {:induction false} DotAddLeft(x: Vector, y: Vector, z: Vector, k: nat)
    requires |x| == |y| == |z| && k <= |x|
    ensures DotUpTo(Add(x, y), z, k) == DotUpTo(x, z, k) + DotUpTo(y, z, k)
  {
    if k > 0 {
      DotAddLeft(x, y, z, k - 1);
      assert (x[k - 1] + y[k - 1]) * z[k - 1] == x[k - 1] * z[k - 1] + y[k - 1] * z[k - 1];
    }
  }

  lemma {:induction false} DotScaleRight(x: Vector, e: real, y: Vector, k: nat)
    requires |x| == |y| && k <= |x|
    ensures DotUpTo(x, Scale(e, y), k) == e * DotUpTo(x, y, k)
  {
    if k > 0 {
      DotScaleRight(x, e, y, k - 1);
      assert x[k - 1] * (e * y[k - 1]) == e * (x[k - 1] * y[k - 1]);
      Distrib(e, DotUpTo(x, y, k - 1), x[k - 1] * y[k - 1]);
    }
  }

  lemma {:induction false} DotScaleLeft(e: real, x: Vector, y: Vector, k: nat)
    requires |x| == |y| && k <= |x|
    ensures DotUpTo(Scale(e, x), y, k) == e * DotUpTo(x, y, k)
  {
    if k > 0 {
      DotScaleLeft(e, x, y, k - 1);
      assert (e * x[k - 1]) * y[k - 1] == e * (x[k - 1] * y[k - 1]);
      Distrib(e, DotUpTo(x, y, k - 1), x[k - 1] * y[k - 1]);
    }
  }

  lemma {:induction false} DotSymmetric(x: Vector, y: Vector, k: nat)
    requires |x| == |y| && k <= |x|
    ensures DotUpTo(x, y, k) == DotUpTo(y, x, k)
  {
    if k > 0 {
      DotSymmetric(x, y, k - 1);
      assert x[k - 1] * y[k - 1] == y[k - 1] * x[k - 1];
    }
  }

  /** `x·(x + e y) = x·x + e (x·y)`. */
  lemma DotShiftCross(x: Vector, y: Vector, e: real)
    requires |x| == |y|
    ensures Dot(x, Add(x, Scale(e, y))) == Dot(x, x) + e * Dot(x, y)
  {
    DotAddRight(x, x, Scale(e, y), |x|);
    DotScaleRight(x, e, y, |x|);
  }

  /** `(x + e y)·(x + e y) = x·x + 2e (x·y) + e² (y·y)`. */
  lemma DotShiftSquare(x: Vector, y: Vector, e: real)
    requires |x| == |y|
    ensures Dot(Add(x, Scale(e, y)), Add(x, Scale(e, y)))
         == Dot(x, x) + 2.0 * e * Dot(x, y) + e * e * Dot(y, y)
  {
    DotAddLeft(x, Scale(e, y), Add(x, Scale(e, y)), |x|);
    DotScaleLeft(e, y, Add(x, Scale(e, y)), |x|);
    DotShiftCross(x, y, e);
    DotAddRight(y, x, Scale(e, y), |x|);
    DotScaleRight(y, e, y, |x|);
    DotSymmetric(x, y, |x|);
    Distrib(e, Dot(x, y), e * Dot(y, y));
  }

  /** `v (I + eps a)` for skew-symmetric `a`: its projection on `v` is `|v|²`,
      and its squared length exceeds `|v|²` only by `eps² |v a|²` — a rotation
      to first order in `eps`, not an exact one. With `eps = 0` it is `v`. */
  lemma NearRotation(v: Vector, a: Matrix, eps: real)
    requires IsSquare(a, |v|) && IsSkew(a, |v|)
    ensures Dot(v, VecMat(v, NearIdentity(a, |v|, eps))) == Dot(v, v)
    ensures Dot(VecMat(v, NearIdentity(a, |v|, eps)), VecMat(v, NearIdentity(a, |v|, eps)))
         == Dot(v, v) + eps * eps * Dot(VecMat(v, a), VecMat(v, a))
    ensures eps == 0.0 ==> VecMat(v, NearIdentity(a, |v|, eps)) == v
  {
    VecMatNearIdentity(v, a, eps);
    SkewOrthogonal(v, a);
    DotShiftCross(v, VecMat(v, a), eps);
    DotShiftSquare(v, VecMat(v, a), eps);
    if eps == 0.0 {
      assert Add(v, Scale(eps, VecMat(v, a))) == v;
    }
  }
}
