/**
 Dense linear algebra over exact reals: the part of the array library that the
 integrators and the modal solver use (`@`, `+`, `-`, scalar `*`, `.T`).
 A vector is a sequence of reals, a matrix a sequence of rows.
 */
module LinAlg {

  type Vector = seq<real>
  type Matrix = seq<seq<real>>

  /** A is a rows x cols matrix. */
  ghost predicate IsMatrix(A: Matrix, rows: nat, cols: nat) {
    |A| == rows && forall i :: 0 <= i < rows ==> |A[i]| == cols
  }

  /** Inner product of two vectors of equal length. */
  function Dot(x: Vector, y: Vector): real
    requires |x| == |y|
    decreases |x|
  {
    if |x| == 0 then 0.0 else x[0] * y[0] + Dot(x[1..], y[1..])
  }

  function VecAdd(x: Vector, y: Vector): (r: Vector)
    requires |x| == |y|
    ensures |r| == |x| && forall i :: 0 <= i < |r| ==> r[i] == x[i] + y[i]
  {
    seq(|x|, i requires 0 <= i < |x| => x[i] + y[i])
  }

  function VecSub(x: Vector, y: Vector): (r: Vector)
    requires |x| == |y|
    ensures |r| == |x| && forall i :: 0 <= i < |r| ==> r[i] == x[i] - y[i]
  {
    seq(|x|, i requires 0 <= i < |x| => x[i] - y[i])
  }

  function VecScale(c: real, x: Vector): (r: Vector)
    ensures |r| == |x| && forall i :: 0 <= i < |r| ==> r[i] == c * x[i]
  {
    seq(|x|, i requires 0 <= i < |x| => c * x[i])
  }

  /** Matrix-vector product A @ x: entry i is the inner product of row i with x. */
  function MatVec(A: Matrix, x: Vector): (r: Vector)
    requires forall i :: 0 <= i < |A| ==> |A[i]| == |x|
    ensures |r| == |A| && forall i :: 0 <= i < |A| ==> r[i] == Dot(A[i], x)
  {
    seq(|A|, i requires 0 <= i < |A| => Dot(A[i], x))
  }

  function MatAdd(A: Matrix, B: Matrix): (R: Matrix)
    requires |A| == |B| && forall i :: 0 <= i < |A| ==> |A[i]| == |B[i]|
    ensures |R| == |A| && forall i :: 0 <= i < |A| ==> R[i] == VecAdd(A[i], B[i])
  {
    seq(|A|, i requires 0 <= i < |A| => VecAdd(A[i], B[i]))
  }

  function MatSub(A: Matrix, B: Matrix): (R: Matrix)
    requires |A| == |B| && forall i :: 0 <= i < |A| ==> |A[i]| == |B[i]|
    ensures |R| == |A| && forall i :: 0 <= i < |A| ==> R[i] == VecSub(A[i], B[i])
  {
    seq(|A|, i requires 0 <= i < |A| => VecSub(A[i], B[i]))
  }

  function MatScale(c: real, A: Matrix): (R: Matrix)
    ensures |R| == |A| && forall i :: 0 <= i < |A| ==> R[i] == VecScale(c, A[i])
  {
    seq(|A|, i requires 0 <= i < |A| => VecScale(c, A[i]))
  }

  /** Column j of a rows x cols matrix. */
  function Column(A: Matrix, j: nat, cols: nat): (c: Vector)
    requires forall i :: 0 <= i < |A| ==> |A[i]| == cols
    requires j < cols
    ensures |c| == |A| && forall i :: 0 <= i < |A| ==> c[i] == A[i][j]
  {
    seq(|A|, i requires 0 <= i < |A| => A[i][j])
  }

  /** The transpose (`.T`) of a rows x cols matrix is cols x rows. */
  function Transpose(A: Matrix, cols: nat): (R: Matrix)
    requires forall i :: 0 <= i < |A| ==> |A[i]| == cols
    ensures IsMatrix(R, cols, |A|)
    ensures forall i, j :: 0 <= i < cols && 0 <= j < |A| ==> R[i][j] == A[j][i]
  {
    seq(cols, j requires 0 <= j < cols => Column(A, j, cols))
  }

  /** Matrix product A @ B of an m x k matrix and a k x cols matrix. */
  function MatMul(A: Matrix, B: Matrix, cols: nat): (R: Matrix)
    requires forall i :: 0 <= i < |A| ==> |A[i]| == |B|
    requires forall i :: 0 <= i < |B| ==> |B[i]| == cols
    ensures IsMatrix(R, |A|, cols)
    ensures forall i, j :: 0 <= i < |A| && 0 <= j < cols ==> R[i][j] == Dot(A[i], Column(B, j, cols))
  {
    seq(|A|, i requires 0 <= i < |A| =>
      seq(cols, j requires 0 <= j < cols => Dot(A[i], Column(B, j, cols))))
  }

  /** The diagonal of a square matrix (`.diagonal()`). */
  function Diagonal(A: Matrix): (d: Vector)
    requires IsMatrix(A, |A|, |A|)
    ensures |d| == |A| && forall i :: 0 <= i < |A| ==> d[i] == A[i][i]
  {
    seq(|A|, i requires 0 <= i < |A| => A[i][i])
  }

  /**
   B is a (right) inverse of the square matrix A: multiplying any vector of the
   right length by B and then by A gives the vector back. This is what the
   program relies on when it writes `inv(A) @ b` for the solution of A x = b.
   */
  ghost predicate IsInverseOf(A: Matrix, B: Matrix) {
    && IsMatrix(A, |A|, |A|)
    && IsMatrix(B, |A|, |A|)
    && forall b: Vector {:trigger MatVec(B, b)} :: |b| == |A| ==> MatVec(A, MatVec(B, b)) == b
  }

  /**
   solve(A, b) solves A x = b for every right-hand side of the right length:
   what the program relies on when it calls `solve(A, b)`.
   */
  ghost predicate IsSolverFor(solve: (Matrix, Vector) -> Vector, A: Matrix) {
    && IsMatrix(A, |A|, |A|)
    && forall b: Vector {:trigger solve(A, b)} :: |b| == |A| ==>
         |solve(A, b)| == |A| && MatVec(A, solve(A, b)) == b
  }

  // Linearity of the inner product.

  lemma {:induction false} DotAdd(r: Vector, x: Vector, y: Vector)
    requires |r| == |x| == |y|
    ensures Dot(r, VecAdd(x, y)) == Dot(r, x) + Dot(r, y)
    decreases |r|
  {
    if |r| > 0 {
      assert VecAdd(x, y)[1..] == VecAdd(x[1..], y[1..]);
      DotAdd(r[1..], x[1..], y[1..]);
    }
  }

  lemma {:induction false} DotSub(r: Vector, x: Vector, y: Vector)
    requires |r| == |x| == |y|
    ensures Dot(r, VecSub(x, y)) == Dot(r, x) - Dot(r, y)
    decreases |r|
  {
    if |r| > 0 {
      assert VecSub(x, y)[1..] == VecSub(x[1..], y[1..]);
      DotSub(r[1..], x[1..], y[1..]);
    }
  }

  lemma {:induction false} DotScale(r: Vector, c: real, x: Vector)
    requires |r| == |x|
    ensures Dot(r, VecScale(c, x)) == c * Dot(r, x)
    decreases |r|
  {
    if |r| > 0 {
      assert forall k :: 0 <= k < |x| - 1 ==> VecScale(c, x)[1..][k] == VecScale(c, x[1..])[k];
      assert VecScale(c, x)[1..] == VecScale(c, x[1..]);
      DotScale(r[1..], c, x[1..]);
      calc {
        Dot(r, VecScale(c, x));
        r[0] * (c * x[0]) + c * Dot(r[1..], x[1..]);
        c * (r[0] * x[0] + Dot(r[1..], x[1..]));
      }
    }
  }

  lemma {:induction false} DotAddLeft(r: Vector, s: Vector, x: Vector)
    requires |r| == |s| == |x|
    ensures Dot(VecAdd(r, s), x) == Dot(r, x) + Dot(s, x)
    decreases |r|
  {
    if |r| > 0 {
      assert VecAdd(r, s)[1..] == VecAdd(r[1..], s[1..]);
      DotAddLeft(r[1..], s[1..], x[1..]);
    }
  }

  lemma {:induction false} DotSubLeft(r: Vector, s: Vector, x: Vector)
    requires |r| == |s| == |x|
    ensures Dot(VecSub(r, s), x) == Dot(r, x) - Dot(s, x)
    decreases |r|
  {
    if |r| > 0 {
      assert VecSub(r, s)[1..] == VecSub(r[1..], s[1..]);
      DotSubLeft(r[1..], s[1..], x[1..]);
    }
  }

  lemma {:induction false} DotScaleLeft(c: real, r: Vector, x: Vector)
    requires |r| == |x|
    ensures Dot(VecScale(c, r), x) == c * Dot(r, x)
    decreases |r|
  {
    if |r| > 0 {
      assert forall k :: 0 <= k < |r| - 1 ==> VecScale(c, r)[1..][k] == VecScale(c, r[1..])[k];
      assert VecScale(c, r)[1..] == VecScale(c, r[1..]);
      DotScaleLeft(c, r[1..], x[1..]);
      calc {
        Dot(VecScale(c, r), x);
        (c * r[0]) * x[0] + c * Dot(r[1..], x[1..]);
        c * (r[0] * x[0] + Dot(r[1..], x[1..]));
      }
    }
  }

  // Linearity of the matrix-vector product, in the vector and in the matrix.

  lemma MatVecAdd(A: Matrix, x: Vector, y: Vector)
    requires |x| == |y| && forall i :: 0 <= i < |A| ==> |A[i]| == |x|
    ensures MatVec(A, VecAdd(x, y)) == VecAdd(MatVec(A, x), MatVec(A, y))
  {
    forall i | 0 <= i < |A| { DotAdd(A[i], x, y); }
  }

  lemma MatVecSub(A: Matrix, x: Vector, y: Vector)
    requires |x| == |y| && forall i :: 0 <= i < |A| ==> |A[i]| == |x|
    ensures MatVec(A, VecSub(x, y)) == VecSub(MatVec(A, x), MatVec(A, y))
  {
    forall i | 0 <= i < |A| { DotSub(A[i], x, y); }
  }

  lemma MatVecScale(A: Matrix, c: real, x: Vector)
    requires forall i :: 0 <= i < |A| ==> |A[i]| == |x|
    ensures MatVec(A, VecScale(c, x)) == VecScale(c, MatVec(A, x))
  {
    var l, r := MatVec(A, VecScale(c, x)), VecScale(c, MatVec(A, x));
    forall i | 0 <= i < |A| ensures l[i] == r[i] { DotScale(A[i], c, x); }
  }

  lemma MatAddVec(A: Matrix, B: Matrix, x: Vector)
    requires IsMatrix(A, |A|, |x|) && IsMatrix(B, |A|, |x|)
    ensures MatVec(MatAdd(A, B), x) == VecAdd(MatVec(A, x), MatVec(B, x))
  {
    forall i | 0 <= i < |A| { DotAddLeft(A[i], B[i], x); }
  }

  lemma MatSubVec(A: Matrix, B: Matrix, x: Vector)
    requires IsMatrix(A, |A|, |x|) && IsMatrix(B, |A|, |x|)
    ensures MatVec(MatSub(A, B), x) == VecSub(MatVec(A, x), MatVec(B, x))
  {
    forall i | 0 <= i < |A| { DotSubLeft(A[i], B[i], x); }
  }

  lemma MatScaleVec(c: real, A: Matrix, x: Vector)
    requires IsMatrix(A, |A|, |x|)
    ensures MatVec(MatScale(c, A), x) == VecScale(c, MatVec(A, x))
  {
    var l, r := MatVec(MatScale(c, A), x), VecScale(c, MatVec(A, x));
    forall i | 0 <= i < |A| ensures l[i] == r[i] { DotScaleLeft(c, A[i], x); }
  }

  // Regrouping a product: (B @ A) @ x is B @ (A @ x).

  /** The row vector b @ A: entry j is b against column j of A. */
  function RowTimes(b: Vector, A: Matrix, cols: nat): (r: Vector)
    requires IsMatrix(A, |b|, cols)
    ensures |r| == cols
  {
    seq(cols, j requires 0 <= j < cols => Dot(b, Column(A, j, cols)))
  }

  lemma {:induction false} DotZeroLeft(z: Vector, x: Vector)
    requires |z| == |x| && forall k :: 0 <= k < |z| ==> z[k] == 0.0
    ensures Dot(z, x) == 0.0
    decreases |z|
  {
    if |z| > 0 {
      DotZeroLeft(z[1..], x[1..]);
    }
  }

  /** (b @ A) . x == b . (A @ x). */
  lemma {:induction false} DotRowTimes(b: Vector, A: Matrix, x: Vector)
    requires IsMatrix(A, |b|, |x|)
    ensures Dot(RowTimes(b, A, |x|), x) == Dot(b, MatVec(A, x))
    decreases |b|
  {
    var n := |x|;
    if |b| == 0 {
      DotZeroLeft(RowTimes(b, A, n), x);
    } else {
      var r, r' := RowTimes(b, A, n), RowTimes(b[1..], A[1..], n);
      var h := VecAdd(VecScale(b[0], A[0]), r');
      forall j | 0 <= j < n ensures r[j] == h[j] {
        assert Column(A, j, n)[1..] == Column(A[1..], j, n);
      }
      assert r == h;
      DotAddLeft(VecScale(b[0], A[0]), r', x);
      DotScaleLeft(b[0], A[0], x);
      DotRowTimes(b[1..], A[1..], x);
      assert MatVec(A, x)[1..] == MatVec(A[1..], x);
    }
  }

  /** Multiplying by B @ A is multiplying by A and then by B. */
  lemma MatMulVec(B: Matrix, A: Matrix, x: Vector)
    requires IsMatrix(A, |A|, |x|) && forall i :: 0 <= i < |B| ==> |B[i]| == |A|
    ensures MatVec(MatMul(B, A, |x|), x) == MatVec(B, MatVec(A, x))
  {
    var P := MatMul(B, A, |x|);
    forall i | 0 <= i < |B| ensures Dot(P[i], x) == Dot(B[i], MatVec(A, x)) {
      assert P[i] == RowTimes(B[i], A, |x|);
      DotRowTimes(B[i], A, x);
    }
  }
}
