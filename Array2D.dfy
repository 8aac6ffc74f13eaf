/**
 Whole-column and whole-row access to preallocated two-dimensional arrays,
 the `a[:, j]` and `a[i, :]` reads and assignments of the array library.
 */
module Array2D {
  import opened LinAlg

  /** Column j, `a[:, j]`. */
  function Col(a: array2<real>, j: nat): (c: Vector)
    reads a
    requires j < a.Length1
    ensures |c| == a.Length0 && forall r :: 0 <= r < a.Length0 ==> c[r] == a[r, j]
  {
    seq(a.Length0, r requires 0 <= r < a.Length0 reads a => a[r, j])
  }

  /** All columns, in order. */
  function Columns(a: array2<real>): (cs: seq<Vector>)
    reads a
    ensures |cs| == a.Length1 && forall j :: 0 <= j < a.Length1 ==> cs[j] == Col(a, j)
  {
    seq(a.Length1, j requires 0 <= j < a.Length1 reads a => Col(a, j))
  }

  /** Row i, `a[i, :]`. */
  function Row(a: array2<real>, i: nat): (w: Vector)
    reads a
    requires i < a.Length0
    ensures |w| == a.Length1 && forall c :: 0 <= c < a.Length1 ==> w[c] == a[i, c]
  {
    seq(a.Length1, c requires 0 <= c < a.Length1 reads a => a[i, c])
  }

  /** The array as a matrix of rows. */
  function ToMatrix(a: array2<real>): (A: Matrix)
    reads a
    ensures IsMatrix(A, a.Length0, a.Length1)
    ensures forall i :: 0 <= i < a.Length0 ==> A[i] == Row(a, i)
  {
    seq(a.Length0, i requires 0 <= i < a.Length0 reads a => Row(a, i))
  }

  /** `a[:, j] = x`: column j becomes x, every other column keeps its values. */
  method SetCol(a: array2<real>, j: nat, x: Vector)
    requires j < a.Length1 && |x| == a.Length0
    modifies a
    ensures Col(a, j) == x
    ensures forall r, c :: 0 <= r < a.Length0 && 0 <= c < a.Length1 && c != j ==> a[r, c] == old(a[r, c])
    ensures forall c :: 0 <= c < a.Length1 && c != j ==> Col(a, c) == old(Col(a, c))
  {
    forall r | 0 <= r < a.Length0 {
      a[r, j] := x[r];
    }
  }

  /** `a[i, :] = x`: row i becomes x, every other row keeps its values. */
  method SetRow(a: array2<real>, i: nat, x: Vector)
    requires i < a.Length0 && |x| == a.Length1
    modifies a
    ensures Row(a, i) == x
    ensures forall r :: 0 <= r < a.Length0 && r != i ==> Row(a, r) == old(Row(a, r))
  {
    forall c | 0 <= c < a.Length1 {
      a[i, c] := x[c];
    }
  }
}
