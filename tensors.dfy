/**
 * Frequency-dependent arrays in the control system's own layout:
 * `(rows, cols, nff)` arrays indexed [row][col][freq], the real
 * frequency-independent matrices S and A, and the per-frequency slices
 * that the loop products work on.
 */
module Tensors {
  import opened Complex
  import opened LinearAlgebra

  /** A complex (rows, cols, nff) array. */
  datatype Tensor = Tensor(rows: nat, cols: nat, nff: nat, at: seq<seq<seq<Complex>>>)
  {
    ghost predicate Valid()
    {
      |at| == rows &&
      (forall i :: 0 <= i < rows ==> |at[i]| == cols) &&
      (forall i, j :: 0 <= i < rows && 0 <= j < cols ==> |at[i][j]| == nff)
    }
  }

  /** A real (rows, cols) array, such as the sensing and actuation matrices. */
  ghost predicate IsRealGrid(g: seq<seq<real>>, rows: nat, cols: nat)
  {
    |g| == rows && forall i :: 0 <= i < rows ==> |g[i]| == cols
  }

  function Zeros(n: nat): (z: seq<Complex>)
    ensures |z| == n && forall f :: 0 <= f < n ==> z[f] == Zero
  {
    seq(n, f => Zero)
  }

  function Ones(n: nat): (o: seq<Complex>)
    ensures |o| == n && forall f :: 0 <= f < n ==> o[f] == One
  {
    seq(n, f => One)
  }

  /** `t[:, :, f]`: the matrix of one frequency bin. */
  function Slice(t: Tensor, f: nat): (m: Matrix)
    requires t.Valid() && f < t.nff
    ensures m.Valid() && m.rows == t.rows && m.cols == t.cols
    ensures forall i, j :: 0 <= i < t.rows && 0 <= j < t.cols ==> m.e[i][j] == t.at[i][j][f]
  {
    Matrix(t.rows, t.cols,
      seq(t.rows, i requires 0 <= i < t.rows =>
        seq(t.cols, j requires 0 <= j < t.cols => t.at[i][j][f])))
  }

  ghost predicate SameShape(ms: seq<Matrix>, rows: nat, cols: nat)
  {
    forall f :: 0 <= f < |ms| ==> ms[f].Valid() && ms[f].rows == rows && ms[f].cols == cols
  }

  /** The array whose f-th bin is ms[f]. */
  function FromSlices(ms: seq<Matrix>, rows: nat, cols: nat): (t: Tensor)
    requires SameShape(ms, rows, cols)
    ensures t.Valid() && t.rows == rows && t.cols == cols && t.nff == |ms|
  {
    Tensor(rows, cols, |ms|,
      seq(rows, i requires 0 <= i < rows =>
        seq(cols, j requires 0 <= j < cols =>
          seq(|ms|, f requires 0 <= f < |ms| => ms[f].e[i][j]))))
  }

  /** Stacking bins and slicing them again gives the bins back. */
  lemma SliceFromSlices(ms: seq<Matrix>, rows: nat, cols: nat, f: nat)
    requires SameShape(ms, rows, cols) && f < |ms|
    ensures Slice(FromSlices(ms, rows, cols), f) == ms[f]
  {
    MatrixExt(Slice(FromSlices(ms, rows, cols), f), ms[f]);
  }

  /** A real matrix as a complex one (numpy's upcast inside `einsum`). */
  function Lift(g: seq<seq<real>>, rows: nat, cols: nat): (m: Matrix)
    requires IsRealGrid(g, rows, cols)
    ensures m.Valid() && m.rows == rows && m.cols == cols
    ensures forall i, j :: 0 <= i < rows && 0 <= j < cols ==> m.e[i][j] == Real(g[i][j])
  {
    Matrix(rows, cols,
      seq(rows, i requires 0 <= i < rows =>
        seq(cols, j requires 0 <= j < cols => Real(g[i][j]))))
  }
}
