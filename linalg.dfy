/**
 * Dense complex matrices and the algebra behind numpy's `einsum` chains:
 * a product of several matrices per frequency bin is a left-associated
 * chain of matrix products, and its trace is invariant under rotation.
 */
module LinearAlgebra {
  import opened Complex

  /** The sum of a sequence, accumulated from the left. */
  function Sum(s: seq<Complex>): Complex
  {
    if |s| == 0 then Zero else Add(Sum(s[..|s| - 1]), s[|s| - 1])
  }

  /** Element-wise sum of two sequences of equal length. */
  function Plus(s: seq<Complex>, t: seq<Complex>): (r: seq<Complex>)
    requires |s| == |t|
    ensures |r| == |s|
  {
    seq(|s|, i requires 0 <= i < |s| => Add(s[i], t[i]))
  }

  /** The inner product without conjugation, as `einsum` contracts an index. */
  function Dot(u: seq<Complex>, v: seq<Complex>): Complex
    requires |u| == |v|
  {
    Sum(seq(|u|, k requires 0 <= k < |u| => Mul(u[k], v[k])))
  }

  lemma {:induction false} SumPlus(s: seq<Complex>, t: seq<Complex>)
    requires |s| == |t|
    ensures Sum(Plus(s, t)) == Add(Sum(s), Sum(t))
  {
    if |s| > 0 {
      var n := |s| - 1;
      assert Plus(s, t)[..n] == Plus(s[..n], t[..n]);
      SumPlus(s[..n], t[..n]);
    }
  }

  /** A factor on the left can be moved inside a sum. */
  lemma {:induction false} SumMulLeft(c: Complex, s: seq<Complex>)
    ensures Mul(c, Sum(s)) == Sum(seq(|s|, i requires 0 <= i < |s| => Mul(c, s[i])))
  {
    var r := seq(|s|, i requires 0 <= i < |s| => Mul(c, s[i]));
    if |s| == 0 {
      MulZero(c);
    } else {
      var n := |s| - 1;
      assert r[..n] == seq(n, i requires 0 <= i < n => Mul(c, s[..n][i]));
      SumMulLeft(c, s[..n]);
      MulAddRight(c, Sum(s[..n]), s[n]);
    }
  }

  /** A factor on the right can be moved inside a sum. */
  lemma {:induction false} SumMulRight(s: seq<Complex>, c: Complex)
    ensures Mul(Sum(s), c) == Sum(seq(|s|, i requires 0 <= i < |s| => Mul(s[i], c)))
  {
    var r := seq(|s|, i requires 0 <= i < |s| => Mul(s[i], c));
    if |s| == 0 {
      MulZero(c);
    } else {
      var n := |s| - 1;
      assert r[..n] == seq(n, i requires 0 <= i < n => Mul(s[..n][i], c));
      SumMulRight(s[..n], c);
      MulAddLeft(Sum(s[..n]), s[n], c);
    }
  }

  /** A rectangular grid with `n` columns. */
  ghost predicate IsGrid(g: seq<seq<Complex>>, n: nat)
  {
    forall i :: 0 <= i < |g| ==> |g[i]| == n
  }

  function RowSums(g: seq<seq<Complex>>): (r: seq<Complex>)
    ensures |r| == |g|
  {
    seq(|g|, i requires 0 <= i < |g| => Sum(g[i]))
  }

  function Column(g: seq<seq<Complex>>, n: nat, j: nat): (r: seq<Complex>)
    requires IsGrid(g, n) && j < n
    ensures |r| == |g|
  {
    seq(|g|, i requires 0 <= i < |g| => g[i][j])
  }

  function ColumnSums(g: seq<seq<Complex>>, n: nat): (r: seq<Complex>)
    requires IsGrid(g, n)
    ensures |r| == n
  {
    seq(n, j requires 0 <= j < n => Sum(Column(g, n, j)))
  }

  /** Summing a grid row by row or column by column gives the same total. */
  lemma {:induction false} GridSumSwap(g: seq<seq<Complex>>, n: nat)
    requires IsGrid(g, n)
    ensures Sum(RowSums(g)) == Sum(ColumnSums(g, n))
  {
    if |g| == 0 {
      assert ColumnSums(g, n) == seq(n, j => Zero);
      SumOfZeros(n);
    } else {
      var m := |g| - 1;
      var h := g[..m];
      assert RowSums(g)[..m] == RowSums(h);
      forall j | 0 <= j < n
        ensures ColumnSums(g, n)[j] == Plus(ColumnSums(h, n), g[m])[j]
      {
        assert Column(g, n, j)[..m] == Column(h, n, j);
      }
      assert ColumnSums(g, n) == Plus(ColumnSums(h, n), g[m]);
      GridSumSwap(h, n);
      SumPlus(ColumnSums(h, n), g[m]);
    }
  }

  lemma {:induction false} SumOfZeros(n: nat)
    ensures Sum(seq(n, j => Zero)) == Zero
  {
    if n > 0 {
      assert seq(n, j => Zero)[..n - 1] == seq(n - 1, j => Zero);
      SumOfZeros(n - 1);
    }
  }

  // ---------------------------------------------------------------------
  // Matrices

  datatype Matrix = Matrix(rows: nat, cols: nat, e: seq<seq<Complex>>)
  {
    /** The entries form a `rows` x `cols` rectangle. */
    predicate Valid()
    {
      |e| == rows && forall i :: 0 <= i < |e| ==> |e[i]| == cols
    }
  }

  function Col(m: Matrix, j: nat): (r: seq<Complex>)
    requires m.Valid() && j < m.cols
    ensures |r| == m.rows
  {
    seq(m.rows, i requires 0 <= i < m.rows => m.e[i][j])
  }

  function MatMul(a: Matrix, b: Matrix): (c: Matrix)
    requires a.Valid() && b.Valid() && a.cols == b.rows
    ensures c.Valid() && c.rows == a.rows && c.cols == b.cols
  {
    Matrix(a.rows, b.cols,
      seq(a.rows, i requires 0 <= i < a.rows =>
        seq(b.cols, j requires 0 <= j < b.cols => Dot(a.e[i], Col(b, j)))))
  }

  function Identity(n: nat): (m: Matrix)
    ensures m.Valid() && m.rows == n && m.cols == n
  {
    Matrix(n, n, seq(n, i => seq(n, j => if i == j then One else Zero)))
  }

  function MatSub(a: Matrix, b: Matrix): (c: Matrix)
    requires a.Valid() && b.Valid() && a.rows == b.rows && a.cols == b.cols
    ensures c.Valid() && c.rows == a.rows && c.cols == a.cols
  {
    Matrix(a.rows, a.cols,
      seq(a.rows, i requires 0 <= i < a.rows =>
        seq(a.cols, j requires 0 <= j < a.cols => Sub(a.e[i][j], b.e[i][j]))))
  }

  ghost predicate Square(m: Matrix)
  {
    m.Valid() && m.rows == m.cols
  }

  function Trace(m: Matrix): Complex
    requires Square(m)
  {
    Sum(seq(m.rows, i requires 0 <= i < m.rows => m.e[i][i]))
  }

  /** `x` is a two-sided inverse of `m`. */
  ghost predicate IsInverse(x: Matrix, m: Matrix)
  {
    Square(m) && Square(x) && x.rows == m.rows
    && MatMul(x, m) == Identity(m.rows) && MatMul(m, x) == Identity(m.rows)
  }

  /** A sum of zeros is zero. */
  lemma {:induction false} SumZero(s: seq<Complex>)
    requires forall k :: 0 <= k < |s| ==> s[k] == Zero
    ensures Sum(s) == Zero
  {
    if |s| > 0 {
      SumZero(s[..|s| - 1]);
    }
  }

  /** A sum whose terms vanish except at position j is the term at j. */
  lemma {:induction false} SumSingle(s: seq<Complex>, j: nat)
    requires j < |s| && forall k :: 0 <= k < |s| && k != j ==> s[k] == Zero
    ensures Sum(s) == s[j]
  {
    var n := |s| - 1;
    if j < n {
      SumSingle(s[..n], j);
    } else {
      SumZero(s[..n]);
    }
  }

  /** I a == a */
  lemma IdentityLeft(a: Matrix)
    requires a.Valid()
    ensures MatMul(Identity(a.rows), a) == a
  {
    var l := MatMul(Identity(a.rows), a);
    forall i, j | 0 <= i < a.rows && 0 <= j < a.cols
      ensures l.e[i][j] == a.e[i][j]
    {
      var u, v := Identity(a.rows).e[i], Col(a, j);
      var t := seq(|u|, k requires 0 <= k < |u| => Mul(u[k], v[k]));
      forall k | 0 <= k < |u| && k != i
        ensures t[k] == Zero
      {
        MulZero(v[k]);
      }
      MulOne(v[i]);
      SumSingle(t, i);
    }
    MatrixExt(l, a);
  }

  /** a I == a */
  lemma IdentityRight(a: Matrix)
    requires a.Valid()
    ensures MatMul(a, Identity(a.cols)) == a
  {
    var r := MatMul(a, Identity(a.cols));
    forall i, j | 0 <= i < a.rows && 0 <= j < a.cols
      ensures r.e[i][j] == a.e[i][j]
    {
      var u, v := a.e[i], Col(Identity(a.cols), j);
      var t := seq(|u|, k requires 0 <= k < |u| => Mul(u[k], v[k]));
      forall k | 0 <= k < |u| && k != j
        ensures t[k] == Zero
      {
        MulZero(u[k]);
      }
      MulOne(u[j]);
      SumSingle(t, j);
    }
    MatrixExt(r, a);
  }

  /** A matrix has at most one two-sided inverse. */
  lemma InverseUnique(x: Matrix, y: Matrix, m: Matrix)
    requires IsInverse(x, m) && IsInverse(y, m)
    ensures x == y
  {
    IdentityRight(x);
    MatMulAssoc(x, m, y);
    IdentityLeft(y);
  }

  lemma MatrixExt(a: Matrix, b: Matrix)
    requires a.Valid() && b.Valid() && a.rows == b.rows && a.cols == b.cols
    requires forall i, j :: 0 <= i < a.rows && 0 <= j < a.cols ==> a.e[i][j] == b.e[i][j]
    ensures a == b
  {
    forall i | 0 <= i < a.rows
      ensures a.e[i] == b.e[i]
    {
      assert forall j :: 0 <= j < a.cols ==> a.e[i][j] == b.e[i][j];
    }
  }

  /** The terms a[i][j] (b[j][k] c[k][l]) of entry (i, l) of a b c, one row per k. */
  function AssocGrid(a: Matrix, b: Matrix, c: Matrix, i: nat, l: nat): (g: seq<seq<Complex>>)
    requires a.Valid() && b.Valid() && c.Valid() && a.cols == b.rows && b.cols == c.rows
    requires i < a.rows && l < c.cols
    ensures |g| == c.rows && IsGrid(g, b.rows)
  {
    seq(c.rows, k requires 0 <= k < c.rows =>
      seq(b.rows, j requires 0 <= j < b.rows => Mul(a.e[i][j], Mul(b.e[j][k], c.e[k][l]))))
  }

  lemma AssocLeftTerm(a: Matrix, b: Matrix, c: Matrix, i: nat, l: nat, k: nat)
    requires a.Valid() && b.Valid() && c.Valid() && a.cols == b.rows && b.cols == c.rows
    requires i < a.rows && l < c.cols && k < c.rows
    ensures Mul(MatMul(a, b).e[i][k], c.e[k][l]) == Sum(AssocGrid(a, b, c, i, l)[k])
  {
    var q := b.rows;
    var x := seq(q, j requires 0 <= j < q => Mul(a.e[i][j], Col(b, k)[j]));
    assert MatMul(a, b).e[i][k] == Sum(x);
    SumMulRight(x, c.e[k][l]);
    var g := AssocGrid(a, b, c, i, l);
    forall j | 0 <= j < q
      ensures Mul(x[j], c.e[k][l]) == g[k][j]
    {
      MulAssoc(a.e[i][j], b.e[j][k], c.e[k][l]);
    }
    assert seq(q, j requires 0 <= j < q => Mul(x[j], c.e[k][l])) == g[k];
  }

  lemma AssocLeft(a: Matrix, b: Matrix, c: Matrix, i: nat, l: nat)
    requires a.Valid() && b.Valid() && c.Valid() && a.cols == b.rows && b.cols == c.rows
    requires i < a.rows && l < c.cols
    ensures MatMul(MatMul(a, b), c).e[i][l] == Sum(RowSums(AssocGrid(a, b, c, i, l)))
  {
    var ab, r := MatMul(a, b), c.rows;
    var t := seq(r, k requires 0 <= k < r => Mul(ab.e[i][k], Col(c, l)[k]));
    assert MatMul(ab, c).e[i][l] == Sum(t);
    forall k | 0 <= k < r
      ensures t[k] == RowSums(AssocGrid(a, b, c, i, l))[k]
    {
      AssocLeftTerm(a, b, c, i, l, k);
    }
    assert t == RowSums(AssocGrid(a, b, c, i, l));
  }

  lemma AssocRightTerm(a: Matrix, b: Matrix, c: Matrix, i: nat, l: nat, j: nat)
    requires a.Valid() && b.Valid() && c.Valid() && a.cols == b.rows && b.cols == c.rows
    requires i < a.rows && l < c.cols && j < b.rows
    ensures Mul(a.e[i][j], MatMul(b, c).e[j][l]) == Sum(Column(AssocGrid(a, b, c, i, l), b.rows, j))
  {
    var r := c.rows;
    var y := seq(r, k requires 0 <= k < r => Mul(b.e[j][k], Col(c, l)[k]));
    assert MatMul(b, c).e[j][l] == Sum(y);
    SumMulLeft(a.e[i][j], y);
    assert seq(r, k requires 0 <= k < r => Mul(a.e[i][j], y[k]))
      == Column(AssocGrid(a, b, c, i, l), b.rows, j);
  }

  lemma AssocRight(a: Matrix, b: Matrix, c: Matrix, i: nat, l: nat)
    requires a.Valid() && b.Valid() && c.Valid() && a.cols == b.rows && b.cols == c.rows
    requires i < a.rows && l < c.cols
    ensures MatMul(a, MatMul(b, c)).e[i][l] == Sum(ColumnSums(AssocGrid(a, b, c, i, l), b.rows))
  {
    var bc, q := MatMul(b, c), b.rows;
    var t := seq(q, j requires 0 <= j < q => Mul(a.e[i][j], Col(bc, l)[j]));
    assert MatMul(a, bc).e[i][l] == Sum(t);
    forall j | 0 <= j < q
      ensures t[j] == ColumnSums(AssocGrid(a, b, c, i, l), q)[j]
    {
      AssocRightTerm(a, b, c, i, l, j);
    }
    assert t == ColumnSums(AssocGrid(a, b, c, i, l), q);
  }

  lemma MatMulAssoc(a: Matrix, b: Matrix, c: Matrix)
    requires a.Valid() && b.Valid() && c.Valid() && a.cols == b.rows && b.cols == c.rows
    ensures MatMul(MatMul(a, b), c) == MatMul(a, MatMul(b, c))
  {
    forall i, l | 0 <= i < a.rows && 0 <= l < c.cols
      ensures MatMul(MatMul(a, b), c).e[i][l] == MatMul(a, MatMul(b, c)).e[i][l]
    {
      AssocLeft(a, b, c, i, l);
      AssocRight(a, b, c, i, l);
      GridSumSwap(AssocGrid(a, b, c, i, l), b.rows);
    }
    MatrixExt(MatMul(MatMul(a, b), c), MatMul(a, MatMul(b, c)));
  }

  /** The terms x[i][j] y[j][i] of Tr(x y), one row per i. */
  function TraceGrid(x: Matrix, y: Matrix): (g: seq<seq<Complex>>)
    requires x.Valid() && y.Valid() && x.cols == y.rows && y.cols == x.rows
    ensures |g| == x.rows && IsGrid(g, x.cols)
  {
    seq(x.rows, i requires 0 <= i < x.rows =>
      seq(x.cols, j requires 0 <= j < x.cols => Mul(x.e[i][j], y.e[j][i])))
  }

  lemma TraceByRows(x: Matrix, y: Matrix)
    requires x.Valid() && y.Valid() && x.cols == y.rows && y.cols == x.rows
    ensures Trace(MatMul(x, y)) == Sum(RowSums(TraceGrid(x, y)))
  {
    var xy, g := MatMul(x, y), TraceGrid(x, y);
    forall i | 0 <= i < x.rows
      ensures xy.e[i][i] == RowSums(g)[i]
    {
      var u, v := x.e[i], Col(y, i);
      assert xy.e[i][i] == Dot(u, v);
      assert seq(|u|, k requires 0 <= k < |u| => Mul(u[k], v[k])) == g[i];
    }
    assert seq(xy.rows, i requires 0 <= i < xy.rows => xy.e[i][i]) == RowSums(g);
  }

  lemma TraceByColumnsAt(x: Matrix, y: Matrix, j: nat)
    requires x.Valid() && y.Valid() && x.cols == y.rows && y.cols == x.rows && j < x.cols
    ensures MatMul(y, x).e[j][j] == Sum(Column(TraceGrid(x, y), x.cols, j))
  {
    var g, u, v := TraceGrid(x, y), y.e[j], Col(x, j);
    assert MatMul(y, x).e[j][j] == Dot(u, v);
    forall i | 0 <= i < |u|
      ensures Mul(u[i], v[i]) == Column(g, x.cols, j)[i]
    {
      MulComm(y.e[j][i], x.e[i][j]);
    }
    assert seq(|u|, i requires 0 <= i < |u| => Mul(u[i], v[i])) == Column(g, x.cols, j);
  }

  lemma TraceByColumns(x: Matrix, y: Matrix)
    requires x.Valid() && y.Valid() && x.cols == y.rows && y.cols == x.rows
    ensures Trace(MatMul(y, x)) == Sum(ColumnSums(TraceGrid(x, y), x.cols))
  {
    var yx, g, m := MatMul(y, x), TraceGrid(x, y), x.cols;
    forall j | 0 <= j < m
      ensures yx.e[j][j] == ColumnSums(g, m)[j]
    {
      TraceByColumnsAt(x, y, j);
    }
    assert seq(yx.rows, j requires 0 <= j < yx.rows => yx.e[j][j]) == ColumnSums(g, m);
  }

  /** Tr(x y) == Tr(y x) for x of shape n x m and y of shape m x n. */
  lemma TraceCommutes(x: Matrix, y: Matrix)
    requires x.Valid() && y.Valid() && x.cols == y.rows && y.cols == x.rows
    ensures Trace(MatMul(x, y)) == Trace(MatMul(y, x))
  {
    TraceByRows(x, y);
    TraceByColumns(x, y);
    GridSumSwap(TraceGrid(x, y), x.cols);
  }

  // ---------------------------------------------------------------------
  // Chains of products

  /** Consecutive factors have matching inner dimensions. */
  ghost predicate Chainable(ms: seq<Matrix>)
  {
    && (forall i :: 0 <= i < |ms| ==> ms[i].Valid())
    && (forall i :: 0 <= i < |ms| - 1 ==> ms[i].cols == ms[i + 1].rows)
  }

  /** The product ms[0] ms[1] ... ms[n-1], multiplied from the left. */
  function Chain(ms: seq<Matrix>): (m: Matrix)
    requires |ms| > 0 && Chainable(ms)
    ensures m.Valid() && m.rows == ms[0].rows && m.cols == ms[|ms| - 1].cols
  {
    if |ms| == 1 then ms[0] else MatMul(Chain(ms[..|ms| - 1]), ms[|ms| - 1])
  }

  /** A chain splits into the product of its two halves at any point. */
  lemma {:induction false} ChainSplit(ms: seq<Matrix>, k: nat)
    requires Chainable(ms) && 0 < k < |ms|
    ensures Chainable(ms[..k]) && Chainable(ms[k..])
    ensures Chain(ms) == MatMul(Chain(ms[..k]), Chain(ms[k..]))
  {
    var n := |ms| - 1;
    var front, tail := ms[..n], ms[k..];
    ChainableSlice(ms, 0, n);
    ChainableSlice(ms, 0, k);
    ChainableSlice(ms, k, |ms|);
    assert ms[0..n] == front && ms[0..k] == ms[..k] && ms[k..|ms|] == tail;
    assert Chain(ms) == MatMul(Chain(front), ms[n]);
    if k == n {
      assert tail == [ms[n]];
    } else {
      ChainableSlice(ms, k, n);
      assert tail[..|tail| - 1] == ms[k..n];
      assert Chain(tail) == MatMul(Chain(ms[k..n]), ms[n]);
      assert front[..k] == ms[..k] && front[k..] == ms[k..n];
      ChainSplit(front, k);
      MatMulAssoc(Chain(ms[..k]), Chain(ms[k..n]), ms[n]);
    }
  }

  /** Any run of consecutive factors of a chain is a chain. */
  lemma ChainableSlice(ms: seq<Matrix>, i: nat, j: nat)
    requires Chainable(ms) && i <= j <= |ms|
    ensures Chainable(ms[i..j])
  {
    assert forall t :: 0 <= t < j - i ==> ms[i..j][t] == ms[i + t];
  }

  /** The factors rotated left by k places. */
  function Rotate(ms: seq<Matrix>, k: nat): (r: seq<Matrix>)
    requires k <= |ms|
    ensures |r| == |ms|
  {
    ms[k..] + ms[..k]
  }

  /** A chain that closes on itself (last columns = first rows). */
  ghost predicate ClosedChain(ms: seq<Matrix>)
  {
    |ms| > 0 && Chainable(ms) && ms[|ms| - 1].cols == ms[0].rows
  }

  lemma RotateChainable(ms: seq<Matrix>, k: nat)
    requires ClosedChain(ms) && k < |ms|
    ensures ClosedChain(Rotate(ms, k))
  {
    var r, n := Rotate(ms, k), |ms|;
    forall i | 0 <= i < n - 1
      ensures r[i].cols == r[i + 1].rows
    {
      if i + k < n - 1 {
        assert r[i] == ms[i + k] && r[i + 1] == ms[i + k + 1];
      } else if i + k == n - 1 {
        assert r[i] == ms[n - 1] && r[i + 1] == ms[0];
      } else {
        assert r[i] == ms[i + k - n] && r[i + 1] == ms[i + k + 1 - n];
      }
    }
    if k > 0 {
      assert r[n - 1] == ms[k - 1] && r[0] == ms[k];
    }
  }

  /** Rotating a closed chain keeps it closed and keeps the trace of its product. */
  lemma RotateTrace(ms: seq<Matrix>, k: nat)
    requires ClosedChain(ms) && k < |ms|
    ensures ClosedChain(Rotate(ms, k))
    ensures Trace(Chain(Rotate(ms, k))) == Trace(Chain(ms))
  {
    RotateChainable(ms, k);
    if k == 0 {
      assert Rotate(ms, k) == ms;
    } else {
      var r, n := Rotate(ms, k), |ms|;
      assert r[..n - k] == ms[k..] && r[n - k..] == ms[..k];
      ChainSplit(ms, k);
      ChainSplit(r, n - k);
      var x, y := Chain(ms[..k]), Chain(ms[k..]);
      assert Chain(ms) == MatMul(x, y);
      assert Chain(r) == MatMul(y, x);
      TraceCommutes(x, y);
    }
  }
}
