/**
 * Loop transfer functions. The open-loop array at each of the five
 * injection points is, bin by bin, a product of the sensing matrix S, the
 * plant P, the response M, the compensator K, the actuation matrix A and
 * the controller C; the five products are rotations of one another. The
 * closed-loop array is, bin by bin, the inverse of I - L.
 */
module Loops {
  import opened Outcomes
  import opened Complex
  import opened LinearAlgebra
  import opened Tensors

  /** The injection points `_sigs`. */
  datatype Signal = ErrSig | CtrlSig | CompSig | DriveSig | SensSig

  const SignalNames: seq<string> := ["err", "ctrl", "comp", "drive", "sens"]

  function SignalName(s: Signal): string
  {
    match s
    case ErrSig => "err"
    case CtrlSig => "ctrl"
    case CompSig => "comp"
    case DriveSig => "drive"
    case SensSig => "sens"
  }

  /** `sig not in self._sigs` is a ValueError. */
  function ParseSignal(sig: string): (r: Result<Signal>)
    ensures r.Ok? <==> sig in SignalNames
    ensures r.Err? ==> r.error == ValueError
    ensures r.Ok? ==> SignalName(r.value) == sig
  {
    if sig == "err" then Ok(ErrSig)
    else if sig == "ctrl" then Ok(CtrlSig)
    else if sig == "comp" then Ok(CompSig)
    else if sig == "drive" then Ok(DriveSig)
    else if sig == "sens" then Ok(SensSig)
    else Err(ValueError)
  }

  /** Every injection point is recognised by its own name. */
  lemma ParseSignalName(s: Signal)
    ensures ParseSignal(SignalName(s)) == Ok(s)
  {
  }

  /** The six arrays of the loop, as `tickle` computes them. */
  datatype LoopArrays = LoopArrays(
    inMat: seq<seq<real>>, plant: Tensor, resp: Tensor, comp: Tensor, outMat: seq<seq<real>>, ctrl: Tensor)
  {
    function NDof(): nat { ctrl.rows }
    function NProbes(): nat { plant.rows }
    function NDrives(): nat { plant.cols }
    function NFreq(): nat { plant.nff }

    /** The shapes `einsum` needs: S (nDOF, nProbes), P (nProbes, nDrives, nff), M and K (nDrives, nDrives, nff), A (nDrives, nDOF), C (nDOF, nDOF, nff). */
    ghost predicate Conformable()
    {
      && IsRealGrid(inMat, NDof(), NProbes())
      && plant.Valid()
      && resp.Valid() && resp.rows == NDrives() && resp.cols == NDrives() && resp.nff == NFreq()
      && comp.Valid() && comp.rows == NDrives() && comp.cols == NDrives() && comp.nff == NFreq()
      && IsRealGrid(outMat, NDrives(), NDof())
      && ctrl.Valid() && ctrl.cols == NDof() && ctrl.nff == NFreq()
    }
  }

  /** The operands of each injection point's `einsum`, at bin f, in the order the source lists them. */
  function Factors(sig: Signal, x: LoopArrays, f: nat): (ms: seq<Matrix>)
    requires x.Conformable() && f < x.NFreq()
    ensures |ms| == 6 && ClosedChain(ms)
  {
    var S := Lift(x.inMat, x.NDof(), x.NProbes());
    var P := Slice(x.plant, f);
    var M := Slice(x.resp, f);
    var K := Slice(x.comp, f);
    var A := Lift(x.outMat, x.NDrives(), x.NDof());
    var C := Slice(x.ctrl, f);
    match sig
    case ErrSig => [S, P, M, K, A, C]
    case CtrlSig => [C, S, P, M, K, A]
    case CompSig => [K, A, C, S, P, M]
    case DriveSig => [M, K, A, C, S, P]
    case SensSig => [P, M, K, A, C, S]
  }

  /** How far each injection point's product is rotated from the error point's. */
  function Shift(sig: Signal): nat
  {
    match sig
    case ErrSig => 0
    case CtrlSig => 5
    case CompSig => 3
    case DriveSig => 2
    case SensSig => 1
  }

  /** The five operand lists are cyclic rotations of S P M K A C. */
  lemma FactorsRotate(sig: Signal, x: LoopArrays, f: nat)
    requires x.Conformable() && f < x.NFreq()
    ensures Shift(sig) < 6 && Factors(sig, x, f) == Rotate(Factors(ErrSig, x, f), Shift(sig))
  {
  }

  /** The size of the square loop matrix at each injection point: DOFs, drives or probes. */
  function Dim(sig: Signal, x: LoopArrays): nat
  {
    match sig
    case ErrSig => x.NDof()
    case CtrlSig => x.NDof()
    case CompSig => x.NDrives()
    case DriveSig => x.NDrives()
    case SensSig => x.NProbes()
  }

  /** The open-loop matrix of one injection point at bin f. */
  function LoopBin(sig: Signal, x: LoopArrays, f: nat): (m: Matrix)
    requires x.Conformable() && f < x.NFreq()
    ensures Square(m) && m.rows == Dim(sig, x)
  {
    Chain(Factors(sig, x, f))
  }

  function LoopBins(sig: Signal, x: LoopArrays): (ms: seq<Matrix>)
    requires x.Conformable()
    ensures |ms| == x.NFreq() && SameShape(ms, Dim(sig, x), Dim(sig, x))
  {
    seq(x.NFreq(), f requires 0 <= f < x.NFreq() => LoopBin(sig, x, f))
  }

  /** `_computeOLTF(sig)`: ValueError for an unknown signal, otherwise the (n, n, nff) open-loop array. */
  function Oltf(sig: string, x: LoopArrays): (r: Result<Tensor>)
    requires x.Conformable()
    ensures r.Ok? <==> sig in SignalNames
    ensures r.Err? ==> r.error == ValueError
    ensures r.Ok? ==> r.value.Valid() && r.value.nff == x.NFreq()
    ensures r.Ok? ==> r.value.rows == Dim(ParseSignal(sig).value, x) && r.value.cols == Dim(ParseSignal(sig).value, x)
  {
    match ParseSignal(sig)
    case Err(e) => Err(e)
    case Ok(s) => Ok(FromSlices(LoopBins(s, x), Dim(s, x), Dim(s, x)))
  }

  /** Each bin of the open-loop array is the product of that point's operands. */
  lemma OltfBin(s: Signal, x: LoopArrays, f: nat)
    requires x.Conformable() && f < x.NFreq()
    ensures Oltf(SignalName(s), x).Ok?
    ensures Slice(Oltf(SignalName(s), x).value, f) == Chain(Factors(s, x, f))
  {
    ParseSignalName(s);
    SliceFromSlices(LoopBins(s, x), Dim(s, x), Dim(s, x), f);
  }

  /** At the error point each bin is S P M K A C, multiplied out left to right. */
  lemma OltfErr(x: LoopArrays, f: nat)
    requires x.Conformable() && f < x.NFreq()
    ensures Oltf("err", x).Ok?
    ensures var S, P, M, K, A, C :=
        Lift(x.inMat, x.NDof(), x.NProbes()), Slice(x.plant, f), Slice(x.resp, f),
        Slice(x.comp, f), Lift(x.outMat, x.NDrives(), x.NDof()), Slice(x.ctrl, f);
      Slice(Oltf("err", x).value, f) == MatMul(MatMul(MatMul(MatMul(MatMul(S, P), M), K), A), C)
  {
    OltfBin(ErrSig, x, f);
    var S, P, M, K, A, C :=
      Lift(x.inMat, x.NDof(), x.NProbes()), Slice(x.plant, f), Slice(x.resp, f),
      Slice(x.comp, f), Lift(x.outMat, x.NDrives(), x.NDof()), Slice(x.ctrl, f);
    assert Factors(ErrSig, x, f) == [S, P, M, K, A, C];
    assert [S, P][..1] == [S];
    assert Chain([S, P]) == MatMul(S, P);
    assert [S, P, M][..2] == [S, P];
    assert Chain([S, P, M]) == MatMul(MatMul(S, P), M);
    assert [S, P, M, K][..3] == [S, P, M];
    assert Chain([S, P, M, K]) == MatMul(MatMul(MatMul(S, P), M), K);
    assert [S, P, M, K, A][..4] == [S, P, M, K];
    assert Chain([S, P, M, K, A]) == MatMul(MatMul(MatMul(MatMul(S, P), M), K), A);
    assert [S, P, M, K, A, C][..5] == [S, P, M, K, A];
  }

  /** The open loop has the same trace at every injection point (a rotated product keeps its trace). */
  lemma OltfTrace(sig: string, x: LoopArrays, f: nat)
    requires x.Conformable() && f < x.NFreq() && sig in SignalNames
    ensures Oltf(sig, x).Ok? && Oltf("err", x).Ok?
    ensures Trace(Slice(Oltf(sig, x).value, f)) == Trace(Slice(Oltf("err", x).value, f))
  {
    var s := ParseSignal(sig).value;
    OltfBin(s, x, f);
    OltfBin(ErrSig, x, f);
    FactorsRotate(s, x, f);
    RotateTrace(Factors(ErrSig, x, f), Shift(s));
  }

  /** The controller carries the error-point loop into the control-point loop: L_ctrl C == C L_err. */
  lemma OltfPushThrough(x: LoopArrays, f: nat)
    requires x.Conformable() && f < x.NFreq()
    ensures Oltf("ctrl", x).Ok? && Oltf("err", x).Ok?
    ensures MatMul(Slice(Oltf("ctrl", x).value, f), Slice(x.ctrl, f)) == MatMul(Slice(x.ctrl, f), Slice(Oltf("err", x).value, f))
  {
    OltfBin(CtrlSig, x, f);
    OltfBin(ErrSig, x, f);
    var ms := Factors(ErrSig, x, f);
    var C := Slice(x.ctrl, f);
    var seven := [C] + ms;
    assert seven[..6] == Factors(CtrlSig, x, f);
    assert seven[..1] == [C] && seven[1..] == ms;
    assert Chainable(seven);
    ChainSplit(seven, 1);
  }

  // ---------------------------------------------------------------------
  // Closed loop

  /** I - L at bin f. */
  function ImL(t: Tensor, f: nat): (m: Matrix)
    requires t.Valid() && t.rows == t.cols && f < t.nff
    ensures Square(m) && m.rows == t.rows
  {
    MatSub(Identity(t.rows), Slice(t, f))
  }

  /**
   * What the model asks of the numerical inverse (`scipy.linalg.inv`): it
   * returns a two-sided inverse whenever one exists, and reports a singular
   * matrix (LinAlgError) otherwise.
   */
  ghost predicate InverseSound(inverse: Matrix -> Option<Matrix>)
  {
    && (forall m :: inverse(m).Some? ==> IsInverse(inverse(m).value, m))
    && (forall m, x :: IsInverse(x, m) ==> inverse(m).Some?)
  }

  ghost predicate Invertible(m: Matrix)
  {
    exists x :: IsInverse(x, m)
  }

  function InverseOr(inverse: Matrix -> Option<Matrix>, m: Matrix): (x: Matrix)
    requires Square(m)
    ensures x.Valid() && x.rows == m.rows && x.cols == m.rows
  {
    match inverse(m)
    case Some(x) => if x.Valid() && x.rows == m.rows && x.cols == m.rows then x else Identity(m.rows)
    case None => Identity(m.rows)
  }

  /** `_computeCLTF(oltf)`: the bins of (I - L)^-1, LinAlgError at the first singular bin. */
  function Cltf(oltf: Tensor, inverse: Matrix -> Option<Matrix>): (r: Result<Tensor>)
    requires oltf.Valid() && oltf.rows == oltf.cols
    ensures r.Ok? ==> r.value.Valid() && r.value.rows == oltf.rows && r.value.cols == oltf.rows && r.value.nff == oltf.nff
  {
    if exists f :: 0 <= f < oltf.nff && inverse(ImL(oltf, f)).None? then Err(LinAlgError)
    else
      var bins := seq(oltf.nff, f requires 0 <= f < oltf.nff => InverseOr(inverse, ImL(oltf, f)));
      Ok(FromSlices(bins, oltf.rows, oltf.rows))
  }

  /**
   * With a sound inverse, the closed loop exists iff I - L is invertible at
   * every bin, and then each bin X satisfies X (I - L) == (I - L) X == I.
   */
  lemma CltfSpec(oltf: Tensor, inverse: Matrix -> Option<Matrix>)
    requires oltf.Valid() && oltf.rows == oltf.cols && InverseSound(inverse)
    ensures Cltf(oltf, inverse).Ok? <==> forall f :: 0 <= f < oltf.nff ==> Invertible(ImL(oltf, f))
    ensures Cltf(oltf, inverse).Err? ==> Cltf(oltf, inverse).error == LinAlgError
    ensures Cltf(oltf, inverse).Ok? ==> forall f :: 0 <= f < oltf.nff ==> IsInverse(Slice(Cltf(oltf, inverse).value, f), ImL(oltf, f))
  {
    if Cltf(oltf, inverse).Ok? {
      var bins := seq(oltf.nff, f requires 0 <= f < oltf.nff => InverseOr(inverse, ImL(oltf, f)));
      forall f | 0 <= f < oltf.nff
        ensures IsInverse(Slice(Cltf(oltf, inverse).value, f), ImL(oltf, f))
      {
        SliceFromSlices(bins, oltf.rows, oltf.rows, f);
        assert inverse(ImL(oltf, f)).Some?;
      }
    } else {
      var f :| 0 <= f < oltf.nff && inverse(ImL(oltf, f)).None?;
      assert !Invertible(ImL(oltf, f));
    }
  }

  /** The closed loop does not depend on which sound inverse routine computes it. */
  lemma CltfUnique(oltf: Tensor, inv1: Matrix -> Option<Matrix>, inv2: Matrix -> Option<Matrix>)
    requires oltf.Valid() && oltf.rows == oltf.cols && InverseSound(inv1) && InverseSound(inv2)
    ensures Cltf(oltf, inv1) == Cltf(oltf, inv2)
  {
    CltfSpec(oltf, inv1);
    CltfSpec(oltf, inv2);
    if Cltf(oltf, inv1).Ok? {
      var t1, t2 := Cltf(oltf, inv1).value, Cltf(oltf, inv2).value;
      forall f | 0 <= f < oltf.nff
        ensures Slice(t1, f) == Slice(t2, f)
      {
        InverseUnique(Slice(t1, f), Slice(t2, f), ImL(oltf, f));
      }
      SlicesDetermine(t1, t2);
    }
  }

  /** Two arrays of the same shape with the same bins are equal. */
  lemma SlicesDetermine(t1: Tensor, t2: Tensor)
    requires t1.Valid() && t2.Valid() && t1.rows == t2.rows && t1.cols == t2.cols && t1.nff == t2.nff
    requires forall f :: 0 <= f < t1.nff ==> Slice(t1, f) == Slice(t2, f)
    ensures t1 == t2
  {
    forall i | 0 <= i < t1.rows
      ensures t1.at[i] == t2.at[i]
    {
      forall j | 0 <= j < t1.cols
        ensures t1.at[i][j] == t2.at[i][j]
      {
        forall f | 0 <= f < t1.nff
          ensures t1.at[i][j][f] == t2.at[i][j][f]
        {
          assert Slice(t1, f).e[i][j] == Slice(t2, f).e[i][j];
        }
      }
    }
  }

  /** A single-DOF loop of unity gain (L = 1) has a singular I - L: its closed loop is a LinAlgError. */
  lemma UnityLoopSingular(oltf: Tensor, inverse: Matrix -> Option<Matrix>)
    requires oltf.Valid() && oltf.rows == 1 && oltf.cols == 1 && oltf.nff > 0 && oltf.at[0][0][0] == One
    requires InverseSound(inverse)
    ensures Cltf(oltf, inverse) == Err(LinAlgError)
  {
    var m := ImL(oltf, 0);
    assert m.e[0][0] == Zero;
    if inverse(m).Some? {
      var x := inverse(m).value;
      assert IsInverse(x, m);
      ZeroEntryProduct(x, m);
    }
  }

  /** Multiplying by a 1 x 1 zero matrix gives zero. */
  lemma ZeroEntryProduct(x: Matrix, m: Matrix)
    requires x.Valid() && m.Valid() && x.rows == 1 && x.cols == 1 && m.rows == 1 && m.cols == 1
    requires m.e[0][0] == Zero
    ensures MatMul(x, m).e[0][0] == Zero
  {
    var u, v := x.e[0], Col(m, 0);
    var t := seq(|u|, k requires 0 <= k < |u| => Mul(u[k], v[k]));
    MulZero(x.e[0][0]);
    assert t == [Zero];
    assert t[..0] == [];
    assert MatMul(x, m).e[0][0] == Sum(t);
  }

  /** `_computeCLTF`: fills a zero array bin by bin with `inv(I - L)`. */
  method ComputeCltf(oltf: Tensor, inverse: Matrix -> Option<Matrix>) returns (r: Result<Tensor>)
    requires oltf.Valid() && oltf.rows == oltf.cols
    ensures r == Cltf(oltf, inverse)
  {
    var n := oltf.rows;
    var bins: seq<Matrix> := [];
    for f := 0 to oltf.nff
      invariant |bins| == f
      invariant forall g :: 0 <= g < f ==> inverse(ImL(oltf, g)).Some? && bins[g] == InverseOr(inverse, ImL(oltf, g))
    {
      var m := MatSub(Identity(n), Slice(oltf, f));
      var x := inverse(m);
      if x.None? {
        assert m == ImL(oltf, f);
        return Err(LinAlgError);
      }
      bins := bins + [InverseOr(inverse, m)];
    }
    assert bins == seq(oltf.nff, f requires 0 <= f < oltf.nff => InverseOr(inverse, ImL(oltf, f)));
    r := Ok(FromSlices(bins, n, n));
  }
}
