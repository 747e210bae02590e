/**
 * Filters: a transfer function given either as a callable or by its zeros,
 * poles and gain, evaluated on the Laplace variable s = 2 pi i f.
 */
module Filters {
  import opened Outcomes
  import opened Complex

  /** The Python values a filter argument can be. */
  datatype Value =
    | Number(z: Complex)               // int, float or complex (numbers.Number)
    | List(items: seq<Complex>)
    | Tuple(items: seq<Complex>)
    | Array(items: seq<Complex>)       // a one-dimensional numpy array
    | Text(s: string)
    | Callable(f: Complex -> Complex)  // a function, applied at each s
    | FilterObj(filter: Filter)        // an instance of Filter

  /** What a Filter's `filt` attribute computes. */
  datatype Filter =
    | Function(f: Complex -> Complex)                         // a user callable
    | ZeroPoleGain(zs: seq<Complex>, ps: seq<Complex>, k: Complex)  // partial(zpk, zs, ps, k)
    | Product(parts: seq<Filter>)                             // catfilt(*parts)

  /** `assertArr`: a number becomes a one-element list, a tuple a list; anything else is refused. */
  function AssertArr(v: Value): (r: Result<seq<Complex>>)
    ensures r.Err? <==> !(v.Number? || v.List? || v.Tuple? || v.Array?)
    ensures r.Err? ==> r.error == ValueError
    ensures v.Number? ==> r == Ok([v.z])
    ensures v.List? || v.Tuple? || v.Array? ==> r == Ok(v.items)
  {
    match v
    case Number(z) => Ok([z])
    case List(items) => Ok(items)
    case Array(items) => Ok(items)
    case Tuple(items) => Ok(items)
    case _ => Err(ValueError)
  }

  // ---------------------------------------------------------------------
  // catzp

  /** The arguments of `catzp`, each passed through `assertArr`, joined in order. */
  function Concatenated(args: seq<Value>): Result<seq<Complex>>
  {
    if |args| == 0 then Ok([])
    else match Concatenated(args[..|args| - 1])
      case Err(e) => Err(e)
      case Ok(front) =>
        match AssertArr(args[|args| - 1])
        case Err(e) => Err(e)
        case Ok(last) => Ok(front + last)
  }

  /** `catzp` fails, with ValueError, exactly when some argument is not numeric. */
  lemma {:induction false} ConcatenatedOk(args: seq<Value>)
    ensures Concatenated(args).Ok? <==> forall i :: 0 <= i < |args| ==> AssertArr(args[i]).Ok?
    ensures Concatenated(args).Err? ==> Concatenated(args).error == ValueError
  {
    if |args| > 0 {
      ConcatenatedOk(args[..|args| - 1]);
    }
  }

  /** Joining two argument lists joins their results. */
  lemma {:induction false} ConcatenatedAppend(args: seq<Value>, more: seq<Value>)
    requires Concatenated(args).Ok? && Concatenated(more).Ok?
    ensures Concatenated(args + more) == Ok(Concatenated(args).value + Concatenated(more).value)
  {
    if |more| == 0 {
      assert args + more == args;
      assert Concatenated(args).value + [] == Concatenated(args).value;
    } else {
      var n := |more| - 1;
      assert (args + more)[..|args + more| - 1] == args + more[..n];
      assert (args + more)[|args + more| - 1] == more[n];
      ConcatenatedAppend(args, more[..n]);
      var a, b, c := Concatenated(args).value, Concatenated(more[..n]).value, AssertArr(more[n]).value;
      assert a + b + c == a + (b + c);
    }
  }

  /** `catzp(*args)`: extends a list with each argument in turn. */
  method CatZp(args: seq<Value>) returns (r: Result<seq<Complex>>)
    ensures r == Concatenated(args)
    ensures r.Ok? <==> forall i :: 0 <= i < |args| ==> AssertArr(args[i]).Ok?
  {
    var zp: seq<Complex> := [];
    var i := 0;
    while i < |args|
      invariant 0 <= i <= |args|
      invariant Concatenated(args[..i]) == Ok(zp)
    {
      assert args[..i + 1][..i] == args[..i];
      var part := AssertArr(args[i]);
      if part.Err? {
        ConcatenatedOk(args);
        return Err(part.error);
      }
      zp := zp + part.value;
      i := i + 1;
    }
    assert args[..i] == args;
    ConcatenatedOk(args);
    r := Ok(zp);
  }

  // ---------------------------------------------------------------------
  // zpk

  /** The product of (s - x) over xs, multiplied from the left. */
  function ProdDiff(s: Complex, xs: seq<Complex>): Complex
  {
    if |xs| == 0 then One else Mul(ProdDiff(s, xs[..|xs| - 1]), Sub(s, xs[|xs| - 1]))
  }

  lemma {:induction false} ProdDiffNonZero(s: Complex, xs: seq<Complex>)
    requires s !in xs
    ensures ProdDiff(s, xs) != Zero
  {
    if |xs| > 0 {
      var n := |xs| - 1;
      assert s !in xs[..n] by {
        assert forall x :: x in xs[..n] ==> x in xs;
      }
      ProdDiffNonZero(s, xs[..n]);
      assert Sub(s, xs[n]) != Zero;
      MulNonZero(ProdDiff(s, xs[..n]), Sub(s, xs[n]));
    }
  }

  /**
   * k * prod(s - z) / prod(s - p) at one point s. Where s is a pole numpy
   * produces inf or nan; the model reports NonFinite there.
   */
  function ZpkAt(zs: seq<Complex>, ps: seq<Complex>, k: Complex, s: Complex): (r: Result<Complex>)
    ensures r.Err? <==> s in ps
    ensures r.Err? ==> r.error == NonFinite
    ensures r.Ok? ==> Mul(r.value, ProdDiff(s, ps)) == Mul(k, ProdDiff(s, zs))
  {
    if s in ps then Err(NonFinite)
    else
      ProdDiffNonZero(s, ps);
      Ok(Div(Mul(k, ProdDiff(s, zs)), ProdDiff(s, ps)))
  }

  /** With no zeros and no poles the filter is the constant gain k. */
  lemma ZpkAtConstant(k: Complex, s: Complex)
    ensures ZpkAt([], [], k, s) == Ok(k)
  {
    MulOne(k);
    DivUnique(Mul(k, One), One, k);
  }

  /** The gain enters linearly: zpk(zs, ps, k) == k * zpk(zs, ps, 1). */
  lemma ZpkAtLinear(zs: seq<Complex>, ps: seq<Complex>, k: Complex, s: Complex)
    requires s !in ps
    ensures ZpkAt(zs, ps, k, s).value == Mul(k, ZpkAt(zs, ps, One, s).value)
  {
    var z, p := ProdDiff(s, zs), ProdDiff(s, ps);
    var u := ZpkAt(zs, ps, One, s).value;
    ProdDiffNonZero(s, ps);
    MulOne(z);
    assert Mul(u, p) == z;
    MulAssoc(k, u, p);
    DivUnique(Mul(k, z), p, Mul(k, u));
  }

  /**
   * `zpk(zs, ps, k, s)` at a single point s: ValueError for a gain that is
   * not a number or roots that are not numeric; otherwise the filter value.
   */
  method Zpk(zs: Value, ps: Value, k: Value, s: Complex) returns (r: Result<Complex>)
    ensures !k.Number? ==> r == Err(ValueError)
    ensures k.Number? && AssertArr(zs).Err? ==> r == Err(ValueError)
    ensures k.Number? && AssertArr(zs).Ok? && AssertArr(ps).Err? ==> r == Err(ValueError)
    ensures k.Number? && AssertArr(zs).Ok? && AssertArr(ps).Ok? ==>
      r == ZpkAt(AssertArr(zs).value, AssertArr(ps).value, k.z, s)
  {
    if !k.Number? {
      return Err(ValueError);
    }
    var zeros := AssertArr(zs);
    if zeros.Err? {
      return Err(ValueError);
    }
    var zv := zeros.value;
    var filt := k.z;
    var i := 0;
    MulOne(k.z);
    while i < |zv|
      invariant 0 <= i <= |zv|
      invariant filt == Mul(k.z, ProdDiff(s, zv[..i]))
    {
      assert zv[..i + 1][..i] == zv[..i];
      MulAssoc(k.z, ProdDiff(s, zv[..i]), Sub(s, zv[i]));
      filt := Mul(filt, Sub(s, zv[i]));
      i := i + 1;
    }
    assert zv[..i] == zv;
    var poles := AssertArr(ps);
    if poles.Err? {
      return Err(ValueError);
    }
    var pv := poles.value;
    var j := 0;
    MulOne(filt);
    while j < |pv|
      invariant 0 <= j <= |pv|
      invariant s !in pv[..j]
      invariant Mul(filt, ProdDiff(s, pv[..j])) == Mul(k.z, ProdDiff(s, zv))
    {
      assert pv[..j + 1][..j] == pv[..j];
      var d := Sub(s, pv[j]);
      if d == Zero {
        assert s == pv[j];
        return Err(NonFinite);
      }
      var q := Div(filt, d);
      MulAssoc(q, ProdDiff(s, pv[..j]), d);
      MulComm(ProdDiff(s, pv[..j]), d);
      MulAssoc(q, d, ProdDiff(s, pv[..j]));
      filt := q;
      j := j + 1;
    }
    assert pv[..j] == pv;
    ProdDiffNonZero(s, pv);
    DivUnique(Mul(k.z, ProdDiff(s, zv)), ProdDiff(s, pv), filt);
    r := Ok(filt);
  }

  // ---------------------------------------------------------------------
  // Evaluating a Filter

  /** The product of the results, one after the other from 1; the first failure wins. */
  function MulAll(rs: seq<Result<Complex>>): (r: Result<Complex>)
    ensures r.Ok? <==> forall i :: 0 <= i < |rs| ==> rs[i].Ok?
  {
    if |rs| == 0 then Ok(One)
    else match MulAll(rs[..|rs| - 1])
      case Err(e) => Err(e)
      case Ok(front) =>
        match rs[|rs| - 1]
        case Err(e) => Err(e)
        case Ok(last) => Ok(Mul(front, last))
  }

  /** `filt.filt(s)` at one point s. */
  function EvalAt(flt: Filter, s: Complex): Result<Complex>
  {
    match flt
    case Function(f) => Ok(f(s))
    case ZeroPoleGain(zs, ps, k) => ZpkAt(zs, ps, k, s)
    case Product(parts) => MulAll(seq(|parts|, i requires 0 <= i < |parts| => EvalAt(parts[i], s)))
  }

  /** Every error a filter can report is a non-finite value. */
  lemma {:induction false} EvalAtError(flt: Filter, s: Complex)
    ensures EvalAt(flt, s).Err? ==> EvalAt(flt, s).error == NonFinite
  {
    match flt
    case Function(_) =>
    case ZeroPoleGain(_, _, _) =>
    case Product(parts) =>
      var rs := seq(|parts|, i requires 0 <= i < |parts| => EvalAt(parts[i], s));
      forall i | 0 <= i < |parts|
        ensures rs[i].Err? ==> rs[i].error == NonFinite
      {
        EvalAtError(parts[i], s);
      }
      MulAllError(rs);
  }

  lemma {:induction false} MulAllError(rs: seq<Result<Complex>>)
    requires forall i :: 0 <= i < |rs| && rs[i].Err? ==> rs[i].error == NonFinite
    ensures MulAll(rs).Err? ==> MulAll(rs).error == NonFinite
  {
    if |rs| > 0 {
      MulAllError(rs[..|rs| - 1]);
    }
  }

  /** `filt.filt(ss)` on a vector: element-wise, and non-finite if any element is. */
  function Evaluate(flt: Filter, ss: seq<Complex>): (r: Result<seq<Complex>>)
    ensures r.Ok? ==> |r.value| == |ss|
    ensures r.Ok? <==> forall i :: 0 <= i < |ss| ==> EvalAt(flt, ss[i]).Ok?
    ensures r.Ok? ==> forall i :: 0 <= i < |ss| ==> r.value[i] == EvalAt(flt, ss[i]).value
  {
    if exists i :: 0 <= i < |ss| && EvalAt(flt, ss[i]).Err? then Err(NonFinite)
    else Ok(seq(|ss|, i requires 0 <= i < |ss| => EvalAt(flt, ss[i]).value))
  }

  /** The Laplace variable s = 2 pi i f for each frequency f [Hz]. */
  function Laplace(ff: seq<real>): (ss: seq<Complex>)
    ensures |ss| == |ff|
    ensures forall i :: 0 <= i < |ff| ==> ss[i] == Complex(0.0, TwoPi * ff[i])
  {
    seq(|ff|, i requires 0 <= i < |ff| => Mul(Complex(0.0, TwoPi), Real(ff[i])))
  }

  /** `Filter.computeFilter(ff)`: the filter at s = 2 pi i f. */
  function ComputeFilter(flt: Filter, ff: seq<real>): (r: Result<seq<Complex>>)
    ensures r.Ok? ==> |r.value| == |ff|
    ensures r.Ok? ==> forall i :: 0 <= i < |ff| ==> EvalAt(flt, Complex(0.0, TwoPi * ff[i])) == Ok(r.value[i])
  {
    Evaluate(flt, Laplace(ff))
  }

  /** `catfilt(*filters)`: the filter whose value is the product of the filters' values. */
  function CatFilt(filters: seq<Filter>): Filter
  {
    Product(filters)
  }

  /** The part values catfilt multiplies, one per filter. */
  lemma PartValues(parts: seq<Filter>, s: Complex)
    ensures EvalAt(CatFilt(parts), s)
      == MulAll(seq(|parts|, i requires 0 <= i < |parts| => EvalAt(parts[i], s)))
  {
  }

  /** The product over two runs of results is the product of the two products; it fails iff either does. */
  lemma {:induction false} MulAllAppend(xs: seq<Result<Complex>>, ys: seq<Result<Complex>>)
    ensures MulAll(xs + ys).Ok? <==> MulAll(xs).Ok? && MulAll(ys).Ok?
    ensures MulAll(xs + ys).Ok? ==> MulAll(xs + ys).value == Mul(MulAll(xs).value, MulAll(ys).value)
  {
    if |ys| == 0 {
      assert xs + ys == xs;
      if MulAll(xs).Ok? {
        MulOne(MulAll(xs).value);
      }
    } else {
      var n := |ys| - 1;
      var zs := xs + ys;
      assert zs[..|zs| - 1] == xs + ys[..n];
      assert zs[|zs| - 1] == ys[n];
      MulAllAppend(xs, ys[..n]);
      if MulAll(xs).Ok? && MulAll(ys[..n]).Ok? && ys[n].Ok? {
        MulAssoc(MulAll(xs).value, MulAll(ys[..n]).value, ys[n].value);
      }
    }
  }

  /** `catfilt()` with no filters is the constant 1. */
  lemma CatFiltEmpty(s: Complex)
    ensures EvalAt(CatFilt([]), s) == Ok(One)
  {
    PartValues([], s);
  }

  /**
   * catfilt of two lists of filters, joined, multiplies the two catfilts'
   * values, and fails exactly where one of them fails.
   */
  lemma CatFiltAppend(a: seq<Filter>, b: seq<Filter>, s: Complex)
    ensures EvalAt(CatFilt(a + b), s).Ok? <==> EvalAt(CatFilt(a), s).Ok? && EvalAt(CatFilt(b), s).Ok?
    ensures EvalAt(CatFilt(a + b), s).Ok? ==>
      EvalAt(CatFilt(a + b), s).value == Mul(EvalAt(CatFilt(a), s).value, EvalAt(CatFilt(b), s).value)
  {
    var ab := a + b;
    var ra := seq(|a|, i requires 0 <= i < |a| => EvalAt(a[i], s));
    var rb := seq(|b|, i requires 0 <= i < |b| => EvalAt(b[i], s));
    var rab := seq(|ab|, i requires 0 <= i < |ab| => EvalAt(ab[i], s));
    PartValues(a, s);
    PartValues(b, s);
    PartValues(ab, s);
    assert rab == ra + rb by {
      forall i | 0 <= i < |ab|
        ensures rab[i] == (ra + rb)[i]
      {
        if i < |a| {
          assert ab[i] == a[i];
        } else {
          assert ab[i] == b[i - |a|];
        }
      }
    }
    MulAllAppend(ra, rb);
  }

  /** catfilt of two filters multiplies their values, and fails where either fails. */
  lemma CatFiltPair(f: Filter, g: Filter, s: Complex)
    ensures EvalAt(CatFilt([f, g]), s).Ok? <==> EvalAt(f, s).Ok? && EvalAt(g, s).Ok?
    ensures EvalAt(CatFilt([f, g]), s).Ok? ==>
      EvalAt(CatFilt([f, g]), s).value == Mul(EvalAt(f, s).value, EvalAt(g, s).value)
  {
    var parts := [f, g];
    var rs := seq(|parts|, i requires 0 <= i < |parts| => EvalAt(parts[i], s));
    PartValues(parts, s);
    assert rs == [EvalAt(f, s), EvalAt(g, s)];
    assert rs[..1] == [EvalAt(f, s)] && rs[..1][..0] == [];
    if EvalAt(f, s).Ok? {
      MulOne(EvalAt(f, s).value);
      assert MulAll(rs[..1]) == Ok(EvalAt(f, s).value);
    }
  }

  /** catfilt of a single filter behaves as that filter. */
  lemma CatFiltSingle(f: Filter, s: Complex)
    ensures EvalAt(CatFilt([f]), s) == EvalAt(f, s)
  {
    var parts := [f];
    var rs := seq(|parts|, i requires 0 <= i < |parts| => EvalAt(parts[i], s));
    PartValues(parts, s);
    assert rs == [EvalAt(f, s)];
    assert rs[..0] == [];
    if EvalAt(f, s).Ok? {
      MulOne(EvalAt(f, s).value);
    }
  }

  // ---------------------------------------------------------------------
  // The Filter constructor

  /** The scale applied to roots: -2 pi when they are given in Hz (the default), 1 otherwise. */
  function RootScale(hz: Option<bool>): (a: real)
    ensures a != 0.0
    ensures a < 0.0 <==> hz != Some(false)
  {
    if hz == Some(false) then 1.0 else -TwoPi
  }

  /**
   * With roots in Hz, the reference point of a real frequency f0 is the
   * Laplace variable at f0, the point where `ComputeFilter` evaluates f0.
   */
  lemma ReferenceIsLaplace(hz: Option<bool>, f0: real)
    requires hz != Some(false)
    ensures ReferencePoint(RootScale(hz), Number(Real(f0))) == Ok(Some(Laplace([f0])[0]))
  {
  }

  /** `a * np.array(arg)` for the zeros or the poles: non-numeric input is a TypeError. */
  function ScaledRoots(a: real, arg: Value): (r: Result<seq<Complex>>)
    ensures r.Err? <==> !(arg.Number? || arg.List? || arg.Tuple? || arg.Array?)
    ensures r.Err? ==> r.error == TypeError
    ensures r.Ok? ==> (|r.value| == |AssertArr(arg).value|
      && forall i :: 0 <= i < |r.value| ==> r.value[i] == Scale(a, AssertArr(arg).value[i]))
  {
    match arg
    case Number(z) => Ok([Scale(a, z)])
    case List(items) => Ok(seq(|items|, i requires 0 <= i < |items| => Scale(a, items[i])))
    case Tuple(items) => Ok(seq(|items|, i requires 0 <= i < |items| => Scale(a, items[i])))
    case Array(items) => Ok(seq(|items|, i requires 0 <= i < |items| => Scale(a, items[i])))
    case _ => Err(TypeError)
  }

  /**
   * `np.abs(a) * 1j * arg`: a number gives the scalar point s0; a list gives
   * an array (None here, refused later as not a scalar); other values are a
   * TypeError.
   */
  function ReferencePoint(a: real, arg: Value): (r: Result<Option<Complex>>)
    ensures r.Err? <==> !(arg.Number? || arg.List? || arg.Tuple? || arg.Array?)
    ensures r.Ok? ==> (r.value.Some? <==> arg.Number?)
  {
    var absA := if a < 0.0 then -a else a;
    match arg
    case Number(z) => Ok(Some(Mul(Complex(0.0, absA), z)))
    case List(_) => Ok(None)
    case Tuple(_) => Ok(None)
    case Array(_) => Ok(None)
    case _ => Err(TypeError)
  }

  /** Four arguments that pass the constructor's checks and whose reference point is not a pole. */
  predicate FourArgumentsAccepted(args: seq<Value>, hz: Option<bool>)
    requires |args| == 4
  {
    var a := RootScale(hz);
    && ScaledRoots(a, args[0]).Ok? && ScaledRoots(a, args[1]).Ok?
    && ReferencePoint(a, args[3]).Ok? && ReferencePoint(a, args[3]).value.Some?
    && args[2].Number?
    && ReferencePoint(a, args[3]).value.value !in ScaledRoots(a, args[1]).value
  }

  /**
   * `np.abs(zpk(zs, ps, 1, s0))` for accepted four-argument input: the
   * modulus of the unit-gain filter at the reference point.
   */
  function UnitModulus(args: seq<Value>, hz: Option<bool>, modulus: Complex -> real): real
    requires |args| == 4 && FourArgumentsAccepted(args, hz)
  {
    var a := RootScale(hz);
    var zs, ps := ScaledRoots(a, args[0]).value, ScaledRoots(a, args[1]).value;
    modulus(ZpkAt(zs, ps, One, ReferencePoint(a, args[3]).value.value).value)
  }

  /**
   * `Filter(*args, Hz=hz)`. One argument: a callable. Three: zeros, poles and
   * gain. Four: zeros, poles, the gain g wanted at frequency f0, normalised
   * with `modulus` (numpy's `np.abs`). Any other count is a ValueError.
   */
  function MakeFilter(args: seq<Value>, hz: Option<bool>, modulus: Complex -> real): (r: Result<Filter>)
    ensures |args| != 1 && |args| != 3 && |args| != 4 ==> r == Err(ValueError)
    ensures |args| == 1 ==> r == (if args[0].Callable? then Ok(Function(args[0].f)) else Err(ValueError))
    ensures |args| == 3 ==> (r.Ok? <==>
      ScaledRoots(RootScale(hz), args[0]).Ok? && ScaledRoots(RootScale(hz), args[1]).Ok? && args[2].Number?)
    ensures |args| == 3 && r.Ok? ==>
      r.value == ZeroPoleGain(ScaledRoots(RootScale(hz), args[0]).value,
                              ScaledRoots(RootScale(hz), args[1]).value, args[2].z)
    ensures |args| == 3 && r.Err? ==>
      r.error == (if ScaledRoots(RootScale(hz), args[0]).Ok? && ScaledRoots(RootScale(hz), args[1]).Ok?
                  then ValueError else TypeError)
    ensures |args| == 4 ==> (r.Ok? <==> FourArgumentsAccepted(args, hz) && UnitModulus(args, hz, modulus) != 0.0)
    ensures |args| == 4 ==>
      var a := RootScale(hz);
      var wellTyped := ScaledRoots(a, args[0]).Ok? && ScaledRoots(a, args[1]).Ok? && ReferencePoint(a, args[3]).Ok?;
      && (!wellTyped ==> r == Err(TypeError))
      && (wellTyped && !(args[2].Number? && ReferencePoint(a, args[3]).value.Some?) ==> r == Err(ValueError))
      && (wellTyped && args[2].Number? && ReferencePoint(a, args[3]).value.Some? && r.Err? ==> r.error == NonFinite)
    ensures |args| == 4 && r.Ok? ==>
      var a := RootScale(hz);
      var zs, ps := ScaledRoots(a, args[0]).value, ScaledRoots(a, args[1]).value;
      var s0 := ReferencePoint(a, args[3]).value.value;
      var m := modulus(ZpkAt(zs, ps, One, s0).value);
      m != 0.0 && r.value == ZeroPoleGain(zs, ps, Scale(1.0 / m, args[2].z))
  {
    var a := RootScale(hz);
    if |args| == 1 then
      if args[0].Callable? then Ok(Function(args[0].f)) else Err(ValueError)
    else if |args| == 3 then
      var zs :- ScaledRoots(a, args[0]);
      var ps :- ScaledRoots(a, args[1]);
      if !args[2].Number? then Err(ValueError)
      else Ok(ZeroPoleGain(zs, ps, args[2].z))
    else if |args| == 4 then
      var zs :- ScaledRoots(a, args[0]);
      var ps :- ScaledRoots(a, args[1]);
      var s0 :- ReferencePoint(a, args[3]);
      if !(args[2].Number? && s0.Some?) then Err(ValueError)
      else
        var unit :- ZpkAt(zs, ps, One, s0.value);
        var m := modulus(unit);
        if m == 0.0 then Err(NonFinite)
        else Ok(ZeroPoleGain(zs, ps, Scale(1.0 / m, args[2].z)))
    else Err(ValueError)
  }

  /**
   * The point of the four-argument form: the filter's value at s0, times m,
   * is g times the unit-gain value there. Where m is the modulus of that
   * unit-gain value (what `np.abs` returns), the filter's modulus at s0 is
   * therefore |g|.
   */
  lemma NormalisedGain(zs: seq<Complex>, ps: seq<Complex>, g: Complex, s0: Complex, m: real)
    requires s0 !in ps && m != 0.0
    ensures Scale(m, ZpkAt(zs, ps, Scale(1.0 / m, g), s0).value) == Mul(g, ZpkAt(zs, ps, One, s0).value)
  {
    ZpkAtLinear(zs, ps, Scale(1.0 / m, g), s0);
    ScaleCancel(m, g, ZpkAt(zs, ps, One, s0).value);
  }

  /**
   * With m the modulus of the unit-gain value at s0 (m * m is its squared
   * norm), the normalised filter's modulus at s0 is that of g.
   */
  lemma NormalisedModulus(zs: seq<Complex>, ps: seq<Complex>, g: Complex, s0: Complex, m: real)
    requires s0 !in ps && m > 0.0 && m * m == NormSq(ZpkAt(zs, ps, One, s0).value)
    ensures NormSq(ZpkAt(zs, ps, Scale(1.0 / m, g), s0).value) == NormSq(g)
  {
    NormalisedGain(zs, ps, g, s0, m);
    ModulusOfScaled(m, ZpkAt(zs, ps, Scale(1.0 / m, g), s0).value, g, ZpkAt(zs, ps, One, s0).value);
  }

  /** m v == g u with m the modulus of u: v has the modulus of g. */
  lemma ModulusOfScaled(m: real, v: Complex, g: Complex, u: Complex)
    requires m > 0.0 && m * m == NormSq(u) && Scale(m, v) == Mul(g, u)
    ensures NormSq(v) == NormSq(g)
  {
    NormSqScale(m, v);
    NormSqMul(g, u);
    assert NormSq(Scale(m, v)) == NormSq(Mul(g, u));
    CancelSquare(m, NormSq(u), NormSq(v), NormSq(g));
  }

  lemma CancelSquare(m: real, d: real, x: real, y: real)
    requires m > 0.0 && m * m == d && (m * m) * x == y * d
    ensures x == y
  {
    assert m * (m * (x - y)) == 0.0;
    ProductZero(m, m * (x - y));
    ProductZero(m, x - y);
  }

  lemma NormSqScale(x: real, a: Complex)
    ensures NormSq(Scale(x, a)) == (x * x) * NormSq(a)
  {
    assert (x * a.re) * (x * a.re) + (x * a.im) * (x * a.im) == (x * x) * (a.re * a.re + a.im * a.im);
  }

  lemma ScaleCancel(m: real, g: Complex, u: Complex)
    requires m != 0.0
    ensures Scale(m, Mul(Scale(1.0 / m, g), u)) == Mul(g, u)
  {
    var w := 1.0 / m;
    assert w * m == 1.0;
    assert m * (w * g.re * u.re - w * g.im * u.im) == (w * m) * (g.re * u.re - g.im * u.im);
    assert m * (w * g.re * u.im + w * g.im * u.re) == (w * m) * (g.re * u.im + g.im * u.re);
  }
}
