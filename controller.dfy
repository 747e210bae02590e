/**
 * The controller C (DOFs x DOFs x frequencies) built from the registered
 * (dofTo, dofFrom, filter) entries, and the diagonal compensator K and
 * response M (drives x drives x frequencies).
 */
module Controllers {
  import opened Outcomes
  import opened Complex
  import opened LinearAlgebra
  import opened Names
  import opened Filters
  import opened Tensors

  /** A nested (n, n, nff) array of values. */
  type Cube = seq<seq<seq<Complex>>>

  ghost predicate IsCube(c: Cube, n: nat, nff: nat)
  {
    |c| == n && forall i :: 0 <= i < n ==> |c[i]| == n && forall j :: 0 <= j < n ==> |c[i][j]| == nff
  }

  function ZeroCube(n: nat, nff: nat): (c: Cube)
    ensures IsCube(c, n, nff)
  {
    seq(n, i => seq(n, j => Zeros(nff)))
  }

  /** `c[i, j, :] = v` */
  function Store(c: Cube, i: nat, j: nat, v: seq<Complex>): Cube
    requires i < |c| && j < |c[i]|
  {
    c[i := c[i][j := v]]
  }

  // ---------------------------------------------------------------------
  // _computeController

  /** Why storing one registered filter fails, if it does: an unknown DOF name, or a non-finite response. */
  function LinkError(names: seq<string>, link: (string, string, Filter), ss: seq<Complex>): Option<Error>
  {
    if link.0 !in names || link.1 !in names then Some(ValueError)
    else if Evaluate(link.2, ss).Err? then Some(NonFinite)
    else None
  }

  /** The filling loop over the registered filters, in registration order. */
  function ControllerFold(names: seq<string>, filters: seq<(string, string, Filter)>, ss: seq<Complex>): (r: Result<Cube>)
    ensures r.Ok? ==> IsCube(r.value, |names|, |ss|)
  {
    if |filters| == 0 then Ok(ZeroCube(|names|, |ss|))
    else match ControllerFold(names, filters[..|filters| - 1], ss)
      case Err(e) => Err(e)
      case Ok(c) =>
        var link := filters[|filters| - 1];
        match IndexOf(names, link.0)
        case None => Err(ValueError)
        case Some(i) =>
          match IndexOf(names, link.1)
          case None => Err(ValueError)
          case Some(j) =>
            match Evaluate(link.2, ss)
            case Err(e) => Err(e)
            case Ok(v) => Ok(Store(c, i, j, v))
  }

  /** `_computeController`: without a plant there is no frequency vector, a RuntimeError. */
  function ControllerTensor(names: seq<string>, filters: seq<(string, string, Filter)>, ss: Option<seq<Complex>>): (r: Result<Tensor>)
    ensures r.Ok? ==> r.value.Valid() && r.value.rows == |names| && r.value.cols == |names|
    ensures r.Ok? ==> ss.Some? && r.value.nff == |ss.value|
  {
    match ss
    case None => Err(RuntimeError)
    case Some(s) =>
      match ControllerFold(names, filters, s)
      case Err(e) => Err(e)
      case Ok(c) => Ok(Tensor(|names|, |names|, |s|, c))
  }

  /** The position of the last registered filter from `dofFrom` to `dofTo`, if any. */
  function LastMatch(filters: seq<(string, string, Filter)>, dofTo: string, dofFrom: string): (r: Option<nat>)
    ensures r.Some? ==> r.value < |filters| && filters[r.value].0 == dofTo && filters[r.value].1 == dofFrom
    ensures r.Some? ==> forall n :: r.value < n < |filters| ==> !(filters[n].0 == dofTo && filters[n].1 == dofFrom)
    ensures r.None? ==> forall n :: 0 <= n < |filters| ==> !(filters[n].0 == dofTo && filters[n].1 == dofFrom)
  {
    if |filters| == 0 then None
    else
      var last := filters[|filters| - 1];
      if last.0 == dofTo && last.1 == dofFrom then Some(|filters| - 1)
      else LastMatch(filters[..|filters| - 1], dofTo, dofFrom)
  }

  /**
   * The loop succeeds iff every registered filter names known DOFs and has a
   * finite response; otherwise it reports the error of the first one that
   * does not.
   */
  lemma {:induction false} ControllerFoldOk(names: seq<string>, filters: seq<(string, string, Filter)>, ss: seq<Complex>)
    ensures ControllerFold(names, filters, ss).Ok? <==>
      forall n :: 0 <= n < |filters| ==> LinkError(names, filters[n], ss).None?
    ensures ControllerFold(names, filters, ss).Err? ==>
      exists n :: 0 <= n < |filters| && LinkError(names, filters[n], ss) == Some(ControllerFold(names, filters, ss).error) &&
        forall m :: 0 <= m < n ==> LinkError(names, filters[m], ss).None?
  {
    if |filters| > 0 {
      var k := |filters| - 1;
      var front := filters[..k];
      ControllerFoldOk(names, front, ss);
      assert forall n :: 0 <= n < k ==> front[n] == filters[n];
      if ControllerFold(names, front, ss).Ok? && ControllerFold(names, filters, ss).Err? {
        var link := filters[k];
        assert LinkError(names, link, ss) == Some(ControllerFold(names, filters, ss).error);
      }
    }
  }

  /** What the cell (to, from) holds: the response of the last filter registered for the pair, or zeros. */
  function ControllerCell(filters: seq<(string, string, Filter)>, dofTo: string, dofFrom: string, ss: seq<Complex>): seq<Complex>
  {
    match LastMatch(filters, dofTo, dofFrom)
    case None => Zeros(|ss|)
    case Some(n) =>
      match Evaluate(filters[n].2, ss)
      case Ok(v) => v
      case Err(_) => Zeros(|ss|)
  }

  /**
   * The controller is zero except at the cells of registered (to, from)
   * pairs, where it holds the response of the last filter registered for
   * that pair (a response that the loop's success makes finite).
   */
  lemma {:induction false} ControllerFoldEntries(names: seq<string>, filters: seq<(string, string, Filter)>, ss: seq<Complex>)
    requires Distinct(names) && ControllerFold(names, filters, ss).Ok?
    ensures forall i, j :: 0 <= i < |names| && 0 <= j < |names| ==>
      ControllerFold(names, filters, ss).value[i][j] == ControllerCell(filters, names[i], names[j], ss)
  {
    if |filters| > 0 {
      var front := filters[..|filters| - 1];
      ControllerFoldEntries(names, front, ss);
      forall i, j | 0 <= i < |names| && 0 <= j < |names|
        ensures ControllerFold(names, filters, ss).value[i][j] == ControllerCell(filters, names[i], names[j], ss)
      {
        ControllerStepCell(names, filters, ss, i, j);
      }
    }
  }

  /** One more registered filter changes only the cell of its own pair. */
  lemma ControllerStepCell(names: seq<string>, filters: seq<(string, string, Filter)>, ss: seq<Complex>, i: nat, j: nat)
    requires Distinct(names) && |filters| > 0 && ControllerFold(names, filters, ss).Ok?
    requires i < |names| && j < |names|
    requires var front := filters[..|filters| - 1];
      ControllerFold(names, front, ss).Ok? &&
      ControllerFold(names, front, ss).value[i][j] == ControllerCell(front, names[i], names[j], ss)
    ensures ControllerFold(names, filters, ss).value[i][j] == ControllerCell(filters, names[i], names[j], ss)
  {
    var k := |filters| - 1;
    var front := filters[..k];
    var link := filters[k];
    var i0, j0 := IndexOf(names, link.0).value, IndexOf(names, link.1).value;
    IndexOfDistinct(names, i);
    IndexOfDistinct(names, j);
    if i == i0 && j == j0 {
      assert LastMatch(filters, names[i], names[j]) == Some(k);
    } else {
      assert !(link.0 == names[i] && link.1 == names[j]);
      assert LastMatch(filters, names[i], names[j]) == LastMatch(front, names[i], names[j]);
    }
  }

  /** Once a prefix of the registered filters fails, the loop fails the same way. */
  lemma {:induction false} ControllerErrExtends(names: seq<string>, filters: seq<(string, string, Filter)>, ss: seq<Complex>, n: nat)
    requires n <= |filters| && ControllerFold(names, filters[..n], ss).Err?
    ensures ControllerFold(names, filters, ss) == ControllerFold(names, filters[..n], ss)
  {
    if n < |filters| {
      var m := |filters| - 1;
      assert filters[..m][..n] == filters[..n];
      ControllerErrExtends(names, filters[..m], ss, n);
    } else {
      assert filters[..n] == filters;
    }
  }

  /** `_computeController`: a zero array, then one cell per registered filter. */
  method ComputeController(names: seq<string>, filters: seq<(string, string, Filter)>, ss: Option<seq<Complex>>)
    returns (r: Result<Tensor>)
    ensures r == ControllerTensor(names, filters, ss)
  {
    if ss.None? {
      return Err(RuntimeError);
    }
    var s := ss.value;
    var c := ZeroCube(|names|, |s|);
    for n := 0 to |filters|
      invariant ControllerFold(names, filters[..n], s) == Ok(c)
    {
      assert filters[..n + 1][..n] == filters[..n];
      var link := filters[n];
      var toInd := IndexOf(names, link.0);
      var fromInd := IndexOf(names, link.1);
      var v := Evaluate(link.2, s);
      if toInd.None? || fromInd.None? || v.Err? {
        ControllerErrExtends(names, filters, s, n + 1);
        return if toInd.None? || fromInd.None? then Err(ValueError) else Err(v.error);
      }
      c := Store(c, toInd.value, fromInd.value, v.value);
    }
    assert filters[..|filters|] == filters;
    r := Ok(Tensor(|names|, |names|, |s|, c));
  }

  // ---------------------------------------------------------------------
  // _computeCompensator and _computeResponse

  function FilterKeys(filts: seq<(string, Filter)>): (ks: seq<string>)
    ensures |ks| == |filts| && forall n :: 0 <= n < |filts| ==> ks[n] == filts[n].0
  {
    seq(|filts|, n requires 0 <= n < |filts| => filts[n].0)
  }

  /** The diagonal entry of one drive: the first filter registered for it, or ones. */
  function DiagonalEntry(filts: seq<(string, Filter)>, drive: string, ss: seq<Complex>): (r: Result<seq<Complex>>)
    ensures r.Ok? ==> |r.value| == |ss|
  {
    match IndexOf(FilterKeys(filts), drive)
    case None => Ok(Ones(|ss|))
    case Some(n) => Evaluate(filts[n].1, ss)
  }

  function DiagonalValue(filts: seq<(string, Filter)>, drive: string, ss: seq<Complex>): (v: seq<Complex>)
    ensures |v| == |ss|
  {
    match DiagonalEntry(filts, drive, ss)
    case Ok(v) => v
    case Err(_) => Zeros(|ss|)
  }

  /** Row i of the diagonal array. */
  function DiagonalRow(drives: seq<string>, filts: seq<(string, Filter)>, ss: seq<Complex>, i: nat): (row: seq<seq<Complex>>)
    requires i < |drives|
    ensures |row| == |drives|
    ensures forall j :: 0 <= j < |drives| ==> row[j] == (if i == j then DiagonalValue(filts, drives[i], ss) else Zeros(|ss|))
  {
    seq(|drives|, j requires 0 <= j < |drives| => if i == j then DiagonalValue(filts, drives[i], ss) else Zeros(|ss|))
  }

  /** The compensator (or response) array: diagonal, one entry per drive. */
  function DiagonalTensor(drives: seq<string>, filts: seq<(string, Filter)>, ss: seq<Complex>): (r: Result<Tensor>)
    ensures r.Ok? <==> forall i :: 0 <= i < |drives| ==> DiagonalEntry(filts, drives[i], ss).Ok?
    ensures r.Err? ==> r.error == NonFinite
    ensures r.Ok? ==> r.value.Valid() && r.value.rows == |drives| && r.value.cols == |drives| && r.value.nff == |ss|
  {
    if exists i :: 0 <= i < |drives| && DiagonalEntry(filts, drives[i], ss).Err? then Err(NonFinite)
    else
      Ok(Tensor(|drives|, |drives|, |ss|, seq(|drives|, i requires 0 <= i < |drives| => DiagonalRow(drives, filts, ss, i))))
  }

  /**
   * The array is zero off the diagonal; on it, a drive with no registered
   * filter gets ones, and a drive with one gets the response of the first
   * filter registered for it.
   */
  lemma DiagonalSpec(drives: seq<string>, filts: seq<(string, Filter)>, ss: seq<Complex>, i: nat, j: nat)
    requires DiagonalTensor(drives, filts, ss).Ok? && i < |drives| && j < |drives|
    ensures i != j ==> DiagonalTensor(drives, filts, ss).value.at[i][j] == Zeros(|ss|)
    ensures i == j && drives[i] !in FilterKeys(filts) ==> DiagonalTensor(drives, filts, ss).value.at[i][j] == Ones(|ss|)
    ensures i == j && drives[i] in FilterKeys(filts) ==>
      exists n :: 0 <= n < |filts| && filts[n].0 == drives[i] && (forall m :: 0 <= m < n ==> filts[m].0 != drives[i]) &&
        DiagonalTensor(drives, filts, ss).value.at[i][j] == Evaluate(filts[n].1, ss).value
  {
    var t := DiagonalTensor(drives, filts, ss).value;
    assert t.at[i] == DiagonalRow(drives, filts, ss, i);
    if i == j && drives[i] in FilterKeys(filts) {
      var n := IndexOf(FilterKeys(filts), drives[i]).value;
      assert forall m :: 0 <= m < n ==> FilterKeys(filts)[..n][m] == filts[m].0;
      assert DiagonalEntry(filts, drives[i], ss) == Evaluate(filts[n].1, ss);
    } else if i == j {
      assert DiagonalEntry(filts, drives[i], ss) == Ok(Ones(|ss|));
    }
  }

  /** With no filter registered for any drive, every frequency bin of the array is the identity. */
  lemma DiagonalDefault(drives: seq<string>, filts: seq<(string, Filter)>, ss: seq<Complex>, f: nat)
    requires forall i :: 0 <= i < |drives| ==> drives[i] !in FilterKeys(filts)
    requires f < |ss|
    ensures DiagonalTensor(drives, filts, ss).Ok?
    ensures Slice(DiagonalTensor(drives, filts, ss).value, f) == Identity(|drives|)
  {
    var t := DiagonalTensor(drives, filts, ss).value;
    forall i, j | 0 <= i < |drives| && 0 <= j < |drives|
      ensures Slice(t, f).e[i][j] == Identity(|drives|).e[i][j]
    {
      DiagonalSpec(drives, filts, ss, i, j);
    }
    MatrixExt(Slice(t, f), Identity(|drives|));
  }

  /**
   * `_computeCompensator` / `_computeResponse`: a zero array whose diagonal
   * entry for each drive is the registered filter's response, or ones when
   * `list.index` finds no filter for that drive.
   */
  method ComputeDiagonal(drives: seq<string>, filts: seq<(string, Filter)>, ss: seq<Complex>) returns (r: Result<Tensor>)
    ensures r == DiagonalTensor(drives, filts, ss)
  {
    var nd := |drives|;
    var keys := FilterKeys(filts);
    var rows: Cube := [];
    for di := 0 to nd
      invariant |rows| == di
      invariant forall i :: 0 <= i < di ==> DiagonalEntry(filts, drives[i], ss).Ok?
      invariant forall i :: 0 <= i < di ==> rows[i] == DiagonalRow(drives, filts, ss, i)
    {
      var ind := IndexOf(keys, drives[di]);
      var v: Result<seq<Complex>>;
      if ind.None? {
        v := Ok(Ones(|ss|));
      } else {
        v := Evaluate(filts[ind.value].1, ss);
      }
      assert v == DiagonalEntry(filts, drives[di], ss);
      if v.Err? {
        return Err(NonFinite);
      }
      rows := rows + [seq(nd, j requires 0 <= j < nd => if di == j then v.value else Zeros(|ss|))];
      assert rows[di] == DiagonalRow(drives, filts, ss, di);
    }
    assert rows == seq(nd, i requires 0 <= i < nd => DiagonalRow(drives, filts, ss, i));
    r := Ok(Tensor(nd, nd, |ss|, rows));
  }
}
