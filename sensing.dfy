/**
 * The sensing matrix S (DOFs x probes), whose row d is `probes2dof` of the
 * d-th degree of freedom, and the actuation matrix A (drives x DOFs), whose
 * column d is `dofs2drives` of the d-th degree of freedom.
 */
module Sensing {
  import opened Outcomes
  import opened Names
  import opened Dofs
  import opened Tensors

  function ProbeMaps(dofs: seq<DegreeOfFreedom>): (cs: seq<Coeffs>)
    ensures |cs| == |dofs| && forall d :: 0 <= d < |dofs| ==> cs[d] == dofs[d].probes
  {
    seq(|dofs|, d requires 0 <= d < |dofs| => dofs[d].probes)
  }

  function DriveMaps(dofs: seq<DegreeOfFreedom>): (cs: seq<Coeffs>)
    ensures |cs| == |dofs| && forall d :: 0 <= d < |dofs| ==> cs[d] == dofs[d].drives
  {
    seq(|dofs|, d requires 0 <= d < |dofs| => dofs[d].drives)
  }

  /** One vector per map, in order; the first map that does not fit the list stops the loop. */
  function Rows(cs: seq<Coeffs>, names: seq<string>): (r: Result<seq<seq<real>>>)
    ensures r.Ok? ==> IsRealGrid(r.value, |cs|, |names|)
    ensures r.Err? ==> r.error == ValueError
  {
    if |cs| == 0 then Ok([])
    else match Rows(cs[..|cs| - 1], names)
      case Err(e) => Err(e)
      case Ok(g) =>
        match Scatter(cs[|cs| - 1], names)
        case Err(e) => Err(e)
        case Ok(v) => Ok(g + [v])
  }

  /** The rows fail iff some map's vector does; otherwise row d is map d's vector. */
  lemma {:induction false} RowsSpec(cs: seq<Coeffs>, names: seq<string>)
    ensures Rows(cs, names).Ok? <==> forall d :: 0 <= d < |cs| ==> Scatter(cs[d], names).Ok?
    ensures Rows(cs, names).Ok? ==> forall d :: 0 <= d < |cs| ==> Rows(cs, names).value[d] == Scatter(cs[d], names).value
  {
    if |cs| > 0 {
      var n := |cs| - 1;
      assert forall d :: 0 <= d < n ==> cs[..n][d] == cs[d];
      RowsSpec(cs[..n], names);
    }
  }

  /** Once a prefix of the maps fails, all of them fail the same way. */
  lemma {:induction false} RowsErrExtends(cs: seq<Coeffs>, names: seq<string>, n: nat)
    requires n <= |cs| && Rows(cs[..n], names).Err?
    ensures Rows(cs, names) == Rows(cs[..n], names)
  {
    if n < |cs| {
      var m := |cs| - 1;
      assert cs[..m][..n] == cs[..n];
      RowsErrExtends(cs[..m], names, n);
    } else {
      assert cs[..n] == cs;
    }
  }

  /** `_computeInputMatrix`: the (nDOF, nProbes) sensing matrix. */
  function InputMatrix(dofs: seq<DegreeOfFreedom>, probes: seq<string>): (r: Result<seq<seq<real>>>)
    ensures r.Ok? ==> IsRealGrid(r.value, |dofs|, |probes|)
  {
    Rows(ProbeMaps(dofs), probes)
  }

  function Transpose(g: seq<seq<real>>, rows: nat, cols: nat): (t: seq<seq<real>>)
    requires IsRealGrid(g, rows, cols)
    ensures IsRealGrid(t, cols, rows)
    ensures forall k, d :: 0 <= k < cols && 0 <= d < rows ==> t[k][d] == g[d][k]
  {
    seq(cols, k requires 0 <= k < cols => seq(rows, d requires 0 <= d < rows => g[d][k]))
  }

  /** `_computeOutputMatrix`: the (nDrives, nDOF) actuation matrix. */
  function OutputMatrix(dofs: seq<DegreeOfFreedom>, drives: seq<string>): (r: Result<seq<seq<real>>>)
    ensures r.Ok? ==> IsRealGrid(r.value, |drives|, |dofs|)
  {
    match Rows(DriveMaps(dofs), drives)
    case Err(e) => Err(e)
    case Ok(g) => Ok(Transpose(g, |dofs|, |drives|))
  }

  /**
   * The sensing matrix fails, with ValueError, iff some DOF senses a probe
   * missing from the list; otherwise S[d][p] is DOF d's coefficient for
   * probe p, zero where it has none.
   */
  lemma InputMatrixSpec(dofs: seq<DegreeOfFreedom>, probes: seq<string>)
    requires forall d :: 0 <= d < |dofs| ==> IsDict(dofs[d].probes)
    requires Distinct(probes)
    ensures InputMatrix(dofs, probes).Ok? <==>
      forall d, k :: 0 <= d < |dofs| && k in Keys(dofs[d].probes) ==> k in probes
    ensures InputMatrix(dofs, probes).Err? ==> InputMatrix(dofs, probes).error == ValueError
    ensures InputMatrix(dofs, probes).Ok? ==>
      forall d, p :: 0 <= d < |dofs| && 0 <= p < |probes| ==>
        InputMatrix(dofs, probes).value[d][p] ==
          (if probes[p] in Keys(dofs[d].probes) then Get(dofs[d].probes, probes[p]).value else 0.0)
  {
    var cs := ProbeMaps(dofs);
    RowsSpec(cs, probes);
    forall d | 0 <= d < |dofs|
      ensures Scatter(cs[d], probes).Ok? <==> forall k :: k in Keys(dofs[d].probes) ==> k in probes
      ensures Scatter(cs[d], probes).Ok? ==> forall p :: 0 <= p < |probes| ==>
        Scatter(cs[d], probes).value[p] ==
          (if probes[p] in Keys(dofs[d].probes) then Get(dofs[d].probes, probes[p]).value else 0.0)
    {
      ScatterSpec(cs[d], probes);
      forall p | 0 <= p < |probes| {
        VectorEntryDistinct(cs[d], probes, p);
      }
    }
  }

  /**
   * The actuation matrix fails, with ValueError, iff some DOF uses a drive
   * missing from the list; otherwise A[k][d] is DOF d's coefficient for
   * drive k, zero where it has none.
   */
  lemma OutputMatrixSpec(dofs: seq<DegreeOfFreedom>, drives: seq<string>)
    requires forall d :: 0 <= d < |dofs| ==> IsDict(dofs[d].drives)
    requires Distinct(drives)
    ensures OutputMatrix(dofs, drives).Ok? <==>
      forall d, k :: 0 <= d < |dofs| && k in Keys(dofs[d].drives) ==> k in drives
    ensures OutputMatrix(dofs, drives).Err? ==> OutputMatrix(dofs, drives).error == ValueError
    ensures OutputMatrix(dofs, drives).Ok? ==>
      forall k, d :: 0 <= k < |drives| && 0 <= d < |dofs| ==>
        OutputMatrix(dofs, drives).value[k][d] ==
          (if drives[k] in Keys(dofs[d].drives) then Get(dofs[d].drives, drives[k]).value else 0.0)
  {
    var cs := DriveMaps(dofs);
    RowsSpec(cs, drives);
    forall d | 0 <= d < |dofs|
      ensures Scatter(cs[d], drives).Ok? <==> forall k :: k in Keys(dofs[d].drives) ==> k in drives
      ensures Scatter(cs[d], drives).Ok? ==> forall k :: 0 <= k < |drives| ==>
        Scatter(cs[d], drives).value[k] ==
          (if drives[k] in Keys(dofs[d].drives) then Get(dofs[d].drives, drives[k]).value else 0.0)
    {
      ScatterSpec(cs[d], drives);
      forall k | 0 <= k < |drives| {
        VectorEntryDistinct(cs[d], drives, k);
      }
    }
  }

  /** `_computeInputMatrix`: row d is `dofs[d].probes2dof(probes)`. */
  method ComputeInputMatrix(dofs: seq<DegreeOfFreedom>, probes: seq<string>) returns (r: Result<seq<seq<real>>>)
    ensures r == InputMatrix(dofs, probes)
  {
    var cs := ProbeMaps(dofs);
    var rows: seq<seq<real>> := [];
    for d := 0 to |dofs|
      invariant Rows(cs[..d], probes) == Ok(rows)
    {
      assert cs[..d + 1][..d] == cs[..d];
      var v := ToVector(dofs[d].probes, probes);
      if v.Err? {
        RowsErrExtends(cs, probes, d + 1);
        return Err(v.error);
      }
      rows := rows + [v.value];
    }
    assert cs[..|dofs|] == cs;
    r := Ok(rows);
  }

  /** `act[:, d] = v`. */
  method FillColumn(act: array2<real>, d: nat, v: seq<real>)
    requires d < act.Length1 && |v| == act.Length0
    modifies act
    ensures forall k, j :: 0 <= k < act.Length0 && 0 <= j < act.Length1 ==>
      act[k, j] == (if j == d then v[k] else old(act[k, j]))
  {
    for k := 0 to act.Length0
      invariant forall k', j :: 0 <= k' < act.Length0 && 0 <= j < act.Length1 ==>
        act[k', j] == (if j == d && k' < k then v[k'] else old(act[k', j]))
    {
      act[k, d] := v[k];
    }
  }

  /** `_computeOutputMatrix`: a zero array whose column d is filled with `dofs[d].dofs2drives(drives)`. */
  method ComputeOutputMatrix(dofs: seq<DegreeOfFreedom>, drives: seq<string>) returns (r: Result<seq<seq<real>>>)
    ensures r == OutputMatrix(dofs, drives)
  {
    var cs := DriveMaps(dofs);
    var act := new real[|drives|, |dofs|]((k, d) => 0.0);
    ghost var g: seq<seq<real>> := [];
    for d := 0 to |dofs|
      invariant Rows(cs[..d], drives) == Ok(g) && |g| == d
      invariant act.Length0 == |drives| && act.Length1 == |dofs| && ColumnsAre(act, g)
    {
      assert cs[..d + 1][..d] == cs[..d];
      var v := ToVector(dofs[d].drives, drives);
      if v.Err? {
        RowsErrExtends(cs, drives, d + 1);
        assert Rows(DriveMaps(dofs), drives) == Err(v.error);
        return Err(v.error);
      }
      PushColumn(act, d, g, v.value);
      g := g + [v.value];
    }
    assert cs[..|dofs|] == cs;
    var out := ReadGrid(act);
    assert out == Transpose(g, |dofs|, |drives|) by {
      forall k | 0 <= k < |drives|
        ensures out[k] == Transpose(g, |dofs|, |drives|)[k]
      {
      }
    }
    r := Ok(out);
  }

  /** The first |g| columns of `act` are the vectors of g; the rest are still zero. */
  ghost predicate ColumnsAre(act: array2<real>, g: seq<seq<real>>)
    reads act
  {
    && |g| <= act.Length1
    && (forall j :: 0 <= j < |g| ==> |g[j]| == act.Length0)
    && forall k, j :: 0 <= k < act.Length0 && 0 <= j < act.Length1 ==> act[k, j] == (if j < |g| then g[j][k] else 0.0)
  }

  /** `act[:, d] = v` for the next column d. */
  method PushColumn(act: array2<real>, d: nat, ghost g: seq<seq<real>>, v: seq<real>)
    requires ColumnsAre(act, g) && d == |g| < act.Length1 && |v| == act.Length0
    modifies act
    ensures ColumnsAre(act, g + [v])
  {
    FillColumn(act, d, v);
    ghost var g' := g + [v];
    forall k, j | 0 <= k < act.Length0 && 0 <= j < act.Length1
      ensures act[k, j] == (if j < |g'| then g'[j][k] else 0.0)
    {
      if j < |g| {
        assert g'[j] == g[j];
      }
    }
  }

  /** `act` read back row by row. */
  method ReadGrid(act: array2<real>) returns (out: seq<seq<real>>)
    ensures IsRealGrid(out, act.Length0, act.Length1)
    ensures forall k, j :: 0 <= k < act.Length0 && 0 <= j < act.Length1 ==> out[k][j] == act[k, j]
  {
    out := seq(act.Length0, k requires 0 <= k < act.Length0 reads act =>
      seq(act.Length1, j requires 0 <= j < act.Length1 reads act => act[k, j]));
  }
}
