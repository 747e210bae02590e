/**
 * A degree of freedom: the probes that sense it and the drives that
 * actuate it, each with a real coefficient, and their vectors aligned to
 * the control system's ordered probe and drive lists.
 */
module Dofs {
  import opened Outcomes
  import opened Names

  datatype DegreeOfFreedom = DegreeOfFreedom(name: string, probes: Coeffs, drives: Coeffs, dofType: string)

  // ---------------------------------------------------------------------
  // Renaming the drives: `drives[key + '.' + dofType] = drives.pop(key)`

  /** One pass of the renaming loop; `pop` of a missing key would be a KeyError. */
  function RenameStep(d: Coeffs, k: string, t: string): Result<Coeffs>
  {
    match Get(d, k)
    case None => Err(KeyError)
    case Some(v) => Ok(Put(Remove(d, k), k + "." + t, v))
  }

  /** The renaming loop run over a snapshot of the keys, in order. */
  function Renamed(d: Coeffs, keys: seq<string>, t: string): Result<Coeffs>
  {
    if |keys| == 0 then Ok(d)
    else match Renamed(d, keys[..|keys| - 1], t)
      case Err(e) => Err(e)
      case Ok(c) => RenameStep(c, keys[|keys| - 1], t)
  }

  /** After the first n renames every later key of the snapshot is still present. */
  lemma {:induction false} RenamedPrefix(d: Coeffs, t: string, n: nat)
    requires IsDict(d) && n <= |d|
    ensures Renamed(d, Keys(d)[..n], t).Ok?
    ensures IsDict(Renamed(d, Keys(d)[..n], t).value)
    ensures forall j :: n <= j < |d| ==> Keys(d)[j] in Keys(Renamed(d, Keys(d)[..n], t).value)
  {
    if n == 0 {
      assert Keys(d)[..0] == [];
    } else {
      var ks := Keys(d)[..n];
      assert ks[..n - 1] == Keys(d)[..n - 1];
      RenamedPrefix(d, t, n - 1);
      var c := Renamed(d, Keys(d)[..n - 1], t).value;
      var k := Keys(d)[n - 1];
      assert k in Keys(c);
      var v := Get(c, k).value;
      RemoveIsDict(c, k);
      PutIsDict(Remove(c, k), k + "." + t, v);
      forall j | n <= j < |d|
        ensures Keys(d)[j] in Keys(Put(Remove(c, k), k + "." + t, v))
      {
        assert Keys(d)[j] != k;
      }
    }
  }

  /** The constructor's renaming never meets a missing key. */
  lemma RenamedOk(d: Coeffs, t: string)
    requires IsDict(d)
    ensures Renamed(d, Keys(d), t).Ok? && IsDict(Renamed(d, Keys(d), t).value)
  {
    RenamedPrefix(d, t, |d|);
    assert Keys(d)[..|d|] == Keys(d);
  }

  /** Every entry (k, v) turned into (k.t, v), in the same order. */
  function Suffixed(d: Coeffs, t: string): (r: Coeffs)
    ensures |r| == |d|
    ensures forall i :: 0 <= i < |d| ==> r[i] == (d[i].0 + "." + t, d[i].1)
  {
    seq(|d|, i requires 0 <= i < |d| => (d[i].0 + "." + t, d[i].1))
  }

  /** No renamed key k.t coincides with an original key. */
  ghost predicate NoCollision(d: Coeffs, t: string)
  {
    forall i, j :: 0 <= i < |d| && 0 <= j < |d| ==> d[i].0 + "." + t != d[j].0
  }

  lemma SuffixInjective(a: string, b: string, t: string)
    requires a != b
    ensures a + "." + t != b + "." + t
  {
    if |a| == |b| {
      assert (a + "." + t)[..|a|] == a;
      assert (b + "." + t)[..|b|] == b;
    }
  }

  /** Without collisions the n-th state is: keys still to rename, then the renamed ones. */
  lemma {:induction false} RenamedNoCollisionPrefix(d: Coeffs, t: string, n: nat)
    requires IsDict(d) && NoCollision(d, t) && n <= |d|
    ensures Renamed(d, Keys(d)[..n], t) == Ok(d[n..] + Suffixed(d[..n], t))
  {
    if n == 0 {
      assert Keys(d)[..0] == [];
      assert d[0..] + Suffixed(d[..0], t) == d;
    } else {
      var m := n - 1;
      assert Keys(d)[..n][..m] == Keys(d)[..m];
      RenamedNoCollisionPrefix(d, t, m);
      assert Keys(d)[..n][m] == d[m].0;
      RenameOneMore(d, t, m);
    }
  }

  /** One renaming step on the intermediate state d[m..] + Suffixed(d[..m]). */
  lemma RenameOneMore(d: Coeffs, t: string, m: nat)
    requires IsDict(d) && NoCollision(d, t) && m < |d|
    ensures RenameStep(d[m..] + Suffixed(d[..m], t), d[m].0, t) == Ok(d[m + 1..] + Suffixed(d[..m + 1], t))
  {
    var n := m + 1;
    var r := Suffixed(d[..m], t);
    var rest := d[n..] + r;
    var c := d[m..] + r;
    var k, v := d[m].0, d[m].1;
    assert c == [d[m]] + rest;
    assert c[1..] == rest;
    assert Get(c, k) == Some(v);
    assert Remove(c, k) == Remove(rest, k);
    KeyNotRenamed(d, t, m);
    RemoveAbsent(rest, k);
    RenamedKeyFresh(d, t, m);
    PutAbsent(rest, k + "." + t, v);
    SuffixedSnoc(d, t, m);
  }

  /** The key about to be renamed is neither a later key nor an already renamed one. */
  lemma KeyNotRenamed(d: Coeffs, t: string, m: nat)
    requires IsDict(d) && NoCollision(d, t) && m < |d|
    ensures d[m].0 !in Keys(d[m + 1..] + Suffixed(d[..m], t))
  {
    var r := Suffixed(d[..m], t);
    KeysAppend(d[m + 1..], r);
    var later := d[m + 1..];
    forall i | 0 <= i < |later|
      ensures Keys(later)[i] != d[m].0
    {
      assert Keys(d)[m + 1 + i] != Keys(d)[m];
    }
    forall i | 0 <= i < |r|
      ensures Keys(r)[i] != d[m].0
    {
      assert r[i].0 == d[i].0 + "." + t;
    }
  }

  /** The new name k.t is not yet a key of the intermediate state. */
  lemma RenamedKeyFresh(d: Coeffs, t: string, m: nat)
    requires IsDict(d) && NoCollision(d, t) && m < |d|
    ensures d[m].0 + "." + t !in Keys(d[m + 1..] + Suffixed(d[..m], t))
  {
    var k := d[m].0;
    var r := Suffixed(d[..m], t);
    KeysAppend(d[m + 1..], r);
    var later := d[m + 1..];
    forall i | 0 <= i < |later|
      ensures Keys(later)[i] != k + "." + t
    {
      assert later[i] == d[m + 1 + i];
    }
    forall i | 0 <= i < |r|
      ensures Keys(r)[i] != k + "." + t
    {
      assert Keys(d)[i] != Keys(d)[m];
      SuffixInjective(d[i].0, k, t);
    }
  }

  lemma SuffixedSnoc(d: Coeffs, t: string, m: nat)
    requires m < |d|
    ensures d[m + 1..] + Suffixed(d[..m], t) + [(d[m].0 + "." + t, d[m].1)] == d[m + 1..] + Suffixed(d[..m + 1], t)
  {
    assert Suffixed(d[..m], t) + [(d[m].0 + "." + t, d[m].1)] == Suffixed(d[..m + 1], t);
  }

  /** Without collisions the constructor renames each drive k to k.dofType, keeping its coefficient and order. */
  lemma RenamedNoCollision(d: Coeffs, t: string)
    requires IsDict(d) && NoCollision(d, t)
    ensures Renamed(d, Keys(d), t) == Ok(Suffixed(d, t))
  {
    RenamedNoCollisionPrefix(d, t, |d|);
    assert Keys(d)[..|d|] == Keys(d);
    assert d[|d|..] + Suffixed(d[..|d|], t) == Suffixed(d, t);
  }

  /**
   * When a renamed key equals a later original key the loop overwrites it and
   * then renames it again: {EX: 1, EX.pos: 2} with type pos ends as {EX.pos.pos: 1}.
   */
  lemma RenameCollision()
    ensures Renamed([("EX", 1.0), ("EX.pos", 2.0)], ["EX", "EX.pos"], "pos") == Ok([("EX.pos.pos", 1.0)])
  {
    var d: Coeffs := [("EX", 1.0), ("EX.pos", 2.0)];
    assert ["EX", "EX.pos"][..1] == ["EX"];
    assert ["EX"][..0] == [];
    assert "EX" != "EX.pos";
    assert Remove(d, "EX") == [("EX.pos", 2.0)];
    assert Put([("EX.pos", 2.0)], "EX.pos", 1.0) == [("EX.pos", 1.0)];
    assert "EX" + "." + "pos" == "EX.pos";
    assert Get(d, "EX") == Some(1.0);
    assert Put(Remove(d, "EX"), "EX.pos", 1.0) == [("EX.pos", 1.0)];
    assert Renamed(d, ["EX"], "pos") == Ok([("EX.pos", 1.0)]);
    assert Get([("EX.pos", 1.0)], "EX.pos") == Some(1.0);
    assert Remove([("EX.pos", 1.0)], "EX.pos") == [];
    assert "EX.pos" + "." + "pos" == "EX.pos.pos";
    assert Put([], "EX.pos.pos", 1.0) == [("EX.pos.pos", 1.0)];
  }

  /** `DegreeOfFreedom(name, probes, drives, dofType)`: copies both maps and renames the drives in a loop. */
  method NewDegreeOfFreedom(name: string, probes: Coeffs, drives: Coeffs, dofType: string)
    returns (dof: DegreeOfFreedom)
    requires IsDict(probes) && IsDict(drives)
    ensures dof.name == name && dof.probes == probes && dof.dofType == dofType
    ensures Renamed(drives, Keys(drives), dofType) == Ok(dof.drives)
    ensures IsDict(dof.drives)
    ensures NoCollision(drives, dofType) ==> dof.drives == Suffixed(drives, dofType)
  {
    var keys := Keys(drives);
    var d := drives;
    var i := 0;
    while i < |keys|
      invariant 0 <= i <= |keys|
      invariant Renamed(drives, keys[..i], dofType) == Ok(d)
    {
      assert keys[..i + 1][..i] == keys[..i];
      RenamedPrefix(drives, dofType, i);
      var v := Get(d, keys[i]);
      if v.None? {
        assert false;
      }
      d := Put(Remove(d, keys[i]), keys[i] + "." + dofType, v.value);
      i := i + 1;
    }
    assert keys[..i] == keys;
    RenamedOk(drives, dofType);
    if NoCollision(drives, dofType) {
      RenamedNoCollision(drives, dofType);
    }
    dof := DegreeOfFreedom(name, probes, d, dofType);
  }

  // ---------------------------------------------------------------------
  // probes2dof / dofs2drives

  /** The filling loop: start from zeros and write each coefficient at its name's index. */
  function Scatter(c: Coeffs, names: seq<string>): (r: Result<seq<real>>)
    ensures r.Ok? ==> |r.value| == |names|
    ensures r.Err? ==> r.error == ValueError
  {
    if |c| == 0 then Ok(seq(|names|, i => 0.0))
    else match Scatter(c[..|c| - 1], names)
      case Err(e) => Err(e)
      case Ok(v) =>
        match IndexOf(names, c[|c| - 1].0)
        case None => Err(ValueError)
        case Some(i) => Ok(v[i := c[|c| - 1].1])
  }

  /** The entry the filled vector holds at position i. */
  function VectorEntry(c: Coeffs, names: seq<string>, i: nat): real
    requires i < |names|
  {
    if names[i] in Keys(c) && IndexOf(names, names[i]) == Some(i) then Get(c, names[i]).value else 0.0
  }

  /**
   * The vector fails, with ValueError, exactly when some name of the dict is
   * missing from the list; otherwise it has the list's length, the dict's
   * coefficient at the (first) index of each of its names, and zero elsewhere.
   */
  lemma {:induction false} ScatterSpec(c: Coeffs, names: seq<string>)
    requires IsDict(c)
    ensures Scatter(c, names).Ok? <==> forall k :: k in Keys(c) ==> k in names
    ensures Scatter(c, names).Err? ==> Scatter(c, names).error == ValueError
    ensures Scatter(c, names).Ok? ==>
      forall i :: 0 <= i < |names| ==> Scatter(c, names).value[i] == VectorEntry(c, names, i)
  {
    if |c| > 0 {
      var n := |c| - 1;
      var front, last := c[..n], c[n];
      assert c == front + [last];
      PrefixIsDict(c, n);
      ScatterSpec(front, names);
      KeysAppend(front, [last]);
      assert Keys(c) == Keys(front) + [last.0];
      TailKeyFresh(c);
      if Scatter(c, names).Ok? {
        var v := Scatter(front, names).value;
        var idx := IndexOf(names, last.0).value;
        forall i | 0 <= i < |names|
          ensures Scatter(c, names).value[i] == VectorEntry(c, names, i)
        {
          if names[i] != last.0 {
            GetSnoc(front, last, names[i]);
          } else if i == idx {
            assert Get(c, last.0) == Some(last.1) by {
              assert c[n].0 == last.0;
            }
          }
        }
      }
    }
  }

  lemma TailKeyFresh(c: Coeffs)
    requires IsDict(c) && |c| > 0
    ensures c[|c| - 1].0 !in Keys(c[..|c| - 1])
  {
    var n := |c| - 1;
    forall i | 0 <= i < n
      ensures Keys(c[..n])[i] != c[n].0
    {
      assert Keys(c)[i] != Keys(c)[n];
    }
  }

  /** Over a list without repeats the entry is the coefficient of that name, or zero. */
  lemma VectorEntryDistinct(c: Coeffs, names: seq<string>, i: nat)
    requires Distinct(names) && i < |names|
    ensures VectorEntry(c, names, i) == (if names[i] in Keys(c) then Get(c, names[i]).value else 0.0)
  {
    IndexOfDistinct(names, i);
  }

  /** Once a prefix of the dict fails, the whole fails the same way. */
  lemma {:induction false} ScatterErrExtends(c: Coeffs, names: seq<string>, n: nat)
    requires n <= |c| && Scatter(c[..n], names).Err?
    ensures Scatter(c, names) == Scatter(c[..n], names)
  {
    if n < |c| {
      var m := |c| - 1;
      assert c[..m][..n] == c[..n];
      ScatterErrExtends(c[..m], names, n);
    } else {
      assert c[..n] == c;
    }
  }

  /**
   * `probes2dof(probeList)` is ToVector(dof.probes, probeList) and
   * `dofs2drives(driveList)` is ToVector(dof.drives, driveList): a zero
   * array filled entry by entry.
   */
  method ToVector(c: Coeffs, names: seq<string>) returns (r: Result<seq<real>>)
    ensures r == Scatter(c, names)
  {
    var arr := new real[|names|](i => 0.0);
    var j := 0;
    assert arr[..] == seq(|names|, i => 0.0);
    while j < |c|
      invariant 0 <= j <= |c|
      invariant Scatter(c[..j], names).Ok? && arr[..] == Scatter(c[..j], names).value
    {
      assert c[..j + 1][..j] == c[..j];
      var idx := IndexOf(names, c[j].0);
      if idx.None? {
        ScatterErrExtends(c, names, j + 1);
        return Err(ValueError);
      }
      arr[idx.value] := c[j].1;
      j := j + 1;
    }
    assert c[..j] == c;
    r := Ok(arr[..]);
  }
}
