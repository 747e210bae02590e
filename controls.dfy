/**
 * The control system: a registry of degrees of freedom, controller filters,
 * drive compensators and actuator responses, the optical plant, and the
 * arrays that `tickle` assembles from them.
 */
module Controls {
  import opened Outcomes
  import opened Complex
  import opened LinearAlgebra
  import opened Names
  import opened Filters
  import opened Dofs
  import opened Tensors
  import opened Sensing
  import opened Plants
  import opened Controllers
  import opened Loops

  /** `self._dofs.keys()`: the DOF names, in the order the DOFs were added. */
  function DofNames(dofs: seq<DegreeOfFreedom>): (ns: seq<string>)
    ensures |ns| == |dofs| && forall d :: 0 <= d < |dofs| ==> ns[d] == dofs[d].name
  {
    seq(|dofs|, d requires 0 <= d < |dofs| => dofs[d].name)
  }

  /**
   * The filter an `add...` call registers: one Filter argument is taken as
   * it is, anything else goes to the Filter constructor (these calls cannot
   * pass the Hz keyword, so roots are in Hz).
   */
  function FilterFromArgs(args: seq<Value>, modulus: Complex -> real): (r: Result<Filter>)
    ensures |args| == 1 ==> (r.Ok? <==> args[0].FilterObj? || args[0].Callable?)
    ensures |args| == 1 && args[0].FilterObj? ==> r == Ok(args[0].filter)
    ensures |args| != 1 ==> r == MakeFilter(args, Some(true), modulus)
  {
    if |args| == 1 && args[0].FilterObj? then Ok(args[0].filter)
    else MakeFilter(args, None, modulus)
  }

  // ---------------------------------------------------------------------
  // Compensators and responses

  /**
   * `addCompensator` / `setResponse` on their list of (drive, filter) pairs:
   * the key is `drive.driveType`; a key already present is a ValueError,
   * checked before the filter is built. Keys stay distinct.
   */
  function Register(filts: seq<(string, Filter)>, drive: string, driveType: string, args: seq<Value>,
                    modulus: Complex -> real): (r: Result<seq<(string, Filter)>>)
    ensures drive + "." + driveType in FilterKeys(filts) ==> r == Err(ValueError)
    ensures r.Ok? ==> FilterFromArgs(args, modulus).Ok? && r.value == filts + [(drive + "." + driveType, FilterFromArgs(args, modulus).value)]
    ensures r.Err? && drive + "." + driveType !in FilterKeys(filts) ==> FilterFromArgs(args, modulus) == Err(r.error)
    ensures r.Ok? && Distinct(FilterKeys(filts)) ==> Distinct(FilterKeys(r.value))
  {
    var key := drive + "." + driveType;
    if key in FilterKeys(filts) then Err(ValueError)
    else
      var f :- FilterFromArgs(args, modulus);
      var filts' := filts + [(key, f)];
      assert FilterKeys(filts') == FilterKeys(filts) + [key];
      Ok(filts')
  }

  /**
   * Once registered, a filter is the one the diagonal array uses for its
   * drive: an earlier registration for that key would have been refused.
   */
  lemma RegisteredIsUsed(filts: seq<(string, Filter)>, drive: string, driveType: string, args: seq<Value>,
                         modulus: Complex -> real, ss: seq<Complex>)
    requires Register(filts, drive, driveType, args, modulus).Ok?
    ensures DiagonalEntry(Register(filts, drive, driveType, args, modulus).value, drive + "." + driveType, ss)
      == Evaluate(FilterFromArgs(args, modulus).value, ss)
  {
    var key := drive + "." + driveType;
    var filts' := Register(filts, drive, driveType, args, modulus).value;
    assert FilterKeys(filts') == FilterKeys(filts) + [key];
    assert IndexOf(FilterKeys(filts'), key) == Some(|filts|) by {
      assert FilterKeys(filts')[|filts|] == key;
      assert FilterKeys(filts')[..|filts|] == FilterKeys(filts);
    }
  }

  // ---------------------------------------------------------------------
  // getFilter

  /** The filter at position n links `dofFrom` to `dofTo`. */
  predicate Links(filters: seq<(string, string, Filter)>, n: nat, dofTo: string, dofFrom: string)
  {
    n < |filters| && filters[n].0 == dofTo && filters[n].1 == dofFrom
  }

  lemma LinksAppend(filters: seq<(string, string, Filter)>, link: (string, string, Filter), n: nat, dofTo: string, dofFrom: string)
    ensures Links(filters + [link], n, dofTo, dofFrom) <==>
      Links(filters, n, dofTo, dofFrom) || (n == |filters| && link.0 == dofTo && link.1 == dofFrom)
  {
  }

  /** `inds.nonzero()[0]`: the positions of the matching filters, in increasing order. */
  function Matches(filters: seq<(string, string, Filter)>, dofTo: string, dofFrom: string): (ns: seq<nat>)
    ensures forall n :: n in ns <==> Links(filters, n, dofTo, dofFrom)
    ensures forall i, j :: 0 <= i < j < |ns| ==> ns[i] < ns[j]
    ensures forall i :: 0 <= i < |ns| ==> ns[i] < |filters|
  {
    if |filters| == 0 then []
    else
      var k := |filters| - 1;
      var front := Matches(filters[..k], dofTo, dofFrom);
      assert forall n: nat :: n < k ==> (Links(filters[..k], n, dofTo, dofFrom) <==> Links(filters, n, dofTo, dofFrom));
      if Links(filters, k, dofTo, dofFrom) then front + [k] else front
  }

  /**
   * `getFilter(dofTo, dofFrom)`: the filter of the one registered link
   * between the two DOFs; no link, or more than one, is a ValueError.
   */
  function FindFilter(filters: seq<(string, string, Filter)>, dofTo: string, dofFrom: string): (r: Result<Filter>)
    ensures r.Ok? <==> exists n :: Links(filters, n, dofTo, dofFrom) && forall m :: Links(filters, m, dofTo, dofFrom) ==> m == n
    ensures r.Err? ==> r.error == ValueError
    ensures r.Ok? ==> forall n: nat :: Links(filters, n, dofTo, dofFrom) ==> filters[n].2 == r.value
  {
    var ns := Matches(filters, dofTo, dofFrom);
    if |ns| == 0 then
      assert forall m :: !Links(filters, m, dofTo, dofFrom) by {
        forall m ensures !Links(filters, m, dofTo, dofFrom) {
          assert m !in ns;
        }
      }
      Err(ValueError)
    else if |ns| > 1 then
      assert ns[0] in ns && ns[1] in ns;
      Err(ValueError)
    else
      assert forall m :: Links(filters, m, dofTo, dofFrom) ==> m == ns[0] by {
        forall m | Links(filters, m, dofTo, dofFrom) ensures m == ns[0] {
          assert m in ns;
        }
      }
      assert ns[0] in ns;
      Ok(filters[ns[0]].2)
  }

  /** Registering the first filter between two DOFs makes `getFilter` return it. */
  lemma FindAfterFirstAdd(filters: seq<(string, string, Filter)>, dofTo: string, dofFrom: string, f: Filter)
    requires forall n :: !Links(filters, n, dofTo, dofFrom)
    ensures FindFilter(filters + [(dofTo, dofFrom, f)], dofTo, dofFrom) == Ok(f)
  {
    var filters' := filters + [(dofTo, dofFrom, f)];
    assert Links(filters', |filters|, dofTo, dofFrom);
    forall m: nat | Links(filters', m, dofTo, dofFrom) ensures m == |filters| {
      LinksAppend(filters, (dofTo, dofFrom, f), m, dofTo, dofFrom);
    }
  }

  /**
   * Registering a second filter between the same two DOFs makes `getFilter`
   * refuse the pair, while the controller array holds the newer filter's
   * response in that cell.
   */
  lemma FindAfterSecondAdd(filters: seq<(string, string, Filter)>, dofTo: string, dofFrom: string, f: Filter,
                           ss: seq<Complex>, n: nat)
    requires Links(filters, n, dofTo, dofFrom)
    requires Evaluate(f, ss).Ok?
    ensures FindFilter(filters + [(dofTo, dofFrom, f)], dofTo, dofFrom) == Err(ValueError)
    ensures ControllerCell(filters + [(dofTo, dofFrom, f)], dofTo, dofFrom, ss) == Evaluate(f, ss).value
  {
    var filters' := filters + [(dofTo, dofFrom, f)];
    var ns := Matches(filters', dofTo, dofFrom);
    assert Links(filters', n, dofTo, dofFrom) && Links(filters', |filters|, dofTo, dofFrom);
    assert n in ns && |filters| in ns;
    assert |ns| > 1;
    assert LastMatch(filters', dofTo, dofFrom) == Some(|filters|);
  }

  /** Where `getFilter` finds a filter, the controller cell of that pair is its response. */
  lemma FindFilterCell(filters: seq<(string, string, Filter)>, dofTo: string, dofFrom: string, ss: seq<Complex>)
    requires FindFilter(filters, dofTo, dofFrom).Ok?
    requires Evaluate(FindFilter(filters, dofTo, dofFrom).value, ss).Ok?
    ensures ControllerCell(filters, dofTo, dofFrom, ss) == Evaluate(FindFilter(filters, dofTo, dofFrom).value, ss).value
  {
    var n :| Links(filters, n, dofTo, dofFrom) && forall k :: Links(filters, k, dofTo, dofFrom) ==> k == n;
    assert Links(filters, n, dofTo, dofFrom);
    var m := LastMatch(filters, dofTo, dofFrom);
    assert Links(filters, m.value, dofTo, dofFrom);
  }

  // ---------------------------------------------------------------------
  // getOLTF, getCLTF and _getIndex

  /**
   * `getOLTF` / `getCLTF`: the response `tfs[sig][to, from, :]`, where both
   * indices are positions in the DOF list whatever the injection point. No
   * arrays yet (`tickle` not run) is a TypeError, an unknown signal a
   * KeyError, an unknown DOF a ValueError, an index past the array an
   * IndexError.
   */
  function Lookup(tfs: Option<map<string, Tensor>>, names: seq<string>, dofTo: string, dofFrom: string, sig: string)
    : (r: Result<seq<Complex>>)
    ensures tfs.None? ==> r == Err(TypeError)
    ensures tfs.Some? && sig !in tfs.value ==> r == Err(KeyError)
    ensures tfs.Some? && sig in tfs.value && (dofTo !in names || dofFrom !in names) ==> r == Err(ValueError)
    ensures r.Ok? ==> tfs.Some? && sig in tfs.value && dofTo in names && dofFrom in names
    ensures r.Ok? ==>
      var t, i, j := tfs.value[sig], IndexOf(names, dofTo).value, IndexOf(names, dofFrom).value;
      i < |t.at| && j < |t.at[i]| && r.value == t.at[i][j]
  {
    match tfs
    case None => Err(TypeError)
    case Some(m) =>
      if sig !in m then Err(KeyError)
      else
        var t := m[sig];
        match IndexOf(names, dofTo)
        case None => Err(ValueError)
        case Some(i) =>
          match IndexOf(names, dofFrom)
          case None => Err(ValueError)
          case Some(j) =>
            if i < |t.at| && j < |t.at[i]| then Ok(t.at[i][j]) else Err(IndexError)
  }

  /** The open-loop arrays of the five injection points, keyed by name. */
  function OltfMap(x: LoopArrays): (m: map<string, Tensor>)
    requires x.Conformable()
  {
    map sig | sig in SignalNames :: Oltf(sig, x).value
  }

  /**
   * On the open-loop arrays, `getOLTF(names[i], names[j], sig)` is the
   * (i, j) entry of that injection point's loop matrix at every frequency,
   * provided both positions fall inside that matrix.
   */
  lemma LookupOltf(x: LoopArrays, names: seq<string>, i: nat, j: nat, s: Signal)
    requires x.Conformable() && Distinct(names)
    requires i < |names| && j < |names| && i < Dim(s, x) && j < Dim(s, x)
    ensures Lookup(Some(OltfMap(x)), names, names[i], names[j], SignalName(s)).Ok?
    ensures var v := Lookup(Some(OltfMap(x)), names, names[i], names[j], SignalName(s)).value;
      |v| == x.NFreq() && forall f :: 0 <= f < x.NFreq() ==> v[f] == LoopBin(s, x, f).e[i][j]
  {
    var sig := SignalName(s);
    ParseSignalName(s);
    assert sig in SignalNames;
    IndexOfDistinct(names, i);
    IndexOfDistinct(names, j);
    var t := OltfMap(x)[sig];
    assert t == Oltf(sig, x).value;
    forall f | 0 <= f < x.NFreq() ensures t.at[i][j][f] == LoopBin(s, x, f).e[i][j] {
      OltfBin(s, x, f);
    }
  }

  /**
   * With more DOFs than probes, `getOLTF` at the 'sens' point fails with an
   * IndexError for the last DOF: the DOF position indexes a
   * (probes x probes) array.
   */
  lemma LookupSensPastProbes(x: LoopArrays, names: seq<string>)
    requires x.Conformable() && Distinct(names) && |names| > x.NProbes()
    ensures Lookup(Some(OltfMap(x)), names, names[|names| - 1], names[|names| - 1], "sens") == Err(IndexError)
  {
    var n := |names| - 1;
    IndexOfDistinct(names, n);
    assert "sens" in SignalNames;
    assert OltfMap(x)["sens"] == Oltf("sens", x).value;
    assert ParseSignal("sens") == Ok(SensSig);
  }

  /**
   * `_getIndex(name, sig)`: the list a signal kind is indexed by (DOFs for
   * err, ctrl and cal; drives for comp, drive, pos and spot; probes for
   * sens), or None for any other kind.
   */
  function Axis(sig: string, dofNames: seq<string>, drives: seq<string>, probes: seq<string>): Option<seq<string>>
  {
    if sig in ["err", "ctrl", "cal"] then Some(dofNames)
    else if sig in ["comp", "drive", "pos", "spot"] then Some(drives)
    else if sig == "sens" then Some(probes)
    else None
  }

  /**
   * `_getIndex`: the position of `name` in the signal kind's list; a name
   * not in it is a ValueError, and an unknown kind leaves `ind` unbound.
   */
  function IndexFor(name: string, sig: string, dofNames: seq<string>, drives: seq<string>, probes: seq<string>)
    : (r: Result<nat>)
    ensures Axis(sig, dofNames, drives, probes).None? ==> r == Err(UnboundLocalError)
    ensures Axis(sig, dofNames, drives, probes).Some? ==>
      (r.Ok? <==> name in Axis(sig, dofNames, drives, probes).value)
    ensures Axis(sig, dofNames, drives, probes).Some? && r.Err? ==> r.error == ValueError
    ensures r.Ok? ==> var xs := Axis(sig, dofNames, drives, probes).value;
      r.value < |xs| && xs[r.value] == name && name !in xs[..r.value]
  {
    match Axis(sig, dofNames, drives, probes)
    case None => Err(UnboundLocalError)
    case Some(xs) =>
      match IndexOf(xs, name)
      case None => Err(ValueError)
      case Some(i) => Ok(i)
  }

  /**
   * For the five injection points, `_getIndex` picks the list whose length
   * is that point's loop size, so a name it finds always indexes inside the
   * loop matrix.
   */
  lemma IndexForDim(name: string, s: Signal, x: LoopArrays, dofNames: seq<string>, drives: seq<string>, probes: seq<string>)
    requires x.NDof() == |dofNames| && x.NDrives() == |drives| && x.NProbes() == |probes|
    ensures var r := IndexFor(name, SignalName(s), dofNames, drives, probes);
      r.Ok? ==> r.value < Dim(s, x)
    ensures var r := IndexFor(name, SignalName(s), dofNames, drives, probes);
      r.Err? ==> r.error == ValueError
  {
  }

  // ---------------------------------------------------------------------
  // Assembling the loop

  ghost predicate LoopMap(om: map<string, Tensor>)
  {
    forall sig :: sig in SignalNames ==> sig in om && om[sig].Valid() && om[sig].rows == om[sig].cols
  }

  /**
   * The closed-loop arrays of the dict comprehension in `tickle`: a singular
   * I - L at any point and bin is a LinAlgError and nothing is built.
   */
  function CltfMap(om: map<string, Tensor>, inverse: Matrix -> Option<Matrix>): (r: Result<map<string, Tensor>>)
    requires LoopMap(om)
  {
    if exists sig :: sig in SignalNames && Cltf(om[sig], inverse).Err? then Err(LinAlgError)
    else Ok(map sig | sig in SignalNames :: Cltf(om[sig], inverse).value)
  }

  /** The closed loops of the first k injection points. */
  ghost function ClosedPrefix(om: map<string, Tensor>, inverse: Matrix -> Option<Matrix>, k: nat): map<string, Tensor>
    requires LoopMap(om) && k <= |SignalNames|
    requires forall sig :: sig in SignalNames[..k] ==> Cltf(om[sig], inverse).Ok?
  {
    map sig | sig in SignalNames[..k] :: Cltf(om[sig], inverse).value
  }

  lemma ClosedPrefixStep(om: map<string, Tensor>, inverse: Matrix -> Option<Matrix>, k: nat)
    requires LoopMap(om) && k < |SignalNames|
    requires forall sig :: sig in SignalNames[..k + 1] ==> Cltf(om[sig], inverse).Ok?
    ensures forall sig :: sig in SignalNames[..k] ==> Cltf(om[sig], inverse).Ok?
    ensures ClosedPrefix(om, inverse, k)[SignalNames[k] := Cltf(om[SignalNames[k]], inverse).value] == ClosedPrefix(om, inverse, k + 1)
  {
    assert SignalNames[..k + 1] == SignalNames[..k] + [SignalNames[k]];
  }

  /** The closed loops, one injection point at a time, stopping at the first singular one. */
  method ComputeCltfMap(om: map<string, Tensor>, inverse: Matrix -> Option<Matrix>) returns (r: Result<map<string, Tensor>>)
    requires LoopMap(om)
    ensures r == CltfMap(om, inverse)
  {
    var cm: map<string, Tensor> := map[];
    for i := 0 to |SignalNames|
      invariant forall sig :: sig in SignalNames[..i] ==> Cltf(om[sig], inverse).Ok?
      invariant cm == ClosedPrefix(om, inverse, i)
    {
      var sig := SignalNames[i];
      var l := ComputeCltf(om[sig], inverse);
      if l.Err? {
        return Err(LinAlgError);
      }
      assert SignalNames[..i + 1] == SignalNames[..i] + [sig];
      ClosedPrefixStep(om, inverse, i);
      cm := cm[sig := l.value];
    }
    assert SignalNames[..|SignalNames|] == SignalNames;
    r := Ok(cm);
  }

  /** The open-loop arrays have the shapes the closed loop needs. */
  lemma OltfMapIsLoopMap(x: LoopArrays)
    requires x.Conformable()
    ensures LoopMap(OltfMap(x))
  {
  }

  /**
   * With a sound inverse, the closed loops exist iff I - L is invertible at
   * every injection point and bin; then each bin of each closed loop is the
   * two-sided inverse of I - L.
   */
  lemma CltfMapSpec(om: map<string, Tensor>, inverse: Matrix -> Option<Matrix>)
    requires LoopMap(om) && InverseSound(inverse)
    ensures CltfMap(om, inverse).Ok? <==>
      forall sig, f :: sig in SignalNames && 0 <= f < om[sig].nff ==> Invertible(ImL(om[sig], f))
    ensures CltfMap(om, inverse).Err? ==> CltfMap(om, inverse).error == LinAlgError
    ensures CltfMap(om, inverse).Ok? ==> forall sig :: sig in SignalNames ==>
      sig in CltfMap(om, inverse).value &&
      forall f :: 0 <= f < om[sig].nff ==> IsInverse(Slice(CltfMap(om, inverse).value[sig], f), ImL(om[sig], f))
  {
    forall sig | sig in SignalNames {
      CltfSpec(om[sig], inverse);
    }
  }

  /**
   * The coefficient maps are dictionaries, and `names` lists, without
   * repeats, exactly the keys they use.
   */
  ghost predicate Registered(cs: seq<Coeffs>, names: seq<string>)
  {
    && Distinct(names)
    && (forall d :: 0 <= d < |cs| ==> IsDict(cs[d]))
    && (forall d, k :: 0 <= d < |cs| && k in Keys(cs[d]) ==> k in names)
    && (forall i :: 0 <= i < |names| ==> exists d :: 0 <= d < |cs| && names[i] in Keys(cs[d]))
  }

  /** `append_str_if_unique(names, c)` after adding the map c keeps the list registered. */
  lemma RegisteredAppend(cs: seq<Coeffs>, names: seq<string>, c: Coeffs)
    requires Registered(cs, names) && IsDict(c)
    ensures Registered(cs + [c], Appended(names, Keys(c)))
  {
    var cs', names' := cs + [c], Appended(names, Keys(c));
    AppendedSpec(names, Keys(c));
    forall d, k | 0 <= d < |cs'| && k in Keys(cs'[d]) ensures k in names' {
      if d < |cs| {
        assert cs'[d] == cs[d];
      }
    }
    forall i | 0 <= i < |names'| ensures exists d :: 0 <= d < |cs'| && names'[i] in Keys(cs'[d]) {
      var k := names'[i];
      if k in names {
        var j :| 0 <= j < |names| && names[j] == k;
        var d :| 0 <= d < |cs| && names[j] in Keys(cs[d]);
        assert cs'[d] == cs[d];
      } else {
        assert k in Keys(cs'[|cs|]);
      }
    }
  }

  /** The sensing and actuation maps of the DOFs are registered in the probe and drive lists. */
  ghost predicate RegistryFits(dofs: seq<DegreeOfFreedom>, probes: seq<string>, drives: seq<string>)
  {
    Registered(ProbeMaps(dofs), probes) && Registered(DriveMaps(dofs), drives)
  }

  /** Because `addDOF` registers every probe and drive a DOF uses, S and A always exist. */
  lemma RegistryMatrices(dofs: seq<DegreeOfFreedom>, probes: seq<string>, drives: seq<string>)
    requires RegistryFits(dofs, probes, drives)
    ensures InputMatrix(dofs, probes).Ok? && OutputMatrix(dofs, drives).Ok?
  {
    InputMatrixSpec(dofs, probes);
    OutputMatrixSpec(dofs, drives);
  }

  /**
   * The work of `addDOF` once the name is known to be new: the DOF is built,
   * then its probes and drives go through `append_str_if_unique`.
   */
  method NewEntry(probes: seq<string>, drives: seq<string>, name: string, dofProbes: Coeffs, dofDrives: Coeffs,
                  dofType: string) returns (dof: DegreeOfFreedom, probes': seq<string>, drives': seq<string>)
    requires IsDict(dofProbes) && IsDict(dofDrives)
    ensures dof.name == name && dof.probes == dofProbes && dof.dofType == dofType
    ensures Renamed(dofDrives, Keys(dofDrives), dofType) == Ok(dof.drives) && IsDict(dof.drives)
    ensures probes' == Appended(probes, Keys(dof.probes)) && drives' == Appended(drives, Keys(dof.drives))
  {
    dof := NewDegreeOfFreedom(name, dofProbes, dofDrives, dofType);
    probes' := AppendStrIfUnique(probes, Names(Keys(dof.probes)));
    drives' := AppendStrIfUnique(drives, Names(Keys(dof.drives)));
  }

  /** A DOF with a new name, added to the registry as `addDOF` does, keeps it consistent. */
  lemma AddDofFits(dofs: seq<DegreeOfFreedom>, probes: seq<string>, drives: seq<string>, dof: DegreeOfFreedom)
    requires Distinct(DofNames(dofs)) && RegistryFits(dofs, probes, drives)
    requires dof.name !in DofNames(dofs) && IsDict(dof.probes) && IsDict(dof.drives)
    ensures Distinct(DofNames(dofs + [dof]))
    ensures RegistryFits(dofs + [dof], Appended(probes, Keys(dof.probes)), Appended(drives, Keys(dof.drives)))
  {
    var dofs' := dofs + [dof];
    assert DofNames(dofs') == DofNames(dofs) + [dof.name];
    assert ProbeMaps(dofs') == ProbeMaps(dofs) + [dof.probes];
    assert DriveMaps(dofs') == DriveMaps(dofs) + [dof.drives];
    RegisteredAppend(ProbeMaps(dofs), probes, dof.probes);
    RegisteredAppend(DriveMaps(dofs), drives, dof.drives);
  }

  /** `_computePlant`: without an optical model there is no `_ff` to read. */
  function PlantStage(opt: Option<Plant>, probes: seq<string>, drives: seq<string>): Result<Tensor>
  {
    match opt
    case None => Err(AttributeError)
    case Some(o) => PlantTensor(o, probes, drives)
  }

  /** `_computeCompensator` / `_computeResponse`; without a plant, `len(None)` is a TypeError. */
  function DiagonalStage(ss: Option<seq<Complex>>, drives: seq<string>, filts: seq<(string, Filter)>): Result<Tensor>
  {
    match ss
    case None => Err(TypeError)
    case Some(s) => DiagonalTensor(drives, filts, s)
  }

  /**
   * The six arrays of the loop as `tickle` computes them from a registry and
   * plant, or None when a stage raises. They always have the shapes the loop
   * products need.
   */
  ghost function StagedArrays(dofs: seq<DegreeOfFreedom>, probes: seq<string>, drives: seq<string>,
                              filters: seq<(string, string, Filter)>, compFilts: seq<(string, Filter)>,
                              respFilts: seq<(string, Filter)>, opt: Option<Plant>, ss: Option<seq<Complex>>)
    : (x: Option<LoopArrays>)
    requires RegistryFits(dofs, probes, drives)
    requires opt.None? <==> ss.None?
    requires opt.Some? ==> ss.value == Laplace(opt.value.ff)
    ensures x.Some? ==> x.value.Conformable()
    ensures x.Some? ==> x.value.NDof() == |dofs| && x.value.NDrives() == |drives| && x.value.NProbes() == |probes|
  {
    RegistryMatrices(dofs, probes, drives);
    var P := PlantStage(opt, probes, drives);
    var C := ControllerTensor(DofNames(dofs), filters, ss);
    var K := DiagonalStage(ss, drives, compFilts);
    var M := DiagonalStage(ss, drives, respFilts);
    if P.Ok? && C.Ok? && K.Ok? && M.Ok? then
      Some(LoopArrays(InputMatrix(dofs, probes).value, P.value, M.value, K.value,
                      OutputMatrix(dofs, drives).value, C.value))
    else None
  }

  /**
   * The stages of `tickle` on a registry and plant, in order, up to the
   * first that raises: S and A, P, C, K, M, then the open loops of the five
   * injection points and their closed loops. Outputs of stages not reached
   * keep a placeholder that no caller reads: C, K and M start as the plant
   * stage's result, the open loops as the empty map and the closed loops as
   * an error; `ControlSystem.Tickle` assigns an output only when its stage
   * was reached, as the source assigns each array only after computing it.
   */
  method Assemble(dofs: seq<DegreeOfFreedom>, probes: seq<string>, drives: seq<string>,
                  filters: seq<(string, string, Filter)>, compFilts: seq<(string, Filter)>,
                  respFilts: seq<(string, Filter)>, opt: Option<Plant>, ss: Option<seq<Complex>>,
                  inverse: Matrix -> Option<Matrix>)
    returns (s: seq<seq<real>>, a: seq<seq<real>>, p: Result<Tensor>, c: Result<Tensor>, k: Result<Tensor>,
             m: Result<Tensor>, om: map<string, Tensor>, cm: Result<map<string, Tensor>>)
    requires RegistryFits(dofs, probes, drives)
    requires opt.None? <==> ss.None?
    requires opt.Some? ==> ss.value == Laplace(opt.value.ff)
    ensures InputMatrix(dofs, probes) == Ok(s) && OutputMatrix(dofs, drives) == Ok(a)
    ensures p == PlantStage(opt, probes, drives)
    ensures p.Ok? ==> c == ControllerTensor(DofNames(dofs), filters, ss)
    ensures p.Ok? && c.Ok? ==> k == DiagonalStage(ss, drives, compFilts)
    ensures p.Ok? && c.Ok? && k.Ok? ==> m == DiagonalStage(ss, drives, respFilts)
    ensures var x := StagedArrays(dofs, probes, drives, filters, compFilts, respFilts, opt, ss);
      x.Some? ==> om == OltfMap(x.value) && LoopMap(om) && cm == CltfMap(om, inverse)
  {
    RegistryMatrices(dofs, probes, drives);
    var sr := ComputeInputMatrix(dofs, probes);
    var ar := ComputeOutputMatrix(dofs, drives);
    s, a := sr.value, ar.value;
    om, cm := map[], Err(LinAlgError);
    p := ComputePlant(opt, probes, drives);
    c, k, m := p, p, p;
    if p.Err? {
      return;
    }
    c := ComputeController(DofNames(dofs), filters, ss);
    if c.Err? {
      return;
    }
    k := ComputeDiagonal(drives, compFilts, ss.value);
    if k.Err? {
      return;
    }
    m := ComputeDiagonal(drives, respFilts, ss.value);
    if m.Err? {
      return;
    }
    var x := LoopArrays(s, p.value, m.value, k.value, a, c.value);
    assert Some(x) == StagedArrays(dofs, probes, drives, filters, compFilts, respFilts, opt, ss);
    om := map sig | sig in SignalNames :: Oltf(sig, x).value;
    OltfMapIsLoopMap(x);
    cm := ComputeCltfMap(om, inverse);
  }

  // ---------------------------------------------------------------------
  // The control system

  class ControlSystem {
    var opt: Option<Plant>
    var ss: Option<seq<Complex>>
    var dofs: seq<DegreeOfFreedom>
    var filters: seq<(string, string, Filter)>
    var probes: seq<string>
    var drives: seq<string>
    var respFilts: seq<(string, Filter)>
    var compFilts: seq<(string, Filter)>
    var plant: Option<Tensor>
    var ctrlMat: Option<Tensor>
    var oltf: Option<map<string, Tensor>>
    var cltf: Option<map<string, Tensor>>
    var inMat: Option<seq<seq<real>>>
    var outMat: Option<seq<seq<real>>>
    var compMat: Option<Tensor>
    var respMat: Option<Tensor>

    /**
     * DOF names, probes and drives are distinct; the probe and drive lists
     * hold exactly the names the DOFs use; the Laplace variable is set with
     * the plant; compensator and response keys are distinct.
     */
    ghost predicate Valid()
      reads this
    {
      && Distinct(DofNames(dofs))
      && RegistryFits(dofs, probes, drives)
      && (opt.None? <==> ss.None?)
      && (opt.Some? ==> ss.value == Laplace(opt.value.ff))
      && Distinct(FilterKeys(compFilts)) && Distinct(FilterKeys(respFilts))
    }

    /** The registry: what the `add...` calls build. */
    twostate predicate RegistryUnchanged()
      reads this
    {
      && dofs == old(dofs) && probes == old(probes) && drives == old(drives)
      && filters == old(filters) && compFilts == old(compFilts) && respFilts == old(respFilts)
    }

    /** What `tickle` computes. */
    twostate predicate ArraysUnchanged()
      reads this
    {
      && inMat == old(inMat) && outMat == old(outMat) && plant == old(plant) && ctrlMat == old(ctrlMat)
      && compMat == old(compMat) && respMat == old(respMat) && oltf == old(oltf) && cltf == old(cltf)
    }

    constructor ()
      ensures Valid()
      ensures opt.None? && ss.None? && dofs == [] && filters == [] && probes == [] && drives == []
      ensures respFilts == [] && compFilts == []
      ensures plant.None? && ctrlMat.None? && oltf.None? && cltf.None?
      ensures inMat.None? && outMat.None? && compMat.None? && respMat.None?
    {
      opt := None;
      ss := None;
      dofs := [];
      filters := [];
      probes := [];
      drives := [];
      respFilts := [];
      compFilts := [];
      plant := None;
      ctrlMat := None;
      oltf := None;
      cltf := None;
      inMat := None;
      outMat := None;
      compMat := None;
      respMat := None;
    }

    /** `setPyTicklePlant`: the plant can be set once; s = 2 pi i f on its frequency axis. */
    method SetPlant(p: Plant) returns (r: Outcome)
      requires Valid()
      modifies this
      ensures Valid()
      ensures old(opt).Some? ==> r == Fail(ValueError) && unchanged(this)
      ensures old(opt).None? ==> r == Pass && opt == Some(p) && ss == Some(Laplace(p.ff))
      ensures RegistryUnchanged() && ArraysUnchanged()
    {
      if opt.Some? {
        return Fail(ValueError);
      }
      opt := Some(p);
      ss := Some(Laplace(p.ff));
      r := Pass;
    }

    /**
     * `addDOF`: a name already in use is a ValueError and changes nothing;
     * otherwise the new DOF (drive keys renamed to `key.dofType`) is
     * appended, and its probes and drives are added to the lists unless
     * already there.
     */
    method AddDof(name: string, dofProbes: Coeffs, dofDrives: Coeffs, dofType: string) returns (r: Outcome)
      requires Valid() && IsDict(dofProbes) && IsDict(dofDrives)
      modifies this
      ensures Valid()
      ensures r == (if name in old(DofNames(dofs)) then Fail(ValueError) else Pass)
      ensures r.Fail? ==> unchanged(this)
      ensures r.Pass? ==> |dofs| == |old(dofs)| + 1 && dofs[..|old(dofs)|] == old(dofs)
      ensures r.Pass? ==> var dof := dofs[|old(dofs)|];
        && dof.name == name && dof.probes == dofProbes && dof.dofType == dofType
        && Renamed(dofDrives, Keys(dofDrives), dofType) == Ok(dof.drives)
        && probes == Appended(old(probes), Keys(dofProbes))
        && drives == Appended(old(drives), Keys(dof.drives))
      ensures r.Pass? ==> filters == old(filters) && compFilts == old(compFilts) && respFilts == old(respFilts)
      ensures opt == old(opt) && ss == old(ss) && ArraysUnchanged()
    {
      if name in DofNames(dofs) {
        return Fail(ValueError);
      }
      var dof, probes', drives' := NewEntry(probes, drives, name, dofProbes, dofDrives, dofType);
      Install(dof, probes', drives');
      r := Pass;
    }

    /** The assignments of `addDOF`: the DOF goes last, the name lists are replaced. */
    method Install(dof: DegreeOfFreedom, probes': seq<string>, drives': seq<string>)
      requires Valid() && dof.name !in DofNames(dofs) && IsDict(dof.probes) && IsDict(dof.drives)
      requires probes' == Appended(probes, Keys(dof.probes)) && drives' == Appended(drives, Keys(dof.drives))
      modifies this
      ensures Valid()
      ensures dofs == old(dofs) + [dof] && probes == probes' && drives == drives'
      ensures filters == old(filters) && compFilts == old(compFilts) && respFilts == old(respFilts)
      ensures opt == old(opt) && ss == old(ss) && ArraysUnchanged()
    {
      AddDofFits(dofs, probes, drives, dof);
      dofs, probes, drives := dofs + [dof], probes', drives';
    }

    /** `addFilter`: appends the (to, from, filter) link; a filter the constructor refuses changes nothing. */
    method AddFilter(dofTo: string, dofFrom: string, args: seq<Value>, modulus: Complex -> real) returns (r: Outcome)
      requires Valid()
      modifies this
      ensures Valid()
      ensures r.Fail? <==> FilterFromArgs(args, modulus).Err?
      ensures r.Fail? ==> r.error == FilterFromArgs(args, modulus).error && unchanged(this)
      ensures r.Pass? ==> filters == old(filters) + [(dofTo, dofFrom, FilterFromArgs(args, modulus).value)]
      ensures r.Pass? ==> dofs == old(dofs) && probes == old(probes) && drives == old(drives)
      ensures r.Pass? ==> compFilts == old(compFilts) && respFilts == old(respFilts)
      ensures opt == old(opt) && ss == old(ss) && ArraysUnchanged()
    {
      var f := FilterFromArgs(args, modulus);
      if f.Err? {
        return Fail(f.error);
      }
      filters := filters + [(dofTo, dofFrom, f.value)];
      r := Pass;
    }

    /** `addCompensator`: at most one compensator per `drive.driveType`. */
    method AddCompensator(drive: string, driveType: string, args: seq<Value>, modulus: Complex -> real)
      returns (r: Outcome)
      requires Valid()
      modifies this
      ensures Valid()
      ensures r.Fail? <==> Register(old(compFilts), drive, driveType, args, modulus).Err?
      ensures r.Fail? ==> r.error == Register(old(compFilts), drive, driveType, args, modulus).error && unchanged(this)
      ensures r.Pass? ==> compFilts == Register(old(compFilts), drive, driveType, args, modulus).value
      ensures r.Pass? ==> dofs == old(dofs) && probes == old(probes) && drives == old(drives)
      ensures r.Pass? ==> filters == old(filters) && respFilts == old(respFilts)
      ensures opt == old(opt) && ss == old(ss) && ArraysUnchanged()
    {
      var filts := Register(compFilts, drive, driveType, args, modulus);
      if filts.Err? {
        return Fail(filts.error);
      }
      compFilts := filts.value;
      r := Pass;
    }

    /** `setResponse`: at most one actuator response per `drive.driveType`. */
    method SetResponse(drive: string, driveType: string, args: seq<Value>, modulus: Complex -> real)
      returns (r: Outcome)
      requires Valid()
      modifies this
      ensures Valid()
      ensures r.Fail? <==> Register(old(respFilts), drive, driveType, args, modulus).Err?
      ensures r.Fail? ==> r.error == Register(old(respFilts), drive, driveType, args, modulus).error && unchanged(this)
      ensures r.Pass? ==> respFilts == Register(old(respFilts), drive, driveType, args, modulus).value
      ensures r.Pass? ==> dofs == old(dofs) && probes == old(probes) && drives == old(drives)
      ensures r.Pass? ==> filters == old(filters) && compFilts == old(compFilts)
      ensures opt == old(opt) && ss == old(ss) && ArraysUnchanged()
    {
      var filts := Register(respFilts, drive, driveType, args, modulus);
      if filts.Err? {
        return Fail(filts.error);
      }
      respFilts := filts.value;
      r := Pass;
    }

    /** The six loop arrays the current registry and plant give, if every stage succeeds. */
    ghost function Staged(): (x: Option<LoopArrays>)
      reads this
      requires Valid()
      ensures x.Some? ==> x.value.Conformable()
    {
      StagedArrays(dofs, probes, drives, filters, compFilts, respFilts, opt, ss)
    }

    /** `tickle` leaves the arrays from the given stage on as they were. */
    twostate predicate KeptFrom(stage: nat)
      reads this
    {
      && (stage <= 0 ==> plant == old(plant))
      && (stage <= 1 ==> ctrlMat == old(ctrlMat))
      && (stage <= 2 ==> compMat == old(compMat))
      && (stage <= 3 ==> respMat == old(respMat))
      && (stage <= 4 ==> oltf == old(oltf))
      && cltf == old(cltf)
    }

    /** The first assignments of `tickle`: S and A, then P and C unless an earlier stage raised. */
    method CommitMatrices(s: seq<seq<real>>, a: seq<seq<real>>, p: Result<Tensor>, c: Result<Tensor>)
      modifies this
      ensures RegistryUnchanged() && opt == old(opt) && ss == old(ss)
      ensures inMat == Some(s) && outMat == Some(a)
      ensures plant == (if p.Ok? then Some(p.value) else old(plant))
      ensures ctrlMat == (if p.Ok? && c.Ok? then Some(c.value) else old(ctrlMat))
      ensures compMat == old(compMat) && respMat == old(respMat) && oltf == old(oltf) && cltf == old(cltf)
    {
      inMat, outMat := Some(s), Some(a);
      if p.Ok? {
        plant := Some(p.value);
        if c.Ok? {
          ctrlMat := Some(c.value);
        }
      }
    }

    /** The last assignments of `tickle`: K, M, the open loops and the closed loops, once the earlier stages passed. */
    method CommitLoops(k: Result<Tensor>, m: Result<Tensor>, om: map<string, Tensor>, cm: Result<map<string, Tensor>>)
      modifies this
      ensures RegistryUnchanged() && opt == old(opt) && ss == old(ss)
      ensures inMat == old(inMat) && outMat == old(outMat) && plant == old(plant) && ctrlMat == old(ctrlMat)
      ensures compMat == (if k.Ok? then Some(k.value) else old(compMat))
      ensures respMat == (if k.Ok? && m.Ok? then Some(m.value) else old(respMat))
      ensures oltf == (if k.Ok? && m.Ok? then Some(om) else old(oltf))
      ensures cltf == (if k.Ok? && m.Ok? && cm.Ok? then Some(cm.value) else old(cltf))
    {
      if k.Ok? {
        compMat := Some(k.value);
        if m.Ok? {
          respMat, oltf := Some(m.value), Some(om);
          if cm.Ok? {
            cltf := Some(cm.value);
          }
        }
      }
    }

    /**
     * `tickle`: S and A, then P, C, K, M, the open loops and the closed
     * loops, each array assigned once computed; the first stage that raises
     * stops it and leaves that array and the later ones as they were. (The
     * stages are computed by `Assemble` and assigned in the same order,
     * which is the same final state since no stage reads what `tickle`
     * assigns.)
     */
    method Tickle(inverse: Matrix -> Option<Matrix>) returns (r: Outcome)
      requires Valid()
      modifies this
      ensures Valid() && RegistryUnchanged() && opt == old(opt) && ss == old(ss)
      ensures InputMatrix(dofs, probes).Ok? && OutputMatrix(dofs, drives).Ok?
      ensures inMat == Some(InputMatrix(dofs, probes).value) && outMat == Some(OutputMatrix(dofs, drives).value)
      ensures var P := PlantStage(opt, probes, drives);
        P.Err? ==> r == Fail(P.error) && KeptFrom(0)
      ensures var P, C := PlantStage(opt, probes, drives), ControllerTensor(DofNames(dofs), filters, ss);
        P.Ok? ==> plant == Some(P.value) && (C.Err? ==> r == Fail(C.error) && KeptFrom(1))
      ensures var P, C, K := PlantStage(opt, probes, drives), ControllerTensor(DofNames(dofs), filters, ss),
          DiagonalStage(ss, drives, compFilts);
        P.Ok? && C.Ok? ==> ctrlMat == Some(C.value) && (K.Err? ==> r == Fail(K.error) && KeptFrom(2))
      ensures var P, C, K, M := PlantStage(opt, probes, drives), ControllerTensor(DofNames(dofs), filters, ss),
          DiagonalStage(ss, drives, compFilts), DiagonalStage(ss, drives, respFilts);
        P.Ok? && C.Ok? && K.Ok? ==>
          && compMat == Some(K.value)
          && (M.Err? ==> r == Fail(M.error) && KeptFrom(3))
          && (M.Ok? ==> respMat == Some(M.value))
      ensures Staged().Some? ==> oltf == Some(OltfMap(Staged().value)) && LoopMap(oltf.value)
      ensures Staged().Some? && CltfMap(oltf.value, inverse).Err? ==> r == Fail(LinAlgError) && KeptFrom(5)
      ensures Staged().Some? && CltfMap(oltf.value, inverse).Ok? ==> r == Pass && cltf == Some(CltfMap(oltf.value, inverse).value)
    {
      var s, a, p, c, k, m, om, cm := Assemble(dofs, probes, drives, filters, compFilts, respFilts, opt, ss, inverse);
      CommitMatrices(s, a, p, c);
      if p.Err? || c.Err? {
        return Fail(if p.Err? then p.error else c.error);
      }
      CommitLoops(k, m, om, cm);
      r := if k.Err? then Fail(k.error) else if m.Err? then Fail(m.error) else if cm.Err? then Fail(cm.error) else Pass;
    }
  }
}
