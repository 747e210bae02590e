# pytickle control-system model

A Dafny model of the control-system layer of pytickle and of its Finesse
frequency-response reader.

`ControlSystem` keeps a registry:
- degrees of freedom (DOFs), each a named pair of coefficient maps: probes to DOF, DOF to drives;
- the ordered lists of probe and drive names those maps use;
- controller filters between DOFs;
- per-drive compensator and actuator-response filters;
- an optical plant, whose frequency axis fixes the Laplace variable s = 2 pi i f.

`tickle` turns the registry into arrays over the frequency axis:
- S, the sensing matrix, real, (DOF, probe);
- A, the actuation matrix, real, (drive, DOF);
- P, the plant, (probe, drive, f);
- C, the controller, (DOF, DOF, f);
- K and M, the diagonal compensator and response arrays, (drive, drive, f);
- the open-loop arrays of the five injection points (err, ctrl, comp, drive, sens);
- their closed loops (I - L)^-1.

`KatFR` records a simulator's probe responses, one swept drive at a time. `getTF` reads them back as the bilinear sum Σ pc · dc · response[probe][drive].

Modules, one per concept:

| file | module | what it holds |
|---|---|---|
| `outcomes.dfy` | `Outcomes` | `Option`, `Result`, `Outcome`, and the Python exception kinds |
| `complex.dfy` | `Complex` | exact complex numbers over `real`, and the field laws used |
| `linalg.dfy` | `LinearAlgebra` | sums, matrices, products, traces and chains of products: associativity, the trace of a rotated chain, uniqueness of inverses |
| `names.dfy` | `Names` | `list.index`; `append_str_if_unique`; Python dicts as ordered key/value lists; splitting a drive name at its dots |
| `filters.dfy` | `Filters` | `assertArr`, `catzp`, `zpk`, `catfilt`, the `Filter` constructor, `computeFilter` |
| `dofs.dfy` | `Dofs` | the `DegreeOfFreedom` constructor, `probes2dof` and `dofs2drives` |
| `tensors.dfy` | `Tensors` | (rows, cols, nff) arrays and their frequency slices |
| `sensing.dfy` | `Sensing` | `_computeInputMatrix`, `_computeOutputMatrix` |
| `plant.dfy` | `Plants` | `_computePlant` against an abstract optical model |
| `controller.dfy` | `Controllers` | `_computeController`, `_computeCompensator`, `_computeResponse` |
| `loops.dfy` | `Loops` | `_computeOLTF`, `_computeCLTF` |
| `controls.dfy` | `Controls` | the `ControlSystem` class, `getFilter`, `getOLTF`/`getCLTF`, `_getIndex`, and the staging of `tickle` |
| `finesse.dfy` | `Finesse` | the `KatFR` class: `__init__`, `tickle` with the simulator as a parameter, `getTF` |

How the source's objects are represented:
- Numbers are exact.
- Complex values are pairs of `real`. Arrays are sequences in the source's index order `[row][col][freq]`.
- A Python exception is an `Err` (or `Fail`) naming its kind. A numpy `inf`/`nan` from a division by zero is the error `NonFinite`.
- Imperative code is modelled as methods with loops, proved equal to a specifying function:
  - `append_str_if_unique`;
  - the key-renaming loop of `DegreeOfFreedom`;
  - the fill loops of every `_compute*`;
  - the per-bin inverse loop;
  - the accumulation in `KatFR.getTF`.
- The two classes are Dafny classes whose methods update their fields: `ControlSystem.addDOF/addFilter/...` and `KatFR.tickle`.

## Model

| member | source | states |
|---|---|---|
| `Names.IndexOf` | pytickle/controls.py:146 | `list.index`: None (ValueError) iff the name is absent; otherwise the position of its first occurrence |
| `Names.IndexOfAppend` | pytickle/controls.py:295-296 | appending names never moves a name already in the list |
| `Names.IndexOfDistinct` | pytickle/controls.py:361-362 | in a list without repeats, the index of the i-th name is i |
| `Names.AppendedSpec` | pytickle/controls.py:11-25 | the old list is an unchanged prefix; the result holds exactly the old names and the elements; it stays repeat-free; new names come after it in first-occurrence order |
| `Names.AppendStrIfUnique` | pytickle/controls.py:11-25 | the append loop computes `Appended`; the prefix, membership and no-repeat properties hold |
| `Names.Get` | pytickle/controls.py:145 | a key lookup succeeds iff the key is present, and gives the value stored with it |
| `Names.Remove` | pytickle/controls.py:139 | `pop` removes exactly the key and nothing else |
| `Names.Put` | pytickle/controls.py:139 | assignment adds the key and keeps every other key |
| `Names.RemoveIsDict` | pytickle/controls.py:139 | removal keeps keys unique, makes the key absent, and leaves every other lookup unchanged |
| `Names.PutIsDict` | pytickle/controls.py:139 | assignment keeps keys unique, makes the key map to the value, and leaves every other lookup unchanged |
| `Names.PutAbsent` | pytickle/controls.py:139 | assigning an absent key appends it at the end (insertion order) |
| `Names.FirstSegmentJoin` | pytickle/controls.py:312-314 | `(k + '.' + t).split('.')[0]` is k for a dot-free k |
| `Names.LastSegmentJoin` | pytickle/controls.py:312-315 | `(k + '.' + t).split('.')[-1]` is t for a dot-free t |
| `Filters.AssertArr` | pytickle/controls.py:28-38 | a number becomes `[x]`; a list, array or tuple its items; anything else is ValueError |
| `Filters.ConcatenatedOk` | pytickle/controls.py:103-106 | `catzp`'s result (`Filters.Concatenated`) fails, with ValueError, exactly when some argument is not numeric |
| `Filters.ConcatenatedAppend` | pytickle/controls.py:103-106 | concatenating argument lists concatenates the results |
| `Filters.CatZp` | pytickle/controls.py:90-106 | the extend loop computes the concatenation, and succeeds iff every argument passes `assertArr` |
| `Filters.ProdDiffNonZero` | pytickle/controls.py:64-65 | Π(s - p) is nonzero when s is not a root |
| `Filters.ZpkAt` | pytickle/controls.py:56-67 | non-finite exactly at a pole; otherwise value · Π(s - p) == k · Π(s - z) |
| `Filters.ZpkAtConstant` | pytickle/controls.py:56-67 | no zeros and no poles give the constant k |
| `Filters.ZpkAtLinear` | pytickle/controls.py:56-67 | zpk(zs, ps, k) == k · zpk(zs, ps, 1) |
| `Filters.Zpk` | pytickle/controls.py:41-67 | a gain that is not a number, or roots that are not numeric, is ValueError; otherwise the result is `ZpkAt` |
| `Filters.MulAll` | pytickle/controls.py:121-124 | the product succeeds iff every factor does |
| `Filters.EvalAtError` | pytickle/controls.py:120-124 | the value of a filter at s (`Filters.EvalAt`: the callable's value, zpk, or the product of the parts) can fail only as a non-finite value |
| `Filters.Evaluate` | pytickle/controls.py:56-62 | element-wise evaluation: same length, entry i is the value at `ss[i]`, fails iff some entry does |
| `Filters.Laplace` | pytickle/controls.py:220 | s = 2 pi i f, entry by entry |
| `Filters.ComputeFilter` | pytickle/controls.py:219-221 | `computeFilter(ff)`: entry i is the filter's value at 2 pi i `ff[i]` |
| `Filters.MulAllAppend` | pytickle/controls.py:121-124 | the running product over two runs of factors is the product of the two runs' products, and fails iff either run fails |
| `Filters.CatFiltEmpty` | pytickle/controls.py:120-126 | `catfilt()` with no filters is the constant 1 |
| `Filters.CatFiltAppend` | pytickle/controls.py:120-126 | `catfilt` (`Filters.CatFilt`) of two lists of filters joined is defined iff the catfilt of each list is, and its value is then the product of the two |
| `Filters.CatFiltPair` | pytickle/controls.py:120-126 | catfilt of two filters: defined iff both are, and then their product |
| `Filters.CatFiltSingle` | pytickle/controls.py:120-126 | catfilt of one filter behaves as that filter |
| `Filters.ScaledRoots` | pytickle/controls.py:190-191 | `a * np.array(arg)`: each root scaled by a; non-numeric input is TypeError |
| `Filters.ReferencePoint` | pytickle/controls.py:202-205 | `abs(a) * 1j * f0` is a scalar exactly for a number argument; non-numeric input is TypeError |
| `Filters.MakeFilter` | pytickle/controls.py:175-217 | dispatch on argument count 1, 3 or 4, any other count ValueError; the 1-, 3- and 4-argument results, including the gain normalised by the modulus at s0; non-numeric roots or f0 are TypeError, a gain or f0 that is not a scalar ValueError; four arguments succeed iff they pass these checks, s0 is not a pole and the unit-gain modulus at s0 is nonzero |
| `Filters.RootScale` | pytickle/controls.py:176-182 | the root scale is nonzero, negative (-2 pi, roots in Hz) unless `Hz=False` |
| `Filters.ReferenceIsLaplace` | pytickle/controls.py:176-202 | with roots in Hz, the reference point of f0 is the Laplace variable 2 pi i f0 at which the filter is evaluated for f0 |
| `Filters.NormalisedGain` | pytickle/controls.py:207-208 | the normalised filter at s0, times m, is g times the unit-gain value there |
| `Filters.NormalisedModulus` | pytickle/controls.py:207-208 | when m is the modulus of the unit-gain value at s0, the normalised filter's modulus at s0 is that of g |
| `Dofs.RenamedPrefix` | pytickle/controls.py:137-139 | during the rename loop every later key of the snapshot is still present, so `pop` never raises |
| `Dofs.RenamedOk` | pytickle/controls.py:137-139 | the rename loop (`Dofs.Renamed`, one `pop` and re-insert per key in `Dofs.RenameStep`) never raises KeyError and leaves a proper dict |
| `Dofs.Suffixed` | pytickle/controls.py:138 | every key k becomes `k.t` with the same coefficient and position |
| `Dofs.SuffixInjective` | pytickle/controls.py:138 | distinct keys get distinct new names |
| `Dofs.RenamedNoCollisionPrefix` | pytickle/controls.py:137-139 | after n passes the dict is the keys still to rename followed by the renamed ones |
| `Dofs.RenameOneMore` | pytickle/controls.py:139 | one pass of pop-and-reinsert moves one key to the end, renamed |
| `Dofs.RenamedNoCollision` | pytickle/controls.py:130-139 | without collisions every drive k becomes `k.dofType`, with its coefficient and order kept |
| `Dofs.RenameCollision` | pytickle/controls.py:137-139 | with a collision the loop renames a key twice: {EX: 1, EX.pos: 2} ends as {EX.pos.pos: 1} |
| `Dofs.NewDegreeOfFreedom` | pytickle/controls.py:130-139 | the constructor keeps the name, type and probe map; the drive map is the rename loop's result, and it is `Suffixed` when there is no collision |
| `Dofs.Scatter` | pytickle/controls.py:144-147 | the filled vector has the list's length; its only error is ValueError |
| `Dofs.ScatterSpec` | pytickle/controls.py:141-157 | ValueError iff some key is missing from the list; otherwise entry i is the coefficient of a key whose first index is i, and zero elsewhere |
| `Dofs.VectorEntryDistinct` | pytickle/controls.py:141-157 | over a repeat-free list, entry i is the coefficient of `names[i]`, or zero |
| `Dofs.ScatterErrExtends` | pytickle/controls.py:145-147 | a failure on a prefix of the dict is the failure of the whole loop |
| `Dofs.ToVector` | pytickle/controls.py:141-157 | `probes2dof`/`dofs2drives`: the fill loop computes `Scatter` |
| `Tensors.SliceFromSlices` | pytickle/controls.py:440-443 | filling an array bin by bin and slicing it gives the bins back |
| `Sensing.Rows` | pytickle/controls.py:333-334 | one row per map, each of the list's length; the only error is ValueError |
| `Sensing.RowsSpec` | pytickle/controls.py:333-334 | the rows fail iff some map's vector does; otherwise row d is map d's vector |
| `Sensing.RowsErrExtends` | pytickle/controls.py:333-334 | a failure on a prefix of the DOFs is the failure of the whole loop |
| `Sensing.InputMatrix` | pytickle/controls.py:324-335 | the sensing matrix has shape (nDOF, nProbes) |
| `Sensing.OutputMatrix` | pytickle/controls.py:337-348 | the actuation matrix has shape (nDrives, nDOF) |
| `Sensing.InputMatrixSpec` | pytickle/controls.py:324-335 | ValueError iff some DOF senses an unlisted probe; otherwise S[d][p] is DOF d's coefficient for probe p, or zero |
| `Sensing.OutputMatrixSpec` | pytickle/controls.py:337-348 | ValueError iff some DOF uses an unlisted drive; otherwise A[k][d] is DOF d's coefficient for drive k, or zero (the per-DOF vectors are written as columns, `Sensing.Transpose`) |
| `Sensing.ComputeInputMatrix` | pytickle/controls.py:324-335 | the row-filling loop computes `InputMatrix` |
| `Sensing.FillColumn` | pytickle/controls.py:347 | `act[:, d] = v` changes column d to v and nothing else |
| `Sensing.PushColumn` | pytickle/controls.py:345-347 | filling the next column keeps the picture: the columns filled so far hold the DOF vectors in order, the rest are still zero |
| `Sensing.ComputeOutputMatrix` | pytickle/controls.py:337-348 | the column-filling loop over a zero array computes `OutputMatrix` |
| `Plants.Broadcast` | pytickle/controls.py:321 | storing a response: a full row, or one value repeated; any other length is ValueError |
| `Plants.PlantValue` | pytickle/controls.py:321 | the stored row has the axis length |
| `Plants.PlantTensor` | pytickle/controls.py:298-322 | P exists iff every response fits the axis (otherwise ValueError), with shape (nProbes, nDrives, nff) |
| `Plants.PlantOfDrive` | pytickle/controls.py:310-321 | for a drive `optic.type`, P[p][d] (`Plants.PlantEntry`) is the model's response of probe p to that optic and type, broadcast over the axis |
| `Plants.ComputePlant` | pytickle/controls.py:298-322 | the pair-by-pair fill computes `PlantTensor`; with no model it is AttributeError |
| `Controllers.ZeroCube` | pytickle/controls.py:359 | the zero array has the controller's shape |
| `Controllers.ControllerFold` | pytickle/controls.py:360-363 | the fill over registered filters keeps the (nDOF, nDOF, nff) shape |
| `Controllers.ControllerTensor` | pytickle/controls.py:350-364 | C is (nDOF, nDOF, nff) and exists only with a plant (otherwise RuntimeError) |
| `Controllers.LastMatch` | pytickle/controls.py:360-363 | the last filter registered for a (to, from) pair, or none |
| `Controllers.ControllerFoldOk` | pytickle/controls.py:360-363 | the loop succeeds iff every filter names known DOFs and has a finite response; otherwise it reports the first failure |
| `Controllers.ControllerFoldEntries` | pytickle/controls.py:358-363 | C is zero except at registered pairs, where it holds the last such filter's response |
| `Controllers.ControllerStepCell` | pytickle/controls.py:363 | one more filter changes only its own cell |
| `Controllers.ControllerErrExtends` | pytickle/controls.py:360-363 | a failure on a prefix of the filters is the failure of the whole loop |
| `Controllers.ComputeController` | pytickle/controls.py:350-364 | the fill loop computes `ControllerTensor` |
| `Controllers.DiagonalEntry` | pytickle/controls.py:373-377 | the diagonal entry has the axis length |
| `Controllers.DiagonalValue` | pytickle/controls.py:373-377 | the stored diagonal row has the axis length |
| `Controllers.DiagonalTensor` | pytickle/controls.py:366-392 | K and M exist iff every diagonal entry is finite, with shape (nDrives, nDrives, nff) |
| `Controllers.DiagonalSpec` | pytickle/controls.py:366-392 | zero off the diagonal (rows built by `Controllers.DiagonalRow`); ones (`Tensors.Ones`) for a drive whose key is not among the registered keys (`Controllers.FilterKeys`); the first registered filter's response otherwise |
| `Controllers.DiagonalDefault` | pytickle/controls.py:369-377 | with no filters registered, every bin is the identity |
| `Controllers.ComputeDiagonal` | pytickle/controls.py:366-392 | the try/except fill loop computes `DiagonalTensor` |
| `Loops.ParseSignal` | pytickle/controls.py:402-403 | a signal outside the five names is ValueError |
| `Loops.ParseSignalName` | pytickle/controls.py:252 | each of the five injection points is recognised by its name |
| `Loops.Factors` | pytickle/controls.py:405-428 | each injection point's six operands at bin f form a closed chain of products |
| `Loops.FactorsRotate` | pytickle/controls.py:405-428 | the five operand lists are cyclic rotations of S P M K A C |
| `Loops.LoopBin` | pytickle/controls.py:405-428 | each loop bin is square, of the size of its injection point |
| `Loops.LoopBins` | pytickle/controls.py:405-428 | one loop matrix per bin, all of the same shape |
| `Loops.Oltf` | pytickle/controls.py:394-430 | `_computeOLTF`: ValueError iff the signal is unknown; otherwise an (n, n, nff) array |
| `Loops.OltfBin` | pytickle/controls.py:405-428 | bin f of each open loop is the product of its operands, in the listed order; a real matrix enters as the complex matrix with the same entries (`Tensors.Lift`), a tensor through its bin f (`Tensors.Slice`, `t[:, :, f]`) |
| `Loops.OltfErr` | pytickle/controls.py:405-408 | at the error point, bin f is S P M K A C |
| `Loops.OltfTrace` | pytickle/controls.py:405-428 | every injection point's open loop has the error point's trace, bin by bin |
| `Loops.OltfPushThrough` | pytickle/controls.py:405-413 | L_ctrl · C == C · L_err |
| `Loops.ImL` | pytickle/controls.py:443 | I - L is square, of the loop's size |
| `Loops.InverseOr` | pytickle/controls.py:443 | the inverse has the matrix's shape |
| `Loops.Cltf` | pytickle/controls.py:432-444 | the closed loop has the open loop's shape |
| `Loops.CltfSpec` | pytickle/controls.py:432-444 | with a sound inverse: it exists iff every bin's I - L is invertible (otherwise LinAlgError); each bin X satisfies X(I - L) == (I - L)X == I |
| `Loops.CltfUnique` | pytickle/controls.py:443 | the closed loop does not depend on which sound inverse routine computes it |
| `Loops.SlicesDetermine` | pytickle/controls.py:440-443 | an array is determined by its bins |
| `Loops.UnityLoopSingular` | pytickle/controls.py:443 | a one-DOF loop with L = 1 has no closed loop (LinAlgError) |
| `Loops.ComputeCltf` | pytickle/controls.py:440-444 | the per-bin inverse loop computes `Cltf` |
| `Controls.Register` | pytickle/controls.py:462-484 | a `drive.type` key already present is ValueError; otherwise the built filter is appended, and keys stay distinct |
| `Controls.RegisteredIsUsed` | pytickle/controls.py:372-377 | a filter registered for a drive is the one the diagonal array uses for it |
| `Controls.LinksAppend` | pytickle/controls.py:456-460 | a new link matches at its own position only |
| `Controls.Matches` | pytickle/controls.py:496-498 | the positions of the matching links, increasing |
| `Controls.FindFilter` | pytickle/controls.py:486-506 | `getFilter`: ValueError for no match and for several matches; otherwise the one matching filter |
| `Controls.FindAfterFirstAdd` | pytickle/controls.py:446-460 | after registering the first filter for a pair, `getFilter` returns it |
| `Controls.FindAfterSecondAdd` | pytickle/controls.py:503-504 | after a second filter for the same pair, `getFilter` refuses, while C holds the newer filter's response |
| `Controls.FindFilterCell` | pytickle/controls.py:360-363 | where `getFilter` finds a filter, C's cell for that pair is its response |
| `Controls.Lookup` | pytickle/controls.py:517-551 | `getOLTF`/`getCLTF`: TypeError before `tickle`, KeyError for an unknown signal, ValueError for an unknown DOF; otherwise the cell at the DOFs' positions |
| `Controls.LookupOltf` | pytickle/controls.py:517-533 | on the open loops, looking up the i-th and j-th DOF at an injection point whose loop has rows i and j gives, bin by bin, entry (i, j) of that point's loop product |
| `Controls.LookupSensPastProbes` | pytickle/controls.py:530-533 | at the sens point, a DOF index past the probe count is IndexError |
| `Controls.IndexFor` | pytickle/controls.py:845-852 | `_getIndex`: DOF order (`Controls.DofNames`, insertion order) for err, ctrl and cal, drive order for comp, drive, pos and spot, probe order for sens (the list chosen by `Controls.Axis`); a missing name is ValueError; an unknown kind leaves `ind` unbound |
| `Controls.IndexForDim` | pytickle/controls.py:845-852 | at each injection point a found index lies inside that point's loop matrix |
| `Controls.ClosedPrefixStep` | pytickle/controls.py:274-275 | one more injection point adds its closed loop |
| `Controls.ComputeCltfMap` | pytickle/controls.py:274-275 | the closed-loop comprehension computes `CltfMap` |
| `Controls.OltfMapIsLoopMap` | pytickle/controls.py:273 | `Controls.OltfMap`, the dict of open loops `tickle` stores: all five open loops exist and are square |
| `Controls.CltfMapSpec` | pytickle/controls.py:274-275 | the closed loops exist iff every I - L is invertible (otherwise LinAlgError); then every bin is the two-sided inverse |
| `Controls.RegisteredAppend` | pytickle/controls.py:295-296 | adding a map's keys through `append_str_if_unique` keeps the name list exactly the keys used |
| `Controls.RegistryMatrices` | pytickle/controls.py:324-348 | because `addDOF` registers every name it uses, S and A always exist |
| `Controls.NewEntry` | pytickle/controls.py:293-296 | builds the DOF and appends its probes and drives to the lists |
| `Controls.AddDofFits` | pytickle/controls.py:289-296 | adding a DOF with a new name keeps names distinct and the registry consistent |
| `Controls.StagedArrays` | pytickle/controls.py:266-273 | the staged arrays always have the shapes the loop products need |
| `Controls.Assemble` | pytickle/controls.py:266-275 | the stages of `tickle` in order up to the first that raises |
| `Controls.ControlSystem.constructor` | pytickle/controls.py:235-252 | an empty registry with no plant and no arrays |
| `Controls.ControlSystem.SetPlant` | pytickle/controls.py:254-264 | the plant can be set once (then ValueError, nothing changes); s = 2 pi i f on its axis |
| `Controls.ControlSystem.AddDof` | pytickle/controls.py:277-296 | an existing name is ValueError and changes nothing; otherwise the renamed DOF is appended and its names registered |
| `Controls.ControlSystem.Install` | pytickle/controls.py:294-296 | the DOF goes last and the name lists are replaced; the invariant holds |
| `Controls.FilterFromArgs` | pytickle/controls.py:454-460 | one argument is accepted iff it is a Filter (taken as is) or a callable; other counts go to the Filter constructor with roots in Hz |
| `Controls.ControlSystem.AddFilter` | pytickle/controls.py:446-460 | appends the link, or changes nothing if the Filter constructor raises |
| `Controls.ControlSystem.AddCompensator` | pytickle/controls.py:462-472 | at most one compensator per `drive.type`; a refusal changes nothing |
| `Controls.ControlSystem.SetResponse` | pytickle/controls.py:474-484 | at most one response per `drive.type`; a refusal changes nothing |
| `Controls.ControlSystem.Staged` | pytickle/controls.py:266-273 | the arrays the registry yields are conformable |
| `Controls.ControlSystem.CommitMatrices` | pytickle/controls.py:267-270 | S and A are assigned, then P and C if their stages passed |
| `Controls.ControlSystem.CommitLoops` | pytickle/controls.py:271-275 | K, M, the open loops and the closed loops are assigned once their stages passed |
| `Controls.ControlSystem.Tickle` | pytickle/controls.py:266-275 | each array is assigned in order; the first stage that raises reports its error and leaves the later arrays as they were; on success the closed loops are `CltfMap` of the open loops |
| `Finesse.Accumulate` | pytickle/finesse.py:60 | `tf += w * x`: a number accumulator is rebound; an array accumulator keeps its length and needs `x` to broadcast (otherwise ValueError); entry i is acc[i] + w · x[i] |
| `Finesse.SumDrives` | pytickle/finesse.py:58-60 | the inner loop raises only KeyError or ValueError, and keeps an array's length |
| `Finesse.SumProbes` | pytickle/finesse.py:57-60 | both loops raise only KeyError or ValueError, and keep an array's length |
| `Finesse.TransferFunction` | pytickle/finesse.py:41-62 | before any sweep (ff None) TypeError; errors are TypeError, KeyError or ValueError; along a swept axis the result has one entry per frequency |
| `Finesse.SumDrivesErr` | pytickle/finesse.py:58-60 | an exception on a prefix of the drives ends the inner loop with it |
| `Finesse.SumProbesErr` | pytickle/finesse.py:57-60 | an exception on a prefix of the probes ends both loops with it |
| `Finesse.AccumulateArray` | pytickle/finesse.py:60 | an array accumulator is updated bin by bin |
| `Finesse.SumDrivesStep` | pytickle/finesse.py:58-60 | one more drive adds its term to every bin |
| `Finesse.SumDrivesClosed` | pytickle/finesse.py:58-60 | the inner loop succeeds iff every pair is recorded (otherwise KeyError), and adds the drive sum to each bin |
| `Finesse.SumProbesClosed` | pytickle/finesse.py:57-60 | both loops succeed iff every pair is recorded (otherwise KeyError), and add the bilinear sum to each bin |
| `Finesse.TransferFunctionSwept` | pytickle/finesse.py:41-62 | along a swept axis: KeyError iff some selected pair was not recorded; otherwise entry f is Σ pc · dc · response[probe][drive][f] |
| `Finesse.SumProbesNoDrives` | pytickle/finesse.py:57-60 | with no drives the loops add nothing |
| `Finesse.Initial` | pytickle/finesse.py:42-47 | before any sweep TypeError; a number at a single frequency, an array with one entry per frequency along a swept axis; zero at every bin |
| `Finesse.NothingSelected` | pytickle/finesse.py:43-62 | with no probe or no drive selected, the result is 0 at a single frequency, or zeros along a swept axis |
| `Finesse.SingleNames` | pytickle/finesse.py:50-60 | a bare name becomes the one-entry dict `{name: 1}` (`Finesse.Entries`), so a bare probe and a bare drive select exactly the recorded response |
| `Finesse.WithSweepsSpec` | pytickle/finesse.py:37-38 | after the sweeps (`Finesse.WithSweeps`) each probe's response to a swept drive is the run's output at that detector; everything else is unchanged |
| `Finesse.SweepEntriesSnoc` | pytickle/finesse.py:37-38 | one more drive adds its entry to a probe's sweep entries |
| `Finesse.WithSweepsSnoc` | pytickle/finesse.py:18-38 | sweeping one more drive extends the record by that drive |
| `Finesse.RecordProbe` | pytickle/finesse.py:37-38 | storing one more probe's response extends the record by that probe |
| `Finesse.KatFR.RecordRun` | pytickle/finesse.py:37-38 | the loop over detectors for one run extends each probe's dict by that drive's output at the detector, and changes nothing else |
| `Finesse.WithNoSweeps` | pytickle/finesse.py:18 | no sweep leaves the record as it was |
| `Finesse.ReadBackAfterSweeps` | pytickle/finesse.py:36-62 | after the sweeps, with the last run's axis, a bare probe and drive read back exactly what the simulator returned |
| `Finesse.AddDrives` | pytickle/finesse.py:58-60 | the inner accumulation loop computes `SumDrives` |
| `Finesse.KatFR.constructor` | pytickle/finesse.py:10-15 | the probes are the detector names, each with an empty response dict; no axis |
| `Finesse.KatFR.Tickle` | pytickle/finesse.py:17-39 | no drives: UnboundLocalError; a detector not demodulated once or twice: ValueError; either way nothing is recorded; a drive that names no component: KeyError, with the drives before it recorded and ff unchanged; otherwise every probe gets every drive's run output and ff is the last run's axis |
| `Finesse.KnownPrefix` | pytickle/finesse.py:19-33 | the drives before the returned position all name components, and the drive at it, if any, does not |
| `Finesse.KatFR.GetTF` | pytickle/finesse.py:41-62 | the accumulation loops compute `TransferFunction` |
| `Complex.DivIsQuotient` | pytickle/controls.py:65 | the quotient computed componentwise times the divisor gives back the dividend |
| `Complex.Div` | pytickle/controls.py:65 | for a nonzero divisor b, the quotient q satisfies q · b == a |
| `Complex.DivUnique` | pytickle/controls.py:65 | the quotient is unique |
| `LinearAlgebra.MatMulAssoc` | pytickle/controls.py:406-428 | the matrix product is associative, so how `einsum` groups the six operands does not matter |
| `LinearAlgebra.ChainSplit` | pytickle/controls.py:406-428 | a chain of products splits at any point into the product of its two halves |
| `LinearAlgebra.TraceCommutes` | pytickle/controls.py:406-428 | tr(XY) == tr(YX) |
| `LinearAlgebra.RotateTrace` | pytickle/controls.py:406-428 | a rotated chain of products has the same trace |
| `LinearAlgebra.InverseUnique` | pytickle/controls.py:443 | a matrix has at most one two-sided inverse |
| `LinearAlgebra.IdentityLeft` | pytickle/controls.py:443 | I · X == X |

## Left out

- Plotting: `Filter.plotFilter`, `ControlSystem.plotFilter` and `plotCLTF` only call the plotting module.
- `resRoots` needs a complex square root of a float, so it is not part of this model.
- The query methods built on the closed loops are not modelled:
  - `getTF`: several of its `einsum` subscripts do not match their operands;
  - `getTotalNoiseTo/From`, `getCalibration`, `getSensingNoise` and `getSensingFunction`: these need the optical model's noise and mechanical calls.
- Numerical inversion (`scipy.linalg.inv`) is a parameter `inverse`. The closed loop is specified by X(I - L) == (I - L)X == I under `InverseSound`, not by a computed inverse.
- The optical model is a parameter:
  - `opt.getTF` and `opt._ff` are the fields of the `Plant` value;
  - the Finesse simulator (deep copy, sweep set-up, `kat.run`) is the `Kat.run` function of the sweep, and `kat.components` is reduced to the set of component names that `kat.components[drive]` looks up;
  - `print` in `KatFR.tickle` is dropped.
- `np.abs` in the four-argument Filter is a parameter `modulus`.
- A Filter given as a callable is an uninterpreted function from s to a result.
- Floating point is not modelled; numbers are exact. Where numpy would produce `inf` or `nan` (s at a pole) the model reports `NonFinite`.
- `utils.assertType` is not part of this model. DOF probe and drive maps are taken to be dicts (unique keys) already.
- Python 2 dict order is taken to be insertion order, with `keys()` a snapshot list.
- `_plant` and `_opticalPlant`: the constructor sets `_opticalPlant`, while `tickle` assigns and the open loops read `_plant`. The model has one `plant` field, the one `tickle` assigns and reads.
- `Controls.ControlSystem.Tickle`: the stages are computed by `Assemble` and then assigned in the source's order, stopping at the first failure. This leaves the same final state as the source's compute-assign sequence, because each stage reads only the registry and arrays computed earlier in the same call. The result of stages after a failure is not stated.
- `Controls.ControlSystem.Tickle`: a filter response that hits a pole stops the model at the C, K or M stage with `NonFinite`. The source instead stores `inf`/`nan` there, assigns C, K, M and the open loops, and raises only in `inv` when the closed loops are computed (a `ValueError` from scipy on non-finite input). The model therefore leaves those arrays as they were.
- `Filters.MakeFilter`: with four arguments whose unit-gain value at s0 is non-finite or zero (s0 at a pole or a zero), the source registers a filter whose gain is `0`, `inf` or `nan`. The model refuses with `NonFinite`, so `AddFilter`, `AddCompensator` and `SetResponse` register nothing in that case.
- `Finesse.TransferFunction`: response coefficients are real; complex coefficients in the probe or drive dicts are not modelled.
- `Finesse.KatFR.Tickle`: each run's deep copy is taken to have the model's own detectors and components, so the demodulation check gives the same answer on every run. The xaxis, signal and `yaxis`/`scale` commands are part of the `Kat.run` parameter.
- `Finesse.Accumulate`: a swept response whose length neither matches the axis nor is 1 is a ValueError here. Other numpy broadcasting shapes (higher-rank arrays) are not modelled.
- `Controls.Lookup`: `getOLTF`/`getCLTF` index every injection point's array by DOF position. The model states this as written (`LookupSensPastProbes` shows the IndexError at the sens point when there are more DOFs than probes) and does not re-index by `_getIndex`.
