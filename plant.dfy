/**
 * The optical plant P (probes x drives x frequencies), read from the optical
 * model one (probe, drive) pair at a time.
 */
module Plants {
  import opened Outcomes
  import opened Complex
  import opened Names
  import opened Tensors

  /**
   * What the control system uses of the optical model: its frequency axis
   * `_ff` [Hz] and `getTF(probe, driveName, dof=dofType)`.
   */
  datatype Plant = Plant(ff: seq<real>, getTF: (string, string, string) -> seq<Complex>)

  /** Storing a response into `plant[pi, di, :]`: a full row, or one value repeated; any other length is a ValueError. */
  function Broadcast(v: seq<Complex>, n: nat): (r: Result<seq<Complex>>)
    ensures r.Ok? <==> |v| == n || |v| == 1
    ensures r.Err? ==> r.error == ValueError
    ensures r.Ok? ==> |r.value| == n
  {
    if |v| == n then Ok(v)
    else if |v| == 1 then Ok(seq(n, f => v[0]))
    else Err(ValueError)
  }

  /** The response stored for one (probe, drive) pair: the drive name is split into optic and degree-of-freedom type. */
  function PlantEntry(opt: Plant, probe: string, drive: string): Result<seq<Complex>>
  {
    Broadcast(opt.getTF(probe, FirstSegment(drive), LastSegment(drive)), |opt.ff|)
  }

  /** The stored response, or zeros where storing it would fail. */
  function PlantValue(opt: Plant, probe: string, drive: string): (v: seq<Complex>)
    ensures |v| == |opt.ff|
  {
    match PlantEntry(opt, probe, drive)
    case Ok(v) => v
    case Err(_) => Zeros(|opt.ff|)
  }

  ghost predicate PlantFits(opt: Plant, probes: seq<string>, drives: seq<string>)
  {
    forall p, d :: 0 <= p < |probes| && 0 <= d < |drives| ==> PlantEntry(opt, probes[p], drives[d]).Ok?
  }

  /** `_computePlant` for a given optical model. */
  function PlantTensor(opt: Plant, probes: seq<string>, drives: seq<string>): (r: Result<Tensor>)
    ensures r.Ok? <==> PlantFits(opt, probes, drives)
    ensures r.Err? ==> r.error == ValueError
    ensures r.Ok? ==> r.value.Valid() && r.value.rows == |probes| && r.value.cols == |drives| && r.value.nff == |opt.ff|
  {
    if exists p, d :: 0 <= p < |probes| && 0 <= d < |drives| && PlantEntry(opt, probes[p], drives[d]).Err? then
      Err(ValueError)
    else
      Ok(Tensor(|probes|, |drives|, |opt.ff|,
        seq(|probes|, p requires 0 <= p < |probes| =>
          seq(|drives|, d requires 0 <= d < |drives| => PlantValue(opt, probes[p], drives[d])))))
  }

  /**
   * For a drive named `optic.type` (as the DOF constructor makes them),
   * P[p][d] is the model's response of probe p to that optic's motion of
   * that type, repeated over the axis when the model gives one value.
   */
  lemma PlantOfDrive(opt: Plant, probes: seq<string>, drives: seq<string>, p: nat, d: nat, optic: string, dofType: string)
    requires p < |probes| && d < |drives|
    requires drives[d] == optic + "." + dofType && '.' !in optic && '.' !in dofType
    requires PlantTensor(opt, probes, drives).Ok?
    ensures |opt.getTF(probes[p], optic, dofType)| in {|opt.ff|, 1}
    ensures var v := opt.getTF(probes[p], optic, dofType);
      forall f :: 0 <= f < |opt.ff| ==>
        PlantTensor(opt, probes, drives).value.at[p][d][f] == (if |v| == |opt.ff| then v[f] else v[0])
  {
    FirstSegmentJoin(optic, dofType);
    LastSegmentJoin(optic, dofType);
    assert PlantEntry(opt, probes[p], drives[d]).Ok?;
  }

  /** `_computePlant`: fills a (nProbes, nDrives, nff) zero array pair by pair; without a model there is no `_ff` to read. */
  method ComputePlant(opt: Option<Plant>, probes: seq<string>, drives: seq<string>) returns (r: Result<Tensor>)
    ensures opt.None? ==> r == Err(AttributeError)
    ensures opt.Some? ==> r == PlantTensor(opt.value, probes, drives)
  {
    if opt.None? {
      return Err(AttributeError);
    }
    var o := opt.value;
    var nff := |o.ff|;
    var rows: seq<seq<seq<Complex>>> := [];
    for pi := 0 to |probes|
      invariant |rows| == pi
      invariant forall p, d :: 0 <= p < pi && 0 <= d < |drives| ==> PlantEntry(o, probes[p], drives[d]).Ok?
      invariant forall p :: 0 <= p < pi ==>
        rows[p] == seq(|drives|, d requires 0 <= d < |drives| => PlantValue(o, probes[p], drives[d]))
    {
      var row: seq<seq<Complex>> := [];
      for di := 0 to |drives|
        invariant |row| == di
        invariant forall d :: 0 <= d < di ==> PlantEntry(o, probes[pi], drives[d]).Ok? && row[d] == PlantValue(o, probes[pi], drives[d])
      {
        var tf := Broadcast(o.getTF(probes[pi], FirstSegment(drives[di]), LastSegment(drives[di])), nff);
        if tf.Err? {
          assert PlantEntry(o, probes[pi], drives[di]).Err?;
          return Err(ValueError);
        }
        row := row + [tf.value];
      }
      rows := rows + [row];
    }
    assert rows == seq(|probes|, p requires 0 <= p < |probes| =>
      seq(|drives|, d requires 0 <= d < |drives| => PlantValue(o, probes[p], drives[d])));
    assert !exists p, d :: 0 <= p < |probes| && 0 <= d < |drives| && PlantEntry(o, probes[p], drives[d]).Err?;
    r := Ok(Tensor(|probes|, |drives|, nff, rows));
  }
}
