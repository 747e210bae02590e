/**
 * The Finesse front end `KatFR`: for every detector (probe) and every drive
 * it records the frequency response a simulator sweep returned, and
 * `getTF` combines recorded responses linearly, with numpy's broadcasting.
 */
module Finesse {
  import opened Outcomes
  import opened Complex
  import opened Names
  import opened LinearAlgebra
  import opened Tensors

  /** A numpy value as `getTF` handles it: a number, or a one-dimensional complex array. */
  datatype Value = Scalar(z: Complex) | Array(v: seq<Complex>)

  /** `self.ff`: None until a sweep ran, a single frequency, or the swept frequency vector [Hz]. */
  datatype Axis = NoAxis | AtFrequency(f: real) | Swept(ff: seq<real>)

  /** A `probes` or `drives` argument of `getTF`: a bare name, or a dict of names to coefficients. */
  datatype Selection = Single(name: string) | Weighted(coeffs: Coeffs)

  /** `self.freqresp[probe][drive]`. */
  type Responses = map<string, map<string, Value>>

  /** A bare name stands for `{name: 1}`. */
  function Entries(sel: Selection): Coeffs
  {
    match sel
    case Single(name) => [(name, 1.0)]
    case Weighted(coeffs) => coeffs
  }

  /** Entry i of a value once broadcast: a number, or a one-entry array, reads the same at every index. */
  function At(x: Value, i: nat): Complex
  {
    match x
    case Scalar(z) => z
    case Array(v) => if |v| == 1 then v[0] else if i < |v| then v[i] else Zero
  }

  /** A value numpy broadcasts against an array of n entries. */
  predicate Fits(x: Value, n: nat)
  {
    x.Scalar? || |x.v| == n || |x.v| == 1
  }

  /**
   * `tf += w * x`. A number accumulator is rebound to the sum, whatever its
   * shape; an array accumulator is updated in place, so it keeps its length
   * and `x` must broadcast to it, otherwise numpy raises ValueError.
   */
  function Accumulate(acc: Value, w: real, x: Value): (r: Result<Value>)
    ensures acc.Array? ==> (r.Ok? <==> Fits(x, |acc.v|))
    ensures acc.Scalar? ==> r.Ok? && r.value.Scalar? == x.Scalar?
    ensures r.Err? ==> r.error == ValueError
    ensures r.Ok? && r.value.Scalar? ==> acc.Scalar? && x.Scalar? && r.value.z == Add(acc.z, Scale(w, x.z))
    ensures r.Ok? && r.value.Array? ==>
      && |r.value.v| == (if acc.Array? then |acc.v| else |x.v|)
      && forall i :: 0 <= i < |r.value.v| ==> r.value.v[i] == Add(At(acc, i), Scale(w, At(x, i)))
  {
    match acc
    case Scalar(a) =>
      (match x
       case Scalar(b) => Ok(Scalar(Add(a, Scale(w, b))))
       case Array(v) => Ok(Array(seq(|v|, i requires 0 <= i < |v| => Add(a, Scale(w, v[i]))))))
    case Array(u) =>
      if x.Scalar? then Ok(Array(seq(|u|, i requires 0 <= i < |u| => Add(u[i], Scale(w, x.z)))))
      else if |x.v| == |u| then Ok(Array(seq(|u|, i requires 0 <= i < |u| => Add(u[i], Scale(w, x.v[i])))))
      else if |x.v| == 1 then Ok(Array(seq(|u|, i requires 0 <= i < |u| => Add(u[i], Scale(w, x.v[0])))))
      else Err(ValueError)
  }

  /** One pass of the inner loop: add `pc * dc * freqresp[probe][drive]`, where either lookup can miss. */
  function Term(acc: Value, fr: Responses, probe: string, pc: real, drive: string, dc: real): Result<Value>
  {
    if probe in fr && drive in fr[probe] then Accumulate(acc, pc * dc, fr[probe][drive]) else Err(KeyError)
  }

  /** The inner loop for one probe: every drive in order, stopping at the first exception. */
  function SumDrives(acc: Value, fr: Responses, probe: string, pc: real, dcs: Coeffs): (r: Result<Value>)
    ensures r.Err? ==> r.error in {KeyError, ValueError}
    ensures acc.Array? && r.Ok? ==> r.value.Array? && |r.value.v| == |acc.v|
  {
    if |dcs| == 0 then Ok(acc)
    else match SumDrives(acc, fr, probe, pc, dcs[..|dcs| - 1])
      case Err(e) => Err(e)
      case Ok(a) => Term(a, fr, probe, pc, dcs[|dcs| - 1].0, dcs[|dcs| - 1].1)
  }

  /** Both loops: every probe in order, and for each every drive. */
  function SumProbes(acc: Value, fr: Responses, pcs: Coeffs, dcs: Coeffs): (r: Result<Value>)
    ensures r.Err? ==> r.error in {KeyError, ValueError}
    ensures acc.Array? && r.Ok? ==> r.value.Array? && |r.value.v| == |acc.v|
  {
    if |pcs| == 0 then Ok(acc)
    else match SumProbes(acc, fr, pcs[..|pcs| - 1], dcs)
      case Err(e) => Err(e)
      case Ok(a) => SumDrives(a, fr, pcs[|pcs| - 1].0, pcs[|pcs| - 1].1, dcs)
  }

  /** The starting accumulator: 0 at a single frequency, zeros along a swept axis; `len(None)` raises TypeError. */
  function Initial(ff: Axis): (r: Result<Value>)
    ensures r.Err? <==> ff.NoAxis?
    ensures r.Err? ==> r.error == TypeError
    ensures ff.AtFrequency? ==> r.Ok? && r.value.Scalar?
    ensures ff.Swept? ==> r.Ok? && r.value.Array? && |r.value.v| == |ff.ff|
    ensures r.Ok? ==> forall i :: At(r.value, i) == Zero
  {
    match ff
    case NoAxis => Err(TypeError)
    case AtFrequency(_) => Ok(Scalar(Zero))
    case Swept(xs) => Ok(Array(Zeros(|xs|)))
  }

  /**
   * `getTF(probes, drives)` on the recorded responses: before any sweep it
   * raises TypeError, and along a swept axis the result has one entry per
   * frequency.
   */
  function TransferFunction(fr: Responses, ff: Axis, probes: Selection, drives: Selection): (r: Result<Value>)
    ensures ff.NoAxis? ==> r == Err(TypeError)
    ensures r.Err? ==> r.error in {TypeError, KeyError, ValueError}
    ensures ff.Swept? && r.Ok? ==> r.value.Array? && |r.value.v| == |ff.ff|
  {
    match Initial(ff)
    case Err(e) => Err(e)
    case Ok(tf) => SumProbes(tf, fr, Entries(probes), Entries(drives))
  }

  /** Once a prefix of the drives raised, the whole inner loop raised the same way. */
  lemma {:induction false} SumDrivesErr(acc: Value, fr: Responses, probe: string, pc: real, dcs: Coeffs, k: nat)
    requires k <= |dcs| && SumDrives(acc, fr, probe, pc, dcs[..k]).Err?
    ensures SumDrives(acc, fr, probe, pc, dcs) == SumDrives(acc, fr, probe, pc, dcs[..k])
  {
    if k < |dcs| {
      var m := |dcs| - 1;
      assert dcs[..m][..k] == dcs[..k];
      SumDrivesErr(acc, fr, probe, pc, dcs[..m], k);
    } else {
      assert dcs[..k] == dcs;
    }
  }

  /** Once a prefix of the probes raised, both loops raised the same way. */
  lemma {:induction false} SumProbesErr(acc: Value, fr: Responses, pcs: Coeffs, dcs: Coeffs, k: nat)
    requires k <= |pcs| && SumProbes(acc, fr, pcs[..k], dcs).Err?
    ensures SumProbes(acc, fr, pcs, dcs) == SumProbes(acc, fr, pcs[..k], dcs)
  {
    if k < |pcs| {
      var m := |pcs| - 1;
      assert pcs[..m][..k] == pcs[..k];
      SumProbesErr(acc, fr, pcs[..m], dcs, k);
    } else {
      assert pcs[..k] == pcs;
    }
  }

  /** Every recorded response broadcasts against n frequencies. */
  ghost predicate Conform(fr: Responses, n: nat)
  {
    forall p, d :: p in fr && d in fr[p] ==> Fits(fr[p][d], n)
  }

  /** A response is recorded for the probe and every selected drive. */
  ghost predicate ProbeRecorded(fr: Responses, probe: string, dcs: Coeffs)
  {
    |dcs| > 0 ==> probe in fr && forall j :: 0 <= j < |dcs| ==> dcs[j].0 in fr[probe]
  }

  /** A response is recorded for every selected (probe, drive) pair. */
  ghost predicate Recorded(fr: Responses, pcs: Coeffs, dcs: Coeffs)
  {
    forall i :: 0 <= i < |pcs| ==> ProbeRecorded(fr, pcs[i].0, dcs)
  }

  /** Bin f of pc · dc · freqresp[probe][drive]. */
  ghost function PairTerm(fr: Responses, probe: string, pc: real, d: (string, real), f: nat): Complex
    requires probe in fr && d.0 in fr[probe]
  {
    Scale(pc * d.1, At(fr[probe][d.0], f))
  }

  lemma PairTermIs(fr: Responses, probe: string, pc: real, d: (string, real), f: nat)
    requires probe in fr && d.0 in fr[probe]
    ensures PairTerm(fr, probe, pc, d, f) == Scale(pc * d.1, At(fr[probe][d.0], f))
  {
  }

  /** Bin f of Σ_j pc · dc_j · freqresp[probe][drive_j]. */
  ghost function DriveSum(fr: Responses, probe: string, pc: real, dcs: Coeffs, f: nat): Complex
    requires ProbeRecorded(fr, probe, dcs)
  {
    Sum(seq(|dcs|, j requires 0 <= j < |dcs| => PairTerm(fr, probe, pc, dcs[j], f)))
  }

  /** Bin f of the bilinear sum Σ_i Σ_j pc_i · dc_j · freqresp[probe_i][drive_j]. */
  ghost function PairSum(fr: Responses, pcs: Coeffs, dcs: Coeffs, f: nat): Complex
    requires Recorded(fr, pcs, dcs)
  {
    Sum(seq(|pcs|, i requires 0 <= i < |pcs| => DriveSum(fr, pcs[i].0, pcs[i].1, dcs, f)))
  }

  lemma ProbeRecordedSnoc(fr: Responses, probe: string, dcs: Coeffs)
    requires |dcs| > 0
    ensures ProbeRecorded(fr, probe, dcs) <==>
      ProbeRecorded(fr, probe, dcs[..|dcs| - 1]) && probe in fr && dcs[|dcs| - 1].0 in fr[probe]
  {
    assert forall j :: 0 <= j < |dcs| - 1 ==> dcs[..|dcs| - 1][j] == dcs[j];
  }

  lemma RecordedSnoc(fr: Responses, pcs: Coeffs, dcs: Coeffs)
    requires |pcs| > 0
    ensures Recorded(fr, pcs, dcs) <==>
      Recorded(fr, pcs[..|pcs| - 1], dcs) && ProbeRecorded(fr, pcs[|pcs| - 1].0, dcs)
  {
    assert forall i :: 0 <= i < |pcs| - 1 ==> pcs[..|pcs| - 1][i] == pcs[i];
  }

  lemma DriveSumSnoc(fr: Responses, probe: string, pc: real, dcs: Coeffs, f: nat)
    requires |dcs| > 0 && ProbeRecorded(fr, probe, dcs)
    ensures ProbeRecorded(fr, probe, dcs[..|dcs| - 1])
    ensures DriveSum(fr, probe, pc, dcs, f) ==
      Add(DriveSum(fr, probe, pc, dcs[..|dcs| - 1], f), PairTerm(fr, probe, pc, dcs[|dcs| - 1], f))
  {
    var m := |dcs| - 1;
    ProbeRecordedSnoc(fr, probe, dcs);
    var s := seq(|dcs|, j requires 0 <= j < |dcs| => PairTerm(fr, probe, pc, dcs[j], f));
    assert s[..m] == seq(m, j requires 0 <= j < m => PairTerm(fr, probe, pc, dcs[..m][j], f));
  }

  lemma PairSumSnoc(fr: Responses, pcs: Coeffs, dcs: Coeffs, f: nat)
    requires |pcs| > 0 && Recorded(fr, pcs, dcs)
    ensures Recorded(fr, pcs[..|pcs| - 1], dcs)
    ensures PairSum(fr, pcs, dcs, f) ==
      Add(PairSum(fr, pcs[..|pcs| - 1], dcs, f), DriveSum(fr, pcs[|pcs| - 1].0, pcs[|pcs| - 1].1, dcs, f))
  {
    var m := |pcs| - 1;
    RecordedSnoc(fr, pcs, dcs);
    var s := seq(|pcs|, i requires 0 <= i < |pcs| => DriveSum(fr, pcs[i].0, pcs[i].1, dcs, f));
    assert s[..m] == seq(m, i requires 0 <= i < m => DriveSum(fr, pcs[..m][i].0, pcs[..m][i].1, dcs, f));
  }

  /** Adding into an array accumulator updates it bin by bin. */
  lemma AccumulateArray(a: Value, w: real, x: Value)
    requires a.Array? && Fits(x, |a.v|)
    ensures Accumulate(a, w, x).Ok? && Accumulate(a, w, x).value.Array? && |Accumulate(a, w, x).value.v| == |a.v|
    ensures forall f :: 0 <= f < |a.v| ==> Accumulate(a, w, x).value.v[f] == Add(a.v[f], Scale(w, At(x, f)))
  {
    forall f | 0 <= f < |a.v|
      ensures Accumulate(a, w, x).value.v[f] == Add(a.v[f], Scale(w, At(x, f)))
    {
      assert At(a, f) == a.v[f];
    }
  }

  /** The inner loop's last step accumulates the last drive's response. */
  lemma SumDrivesLast(acc: Value, a: Value, fr: Responses, probe: string, pc: real, dcs: Coeffs)
    requires |dcs| > 0 && probe in fr && dcs[|dcs| - 1].0 in fr[probe]
    requires SumDrives(acc, fr, probe, pc, dcs[..|dcs| - 1]) == Ok(a)
    ensures SumDrives(acc, fr, probe, pc, dcs) == Accumulate(a, pc * dcs[|dcs| - 1].1, fr[probe][dcs[|dcs| - 1].0])
  {
  }

  /** One more drive adds its term to every bin. */
  lemma SumDrivesStep(acc: Value, a: Value, fr: Responses, probe: string, pc: real, dcs: Coeffs)
    requires |dcs| > 0 && acc.Array? && Conform(fr, |acc.v|) && ProbeRecorded(fr, probe, dcs)
    requires SumDrives(acc, fr, probe, pc, dcs[..|dcs| - 1]) == Ok(a)
    requires forall f :: 0 <= f < |acc.v| ==> a.v[f] == Add(acc.v[f], DriveSum(fr, probe, pc, dcs[..|dcs| - 1], f))
    ensures SumDrives(acc, fr, probe, pc, dcs).Ok?
    ensures forall f :: 0 <= f < |acc.v| ==>
      SumDrives(acc, fr, probe, pc, dcs).value.v[f] == Add(acc.v[f], DriveSum(fr, probe, pc, dcs, f))
  {
    var d := dcs[|dcs| - 1];
    ProbeRecordedSnoc(fr, probe, dcs);
    var x := fr[probe][d.0];
    AccumulateArray(a, pc * d.1, x);
    SumDrivesLast(acc, a, fr, probe, pc, dcs);
    forall f | 0 <= f < |acc.v|
      ensures SumDrives(acc, fr, probe, pc, dcs).value.v[f] == Add(acc.v[f], DriveSum(fr, probe, pc, dcs, f))
    {
      SumDrivesStepBin(acc, a, fr, probe, pc, dcs, f);
    }
  }

  /** Bin f of `SumDrivesStep`. */
  lemma SumDrivesStepBin(acc: Value, a: Value, fr: Responses, probe: string, pc: real, dcs: Coeffs, f: nat)
    requires |dcs| > 0 && acc.Array? && Conform(fr, |acc.v|) && ProbeRecorded(fr, probe, dcs)
    requires SumDrives(acc, fr, probe, pc, dcs[..|dcs| - 1]) == Ok(a)
    requires f < |acc.v| && a.v[f] == Add(acc.v[f], DriveSum(fr, probe, pc, dcs[..|dcs| - 1], f))
    ensures SumDrives(acc, fr, probe, pc, dcs).Ok?
    ensures SumDrives(acc, fr, probe, pc, dcs).value.v[f] == Add(acc.v[f], DriveSum(fr, probe, pc, dcs, f))
  {
    var m := |dcs| - 1;
    var d := dcs[m];
    ProbeRecordedSnoc(fr, probe, dcs);
    var x := fr[probe][d.0];
    AccumulateArray(a, pc * d.1, x);
    SumDrivesLast(acc, a, fr, probe, pc, dcs);
    DriveSumSnoc(fr, probe, pc, dcs, f);
    var t := PairTerm(fr, probe, pc, d, f);
    PairTermIs(fr, probe, pc, d, f);
    var prev := DriveSum(fr, probe, pc, dcs[..m], f);
    assert Accumulate(a, pc * d.1, x).value.v[f] == Add(a.v[f], t);
    assert DriveSum(fr, probe, pc, dcs, f) == Add(prev, t);
    AddAssoc(acc.v[f], prev, t);
  }

  /** The inner loop adds, bin by bin, the drive sum for its probe, and raises only for a missing response. */
  lemma {:induction false} SumDrivesClosed(acc: Value, fr: Responses, probe: string, pc: real, dcs: Coeffs)
    requires acc.Array? && Conform(fr, |acc.v|)
    ensures var r := SumDrives(acc, fr, probe, pc, dcs);
      && (r.Ok? <==> ProbeRecorded(fr, probe, dcs))
      && (r.Err? ==> r.error == KeyError)
      && (r.Ok? ==> forall f :: 0 <= f < |acc.v| ==> r.value.v[f] == Add(acc.v[f], DriveSum(fr, probe, pc, dcs, f)))
  {
    if |dcs| > 0 {
      var m := |dcs| - 1;
      SumDrivesClosed(acc, fr, probe, pc, dcs[..m]);
      ProbeRecordedSnoc(fr, probe, dcs);
      var r' := SumDrives(acc, fr, probe, pc, dcs[..m]);
      if r'.Ok? && probe in fr && dcs[m].0 in fr[probe] {
        SumDrivesStep(acc, r'.value, fr, probe, pc, dcs);
      }
    }
  }

  /** Both loops add, bin by bin, the bilinear sum, and raise only for a missing response. */
  lemma {:induction false} SumProbesClosed(acc: Value, fr: Responses, pcs: Coeffs, dcs: Coeffs)
    requires acc.Array? && Conform(fr, |acc.v|)
    ensures var r := SumProbes(acc, fr, pcs, dcs);
      && (r.Ok? <==> Recorded(fr, pcs, dcs))
      && (r.Err? ==> r.error == KeyError)
      && (r.Ok? ==> forall f :: 0 <= f < |acc.v| ==> r.value.v[f] == Add(acc.v[f], PairSum(fr, pcs, dcs, f)))
  {
    if |pcs| > 0 {
      var m := |pcs| - 1;
      SumProbesClosed(acc, fr, pcs[..m], dcs);
      var r' := SumProbes(acc, fr, pcs[..m], dcs);
      RecordedSnoc(fr, pcs, dcs);
      if r'.Ok? {
        SumDrivesClosed(r'.value, fr, pcs[m].0, pcs[m].1, dcs);
        var r := SumProbes(acc, fr, pcs, dcs);
        if r.Ok? {
          forall f | 0 <= f < |acc.v|
            ensures r.value.v[f] == Add(acc.v[f], PairSum(fr, pcs, dcs, f))
          {
            PairSumSnoc(fr, pcs, dcs, f);
          }
        }
      }
    }
  }

  /**
   * Along a swept axis whose recorded responses all broadcast, `getTF`
   * succeeds exactly when every selected pair was recorded (otherwise it
   * raises KeyError), and entry f is the bilinear sum at bin f.
   */
  lemma TransferFunctionSwept(fr: Responses, xs: seq<real>, probes: Selection, drives: Selection)
    requires Conform(fr, |xs|)
    ensures var r := TransferFunction(fr, Swept(xs), probes, drives);
      && (r.Ok? <==> Recorded(fr, Entries(probes), Entries(drives)))
      && (r.Err? ==> r.error == KeyError)
      && (r.Ok? ==> forall f :: 0 <= f < |xs| ==> r.value.v[f] == PairSum(fr, Entries(probes), Entries(drives), f))
  {
    SumProbesClosed(Array(Zeros(|xs|)), fr, Entries(probes), Entries(drives));
  }

  /** With no drives selected the inner loops add nothing. */
  lemma {:induction false} SumProbesNoDrives(acc: Value, fr: Responses, pcs: Coeffs)
    ensures SumProbes(acc, fr, pcs, []) == Ok(acc)
  {
    if |pcs| > 0 {
      SumProbesNoDrives(acc, fr, pcs[..|pcs| - 1]);
    }
  }

  /** With no probe or no drive selected, `getTF` returns the zero it started from. */
  lemma NothingSelected(fr: Responses, ff: Axis, probes: Selection, drives: Selection)
    requires |Entries(probes)| == 0 || |Entries(drives)| == 0
    ensures ff.AtFrequency? ==> TransferFunction(fr, ff, probes, drives) == Ok(Scalar(Zero))
    ensures ff.Swept? ==> TransferFunction(fr, ff, probes, drives) == Ok(Array(Zeros(|ff.ff|)))
  {
    if |Entries(drives)| == 0 {
      match Initial(ff)
      case Err(_) =>
      case Ok(tf) => SumProbesNoDrives(tf, fr, Entries(probes));
    }
  }

  /** A bare probe and a bare drive select exactly the recorded response. */
  lemma SingleNames(fr: Responses, ff: Axis, probe: string, drive: string)
    requires probe in fr && drive in fr[probe]
    requires ff.Swept? ==> fr[probe][drive].Array? && |fr[probe][drive].v| == |ff.ff|
    ensures !ff.NoAxis? ==> TransferFunction(fr, ff, Single(probe), Single(drive)) == Ok(fr[probe][drive])
  {
    var x := fr[probe][drive];
    assert [(probe, 1.0)][..0] == [] && [(drive, 1.0)][..0] == [];
    match Initial(ff)
    case Err(_) =>
    case Ok(tf) =>
      var r := Accumulate(tf, 1.0 * 1.0, x);
      assert SumDrives(tf, fr, probe, 1.0, [(drive, 1.0)]) == Term(tf, fr, probe, 1.0, drive, 1.0) == r;
      assert SumProbes(tf, fr, [(probe, 1.0)], [(drive, 1.0)]) == SumDrives(tf, fr, probe, 1.0, [(drive, 1.0)]);
      if x.Array? {
        assert r.value.v == x.v;
      }
  }

  /** What one simulator run returns: the frequency axis `out.x`, and `out[probe]` for each detector. */
  datatype RunOutput = RunOutput(x: seq<real>, y: string -> seq<Complex>)

  /** The sweep `tickle` asks for. */
  datatype Sweep = Sweep(fmin: real, fmax: real, npts: nat, linlog: string)

  /**
   * The Finesse model: its detectors in order, each with its number of
   * demodulations, the names of its components, and a simulator run that
   * drives one optic's motion over a sweep.
   */
  datatype Kat = Kat(detectors: seq<(string, nat)>, components: set<string>, run: (string, Sweep) -> RunOutput)

  /**
   * How many drives, from the first, name a component of the model: the
   * drive at that position, if any, is the first whose lookup in
   * `kat.components` fails.
   */
  function KnownPrefix(drives: seq<string>, components: set<string>): (k: nat)
    ensures k <= |drives|
    ensures forall j :: 0 <= j < k ==> drives[j] in components
    ensures k < |drives| ==> drives[k] !in components
  {
    if |drives| == 0 || drives[0] !in components then 0
    else 1 + KnownPrefix(drives[1..], components)
  }

  /** The known prefix ends at the first drive that names no component. */
  lemma KnownPrefixAt(drives: seq<string>, components: set<string>, i: nat)
    requires i < |drives| && drives[i] !in components
    requires forall j :: 0 <= j < i ==> drives[j] in components
    ensures KnownPrefix(drives, components) == i
  {
  }

  /** When every drive names a component, the known prefix is all of them. */
  lemma KnownPrefixAll(drives: seq<string>, components: set<string>)
    requires forall j :: 0 <= j < |drives| ==> drives[j] in components
    ensures KnownPrefix(drives, components) == |drives|
  {
  }

  /** `kat.detectors.keys()`. */
  function DetectorNames(detectors: seq<(string, nat)>): seq<string>
  {
    seq(|detectors|, k requires 0 <= k < |detectors| => detectors[k].0)
  }

  /** Every detector demodulates once or twice, the only cases the sweep set-up handles. */
  predicate Demodulated(detectors: seq<(string, nat)>)
  {
    forall k :: 0 <= k < |detectors| ==> detectors[k].1 == 1 || detectors[k].1 == 2
  }

  /** The responses one probe gets from the sweeps of `ds`. */
  function SweepEntries(probe: string, ds: seq<string>, kat: Kat, sweep: Sweep): map<string, Value>
  {
    map d | d in ds :: Array(kat.run(d, sweep).y(probe))
  }

  /** The recorded responses after the sweeps of `ds`: each probe's dict gains one entry per drive. */
  function WithSweeps(fr: Responses, probes: seq<string>, ds: seq<string>, kat: Kat, sweep: Sweep): Responses
  {
    map p | p in fr :: if p in probes then fr[p] + SweepEntries(p, ds, kat, sweep) else fr[p]
  }

  /**
   * After the sweeps, probe p's response to a swept drive d is the run's
   * output at that detector; every other entry, and the set of probes, is
   * as before.
   */
  lemma WithSweepsSpec(fr: Responses, probes: seq<string>, ds: seq<string>, kat: Kat, sweep: Sweep)
    ensures WithSweeps(fr, probes, ds, kat, sweep).Keys == fr.Keys
    ensures forall p, d :: p in fr && p in probes && d in ds ==>
      d in WithSweeps(fr, probes, ds, kat, sweep)[p] && WithSweeps(fr, probes, ds, kat, sweep)[p][d] == Array(kat.run(d, sweep).y(p))
    ensures forall p, d :: p in fr && !(p in probes && d in ds) ==>
      (d in WithSweeps(fr, probes, ds, kat, sweep)[p] <==> d in fr[p])
      && (d in fr[p] ==> WithSweeps(fr, probes, ds, kat, sweep)[p][d] == fr[p][d])
  {
  }

  lemma SweepEntriesSnoc(probe: string, ds: seq<string>, d: string, kat: Kat, sweep: Sweep)
    ensures SweepEntries(probe, ds, kat, sweep) + SweepEntries(probe, [d], kat, sweep) == SweepEntries(probe, ds + [d], kat, sweep)
  {
    var lhs := SweepEntries(probe, ds, kat, sweep) + SweepEntries(probe, [d], kat, sweep);
    var rhs := SweepEntries(probe, ds + [d], kat, sweep);
    forall e | e in rhs
      ensures e in lhs && lhs[e] == rhs[e]
    {
    }
    assert lhs.Keys == rhs.Keys;
  }

  /** Sweeping one more drive extends the record by that drive's responses. */
  lemma WithSweepsSnoc(fr: Responses, probes: seq<string>, ds: seq<string>, d: string, kat: Kat, sweep: Sweep)
    ensures WithSweeps(WithSweeps(fr, probes, ds, kat, sweep), probes, [d], kat, sweep) == WithSweeps(fr, probes, ds + [d], kat, sweep)
  {
    var lhs := WithSweeps(WithSweeps(fr, probes, ds, kat, sweep), probes, [d], kat, sweep);
    var rhs := WithSweeps(fr, probes, ds + [d], kat, sweep);
    forall p | p in fr
      ensures lhs[p] == rhs[p]
    {
      if p in probes {
        SweepEntriesSnoc(p, ds, d, kat, sweep);
        MapUnionAssoc(fr[p], SweepEntries(p, ds, kat, sweep), SweepEntries(p, [d], kat, sweep));
      }
    }
    assert lhs.Keys == rhs.Keys;
  }

  lemma MapUnionAssoc(a: map<string, Value>, b: map<string, Value>, c: map<string, Value>)
    ensures (a + b) + c == a + (b + c)
  {
  }

  /** Storing one more probe's response to drive d extends the record by that probe. */
  lemma RecordProbe(w: Responses, probes: seq<string>, j: nat, d: string, kat: Kat, sweep: Sweep)
    requires j < |probes| && probes[j] in w
    ensures var fr := WithSweeps(w, probes[..j], [d], kat, sweep);
      fr[probes[j] := fr[probes[j]][d := Array(kat.run(d, sweep).y(probes[j]))]] == WithSweeps(w, probes[..j + 1], [d], kat, sweep)
  {
    var p := probes[j];
    var fr := WithSweeps(w, probes[..j], [d], kat, sweep);
    var lhs := fr[p := fr[p][d := Array(kat.run(d, sweep).y(p))]];
    var rhs := WithSweeps(w, probes[..j + 1], [d], kat, sweep);
    assert probes[..j + 1] == probes[..j] + [p];
    assert SweepEntries(p, [d], kat, sweep) == map[d := Array(kat.run(d, sweep).y(p))];
    forall q | q in w
      ensures lhs[q] == rhs[q]
    {
    }
    assert lhs.Keys == rhs.Keys;
  }

  /** No sweep leaves the record as it was. */
  lemma WithNoSweeps(fr: Responses, probes: seq<string>, kat: Kat, sweep: Sweep)
    ensures WithSweeps(fr, probes, [], kat, sweep) == fr
  {
    forall p | p in fr
      ensures WithSweeps(fr, probes, [], kat, sweep)[p] == fr[p]
    {
      assert fr[p] + SweepEntries(p, [], kat, sweep) == fr[p];
    }
  }

  /**
   * After the sweeps of all drives, with the axis of the last run, a bare
   * probe and a bare drive read back exactly what the simulator returned
   * for them.
   */
  lemma ReadBackAfterSweeps(fr: Responses, probes: seq<string>, drives: seq<string>, kat: Kat, sweep: Sweep, p: string, d: string)
    requires p in fr && p in probes && d in drives
    requires |kat.run(d, sweep).y(p)| == |kat.run(drives[|drives| - 1], sweep).x|
    ensures TransferFunction(WithSweeps(fr, probes, drives, kat, sweep), Swept(kat.run(drives[|drives| - 1], sweep).x), Single(p), Single(d))
      == Ok(Array(kat.run(d, sweep).y(p)))
  {
    WithSweepsSpec(fr, probes, drives, kat, sweep);
    SingleNames(WithSweeps(fr, probes, drives, kat, sweep), Swept(kat.run(drives[|drives| - 1], sweep).x), p, d);
  }

  /** The inner loop of `getTF` for one probe and its coefficient. */
  method AddDrives(tf: Value, fr: Responses, probe: string, pc: real, dcs: Coeffs) returns (r: Result<Value>)
    ensures r == SumDrives(tf, fr, probe, pc, dcs)
  {
    var acc := tf;
    for j := 0 to |dcs|
      invariant SumDrives(tf, fr, probe, pc, dcs[..j]) == Ok(acc)
    {
      assert dcs[..j + 1][..j] == dcs[..j];
      if probe !in fr || dcs[j].0 !in fr[probe] {
        SumDrivesErr(tf, fr, probe, pc, dcs, j + 1);
        return Err(KeyError);
      }
      var x := Accumulate(acc, pc * dcs[j].1, fr[probe][dcs[j].0]);
      assert SumDrives(tf, fr, probe, pc, dcs[..j + 1]) == Term(acc, fr, probe, pc, dcs[j].0, dcs[j].1);
      if x.Err? {
        SumDrivesErr(tf, fr, probe, pc, dcs, j + 1);
        return x;
      }
      acc := x.value;
    }
    assert dcs[..|dcs|] == dcs;
    r := Ok(acc);
  }

  /** `KatFR`: a Finesse model, the drives to sweep, and the responses recorded so far. */
  class KatFR {
    var kat: Kat
    var drives: seq<string>
    var probes: seq<string>
    var freqresp: Responses
    var ff: Axis

    /** Every probe has a dict of responses. */
    ghost predicate Valid()
      reads this
    {
      forall p :: p in probes ==> p in freqresp
    }

    /** `KatFR(kat, drives)`: the probes are the model's detectors, each with no response yet, and no axis. */
    constructor(kat: Kat, drives: seq<string>)
      ensures Valid()
      ensures this.kat == kat && this.drives == drives && probes == DetectorNames(kat.detectors)
      ensures freqresp == (map p | p in probes :: map[]) && ff == NoAxis
    {
      this.kat := kat;
      this.drives := drives;
      probes := DetectorNames(kat.detectors);
      freqresp := map p | p in DetectorNames(kat.detectors) :: map[];
      ff := NoAxis;
    }

    /** The loop over detectors for one run: each probe's dict gains the run's output at that detector. */
    method RecordRun(drive: string, sweep: Sweep, o: RunOutput)
      requires Valid() && o == kat.run(drive, sweep)
      modifies this
      ensures Valid() && kat == old(kat) && drives == old(drives) && probes == old(probes) && ff == old(ff)
      ensures freqresp == WithSweeps(old(freqresp), probes, [drive], kat, sweep)
    {
      ghost var w := freqresp;
      WithNoSweeps(w, probes[..0], kat, sweep);
      for j := 0 to |probes|
        invariant kat == old(kat) && drives == old(drives) && probes == old(probes) && ff == old(ff)
        invariant freqresp == WithSweeps(w, probes[..j], [drive], kat, sweep)
      {
        var probe := probes[j];
        RecordProbe(w, probes, j, drive, kat, sweep);
        freqresp := freqresp[probe := freqresp[probe][drive := Array(o.y(probe))]];
      }
      assert probes[..|probes|] == probes;
    }

    /**
     * `tickle`: one simulator run per drive, recording every detector's
     * response to it, then the axis of the last run. A detector that is
     * not demodulated once or twice raises ValueError before anything is
     * recorded; a drive that names no component raises KeyError after the
     * drives before it have been recorded; with no drive the last run's
     * axis is unbound.
     */
    method Tickle(sweep: Sweep) returns (r: Outcome)
      requires Valid()
      modifies this
      ensures Valid()
      ensures kat == old(kat) && drives == old(drives) && probes == old(probes)
      ensures |drives| == 0 ==> r == Fail(UnboundLocalError) && freqresp == old(freqresp) && ff == old(ff)
      ensures |drives| > 0 && !Demodulated(kat.detectors) ==>
        r == Fail(ValueError) && freqresp == old(freqresp) && ff == old(ff)
      ensures |drives| > 0 && Demodulated(kat.detectors) && KnownPrefix(drives, kat.components) < |drives| ==>
        && r == Fail(KeyError)
        && freqresp == WithSweeps(old(freqresp), probes, drives[..KnownPrefix(drives, kat.components)], kat, sweep)
        && ff == old(ff)
      ensures |drives| > 0 && Demodulated(kat.detectors) && KnownPrefix(drives, kat.components) == |drives| ==>
        && r == Pass
        && freqresp == WithSweeps(old(freqresp), probes, drives, kat, sweep)
        && ff == Swept(kat.run(drives[|drives| - 1], sweep).x)
    {
      ghost var fr0 := freqresp;
      WithNoSweeps(fr0, probes, kat, sweep);
      var out: Option<RunOutput> := None;
      for i := 0 to |drives|
        invariant kat == old(kat) && drives == old(drives) && probes == old(probes) && ff == old(ff)
        invariant freqresp == WithSweeps(fr0, probes, drives[..i], kat, sweep) && Valid()
        invariant i == 0 <==> out.None?
        invariant i > 0 ==> Demodulated(kat.detectors) && out == Some(kat.run(drives[i - 1], sweep))
        invariant forall j :: 0 <= j < i ==> drives[j] in kat.components
      {
        if !Demodulated(kat.detectors) {
          return Fail(ValueError);
        }
        if drives[i] !in kat.components {
          KnownPrefixAt(drives, kat.components, i);
          return Fail(KeyError);
        }
        var o := kat.run(drives[i], sweep);
        RecordRun(drives[i], sweep, o);
        WithSweepsSnoc(fr0, probes, drives[..i], drives[i], kat, sweep);
        assert drives[..i + 1] == drives[..i] + [drives[i]];
        out := Some(o);
      }
      if out.None? {
        return Fail(UnboundLocalError);
      }
      assert drives[..|drives|] == drives;
      KnownPrefixAll(drives, kat.components);
      ff := Swept(out.value.x);
      r := Pass;
    }

    /** `getTF(probes, drives)`: the accumulator, then `tf += pc * dc * freqresp[probe][drive]` over both dicts in order. */
    method GetTF(probes: Selection, drives: Selection) returns (r: Result<Value>)
      ensures r == TransferFunction(freqresp, ff, probes, drives)
    {
      var tf: Value;
      match ff {
        case NoAxis => return Err(TypeError);
        case AtFrequency(_) => tf := Scalar(Zero);
        case Swept(xs) => tf := Array(Zeros(|xs|));
      }
      ghost var tf0 := tf;
      var pcs, dcs := Entries(probes), Entries(drives);
      for i := 0 to |pcs|
        invariant SumProbes(tf0, freqresp, pcs[..i], dcs) == Ok(tf)
      {
        assert pcs[..i + 1][..i] == pcs[..i];
        var sum := AddDrives(tf, freqresp, pcs[i].0, pcs[i].1, dcs);
        if sum.Err? {
          SumProbesErr(tf0, freqresp, pcs, dcs, i + 1);
          return sum;
        }
        tf := sum.value;
      }
      assert pcs[..|pcs|] == pcs;
      r := Ok(tf);
    }
  }
}
