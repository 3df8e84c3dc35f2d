/** The monitoring parameters of the telemetry loader: PCF rows, the types
    built for them (shared between parameters with the same typing columns,
    private to parameters with context calibrations), the parameters added
    to the space system and their context calibrators. */
module TmParameters {
  import opened Wrappers
  import opened Text
  import opened Mdb
  import opened MibLoaderBits
  import opened BaseMibLoader
  import opened MonitoringData
  import opened MibParameter
  import opened Collections
  import opened TmCalibration

  // ---------------------------------------------------------------------------
  // PCF rows

  const PCF_PNAME: nat := 0
  const PCF_DESCR: nat := 1
  const PCF_PID: nat := 2
  const PCF_UNIT: nat := 3
  const PCF_PTC: nat := 4
  const PCF_PFC: nat := 5
  const PCF_WIDTH: nat := 6
  const PCF_RELATED: nat := 8
  const PCF_CATEG: nat := 9
  const PCF_NATUR: nat := 10
  const PCF_CURTX: nat := 11
  const PCF_INTER: nat := 12
  const PCF_USCON: nat := 13
  const PCF_PARVAL: nat := 15
  const PCF_VPLB: nat := 24

  function InvalidName(ctx: Context, pname: string): LoadError {
    MibLoadError(Some(ctx), "Invalid parameter name '" + pname + "'")
  }

  /** One PCF row read into a record: the name must be a word, PTC and PFC
      are mandatory integers, the other numbers take their defaults when
      absent, and the optional strings are null when absent or empty. */
  function ParsePcf(ctx: Context, line: seq<string>, defaultVplb: int): (r: Result<PcfRecord, LoadError>)
    ensures r.Ok? ==> |line| > PCF_NATUR && IsWordString(line[PCF_PNAME])
    ensures r.Ok? ==>
      && r.value.name == line[PCF_PNAME] && r.value.descr == line[PCF_DESCR] && r.value.categ == line[PCF_CATEG]
      && ParseInt(line[PCF_PTC]) == Some(r.value.ptc) && ParseInt(line[PCF_PFC]) == Some(r.value.pfc)
    ensures r.Ok? ==>
      && r.value.natur == GetOptString(line, PCF_NATUR) && r.value.curtx == GetOptString(line, PCF_CURTX)
      && r.value.inter == GetOptString(line, PCF_INTER) && r.value.unit == GetOptString(line, PCF_UNIT)
      && r.value.parval == GetOptString(line, PCF_PARVAL) && r.value.related == GetOptString(line, PCF_RELATED)
    ensures r.Ok? ==> (r.value.uscon <==> HasColumn(line, PCF_USCON) && line[PCF_USCON] == "Y")
    ensures r.Ok? ==> (if HasColumn(line, PCF_VPLB) then ParseInt(line[PCF_VPLB]) == Some(r.value.vplb) else r.value.vplb == defaultVplb)
    ensures r.Ok? ==> (if HasColumn(line, PCF_PID) then ParseInt(line[PCF_PID]) == Some(r.value.pid) else r.value.pid == -1)
    ensures r.Ok? ==> (if HasColumn(line, PCF_WIDTH) then ParseInt(line[PCF_WIDTH]) == Some(r.value.width) else r.value.width == -1)
    ensures |line| > PCF_NATUR && !IsWordString(line[PCF_PNAME]) ==> r == Err(InvalidName(ctx, line[PCF_PNAME]))
    ensures |line| <= PCF_PNAME ==> r.Err?
  {
    var mandatory := [PCF_PNAME, PCF_PTC, PCF_PFC, PCF_CATEG, PCF_NATUR];
    var _ :- CheckMandatory(ctx, line, mandatory);
    assert mandatory[4] < |line|;
    var pname := line[PCF_PNAME];
    if !IsWordString(pname) then Err(InvalidName(ctx, pname))
    else
      var ptc :- GetInt(ctx, line, PCF_PTC);
      var pfc :- GetInt(ctx, line, PCF_PFC);
      var width :- GetIntOr(ctx, line, PCF_WIDTH, -1);
      var vplb :- GetIntOr(ctx, line, PCF_VPLB, defaultVplb);
      var pid :- GetIntOr(ctx, line, PCF_PID, -1);
      Ok(PcfRecord(
        pname, line[PCF_DESCR], ptc, pfc, width,
        GetOptString(line, PCF_RELATED), line[PCF_CATEG], GetOptString(line, PCF_NATUR),
        GetOptString(line, PCF_CURTX), GetOptString(line, PCF_INTER),
        GetOptString(line, PCF_USCON) == Some("Y"), vplb, pid,
        GetOptString(line, PCF_UNIT), GetOptString(line, PCF_PARVAL)))
  }

  // ---------------------------------------------------------------------------
  // Type construction

  /** A type under construction, the space system after any member types it
      needed were added, whether it is calibrated, and the errors reported
      (not thrown) on the way. */
  datatype TypeBuild = TypeBuild(ss: SpaceSystem, ptype: DataType, hasCalibrator: bool, errors: seq<LoadError>)

  /** The space system `b` has every type of `a` unchanged and nothing else changed. */
  ghost predicate KeepsTypes(a: SpaceSystem, b: SpaceSystem) {
    && (forall n :: n in a.parameterTypes ==> n in b.parameterTypes && b.parameterTypes[n] == a.parameterTypes[n])
    && b.parameters == a.parameters && b.parameterOrder == a.parameterOrder
    && b.containers == a.containers && b.containerOrder == a.containerOrder && b.commands == a.commands
  }

  /** `getCalibratedParameterType`: the engineering format of the CAF row
      named by PCF_CURTX (or, failing that, by the first CUR selection)
      gives the kind; no such row gives a float. */
  function CalibratedKind(ctx: Context, cal: Calibrations, pcf: PcfRecord): (r: Result<TypeKind, LoadError>)
    ensures r.Ok? ==> r.value.FloatKind? || r.value.IntegerKind?
    ensures r.Ok? && r.value.IntegerKind? ==> r.value.valueBits.None?
  {
    var caf :=
      if pcf.curtx.Some? && pcf.curtx.value in cal.cafRecords then Some(cal.cafRecords[pcf.curtx.value])
      else if pcf.name in cal.curRecords.lists && |cal.curRecords.lists[pcf.name]| > 0
              && cal.curRecords.lists[pcf.name][0].select in cal.cafRecords
      then Some(cal.cafRecords[cal.curRecords.lists[pcf.name][0].select])
      else None;
    match caf
    case None => Ok(FloatKind(None))
    case Some(c) =>
      if c.engfmt == "R" then Ok(FloatKind(None))
      else if c.engfmt == "I" then Ok(IntegerKind(None, None))
      else if c.engfmt == "U" then Ok(IntegerKind(Some(false), None))
      else Err(MibLoadError(Some(ctx), "Invalid value '" + c.engfmt + "' specified "))
  }

  /** The parameter is calibrated: it names a calibration or has CUR rows. */
  predicate HasCalibration(cal: Calibrations, pcf: PcfRecord) {
    pcf.curtx.Some? || pcf.name in cal.curRecords.lists
  }

  function IllegalState(): LoadError {
    RuntimeError("java.lang.IllegalStateException")
  }

  /** `createParameterTypeNcateg`: numerical parameters. */
  function NcategType(ctx: Context, cal: Calibrations, ss: SpaceSystem, pcf: PcfRecord): (r: Result<TypeBuild, LoadError>)
    requires ss.WellFormed()
    ensures r.Ok? ==> r.value.ss.WellFormed() && KeepsTypes(ss, r.value.ss) && r.value.errors == []
    ensures r.Ok? ==> r.value.ptype.units == [] && r.value.ptype.contextCalibrators == []
    ensures r.Ok? ==> KnownPtcPfc(pcf.ptc, pcf.pfc, pcf.vplb)
    ensures r.Ok? ==> (r.value.hasCalibrator <==> HasCalibration(cal, pcf))
    ensures r.Ok? && HasCalibration(cal, pcf) ==>
      2 <= pcf.ptc <= 5 && r.value.ptype.calibrator == GetNumericCalibrator(cal, pcf.curtx)
    ensures pcf.ptc == 1 && HasCalibration(cal, pcf) ==> r.Err?
    ensures pcf.ptc >= 6 && HasCalibration(cal, pcf) ==> r.Err?
    ensures r.Ok? && pcf.ptc == 1 ==> r.value.ptype.kind == BooleanKind
    ensures r.Ok? && pcf.ptc == 12 ==>
      (pcf.pfc == 0 || pcf.pfc == 1) && r.value.ptype.kind == AggregateKind(Ptc12Members(pcf.pfc))
      && forall i :: 0 <= i < |Ptc12Members(pcf.pfc)| ==> UintTypeName(Ptc12Members(pcf.pfc)[i].bits) in r.value.ss.parameterTypes
    ensures r.Ok? && pcf.ptc != 12 ==> r.value.ss == ss
    ensures r.Ok? && pcf.ptc != 12 ==> r.value.ptype.encoding == GetDataEncoding(Some(ctx), pcf.ptc, pcf.pfc, pcf.vplb).value
  {
    var ptc := pcf.ptc;
    var enc :- GetDataEncoding(Some(ctx), ptc, pcf.pfc, pcf.vplb);
    var hasCal := HasCalibration(cal, pcf);
    if ptc == 1 then
      if hasCal then Err(MibLoadError(Some(ctx), "Calibration for boolean parameters not supported"))
      else Ok(TypeBuild(ss, NewType(BooleanKind, enc), false, []))
    else if ptc < 6 then NumericType(ctx, cal, ss, pcf, enc)
    else if hasCal then
      Err(MibLoadError(Some(ctx), "Cannot specify calibrator for (PTC, PFC): (" + IntToString(ptc) + "," + IntToString(pcf.pfc) + ")"))
    else OtherType(ctx, ss, pcf, enc)
  }

  /** The PTC 2 to 5 branch: an uncalibrated parameter takes the host's type
      for its encoding; a calibrated one gets the kind its CAF row asks for
      and the calibrator named by PCF_CURTX. */
  function NumericType(ctx: Context, cal: Calibrations, ss: SpaceSystem, pcf: PcfRecord, enc: Option<DataEncoding>): (r: Result<TypeBuild, LoadError>)
    ensures r.Ok? ==> r.value.ss == ss && r.value.errors == [] && r.value.ptype.encoding == enc
    ensures r.Ok? ==> r.value.ptype.units == [] && r.value.ptype.contextCalibrators == []
    ensures r.Ok? ==> (r.value.hasCalibrator <==> HasCalibration(cal, pcf))
    ensures r.Ok? && HasCalibration(cal, pcf) ==> r.value.ptype.calibrator == GetNumericCalibrator(cal, pcf.curtx)
    ensures HasCalibration(cal, pcf) && GetNumericCalibrator(cal, pcf.curtx).Some? && !(enc.Some? && enc.value.IsNumeric()) ==> r.Err?
  {
    if !HasCalibration(cal, pcf) then
      var t :- GetDataType(enc, TypeName(pcf));
      Ok(TypeBuild(ss, t, false, []))
    else
      var kind :- CalibratedKind(ctx, cal, pcf);
      var calib := GetNumericCalibrator(cal, pcf.curtx);
      if calib.Some? && !(enc.Some? && enc.value.IsNumeric()) then Err(IllegalState())
      else Ok(TypeBuild(ss, NewType(kind, enc).(calibrator := calib), true, []))
  }

  /** PTC 6 and above, uncalibrated: binary, string, absolute time, or the
      aggregate of PTC 12 with its member types registered. */
  function OtherType(ctx: Context, ss: SpaceSystem, pcf: PcfRecord, enc: Option<DataEncoding>): (r: Result<TypeBuild, LoadError>)
    requires ss.WellFormed() && pcf.ptc >= 6
    ensures r.Ok? ==> r.value.ss.WellFormed() && KeepsTypes(ss, r.value.ss) && r.value.errors == []
    ensures r.Ok? ==> r.value.ptype.units == [] && r.value.ptype.contextCalibrators == []
    ensures r.Ok? ==> !r.value.hasCalibrator && r.value.ptype.encoding == enc
    ensures r.Ok? <==> pcf.ptc in {6, 7, 8, 9, 10} || (pcf.ptc == 12 && (pcf.pfc == 0 || pcf.pfc == 1))
    ensures r.Ok? && pcf.ptc == 12 ==>
      r.value.ptype.kind == AggregateKind(Ptc12Members(pcf.pfc))
      && forall i :: 0 <= i < |Ptc12Members(pcf.pfc)| ==> UintTypeName(Ptc12Members(pcf.pfc)[i].bits) in r.value.ss.parameterTypes
    ensures r.Ok? && pcf.ptc != 12 ==> r.value.ss == ss
  {
    var ptc := pcf.ptc;
    var pfc := pcf.pfc;
    if ptc == 6 || ptc == 7 then Ok(TypeBuild(ss, NewType(BinaryKind, enc), false, []))
    else if ptc == 8 || ptc == 10 then Ok(TypeBuild(ss, NewType(StringKind, enc), false, []))
    else if ptc == 9 then Ok(TypeBuild(ss, NewType(AbsoluteTimeKind(0.0, 0.001), enc), false, []))
    else if ptc == 12 then
      if pfc != 0 && pfc != 1 then
        Err(MibLoadError(Some(ctx), "Invalid combination (PTC, PFC): (" + IntToString(ptc) + ", " + IntToString(pfc) + ")"))
      else
        var members := Ptc12Members(pfc);
        Ok(TypeBuild(EnsureMemberTypes(ss, members), NewType(AggregateKind(members), enc), false, []))
    else
      Err(MibLoadError(Some(ctx), "Unsupported (PTC, PFC): (" + IntToString(ptc) + "," + IntToString(pfc) + ")"))
  }

  /** An integer type for a status parameter without a usable textual calibration. */
  function StatusInteger(ptc: int, enc: Option<DataEncoding>): DataType {
    NewType(IntegerKind(Some(ptc == 4), None), enc)
  }

  /** `createParameterTypeScateg`: status parameters. A missing PCF_CURTX or a
      textual calibration missing from TXF/TXP is reported and the parameter
      falls back to an integer (no report when CUR rows explain the absence). */
  function ScategType(ctx: Context, cal: Calibrations, ss: SpaceSystem, pcf: PcfRecord): (r: Result<TypeBuild, LoadError>)
    ensures r.Ok? <==> KnownPtcPfc(pcf.ptc, pcf.pfc, -1)
    ensures r.Ok? ==> r.value.ss == ss && !r.value.hasCalibrator
    ensures r.Ok? ==> r.value.ptype.units == [] && r.value.ptype.contextCalibrators == []
    ensures r.Ok? ==> r.value.ptype.encoding == GetDataEncoding(Some(ctx), pcf.ptc, pcf.pfc, -1).value
    ensures r.Ok? ==>
      var tx := pcf.curtx;
      && (tx.Some? && (tx.value in cal.enumerations || tx.value in cal.enumerationRanges) ==>
            r.value.ptype.kind == EnumeratedKind(
              if tx.value in cal.enumerations then cal.enumerations[tx.value] else [],
              if tx.value in cal.enumerationRanges then cal.enumerationRanges[tx.value] else [],
              []))
      && (tx.None? || (tx.value !in cal.enumerations && tx.value !in cal.enumerationRanges) ==>
            r.value.ptype.kind == IntegerKind(Some(pcf.ptc == 4), None))
      && (|r.value.errors| == 1 <==> tx.None? || (tx.value !in cal.enumerations && tx.value !in cal.enumerationRanges && pcf.name !in cal.curRecords.lists))
      && |r.value.errors| <= 1
  {
    var ptc := pcf.ptc;
    match pcf.curtx
    case None =>
      var report := MibLoadError(Some(ctx), "PCF_CURTX not defined for parameter " + pcf.name + " with PCF_CATEG=" + pcf.categ);
      var enc :- GetDataEncoding(Some(ctx), ptc, pcf.pfc, -1);
      Ok(TypeBuild(ss, StatusInteger(ptc, enc), false, [report]))
    case Some(tx) =>
      var enc :- GetDataEncoding(Some(ctx), ptc, pcf.pfc, -1);
      if tx !in cal.enumerations && tx !in cal.enumerationRanges then
        if pcf.name in cal.curRecords.lists then Ok(TypeBuild(ss, StatusInteger(ptc, enc), false, []))
        else
          var report := MibLoadError(Some(ctx), "Textual calibration for parameter " + pcf.name + " '" + tx + "' not found in TXF file");
          Ok(TypeBuild(ss, StatusInteger(ptc, enc), false, [report]))
      else
        var values := if tx in cal.enumerations then cal.enumerations[tx] else [];
        var ranges := if tx in cal.enumerationRanges then cal.enumerationRanges[tx] else [];
        Ok(TypeBuild(ss, NewType(EnumeratedKind(values, ranges, []), enc), false, []))
  }

  /** `createParameterTypeTcateg`: textual parameters, which must be PTC 8. */
  function TcategType(ctx: Context, ss: SpaceSystem, pcf: PcfRecord): (r: Result<TypeBuild, LoadError>)
    ensures r.Ok? <==> pcf.ptc == 8 && KnownPtcPfc(8, pcf.pfc, pcf.vplb)
    ensures r.Ok? ==> r.value.ss == ss && !r.value.hasCalibrator && r.value.errors == []
    ensures r.Ok? ==> r.value.ptype.units == [] && r.value.ptype.contextCalibrators == []
    ensures r.Ok? ==> r.value.ptype.kind == StringKind && r.value.ptype.initialValue == pcf.parval
    ensures r.Ok? ==> r.value.ptype.encoding == GetDataEncoding(Some(ctx), 8, pcf.pfc, pcf.vplb).value
  {
    if pcf.ptc != 8 then
      Err(MibLoadError(Some(ctx), "Invalid combination (PTC, PFC, PFC_CATEG): (" + IntToString(pcf.ptc) + ", " + IntToString(pcf.pfc) + ", T)"))
    else
      var enc :- GetDataEncoding(Some(ctx), pcf.ptc, pcf.pfc, pcf.vplb);
      Ok(TypeBuild(ss, NewType(StringKind, enc).(initialValue := pcf.parval), false, []))
  }

  /** `createParameterType`: dispatch on PCF_CATEG, then the unit and, for
      constants, the initial value. */
  function CreateParameterType(ctx: Context, cal: Calibrations, ss: SpaceSystem, pcf: PcfRecord): (r: Result<TypeBuild, LoadError>)
    requires ss.WellFormed()
    ensures r.Ok? ==> pcf.categ in {"N", "S", "T"}
    ensures pcf.categ !in {"N", "S", "T"} ==> r == Err(MibLoadError(Some(ctx), "Invalid value '" + pcf.categ + "' for column PCF_CATEG"))
    ensures r.Ok? ==> r.value.ss.WellFormed() && KeepsTypes(ss, r.value.ss)
    ensures r.Ok? ==> r.value.ptype.units == (if pcf.unit.Some? then [pcf.unit.value] else [])
    ensures r.Ok? && pcf.natur == Some("C") && pcf.parval.Some? ==> r.value.ptype.initialValue == pcf.parval
    ensures r.Ok? && r.value.hasCalibrator ==> pcf.categ == "N" && HasCalibration(cal, pcf)
  {
    var tb :-
      if pcf.categ == "N" then NcategType(ctx, cal, ss, pcf)
      else if pcf.categ == "S" then ScategType(ctx, cal, ss, pcf)
      else if pcf.categ == "T" then TcategType(ctx, ss, pcf)
      else Err(MibLoadError(Some(ctx), "Invalid value '" + pcf.categ + "' for column PCF_CATEG"));
    Ok(tb.(ptype := Finish(tb.ptype, pcf)))
  }

  /** The unit, and the initial value of a constant (PCF_NATUR "C"). */
  function Finish(t: DataType, pcf: PcfRecord): (r: DataType)
    ensures r.kind == t.kind && r.encoding == t.encoding && r.name == t.name && r.calibrator == t.calibrator
    ensures r.units == t.units + (if pcf.unit.Some? then [pcf.unit.value] else [])
    ensures r.initialValue == (if pcf.natur == Some("C") && pcf.parval.Some? then pcf.parval else t.initialValue)
  {
    var u := t.WithUnit(pcf.unit);
    if pcf.natur == Some("C") && pcf.parval.Some? then u.(initialValue := pcf.parval) else u
  }

  // ---------------------------------------------------------------------------
  // The PCF table

  /** The telemetry loader's state: the space system, the calibration tables,
      the PCF parameters by name (with their names in first-row order), the
      deduced and the synthetic (PTC 13) parameters, and the errors reported
      so far. */
  datatype TmState = TmState(
    ss: SpaceSystem,
    cal: Calibrations,
    parameters: map<string, MibParameter>,
    parameterOrder: seq<string>,
    deduced: map<string, DeducedParameter>,
    synthetic: map<string, PcfRecord>,
    errors: seq<LoadError>)

  function InitialState(ss: SpaceSystem, cal: Calibrations): (st: TmState)
    requires ss.WellFormed()
    ensures ValidParams(st)
  {
    TmState(ss, cal, map[], [], map[], map[], [])
  }

  /** The type is the one registered in the space system under its name. */
  ghost predicate Registered(ss: SpaceSystem, t: DataType) {
    t.name.Some? && t.name.value in ss.parameterTypes && ss.parameterTypes[t.name.value] == t
  }

  /** A parameter has CUR rows: its type carries context calibrators and is its own. */
  predicate HasContextCalibration(st: TmState, n: string) {
    n in st.cal.curRecords.lists
  }

  /** What holds of the parameter map after every PCF row:
      - it is keyed by the PCF name, a word, and holds no PTC 13 row;
      - exactly the deduced (PTC 11) parameters have no type, and each is
        recorded with its related parameter;
      - every type is the one registered under its name in the space system;
      - a parameter without CUR rows has the type named by its typing
        columns, one with CUR rows a type named `<typeName>_<k>`;
      - no two parameters with CUR rows have the same type. */
  ghost predicate ValidParams(st: TmState) {
    ParamKeys(st) && ParamDeduced(st) && ParamTypes(st) && ParamTypeNames(st) && PrivateTypes(st)
  }

  ghost predicate ParamKeys(st: TmState) {
    && st.ss.WellFormed()
    && (forall n :: n in st.parameters <==> n in st.parameterOrder)
    && NoDuplicates(st.parameterOrder)
    && (forall n :: n in st.parameters ==>
          st.parameters[n].pcf.name == n && IsWordString(n) && st.parameters[n].pcf.ptc != 13)
  }

  ghost predicate ParamDeduced(st: TmState) {
    && (forall n :: n in st.parameters ==> (st.parameters[n].ptype.None? <==> st.parameters[n].pcf.ptc == 11))
    && (forall n :: n in st.parameters && st.parameters[n].pcf.ptc == 11 ==>
          n in st.deduced && st.deduced[n].pname == n)
  }

  ghost predicate ParamTypes(st: TmState) {
    forall n :: n in st.parameters && st.parameters[n].ptype.Some? ==> Registered(st.ss, st.parameters[n].ptype.value)
  }

  /** The type name rule of one parameter. */
  ghost predicate NamedByRule(cal: Calibrations, mp: MibParameter) {
    mp.ptype.Some? ==>
      if mp.pcf.name in cal.curRecords.lists then
        exists k: nat :: mp.ptype.value.name == Some(InstanceName(TypeName(mp.pcf), k))
      else mp.ptype.value.name == Some(TypeName(mp.pcf))
  }

  /** A typed parameter with CUR rows. */
  predicate Private(st: TmState, n: string)
    requires n in st.parameters
  {
    HasContextCalibration(st, n) && st.parameters[n].ptype.Some?
  }

  ghost predicate PrivateTypes(st: TmState) {
    forall a, b :: a in st.parameters && b in st.parameters && a != b && Private(st, a) && Private(st, b) ==>
      st.parameters[a].ptype.value.name != st.parameters[b].ptype.value.name
  }

  ghost predicate ParamTypeNames(st: TmState) {
    forall n :: n in st.parameters ==> NamedByRule(st.cal, st.parameters[n])
  }

  /** `<typeName>_<k>`: the name of the k-th private type for a type name. */
  function InstanceName(base: string, k: nat): (s: string)
    ensures StartsWith(s, base + "_")
  {
    var s := base + "_" + IntToString(k);
    assert s[..|base| + 1] == base + "_";
    s
  }

  /** Different indexes give different names. */
  lemma InstanceNamesDistinct(base: string, j: nat, k: nat)
    requires j != k
    ensures InstanceName(base, j) != InstanceName(base, k)
  {
    var p := |base| + 1;
    assert InstanceName(base, j)[p..] == IntToString(j);
    assert InstanceName(base, k)[p..] == IntToString(k);
    IntToStringRoundTrip(j, 0, j + k);
    IntToStringRoundTrip(k, 0, j + k);
  }

  /** The `while (getParameterType(name + "_" + idx) != null) idx++` search:
      the first index from `k` on whose name is not taken. */
  function FreshIndex(keys: set<string>, base: string, k: nat): (r: nat)
    ensures k <= r && InstanceName(base, r) !in keys
    ensures forall j :: k <= j < r ==> InstanceName(base, j) in keys
    decreases keys
  {
    if InstanceName(base, k) !in keys then k
    else
      var r := FreshIndex(keys - {InstanceName(base, k)}, base, k + 1);
      InstanceNamesDistinct(base, k, r);
      r
  }

  /** `parameters.put(pname, mp)`. */
  function Put(st: TmState, mp: MibParameter): (r: TmState)
    ensures r.parameters == st.parameters[mp.pcf.name := mp]
    ensures r.ss == st.ss && r.cal == st.cal && r.deduced == st.deduced && r.synthetic == st.synthetic && r.errors == st.errors
  {
    var n := mp.pcf.name;
    st.(parameters := st.parameters[n := mp],
        parameterOrder := if n in st.parameters then st.parameterOrder else st.parameterOrder + [n])
  }

  function NoRelated(ctx: Context, pname: string): LoadError {
    MibLoadError(Some(ctx), "PCF_RELATED is not set for deduced parameter '" + pname + "'")
  }

  /** Adding one parameter keeps the key invariant. */
  lemma PutKeys(st: TmState, ss1: SpaceSystem, mp: MibParameter)
    requires ParamKeys(st) && ss1.WellFormed()
    requires IsWordString(mp.pcf.name) && mp.pcf.ptc != 13
    ensures ParamKeys(Put(st.(ss := ss1), mp))
  {
    var r := Put(st.(ss := ss1), mp);
    var n := mp.pcf.name;
    if n !in st.parameters {
      assert r.parameterOrder == st.parameterOrder + [n];
      forall i, j | 0 <= i < j < |r.parameterOrder|
        ensures r.parameterOrder[i] != r.parameterOrder[j]
      {
        if j == |st.parameterOrder| {
          assert r.parameterOrder[i] == st.parameterOrder[i];
        }
      }
    }
  }

  /** Adding one parameter whose type, if any, is registered in `ss1`, a
      space system keeping every type, keeps the registration invariant. */
  lemma PutTypes(st: TmState, ss1: SpaceSystem, mp: MibParameter)
    requires ParamTypes(st) && KeepsTypes(st.ss, ss1)
    requires mp.ptype.Some? ==> Registered(ss1, mp.ptype.value)
    ensures ParamTypes(Put(st.(ss := ss1), mp))
  {
    var r := Put(st.(ss := ss1), mp);
    forall n | n in r.parameters && r.parameters[n].ptype.Some?
      ensures Registered(r.ss, r.parameters[n].ptype.value)
    {
      if n != mp.pcf.name {
        assert Registered(st.ss, st.parameters[n].ptype.value);
      }
    }
  }

  /** Adding one parameter keeps the naming invariant when it follows the rule. */
  lemma PutTypeNames(st: TmState, ss1: SpaceSystem, mp: MibParameter)
    requires ParamTypeNames(st) && NamedByRule(st.cal, mp)
    ensures ParamTypeNames(Put(st.(ss := ss1), mp))
  {
  }

  /** Adding one parameter keeps the private-type invariant when it is not
      private, or when its type has a name no registered type had. */
  lemma PutPrivate(st: TmState, ss1: SpaceSystem, mp: MibParameter)
    requires PrivateTypes(st) && ParamTypes(st)
    requires mp.ptype.Some? && HasContextCalibration(st, mp.pcf.name) ==>
      mp.ptype.value.name.Some? && mp.ptype.value.name.value !in st.ss.parameterTypes
    ensures PrivateTypes(Put(st.(ss := ss1), mp))
  {
    var r := Put(st.(ss := ss1), mp);
    var n := mp.pcf.name;
    forall a, b | a in r.parameters && b in r.parameters && a != b && Private(r, a) && Private(r, b)
      ensures r.parameters[a].ptype.value.name != r.parameters[b].ptype.value.name
    {
      if a == n {
        assert Registered(st.ss, st.parameters[b].ptype.value);
      } else if b == n {
        assert Registered(st.ss, st.parameters[a].ptype.value);
      } else {
        assert Private(st, a) && Private(st, b);
      }
    }
  }

  /** Adding one parameter keeps the deduced-parameter invariant. */
  lemma PutDeducedPart(st: TmState, ss1: SpaceSystem, mp: MibParameter)
    requires ParamDeduced(st)
    requires mp.ptype.None? <==> mp.pcf.ptc == 11
    requires mp.pcf.ptc == 11 ==> mp.pcf.name in st.deduced && st.deduced[mp.pcf.name].pname == mp.pcf.name
    ensures ParamDeduced(Put(st.(ss := ss1), mp))
  {
  }

  /** Adding one parameter that fits every part keeps the whole invariant. */
  lemma PutValid(st: TmState, ss1: SpaceSystem, mp: MibParameter)
    requires ValidParams(st) && ss1.WellFormed() && KeepsTypes(st.ss, ss1)
    requires IsWordString(mp.pcf.name) && mp.pcf.ptc != 13
    requires mp.ptype.None? <==> mp.pcf.ptc == 11
    requires mp.pcf.ptc == 11 ==> mp.pcf.name in st.deduced && st.deduced[mp.pcf.name].pname == mp.pcf.name
    requires mp.ptype.Some? ==> Registered(ss1, mp.ptype.value)
    requires NamedByRule(st.cal, mp)
    requires mp.ptype.Some? && HasContextCalibration(st, mp.pcf.name) ==>
      mp.ptype.value.name.Some? && mp.ptype.value.name.value !in st.ss.parameterTypes
    ensures ValidParams(Put(st.(ss := ss1), mp))
  {
    PutKeys(st, ss1, mp);
    PutDeducedPart(st, ss1, mp);
    PutTypes(st, ss1, mp);
    PutTypeNames(st, ss1, mp);
    PutPrivate(st, ss1, mp);
  }

  /** Records a deduced parameter: no type, and its related parameter. */
  function PutDeduced(st: TmState, pcf: PcfRecord, related: string): (r: TmState)
    requires ValidParams(st)
    requires pcf.ptc == 11 && IsWordString(pcf.name)
    ensures ValidParams(r) && r.ss == st.ss && r.cal == st.cal
    ensures r.parameters == st.parameters[pcf.name := NewMibParameter(pcf)]
    ensures r.deduced == st.deduced[pcf.name := DeducedParameter(pcf.name, related)]
  {
    var st1 := st.(deduced := st.deduced[pcf.name := DeducedParameter(pcf.name, related)]);
    var mp := NewMibParameter(pcf);
    assert st1.(ss := st1.ss) == st1;
    PutValid(st1, st1.ss, mp);
    Put(st1, mp)
  }

  /** Records a typed parameter whose type is registered in `ss1`, a space
      system that keeps every type of the current one. */
  function PutTyped(st: TmState, ss1: SpaceSystem, errors: seq<LoadError>, pcf: PcfRecord, t: DataType, hasCal: bool): (r: TmState)
    requires ValidParams(st)
    requires ss1.WellFormed() && KeepsTypes(st.ss, ss1) && Registered(ss1, t)
    requires pcf.ptc != 11 && pcf.ptc != 13 && IsWordString(pcf.name)
    requires NamedByRule(st.cal, MibParameter(pcf, Some(t), hasCal))
    requires HasContextCalibration(st, pcf.name) ==> t.name.value !in st.ss.parameterTypes
    ensures ValidParams(r) && r.ss == ss1 && r.cal == st.cal && r.deduced == st.deduced && r.synthetic == st.synthetic
    ensures r.parameters == st.parameters[pcf.name := MibParameter(pcf, Some(t), hasCal)]
    ensures r.errors == st.errors + errors
  {
    var mp := MibParameter(pcf, Some(t), hasCal);
    PutValid(st, ss1, mp);
    var r := Put(st.(ss := ss1), mp);
    ErrorsValid(r, r.errors + errors);
    r.(errors := r.errors + errors)
  }

  /** The reported errors play no part in the invariant. */
  lemma ErrorsValid(st: TmState, errors: seq<LoadError>)
    requires ValidParams(st)
    ensures ValidParams(st.(errors := errors))
  {
    var r := st.(errors := errors);
    assert ParamKeys(r) && ParamDeduced(r) && ParamTypeNames(r) && PrivateTypes(r);
    assert ParamTypes(r);
  }

  /** Registering a type under a name not yet taken keeps every other type. */
  lemma AddFreshTypeKeeps(a: SpaceSystem, b: SpaceSystem, t: DataType, n: string)
    requires a.WellFormed() && b.WellFormed() && KeepsTypes(a, b) && n !in a.parameterTypes
    ensures KeepsTypes(a, b.AddParameterType(t, n)) && Registered(b.AddParameterType(t, n), t.Named(n))
  {
  }

  /** A typed PCF row (neither deduced nor synthetic). Without CUR rows the
      type registered under the type name is reused, or built and registered
      under that name; with CUR rows a type is always built, and registered
      under the first free `<typeName>_<k>`. */
  function PcfTyped(ctx: Context, pcf: PcfRecord, st: TmState): (r: Result<TmState, LoadError>)
    requires ValidParams(st)
    requires pcf.ptc != 11 && pcf.ptc != 13 && IsWordString(pcf.name)
    ensures r.Ok? ==> ValidParams(r.value) && r.value.cal == st.cal && KeepsTypes(st.ss, r.value.ss)
    ensures r.Ok? ==>
      && pcf.name in r.value.parameters && r.value.parameters[pcf.name].pcf == pcf
      && r.value.parameters[pcf.name].ptype.Some?
      && r.value.parameters == st.parameters[pcf.name := r.value.parameters[pcf.name]]
      && r.value.deduced == st.deduced && r.value.synthetic == st.synthetic
    ensures !HasContextCalibration(st, pcf.name) && TypeName(pcf) in st.ss.parameterTypes ==>
      r.Ok? && r.value.parameters[pcf.name].ptype == Some(st.ss.parameterTypes[TypeName(pcf)]) && r.value.ss == st.ss
    ensures r.Ok? && HasContextCalibration(st, pcf.name) ==>
      var t := r.value.parameters[pcf.name].ptype.value;
      t.name.Some? && t.name.value !in st.ss.parameterTypes
      && (exists k: nat :: t.name.value == InstanceName(TypeName(pcf), k)
            && forall j :: 0 <= j < k ==> InstanceName(TypeName(pcf), j) in r.value.ss.parameterTypes)
  {
    if !HasContextCalibration(st, pcf.name) then SharedTyped(ctx, pcf, st)
    else PrivateTyped(ctx, pcf, st)
  }

  /** A parameter without CUR rows: the type registered under its type name
      is reused, or built and registered under that name. */
  function SharedTyped(ctx: Context, pcf: PcfRecord, st: TmState): (r: Result<TmState, LoadError>)
    requires ValidParams(st) && !HasContextCalibration(st, pcf.name)
    requires pcf.ptc != 11 && pcf.ptc != 13 && IsWordString(pcf.name)
    ensures r.Ok? ==> ValidParams(r.value) && r.value.cal == st.cal && KeepsTypes(st.ss, r.value.ss)
    ensures r.Ok? ==>
      && pcf.name in r.value.parameters && r.value.parameters[pcf.name].pcf == pcf
      && r.value.parameters[pcf.name].ptype.Some?
      && r.value.parameters == st.parameters[pcf.name := r.value.parameters[pcf.name]]
      && r.value.deduced == st.deduced && r.value.synthetic == st.synthetic
    ensures TypeName(pcf) in st.ss.parameterTypes ==>
      r.Ok? && r.value.parameters[pcf.name].ptype == Some(st.ss.parameterTypes[TypeName(pcf)]) && r.value.ss == st.ss
  {
    var tn := TypeName(pcf);
    if tn in st.ss.parameterTypes then
      Ok(PutTyped(st, st.ss, [], pcf, st.ss.parameterTypes[tn], false))
    else
      var tb :- CreateParameterType(ctx, st.cal, st.ss, pcf);
      AddFreshTypeKeeps(st.ss, tb.ss, tb.ptype, tn);
      Ok(PutTyped(st, tb.ss.AddParameterType(tb.ptype, tn), tb.errors, pcf, tb.ptype.Named(tn), tb.hasCalibrator))
  }

  /** A parameter with CUR rows: a type is always built, and registered
      under the first free `<typeName>_<k>`. */
  function PrivateTyped(ctx: Context, pcf: PcfRecord, st: TmState): (r: Result<TmState, LoadError>)
    requires ValidParams(st) && HasContextCalibration(st, pcf.name)
    requires pcf.ptc != 11 && pcf.ptc != 13 && IsWordString(pcf.name)
    ensures r.Ok? ==> ValidParams(r.value) && r.value.cal == st.cal && KeepsTypes(st.ss, r.value.ss)
    ensures r.Ok? ==>
      && pcf.name in r.value.parameters && r.value.parameters[pcf.name].pcf == pcf
      && r.value.parameters[pcf.name].ptype.Some?
      && r.value.parameters == st.parameters[pcf.name := r.value.parameters[pcf.name]]
      && r.value.deduced == st.deduced && r.value.synthetic == st.synthetic
    ensures r.Ok? ==>
      var t := r.value.parameters[pcf.name].ptype.value;
      t.name.Some? && t.name.value !in st.ss.parameterTypes
      && (exists k: nat :: t.name.value == InstanceName(TypeName(pcf), k)
            && forall j :: 0 <= j < k ==> InstanceName(TypeName(pcf), j) in r.value.ss.parameterTypes)
  {
    var tn := TypeName(pcf);
    var tb :- CreateParameterType(ctx, st.cal, st.ss, pcf);
    var k := FreshIndex(tb.ss.parameterTypes.Keys, tn, 0);
    var name := InstanceName(tn, k);
    AddFreshTypeKeeps(st.ss, tb.ss, tb.ptype, name);
    Ok(PutTyped(st, tb.ss.AddParameterType(tb.ptype, name), tb.errors, pcf, tb.ptype.Named(name), tb.hasCalibrator))
  }

  /** The synthetic parameters play no part in the invariant. */
  lemma SetAsideValid(st: TmState, synthetic: map<string, PcfRecord>)
    requires ValidParams(st)
    ensures ValidParams(st.(synthetic := synthetic))
  {
    var r := st.(synthetic := synthetic);
    assert ParamKeys(r) && ParamDeduced(r) && ParamTypes(r);
    assert ParamTypeNames(r) && PrivateTypes(r) by {
      assert forall n :: HasContextCalibration(r, n) == HasContextCalibration(st, n);
    }
  }

  /** What one parsed PCF row does: a synthetic (PTC 13) row is set aside,
      a deduced (PTC 11) row needs PCF_RELATED and gets no type, any other
      row gets a type. */
  function PcfApply(ctx: Context, pcf: PcfRecord, st: TmState): (r: Result<TmState, LoadError>)
    requires ValidParams(st) && IsWordString(pcf.name)
    ensures r.Ok? ==> ValidParams(r.value) && r.value.cal == st.cal && KeepsTypes(st.ss, r.value.ss)
    ensures r.Ok? ==> r.value.parameters.Keys == st.parameters.Keys + (if pcf.ptc == 13 then {} else {pcf.name})
    ensures r.Ok? ==> forall n :: n in st.parameters && n != pcf.name ==> r.value.parameters[n] == st.parameters[n]
    ensures r.Ok? && pcf.ptc != 13 ==> r.value.parameters[pcf.name].pcf == pcf
    ensures r.Ok? && pcf.ptc == 13 ==> r.value.synthetic == st.synthetic[pcf.name := pcf] && r.value.parameters == st.parameters
    ensures pcf.ptc == 11 ==>
      (r.Ok? <==> pcf.related.Some?)
      && (r.Ok? ==> r.value.deduced == st.deduced[pcf.name := DeducedParameter(pcf.name, pcf.related.value)]
                    && r.value.parameters[pcf.name].ptype.None?)
      && (r.Err? ==> r.error == NoRelated(ctx, pcf.name))
  {
    if pcf.ptc == 13 then
      SetAsideValid(st, st.synthetic[pcf.name := pcf]);
      Ok(st.(synthetic := st.synthetic[pcf.name := pcf]))
    else if pcf.ptc == 11 then
      match pcf.related
      case None => Err(NoRelated(ctx, pcf.name))
      case Some(related) => Ok(PutDeduced(st, pcf, related))
    else
      PcfTyped(ctx, pcf, st)
  }

  /** One PCF row of `loadPcf`. */
  function PcfStep(ctx: Context, line: seq<string>, defaultVplb: int, st: TmState): (r: Result<TmState, LoadError>)
    requires ValidParams(st)
    ensures ParsePcf(ctx, line, defaultVplb).Err? ==> r == Err(ParsePcf(ctx, line, defaultVplb).error)
    ensures ParsePcf(ctx, line, defaultVplb).Ok? ==> r == PcfApply(ctx, ParsePcf(ctx, line, defaultVplb).value, st)
  {
    var pcf :- ParsePcf(ctx, line, defaultVplb);
    PcfApply(ctx, pcf, st)
  }

  function RowPcf(t: Table, defaultVplb: int, i: nat): Result<PcfRecord, LoadError>
    requires i < |t.lines|
  {
    ParsePcf(t.At(i), t.lines[i].fields, defaultVplb)
  }

  /** The rows read so far: each parsed, each typed row's name a key, and
      every new key the name of one of them. */
  ghost predicate RowsLoaded(t: Table, defaultVplb: int, st0: TmState, st: TmState, n: nat)
    requires n <= |t.lines|
  {
    && (forall i :: 0 <= i < n ==> RowPcf(t, defaultVplb, i).Ok?)
    && (forall i :: 0 <= i < n && RowPcf(t, defaultVplb, i).value.ptc != 13 ==>
          RowPcf(t, defaultVplb, i).value.name in st.parameters)
    && (forall p :: p in st.parameters ==>
          p in st0.parameters || exists i :: 0 <= i < n && RowPcf(t, defaultVplb, i).value.name == p)
  }

  lemma RowsLoadedStep(t: Table, defaultVplb: int, st0: TmState, st: TmState, n: nat, r: TmState)
    requires 0 < n <= |t.lines|
    requires RowsLoaded(t, defaultVplb, st0, st, n - 1)
    requires RowPcf(t, defaultVplb, n - 1).Ok?
    requires var pcf := RowPcf(t, defaultVplb, n - 1).value;
      r.parameters.Keys == st.parameters.Keys + (if pcf.ptc == 13 then {} else {pcf.name})
    ensures RowsLoaded(t, defaultVplb, st0, r, n)
  {
    forall p | p in r.parameters
      ensures p in st0.parameters || exists i :: 0 <= i < n && RowPcf(t, defaultVplb, i).value.name == p
    {
      if p !in st.parameters {
        assert RowPcf(t, defaultVplb, n - 1).value.name == p;
      }
    }
  }

  /** `loadPcf` over the first `n` rows of the table. */
  function LoadPcfUpTo(t: Table, defaultVplb: int, st0: TmState, n: nat): (r: Result<TmState, LoadError>)
    requires ValidParams(st0) && n <= |t.lines|
    ensures r.Ok? ==> ValidParams(r.value) && r.value.cal == st0.cal && KeepsTypes(st0.ss, r.value.ss)
    ensures r.Ok? ==> RowsLoaded(t, defaultVplb, st0, r.value, n)
    decreases n
  {
    if n == 0 then Ok(st0)
    else
      var st :- LoadPcfUpTo(t, defaultVplb, st0, n - 1);
      var r := PcfStep(t.At(n - 1), t.lines[n - 1].fields, defaultVplb, st);
      if r.Ok? then
        assert RowPcf(t, defaultVplb, n - 1).Ok?;
        RowsLoadedStep(t, defaultVplb, st0, st, n, r.value);
        r
      else r
  }

  /** `loadPcf`: every PCF row in order, the first error aborting. */
  function LoadPcf(t: Table, defaultVplb: int, st0: TmState): (r: Result<TmState, LoadError>)
    requires ValidParams(st0)
    ensures r.Ok? ==> ValidParams(r.value) && r.value.cal == st0.cal && KeepsTypes(st0.ss, r.value.ss)
    ensures r.Ok? ==> RowsLoaded(t, defaultVplb, st0, r.value, |t.lines|)
  {
    LoadPcfUpTo(t, defaultVplb, st0, |t.lines|)
  }

  /** Parameters without CUR rows whose typing columns agree share one type,
      whatever their names, descriptions or pids. */
  lemma {:induction false} SharedType(st: TmState, a: string, b: string)
    requires ValidParams(st)
    requires a in st.parameters && b in st.parameters
    requires st.parameters[a].ptype.Some? && st.parameters[b].ptype.Some?
    requires !HasContextCalibration(st, a) && !HasContextCalibration(st, b)
    requires SameTypingColumns(st.parameters[a].pcf, st.parameters[b].pcf)
    ensures st.parameters[a].ptype == st.parameters[b].ptype
  {
    var pa := st.parameters[a];
    var pb := st.parameters[b];
    TypeNameDeterminedByTypingColumns(pa.pcf, pb.pcf);
    assert NamedByRule(st.cal, pa) && NamedByRule(st.cal, pb);
    assert Registered(st.ss, pa.ptype.value) && Registered(st.ss, pb.ptype.value);
  }

  // ---------------------------------------------------------------------------
  // Adding the parameters to the space system

  /** The space-system parameter of a typed PCF parameter: its description,
      its type, and its on-board id as an `OB:PID` alias when it has one. */
  function ToParameter(mp: MibParameter): (p: Parameter)
    requires mp.ptype.Some?
    ensures p.name == mp.pcf.name && p.ptype == mp.ptype.value && p.description == Some(mp.pcf.descr)
    ensures |p.aliases| <= 1
    ensures (|p.aliases| == 1) == (mp.pcf.pid != -1)
    ensures |p.aliases| == 1 ==> p.aliases[0].namespace == OB_PID_NAMESPACE
  {
    var aliases := if mp.pcf.pid != -1 then [Alias(OB_PID_NAMESPACE, IntToString(mp.pcf.pid))] else [];
    Parameter(mp.pcf.name, Some(mp.pcf.descr), mp.ptype.value, aliases)
  }

  /** The `OB:PID` alias reads back as the PCF_PID column. */
  lemma PidAliasRoundTrip(mp: MibParameter)
    requires mp.ptype.Some? && mp.pcf.pid != -1 && IsJavaInt(mp.pcf.pid)
    ensures ParseInt(ToParameter(mp).aliases[0].alias) == Some(mp.pcf.pid)
  {
    IntToStringRoundTrip(mp.pcf.pid, INT_MIN, INT_MAX);
  }

  /** Every typed PCF parameter is in the space system, as `ToParameter` builds it. */
  ghost predicate Published(st: TmState) {
    forall n :: n in st.parameters && st.parameters[n].ptype.Some? ==>
      n in st.ss.parameters && st.ss.parameters[n] == ToParameter(st.parameters[n])
  }

  /** What publishing needs of a state: the order lists known parameters
      once each, and exactly the deduced ones are untyped. */
  ghost predicate Publishable(st: TmState) {
    && st.ss.WellFormed()
    && NoDuplicates(st.parameterOrder)
    && (forall i :: 0 <= i < |st.parameterOrder| ==>
          st.parameterOrder[i] in st.parameters && st.parameters[st.parameterOrder[i]].pcf.name == st.parameterOrder[i])
    && (forall i :: 0 <= i < |st.parameterOrder| ==>
          (st.parameters[st.parameterOrder[i]].pcf.ptc == 11 <==> st.parameters[st.parameterOrder[i]].ptype.None?))
  }

  lemma ValidPublishable(st: TmState)
    requires ParamKeys(st) && ParamDeduced(st)
    ensures Publishable(st)
  {
  }

  /** The parameters of the first `n` names of the parameter order added,
      deduced ones (PTC 11) skipped. */
  function PublishUpTo(st: TmState, n: nat): (ss: SpaceSystem)
    requires Publishable(st) && n <= |st.parameterOrder|
    ensures ss.WellFormed() && ss.parameterTypes == st.ss.parameterTypes
    ensures ss.containers == st.ss.containers && ss.containerOrder == st.ss.containerOrder && ss.commands == st.ss.commands
    decreases n
  {
    if n == 0 then st.ss
    else
      var ss := PublishUpTo(st, n - 1);
      var mp := st.parameters[st.parameterOrder[n - 1]];
      if mp.pcf.ptc == 11 then ss
      else ss.AddParameter(ToParameter(mp))
  }

  /** After `n` steps the first `n` typed parameters are published. */
  lemma {:induction false} PublishUpToContents(st: TmState, n: nat)
    requires Publishable(st) && n <= |st.parameterOrder|
    ensures forall i :: 0 <= i < n && st.parameters[st.parameterOrder[i]].ptype.Some? ==>
      st.parameterOrder[i] in PublishUpTo(st, n).parameters
      && PublishUpTo(st, n).parameters[st.parameterOrder[i]] == ToParameter(st.parameters[st.parameterOrder[i]])
    decreases n
  {
    if n > 0 {
      PublishUpToContents(st, n - 1);
      var name := st.parameterOrder[n - 1];
      var prev := PublishUpTo(st, n - 1);
      var mp := st.parameters[name];
      assert PublishUpTo(st, n).parameters == if mp.pcf.ptc == 11 then prev.parameters else prev.parameters[mp.pcf.name := ToParameter(mp)];
      assert mp.pcf.name == name;
      forall i | 0 <= i < n - 1 && st.parameters[st.parameterOrder[i]].ptype.Some?
        ensures st.parameterOrder[i] in PublishUpTo(st, n).parameters
        ensures PublishUpTo(st, n).parameters[st.parameterOrder[i]] == ToParameter(st.parameters[st.parameterOrder[i]])
      {
        assert st.parameterOrder[i] != name;
      }
    }
  }

  /** Publishing adds only names of the order and changes no other entry. */
  lemma {:induction false} PublishUpToFrame(st: TmState, n: nat)
    requires Publishable(st) && n <= |st.parameterOrder|
    ensures forall p :: p in PublishUpTo(st, n).parameters ==> p in st.ss.parameters || p in st.parameterOrder
    ensures forall p :: p in st.ss.parameters ==> p in PublishUpTo(st, n).parameters
    ensures forall p :: p in st.ss.parameters && p !in st.parameterOrder ==> PublishUpTo(st, n).parameters[p] == st.ss.parameters[p]
    decreases n
  {
    if n > 0 {
      PublishUpToFrame(st, n - 1);
      var prev := PublishUpTo(st, n - 1);
      var mp := st.parameters[st.parameterOrder[n - 1]];
      assert PublishUpTo(st, n).parameters == if mp.pcf.ptc == 11 then prev.parameters else prev.parameters[mp.pcf.name := ToParameter(mp)];
      assert mp.pcf.name == st.parameterOrder[n - 1];
    }
  }

  /** Replacing the space system by one with the same types and the same
      shape keeps the invariant. */
  lemma SameTypesValid(st: TmState, ss: SpaceSystem)
    requires ValidParams(st) && ss.WellFormed() && ss.parameterTypes == st.ss.parameterTypes
    ensures ValidParams(st.(ss := ss))
  {
    var r := st.(ss := ss);
    assert ParamKeys(r) && ParamDeduced(r) && ParamTypeNames(r) && PrivateTypes(r);
    forall n | n in r.parameters && r.parameters[n].ptype.Some?
      ensures Registered(r.ss, r.parameters[n].ptype.value)
    {
      assert Registered(st.ss, st.parameters[n].ptype.value);
    }
  }

  lemma PublishPublished(st: TmState)
    requires ValidParams(st)
    ensures Publishable(st)
    ensures Published(st.(ss := PublishUpTo(st, |st.parameterOrder|)))
  {
    ValidPublishable(st);
    PublishUpToContents(st, |st.parameterOrder|);
    forall n | n in st.parameters && st.parameters[n].ptype.Some?
      ensures n in PublishUpTo(st, |st.parameterOrder|).parameters
      ensures PublishUpTo(st, |st.parameterOrder|).parameters[n] == ToParameter(st.parameters[n])
    {
      assert n in st.parameterOrder;
      var i :| 0 <= i < |st.parameterOrder| && st.parameterOrder[i] == n;
    }
  }

  /** The loop of `loadTelemetryParams` adding every parameter except the
      deduced ones to the space system. */
  function Publish(st: TmState): (r: TmState)
    requires ValidParams(st)
    ensures ValidParams(r) && Published(r)
    ensures r.parameters == st.parameters && r.parameterOrder == st.parameterOrder && r.cal == st.cal
    ensures r.ss.parameterTypes == st.ss.parameterTypes
    ensures forall p :: p in st.ss.parameters ==> p in r.ss.parameters
    ensures forall p :: p in r.ss.parameters ==> p in st.ss.parameters || p in st.parameters
  {
    ValidPublishable(st);
    var ss := PublishUpTo(st, |st.parameterOrder|);
    PublishUpToFrame(st, |st.parameterOrder|);
    SameTypesValid(st, ss);
    PublishPublished(st);
    st.(ss := ss)
  }

  // ---------------------------------------------------------------------------
  // Context calibrators

  /** The selection condition of a CUR row: the raw value of `rlchk` equals
      `valpar`, written as `Long.toString`. */
  function CurContext(rec: CurRecord): Comparison {
    Comparison(rec.rlchk, false, Equality, Text(IntToString(rec.valpar)))
  }

  /** The context calibrators of a parameter's CUR rows, in row order. */
  function CurCalibrators(cal: Calibrations, recs: seq<CurRecord>): (r: seq<ContextCalibrator>)
    ensures |r| == |recs|
  {
    seq(|recs|, i requires 0 <= i < |recs| => ContextCalibrator(CurContext(recs[i]), GetNumericCalibrator(cal, Some(recs[i].select))))
  }

  /** The condition reads back as the row: the raw value of `rlchk`, not
      calibrated, equal to a text that parses as `valpar`. */
  lemma CurContextRoundTrip(rec: CurRecord)
    requires LONG_MIN <= rec.valpar <= LONG_MAX
    ensures CurContext(rec).param == rec.rlchk && !CurContext(rec).useCalibrated && CurContext(rec).op == Equality
    ensures CurContext(rec).value.Text? && ParseLong(CurContext(rec).value.text) == Some(rec.valpar)
  {
    IntToStringRoundTrip(rec.valpar, LONG_MIN, LONG_MAX);
  }

  /** Every CUR row of a parameter names a parameter of the space system. */
  predicate ReferencesKnown(ss: SpaceSystem, recs: seq<CurRecord>) {
    forall i :: 0 <= i < |recs| ==> recs[i].rlchk in ss.parameters
  }

  lemma CurCalibratorsSnoc(cal: Calibrations, recs: seq<CurRecord>)
    requires |recs| > 0
    ensures CurCalibrators(cal, recs) == CurCalibrators(cal, recs[..|recs| - 1])
      + [ContextCalibrator(CurContext(recs[|recs| - 1]), GetNumericCalibrator(cal, Some(recs[|recs| - 1].select)))]
  {
  }

  lemma ReferencesKnownSnoc(ss: SpaceSystem, recs: seq<CurRecord>)
    requires |recs| > 0
    ensures ReferencesKnown(ss, recs) <==> ReferencesKnown(ss, recs[..|recs| - 1]) && recs[|recs| - 1].rlchk in ss.parameters
  {
    assert forall i :: 0 <= i < |recs| - 1 ==> recs[..|recs| - 1][i] == recs[i];
  }

  /** The inner loop of `loadContextCalibrators`: fails on the first row whose
      `CUR_RLCHK` is not a parameter (the message names the calibrated
      parameter, not the missing one). */
  function ContextCalibrators(st: TmState, pname: string, recs: seq<CurRecord>): (r: Result<seq<ContextCalibrator>, LoadError>)
    ensures r.Ok? <==> ReferencesKnown(st.ss, recs)
    ensures r.Ok? ==> r.value == CurCalibrators(st.cal, recs)
    ensures r.Err? ==> r.error == MibLoadError(None, "Invalid parameter specied in the cur file: CUR_RLCHK=" + pname)
    decreases |recs|
  {
    if |recs| == 0 then Ok([])
    else
      var last := recs[|recs| - 1];
      ReferencesKnownSnoc(st.ss, recs);
      CurCalibratorsSnoc(st.cal, recs);
      var ccs :- ContextCalibrators(st, pname, recs[..|recs| - 1]);
      if last.rlchk !in st.ss.parameters then
        Err(MibLoadError(None, "Invalid parameter specied in the cur file: CUR_RLCHK=" + pname))
      else
        Ok(ccs + [ContextCalibrator(CurContext(last), GetNumericCalibrator(st.cal, Some(last.select)))])
  }

  /** A parameter whose type is the shared object named `t.name` sees `t`. */
  function Retype(mp: MibParameter, t: DataType): MibParameter {
    if mp.ptype.Some? && mp.ptype.value.name == t.name then mp.(ptype := Some(t)) else mp
  }

  function RetypeParameter(p: Parameter, t: DataType): Parameter {
    if p.ptype.name == t.name then p.(ptype := t) else p
  }

  /** Changing the registered type `t.name` in place: the host mutates one
      type object, which every parameter holding it sees. */
  function ReplaceType(st: TmState, t: DataType): (r: TmState)
    ensures Retyped(st, t, r)
  {
    var types := if t.name.Some? then st.ss.parameterTypes[t.name.value := t] else st.ss.parameterTypes;
    var ss := st.ss.(parameterTypes := types,
                     parameters := map n | n in st.ss.parameters :: RetypeParameter(st.ss.parameters[n], t));
    st.(ss := ss, parameters := map n | n in st.parameters :: Retype(st.parameters[n], t))
  }

  /** The calibrations, the parameter order and both sets of parameter
      names are the same. */
  ghost predicate SameShape(st: TmState, r: TmState) {
    && r.cal == st.cal && r.parameterOrder == st.parameterOrder
    && r.parameters.Keys == st.parameters.Keys && r.ss.parameters.Keys == st.ss.parameters.Keys
  }

  /** `r` is `st` with the type `t.name` replaced by `t` everywhere. */
  ghost predicate Retyped(st: TmState, t: DataType, r: TmState) {
    && r.cal == st.cal && r.parameterOrder == st.parameterOrder && r.deduced == st.deduced
    && r.ss == st.ss.(parameterTypes := if t.name.Some? then st.ss.parameterTypes[t.name.value := t] else st.ss.parameterTypes,
                      parameters := map n | n in st.ss.parameters :: RetypeParameter(st.ss.parameters[n], t))
    && r.parameters == map n | n in st.parameters :: Retype(st.parameters[n], t)
  }

  lemma RetypedShape(st: TmState, t: DataType, r: TmState)
    requires Retyped(st, t, r)
    ensures SameShape(st, r)
  {
  }

  lemma RetypedKeys(st: TmState, t: DataType, r: TmState)
    requires ParamKeys(st) && ParamDeduced(st) && Retyped(st, t, r)
    ensures ParamKeys(r) && ParamDeduced(r)
  {
  }

  lemma RetypedTypes(st: TmState, t: DataType, r: TmState)
    requires ParamTypes(st) && Retyped(st, t, r)
    ensures ParamTypes(r)
  {
    forall n | n in r.parameters && r.parameters[n].ptype.Some?
      ensures Registered(r.ss, r.parameters[n].ptype.value)
    {
      assert Registered(st.ss, st.parameters[n].ptype.value);
    }
  }

  lemma RetypedNames(st: TmState, t: DataType, r: TmState)
    requires ParamTypeNames(st) && PrivateTypes(st) && Retyped(st, t, r)
    ensures ParamTypeNames(r) && PrivateTypes(r)
  {
    forall n | n in r.parameters
      ensures NamedByRule(r.cal, r.parameters[n])
    {
      assert NamedByRule(st.cal, st.parameters[n]);
    }
    forall a, b | a in r.parameters && b in r.parameters && a != b && Private(r, a) && Private(r, b)
      ensures r.parameters[a].ptype.value.name != r.parameters[b].ptype.value.name
    {
      assert Private(st, a) && Private(st, b);
    }
  }

  lemma RetypedPublished(st: TmState, t: DataType, r: TmState)
    requires Published(st) && Retyped(st, t, r)
    ensures Published(r)
  {
    forall n | n in r.parameters && r.parameters[n].ptype.Some?
      ensures n in r.ss.parameters && r.ss.parameters[n] == ToParameter(r.parameters[n])
    {
      assert st.ss.parameters[n] == ToParameter(st.parameters[n]);
    }
  }

  /** Replacing a type keeps the invariant and keeps every parameter
      published. */
  lemma ReplaceTypeValid(st: TmState, t: DataType, r: TmState)
    requires ValidParams(st) && Published(st) && t.name.Some? && Retyped(st, t, r)
    ensures ValidParams(r) && Published(r)
  {
    RetypedKeys(st, t, r);
    RetypedTypes(st, t, r);
    RetypedNames(st, t, r);
    RetypedPublished(st, t, r);
  }

  /** A type whose encoding can carry context calibrators. */
  predicate CalibratableType(t: DataType) {
    !t.kind.AggregateKind? && t.encoding.Some? && t.encoding.value.IsNumeric()
  }

  /** Parameters with private types outside `names` are untouched. */
  ghost predicate KeepsPrivate(st: TmState, r: TmState, names: seq<string>)
    requires SameShape(st, r)
  {
    forall n :: n in st.parameters && n !in names && Private(st, n) ==> r.parameters[n] == st.parameters[n]
  }

  /** Each name of `names` has a type carrying the context calibrators of its
      own CUR rows. */
  ghost predicate Calibrated(st: TmState, names: seq<string>) {
    forall i :: 0 <= i < |names| ==>
      && names[i] in st.parameters && names[i] in st.cal.curRecords.lists
      && st.parameters[names[i]].ptype.Some?
      && st.parameters[names[i]].ptype.value.contextCalibrators == CurCalibrators(st.cal, st.cal.curRecords.lists[names[i]])
  }

  /** One iteration of `loadContextCalibrators`: the CUR rows of `pname`
      become the context calibrators of its type, which every parameter
      holding that type sees. */
  function ApplyContextCalibration(st: TmState, pname: string): (r: Result<TmState, LoadError>)
    requires pname in st.cal.curRecords.lists
    ensures r.Ok? <==>
      pname in st.parameters && ReferencesKnown(st.ss, st.cal.curRecords.lists[pname])
      && st.parameters[pname].ptype.Some? && CalibratableType(st.parameters[pname].ptype.value)
    ensures pname !in st.parameters ==> r == Err(MibLoadError(None, "Invalid parameter found in the cur file: CUR_PNAME=" + pname))
    ensures pname in st.parameters && !ReferencesKnown(st.ss, st.cal.curRecords.lists[pname]) ==>
      r == Err(MibLoadError(None, "Invalid parameter specied in the cur file: CUR_RLCHK=" + pname))
    ensures r.Ok? ==> SameShape(st, r.value)
    ensures r.Ok? ==>
      var t := st.parameters[pname].ptype.value;
      Retyped(st, t.(contextCalibrators := CurCalibrators(st.cal, st.cal.curRecords.lists[pname])), r.value)
  {
    if pname !in st.parameters then
      Err(MibLoadError(None, "Invalid parameter found in the cur file: CUR_PNAME=" + pname))
    else
      var ccs :- ContextCalibrators(st, pname, st.cal.curRecords.lists[pname]);
      match st.parameters[pname].ptype
      case None => Err(NullPointer())
      case Some(t) =>
        if t.kind.AggregateKind? then Err(ClassCast())
        else if t.encoding.None? then Err(NullPointer())
        else if !t.encoding.value.IsNumeric() then Err(ClassCast())
        else
          var r := ReplaceType(st, t.(contextCalibrators := ccs));
          RetypedShape(st, t.(contextCalibrators := ccs), r);
          Ok(r)
  }

  /** A successful step keeps the invariant, gives `pname` its context
      calibrators, and leaves every other parameter with a private type
      alone: no two of those share a type object. */
  lemma ApplyContextCalibrationValid(st: TmState, pname: string)
    requires ValidParams(st) && Published(st) && pname in st.cal.curRecords.lists
    requires ApplyContextCalibration(st, pname).Ok?
    ensures var r := ApplyContextCalibration(st, pname).value;
      ValidParams(r) && Published(r) && KeepsPrivate(st, r, [pname]) && Calibrated(r, [pname])
  {
    var t := st.parameters[pname].ptype.value;
    var t1 := t.(contextCalibrators := CurCalibrators(st.cal, st.cal.curRecords.lists[pname]));
    var r := ApplyContextCalibration(st, pname).value;
    assert Registered(st.ss, t);
    ReplaceTypeValid(st, t1, r);
    RetypedKeepsPrivate(st, pname, t1, r);
    RetypedCalibrated(st, pname, t1, r);
  }

  lemma RetypedKeepsPrivate(st: TmState, pname: string, t: DataType, r: TmState)
    requires PrivateTypes(st) && pname in st.parameters && Private(st, pname)
    requires t.name == st.parameters[pname].ptype.value.name && Retyped(st, t, r)
    ensures SameShape(st, r) && KeepsPrivate(st, r, [pname])
  {
    RetypedShape(st, t, r);
    forall n | n in st.parameters && n !in [pname] && Private(st, n)
      ensures r.parameters[n] == st.parameters[n]
    {
    }
  }

  lemma RetypedCalibrated(st: TmState, pname: string, t: DataType, r: TmState)
    requires pname in st.parameters && pname in st.cal.curRecords.lists && st.parameters[pname].ptype.Some?
    requires t.name == st.parameters[pname].ptype.value.name && Retyped(st, t, r)
    requires t.contextCalibrators == CurCalibrators(st.cal, st.cal.curRecords.lists[pname])
    ensures Calibrated(r, [pname])
  {
    assert r.parameters[pname] == Retype(st.parameters[pname], t);
  }

  /** One more name handled: the names before keep what they had, because
      their types are private and differ from the one just changed. */
  lemma ContextStep(st: TmState, cur: TmState, next: TmState, names: seq<string>, i: nat)
    requires i < |names| && NoDuplicates(names)
    requires SameShape(st, cur) && KeepsPrivate(st, cur, names[..i]) && Calibrated(cur, names[..i])
    requires SameShape(cur, next) && KeepsPrivate(cur, next, [names[i]]) && Calibrated(next, [names[i]])
    ensures SameShape(st, next) && KeepsPrivate(st, next, names[..i + 1]) && Calibrated(next, names[..i + 1])
  {
    assert names[..i + 1] == names[..i] + [names[i]];
    forall n | n in st.parameters && n !in names[..i + 1] && Private(st, n)
      ensures next.parameters[n] == cur.parameters[n] == st.parameters[n]
    {
      assert Private(cur, n);
    }
    forall j | 0 <= j < i
      ensures next.parameters[names[j]] == cur.parameters[names[j]]
    {
      assert names[..i][j] == names[j] != names[i];
      assert Private(cur, names[j]);
    }
    assert [names[i]][0] == names[i];
  }

  /** `loadContextCalibrators`: the calibrated parameters in `names` (each
      listed once) in turn, stopping at the first error. Each ends up with
      exactly the context calibrators of its own CUR rows, in row order. */
  method LoadContextCalibrators(st: TmState, names: seq<string>) returns (r: Result<TmState, LoadError>)
    requires ValidParams(st) && Published(st) && NoDuplicates(names)
    requires forall i :: 0 <= i < |names| ==> names[i] in st.cal.curRecords.lists
    ensures r.Ok? ==> ValidParams(r.value) && Published(r.value) && SameShape(st, r.value)
    ensures r.Ok? ==> Calibrated(r.value, names) && KeepsPrivate(st, r.value, names)
  {
    var cur := st;
    var i := 0;
    while i < |names|
      invariant i <= |names|
      invariant ValidParams(cur) && Published(cur)
      invariant SameShape(st, cur) && KeepsPrivate(st, cur, names[..i]) && Calibrated(cur, names[..i])
    {
      var next :- ApplyContextCalibration(cur, names[i]);
      ApplyContextCalibrationValid(cur, names[i]);
      ContextStep(st, cur, next, names, i);
      cur := next;
      i := i + 1;
    }
    assert names[..i] == names;
    return Ok(cur);
  }

  // ---------------------------------------------------------------------------
  // The whole telemetry-parameter stage

  lemma RowsLoadedKeys(t: Table, defaultVplb: int, st0: TmState, a: TmState, b: TmState, n: nat)
    requires n <= |t.lines| && RowsLoaded(t, defaultVplb, st0, a, n) && a.parameters.Keys == b.parameters.Keys
    ensures RowsLoaded(t, defaultVplb, st0, b, n)
  {
    assert forall p :: p in b.parameters <==> p in a.parameters;
  }

  /** The calibrated parameters listed once each, every one with CUR rows. */
  ghost predicate CurOrderValid(cal: Calibrations) {
    NoDuplicates(cal.curRecords.order)
    && forall i :: 0 <= i < |cal.curRecords.order| ==> cal.curRecords.order[i] in cal.curRecords.lists
  }

  /** The PCF rows, every non-deduced parameter added to the space system,
      then the context calibrators of the parameters with CUR rows. */
  method LoadParameters(cal: Calibrations, pcf: Table, defaultVplb: int, ss0: SpaceSystem) returns (r: Result<TmState, LoadError>)
    requires ss0.WellFormed() && CurOrderValid(cal)
    ensures r.Ok? ==> r.value.cal == cal && ValidParams(r.value) && Published(r.value)
    ensures r.Ok? ==> RowsLoaded(pcf, defaultVplb, InitialState(ss0, cal), r.value, |pcf.lines|)
    ensures r.Ok? ==> Calibrated(r.value, cal.curRecords.order)
  {
    var st0 := InitialState(ss0, cal);
    var st :- LoadPcf(pcf, defaultVplb, st0);
    var published := Publish(st);
    var loaded :- LoadContextCalibrators(published, cal.curRecords.order);
    RowsLoadedKeys(pcf, defaultVplb, st0, st, loaded, |pcf.lines|);
    return Ok(loaded);
  }

  /** `loadTelemetryParams`: the calibration tables, then the parameters. */
  method LoadTelemetryParams(cur: Table, caf: Table, cap: Table, txf: Table, txp: Table, mcf: Table, lgf: Table,
                             pcf: Table, defaultVplb: int, ss0: SpaceSystem) returns (r: Result<TmState, LoadError>)
    requires ss0.WellFormed()
    ensures LoadCalibrations(cur, caf, cap, txf, txp, mcf, lgf).Err? ==> r == Err(LoadCalibrations(cur, caf, cap, txf, txp, mcf, lgf).error)
    ensures r.Ok? ==> LoadCalibrations(cur, caf, cap, txf, txp, mcf, lgf).Ok? && r.value.cal == LoadCalibrations(cur, caf, cap, txf, txp, mcf, lgf).value
    ensures r.Ok? ==> ValidParams(r.value) && Published(r.value)
    ensures r.Ok? ==> RowsLoaded(pcf, defaultVplb, InitialState(ss0, r.value.cal), r.value, |pcf.lines|)
    ensures r.Ok? ==> Calibrated(r.value, r.value.cal.curRecords.order)
  {
    var cal :- LoadCalibrations(cur, caf, cap, txf, txp, mcf, lgf);
    GroupByOrder(ParseRows(cur, CurRow).value);
    assert CurOrderValid(cal);
    r := LoadParameters(cal, pcf, defaultVplb, ss0);
  }
}
