/** The commands of the MIB: argument types from the CPC rows, the elements of
    each command from its CDF rows, and the commands themselves from the CCF
    table, with their packet header, fixed fields and verifier. */
module TcCommands {
  import opened Wrappers
  import opened Text
  import opened Mdb
  import opened MibLoaderBits
  import opened BaseMibLoader
  import opened Collections
  import opened MonitoringData
  import opened MibParameter
  import opened TcTables
  import opened TcHeaders

  /** The lookups argument creation reads, built by the earlier loaders:
      de-calibration curves, text de-calibrations by kind and the telemetry
      parameters in the order they were defined. */
  datatype TcInputs = TcInputs(
    ccas: map<string, CcaRecord>,
    enums: map<string, seq<EnumValue>>,
    ranges: map<string, seq<EnumRange>>,
    parameters: seq<MibParameter>)

  /** What argument creation updates: the space system (member types of
      packet arguments) and the parameter-id types, shared per PFC. */
  datatype ArgState = ArgState(ss: SpaceSystem, paramIdTypes: map<int, DataType>)

  // ---------------------------------------------------------------------------
  // Errors

  function NoCcaRef(ctx: Context, pname: string): LoadError {
    MibLoadError(Some(ctx), "For parameter '" + pname + " CPC_CCAREF was not specified")
  }

  function UnknownCategory(ctx: Context, pname: string, categ: string): LoadError {
    MibLoadError(Some(ctx), "argument '" + pname + ": CPC_CATEG=" + categ + " not supported")
  }

  function UnknownCca(ctx: Context, pname: string, ccaref: string): LoadError {
    MibLoadError(Some(ctx), "Parameter '" + pname + " refers to CPC_CCAREF='" + ccaref + "' not found in the CCA table")
  }

  function UnknownEngFormat(ctx: Context, pname: string, engfmt: string): LoadError {
    MibLoadError(Some(ctx), "Parameter '" + pname + " refers to CCA_ENGFMT='" + engfmt + "' unknonw")
  }

  function NotParameterIdPtc(ctx: Context, pname: string, ptc: int): LoadError {
    MibLoadError(Some(ctx), "Parameter '" + pname + " of categ 'P' should have CPC_PTC=4 instead of " + IntToString(ptc))
  }

  function InvalidPacketPfc(ctx: Context, ptc: int, pfc: int): LoadError {
    MibLoadError(Some(ctx), "Invalid combination (PTC, PFC): (" + IntToString(ptc) + ", " + IntToString(pfc) + ")")
  }

  function NoPafRef(ctx: Context, pname: string, categ: string): LoadError {
    MibLoadError(Some(ctx), pname + ": CPC_PAFREF cannot be null for CPC_CATEF=" + categ)
  }

  function NoEnumerations(ctx: Context, pname: string, pafref: string): LoadError {
    MibLoadError(Some(ctx), pname + ": could not find PAF/PAS records for CPC_PAFREF=" + pafref + " and type integer/unsigned")
  }

  function NoRanges(ctx: Context, pname: string, pafref: string): LoadError {
    MibLoadError(Some(ctx), pname + ": could not find PAF/PAS records for CPC_PAFREF=" + pafref + " and type real")
  }

  /** The host prints the class of the encoding builder; the model prints
      the kind of encoding. */
  function NotEnumerable(ctx: Context, e: DataEncoding): LoadError {
    MibLoadError(Some(ctx), "Cannot create enumerated argument with " + EncodingClass(e) + " encoding")
  }

  function EncodingClass(e: DataEncoding): string {
    match e
    case IntegerEncoding(_, _) => "IntegerDataEncoding"
    case FloatEncoding(_, _) => "FloatDataEncoding"
    case BinaryEncoding(_, _, _, _) => "BinaryDataEncoding"
    case StringEncoding(_, _, _) => "StringDataEncoding"
  }

  // ---------------------------------------------------------------------------
  // Argument types, one builder per CPC category

  /** Category "C": a numeric argument de-calibrated by its CCA curve; the
      engineering format of the curve chooses float, signed or unsigned. */
  function CcategType(inputs: TcInputs, ctx: Context, cpc: CpcRecord, vplb: int): (r: Result<DataType, LoadError>)
    requires cpc.ccaref.Some?
    ensures cpc.ccaref.value !in inputs.ccas ==> r == Err(UnknownCca(ctx, cpc.pname, cpc.ccaref.value))
    ensures r.Ok? ==>
      && cpc.ccaref.value in inputs.ccas
      && GetDataEncoding(Some(ctx), cpc.ptc, cpc.pfc, vplb) == Ok(r.value.encoding)
      && r.value.encoding.Some? && r.value.encoding.value.IsNumeric()
      && r.value.name == Some(cpc.pname)
      && r.value.calibrator == Some(Spline(inputs.ccas[cpc.ccaref.value].splines))
    ensures r.Ok? ==> var fmt := inputs.ccas[cpc.ccaref.value].engfmt;
      && (fmt == "R" <==> r.value.kind.FloatKind?)
      && (fmt == "I" <==> r.value.kind == IntegerKind(Some(true), None))
      && (fmt == "U" <==> r.value.kind == IntegerKind(Some(false), None))
  {
    var ccaref := cpc.ccaref.value;
    if ccaref !in inputs.ccas then Err(UnknownCca(ctx, cpc.pname, ccaref))
    else
      var cca := inputs.ccas[ccaref];
      var enc :- GetDataEncoding(Some(ctx), cpc.ptc, cpc.pfc, vplb);
      if enc.None? then Err(NullPointer())
      else if !enc.value.IsNumeric() then Err(ClassCast())
      else
        var kind :-
          if cca.engfmt == "R" then Ok(FloatKind(None))
          else if cca.engfmt == "I" then Ok(IntegerKind(Some(true), None))
          else if cca.engfmt == "U" then Ok(IntegerKind(Some(false), None))
          else Err(UnknownEngFormat(ctx, cpc.pname, cca.engfmt));
        Ok(NewType(kind, enc).Named(cpc.pname).(calibrator := Some(Spline(cca.splines))))
  }

  /** Category "T": an enumerated argument whose values come from the text
      de-calibration its PAF reference names, by number for an integer
      encoding and by range for a float encoding. */
  function TcategType(inputs: TcInputs, ctx: Context, cpc: CpcRecord, vplb: int): (r: Result<DataType, LoadError>)
    ensures cpc.pafref.None? ==> r == Err(NoPafRef(ctx, cpc.pname, cpc.categ))
    ensures r.Ok? ==>
      && cpc.pafref.Some?
      && GetDataEncoding(Some(ctx), cpc.ptc, cpc.pfc, vplb) == Ok(r.value.encoding)
      && r.value.encoding.Some? && r.value.name == Some(cpc.pname)
    ensures r.Ok? && r.value.encoding.value.IntegerEncoding? ==>
      cpc.pafref.value in inputs.enums && r.value.kind == EnumeratedKind(inputs.enums[cpc.pafref.value], [], [])
    ensures r.Ok? && r.value.encoding.value.FloatEncoding? ==>
      cpc.pafref.value in inputs.ranges && r.value.kind == EnumeratedKind([], inputs.ranges[cpc.pafref.value], [])
    ensures r.Ok? ==> r.value.encoding.value.IsNumeric()
  {
    if cpc.pafref.None? then Err(NoPafRef(ctx, cpc.pname, cpc.categ))
    else
      var pafref := cpc.pafref.value;
      var enc :- GetDataEncoding(Some(ctx), cpc.ptc, cpc.pfc, vplb);
      match enc
      case None => Err(NullPointer())
      case Some(e) =>
        if e.IntegerEncoding? then
          if pafref !in inputs.enums then Err(NoEnumerations(ctx, cpc.pname, pafref))
          else Ok(NewType(EnumeratedKind(inputs.enums[pafref], [], []), enc).Named(cpc.pname))
        else if e.FloatEncoding? then
          if pafref !in inputs.ranges then Err(NoRanges(ctx, cpc.pname, pafref))
          else Ok(NewType(EnumeratedKind([], inputs.ranges[pafref], []), enc).Named(cpc.pname))
        else Err(NotEnumerable(ctx, e))
  }

  /** Category "N" with PTC 12: an embedded packet. */
  function PacketArgumentType(st: ArgState, ctx: Context, cpc: CpcRecord): (r: Result<(DataType, ArgState), LoadError>)
    requires st.ss.WellFormed() && cpc.ptc == 12
    ensures r.Ok? <==> cpc.pfc == 0 || cpc.pfc == 1
    ensures r.Ok? ==> var (t, st1) := r.value;
      && t.kind == AggregateKind(Ptc12Members(cpc.pfc)) && t.name.None? && t.encoding.None?
      && st1.ss.WellFormed() && st1.paramIdTypes == st.paramIdTypes && st1.ss.commands == st.ss.commands
      && forall i :: 0 <= i < |t.kind.members| ==> UintTypeName(t.kind.members[i].bits) in st1.ss.parameterTypes
  {
    if cpc.pfc != 0 && cpc.pfc != 1 then Err(InvalidPacketPfc(ctx, cpc.ptc, cpc.pfc))
    else
      var members := Ptc12Members(cpc.pfc);
      Ok((NewType(AggregateKind(members), None), st.(ss := EnsureMemberTypes(st.ss, members))))
  }

  /** Category "N": a plain argument of the natural type of its encoding,
      named after the parameter with an `arg_` prefix. */
  function NcategType(st: ArgState, ctx: Context, cpc: CpcRecord, vplb: int): (r: Result<(DataType, ArgState), LoadError>)
    requires st.ss.WellFormed()
    ensures cpc.ptc == 12 ==> r == PacketArgumentType(st, ctx, cpc)
    ensures cpc.ptc != 12 && r.Ok? ==>
      && r.value.1 == st
      && GetDataEncoding(Some(ctx), cpc.ptc, cpc.pfc, vplb).Ok?
      && GetDataType(GetDataEncoding(Some(ctx), cpc.ptc, cpc.pfc, vplb).value, "arg_" + cpc.pname) == Ok(r.value.0)
  {
    if cpc.ptc == 12 then PacketArgumentType(st, ctx, cpc)
    else
      var enc :- GetDataEncoding(Some(ctx), cpc.ptc, cpc.pfc, vplb);
      var t :- GetDataType(enc, "arg_" + cpc.pname);
      Ok((t, st))
  }

  /** The enumeration of a parameter-id argument: every telemetry parameter
      that has an on-board id, with that id as value and its name as label. */
  function ParameterIds(ps: seq<MibParameter>): (r: seq<EnumValue>)
    ensures |r| <= |ps|
  {
    if |ps| == 0 then []
    else
      var p := ps[|ps| - 1];
      ParameterIds(ps[..|ps| - 1]) + (if p.pcf.pid != -1 then [EnumValue(p.pcf.pid, p.Name())] else [])
  }

  /** A label in the parameter-id enumeration is exactly a parameter with an
      on-board id. */
  lemma {:induction false} ParameterIdsExact(ps: seq<MibParameter>, e: EnumValue)
    ensures e in ParameterIds(ps) <==> exists i :: 0 <= i < |ps| && ps[i].pcf.pid != -1 && e == EnumValue(ps[i].pcf.pid, ps[i].Name())
    decreases |ps|
  {
    if |ps| > 0 {
      var init := ps[..|ps| - 1];
      ParameterIdsExact(init, e);
      if exists i :: 0 <= i < |init| && init[i].pcf.pid != -1 && e == EnumValue(init[i].pcf.pid, init[i].Name()) {
        var i :| 0 <= i < |init| && init[i].pcf.pid != -1 && e == EnumValue(init[i].pcf.pid, init[i].Name());
        assert ps[i] == init[i];
      }
      if exists i :: 0 <= i < |ps| && ps[i].pcf.pid != -1 && e == EnumValue(ps[i].pcf.pid, ps[i].Name()) {
        var i :| 0 <= i < |ps| && ps[i].pcf.pid != -1 && e == EnumValue(ps[i].pcf.pid, ps[i].Name());
        if i < |init| {
          assert init[i] == ps[i];
        }
      }
    }
  }

  function ParameterIdTypeName(pfc: int): string {
    "parameter_id_" + IntToString(pfc)
  }

  /** Category "P": an argument naming a telemetry parameter by its on-board
      id. One type per PFC is built on first use and shared afterwards. */
  function ParameterIdType(st: ArgState, inputs: TcInputs, ctx: Context, cpc: CpcRecord, vplb: int)
    : (r: Result<(DataType, ArgState), LoadError>)
    ensures cpc.ptc != 3 ==> r == Err(NotParameterIdPtc(ctx, cpc.pname, cpc.ptc))
    ensures cpc.ptc == 3 && cpc.pfc in st.paramIdTypes ==> r == Ok((st.paramIdTypes[cpc.pfc], st))
    ensures r.Ok? ==> var (t, st1) := r.value;
      && st1.ss == st.ss
      && cpc.pfc in st1.paramIdTypes && st1.paramIdTypes[cpc.pfc] == t
      && (cpc.pfc !in st.paramIdTypes ==>
            && t.kind == EnumeratedKind(ParameterIds(inputs.parameters), [], [])
            && t.name == Some(ParameterIdTypeName(cpc.pfc))
            && t.units == []
            && GetDataEncoding(Some(ctx), cpc.ptc, cpc.pfc, vplb) == Ok(t.encoding))
      && (forall k :: k != cpc.pfc ==> (k in st1.paramIdTypes <==> k in st.paramIdTypes))
      && (forall k :: k != cpc.pfc && k in st.paramIdTypes ==> st1.paramIdTypes[k] == st.paramIdTypes[k])
  {
    if cpc.ptc != 3 then Err(NotParameterIdPtc(ctx, cpc.pname, cpc.ptc))
    else if cpc.pfc in st.paramIdTypes then Ok((st.paramIdTypes[cpc.pfc], st))
    else
      var enc :- GetDataEncoding(Some(ctx), cpc.ptc, cpc.pfc, vplb);
      var t := NewType(EnumeratedKind(ParameterIds(inputs.parameters), [], []), enc).Named(ParameterIdTypeName(cpc.pfc));
      Ok((t, st.(paramIdTypes := st.paramIdTypes[cpc.pfc := t])))
  }

  /** Category "A": a binary argument named after the parameter. */
  function AcategType(ctx: Context, cpc: CpcRecord, vplb: int): (r: Result<DataType, LoadError>)
    ensures r.Ok? <==> GetDataEncoding(Some(ctx), cpc.ptc, cpc.pfc, vplb).Ok?
    ensures r.Ok? ==>
      && r.value.kind == BinaryKind && r.value.name == Some(cpc.pname)
      && r.value.encoding == GetDataEncoding(Some(ctx), cpc.ptc, cpc.pfc, vplb).value
  {
    var enc :- GetDataEncoding(Some(ctx), cpc.ptc, cpc.pfc, vplb);
    Ok(NewType(BinaryKind, enc).Named(cpc.pname))
  }

  /** The categories an argument may have. */
  predicate KnownCategory(categ: string) {
    categ == "C" || categ == "T" || categ == "N" || categ == "P" || categ == "A"
  }

  /** The type of an argument by category, before its unit. */
  function CategoryType(st: ArgState, inputs: TcInputs, ctx: Context, cpc: CpcRecord, vplb: int)
    : (r: Result<(DataType, ArgState), LoadError>)
    requires st.ss.WellFormed()
    ensures !KnownCategory(cpc.categ) ==> r == Err(UnknownCategory(ctx, cpc.pname, cpc.categ))
    ensures cpc.categ == "C" && cpc.ccaref.None? ==> r == Err(NoCcaRef(ctx, cpc.pname))
    ensures r.Ok? ==> KnownCategory(cpc.categ) && r.value.1.ss.WellFormed() && r.value.1.ss.commands == st.ss.commands
    ensures r.Ok? && cpc.categ != "P" ==> r.value.1.paramIdTypes == st.paramIdTypes
    ensures r.Ok? && cpc.categ == "C" ==> CcategType(inputs, ctx, cpc, vplb) == Ok(r.value.0) && r.value.1 == st
    ensures r.Ok? && cpc.categ == "T" ==> TcategType(inputs, ctx, cpc, vplb) == Ok(r.value.0) && r.value.1 == st
    ensures r.Ok? && cpc.categ == "N" ==> NcategType(st, ctx, cpc, vplb) == r
    ensures cpc.categ == "P" ==> ParameterIdType(st, inputs, ctx, cpc, vplb) == r
    ensures r.Ok? && cpc.categ == "A" ==> AcategType(ctx, cpc, vplb) == Ok(r.value.0) && r.value.1 == st
  {
    if cpc.categ == "C" then
      if cpc.ccaref.None? then Err(NoCcaRef(ctx, cpc.pname))
      else
        var t :- CcategType(inputs, ctx, cpc, vplb);
        Ok((t, st))
    else if cpc.categ == "T" then
      var t :- TcategType(inputs, ctx, cpc, vplb);
      Ok((t, st))
    else if cpc.categ == "N" then NcategType(st, ctx, cpc, vplb)
    else if cpc.categ == "P" then ParameterIdType(st, inputs, ctx, cpc, vplb)
    else if cpc.categ == "A" then
      var t :- AcategType(ctx, cpc, vplb);
      Ok((t, st))
    else Err(UnknownCategory(ctx, cpc.pname, cpc.categ))
  }

  /** Whether the unit of the parameter is added to its argument type;
      packet arguments have no unit. */
  predicate TakesUnit(cpc: CpcRecord) {
    cpc.unit.Some? && cpc.ptc != 12
  }

  /** `createArgument`: an argument named after the CPC parameter of an
      argument element, typed by its category, with the parameter's unit
      added. A parameter-id type is shared per PFC, so the unit is added to
      the shared type and stays there for later arguments. */
  function CreateArgument(st: ArgState, inputs: TcInputs, ctx: Context, cdf: CdfRecord)
    : (r: Result<(Argument, ArgState), LoadError>)
    requires st.ss.WellFormed() && cdf.cpc.Some?
    ensures var cpc := cdf.cpc.value;
      && (r.Ok? <==> CategoryType(st, inputs, ctx, cpc, cdf.vplb).Ok?)
      && (r.Err? ==> r == Err(CategoryType(st, inputs, ctx, cpc, cdf.vplb).error))
    ensures r.Ok? ==> var (a, st1) := r.value; var cpc := cdf.cpc.value;
      var t := CategoryType(st, inputs, ctx, cpc, cdf.vplb).value.0;
      && a.name == cpc.pname && a.description.None?
      && st1.ss == CategoryType(st, inputs, ctx, cpc, cdf.vplb).value.1.ss && st1.ss.WellFormed()
      && a.atype.kind == t.kind && a.atype.encoding == t.encoding && a.atype.name == t.name
      && a.atype.calibrator == t.calibrator
      && a.atype.units == t.units + (if TakesUnit(cpc) then [cpc.unit.value] else [])
      && (cpc.categ == "P" ==> cpc.pfc in st1.paramIdTypes && st1.paramIdTypes[cpc.pfc] == a.atype)
      && (cpc.categ != "P" ==> st1.paramIdTypes == st.paramIdTypes)
  {
    var cpc := cdf.cpc.value;
    var tr :- CategoryType(st, inputs, ctx, cpc, cdf.vplb);
    var t := if TakesUnit(cpc) then tr.0.WithUnit(cpc.unit) else tr.0;
    var st1 := if cpc.categ == "P" then tr.1.(paramIdTypes := tr.1.paramIdTypes[cpc.pfc := t]) else tr.1;
    Ok((Argument(cpc.pname, None, t), st1))
  }

  /** Two parameter-id arguments of the same PFC share one type: the second
      carries every unit the first one had, then its own. */
  lemma ParameterIdUnitsAccumulate(st: ArgState, inputs: TcInputs, ctx1: Context, ctx2: Context, c1: CdfRecord, c2: CdfRecord)
    requires st.ss.WellFormed() && c1.cpc.Some? && c2.cpc.Some?
    requires c1.cpc.value.categ == "P" && c2.cpc.value.categ == "P" && c1.cpc.value.pfc == c2.cpc.value.pfc
    requires CreateArgument(st, inputs, ctx1, c1).Ok?
    ensures var st1 := CreateArgument(st, inputs, ctx1, c1).value.1;
      var a1 := CreateArgument(st, inputs, ctx1, c1).value.0;
      && CreateArgument(st1, inputs, ctx2, c2).Ok? == (c2.cpc.value.ptc == 3)
      && (CreateArgument(st1, inputs, ctx2, c2).Ok? ==>
            CreateArgument(st1, inputs, ctx2, c2).value.0.atype.units
              == a1.atype.units + (if TakesUnit(c2.cpc.value) then [c2.cpc.value.unit.value] else []))
  {
    var st1 := CreateArgument(st, inputs, ctx1, c1).value.1;
    var cpc2 := c2.cpc.value;
    assert cpc2.pfc in st1.paramIdTypes;
    if cpc2.ptc == 3 {
      assert ParameterIdType(st1, inputs, ctx2, cpc2, c2.vplb) == Ok((st1.paramIdTypes[cpc2.pfc], st1));
    }
  }

  // ---------------------------------------------------------------------------
  // Fresh argument names

  function ArgNames(args: seq<Argument>): set<string> {
    set i | 0 <= i < |args| :: args[i].name
  }

  predicate DistinctNames(args: seq<Argument>) {
    forall i, j :: 0 <= i < j < |args| ==> args[i].name != args[j].name
  }

  /** `name + "_" + i`. */
  function Suffixed(name: string, i: int): string {
    name + "_" + IntToString(i)
  }

  /** Different positive suffixes give different names. */
  lemma SuffixedInjective(name: string, i: nat, j: nat)
    requires Suffixed(name, i) == Suffixed(name, j)
    ensures i == j
  {
    var p := |name| + 1;
    assert Suffixed(name, i)[p..] == IntToString(i);
    assert Suffixed(name, j)[p..] == IntToString(j);
    IntToStringRoundTrip(i, 0, i + j);
    IntToStringRoundTrip(j, 0, i + j);
  }

  /** The suffixed names already tried, for suffixes 1 up to `i - 1`. */
  function SuffixesBelow(name: string, i: nat): set<string> {
    set j | 1 <= j < i :: Suffixed(name, j)
  }

  /** Trying one more suffix that is taken leaves fewer taken names untried. */
  lemma SuffixStep(names: set<string>, name: string, i: nat)
    requires i >= 1 && Suffixed(name, i) in names
    ensures |names - SuffixesBelow(name, i + 1)| < |names - SuffixesBelow(name, i)|
  {
    var s := Suffixed(name, i);
    assert SuffixesBelow(name, i + 1) == SuffixesBelow(name, i) + {s};
    if s in SuffixesBelow(name, i) {
      var j :| 1 <= j < i && Suffixed(name, j) == s;
      SuffixedInjective(name, i, j);
    }
    var a := names - SuffixesBelow(name, i);
    assert s in a;
    assert names - SuffixesBelow(name, i + 1) == a - {s};
  }

  /** The smallest suffix from `i` on whose name is not taken. */
  function FreshIndex(names: set<string>, name: string, i: nat): (k: nat)
    requires i >= 1
    ensures k >= i && Suffixed(name, k) !in names
    ensures forall j :: i <= j < k ==> Suffixed(name, j) in names
    decreases |names - SuffixesBelow(name, i)|
  {
    if Suffixed(name, i) !in names then i
    else
      SuffixStep(names, name, i);
      FreshIndex(names, name, i + 1)
  }

  /** The name an argument gets in a command: its own name when free,
      otherwise its name with the smallest positive suffix that is free. */
  function FreshName(args: seq<Argument>, name: string): (n: string)
    ensures n !in ArgNames(args)
    ensures name !in ArgNames(args) ==> n == name
    ensures name in ArgNames(args) ==>
      exists k :: k >= 1 && n == Suffixed(name, k) && forall j :: 1 <= j < k ==> Suffixed(name, j) in ArgNames(args)
  {
    var names := ArgNames(args);
    if name !in names then name
    else Suffixed(name, FreshIndex(names, name, 1))
  }

  /** The command lookup `getArgument(n) != null` is membership in the
      argument names. */
  lemma HasArgumentNames(mc: MetaCommand, n: string)
    ensures mc.HasArgument(n) <==> n in ArgNames(mc.arguments)
  {
    if n in ArgNames(mc.arguments) {
      var i :| 0 <= i < |mc.arguments| && mc.arguments[i].name == n;
    }
  }

  /** Appending an argument under a fresh name keeps the names distinct. */
  lemma AppendFresh(args: seq<Argument>, a: Argument)
    requires DistinctNames(args) && a.name !in ArgNames(args)
    ensures DistinctNames(args + [a])
    ensures ArgNames(args + [a]) == ArgNames(args) + {a.name}
  {
    var s := args + [a];
    forall i, j | 0 <= i < j < |s| ensures s[i].name != s[j].name {
      if j == |args| {
        assert s[i].name in ArgNames(args);
      } else {
        assert s[i] == args[i] && s[j] == args[j];
      }
    }
    forall n | n in ArgNames(s) ensures n in ArgNames(args) + {a.name} {
      var i :| 0 <= i < |s| && s[i].name == n;
      if i < |args| {
        assert args[i].name == n;
      }
    }
    forall n | n in ArgNames(args) + {a.name} ensures n in ArgNames(s) {
      if n == a.name {
        assert s[|args|].name == n;
      } else {
        var i :| 0 <= i < |args| && args[i].name == n;
        assert s[i].name == n;
      }
    }
  }

  // ---------------------------------------------------------------------------
  // The elements of a command

  /** A command under construction: the command, its abstract parent when it
      has read-only arguments, and the argument state. */
  datatype Building = Building(mc: MetaCommand, parent: Option<MetaCommand>, st: ArgState)

  /** An argument entry names an argument of the command or of its parent. */
  predicate Resolves(b: Building, n: string) {
    n in ArgNames(b.mc.arguments) || (b.parent.Some? && n in ArgNames(b.parent.value.arguments))
  }

  /** What holds of a command under construction: the space system stays
      well formed, argument names are unique in the command and in its
      parent, and every argument entry resolves. */
  ghost predicate BuildValid(b: Building) {
    && b.st.ss.WellFormed()
    && DistinctNames(b.mc.arguments)
    && (b.parent.Some? ==> DistinctNames(b.parent.value.arguments))
    && forall i :: 0 <= i < |b.mc.container.entries| && b.mc.container.entries[i].kind.ArgumentEntry? ==>
         Resolves(b, b.mc.container.entries[i].kind.argument)
  }

  /** The element kinds of a CDF row, compared ignoring case. */
  predicate IsFixedArgument(eltype: string) {
    EqualsIgnoreCase(eltype, "F")
  }

  predicate IsEditableArgument(eltype: string) {
    EqualsIgnoreCase(eltype, "E")
  }

  /** An element as the CDF loader keeps it: a parameter exactly when it is
      not a fixed area. */
  predicate ElementOk(c: CdfRecord) {
    c.cpc.None? <==> IsFixedArea(c.eltype)
  }

  function UnsupportedElement(ctx: Context, eltype: string): LoadError {
    MibLoadError(Some(ctx), "parameter with CDF_ELTYPE=" + eltype + " not supported")
  }

  /** Every element is placed right after the previous one. */
  function ElementEntry(kind: EntryKind): Entry {
    Entry(kind, PreviousEntry, 0, None)
  }

  function AppendEntry(mc: MetaCommand, e: Entry): (r: MetaCommand)
    ensures r.container.entries == mc.container.entries + [e]
  {
    mc.(container := mc.container.(entries := mc.container.entries + [e]))
  }

  /** The bytes of a fixed area: its hexadecimal value, right-aligned in
      zeros when the declared length is wider than the bytes. A missing
      value is a null dereference. */
  function FixedAreaBytes(hex: string -> Result<Bytes, LoadError>, cdf: CdfRecord): (r: Result<Bytes, LoadError>)
    ensures cdf.value.None? ==> r == Err(NullPointer())
    ensures cdf.value.Some? && hex(cdf.value.value).Err? ==> r == Err(hex(cdf.value.value).error)
    ensures r.Ok? ==> cdf.value.Some? && hex(cdf.value.value).Ok? && var b := hex(cdf.value.value).value;
      && |b| <= |r.value| && r.value[|r.value| - |b|..] == b
      && (forall i :: 0 <= i < |r.value| - |b| ==> r.value[i] == 0)
      && 8 * |r.value| >= cdf.ellen
      && BytesValue(r.value) == BytesValue(b)
  {
    if cdf.value.None? then Err(NullPointer())
    else
      var b :- hex(cdf.value.value);
      if cdf.ellen > 8 * |b| then
        PadRightAligned(b, cdf.ellen);
        Ok(Pad(b, cdf.ellen))
      else
        assert b[|b| - |b|..] == b;
        Ok(b)
  }

  /** The command is the same apart from its arguments, assignments and
      container entries. */
  predicate SameShell(a: MetaCommand, b: MetaCommand) {
    a == b.(arguments := a.arguments, assignments := a.assignments, container := b.container.(entries := a.container.entries))
  }

  /** The parent is the same apart from its arguments. */
  predicate SameParent(a: Option<MetaCommand>, b: Option<MetaCommand>) {
    a.Some? == b.Some? && (a.Some? ==> a.value == b.value.(arguments := a.value.arguments))
  }

  /** One element of a command (one step of `addArguments`): a fixed area
      becomes a fixed value; an editable argument joins the command; a
      read-only argument joins the parent and the command assigns it the
      element's value. Arguments are renamed to stay unique. */
  function AddElement(b: Building, inputs: TcInputs, hex: string -> Result<Bytes, LoadError>, ctx: Context, cdf: CdfRecord)
    : (r: Result<Building, LoadError>)
    requires BuildValid(b) && ElementOk(cdf) && (IsFixedArgument(cdf.eltype) ==> b.parent.Some?)
    ensures !IsFixedArea(cdf.eltype) && !IsEditableArgument(cdf.eltype) && !IsFixedArgument(cdf.eltype) ==>
      r == Err(UnsupportedElement(ctx, cdf.eltype))
    ensures r.Ok? ==>
      && BuildValid(r.value) && SameShell(r.value.mc, b.mc) && SameParent(r.value.parent, b.parent)
      && r.value.st.ss.commands == b.st.ss.commands
      && |r.value.mc.container.entries| == |b.mc.container.entries| + 1
      && r.value.mc.container.entries[..|b.mc.container.entries|] == b.mc.container.entries
      && PlacedFor(r.value.mc.container.entries[|b.mc.container.entries|], cdf)
    ensures r.Ok? && IsFixedArea(cdf.eltype) ==>
      && r.value.mc.arguments == b.mc.arguments && r.value.mc.assignments == b.mc.assignments
      && r.value.parent == b.parent
    ensures r.Ok? && !IsFixedArea(cdf.eltype) && IsEditableArgument(cdf.eltype) ==>
      && |r.value.mc.arguments| == |b.mc.arguments| + 1
      && r.value.mc.arguments[..|b.mc.arguments|] == b.mc.arguments
      && r.value.mc.arguments[|b.mc.arguments|].name == FreshName(b.mc.arguments, cdf.cpc.value.pname)
      && r.value.mc.assignments == b.mc.assignments && r.value.parent == b.parent
    ensures r.Ok? && !IsFixedArea(cdf.eltype) && !IsEditableArgument(cdf.eltype) ==>
      var p := b.parent.value.arguments;
      && |r.value.parent.value.arguments| == |p| + 1
      && r.value.parent.value.arguments[..|p|] == p
      && r.value.parent.value.arguments[|p|].name == FreshName(p, cdf.cpc.value.pname)
      && r.value.mc.arguments == b.mc.arguments
      && r.value.mc.assignments == b.mc.assignments + [Assignment(FreshName(p, cdf.cpc.value.pname), cdf.value)]
  {
    if IsFixedArea(cdf.eltype) then
      var bytes :- FixedAreaBytes(hex, cdf);
      Ok(b.(mc := AppendEntry(b.mc, ElementEntry(FixedValueEntry(cdf.descr, bytes, cdf.ellen)))))
    else if IsEditableArgument(cdf.eltype) then
      var (a, st1) :- CreateArgument(b.st, inputs, ctx, cdf);
      var n := FreshName(b.mc.arguments, a.name);
      AppendFresh(b.mc.arguments, a.(name := n));
      var mc := AppendEntry(b.mc.(arguments := b.mc.arguments + [a.(name := n)]), ElementEntry(ArgumentEntry(n)));
      var r := Building(mc, b.parent, st1);
      ResolvesKept(b, r, n);
      Ok(r)
    else if IsFixedArgument(cdf.eltype) then
      var (a, st1) :- CreateArgument(b.st, inputs, ctx, cdf);
      var p := b.parent.value;
      var n := FreshName(p.arguments, a.name);
      AppendFresh(p.arguments, a.(name := n));
      var mc := AppendEntry(b.mc.(assignments := b.mc.assignments + [Assignment(n, cdf.value)]), ElementEntry(ArgumentEntry(n)));
      var r := Building(mc, Some(p.(arguments := p.arguments + [a.(name := n)])), st1);
      ResolvesKept(b, r, n);
      Ok(r)
    else Err(UnsupportedElement(ctx, cdf.eltype))
  }

  /** Entries that resolved before still resolve once the command or its
      parent has gained arguments, and so does the new entry. */
  lemma ResolvesKept(b: Building, r: Building, n: string)
    requires BuildValid(b) && r.st.ss.WellFormed()
    requires ArgNames(b.mc.arguments) <= ArgNames(r.mc.arguments)
    requires b.parent.Some? ==> r.parent.Some? && ArgNames(b.parent.value.arguments) <= ArgNames(r.parent.value.arguments)
    requires DistinctNames(r.mc.arguments) && (r.parent.Some? ==> DistinctNames(r.parent.value.arguments))
    requires Resolves(r, n)
    requires r.mc.container.entries == b.mc.container.entries + [ElementEntry(ArgumentEntry(n))]
    ensures BuildValid(r)
  {
    var es := r.mc.container.entries;
    forall i | 0 <= i < |es| && es[i].kind.ArgumentEntry? ensures Resolves(r, es[i].kind.argument) {
      if i < |b.mc.container.entries| {
        assert es[i] == b.mc.container.entries[i];
      }
    }
  }

  /** An entry placed for element `c`: after the previous entry, with no
      offset, a fixed value exactly for a fixed area. */
  predicate PlacedFor(e: Entry, c: CdfRecord) {
    e.location == PreviousEntry && e.offsetBits == 0 && (e.kind.FixedValueEntry? <==> IsFixedArea(c.eltype))
  }

  /** The entries after the first `n` are placed for the elements of `s`,
      one each, in order. */
  predicate LaidOut(entries: seq<Entry>, n: nat, s: seq<CdfRecord>) {
    |entries| == n + |s| && forall k :: 0 <= k < |s| ==> PlacedFor(entries[n + k], s[k])
  }

  /** The elements of `s`, one after another. */
  function AddElements(b: Building, inputs: TcInputs, hex: string -> Result<Bytes, LoadError>, ctx: Context, s: seq<CdfRecord>)
    : (r: Result<Building, LoadError>)
    requires BuildValid(b)
    requires forall k :: 0 <= k < |s| ==> ElementOk(s[k]) && (IsFixedArgument(s[k].eltype) ==> b.parent.Some?)
    ensures r.Ok? ==>
      && BuildValid(r.value) && SameShell(r.value.mc, b.mc) && SameParent(r.value.parent, b.parent)
      && r.value.st.ss.commands == b.st.ss.commands
      && (b.parent.None? ==> r.value.mc.assignments == b.mc.assignments)
      && LaidOut(r.value.mc.container.entries, |b.mc.container.entries|, s)
      && r.value.mc.container.entries[..|b.mc.container.entries|] == b.mc.container.entries
  {
    if |s| == 0 then Ok(b)
    else
      var b1 :- AddElements(b, inputs, hex, ctx, s[..|s| - 1]);
      var r :- AddElement(b1, inputs, hex, ctx, s[|s| - 1]);
      ElementsKept(b.mc.container.entries, b1.mc.container.entries, r.mc.container.entries, s);
      Ok(r)
  }

  /** One more element keeps the entries placed before it. */
  lemma ElementsKept(e0: seq<Entry>, e1: seq<Entry>, e2: seq<Entry>, s: seq<CdfRecord>)
    requires |s| > 0
    requires |e0| <= |e1| && e1[..|e0|] == e0 && LaidOut(e1, |e0|, s[..|s| - 1])
    requires |e2| == |e1| + 1 && e2[..|e1|] == e1 && PlacedFor(e2[|e1|], s[|s| - 1])
    ensures e2[..|e0|] == e0 && LaidOut(e2, |e0|, s)
  {
    var n := |e0|;
    forall k | 0 <= k < |s| ensures PlacedFor(e2[n + k], s[k]) {
      if k < |s| - 1 {
        assert e2[n + k] == e2[..|e1|][n + k] == e1[n + k];
        assert s[k] == s[..|s| - 1][k];
      }
    }
    assert e2[..n] == e2[..|e1|][..n];
  }

  /** CDF elements are laid out by bit position. */
  function Position(c: CdfRecord): int {
    c.position
  }

  /** The elements of a command in the order they are laid out: its CDF rows
      sorted by position, rows of equal position in file order. */
  function Elements(cdfs: map<string, seq<CdfRecord>>, cname: string): (r: seq<CdfRecord>)
    ensures cname !in cdfs ==> r == []
    ensures cname in cdfs ==> multiset(r) == multiset(cdfs[cname])
    ensures forall i, j :: 0 <= i < j < |r| ==> r[i].position <= r[j].position
  {
    if cname in cdfs then
      SortBySorted(cdfs[cname], Position);
      SortBy(cdfs[cname], Position)
    else []
  }

  /** `addArguments`: the elements of the command in position order; a
      command without CDF rows gets none. */
  function AddArguments(b: Building, inputs: TcInputs, hex: string -> Result<Bytes, LoadError>, ctx: Context,
                        cdfs: map<string, seq<CdfRecord>>): (r: Result<Building, LoadError>)
    requires BuildValid(b)
    requires forall k :: 0 <= k < |Elements(cdfs, b.mc.name)| ==>
      var c := Elements(cdfs, b.mc.name)[k]; ElementOk(c) && (IsFixedArgument(c.eltype) ==> b.parent.Some?)
    ensures r.Ok? ==>
      && BuildValid(r.value) && SameShell(r.value.mc, b.mc) && SameParent(r.value.parent, b.parent)
      && r.value.st.ss.commands == b.st.ss.commands
      && (b.parent.None? ==> r.value.mc.assignments == b.mc.assignments)
      && LaidOut(r.value.mc.container.entries, |b.mc.container.entries|, Elements(cdfs, b.mc.name))
      && r.value.mc.container.entries[..|b.mc.container.entries|] == b.mc.container.entries
  {
    AddElements(b, inputs, hex, ctx, Elements(cdfs, b.mc.name))
  }

  // ---------------------------------------------------------------------------
  // The container of a PUS service report

  /** A restriction comparison that requires `param` to read `v`. */
  predicate ComparesTo(c: Comparison, param: string, v: int) {
    c.param == param && c.value == Text(IntToString(v))
  }

  /** A container restricted to the given service type and subtype. */
  predicate IsServiceContainer(c: Container, ptype: int, stype: int) {
    && c.restriction.Some?
    && (exists i :: 0 <= i < |c.restriction.value| && ComparesTo(c.restriction.value[i], PARA_NAME_PUS_TYPE, ptype))
    && (exists i :: 0 <= i < |c.restriction.value| && ComparesTo(c.restriction.value[i], PARA_NAME_PUS_STYPE, stype))
  }

  function FindContainerFrom(ss: SpaceSystem, ptype: int, stype: int, i: nat): (r: Option<string>)
    requires ss.WellFormed() && i <= |ss.containerOrder|
    ensures r.Some? ==> r.value in ss.containers && IsServiceContainer(ss.containers[r.value], ptype, stype)
    ensures r.Some? ==> exists k :: (i <= k < |ss.containerOrder| && ss.containerOrder[k] == r.value
      && forall j :: i <= j < k ==> !IsServiceContainer(ss.containers[ss.containerOrder[j]], ptype, stype))
    ensures r.None? ==> forall j :: i <= j < |ss.containerOrder| ==> !IsServiceContainer(ss.containers[ss.containerOrder[j]], ptype, stype)
    decreases |ss.containerOrder| - i
  {
    if i == |ss.containerOrder| then None
    else
      var n := ss.containerOrder[i];
      if IsServiceContainer(ss.containers[n], ptype, stype) then Some(n)
      else FindContainerFrom(ss, ptype, stype, i + 1)
  }

  /** `findContainer`: the first container, in the order containers were
      added, restricted to the given service type and subtype. */
  function FindContainer(ss: SpaceSystem, ptype: int, stype: int): (r: Option<string>)
    requires ss.WellFormed()
    ensures r.Some? ==> r.value in ss.containers && IsServiceContainer(ss.containers[r.value], ptype, stype)
    ensures r.Some? ==> exists k :: (0 <= k < |ss.containerOrder| && ss.containerOrder[k] == r.value
      && forall j :: 0 <= j < k ==> !IsServiceContainer(ss.containers[ss.containerOrder[j]], ptype, stype))
    ensures r.None? <==> forall n :: n in ss.containers ==> !IsServiceContainer(ss.containers[n], ptype, stype)
  {
    FindContainerFrom(ss, ptype, stype, 0)
  }

  /** A packet container created for a service type and subtype is found by
      that type and subtype. */
  lemma FindsCreatedSubcontainer(ss: SpaceSystem, apid: int, ptype: int, stype: int, name: string)
    requires ss.WellFormed()
    ensures FindContainer(CreateSubcontainer(ss, apid, ptype, stype, name), ptype, stype).Some?
  {
    var r := CreateSubcontainer(ss, apid, ptype, stype, name);
    var cs := r.containers[name].restriction.value;
    assert ComparesTo(cs[1], PARA_NAME_PUS_TYPE, ptype);
    assert ComparesTo(cs[2], PARA_NAME_PUS_STYPE, stype);
    assert IsServiceContainer(r.containers[name], ptype, stype);
  }

  // ---------------------------------------------------------------------------
  // CCF: the commands

  const IDX_CCF_CNAME: nat := 0
  const IDX_CCF_DESCR: nat := 1
  const IDX_CCF_DESCR2: nat := 2
  const IDX_CCF_CRITICAL: nat := 4
  const IDX_CCF_PKTID: nat := 5
  const IDX_CCF_TYPE: nat := 6
  const IDX_CCF_STYPE: nat := 7
  const IDX_CCF_APID: nat := 8
  const IDX_CCF_ACK: nat := 19

  /** The packet id of commands sent without a header. */
  const NO_HEADER: string := "NOHEADER"

  function UnknownPacketId(ctx: Context, pktid: string): LoadError {
    MibLoadError(Some(ctx), "Encountered CCF record referencng unknown CCF_PKID=" + pktid)
  }

  /** The CDF lists as the CDF loader leaves them. */
  predicate CdfsOk(cdfs: map<string, seq<CdfRecord>>) {
    forall n, k :: n in cdfs && 0 <= k < |cdfs[n]| ==> ElementOk(cdfs[n][k])
  }

  /** The lists the CDF loader builds satisfy `CdfsOk`. */
  lemma LoadCdfOk(t: Table, cpcs: map<string, CpcRecord>, vplbDefault: int)
    requires LoadCdf(t, cpcs, vplbDefault).Ok?
    ensures CdfsOk(LoadCdf(t, cpcs, vplbDefault).value.lists)
  {
    var lists := LoadCdf(t, cpcs, vplbDefault).value.lists;
    forall n, k | n in lists && 0 <= k < |lists[n]| ensures ElementOk(lists[n][k]) {
      LoadCdfElements(t, cpcs, vplbDefault, n);
      assert lists[n][k] in lists[n];
    }
  }

  /** `hasReadOnlyArguments`: some element of the command is a read-only
      argument. */
  predicate HasReadOnlyArguments(cdfs: map<string, seq<CdfRecord>>, cname: string) {
    cname in cdfs && exists i :: 0 <= i < |cdfs[cname]| && IsFixedArgument(cdfs[cname][i].eltype)
  }

  /** The name of the abstract parent holding the read-only arguments. */
  function AbstractName(cname: string): string {
    cname + "_abstract"
  }

  /** A criticality of "Y" in any case makes the command critical. */
  function Criticality(critical: string): Significance {
    if EqualsIgnoreCase(critical, "Y") then CriticalSignificance else NoSignificance
  }

  /** The command that receives the header fields: the abstract parent when
      there is one, otherwise the command itself. */
  function Top(b: Building): MetaCommand {
    if b.parent.Some? then b.parent.value else b.mc
  }

  /** The command of a CCF row before its header and elements. */
  function NewBuilding(st: ArgState, line: seq<string>, readOnly: bool): (b: Building)
    requires st.ss.WellFormed() && |line| > IDX_CCF_PKTID
    ensures BuildValid(b) && b.st == st && b.mc.container.entries == []
    ensures b.mc.name == line[IDX_CCF_CNAME] && b.mc.container.name == line[IDX_CCF_CNAME] && !b.mc.isAbstract
    ensures b.parent.Some? <==> readOnly
  {
    var cname := line[IDX_CCF_CNAME];
    var mc := NewCommand(cname).(
      shortDescription := Some(line[IDX_CCF_DESCR]),
      longDescription := GetOptString(line, IDX_CCF_DESCR2),
      significance := Some(Criticality(GetString(line, IDX_CCF_CRITICAL, "N"))));
    if readOnly then Building(mc.(base := Some(AbstractName(cname))), Some(NewCommand(AbstractName(cname)).(isAbstract := true)), st)
    else Building(mc, None, st)
  }

  /** The assignment of one header field from a CCF column, and the value
      read; no assignment and -1 when the header has no such field. */
  function RoleAssignment(role: Option<string>, ctx: Context, line: seq<string>, k: nat): (r: Result<(seq<Assignment>, int), LoadError>)
    ensures role.None? ==> r == Ok(([], -1))
    ensures role.Some? ==> (r.Ok? <==> GetInt(ctx, line, k).Ok?)
    ensures role.Some? && r.Ok? ==>
      r.value.1 == GetInt(ctx, line, k).value && r.value.0 == [Assignment(role.value, Some(IntToString(r.value.1)))]
    ensures r.Ok? ==> forall x :: x in r.value.0 ==> Some(x.argument) == role && x.value.Some?
  {
    if role.None? then Ok(([], -1))
    else
      var v :- GetInt(ctx, line, k);
      Ok(([Assignment(role.value, Some(IntToString(v)))], v))
  }

  /** The header fields a CCF row sets: application id, service type and
      subtype, and the acknowledgement flags when the column is filled; with
      the type and subtype read (-1 when not set). */
  function HeaderAssignments(thr: TcHeader, ctx: Context, line: seq<string>): (r: Result<(seq<Assignment>, int, int), LoadError>)
    ensures r.Ok? ==> |r.value.0| <= 4
    ensures r.Ok? ==> (thr.ptype.Some? ==> GetInt(ctx, line, IDX_CCF_TYPE) == Ok(r.value.1)) && (thr.ptype.None? ==> r.value.1 == -1)
    ensures r.Ok? ==> (thr.subType.Some? ==> GetInt(ctx, line, IDX_CCF_STYPE) == Ok(r.value.2)) && (thr.subType.None? ==> r.value.2 == -1)
    ensures r.Ok? ==> forall i :: 0 <= i < |r.value.0| ==> SetsRole(thr, r.value.0[i])
  {
    var a :- RoleAssignment(thr.apid, ctx, line, IDX_CCF_APID);
    var t :- RoleAssignment(thr.ptype, ctx, line, IDX_CCF_TYPE);
    var s :- RoleAssignment(thr.subType, ctx, line, IDX_CCF_STYPE);
    var k :- if HasColumn(line, IDX_CCF_ACK) then RoleAssignment(thr.ack, ctx, line, IDX_CCF_ACK) else Ok(([], -1));
    var all := a.0 + t.0 + s.0 + k.0;
    assert forall x :: x in all ==> x in a.0 || x in t.0 || x in s.0 || x in k.0;
    Ok((all, t.1, s.1))
  }

  /** The assignment gives a value to one of the header's field arguments. */
  predicate SetsRole(thr: TcHeader, x: Assignment) {
    Some(x.argument) in {thr.apid, thr.ptype, thr.subType, thr.ack} && x.value.Some?
  }

  /** The command placed under its header: the top command derives from
      the header command and receives the field assignments; the command's
      container derives from the header's container. */
  function WithHeader(b: Building, thr: TcHeader, assignments: seq<Assignment>): (r: Building)
    requires BuildValid(b)
    ensures BuildValid(r) && r.st == b.st
    ensures Top(r).base == Some(thr.command.name) && Top(r).assignments == Top(b).assignments + assignments
    ensures r.mc.container.base == Some(thr.command.container.name)
    ensures r.mc.name == b.mc.name && r.mc.container.name == b.mc.container.name && r.mc.isAbstract == b.mc.isAbstract
    ensures r.mc.container.entries == b.mc.container.entries && r.mc.arguments == b.mc.arguments
    ensures r.parent.Some? == b.parent.Some? && (b.parent.Some? ==> r.mc.base == b.mc.base && r.mc.assignments == b.mc.assignments)
    ensures r.parent.Some? ==> r.parent.value.name == b.parent.value.name && r.parent.value.isAbstract == b.parent.value.isAbstract
    ensures r.mc.shortDescription == b.mc.shortDescription && r.mc.longDescription == b.mc.longDescription
    ensures r.mc.significance == b.mc.significance && r.mc.verifiers == b.mc.verifiers
  {
    var mc := b.mc.(container := b.mc.container.(base := Some(thr.command.container.name)));
    match b.parent
    case Some(p) =>
      var r := Building(mc, Some(p.(base := Some(thr.command.name), assignments := p.assignments + assignments)), b.st);
      assert ArgNames(r.parent.value.arguments) == ArgNames(p.arguments);
      r
    case None =>
      Building(mc.(base := Some(thr.command.name), assignments := mc.assignments + assignments), None, b.st)
  }

  /** The verifier of a PUS(17,1) connection test: the (17,2) report must
      arrive within 15 seconds of release. */
  function Pus17Verifier(container: string): Verifier {
    Verifier(ContainerVerifier, "PUS17_Report", CheckWindow(0, 15000), Some(container), None)
  }

  /** The verifiers a command of service type and subtype gets: the PUS17
      report verifier for (17,1) when a (17,2) container exists. */
  function Pus17Verifiers(ss: SpaceSystem, ptype: int, stype: int): (r: seq<Verifier>)
    requires ss.WellFormed()
    ensures r != [] <==> ptype == 17 && stype == 1 && FindContainer(ss, 17, 2).Some?
    ensures r != [] ==> r == [Pus17Verifier(FindContainer(ss, 17, 2).value)]
  {
    if ptype == 17 && stype == 1 then
      match FindContainer(ss, 17, 2)
      case Some(sc) => [Pus17Verifier(sc)]
      case None => []
    else []
  }

  /** The command of a CCF row with a known header (or none), its header
      fields, its verifier and its elements, before it is registered. */
  function BuildCommand(st: ArgState, inputs: TcInputs, headers: map<string, TcHeader>, cdfs: map<string, seq<CdfRecord>>,
                        hex: string -> Result<Bytes, LoadError>, ctx: Context, line: seq<string>): (r: Result<Building, LoadError>)
    requires st.ss.WellFormed() && CdfsOk(cdfs) && |line| > IDX_CCF_PKTID
    ensures line[IDX_CCF_PKTID] !in headers && line[IDX_CCF_PKTID] != NO_HEADER ==> r == Err(UnknownPacketId(ctx, line[IDX_CCF_PKTID]))
    ensures r.Ok? ==> var b := r.value; var cname := line[IDX_CCF_CNAME];
      && BuildValid(b) && b.st.ss.commands == st.ss.commands
      && b.mc.name == cname && b.mc.container.name == cname && !b.mc.isAbstract
      && (b.parent.Some? <==> HasReadOnlyArguments(cdfs, cname))
      && LaidOut(b.mc.container.entries, 0, Elements(cdfs, cname))
  {
    var cname := line[IDX_CCF_CNAME];
    var pktid := line[IDX_CCF_PKTID];
    if pktid !in headers && pktid != NO_HEADER then Err(UnknownPacketId(ctx, pktid))
    else
      var b0 := NewBuilding(st, line, HasReadOnlyArguments(cdfs, cname));
      var h :-
        if pktid in headers then
          var fields :- HeaderAssignments(headers[pktid], ctx, line);
          Ok((WithHeader(b0, headers[pktid], fields.0), fields.1, fields.2))
        else Ok((b0, -1, -1));
      var b1 := h.0;
      var b2 := b1.(mc := b1.mc.(verifiers := b1.mc.verifiers + Pus17Verifiers(st.ss, h.1, h.2)));
      ElementsNeedParent(cdfs, cname, b2);
      AddArguments(b2, inputs, hex, ctx, cdfs)
  }

  /** What a CCF row sets on the command it builds: the descriptions and
      criticality from its columns, and the abstract parent when there are
      read-only arguments. */
  lemma BuildCommandShell(st: ArgState, inputs: TcInputs, headers: map<string, TcHeader>, cdfs: map<string, seq<CdfRecord>>,
                          hex: string -> Result<Bytes, LoadError>, ctx: Context, line: seq<string>)
    requires st.ss.WellFormed() && CdfsOk(cdfs) && |line| > IDX_CCF_PKTID
    requires BuildCommand(st, inputs, headers, cdfs, hex, ctx, line).Ok?
    ensures var b := BuildCommand(st, inputs, headers, cdfs, hex, ctx, line).value;
      var cname := line[IDX_CCF_CNAME];
      && b.mc.shortDescription == Some(line[IDX_CCF_DESCR])
      && b.mc.longDescription == GetOptString(line, IDX_CCF_DESCR2)
      && b.mc.significance == Some(Criticality(GetString(line, IDX_CCF_CRITICAL, "N")))
      && (b.parent.Some? ==>
            b.mc.base == Some(AbstractName(cname)) && b.parent.value.name == AbstractName(cname) && b.parent.value.isAbstract)
  {
    var cname := line[IDX_CCF_CNAME];
    var pktid := line[IDX_CCF_PKTID];
    var b0 := NewBuilding(st, line, HasReadOnlyArguments(cdfs, cname));
    var h :=
      if pktid in headers then
        var fields := HeaderAssignments(headers[pktid], ctx, line).value;
        (WithHeader(b0, headers[pktid], fields.0), fields.1, fields.2)
      else (b0, -1, -1);
    var b1 := h.0;
    var b2 := b1.(mc := b1.mc.(verifiers := b1.mc.verifiers + Pus17Verifiers(st.ss, h.1, h.2)));
    ElementsNeedParent(cdfs, cname, b2);
    assert BuildCommand(st, inputs, headers, cdfs, hex, ctx, line) == AddArguments(b2, inputs, hex, ctx, cdfs);
  }

  /** The header of a CCF row is the base of the top command, which
      receives the header field assignments, and the header container is
      the base of the command container. */
  lemma BuildCommandHeader(st: ArgState, inputs: TcInputs, headers: map<string, TcHeader>, cdfs: map<string, seq<CdfRecord>>,
                          hex: string -> Result<Bytes, LoadError>, ctx: Context, line: seq<string>)
    requires st.ss.WellFormed() && CdfsOk(cdfs) && |line| > IDX_CCF_PKTID
    requires BuildCommand(st, inputs, headers, cdfs, hex, ctx, line).Ok?
    ensures var b := BuildCommand(st, inputs, headers, cdfs, hex, ctx, line).value;
      var pktid := line[IDX_CCF_PKTID];
      && (pktid in headers ==>
            && HeaderAssignments(headers[pktid], ctx, line).Ok?
            && Top(b).base == Some(headers[pktid].command.name)
            && Top(b).assignments == HeaderAssignments(headers[pktid], ctx, line).value.0
            && b.mc.container.base == Some(headers[pktid].command.container.name))
      && (pktid !in headers ==> pktid == NO_HEADER && Top(b).base.None? && Top(b).assignments == [] && b.mc.container.base.None?)
  {
    var cname := line[IDX_CCF_CNAME];
    var pktid := line[IDX_CCF_PKTID];
    var b0 := NewBuilding(st, line, HasReadOnlyArguments(cdfs, cname));
    var h :=
      if pktid in headers then
        var fields := HeaderAssignments(headers[pktid], ctx, line).value;
        (WithHeader(b0, headers[pktid], fields.0), fields.1, fields.2)
      else (b0, -1, -1);
    var b1 := h.0;
    var b2 := b1.(mc := b1.mc.(verifiers := b1.mc.verifiers + Pus17Verifiers(st.ss, h.1, h.2)));
    ElementsNeedParent(cdfs, cname, b2);
    assert BuildCommand(st, inputs, headers, cdfs, hex, ctx, line) == AddArguments(b2, inputs, hex, ctx, cdfs);
  }

  /** The PUS17 verifier is added exactly for a (17,1) command with a
      header when a (17,2) container exists. */
  lemma BuildCommandPus17(st: ArgState, inputs: TcInputs, headers: map<string, TcHeader>, cdfs: map<string, seq<CdfRecord>>,
                          hex: string -> Result<Bytes, LoadError>, ctx: Context, line: seq<string>)
    requires st.ss.WellFormed() && CdfsOk(cdfs) && |line| > IDX_CCF_PKTID
    requires BuildCommand(st, inputs, headers, cdfs, hex, ctx, line).Ok?
    ensures var b := BuildCommand(st, inputs, headers, cdfs, hex, ctx, line).value;
      var pktid := line[IDX_CCF_PKTID];
      b.mc.verifiers != [] <==>
        && pktid in headers && headers[pktid].ptype.Some? && headers[pktid].subType.Some?
        && GetInt(ctx, line, IDX_CCF_TYPE) == Ok(17) && GetInt(ctx, line, IDX_CCF_STYPE) == Ok(1)
        && FindContainer(st.ss, 17, 2).Some?
    ensures var b := BuildCommand(st, inputs, headers, cdfs, hex, ctx, line).value;
      b.mc.verifiers != [] ==> b.mc.verifiers == [Pus17Verifier(FindContainer(st.ss, 17, 2).value)]
  {
    var cname := line[IDX_CCF_CNAME];
    var pktid := line[IDX_CCF_PKTID];
    var b0 := NewBuilding(st, line, HasReadOnlyArguments(cdfs, cname));
    var h :=
      if pktid in headers then
        var fields := HeaderAssignments(headers[pktid], ctx, line).value;
        (WithHeader(b0, headers[pktid], fields.0), fields.1, fields.2)
      else (b0, -1, -1);
    var b1 := h.0;
    var b2 := b1.(mc := b1.mc.(verifiers := b1.mc.verifiers + Pus17Verifiers(st.ss, h.1, h.2)));
    ElementsNeedParent(cdfs, cname, b2);
    assert BuildCommand(st, inputs, headers, cdfs, hex, ctx, line) == AddArguments(b2, inputs, hex, ctx, cdfs);
  }

  /** The elements of a command are its CDF rows, so a read-only argument
      among them means the command has a parent. */
  lemma ElementsNeedParent(cdfs: map<string, seq<CdfRecord>>, cname: string, b: Building)
    requires CdfsOk(cdfs) && b.mc.name == cname && (b.parent.Some? <==> HasReadOnlyArguments(cdfs, cname))
    ensures forall k :: 0 <= k < |Elements(cdfs, cname)| ==>
      var c := Elements(cdfs, cname)[k]; ElementOk(c) && (IsFixedArgument(c.eltype) ==> b.parent.Some?)
  {
    forall k | 0 <= k < |Elements(cdfs, cname)|
      ensures var c := Elements(cdfs, cname)[k]; ElementOk(c) && (IsFixedArgument(c.eltype) ==> b.parent.Some?)
    {
      var c := Elements(cdfs, cname)[k];
      assert c in multiset(Elements(cdfs, cname));
      assert c in cdfs[cname];
      var i :| 0 <= i < |cdfs[cname]| && cdfs[cname][i] == c;
    }
  }

  /** The space system with the parent, then the command, registered. */
  function Register(b: Building): (ss: SpaceSystem)
    requires b.st.ss.WellFormed()
    ensures ss.WellFormed() && ss.SameTelemetry(b.st.ss)
    ensures ss.commands.Keys == b.st.ss.commands.Keys + {b.mc.name} + (if b.parent.Some? then {b.parent.value.name} else {})
    ensures ss.commands[b.mc.name] == b.mc
    ensures b.parent.Some? && b.parent.value.name != b.mc.name ==> ss.commands[b.parent.value.name] == b.parent.value
  {
    var ss := if b.parent.Some? then b.st.ss.PutCommand(b.parent.value) else b.st.ss;
    ss.PutCommand(b.mc)
  }

  /** The command a row named `cname` registers under `name`: the command
      itself, or its abstract parent when the row has read-only arguments. */
  predicate BuildsName(cdfs: map<string, seq<CdfRecord>>, cname: string, name: string) {
    name == cname || (HasReadOnlyArguments(cdfs, cname) && name == AbstractName(cname))
  }

  /** A CCF row that is loaded and registers a command under `name`. */
  predicate RowRegisters(cdfs: map<string, seq<CdfRecord>>, line: seq<string>, name: string) {
    |line| > IDX_CCF_PKTID && !IsBinCmd(line[IDX_CCF_CNAME]) && BuildsName(cdfs, line[IDX_CCF_CNAME], name)
  }

  /** What a built command puts under `name`: the parent when `name` is not
      the command's own. */
  function RegisteredAs(b: Building, name: string): MetaCommand {
    if name == b.mc.name || b.parent.None? then b.mc else b.parent.value
  }

  /** A CCF row of a command that is loaded: the command built and
      registered; its name and that of its abstract parent receive what was
      built, every other command stays. */
  function CcfCommand(st: ArgState, inputs: TcInputs, headers: map<string, TcHeader>, cdfs: map<string, seq<CdfRecord>>,
                      hex: string -> Result<Bytes, LoadError>, ctx: Context, line: seq<string>): (r: Result<ArgState, LoadError>)
    requires st.ss.WellFormed() && CdfsOk(cdfs) && |line| > IDX_CCF_PKTID
    ensures r.Ok? <==> BuildCommand(st, inputs, headers, cdfs, hex, ctx, line).Ok?
    ensures r.Ok? ==> r.value.ss.WellFormed() && st.ss.commands.Keys <= r.value.ss.commands.Keys
    ensures r.Ok? ==> forall k :: k in r.value.ss.commands <==> k in st.ss.commands || BuildsName(cdfs, line[IDX_CCF_CNAME], k)
    ensures r.Ok? ==> forall k :: k in st.ss.commands && !BuildsName(cdfs, line[IDX_CCF_CNAME], k) ==>
      r.value.ss.commands[k] == st.ss.commands[k]
    ensures r.Ok? ==> Built(cdfs, line[IDX_CCF_CNAME], r.value, BuildCommand(st, inputs, headers, cdfs, hex, ctx, line).value)
  {
    var b :- BuildCommand(st, inputs, headers, cdfs, hex, ctx, line);
    BuildCommandShell(st, inputs, headers, cdfs, hex, ctx, line);
    RegisterNames(b, cdfs, line[IDX_CCF_CNAME]);
    Ok(b.st.(ss := Register(b)))
  }

  /** Each name a command named `cname` builds holds what `b` registers
      under it. */
  ghost predicate Built(cdfs: map<string, seq<CdfRecord>>, cname: string, s: ArgState, b: Building) {
    forall k :: BuildsName(cdfs, cname, k) ==> k in s.ss.commands && s.ss.commands[k] == RegisteredAs(b, k)
  }

  /** Registering a command named `cname` sets exactly the names it builds. */
  lemma RegisterNames(b: Building, cdfs: map<string, seq<CdfRecord>>, cname: string)
    requires b.st.ss.WellFormed() && b.mc.name == cname && (b.parent.Some? <==> HasReadOnlyArguments(cdfs, cname))
    requires b.parent.Some? ==> b.parent.value.name == AbstractName(cname)
    ensures forall k :: k in Register(b).commands <==> k in b.st.ss.commands || BuildsName(cdfs, cname, k)
    ensures forall k :: k in b.st.ss.commands && !BuildsName(cdfs, cname, k) ==> Register(b).commands[k] == b.st.ss.commands[k]
    ensures Built(cdfs, cname, b.st.(ss := Register(b)), b)
  {
    assert |AbstractName(cname)| != |cname|;
  }

  /** One CCF row: name, description and packet id are mandatory; `BINCMD`
      commands are skipped; the command is built and registered. */
  function CcfRow(st: ArgState, inputs: TcInputs, headers: map<string, TcHeader>, cdfs: map<string, seq<CdfRecord>>,
                  hex: string -> Result<Bytes, LoadError>, ctx: Context, line: seq<string>): (r: Result<ArgState, LoadError>)
    requires st.ss.WellFormed() && CdfsOk(cdfs)
    ensures r.Ok? ==> |line| > IDX_CCF_PKTID && r.value.ss.WellFormed() && st.ss.commands.Keys <= r.value.ss.commands.Keys
    ensures r.Ok? && IsBinCmd(line[IDX_CCF_CNAME]) ==> r.value == st
    ensures r.Ok? && !IsBinCmd(line[IDX_CCF_CNAME]) ==> r == CcfCommand(st, inputs, headers, cdfs, hex, ctx, line)
  {
    var cols := [IDX_CCF_CNAME, IDX_CCF_DESCR, IDX_CCF_PKTID];
    var _ :- CheckMandatory(ctx, line, cols);
    assert cols[2] < |line|;
    if IsBinCmd(line[IDX_CCF_CNAME]) then Ok(st)
    else CcfCommand(st, inputs, headers, cdfs, hex, ctx, line)
  }

  /** What a loaded CCF row does to the commands: it registers the names
      the row registers and leaves every other one alone. */
  ghost predicate RowStep(cdfs: map<string, seq<CdfRecord>>, line: seq<string>, prev: ArgState, s: ArgState) {
    && |line| > IDX_CCF_PKTID && s.ss.WellFormed()
    && (forall k :: k in s.ss.commands <==> k in prev.ss.commands || RowRegisters(cdfs, line, k))
    && (forall k :: k in prev.ss.commands && !RowRegisters(cdfs, line, k) ==> s.ss.commands[k] == prev.ss.commands[k])
  }

  /** A name a row does not register keeps its command. */
  lemma RowStepKeeps(cdfs: map<string, seq<CdfRecord>>, line: seq<string>, prev: ArgState, s: ArgState, name: string)
    requires RowStep(cdfs, line, prev, s) && name in prev.ss.commands && !RowRegisters(cdfs, line, name)
    ensures name in s.ss.commands && s.ss.commands[name] == prev.ss.commands[name]
  { }

  /** A name a row registers is there after it. */
  lemma RowStepHas(cdfs: map<string, seq<CdfRecord>>, line: seq<string>, prev: ArgState, s: ArgState, name: string)
    requires RowStep(cdfs, line, prev, s) && RowRegisters(cdfs, line, name)
    ensures name in s.ss.commands
  { }

  /** A `BINCMD` row registers nothing. */
  lemma BinCmdStep(cdfs: map<string, seq<CdfRecord>>, line: seq<string>, prev: ArgState)
    requires |line| > IDX_CCF_PKTID && IsBinCmd(line[IDX_CCF_CNAME]) && prev.ss.WellFormed()
    ensures RowStep(cdfs, line, prev, prev)
  { }

  /** A command row registers what it built. */
  lemma CommandStep(cdfs: map<string, seq<CdfRecord>>, line: seq<string>, prev: ArgState, s: ArgState)
    requires |line| > IDX_CCF_PKTID && !IsBinCmd(line[IDX_CCF_CNAME]) && s.ss.WellFormed()
    requires forall k :: k in s.ss.commands <==> k in prev.ss.commands || BuildsName(cdfs, line[IDX_CCF_CNAME], k)
    requires forall k :: k in prev.ss.commands && !BuildsName(cdfs, line[IDX_CCF_CNAME], k) ==> s.ss.commands[k] == prev.ss.commands[k]
    ensures RowStep(cdfs, line, prev, s)
  { }

  /** Some of the first `n` CCF rows registers a command under `name`. */
  ghost predicate RegisteredBy(cdfs: map<string, seq<CdfRecord>>, t: Table, n: nat, name: string)
    requires n <= |t.lines|
  {
    exists i :: 0 <= i < n && RowRegisters(cdfs, t.lines[i].fields, name)
  }

  /** Row `i` registers `name` and no later row does. */
  ghost predicate LastRegistration(cdfs: map<string, seq<CdfRecord>>, t: Table, i: int, name: string) {
    && 0 <= i < |t.lines| && RowRegisters(cdfs, t.lines[i].fields, name)
    && forall j :: i < j < |t.lines| ==> !RowRegisters(cdfs, t.lines[j].fields, name)
  }

  /** The state after the first `n` CCF rows of `t`, from `st0`: every row
      has its columns, the commands are those of `st0` and those the rows
      register, and a command no row registers is that of `st0`. */
  ghost predicate CcfLoaded(st0: ArgState, cdfs: map<string, seq<CdfRecord>>, t: Table, s: ArgState, n: nat)
    requires n <= |t.lines|
  {
    && s.ss.WellFormed()
    && (forall i :: 0 <= i < n ==> |t.lines[i].fields| > IDX_CCF_PKTID)
    && (forall k :: k in s.ss.commands <==> k in st0.ss.commands || RegisteredBy(cdfs, t, n, k))
    && (forall k :: k in st0.ss.commands && !RegisteredBy(cdfs, t, n, k) ==> s.ss.commands[k] == st0.ss.commands[k])
  }

  lemma RegisteredByStep(cdfs: map<string, seq<CdfRecord>>, t: Table, n: nat, name: string)
    requires n < |t.lines|
    ensures RegisteredBy(cdfs, t, n + 1, name) <==> RegisteredBy(cdfs, t, n, name) || RowRegisters(cdfs, t.lines[n].fields, name)
  {
    if RegisteredBy(cdfs, t, n + 1, name) && !RowRegisters(cdfs, t.lines[n].fields, name) {
      var i :| 0 <= i < n + 1 && RowRegisters(cdfs, t.lines[i].fields, name);
      assert i < n;
    }
  }

  /** One more CCF row keeps the loaded state. */
  lemma CcfStep(st0: ArgState, cdfs: map<string, seq<CdfRecord>>, t: Table, prev: ArgState, n: nat, s: ArgState)
    requires n < |t.lines| && CcfLoaded(st0, cdfs, t, prev, n) && RowStep(cdfs, t.lines[n].fields, prev, s)
    ensures CcfLoaded(st0, cdfs, t, s, n + 1)
  {
    forall k ensures RegisteredBy(cdfs, t, n + 1, k) <==> RegisteredBy(cdfs, t, n, k) || RowRegisters(cdfs, t.lines[n].fields, k) {
      RegisteredByStep(cdfs, t, n, k);
    }
  }


  /** States that follow the CCF rows from `states[0]` are loaded states. */
  lemma {:induction false} StatesLoaded(st0: ArgState, cdfs: map<string, seq<CdfRecord>>, t: Table, states: seq<ArgState>, n: nat)
    requires n <= |t.lines| && n < |states| && states[0] == st0 && st0.ss.WellFormed()
    requires forall k :: 0 <= k < n ==> RowStep(cdfs, t.lines[k].fields, states[k], states[k + 1])
    ensures CcfLoaded(st0, cdfs, t, states[n], n)
  {
    if n > 0 {
      StatesLoaded(st0, cdfs, t, states, n - 1);
      CcfStep(st0, cdfs, t, states[n - 1], n - 1, states[n]);
    }
  }

  /** Along states that follow the rows, what row `i` registers under
      `name` stays there while no later row registers it. */
  lemma {:induction false} StatesLast(cdfs: map<string, seq<CdfRecord>>, t: Table, states: seq<ArgState>, n: nat, i: nat, name: string)
    requires i < n <= |t.lines| && n < |states|
    requires forall k :: 0 <= k < n ==> RowStep(cdfs, t.lines[k].fields, states[k], states[k + 1])
    requires RowRegisters(cdfs, t.lines[i].fields, name)
    requires forall j :: i < j < n ==> !RowRegisters(cdfs, t.lines[j].fields, name)
    ensures name in states[i + 1].ss.commands && name in states[n].ss.commands
    ensures states[n].ss.commands[name] == states[i + 1].ss.commands[name]
  {
    if n == i + 1 {
      RowStepHas(cdfs, t.lines[i].fields, states[i], states[i + 1], name);
    } else {
      StatesLast(cdfs, t, states, n - 1, i, name);
      RowStepKeeps(cdfs, t.lines[n - 1].fields, states[n - 1], states[n], name);
    }
  }

  /** States that follow the first `n` CCF rows from `st0`: one before the
      first row and one after each. */
  ghost predicate Trace(st0: ArgState, cdfs: map<string, seq<CdfRecord>>, t: Table, states: seq<ArgState>, n: nat) {
    && n <= |t.lines| && |states| == n + 1 && states[0] == st0
    && (forall k :: 0 <= k <= n ==> states[k].ss.WellFormed())
    && (forall k :: 0 <= k < n ==> RowStep(cdfs, t.lines[k].fields, states[k], states[k + 1]))
  }

  /** A CCF row that is not `BINCMD` built its command in `prev`, and `s`
      holds what was built. */
  ghost predicate RowBuilt(inputs: TcInputs, headers: map<string, TcHeader>, cdfs: map<string, seq<CdfRecord>>,
                           hex: string -> Result<Bytes, LoadError>, ctx: Context, line: seq<string>, prev: ArgState, s: ArgState) {
    (prev.ss.WellFormed() && CdfsOk(cdfs) && |line| > IDX_CCF_PKTID && !IsBinCmd(line[IDX_CCF_CNAME])) ==>
      var b := BuildCommand(prev, inputs, headers, cdfs, hex, ctx, line);
      b.Ok? && Built(cdfs, line[IDX_CCF_CNAME], s, b.value)
  }

  /** Each of the first `n` rows built its command (see `RowBuilt`). */
  ghost predicate RowsBuilt(inputs: TcInputs, headers: map<string, TcHeader>, cdfs: map<string, seq<CdfRecord>>,
                            hex: string -> Result<Bytes, LoadError>, t: Table, states: seq<ArgState>, n: nat) {
    && n <= |t.lines| && |states| == n + 1
    && forall k :: 0 <= k < n ==> RowBuilt(inputs, headers, cdfs, hex, t.At(k), t.lines[k].fields, states[k], states[k + 1])
  }

  /** A loaded CCF row registers what its row registers and, unless it is
      `BINCMD`, holds the command it built. */
  lemma CcfRowStep(st: ArgState, inputs: TcInputs, headers: map<string, TcHeader>, cdfs: map<string, seq<CdfRecord>>,
                   hex: string -> Result<Bytes, LoadError>, ctx: Context, line: seq<string>, s: ArgState)
    requires st.ss.WellFormed() && CdfsOk(cdfs) && CcfRow(st, inputs, headers, cdfs, hex, ctx, line) == Ok(s)
    ensures RowStep(cdfs, line, st, s)
    ensures RowBuilt(inputs, headers, cdfs, hex, ctx, line, st, s)
  {
    if IsBinCmd(line[IDX_CCF_CNAME]) {
      BinCmdStep(cdfs, line, st);
    } else {
      assert CcfCommand(st, inputs, headers, cdfs, hex, ctx, line) == Ok(s);
      CommandStep(cdfs, line, st, s);
    }
  }

  lemma TraceSnoc(st0: ArgState, cdfs: map<string, seq<CdfRecord>>, t: Table, prev: seq<ArgState>, s: ArgState, n: nat)
    requires n < |t.lines| && Trace(st0, cdfs, t, prev, n) && RowStep(cdfs, t.lines[n].fields, prev[n], s)
    ensures Trace(st0, cdfs, t, prev + [s], n + 1)
  {
    var states := prev + [s];
    assert forall k :: 0 <= k <= n ==> states[k] == prev[k];
  }

  lemma RowsBuiltSnoc(inputs: TcInputs, headers: map<string, TcHeader>, cdfs: map<string, seq<CdfRecord>>,
                      hex: string -> Result<Bytes, LoadError>, t: Table, prev: seq<ArgState>, s: ArgState, n: nat)
    requires n < |t.lines| && RowsBuilt(inputs, headers, cdfs, hex, t, prev, n)
    requires RowBuilt(inputs, headers, cdfs, hex, t.At(n), t.lines[n].fields, prev[n], s)
    ensures RowsBuilt(inputs, headers, cdfs, hex, t, prev + [s], n + 1)
  {
    var states := prev + [s];
    assert forall k :: 0 <= k <= n ==> states[k] == prev[k];
  }

  /** A row of the trace that is not `BINCMD` built its command. */
  lemma RowBuiltAt(inputs: TcInputs, headers: map<string, TcHeader>, cdfs: map<string, seq<CdfRecord>>,
                   hex: string -> Result<Bytes, LoadError>, t: Table, states: seq<ArgState>, n: nat, i: nat)
    requires CdfsOk(cdfs) && |states| == n + 1 && Trace(states[0], cdfs, t, states, n)
    requires RowsBuilt(inputs, headers, cdfs, hex, t, states, n)
    requires i < n && |t.lines[i].fields| > IDX_CCF_PKTID && !IsBinCmd(t.lines[i].fields[IDX_CCF_CNAME])
    ensures var b := BuildCommand(states[i], inputs, headers, cdfs, hex, t.At(i), t.lines[i].fields);
      b.Ok? && Built(cdfs, t.lines[i].fields[IDX_CCF_CNAME], states[i + 1], b.value)
  {
    assert states[i].ss.WellFormed();
    assert RowBuilt(inputs, headers, cdfs, hex, t.At(i), t.lines[i].fields, states[i], states[i + 1]);
  }
}
