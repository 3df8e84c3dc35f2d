/** The top of the MIB loader: the database version from the VDF table,
    then the telemetry pass, then the command pass. */
module MibLoader {
  import opened Wrappers
  import opened Text
  import opened Mdb
  import opened MibLoaderBits
  import opened BaseMibLoader
  import MibParameter
  import TmParameters
  import TmPackets
  import TmEntries
  import TmLimits
  import TcMibLoader

  const IDX_VDF_NAME: nat := 0
  const IDX_VDF_COMMENT: nat := 1
  const IDX_VDF_RELEASE: nat := 3
  const IDX_VDF_ISSUE: nat := 4

  /** Each VDF row needs its name column. */
  function VdfRow(ctx: Context, line: seq<string>): (r: Result<seq<string>, LoadError>)
    ensures r.Ok? <==> IDX_VDF_NAME < |line|
    ensures r.Ok? ==> r.value == line
  {
    var _ :- CheckMandatory(ctx, line, [IDX_VDF_NAME]);
    Ok(line)
  }

  function NoVdfRecord(t: Table): LoadError {
    MibLoadError(Some(t.AtEnd()), "No record present into the VDF table")
  }

  /** `release + "." + issue`. */
  function Version(release: int, issue: int): string {
    IntToString(release) + "." + IntToString(issue)
  }

  /** `loadVdf`: every row must have a name; only the last row counts. Its
      release and issue (0 when absent) make the version, and its comment,
      when present, the description. The reader sits past the last line when
      the columns of the last row are parsed. */
  function LoadVdf(t: Table, ssName: string): (r: Result<SpaceSystem, LoadError>)
    ensures r.Ok? ==> |t.lines| > 0 && forall i :: 0 <= i < |t.lines| ==> IDX_VDF_NAME < |t.lines[i].fields|
    ensures (forall i :: 0 <= i < |t.lines| ==> IDX_VDF_NAME < |t.lines[i].fields|) && |t.lines| == 0 ==>
      r == Err(NoVdfRecord(t))
    ensures r.Ok? ==>
      var last := t.lines[|t.lines| - 1].fields;
      && r.value.name == ssName && r.value.WellFormed()
      && r.value.parameters == map[] && r.value.containers == map[] && r.value.commands == map[]
      && (r.value.description.Some? <==> HasColumn(last, IDX_VDF_COMMENT))
      && (r.value.description.Some? ==> r.value.description.value == last[IDX_VDF_COMMENT])
      && (exists release, issue :: r.value.version == Version(release, issue)
            && GetIntOr(t.AtEnd(), last, IDX_VDF_RELEASE, 0) == Ok(release)
            && GetIntOr(t.AtEnd(), last, IDX_VDF_ISSUE, 0) == Ok(issue))
  {
    var rows :- ParseRows(t, VdfRow);
    if |rows| == 0 then Err(NoVdfRecord(t))
    else
      var last := rows[|rows| - 1];
      var release :- GetIntOr(t.AtEnd(), last, IDX_VDF_RELEASE, 0);
      var issue :- GetIntOr(t.AtEnd(), last, IDX_VDF_ISSUE, 0);
      var ss := EmptySpaceSystem(ssName);
      Ok(ss.(version := Version(release, issue), description := GetOptString(last, IDX_VDF_COMMENT)))
  }

  /** Only the last row matters: two tables whose rows all have a name and
      whose last rows agree load the same version and description. */
  lemma LoadVdfLastRowOnly(a: Table, b: Table, ssName: string)
    requires |a.lines| > 0 && |b.lines| > 0
    requires forall i :: 0 <= i < |a.lines| ==> IDX_VDF_NAME < |a.lines[i].fields|
    requires forall i :: 0 <= i < |b.lines| ==> IDX_VDF_NAME < |b.lines[i].fields|
    requires a.lines[|a.lines| - 1].fields == b.lines[|b.lines| - 1].fields
    requires a.AtEnd() == b.AtEnd()
    ensures LoadVdf(a, ssName) == LoadVdf(b, ssName)
  {
    var ra := ParseRows(a, VdfRow);
    var rb := ParseRows(b, VdfRow);
    assert ra.Ok? && rb.Ok?;
    assert ra.value[|ra.value| - 1] == rb.value[|rb.value| - 1];
  }

  /** The digits of a printed integer hold no dot. */
  lemma NoDotInInt(n: int)
    ensures '.' !in IntToString(n)
  {
    var s := NatToString(if n < 0 then -n else n);
    assert forall i :: 0 <= i < |s| ==> s[i] != '.' by {
      forall i | 0 <= i < |s| ensures s[i] != '.' {
        assert DigitValue(s[i], 10) >= 0;
      }
    }
    if n < 0 {
      assert IntToString(n) == "-" + s;
      assert forall i :: 0 <= i < |"-" + s| ==> ("-" + s)[i] != '.' by {
        forall i | 0 <= i < |"-" + s| ensures ("-" + s)[i] != '.' {
          if i > 0 { assert ("-" + s)[i] == s[i - 1]; }
        }
      }
    }
  }

  /** The version splits at its first dot back into release and issue. */
  lemma VersionRoundTrip(release: int, issue: int)
    requires IsJavaInt(release) && IsJavaInt(issue)
    ensures var v := Version(release, issue);
      var k := IndexOf(v, '.');
      && k == |IntToString(release)|
      && ParseInt(v[..k]) == Some(release)
      && ParseInt(v[k + 1..]) == Some(issue)
  {
    var v := Version(release, issue);
    var a := IntToString(release);
    NoDotInInt(release);
    assert v[..|a|] == a;
    assert v[|a|] == '.';
    assert v[|a| + 1..] == IntToString(issue);
    IndexOfFirst(v, '.', |a|);
    IntToStringRoundTrip(release, INT_MIN, INT_MAX);
    IntToStringRoundTrip(issue, INT_MIN, INT_MAX);
  }

  /** An occurrence with none before it is the first. */
  lemma IndexOfFirst(s: string, c: char, k: int)
    requires 0 <= k < |s| && s[k] == c && c !in s[..k]
    ensures IndexOf(s, c) == k
  {
  }

  /** The telemetry tables of a MIB. */
  datatype TelemetryTables = TelemetryTables(
    cur: Table, caf: Table, cap: Table, txf: Table, txp: Table, mcf: Table, lgf: Table,
    pcf: Table, pic: Table, pid: Table, tpcf: Table, vpd: Table, plf: Table,
    ocp: Table, ocf: Table)

  /** All the tables a MIB load reads. */
  datatype MibTables = MibTables(vdf: Table, tm: TelemetryTables, tc: TcMibLoader.CommandTables)

  /** The loader configuration: the space system name, the default size tag
      of variable-length parameters, the offsets of the PUS type and subtype
      in the packet, and the command pass settings. */
  datatype MibSettings = MibSettings(
    ssName: string, vblParamLengthBytes: int, typeOffset: int, subtypeOffset: int,
    tc: TcMibLoader.CommandSettings)

  /** The PCF parameters in the order the telemetry pass lists them. */
  function ParameterList(st: TmParameters.TmState): (r: seq<MibParameter.MibParameter>)
    requires forall n :: n in st.parameterOrder ==> n in st.parameters
    ensures |r| == |st.parameterOrder|
    ensures forall i :: 0 <= i < |r| ==> r[i] == st.parameters[st.parameterOrder[i]]
  {
    seq(|st.parameterOrder|, i requires 0 <= i < |st.parameterOrder| => st.parameters[st.parameterOrder[i]])
  }

  /** `load`: the VDF, then the telemetry (parameters; packets with their
      variable parts; fixed packet entries; limits), then the commands. The
      first exception stops the load; the errors reported along the way are
      returned with the space system. */
  method Load(tables: MibTables, cfg: MibSettings, hex: string -> Result<Bytes, LoadError>)
    returns (r: Result<(SpaceSystem, seq<LoadError>), LoadError>)
    ensures LoadVdf(tables.vdf, cfg.ssName).Err? ==> r == Err(LoadVdf(tables.vdf, cfg.ssName).error)
    ensures r.Ok? ==> LoadVdf(tables.vdf, cfg.ssName).Ok?
    ensures r.Ok? ==> r.value.0.WellFormed() && TcMibLoader.Registers(tables.tc, r.value.0)
  {
    var tm := tables.tm;
    var ss0 :- LoadVdf(tables.vdf, cfg.ssName);
    var params :- TmParameters.LoadTelemetryParams(tm.cur, tm.caf, tm.cap, tm.txf, tm.txp, tm.mcf, tm.lgf,
                                                   tm.pcf, cfg.vblParamLengthBytes, ss0);
    var packets :- TmPackets.LoadPacketStructure(params.ss, params.errors, tm.pic, tm.pid, tm.tpcf,
                                                 cfg.typeOffset, cfg.subtypeOffset);
    var withVpd :- TmEntries.LoadVpd(packets.0, params.deduced, packets.1.byTpsd, tm.vpd);
    var withPlf :- TmEntries.LoadPacketEntries(withVpd, params.deduced, params.synthetic, tm.plf);
    var limits :- TmLimits.LoadLimits(tm.ocp, tm.ocf, params.parameters, TmLimits.LimitsState(withPlf, withVpd.errors));
    var commands :- TcMibLoader.LoadCommands(limits.ss, ParameterList(params), tables.tc, cfg.tc, hex);
    r := Ok((commands, limits.errors));
  }
}
