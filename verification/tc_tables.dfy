/** The tables the command builder joins: command parameters (CPC), command
    elements (CDF), numeric de-calibration curves (CCA/CCS), textual
    de-calibrations (PAF/PAS) and parameter range sets (PRF/PRV). */
module TcTables {
  import opened Wrappers
  import opened Text
  import opened Mdb
  import opened MibLoaderBits
  import opened BaseMibLoader
  import opened Collections
  import opened MonitoringData
  import opened TmCalibration

  // ---------------------------------------------------------------------------
  // CPC: command parameters

  const IDX_CPC_PNAME: nat := 0
  const IDX_CPC_PTC: nat := 2
  const IDX_CPC_PFC: nat := 3
  const IDX_CPC_UNIT: nat := 6
  const IDX_CPC_CATEG: nat := 7
  const IDX_CPC_PRFREF: nat := 8
  const IDX_CPC_CCAREF: nat := 9
  const IDX_CPC_PAFREF: nat := 10
  const IDX_CPC_INTER: nat := 11
  const IDX_CPC_DEFVAL: nat := 12

  /** A CPC row. The display format, radix and OBT id the record declares are
      never filled in by the loader and are not kept. */
  datatype CpcRecord = CpcRecord(
    pname: string,
    descr: Option<string>,
    ptc: int,
    pfc: int,
    unit: Option<string>,
    categ: string,
    prfref: Option<string>,
    ccaref: Option<string>,
    pafref: Option<string>,
    inter: string,
    defval: Option<string>,
    corr: string)

  /** One CPC row: name, PTC and PFC are mandatory; the PFC is parsed before
      the PTC. */
  function CpcRow(ctx: Context, line: seq<string>): (r: Result<CpcRecord, LoadError>)
    ensures r.Ok? <==> |line| > IDX_CPC_PFC && ParseInt(line[IDX_CPC_PTC]).Some? && ParseInt(line[IDX_CPC_PFC]).Some?
    ensures r.Ok? ==>
      && r.value.pname == line[IDX_CPC_PNAME]
      && r.value.ptc == ParseInt(line[IDX_CPC_PTC]).value
      && r.value.pfc == ParseInt(line[IDX_CPC_PFC]).value
    ensures |line| > IDX_CPC_PFC && r.Err? ==>
      r.error == ParseFailure(ctx, if ParseInt(line[IDX_CPC_PFC]).None? then line[IDX_CPC_PFC] else line[IDX_CPC_PTC])
  {
    var _ :- CheckMandatory(ctx, line, [IDX_CPC_PNAME, IDX_CPC_PTC, IDX_CPC_PFC]);
    var pfc :- GetInt(ctx, line, IDX_CPC_PFC);
    var ptc :- GetInt(ctx, line, IDX_CPC_PTC);
    Ok(CpcRecord(
      line[IDX_CPC_PNAME],
      // the description is read from the name column, as written
      GetOptString(line, IDX_CPC_PNAME),
      ptc,
      pfc,
      GetOptString(line, IDX_CPC_UNIT),
      GetString(line, IDX_CPC_CATEG, "N"),
      GetOptString(line, IDX_CPC_PRFREF),
      GetOptString(line, IDX_CPC_CCAREF),
      GetOptString(line, IDX_CPC_PAFREF),
      GetString(line, IDX_CPC_INTER, "R"),
      GetOptString(line, IDX_CPC_DEFVAL),
      // the correlation flag is read from the default value column, as written
      GetString(line, IDX_CPC_DEFVAL, "Y")))
  }

  /** The two column slips of the CPC reader: the description is the name
      (when not empty), and the correlation flag is the default value when
      one is given and "Y" otherwise, whatever the CPC_CORR column holds. */
  lemma CpcRowQuirks(ctx: Context, line: seq<string>)
    requires CpcRow(ctx, line).Ok?
    ensures var c := CpcRow(ctx, line).value;
      && (line[IDX_CPC_PNAME] != "" ==> c.descr == Some(c.pname))
      && (c.defval.Some? ==> c.corr == c.defval.value)
      && (c.defval.None? ==> c.corr == "Y")
      && (c.categ == "N" <==> !HasColumn(line, IDX_CPC_CATEG) || line[IDX_CPC_CATEG] == "N")
  {
  }

  function CpcPairs(rows: seq<CpcRecord>): (r: seq<(string, CpcRecord)>)
    ensures |r| == |rows| && forall i :: 0 <= i < |rows| ==> r[i] == (rows[i].pname, rows[i])
  {
    seq(|rows|, i requires 0 <= i < |rows| => (rows[i].pname, rows[i]))
  }

  /** `loadCpc`: the parameters by name; a later row replaces an earlier one. */
  function LoadCpc(t: Table): (r: Result<map<string, CpcRecord>, LoadError>)
    ensures r.Ok? <==> ParseRows(t, CpcRow).Ok?
    ensures r.Ok? ==> r.value == ToMap(CpcPairs(ParseRows(t, CpcRow).value))
  {
    var rows :- ParseRows(t, CpcRow);
    Ok(ToMap(CpcPairs(rows)))
  }

  /** Every CPC row's name is defined, as the record of the last row of that
      name. */
  lemma LoadCpcLastWins(t: Table, n: string)
    requires LoadCpc(t).Ok?
    ensures var rows := ParseRows(t, CpcRow).value;
      && (forall i :: 0 <= i < |rows| ==> rows[i].pname in LoadCpc(t).value)
      && (n in LoadCpc(t).value ==>
            exists i :: 0 <= i < |rows| && rows[i] == LoadCpc(t).value[n] && rows[i].pname == n
              && forall j :: i < j < |rows| ==> rows[j].pname != n)
  {
    var rows := ParseRows(t, CpcRow).value;
    var pairs := CpcPairs(rows);
    forall i | 0 <= i < |rows| ensures rows[i].pname in LoadCpc(t).value {
      ToMapHas(pairs, i);
    }
    if n in LoadCpc(t).value {
      ToMapFromLast(pairs, n);
    }
  }

  // ---------------------------------------------------------------------------
  // CDF: command elements

  const IDX_CDF_CNAME: nat := 0
  const IDX_CDF_ELTYPE: nat := 1
  const IDX_CDF_DESCR: nat := 2
  const IDX_CDF_ELLEN: nat := 3
  const IDX_CDF_BIT: nat := 4
  const IDX_CDF_GRPSIZE: nat := 5
  const IDX_CDF_PNAME: nat := 6
  const IDX_CDF_INTER: nat := 7
  const IDX_CDF_VALUE: nat := 8
  const IDX_CDF_TMID: nat := 9
  const IDX_CDF_VPLB: nat := 11

  /** A CDF row: one element of a command. `cpc` is the parameter of an
      argument element and `None` for a fixed area. */
  datatype CdfRecord = CdfRecord(
    eltype: string,
    descr: Option<string>,
    ellen: int,
    position: int,
    grpsize: int,
    cpc: Option<CpcRecord>,
    inter: string,
    value: Option<string>,
    tmid: Option<string>,
    vplb: int)

  /** ELTYPE "A" in any case: a fixed area. */
  predicate IsFixedArea(eltype: string) {
    EqualsIgnoreCase(eltype, "A")
  }

  /** Commands whose name starts with `BINCMD` are not loaded. */
  predicate IsBinCmd(cname: string) {
    StartsWith(cname, "BINCMD")
  }

  function UnknownCpc(ctx: Context, pname: string): LoadError {
    MibLoadError(Some(ctx), "Parameter CDF_PNAME=" + pname + " not found in CPC table")
  }

  /** One CDF row: the command it belongs to and the element, or `None` for a
      skipped `BINCMD` row. An element other than a fixed area must name a
      known parameter. */
  function CdfRow(cpcs: map<string, CpcRecord>, vplbDefault: int, ctx: Context, line: seq<string>)
    : (r: Result<Option<(string, CdfRecord)>, LoadError>)
    ensures r == Ok(None) <==> |line| > IDX_CDF_BIT && IsBinCmd(line[IDX_CDF_CNAME])
    ensures r.Ok? && r.value.Some? ==>
      var cname := r.value.value.0;
      var cdf := r.value.value.1;
      && |line| > IDX_CDF_BIT && cname == line[IDX_CDF_CNAME] && !IsBinCmd(cname)
      && cdf.eltype == line[IDX_CDF_ELTYPE]
      && ParseInt(line[IDX_CDF_BIT]) == Some(cdf.position)
      && (cdf.cpc.None? <==> IsFixedArea(cdf.eltype))
      && (cdf.cpc.Some? ==> |line| > IDX_CDF_PNAME && line[IDX_CDF_PNAME] in cpcs && cdf.cpc.value == cpcs[line[IDX_CDF_PNAME]])
    ensures (|line| > IDX_CDF_PNAME && !IsBinCmd(line[IDX_CDF_CNAME]) && !IsFixedArea(line[IDX_CDF_ELTYPE])
             && line[IDX_CDF_PNAME] !in cpcs) ==> r.Err?
  {
    var cols := [IDX_CDF_CNAME, IDX_CDF_ELTYPE, IDX_CDF_ELLEN, IDX_CDF_BIT];
    var _ :- CheckMandatory(ctx, line, cols);
    assert cols[3] < |line|;
    var cname := line[IDX_CDF_CNAME];
    if IsBinCmd(cname) then Ok(None)
    else
      var eltype := line[IDX_CDF_ELTYPE];
      var ellen :- GetInt(ctx, line, IDX_CDF_ELLEN);
      var position :- GetInt(ctx, line, IDX_CDF_BIT);
      var grpsize :- GetIntOr(ctx, line, IDX_CDF_GRPSIZE, 0);
      var vplb :- GetIntOr(ctx, line, IDX_CDF_VPLB, vplbDefault);
      var cpc :-
        if IsFixedArea(eltype) then Ok(None)
        else
          var _ :- CheckMandatory(ctx, line, [IDX_CDF_PNAME]);
          var pname := line[IDX_CDF_PNAME];
          if pname !in cpcs then Err(UnknownCpc(ctx, pname)) else Ok(Some(cpcs[pname]));
      Ok(Some((cname, CdfRecord(eltype, GetOptString(line, IDX_CDF_DESCR), ellen, position, grpsize, cpc,
        GetString(line, IDX_CDF_INTER, "R"), GetOptString(line, IDX_CDF_VALUE), GetOptString(line, IDX_CDF_TMID), vplb))))
  }

  /** `loadCdf`: the elements of every command, in file order. */
  function LoadCdf(t: Table, cpcs: map<string, CpcRecord>, vplbDefault: int): (r: Result<Groups<string, CdfRecord>, LoadError>)
    ensures r.Ok? <==> ParseRows(t, (ctx, line) => CdfRow(cpcs, vplbDefault, ctx, line)).Ok?
    ensures r.Ok? ==> r.value == GroupBy(Somes(ParseRows(t, (ctx, line) => CdfRow(cpcs, vplbDefault, ctx, line)).value))
  {
    var rows :- ParseRows(t, (ctx, line) => CdfRow(cpcs, vplbDefault, ctx, line));
    Ok(GroupBy(Somes(rows)))
  }

  /** A kept CDF element belongs to a command other than `BINCMD`, and an
      argument element carries a known parameter. */
  lemma CdfKept(t: Table, cpcs: map<string, CpcRecord>, vplbDefault: int, i: int)
    requires LoadCdf(t, cpcs, vplbDefault).Ok?
    requires 0 <= i < |Somes(ParseRows(t, (ctx, line) => CdfRow(cpcs, vplbDefault, ctx, line)).value)|
    ensures var e := Somes(ParseRows(t, (ctx, line) => CdfRow(cpcs, vplbDefault, ctx, line)).value)[i];
      && !IsBinCmd(e.0)
      && (e.1.cpc.None? <==> IsFixedArea(e.1.eltype))
      && (e.1.cpc.Some? ==> e.1.cpc.value in cpcs.Values)
  {
    var parse := (ctx, line) => CdfRow(cpcs, vplbDefault, ctx, line);
    var rows := ParseRows(t, parse).value;
    SomesFrom(rows, i);
    var j :| 0 <= j < |rows| && rows[j] == Some(Somes(rows)[i]);
    ParsedAt(t, parse, j);
  }

  /** The elements loaded for a command are exactly its CDF rows in file
      order; no `BINCMD` command has any, and every argument element carries
      a known parameter. */
  lemma LoadCdfElements(t: Table, cpcs: map<string, CpcRecord>, vplbDefault: int, cname: string)
    requires LoadCdf(t, cpcs, vplbDefault).Ok?
    requires cname in LoadCdf(t, cpcs, vplbDefault).value.lists
    ensures var kept := Somes(ParseRows(t, (ctx, line) => CdfRow(cpcs, vplbDefault, ctx, line)).value);
      && LoadCdf(t, cpcs, vplbDefault).value.lists[cname] == Select(kept, cname) != []
      && !IsBinCmd(cname)
      && forall c :: c in Select(kept, cname) ==> (c.cpc.None? <==> IsFixedArea(c.eltype)) && (c.cpc.Some? ==> c.cpc.value in cpcs.Values)
  {
    var kept := Somes(ParseRows(t, (ctx, line) => CdfRow(cpcs, vplbDefault, ctx, line)).value);
    GroupByLists(kept);
    SelectNonEmpty(kept, cname);
    var i :| 0 <= i < |kept| && kept[i].0 == cname;
    CdfKept(t, cpcs, vplbDefault, i);
    forall c: CdfRecord | c in Select(kept, cname)
      ensures (c.cpc.None? <==> IsFixedArea(c.eltype)) && (c.cpc.Some? ==> c.cpc.value in cpcs.Values)
    {
      var k :| 0 <= k < |Select(kept, cname)| && Select(kept, cname)[k] == c;
      SelectedFrom(kept, cname, k);
      var j :| 0 <= j < |kept| && kept[j] == (cname, c);
      CdfKept(t, cpcs, vplbDefault, j);
    }
  }

  // ---------------------------------------------------------------------------
  // CCA / CCS: numeric de-calibration curves

  const IDX_CCA_NUMBR: nat := 0
  const IDX_CCA_ENGFMT: nat := 2
  const IDX_CCA_RAWFMT: nat := 3
  const IDX_CCA_RADIX: nat := 4

  /** One CCA row. Only the number is checked; the three format columns are
      read without a check. */
  function CcaRow(ctx: Context, line: seq<string>): (r: Result<(string, CcaRecord), LoadError>)
    ensures r.Ok? <==> |line| > IDX_CCA_RADIX
    ensures r.Ok? ==> r.value.0 == line[IDX_CCA_NUMBR] && r.value.1.splines == []
    ensures |line| == 0 ==> r == Err(MissingColumn(ctx, IDX_CCA_NUMBR))
    ensures 0 < |line| <= IDX_CCA_RADIX ==> r.Err? && r.error.RuntimeError?
  {
    var _ :- CheckMandatory(ctx, line, [IDX_CCA_NUMBR]);
    var engfmt :- Column(line, IDX_CCA_ENGFMT);
    var rawfmt :- Column(line, IDX_CCA_RAWFMT);
    var radix :- Column(line, IDX_CCA_RADIX);
    Ok((line[IDX_CCA_NUMBR], CcaRecord(line[IDX_CCA_NUMBR], engfmt, rawfmt, radix, [])))
  }

  function NoCcaRecord(ctx: Context, n: string): LoadError {
    MibLoadError(Some(ctx), "For CCS_NUMBR '" + n + "', found no record in CCA file")
  }

  /** One CCS row: a point of a CCA curve. Both values are read with the
      curve's engineering format, as written. */
  function CcsRow(ccas: map<string, CcaRecord>, ctx: Context, line: seq<string>): (r: Result<(string, SplinePoint), LoadError>)
    ensures |line| >= 3 && line[0] !in ccas ==> r == Err(NoCcaRecord(ctx, line[0]))
    ensures r.Ok? <==>
      |line| >= 3 && line[0] in ccas
      && GetDoubleFmt(line[1], ccas[line[0]].engfmt, ccas[line[0]].radix).Ok?
      && GetDoubleFmt(line[2], ccas[line[0]].engfmt, ccas[line[0]].radix).Ok?
    ensures r.Ok? ==>
      r.value.0 == line[0]
      && r.value.1.raw == GetDoubleFmt(line[1], ccas[line[0]].engfmt, ccas[line[0]].radix).value
      && r.value.1.eng == GetDoubleFmt(line[2], ccas[line[0]].engfmt, ccas[line[0]].radix).value
  {
    var _ :- CheckMandatory(ctx, line, [0, 1, 2]);
    var n := line[0];
    if n !in ccas then Err(NoCcaRecord(ctx, n))
    else
      var cca := ccas[n];
      var x :- GetDoubleFmt(line[1], cca.engfmt, cca.radix);
      var y :- GetDoubleFmt(line[2], cca.engfmt, cca.radix);
      Ok((n, SplinePoint(x, y)))
  }

  /** A coordinate of a CCS row read in a curve's engineering format; a
      value the format refuses stops the load before it is ever used. */
  function CurveValue(v: string, cca: CcaRecord): real {
    match GetDoubleFmt(v, cca.engfmt, cca.radix)
    case Ok(x) => x
    case Err(_) => 0.0
  }

  /** The points of curve `n` read straight from the CCS lines: one point
      per line numbered `n`, in file order. */
  function CurvePoints(lines: seq<Line>, n: string, cca: CcaRecord): seq<SplinePoint>
    decreases |lines|
  {
    if |lines| == 0 then []
    else
      var f := lines[|lines| - 1].fields;
      CurvePoints(lines[..|lines| - 1], n, cca)
        + (if |f| >= 3 && f[0] == n then [SplinePoint(CurveValue(f[1], cca), CurveValue(f[2], cca))] else [])
  }

  /** The points a successful CCS pass keeps for a curve are the curve's
      lines, in order. */
  lemma {:induction false} SelectCurve(ccas: map<string, CcaRecord>, ccs: Table, points: seq<(string, SplinePoint)>,
                                       n: string, k: nat)
    requires n in ccas
    requires |points| == |ccs.lines| && k <= |points|
    requires forall i :: 0 <= i < |ccs.lines| ==> CcsRow(ccas, ccs.At(i), ccs.lines[i].fields) == Ok(points[i])
    ensures Select(points[..k], n) == CurvePoints(ccs.lines[..k], n, ccas[n])
    decreases k
  {
    if k > 0 {
      SelectCurve(ccas, ccs, points, n, k - 1);
      CcsRowPoint(ccas, ccs.At(k - 1), ccs.lines[k - 1].fields, points[k - 1]);
      assert points[..k][..k - 1] == points[..k - 1];
      assert ccs.lines[..k][..k - 1] == ccs.lines[..k - 1];
      assert points[..k][k - 1] == points[k - 1];
      assert ccs.lines[..k][k - 1] == ccs.lines[k - 1];
    }
  }

  /** A CCS row that reads is a point of the curve it names, with the values
      `CurvePoints` gives it. */
  lemma CcsRowPoint(ccas: map<string, CcaRecord>, ctx: Context, line: seq<string>, p: (string, SplinePoint))
    requires CcsRow(ccas, ctx, line) == Ok(p)
    ensures |line| >= 3 && p.0 == line[0] && line[0] in ccas
    ensures p.1 == SplinePoint(CurveValue(line[1], ccas[line[0]]), CurveValue(line[2], ccas[line[0]]))
  {
  }

  /** `loadDecalib`: the CCA records by number (a later row replaces an
      earlier one), each with exactly the points of its CCS rows, in file
      order. */
  function LoadDecalib(cca: Table, ccs: Table): (r: Result<map<string, CcaRecord>, LoadError>)
    ensures r.Ok? ==> ParseRows(cca, CcaRow).Ok?
    ensures r.Ok? ==> r.value.Keys == ToMap(ParseRows(cca, CcaRow).value).Keys
    ensures r.Ok? ==> forall n :: n in r.value ==>
      var c := ToMap(ParseRows(cca, CcaRow).value)[n];
      r.value[n].engfmt == c.engfmt && r.value[n].rawfmt == c.rawfmt && r.value[n].radix == c.radix
    ensures r.Ok? ==> forall n :: n in r.value ==> r.value[n].splines == CurvePoints(ccs.lines, n, r.value[n])
  {
    var rows :- ParseRows(cca, CcaRow);
    var ccas := ToMap(rows);
    var parse := (ctx, line) => CcsRow(ccas, ctx, line);
    var points :- ParseRows(ccs, parse);
    var r := map n | n in ccas :: ccas[n].(splines := Select(points, n));
    assert forall n :: n in ccas ==> r[n].splines == CurvePoints(ccs.lines, n, r[n]) by {
      forall n | n in ccas ensures r[n].splines == CurvePoints(ccs.lines, n, r[n]) {
        assert forall i :: 0 <= i < |ccs.lines| ==> parse(ccs.At(i), ccs.lines[i].fields) == Ok(points[i]);
        SelectCurve(ccas, ccs, points, n, |points|);
        assert points[..|points|] == points;
        assert ccs.lines[..|points|] == ccs.lines;
        CurvePointsFormat(ccs.lines, n, ccas[n], r[n]);
      }
    }
    Ok(r)
  }

  /** The points of a curve depend only on its formats. */
  lemma {:induction false} CurvePointsFormat(lines: seq<Line>, n: string, a: CcaRecord, b: CcaRecord)
    requires a.engfmt == b.engfmt && a.radix == b.radix
    ensures CurvePoints(lines, n, a) == CurvePoints(lines, n, b)
    decreases |lines|
  {
    if |lines| > 0 {
      CurvePointsFormat(lines[..|lines| - 1], n, a, b);
    }
  }

  /** Every CCS row names a loaded curve, and its point, both values read in
      the curve's engineering format, is among the curve's points. */
  lemma DecalibCurves(cca: Table, ccs: Table, i: int)
    requires LoadDecalib(cca, ccs).Ok?
    requires 0 <= i < |ccs.lines|
    ensures var r := LoadDecalib(cca, ccs).value;
      var line := ccs.lines[i].fields;
      && |line| >= 3 && line[0] in r
      && SplinePoint(GetDoubleFmt(line[1], r[line[0]].engfmt, r[line[0]].radix).value,
                     GetDoubleFmt(line[2], r[line[0]].engfmt, r[line[0]].radix).value) in r[line[0]].splines
  {
    var rows := ParseRows(cca, CcaRow).value;
    var ccas := ToMap(rows);
    var parse := (ctx, line) => CcsRow(ccas, ctx, line);
    var points := ParseRows(ccs, parse).value;
    assert parse(ccs.At(i), ccs.lines[i].fields) == Ok(points[i]);
    SelectHas(points, i);
  }

  // ---------------------------------------------------------------------------
  // PAF / PAS: textual de-calibrations

  const IDX_PAF_NUMBR: nat := 0
  const IDX_PAF_RAWFMT: nat := 2
  const IDX_PAS_NUMBR: nat := 0
  const IDX_PAS_ALTXT: nat := 1
  const IDX_PAS_ALVAL: nat := 2

  predicate IsPafFormat(f: string) {
    f == "U" || f == "R" || f == "I"
  }

  /** One PAF row: its number and raw format, "U" when absent. */
  function PafRow(ctx: Context, line: seq<string>): (r: Result<(string, string), LoadError>)
    ensures r.Ok? <==> |line| > IDX_PAF_NUMBR && IsPafFormat(GetString(line, IDX_PAF_RAWFMT, "U"))
    ensures r.Ok? ==> r.value == (line[IDX_PAF_NUMBR], GetString(line, IDX_PAF_RAWFMT, "U"))
  {
    var _ :- CheckMandatory(ctx, line, [IDX_PAF_NUMBR]);
    var rawfmt := GetString(line, IDX_PAF_RAWFMT, "U");
    if IsPafFormat(rawfmt) then Ok((line[IDX_PAF_NUMBR], rawfmt))
    else Err(MibLoadError(Some(ctx), "Invalid PAF_RAWFMT=" + rawfmt + ". Should be R,U or I"))
  }

  function NoPafRecord(ctx: Context, n: string): LoadError {
    MibLoadError(Some(ctx), "PAS_NUMBR=" + n + " has no line in the PAF table")
  }

  /** One PAS row: an alias of a PAF number. The raw format "U" is parsed as a
      signed long and "I" as an unsigned one (swapped, as written); "R" gives
      the single-value inclusive range [x, x]. */
  function PasRow(formats: map<string, string>, ctx: Context, line: seq<string>): (r: Result<TxpEntry, LoadError>)
    requires forall n :: n in formats ==> IsPafFormat(formats[n])
    ensures |line| > IDX_PAS_ALVAL && line[IDX_PAS_NUMBR] !in formats ==> r == Err(NoPafRecord(ctx, line[IDX_PAS_NUMBR]))
    ensures r.Ok? ==> |line| > IDX_PAS_ALVAL && line[IDX_PAS_NUMBR] in formats && r.value.number == line[IDX_PAS_NUMBR]
    ensures r.Ok? ==> (r.value.RangeEntry? <==> formats[line[IDX_PAS_NUMBR]] == "R")
    ensures r.Ok? && formats[line[IDX_PAS_NUMBR]] == "U" ==>
      ParseLong(line[IDX_PAS_ALVAL]).Some? && r.value.point == EnumValue(ParseLong(line[IDX_PAS_ALVAL]).value, line[IDX_PAS_ALTXT])
    ensures r.Ok? && formats[line[IDX_PAS_NUMBR]] == "I" ==>
      ParseUnsignedLong(line[IDX_PAS_ALVAL]).Some?
      && r.value.point == EnumValue(ParseUnsignedLong(line[IDX_PAS_ALVAL]).value, line[IDX_PAS_ALTXT])
    ensures r.Ok? && r.value.RangeEntry? ==>
      var x := ParseReal(line[IDX_PAS_ALVAL]);
      x.Some? && r.value.range == EnumRange(x.value, x.value, line[IDX_PAS_ALTXT])
  {
    var _ :- CheckMandatory(ctx, line, [IDX_PAS_NUMBR, IDX_PAS_ALTXT, IDX_PAS_ALVAL]);
    var n := line[IDX_PAS_NUMBR];
    if n !in formats then Err(NoPafRecord(ctx, n))
    else if formats[n] == "U" then
      var x :- GetLong(ctx, line, IDX_PAS_ALVAL);
      Ok(PointEntry(n, EnumValue(x, line[IDX_PAS_ALTXT])))
    else if formats[n] == "I" then
      var x :- GetUnsignedLong(ctx, line, IDX_PAS_ALVAL);
      Ok(PointEntry(n, EnumValue(x, line[IDX_PAS_ALTXT])))
    else
      assert IsPafFormat(formats[n]);
      var x :- GetDouble(ctx, line, IDX_PAS_ALVAL);
      Ok(RangeEntry(n, EnumRange(x, x, line[IDX_PAS_ALTXT])))
  }

  /** `loadTxtDecalib`: the enumerations (integer raw formats) and the
      enumeration ranges (real raw format), each grouped by number in file
      order. */
  function LoadTxtDecalib(paf: Table, pas: Table): (r: Result<(map<string, seq<EnumValue>>, map<string, seq<EnumRange>>), LoadError>)
    ensures r.Ok? ==> ParseRows(paf, PafRow).Ok?
    ensures r.Ok? ==>
      var formats := ToMap(ParseRows(paf, PafRow).value);
      (forall n :: n in formats ==> IsPafFormat(formats[n]))
      && var es := ParseRows(pas, (ctx, line) => PasRow(formats, ctx, line));
      es.Ok? && r.value == (GroupBy(Points(es.value)).lists, GroupBy(Ranges(es.value)).lists)
  {
    var rows :- ParseRows(paf, PafRow);
    var formats := ToMap(rows);
    PafFormatsValid(paf, rows);
    var es :- ParseRows(pas, (ctx, line) => PasRow(formats, ctx, line));
    Ok((GroupBy(Points(es)).lists, GroupBy(Ranges(es)).lists))
  }

  lemma PafFormatsValid(paf: Table, rows: seq<(string, string)>)
    requires ParseRows(paf, PafRow) == Ok(rows)
    ensures forall n :: n in ToMap(rows) ==> IsPafFormat(ToMap(rows)[n])
  {
    forall n | n in ToMap(rows) ensures IsPafFormat(ToMap(rows)[n]) {
      ToMapFromLast(rows, n);
      var i :| 0 <= i < |rows| && rows[i] == (n, ToMap(rows)[n]) && forall j :: i < j < |rows| ==> rows[j].0 != n;
      assert PafRow(paf.At(i), paf.lines[i].fields) == Ok(rows[i]);
    }
  }

  lemma {:induction false} PointsFrom(es: seq<TxpEntry>, i: int)
    requires 0 <= i < |Points(es)|
    ensures exists j :: 0 <= j < |es| && es[j] == PointEntry(Points(es)[i].0, Points(es)[i].1)
    decreases |es|
  {
    var init := es[..|es| - 1];
    if i < |Points(init)| {
      PointsFrom(init, i);
      var j :| 0 <= j < |init| && init[j] == PointEntry(Points(init)[i].0, Points(init)[i].1);
      assert es[j] == init[j];
    }
  }

  lemma {:induction false} RangesFrom(es: seq<TxpEntry>, i: int)
    requires 0 <= i < |Ranges(es)|
    ensures exists j :: 0 <= j < |es| && es[j] == RangeEntry(Ranges(es)[i].0, Ranges(es)[i].1)
    decreases |es|
  {
    var init := es[..|es| - 1];
    if i < |Ranges(init)| {
      RangesFrom(init, i);
      var j :| 0 <= j < |init| && init[j] == RangeEntry(Ranges(init)[i].0, Ranges(init)[i].1);
      assert es[j] == init[j];
    }
  }

  /** Every PAS entry names a PAF number, and is a range exactly when that
      number's raw format is real. */
  lemma PasEntryFormat(pas: Table, formats: map<string, string>, j: int)
    requires forall n :: n in formats ==> IsPafFormat(formats[n])
    requires ParseRows(pas, (ctx, line) => PasRow(formats, ctx, line)).Ok?
    requires 0 <= j < |pas.lines|
    ensures var e := ParseRows(pas, (ctx, line) => PasRow(formats, ctx, line)).value[j];
      e.number in formats && (e.RangeEntry? <==> formats[e.number] == "R")
  {
    ParsedAt(pas, (ctx, line) => PasRow(formats, ctx, line), j);
  }

  /** An enumeration belongs to a PAF number of integer raw format ("U" or
      "I") and a range list to one of real raw format, so no number has both. */
  lemma TxtDecalibKinds(paf: Table, pas: Table, n: string)
    requires LoadTxtDecalib(paf, pas).Ok?
    ensures var formats := ToMap(ParseRows(paf, PafRow).value);
      var r := LoadTxtDecalib(paf, pas).value;
      && (n in r.0 ==> n in formats && (formats[n] == "U" || formats[n] == "I"))
      && (n in r.1 ==> n in formats && formats[n] == "R")
      && !(n in r.0 && n in r.1)
  {
    var formats := ToMap(ParseRows(paf, PafRow).value);
    var es := ParseRows(pas, (ctx, line) => PasRow(formats, ctx, line)).value;
    GroupByLists(Points(es));
    GroupByLists(Ranges(es));
    if n in GroupBy(Points(es)).lists {
      SelectNonEmpty(Points(es), n);
      var i :| 0 <= i < |Points(es)| && Points(es)[i].0 == n;
      PointsFrom(es, i);
      var j :| 0 <= j < |es| && es[j] == PointEntry(Points(es)[i].0, Points(es)[i].1);
      PasEntryFormat(pas, formats, j);
    }
    if n in GroupBy(Ranges(es)).lists {
      SelectNonEmpty(Ranges(es), n);
      var i :| 0 <= i < |Ranges(es)| && Ranges(es)[i].0 == n;
      RangesFrom(es, i);
      var j :| 0 <= j < |es| && es[j] == RangeEntry(Ranges(es)[i].0, Ranges(es)[i].1);
      PasEntryFormat(pas, formats, j);
    }
  }

  // ---------------------------------------------------------------------------
  // PRF / PRV: parameter range sets

  const IDX_PRF_NUMBR: nat := 0
  const IDX_PRF_DESCR: nat := 1
  const IDX_PRF_RADIX: nat := 4
  const IDX_PRV_NUMBR: nat := 0
  const IDX_PRV_MINVAL: nat := 1
  const IDX_PRV_MAXVAL: nat := 2

  /** One PRF row. The interpretation flag is assigned three times, from the
      INTER, DSPFMT and RADIX columns, so it ends as the radix ("D" when
      absent); display format and radix stay unset. */
  function PrfRow(ctx: Context, line: seq<string>): (r: Result<(string, PrfRecord), LoadError>)
    ensures r.Ok? <==> |line| > IDX_PRF_NUMBR
    ensures r.Ok? ==>
      && r.value.0 == line[IDX_PRF_NUMBR]
      && r.value.1.mins == [] && r.value.1.maxs == []
      && r.value.1.inter == Some(if HasColumn(line, IDX_PRF_RADIX) then line[IDX_PRF_RADIX] else "D")
      && r.value.1.dspfmt.None? && r.value.1.radix.None?
  {
    var _ :- CheckMandatory(ctx, line, [IDX_PRF_NUMBR]);
    Ok((line[IDX_PRF_NUMBR], PrfRecord([], [], GetOptString(line, IDX_PRF_DESCR), Some(GetString(line, IDX_PRF_RADIX, "D")), None, None)))
  }

  /** One PRV row: a range number with its (possibly null) bounds. */
  function PrvRow(ctx: Context, line: seq<string>): (r: Result<(string, (Option<string>, Option<string>)), LoadError>)
    ensures r.Ok? <==> |line| > IDX_PRV_MINVAL
    ensures r.Ok? ==> r.value.0 == line[IDX_PRV_NUMBR] && r.value.1.0 == GetOptString(line, IDX_PRV_MINVAL)
  {
    var _ :- CheckMandatory(ctx, line, [IDX_PRV_NUMBR, IDX_PRV_MINVAL]);
    Ok((line[IDX_PRV_NUMBR], (GetOptString(line, IDX_PRV_MINVAL), GetOptString(line, IDX_PRV_MAXVAL))))
  }

  /** `addMinMax` of every bound pair in turn. */
  function AddAllMinMax(r: PrfRecord, bounds: seq<(Option<string>, Option<string>)>): (p: PrfRecord)
    requires |r.mins| == |r.maxs|
    ensures |p.mins| == |p.maxs| == |r.mins| + |bounds|
    ensures p.mins[..|r.mins|] == r.mins && p.maxs[..|r.maxs|] == r.maxs
    ensures forall i :: 0 <= i < |bounds| ==> p.mins[|r.mins| + i] == bounds[i].0 && p.maxs[|r.maxs| + i] == bounds[i].1
    ensures p.descr == r.descr && p.inter == r.inter
    decreases |bounds|
  {
    if |bounds| == 0 then r
    else
      var q := AddAllMinMax(r, bounds[..|bounds| - 1]);
      q.AddMinMax(bounds[|bounds| - 1].0, bounds[|bounds| - 1].1)
  }

  /** Each range set of `prfs` extended by the bounds of its number. */
  function AttachBounds(prfs: map<string, PrfRecord>, bounds: seq<(string, (Option<string>, Option<string>))>)
    : (r: map<string, PrfRecord>)
    requires forall n :: n in prfs ==> prfs[n].mins == [] && prfs[n].maxs == []
    ensures r.Keys == prfs.Keys
    ensures forall n :: n in r ==>
      && |r[n].mins| == |r[n].maxs| == |Select(bounds, n)|
      && (forall i :: 0 <= i < |Select(bounds, n)| ==> r[n].mins[i] == Select(bounds, n)[i].0 && r[n].maxs[i] == Select(bounds, n)[i].1)
  {
    var r := map n | n in prfs :: AddAllMinMax(prfs[n], Select(bounds, n));
    assert forall n :: n in r ==> BoundsAre(r[n], Select(bounds, n)) by {
      forall n | n in r ensures BoundsAre(r[n], Select(bounds, n)) {
        AddAllMinMaxFresh(prfs[n], Select(bounds, n));
      }
    }
    r
  }

  /** The range set holds exactly the given bounds, in order. */
  predicate BoundsAre(p: PrfRecord, bounds: seq<(Option<string>, Option<string>)>) {
    && |p.mins| == |p.maxs| == |bounds|
    && forall i :: 0 <= i < |bounds| ==> p.mins[i] == bounds[i].0 && p.maxs[i] == bounds[i].1
  }

  lemma AddAllMinMaxFresh(p: PrfRecord, bounds: seq<(Option<string>, Option<string>)>)
    requires p.mins == [] && p.maxs == []
    ensures BoundsAre(AddAllMinMax(p, bounds), bounds)
  {
    var q := AddAllMinMax(p, bounds);
    forall i | 0 <= i < |bounds| ensures q.mins[i] == bounds[i].0 && q.maxs[i] == bounds[i].1 {
      assert q.mins[|p.mins| + i] == bounds[i].0;
    }
  }

  /** `loadPrfPrv`: the range sets by number (a later PRF row replaces an
      earlier one), each with the bounds of its PRV rows in file order; PRV
      rows of an unknown number are skipped. */
  function LoadPrfPrv(prf: Table, prv: Table): (r: Result<map<string, PrfRecord>, LoadError>)
    ensures r.Ok? ==> ParseRows(prf, PrfRow).Ok? && ParseRows(prv, PrvRow).Ok?
    ensures r.Ok? ==> r.value.Keys == ToMap(ParseRows(prf, PrfRow).value).Keys
    ensures r.Ok? ==> forall n :: n in r.value ==>
      var bounds := Select(ParseRows(prv, PrvRow).value, n);
      && |r.value[n].mins| == |r.value[n].maxs| == |bounds|
      && forall i :: 0 <= i < |bounds| ==> r.value[n].mins[i] == bounds[i].0 && r.value[n].maxs[i] == bounds[i].1
  {
    var rows :- ParseRows(prf, PrfRow);
    var bounds :- ParseRows(prv, PrvRow);
    PrfRowsEmpty(prf, rows);
    Ok(AttachBounds(ToMap(rows), bounds))
  }

  lemma PrfRowsEmpty(prf: Table, rows: seq<(string, PrfRecord)>)
    requires ParseRows(prf, PrfRow) == Ok(rows)
    ensures forall n :: n in ToMap(rows) ==> ToMap(rows)[n].mins == [] && ToMap(rows)[n].maxs == []
  {
    forall n | n in ToMap(rows) ensures ToMap(rows)[n].mins == [] && ToMap(rows)[n].maxs == [] {
      ToMapFromLast(rows, n);
      var i :| 0 <= i < |rows| && rows[i] == (n, ToMap(rows)[n]) && forall j :: i < j < |rows| ==> rows[j].0 != n;
      assert PrfRow(prf.At(i), prf.lines[i].fields) == Ok(rows[i]);
    }
  }
}
