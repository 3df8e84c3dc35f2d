/** The calibration tables of the telemetry loader: conditional selections
    (CUR), numerical point-pair calibrations (CAF/CAP), textual calibrations
    (TXF/TXP), polynomial (MCF) and logarithmic (LGF) calibrations. */
module TmCalibration {
  import opened Wrappers
  import opened Text
  import opened Mdb
  import opened MibLoaderBits
  import opened BaseMibLoader
  import opened MonitoringData
  import opened Collections

  /** What the calibration tables leave behind for the parameter loader. */
  datatype Calibrations = Calibrations(
    curRecords: Groups<string, CurRecord>,
    cafRecords: map<string, CafRecord>,
    splineCalibrators: map<string, seq<SplinePoint>>,
    enumerations: map<string, seq<EnumValue>>,
    enumerationRanges: map<string, seq<EnumRange>>,
    polynoms: map<string, seq<real>>,
    logCalibrators: map<string, seq<real>>)

  // ---------------------------------------------------------------------------
  // CUR

  /** One CUR row: the parameter it applies to and the selection. */
  function CurRow(ctx: Context, line: seq<string>): (r: Result<(string, CurRecord), LoadError>)
    ensures r.Ok? <==> |line| >= 5 && ParseInt(line[1]).Some? && ParseLong(line[3]).Some?
    ensures r.Ok? ==> r.value == (line[0], CurRecord(ParseInt(line[1]).value, line[2], ParseLong(line[3]).value, line[4]))
  {
    var _ :- CheckMandatory(ctx, line, [0, 1, 2, 3, 4]);
    var pos :- GetInt(ctx, line, 1);
    var valpar :- GetLong(ctx, line, 3);
    Ok((line[0], CurRecord(pos, line[2], valpar, line[4])))
  }

  /** `loadCur`: the selections of each parameter, in file order. */
  function LoadCur(t: Table): (r: Result<Groups<string, CurRecord>, LoadError>)
    ensures r.Ok? <==> ParseRows(t, CurRow).Ok?
    ensures r.Ok? ==> r.value == GroupBy(ParseRows(t, CurRow).value)
  {
    var rows :- ParseRows(t, CurRow);
    Ok(GroupBy(rows))
  }

  /** The selections listed for a parameter are exactly the CUR rows naming
      it, in file order, and the key order lists each parameter once. */
  lemma LoadCurGroups(t: Table, pname: string)
    requires LoadCur(t).Ok?
    ensures var rows := ParseRows(t, CurRow).value;
      var g := LoadCur(t).value;
      && (pname in g.lists <==> Select(rows, pname) != [])
      && (pname in g.lists ==> g.lists[pname] == Select(rows, pname))
      && (pname in g.lists <==> pname in g.order)
      && NoDuplicates(g.order)
  {
    GroupByLists(ParseRows(t, CurRow).value);
    GroupByOrder(ParseRows(t, CurRow).value);
  }

  // ---------------------------------------------------------------------------
  // CAF / CAP

  /** One CAF row. The raw format and radix columns are read without a check. */
  function CafRow(ctx: Context, line: seq<string>): (r: Result<(string, CafRecord), LoadError>)
    ensures r.Ok? <==> |line| >= 5
    ensures r.Ok? ==> r.value == (line[0], CafRecord(line[2], line[3], line[4]))
    ensures |line| < 3 ==> r == Err(MissingColumn(ctx, if |line| == 0 then 0 else 2))
    ensures 3 <= |line| < 5 ==> r == Err(IndexError(|line|, |line|))
  {
    var _ :- CheckMandatory(ctx, line, [0, 2]);
    var rawfmt :- Column(line, 3);
    var radix :- Column(line, 4);
    Ok((line[0], CafRecord(line[2], rawfmt, radix)))
  }

  function NoCafRecord(ctx: Context, n: string): LoadError {
    MibLoadError(Some(ctx), "For CAP_NUMBER '" + n + "' in CAP file, found no record in CAF file")
  }

  /** One CAP row: a point of the curve of a CAF record, the raw value read
      with the record's raw format and the engineering value with its
      engineering format. */
  function CapRow(caf: map<string, CafRecord>, ctx: Context, line: seq<string>): (r: Result<(string, SplinePoint), LoadError>)
    ensures |line| >= 3 && line[0] !in caf ==> r == Err(NoCafRecord(ctx, line[0]))
    ensures r.Ok? <==>
      |line| >= 3 && line[0] in caf
      && GetDoubleFmt(line[1], caf[line[0]].rawfmt, caf[line[0]].radix).Ok?
      && GetDoubleFmt(line[2], caf[line[0]].engfmt, caf[line[0]].radix).Ok?
    ensures r.Ok? ==>
      r.value.0 == line[0]
      && r.value.1.raw == GetDoubleFmt(line[1], caf[line[0]].rawfmt, caf[line[0]].radix).value
      && r.value.1.eng == GetDoubleFmt(line[2], caf[line[0]].engfmt, caf[line[0]].radix).value
  {
    var _ :- CheckMandatory(ctx, line, [0, 1, 2]);
    var n := line[0];
    if n !in caf then Err(NoCafRecord(ctx, n))
    else
      var rec := caf[n];
      var x :- GetDoubleFmt(line[1], rec.rawfmt, rec.radix);
      var y :- GetDoubleFmt(line[2], rec.engfmt, rec.radix);
      Ok((n, SplinePoint(x, y)))
  }

  /** `loadCafCap`: the CAF records by number (a later row replaces an
      earlier one) and one spline per CAP number, points in file order. */
  function LoadCafCap(cafTable: Table, capTable: Table): (r: Result<(map<string, CafRecord>, map<string, seq<SplinePoint>>), LoadError>)
    ensures r.Ok? ==>
      ParseRows(cafTable, CafRow).Ok?
      && r.value.0 == ToMap(ParseRows(cafTable, CafRow).value)
      && ParseRows(capTable, (ctx, line) => CapRow(r.value.0, ctx, line)).Ok?
      && r.value.1 == GroupBy(ParseRows(capTable, (ctx, line) => CapRow(r.value.0, ctx, line)).value).lists
  {
    var cafRows :- ParseRows(cafTable, CafRow);
    var caf := ToMap(cafRows);
    var capRows :- ParseRows(capTable, (ctx, line) => CapRow(caf, ctx, line));
    Ok((caf, GroupBy(capRows).lists))
  }

  /** Every spline belongs to a CAF record, and its points are the CAP rows of
      that number in file order. */
  lemma {:induction false} SplinesHaveCaf(cafTable: Table, capTable: Table, n: string)
    requires LoadCafCap(cafTable, capTable).Ok?
    requires n in LoadCafCap(cafTable, capTable).value.1
    ensures n in LoadCafCap(cafTable, capTable).value.0
    ensures var caf := LoadCafCap(cafTable, capTable).value.0;
      var rows := ParseRows(capTable, (ctx, line) => CapRow(caf, ctx, line)).value;
      LoadCafCap(cafTable, capTable).value.1[n] == Select(rows, n)
  {
    var caf := LoadCafCap(cafTable, capTable).value.0;
    var parse := (ctx, line) => CapRow(caf, ctx, line);
    var rows := ParseRows(capTable, parse).value;
    GroupByLists(rows);
    SelectNonEmpty(rows, n);
    var i :| 0 <= i < |rows| && rows[i].0 == n;
    assert parse(capTable.At(i), capTable.lines[i].fields) == Ok(rows[i]);
  }

  // ---------------------------------------------------------------------------
  // TXF / TXP

  /** One TXF row: its number and raw format, the only column the TXP rows use. */
  function TxfRow(ctx: Context, line: seq<string>): (r: Result<(string, string), LoadError>)
    ensures r.Ok? <==> |line| >= 3
    ensures r.Ok? ==> r.value == (line[0], line[2])
  {
    var _ :- CheckMandatory(ctx, line, [0, 2]);
    Ok((line[0], line[2]))
  }

  /** A textual calibration entry: a single raw value or an inclusive range. */
  datatype TxpEntry = PointEntry(number: string, point: EnumValue) | RangeEntry(number: string, range: EnumRange)

  function NoTxfRecord(ctx: Context, n: string): LoadError {
    MibLoadError(Some(ctx), "For TXP_NUMBER '" + n + "' in TXP file, found no record in TXF file")
  }

  /** Whether a TXP row becomes a single value: the bounds are the same text
      and the raw format of its TXF record is an integer one. */
  predicate IsPointRow(line: seq<string>, rawFmt: string)
    requires |line| >= 3
  {
    line[1] == line[2] && (rawFmt == "I" || rawFmt == "U")
  }

  /** One TXP row, given the raw format of every TXF number. */
  function TxpRow(txf: map<string, string>, ctx: Context, line: seq<string>): (r: Result<TxpEntry, LoadError>)
    ensures |line| >= 3 && line[0] !in txf ==> r == Err(NoTxfRecord(ctx, line[0]))
    ensures r.Ok? ==> |line| >= 4 && line[0] in txf && r.value.number == line[0]
    ensures r.Ok? ==> (r.value.PointEntry? <==> IsPointRow(line, txf[line[0]]))
    ensures r.Ok? && r.value.PointEntry? ==>
      ParseLong(line[1]).Some? && r.value.point == EnumValue(ParseLong(line[1]).value, line[3])
    ensures r.Ok? && r.value.RangeEntry? ==>
      ParseReal(line[1]).Some? && ParseReal(line[2]).Some?
      && r.value.range == EnumRange(ParseReal(line[1]).value, ParseReal(line[2]).value, line[3])
    ensures |line| >= 4 && line[0] in txf && IsPointRow(line, txf[line[0]]) ==>
      (r.Ok? <==> ParseLong(line[1]).Some?)
    ensures |line| >= 4 && line[0] in txf && !IsPointRow(line, txf[line[0]]) ==>
      (r.Ok? <==> ParseReal(line[1]).Some? && ParseReal(line[2]).Some?)
  {
    var _ :- CheckMandatory(ctx, line, [0, 1, 2]);
    var n := line[0];
    if n !in txf then Err(NoTxfRecord(ctx, n))
    else if IsPointRow(line, txf[n]) then
      var v :- GetLong(ctx, line, 1);
      var text :- Column(line, 3);
      Ok(PointEntry(n, EnumValue(v, text)))
    else
      var lo :- GetDouble(ctx, line, 1);
      var hi :- GetDouble(ctx, line, 2);
      var text :- Column(line, 3);
      Ok(RangeEntry(n, EnumRange(lo, hi, text)))
  }

  function Points(es: seq<TxpEntry>): (r: seq<(string, EnumValue)>)
    ensures |r| <= |es|
  {
    if |es| == 0 then []
    else Points(es[..|es| - 1]) + (if es[|es| - 1].PointEntry? then [(es[|es| - 1].number, es[|es| - 1].point)] else [])
  }

  function Ranges(es: seq<TxpEntry>): (r: seq<(string, EnumRange)>)
    ensures |r| <= |es|
  {
    if |es| == 0 then []
    else Ranges(es[..|es| - 1]) + (if es[|es| - 1].RangeEntry? then [(es[|es| - 1].number, es[|es| - 1].range)] else [])
  }

  /** Every entry lands in exactly one of the two lists. */
  lemma {:induction false} PointsRangesPartition(es: seq<TxpEntry>)
    ensures |Points(es)| + |Ranges(es)| == |es|
    decreases |es|
  {
    if |es| > 0 {
      PointsRangesPartition(es[..|es| - 1]);
    }
  }

  /** `loadTxfTxp`: single raw values and ranges, each grouped by number in
      file order. */
  function LoadTxfTxp(txfTable: Table, txpTable: Table): (r: Result<(map<string, seq<EnumValue>>, map<string, seq<EnumRange>>), LoadError>)
    ensures r.Ok? ==> ParseRows(txfTable, TxfRow).Ok?
    ensures r.Ok? ==>
      var txf := ToMap(ParseRows(txfTable, TxfRow).value);
      var es := ParseRows(txpTable, (ctx, line) => TxpRow(txf, ctx, line));
      es.Ok? && r.value == (GroupBy(Points(es.value)).lists, GroupBy(Ranges(es.value)).lists)
  {
    var txfRows :- ParseRows(txfTable, TxfRow);
    var txf := ToMap(txfRows);
    var es :- ParseRows(txpTable, (ctx, line) => TxpRow(txf, ctx, line));
    Ok((GroupBy(Points(es)).lists, GroupBy(Ranges(es)).lists))
  }

  // ---------------------------------------------------------------------------
  // MCF

  /** The last non-empty column from index 2 below `m`, or -1. */
  function LastPresent(line: seq<string>, m: nat): (k: int)
    requires m <= |line|
    ensures k == -1 || (2 <= k < m && HasColumn(line, k))
    ensures forall j :: 2 <= j < m && k < j ==> !HasColumn(line, j)
  {
    if m <= 2 then -1
    else if HasColumn(line, m - 1) then m - 1
    else LastPresent(line, m - 1)
  }

  /** The number of coefficients of an MCF row: one per column up to the last
      non-empty POL column, or 2 when every POL column is empty. */
  function McfCount(line: seq<string>): (n: int)
    ensures n >= 1
    ensures (forall k :: 2 <= k < |line| ==> !HasColumn(line, k)) ==> n == 2
    ensures (exists k :: 2 <= k < |line| && HasColumn(line, k)) ==>
      n + 1 < |line| && HasColumn(line, n + 1) && forall k :: n + 1 < k < |line| ==> !HasColumn(line, k)
  {
    var k := LastPresent(line, |line|);
    if k == -1 then 2 else k - 1
  }

  /** A coefficient column that is absent, empty, or holds a number. */
  predicate PolColumnOk(line: seq<string>, j: nat) {
    !HasColumn(line, j) || ParseReal(line[j]).Some?
  }

  /** The coefficient a column stands for: its number, or 0 when absent or empty. */
  function PolValue(line: seq<string>, j: nat): real
    requires PolColumnOk(line, j)
  {
    if HasColumn(line, j) then ParseReal(line[j]).value else 0.0
  }

  /** The first `m` coefficients of a MCF or LGF row, read from column 2 on,
      the first unparsable column aborting. */
  function PolCoefficients(ctx: Context, line: seq<string>, m: nat): (r: Result<seq<real>, LoadError>)
    ensures r.Ok? <==> forall j :: 2 <= j < m + 2 ==> PolColumnOk(line, j)
    ensures r.Ok? ==> |r.value| == m && forall k :: 0 <= k < m ==> r.value[k] == PolValue(line, k + 2)
    ensures r.Err? ==>
      exists j :: 2 <= j < m + 2 && !PolColumnOk(line, j) && r.error == ParseFailure(ctx, line[j])
  {
    if m == 0 then Ok([])
    else
      var prefix :- PolCoefficients(ctx, line, m - 1);
      var c := GetDoubleOr(ctx, line, m + 1, 0.0);
      if c.Err? then
        assert !PolColumnOk(line, m + 1);
        Err(c.error)
      else
        assert PolColumnOk(line, m + 1);
        Ok(prefix + [c.value])
  }

  /** One MCF row: the identifier and the polynomial's coefficients, `a0` first. */
  function McfRow(ctx: Context, line: seq<string>): (r: Result<(string, seq<real>), LoadError>)
    ensures r.Ok? ==> |line| >= 3 && r.value.0 == line[0] && |r.value.1| == McfCount(line)
    ensures |line| >= 3 ==> (r.Ok? <==> PolCoefficients(ctx, line, McfCount(line)).Ok?)
    ensures r.Ok? ==> r.value.1 == PolCoefficients(ctx, line, McfCount(line)).value
  {
    var _ :- CheckMandatory(ctx, line, [0, 2]);
    var cs :- PolCoefficients(ctx, line, McfCount(line));
    Ok((line[0], cs))
  }

  /** No coefficient column is lost: every non-empty POL column has its
      coefficient, and the last coefficient is the last non-empty column. */
  lemma McfKeepsEveryColumn(ctx: Context, line: seq<string>, k: nat)
    requires McfRow(ctx, line).Ok?
    requires 2 <= k < |line| && HasColumn(line, k)
    ensures var cs := McfRow(ctx, line).value.1;
      k - 2 < |cs| && ParseReal(line[k]).Some? && cs[k - 2] == ParseReal(line[k]).value
      && HasColumn(line, |cs| + 1)
  {
    var n := McfCount(line);
    var cs := McfRow(ctx, line).value.1;
    assert |cs| == n;
    assert k <= n + 1;
    assert cs[k - 2] == PolValue(line, (k - 2) + 2);
  }

  function LoadMcf(t: Table): (r: Result<map<string, seq<real>>, LoadError>)
    ensures r.Ok? <==> ParseRows(t, McfRow).Ok?
    ensures r.Ok? ==> r.value == ToMap(ParseRows(t, McfRow).value)
  {
    var rows :- ParseRows(t, McfRow);
    Ok(ToMap(rows))
  }

  // ---------------------------------------------------------------------------
  // LGF

  /** A logarithmic calibration has five coefficients. */
  const LGF_COEFFICIENTS: nat := 5

  /** One LGF row: five coefficients read like a MCF row's, except that the
      first column must hold a number even when empty. */
  function LgfRow(ctx: Context, line: seq<string>): (r: Result<(string, seq<real>), LoadError>)
    ensures r.Ok? ==> |line| >= 3 && r.value.0 == line[0] && |r.value.1| == LGF_COEFFICIENTS
    ensures r.Ok? ==> ParseReal(line[2]).Some? && r.value.1[0] == ParseReal(line[2]).value
    ensures r.Ok? ==> PolCoefficients(ctx, line, LGF_COEFFICIENTS).Ok? && r.value.1 == PolCoefficients(ctx, line, LGF_COEFFICIENTS).value
    ensures |line| >= 3 ==> (r.Ok? <==> ParseReal(line[2]).Some? && PolCoefficients(ctx, line, LGF_COEFFICIENTS).Ok?)
  {
    var _ :- CheckMandatory(ctx, line, [0, 2]);
    var _ :- GetDouble(ctx, line, 2);
    var cs :- PolCoefficients(ctx, line, LGF_COEFFICIENTS);
    assert cs[0] == PolValue(line, 0 + 2);
    Ok((line[0], cs))
  }

  /** The coefficients of a logarithmic calibration, column by column. */
  lemma LgfCoefficients(ctx: Context, line: seq<string>, k: nat)
    requires LgfRow(ctx, line).Ok? && k < LGF_COEFFICIENTS
    ensures PolColumnOk(line, k + 2) && LgfRow(ctx, line).value.1[k] == PolValue(line, k + 2)
  {
  }

  function LoadLgf(t: Table): (r: Result<map<string, seq<real>>, LoadError>)
    ensures r.Ok? <==> ParseRows(t, LgfRow).Ok?
    ensures r.Ok? ==> r.value == ToMap(ParseRows(t, LgfRow).value)
    ensures r.Ok? ==> forall n :: n in r.value ==> |r.value[n]| == LGF_COEFFICIENTS
  {
    var rows :- ParseRows(t, LgfRow);
    ToMapLast(rows);
    forall n | n in ToMap(rows)
      ensures |ToMap(rows)[n]| == LGF_COEFFICIENTS
    {
      SelectedFrom(rows, n, |Select(rows, n)| - 1);
      var i :| 0 <= i < |rows| && rows[i] == (n, Select(rows, n)[|Select(rows, n)| - 1]);
      assert LgfRow(t.At(i), t.lines[i].fields) == Ok(rows[i]);
    }
    Ok(ToMap(rows))
  }

  // ---------------------------------------------------------------------------
  // All calibration tables

  /** The calibration part of `loadTelemetryParams`: CUR, CAF/CAP, TXF/TXP,
      MCF and LGF, in that order, the first error aborting. */
  function LoadCalibrations(cur: Table, caf: Table, cap: Table, txf: Table, txp: Table, mcf: Table, lgf: Table): (r: Result<Calibrations, LoadError>)
    ensures r.Ok? <==>
      LoadCur(cur).Ok? && LoadCafCap(caf, cap).Ok? && LoadTxfTxp(txf, txp).Ok?
      && LoadMcf(mcf).Ok? && LoadLgf(lgf).Ok?
    ensures r.Ok? ==>
      r.value.curRecords == LoadCur(cur).value
      && (r.value.cafRecords, r.value.splineCalibrators) == LoadCafCap(caf, cap).value
      && (r.value.enumerations, r.value.enumerationRanges) == LoadTxfTxp(txf, txp).value
      && r.value.polynoms == LoadMcf(mcf).value && r.value.logCalibrators == LoadLgf(lgf).value
    ensures LoadCur(cur).Err? ==> r == Err(LoadCur(cur).error)
  {
    var curRecords :- LoadCur(cur);
    var cafCap :- LoadCafCap(caf, cap);
    var txfTxp :- LoadTxfTxp(txf, txp);
    var polynoms :- LoadMcf(mcf);
    var logs :- LoadLgf(lgf);
    Ok(Calibrations(curRecords, cafCap.0, cafCap.1, txfTxp.0, txfTxp.1, polynoms, logs))
  }

  // ---------------------------------------------------------------------------
  // Numeric calibrator lookup

  /** `getNumericCalibrator`: a polynomial first, then a spline, then a
      logarithmic calibration of that name; a null name finds nothing. */
  function GetNumericCalibrator(c: Calibrations, name: Option<string>): (r: Option<Calibrator>)
    ensures r.Some? <==>
      name.Some?
      && (name.value in c.polynoms || name.value in c.splineCalibrators || name.value in c.logCalibrators)
    ensures name.Some? && name.value in c.polynoms ==> r == Some(Polynomial(c.polynoms[name.value]))
    ensures name.Some? && name.value !in c.polynoms && name.value in c.splineCalibrators ==>
      r == Some(Spline(c.splineCalibrators[name.value]))
    ensures name.Some? && name.value !in c.polynoms && name.value !in c.splineCalibrators && name.value in c.logCalibrators ==>
      r == Some(Logarithmic(c.logCalibrators[name.value]))
  {
    match name
    case None => None
    case Some(n) =>
      if n in c.polynoms then Some(Polynomial(c.polynoms[n]))
      else if n in c.splineCalibrators then Some(Spline(c.splineCalibrators[n]))
      else if n in c.logCalibrators then Some(Logarithmic(c.logCalibrators[n]))
      else None
  }
}
