/** Monitoring checks: the OCP table (the checks of each parameter, ordered
    by position) and the OCF table (which kind of check each parameter gets),
    turned into enumeration alarms and numeric alarm ranges on the
    parameters' types. */
module TmLimits {
  import opened Wrappers
  import opened Text
  import opened Mdb
  import opened MibLoaderBits
  import opened BaseMibLoader
  import opened MonitoringData
  import opened Collections
  import opened MibParameter
  import opened TmParameters

  const IDX_OCP_NAME: nat := 0
  const IDX_OCP_POS: nat := 1
  const IDX_OCP_TYPE: nat := 2
  const IDX_OCP_LVALU: nat := 3
  const IDX_OCP_HVALU: nat := 4
  const IDX_OCP_RLCHK: nat := 5
  const IDX_OCP_VALPAR: nat := 6

  const IDX_OCF_NAME: nat := 0
  const IDX_OCF_NBCHCK: nat := 1
  const IDX_OCF_NBOOL: nat := 2
  const IDX_OCF_INTER: nat := 3
  const IDX_OCF_CODIN: nat := 4

  // ---------------------------------------------------------------------------
  // OCP

  /** One OCP row: name, position and type are mandatory; the optional
      columns are absent when empty, and VALPAR defaults to 1. */
  function OcpRow(ctx: Context, line: seq<string>): (r: Result<(string, OcpRecord), LoadError>)
    ensures r.Ok? <==> |line| > IDX_OCP_TYPE && ParseInt(line[IDX_OCP_POS]).Some?
                        && GetLongOr(ctx, line, IDX_OCP_VALPAR, 1).Ok?
    ensures r.Ok? ==>
      var rec := r.value.1;
      && r.value.0 == line[IDX_OCP_NAME]
      && rec.pos == ParseInt(line[IDX_OCP_POS]).value
      && (rec.otype.Some? <==> HasColumn(line, IDX_OCP_TYPE))
      && (rec.lvalu.Some? <==> HasColumn(line, IDX_OCP_LVALU))
      && (rec.hvalu.Some? <==> HasColumn(line, IDX_OCP_HVALU))
      && (rec.rlchk.Some? <==> HasColumn(line, IDX_OCP_RLCHK))
      && (rec.otype.Some? ==> rec.otype.value == line[IDX_OCP_TYPE])
      && (rec.lvalu.Some? ==> rec.lvalu.value == line[IDX_OCP_LVALU])
      && (rec.hvalu.Some? ==> rec.hvalu.value == line[IDX_OCP_HVALU])
      && (rec.rlchk.Some? ==> rec.rlchk.value == line[IDX_OCP_RLCHK])
      && rec.valpar == GetLongOr(ctx, line, IDX_OCP_VALPAR, 1).value
      && (!HasColumn(line, IDX_OCP_VALPAR) ==> rec.valpar == 1)
  {
    var cols := [IDX_OCP_NAME, IDX_OCP_POS, IDX_OCP_TYPE];
    assert CheckMandatory(ctx, line, cols).Ok? <==> |line| > IDX_OCP_TYPE by {
      if |line| > IDX_OCP_TYPE { assert forall i :: 0 <= i < |cols| ==> cols[i] < |line|; }
      else { assert !(cols[2] < |line|); }
    }
    var _ :- CheckMandatory(ctx, line, cols);
    var pos :- GetInt(ctx, line, IDX_OCP_POS);
    var valpar :- GetLongOr(ctx, line, IDX_OCP_VALPAR, 1);
    Ok((line[IDX_OCP_NAME],
        OcpRecord(pos, GetOptString(line, IDX_OCP_TYPE), GetOptString(line, IDX_OCP_LVALU),
                  GetOptString(line, IDX_OCP_HVALU), GetOptString(line, IDX_OCP_RLCHK), valpar)))
  }

  function PosKey(r: OcpRecord): int {
    r.pos
  }

  /** `loadOcp`: the checks of each parameter, sorted by position. */
  function LoadOcp(t: Table): (r: Result<map<string, seq<OcpRecord>>, LoadError>)
    ensures r.Ok? <==> ParseRows(t, OcpRow).Ok?
  {
    var rows :- ParseRows(t, OcpRow);
    var g := GroupBy(rows);
    Ok(map n | n in g.lists :: SortBy(g.lists[n], PosKey))
  }

  /** The checks listed for a parameter are exactly its OCP rows, ordered by
      position, rows of equal position keeping their file order. */
  lemma LoadOcpLists(t: Table, pname: string)
    requires LoadOcp(t).Ok?
    ensures var rows := ParseRows(t, OcpRow).value;
      var m := LoadOcp(t).value;
      && (pname in m <==> Select(rows, pname) != [])
      && (pname in m ==>
            && SortedBy(m[pname], PosKey)
            && multiset(m[pname]) == multiset(Select(rows, pname))
            && forall k :: WithKey(m[pname], PosKey, k) == WithKey(Select(rows, pname), PosKey, k))
  {
    var rows := ParseRows(t, OcpRow).value;
    GroupByLists(rows);
    if pname in LoadOcp(t).value {
      SortBySorted(Select(rows, pname), PosKey);
      forall k ensures WithKey(LoadOcp(t).value[pname], PosKey, k) == WithKey(Select(rows, pname), PosKey, k) {
        SortByStable(Select(rows, pname), PosKey, k);
      }
    }
  }

  // ---------------------------------------------------------------------------
  // Checks and their context

  /** Delta checks, event-only checks and status consistency checks are
      skipped. */
  predicate Counted(r: OcpRecord) {
    r.otype != Some("D") && r.otype != Some("E") && r.otype != Some("C")
  }

  /** A soft check is a warning, every other check critical. */
  function LevelOf(r: OcpRecord): (l: AlarmLevel)
    ensures l == Warning <==> r.otype == Some("S")
  {
    if r.otype == Some("S") then Warning else Critical
  }

  /** The applicability of a check: raw value of RLCHK equal to VALPAR. */
  function ContextOf(r: OcpRecord): (c: Option<Comparison>)
    ensures c.Some? <==> r.rlchk.Some?
    ensures c.Some? ==> c.value.param == r.rlchk.value && !c.value.useCalibrated
                        && c.value.op == Equality && c.value.value == Text(IntToString(r.valpar))
  {
    if r.rlchk.Some? then Some(Comparison(r.rlchk.value, false, Equality, Text(IntToString(r.valpar)))) else None
  }

  /** The scan state of the alarm loops: the last check applied and the
      context match in force; a context is only ever in force after a check. */
  datatype Scan = NoContext(last: Option<OcpRecord>) | InContext(prev: OcpRecord, contextMatch: Comparison)
  {
    /** The last check applied, if any. */
    function Last(): Option<OcpRecord> {
      if InContext? then Some(prev) else last
    }
  }

  /** The context in force is the one of the previous check, whose
      reference parameter exists. */
  predicate ScanInv(ss: SpaceSystem, sc: Scan) {
    sc.InContext? ==>
      && ContextOf(sc.prev) == Some(sc.contextMatch)
      && sc.prev.rlchk.Some? && sc.prev.rlchk.value in ss.parameters
  }

  /** The context of the next check: kept while RLCHK and VALPAR repeat,
      otherwise looked up afresh; `None` when the reference is unknown. */
  function StepContext(ss: SpaceSystem, sc: Scan, r: OcpRecord): Option<Option<Comparison>> {
    if r.rlchk.None? then Some(None)
    else if sc.InContext? && r.rlchk == sc.prev.rlchk && r.valpar == sc.prev.valpar then Some(Some(sc.contextMatch))
    else if r.rlchk.value in ss.parameters then Some(ContextOf(r))
    else None
  }

  /** Keeping a context is invisible: every check gets the context its own
      row names, and fails exactly when that row names an unknown parameter. */
  lemma StepContextSpec(ss: SpaceSystem, sc: Scan, r: OcpRecord)
    requires ScanInv(ss, sc)
    ensures StepContext(ss, sc, r) ==
      (if r.rlchk.Some? && r.rlchk.value !in ss.parameters then None else Some(ContextOf(r)))
  {
  }

  /** The state after a check applied under context `c`. */
  function After(r: OcpRecord, c: Option<Comparison>): (sc: Scan)
    ensures sc.Last() == Some(r)
    ensures sc.InContext? <==> c.Some?
  {
    if c.Some? then InContext(r, c.value) else NoContext(Some(r))
  }

  lemma AfterInv(ss: SpaceSystem, r: OcpRecord)
    requires r.rlchk.Some? ==> r.rlchk.value in ss.parameters
    ensures ScanInv(ss, After(r, ContextOf(r)))
  {
  }

  function UnknownReference(ctx: Context, rlchk: string): LoadError {
    MibLoadError(Some(ctx), "Unknown parameter '" + rlchk + " referenced in the ocp")
  }

  /** `param.setParameterType(t)`: only that parameter's type changes. */
  function Retype(ss: SpaceSystem, pname: string, t: DataType): (r: SpaceSystem)
    requires ss.WellFormed() && pname in ss.parameters
    ensures r.WellFormed()
    ensures r.parameters == ss.parameters[pname := ss.parameters[pname].(ptype := t)]
    ensures r.parameterTypes == ss.parameterTypes && r.parameterOrder == ss.parameterOrder
    ensures r.containers == ss.containers && r.containerOrder == ss.containerOrder && r.commands == ss.commands
  {
    ss.(parameters := ss.parameters[pname := ss.parameters[pname].(ptype := t)])
  }

  // ---------------------------------------------------------------------------
  // Enumeration alarms

  /** The first value of the enumeration equal to `rv`. */
  function FirstValue(values: seq<EnumValue>, rv: int): (k: nat)
    ensures k <= |values|
    ensures k < |values| ==> values[k].value == rv
    ensures forall j :: 0 <= j < k ==> values[j].value != rv
  {
    if |values| == 0 then 0 else if values[0].value == rv then 0 else 1 + FirstValue(values[1..], rv)
  }

  predicate InRange(r: EnumRange, rv: int) {
    r.min <= rv as real <= r.max
  }

  /** The first range of the enumeration holding `rv`. */
  function FirstRange(ranges: seq<EnumRange>, rv: int): (k: nat)
    ensures k <= |ranges|
    ensures k < |ranges| ==> InRange(ranges[k], rv)
    ensures forall j :: 0 <= j < k ==> !InRange(ranges[j], rv)
  {
    if |ranges| == 0 then 0 else if InRange(ranges[0], rv) then 0 else 1 + FirstRange(ranges[1..], rv)
  }

  /** `findEnumeration`: the label of a raw value, from the exact values
      first and from the ranges only when no value matches. */
  function FindEnumeration(values: seq<EnumValue>, ranges: seq<EnumRange>, rv: int): (r: Option<string>)
    ensures r.None? <==> (forall i :: 0 <= i < |values| ==> values[i].value != rv)
                         && (forall j :: 0 <= j < |ranges| ==> !InRange(ranges[j], rv))
    ensures (exists i :: 0 <= i < |values| && values[i].value == rv) ==>
      exists i :: 0 <= i < |values| && values[i].value == rv && r == Some(values[i].caption)
                  && forall i' :: 0 <= i' < i ==> values[i'].value != rv
    ensures (forall i :: 0 <= i < |values| ==> values[i].value != rv) && r.Some? ==>
      exists j :: 0 <= j < |ranges| && InRange(ranges[j], rv) && r == Some(ranges[j].caption)
                  && forall j' :: 0 <= j' < j ==> !InRange(ranges[j'], rv)
  {
    var i := FirstValue(values, rv);
    if i < |values| then Some(values[i].caption)
    else
      var j := FirstRange(ranges, rv);
      if j < |ranges| then Some(ranges[j].caption) else None
  }

  function Nullable(s: Option<string>): string {
    AppendNullable(s)
  }

  /** `OcpRecord.toString`. */
  function OcpText(r: OcpRecord): string {
    "OcpRecord [pos=" + IntToString(r.pos) + ", type=" + Nullable(r.otype) + ", lvalu=" + Nullable(r.lvalu)
      + ", hvalu=" + Nullable(r.hvalu) + ", rlchk=" + Nullable(r.rlchk) + ", valpar=" + IntToString(r.valpar) + "]"
  }

  function RawParseError(ctx: Context, r: OcpRecord): LoadError {
    MibLoadError(Some(ctx), "Failed to parse '" + Nullable(r.lvalu) + "' into a number from OCP record " + OcpText(r))
  }

  /** The alarm one check adds to an enumerated type under the context `c`
      (`None` when the check's reference is unknown): the low value is the
      label itself, or with `raw` a raw value whose label is looked up; a raw
      value without a label adds nothing. */
  function EnumCheck(ctx: Context, values: seq<EnumValue>, ranges: seq<EnumRange>, raw: bool,
                     c: Option<Option<Comparison>>, r: OcpRecord): (res: Result<seq<EnumAlarm>, LoadError>)
    requires Counted(r)
    ensures c.None? ==> res == Err(UnknownReference(ctx, r.rlchk.GetOr("")))
    ensures c.Some? && !raw ==> res == Ok([EnumAlarm(c.value, r.lvalu, LevelOf(r))])
    ensures c.Some? && raw ==>
      && (res.Ok? <==> r.lvalu.Some? && ParseLong(r.lvalu.value).Some?)
      && (res.Err? ==> res.error == RawParseError(ctx, r))
      && (res.Ok? ==>
            var found := FindEnumeration(values, ranges, ParseLong(r.lvalu.value).value);
            res.value == if found.None? then [] else [EnumAlarm(c.value, found, LevelOf(r))])
  {
    if c.None? then Err(UnknownReference(ctx, r.rlchk.GetOr("")))
    else if !raw then Ok([EnumAlarm(c.value, r.lvalu, LevelOf(r))])
    else
      var rv := if r.lvalu.Some? then ParseLong(r.lvalu.value) else None;
      if rv.None? then Err(RawParseError(ctx, r))
      else
        var found := FindEnumeration(values, ranges, rv.value);
        Ok(if found.None? then [] else [EnumAlarm(c.value, found, LevelOf(r))])
  }

  /** The loop of `addEnumeratedAlarm`, carrying the context match. */
  function EnumScan(ss: SpaceSystem, ctx: Context, values: seq<EnumValue>, ranges: seq<EnumRange>, raw: bool,
                    l: seq<OcpRecord>, sc: Scan): Result<seq<EnumAlarm>, LoadError>
    decreases |l|
  {
    if |l| == 0 then Ok([])
    else if !Counted(l[0]) then EnumScan(ss, ctx, values, ranges, raw, l[1..], sc)
    else
      var c := StepContext(ss, sc, l[0]);
      var here :- EnumCheck(ctx, values, ranges, raw, c, l[0]);
      var rest :- EnumScan(ss, ctx, values, ranges, raw, l[1..], After(l[0], c.value));
      Ok(here + rest)
  }

  /** The context a check's own row names, or `None` for an unknown reference. */
  function OwnContext(ss: SpaceSystem, r: OcpRecord): Option<Option<Comparison>> {
    if r.rlchk.Some? && r.rlchk.value !in ss.parameters then None else Some(ContextOf(r))
  }

  /** The reference: every counted check in order, each under its own
      context. */
  function EnumAlarmsSpec(ss: SpaceSystem, ctx: Context, values: seq<EnumValue>, ranges: seq<EnumRange>, raw: bool,
                          l: seq<OcpRecord>): Result<seq<EnumAlarm>, LoadError>
    decreases |l|
  {
    if |l| == 0 then Ok([])
    else if !Counted(l[0]) then EnumAlarmsSpec(ss, ctx, values, ranges, raw, l[1..])
    else
      var here :- EnumCheck(ctx, values, ranges, raw, OwnContext(ss, l[0]), l[0]);
      var rest :- EnumAlarmsSpec(ss, ctx, values, ranges, raw, l[1..]);
      Ok(here + rest)
  }

  /** The scan with its remembered context computes the reference. */
  lemma {:induction false} EnumScanIsSpec(ss: SpaceSystem, ctx: Context, values: seq<EnumValue>, ranges: seq<EnumRange>,
                                          raw: bool, l: seq<OcpRecord>, sc: Scan)
    requires ScanInv(ss, sc)
    ensures EnumScan(ss, ctx, values, ranges, raw, l, sc) == EnumAlarmsSpec(ss, ctx, values, ranges, raw, l)
    decreases |l|
  {
    if |l| > 0 {
      if !Counted(l[0]) {
        EnumScanIsSpec(ss, ctx, values, ranges, raw, l[1..], sc);
      } else {
        StepContextSpec(ss, sc, l[0]);
        var c := StepContext(ss, sc, l[0]);
        if c.Some? {
          AfterInv(ss, l[0]);
          EnumScanIsSpec(ss, ctx, values, ranges, raw, l[1..], After(l[0], c.value));
        }
      }
    }
  }

  /** `addEnumeratedAlarm`: the alarms of the checks added to the
      parameter's enumerated type, in check order. */
  function AddEnumeratedAlarm(ss: SpaceSystem, ctx: Context, pname: string, l: seq<OcpRecord>, raw: bool): (r: Result<SpaceSystem, LoadError>)
    requires ss.WellFormed()
    ensures pname !in ss.parameters ==> r == Err(NullPointer())
    ensures pname in ss.parameters && !ss.parameters[pname].ptype.kind.EnumeratedKind? ==> r == Err(ClassCast())
    ensures r.Ok? ==>
      var t := ss.parameters[pname].ptype;
      var alarms := EnumAlarmsSpec(ss, ctx, t.kind.values, t.kind.ranges, raw, l);
      && t.kind.EnumeratedKind? && alarms.Ok?
      && r.value == Retype(ss, pname, t.(kind := t.kind.(enumAlarms := t.kind.enumAlarms + alarms.value)))
  {
    if pname !in ss.parameters then Err(NullPointer())
    else
      var p := ss.parameters[pname];
      var t := p.ptype;
      if !t.kind.EnumeratedKind? then Err(ClassCast())
      else
        EnumScanIsSpec(ss, ctx, t.kind.values, t.kind.ranges, raw, l, NoContext(None));
        var alarms :- EnumScan(ss, ctx, t.kind.values, t.kind.ranges, raw, l, NoContext(None));
        Ok(Retype(ss, pname, t.(kind := t.kind.(enumAlarms := t.kind.enumAlarms + alarms))))
  }

  // ---------------------------------------------------------------------------
  // Numeric alarms

  /** `AlarmRanges.addRange`: the range of a level replaces the one that level had. */
  function SetRange(ranges: seq<AlarmRange>, ar: AlarmRange): (r: seq<AlarmRange>)
    ensures ar in r
    ensures forall x :: x in r && x.level != ar.level ==> x in ranges
    ensures forall x :: x in ranges && x.level != ar.level ==> x in r
    decreases |ranges|
  {
    if |ranges| == 0 then [ar]
    else if ranges[0].level == ar.level then
      assert forall x :: x in ranges[1..] ==> x in ranges;
      assert forall x :: x in ranges && x != ranges[0] ==> x in ranges[1..];
      [ar] + ranges[1..]
    else
      var rest := SetRange(ranges[1..], ar);
      assert forall x :: x in ranges[1..] ==> x in ranges;
      assert forall x :: x in ranges && x != ranges[0] ==> x in ranges[1..];
      [ranges[0]] + rest
  }

  /** At most one range per level. */
  predicate OneRangePerLevel(ranges: seq<AlarmRange>) {
    forall i, j :: 0 <= i < j < |ranges| ==> ranges[i].level != ranges[j].level
  }

  lemma {:induction false} SetRangeKeepsOnePerLevel(ranges: seq<AlarmRange>, ar: AlarmRange)
    requires OneRangePerLevel(ranges)
    ensures OneRangePerLevel(SetRange(ranges, ar))
    decreases |ranges|
  {
    if |ranges| > 0 && ranges[0].level != ar.level {
      SetRangeKeepsOnePerLevel(ranges[1..], ar);
      var rest := SetRange(ranges[1..], ar);
      // with two levels, the rest holds only ranges of `ar`'s level and
      // ranges of other levels than `ranges[0]`'s
      assert forall i :: 0 <= i < |rest| ==> rest[i].level != ranges[0].level;
      assert SetRange(ranges, ar) == [ranges[0]] + rest;
    } else if |ranges| > 0 {
      forall i | 0 < i < |ranges| ensures ranges[i].level != ar.level {
        assert ranges[0].level != ranges[i].level;
      }
    }
  }

  /** Some alarm of the list is the one of context `c`. */
  predicate HasContext(alarms: seq<NumericAlarm>, c: Option<Comparison>) {
    exists i :: 0 <= i < |alarms| && alarms[i].context == c
  }

  /** `createOrGetAlarm(context)`, then `setMinViolations` and `addRange`:
      the first alarm of the context, created at the end if missing, gets
      the range for the check's level (see `AddRangeSpec`). */
  function AddRange(alarms: seq<NumericAlarm>, c: Option<Comparison>, minViolations: int, ar: AlarmRange): seq<NumericAlarm>
    decreases |alarms|
  {
    if |alarms| == 0 then [NumericAlarm(c, minViolations, [ar])]
    else if alarms[0].context == c then
      [alarms[0].(minViolations := minViolations, ranges := SetRange(alarms[0].ranges, ar))] + alarms[1..]
    else [alarms[0]] + AddRange(alarms[1..], c, minViolations, ar)
  }

  /** `r` is `alarms` with range `ar` added for context `c`: the alarms of
      other contexts are untouched and keep their places; the alarm of the
      context is appended when missing; either way the alarm of the context
      ends up with the range and the minimum violation count. */
  ghost predicate AddedRange(alarms: seq<NumericAlarm>, c: Option<Comparison>, minViolations: int, ar: AlarmRange, r: seq<NumericAlarm>) {
    && |r| == (if HasContext(alarms, c) then |alarms| else |alarms| + 1)
    && (forall i :: 0 <= i < |alarms| ==> r[i].context == alarms[i].context)
    && (forall i :: 0 <= i < |alarms| && alarms[i].context != c ==> r[i] == alarms[i])
    && (!HasContext(alarms, c) ==> r[|alarms|] == NumericAlarm(c, minViolations, [ar]))
    && (exists i :: 0 <= i < |r| && r[i].context == c && r[i].minViolations == minViolations && ar in r[i].ranges)
  }

  lemma {:induction false} AddRangeSpec(alarms: seq<NumericAlarm>, c: Option<Comparison>, minViolations: int, ar: AlarmRange)
    ensures AddedRange(alarms, c, minViolations, ar, AddRange(alarms, c, minViolations, ar))
    decreases |alarms|
  {
    var r := AddRange(alarms, c, minViolations, ar);
    if |alarms| == 0 {
      assert r[0].context == c && ar in r[0].ranges;
    } else if alarms[0].context == c {
      AddRangeHead(alarms, c, minViolations, ar);
    } else {
      AddRangeSpec(alarms[1..], c, minViolations, ar);
      AddRangeTail(alarms, c, minViolations, ar);
    }
  }

  /** The first alarm is the context's: it takes the range in place. */
  lemma AddRangeHead(alarms: seq<NumericAlarm>, c: Option<Comparison>, minViolations: int, ar: AlarmRange)
    requires |alarms| > 0 && alarms[0].context == c
    ensures AddedRange(alarms, c, minViolations, ar, AddRange(alarms, c, minViolations, ar))
  {
    var r := AddRange(alarms, c, minViolations, ar);
    assert HasContext(alarms, c);
    assert forall i :: 1 <= i < |alarms| ==> r[i] == alarms[i];
    assert r[0].context == c && ar in r[0].ranges;
  }

  /** The first alarm is another context's: it stays, and the rest takes the range. */
  lemma AddRangeTail(alarms: seq<NumericAlarm>, c: Option<Comparison>, minViolations: int, ar: AlarmRange)
    requires |alarms| > 0 && alarms[0].context != c
    requires AddedRange(alarms[1..], c, minViolations, ar, AddRange(alarms[1..], c, minViolations, ar))
    ensures AddedRange(alarms, c, minViolations, ar, AddRange(alarms, c, minViolations, ar))
  {
    var r := AddRange(alarms, c, minViolations, ar);
    var rest := AddRange(alarms[1..], c, minViolations, ar);
    assert r == [alarms[0]] + rest;
    assert HasContext(alarms, c) <==> HasContext(alarms[1..], c) by {
      if HasContext(alarms, c) {
        var i :| 0 <= i < |alarms| && alarms[i].context == c;
        assert alarms[1..][i - 1].context == c;
      }
      if HasContext(alarms[1..], c) {
        var i :| 0 <= i < |alarms[1..]| && alarms[1..][i].context == c;
        assert alarms[i + 1].context == c;
      }
    }
    forall k | 0 <= k < |alarms| ensures r[k].context == alarms[k].context && (alarms[k].context != c ==> r[k] == alarms[k]) {
      if k > 0 {
        assert r[k] == rest[k - 1] && alarms[k] == alarms[1..][k - 1];
      }
    }
    if !HasContext(alarms, c) {
      assert r[|alarms|] == rest[|alarms[1..]|];
    }
    var i :| 0 <= i < |rest| && rest[i].context == c && rest[i].minViolations == minViolations && ar in rest[i].ranges;
    assert r[i + 1] == rest[i];
  }

  /** One alarm per context. */
  predicate OneAlarmPerContext(alarms: seq<NumericAlarm>) {
    forall i, j :: 0 <= i < j < |alarms| ==> alarms[i].context != alarms[j].context
  }

  lemma AddRangeKeepsOnePerContext(alarms: seq<NumericAlarm>, c: Option<Comparison>, minViolations: int, ar: AlarmRange)
    requires OneAlarmPerContext(alarms)
    ensures OneAlarmPerContext(AddRange(alarms, c, minViolations, ar))
  {
    var r := AddRange(alarms, c, minViolations, ar);
    AddRangeSpec(alarms, c, minViolations, ar);
    if !HasContext(alarms, c) {
      forall i | 0 <= i < |alarms| ensures r[i].context != r[|alarms|].context {
        assert alarms[i].context != c;
      }
    }
  }

  function LimitParseError(ctx: Context, pname: string, r: OcpRecord): LoadError {
    MibLoadError(Some(ctx), "Cannot parse low/high " + Nullable(r.lvalu) + "/" + Nullable(r.hvalu)
                            + " values from ocp for parameter " + pname)
  }

  /** A limit value: absent is the host's NaN (`None`), present must parse. */
  function Limit(v: Option<string>): Option<Option<real>> {
    if v.None? then Some(None)
    else
      var x := ParseReal(v.value);
      if x.None? then None else Some(Some(x.value))
  }

  /** The numeric loop's state: the alarms built and the errors reported. */
  datatype NumericOut = NumericOut(alarms: seq<NumericAlarm>, errors: seq<LoadError>)

  /** One numeric check: its limits must parse (or the load fails); an
      unknown reference is reported and the check skipped; otherwise the
      range goes to the alarm of the check's context. */
  function NumericCheck(ctx: Context, pname: string, minViolations: int, c: Option<Option<Comparison>>,
                        r: OcpRecord, out: NumericOut): (res: Result<NumericOut, LoadError>)
    ensures res.Err? <==> Limit(r.lvalu).None? || Limit(r.hvalu).None?
    ensures res.Err? ==> res.error == LimitParseError(ctx, pname, r)
    ensures res.Ok? && c.None? ==>
      res.value == NumericOut(out.alarms, out.errors + [UnknownReference(ctx, r.rlchk.GetOr(""))])
    ensures res.Ok? && c.Some? ==>
      res.value == NumericOut(AddRange(out.alarms, c.value, minViolations,
                                       AlarmRange(Limit(r.lvalu).value, Limit(r.hvalu).value, LevelOf(r))), out.errors)
  {
    var low := Limit(r.lvalu);
    var high := Limit(r.hvalu);
    if low.None? || high.None? then Err(LimitParseError(ctx, pname, r))
    else if c.None? then Ok(NumericOut(out.alarms, out.errors + [UnknownReference(ctx, r.rlchk.GetOr(""))]))
    else Ok(NumericOut(AddRange(out.alarms, c.value, minViolations, AlarmRange(low.value, high.value, LevelOf(r))), out.errors))
  }

  /** The loop of `addNumericAlarm`, carrying the context match; a skipped
      check leaves the previous check in place and no context in force. */
  function NumericScan(ss: SpaceSystem, ctx: Context, pname: string, minViolations: int,
                       l: seq<OcpRecord>, sc: Scan, out: NumericOut): Result<NumericOut, LoadError>
    decreases |l|
  {
    if |l| == 0 then Ok(out)
    else if !Counted(l[0]) then NumericScan(ss, ctx, pname, minViolations, l[1..], sc, out)
    else
      var c := StepContext(ss, sc, l[0]);
      var out1 :- NumericCheck(ctx, pname, minViolations, c, l[0], out);
      var sc1 := if c.None? then NoContext(sc.Last()) else After(l[0], c.value);
      NumericScan(ss, ctx, pname, minViolations, l[1..], sc1, out1)
  }

  /** The reference: every counted check in order under its own context. */
  function NumericSpec(ss: SpaceSystem, ctx: Context, pname: string, minViolations: int,
                       l: seq<OcpRecord>, out: NumericOut): Result<NumericOut, LoadError>
    decreases |l|
  {
    if |l| == 0 then Ok(out)
    else if !Counted(l[0]) then NumericSpec(ss, ctx, pname, minViolations, l[1..], out)
    else
      var out1 :- NumericCheck(ctx, pname, minViolations, OwnContext(ss, l[0]), l[0], out);
      NumericSpec(ss, ctx, pname, minViolations, l[1..], out1)
  }

  lemma {:induction false} NumericScanIsSpec(ss: SpaceSystem, ctx: Context, pname: string, minViolations: int,
                                             l: seq<OcpRecord>, sc: Scan, out: NumericOut)
    requires ScanInv(ss, sc)
    ensures NumericScan(ss, ctx, pname, minViolations, l, sc, out) == NumericSpec(ss, ctx, pname, minViolations, l, out)
    decreases |l|
  {
    if |l| > 0 {
      if !Counted(l[0]) {
        NumericScanIsSpec(ss, ctx, pname, minViolations, l[1..], sc, out);
      } else {
        StepContextSpec(ss, sc, l[0]);
        var c := StepContext(ss, sc, l[0]);
        var out1 := NumericCheck(ctx, pname, minViolations, c, l[0], out);
        if out1.Ok? {
          if c.None? {
            NumericScanIsSpec(ss, ctx, pname, minViolations, l[1..], NoContext(sc.Last()), out1.value);
          } else {
            AfterInv(ss, l[0]);
            NumericScanIsSpec(ss, ctx, pname, minViolations, l[1..], After(l[0], c.value), out1.value);
          }
        }
      }
    }
  }

  /** The reference keeps one alarm per context. */
  lemma {:induction false} NumericSpecOnePerContext(ss: SpaceSystem, ctx: Context, pname: string, minViolations: int,
                                                    l: seq<OcpRecord>, out: NumericOut)
    requires OneAlarmPerContext(out.alarms)
    requires NumericSpec(ss, ctx, pname, minViolations, l, out).Ok?
    ensures OneAlarmPerContext(NumericSpec(ss, ctx, pname, minViolations, l, out).value.alarms)
    decreases |l|
  {
    if |l| > 0 {
      if !Counted(l[0]) {
        NumericSpecOnePerContext(ss, ctx, pname, minViolations, l[1..], out);
      } else {
        var c := OwnContext(ss, l[0]);
        var out1 := NumericCheck(ctx, pname, minViolations, c, l[0], out).value;
        if c.Some? {
          AddRangeKeepsOnePerContext(out.alarms, c.value, minViolations,
                                     AlarmRange(Limit(l[0].lvalu).value, Limit(l[0].hvalu).value, LevelOf(l[0])));
        }
        NumericSpecOnePerContext(ss, ctx, pname, minViolations, l[1..], out1);
      }
    }
  }

  /** `addNumericAlarm`: the parameter gets a copy of its type, under the
      first free name `<type>_<k>` with k from 1, carrying the alarms of the
      checks; the copy is added to the space system. Unknown references are
      reported, not fatal. */
  function AddNumericAlarm(ss: SpaceSystem, ctx: Context, pname: string, l: seq<OcpRecord>, minViolations: int)
    : (r: Result<(SpaceSystem, seq<LoadError>), LoadError>)
    requires ss.WellFormed()
    ensures pname !in ss.parameters ==> r == Err(NullPointer())
    ensures pname in ss.parameters && !ss.parameters[pname].ptype.kind.IsNumeric() ==> r == Err(ClassCast())
    ensures r.Ok? ==> r.value.0.WellFormed()
    ensures r.Ok? ==>
      var t := ss.parameters[pname].ptype;
      var base := t.name.GetOr("null");
      var out := NumericSpec(ss, ctx, pname, minViolations, l, NumericOut(t.numericAlarms, []));
      && t.kind.IsNumeric() && out.Ok?
      && r.value.1 == out.value.errors
      && (exists k: nat :: 1 <= k && InstanceName(base, k) !in ss.parameterTypes
            && (forall j :: 1 <= j < k ==> InstanceName(base, j) in ss.parameterTypes)
            && var t1 := t.(numericAlarms := out.value.alarms).Named(InstanceName(base, k));
               r.value.0 == Retype(ss.AddParameterType(t1, InstanceName(base, k)), pname, t1))
  {
    if pname !in ss.parameters then Err(NullPointer())
    else
      var p := ss.parameters[pname];
      var t := p.ptype;
      if !t.kind.IsNumeric() then Err(ClassCast())
      else
        var base := t.name.GetOr("null");
        var k := FreshIndex(ss.parameterTypes.Keys, base, 1);
        var name := InstanceName(base, k);
        NumericScanIsSpec(ss, ctx, pname, minViolations, l, NoContext(None), NumericOut(t.numericAlarms, []));
        var out :- NumericScan(ss, ctx, pname, minViolations, l, NoContext(None), NumericOut(t.numericAlarms, []));
        var t1 := t.(numericAlarms := out.alarms).Named(name);
        var ss1 := ss.AddParameterType(t1, name);
        Ok((Retype(ss1, pname, t1), out.errors))
  }

  // ---------------------------------------------------------------------------
  // OCF

  datatype OcfRecord = OcfRecord(pname: string, nbchck: int, nbool: int, inter: string, codin: string)

  /** One OCF row: every column mandatory, the two counts integers. */
  function OcfRow(ctx: Context, line: seq<string>): (r: Result<OcfRecord, LoadError>)
    ensures r.Ok? <==> |line| > IDX_OCF_CODIN && ParseInt(line[IDX_OCF_NBCHCK]).Some? && ParseInt(line[IDX_OCF_NBOOL]).Some?
    ensures r.Ok? ==> r.value == OcfRecord(line[IDX_OCF_NAME], ParseInt(line[IDX_OCF_NBCHCK]).value,
                                            ParseInt(line[IDX_OCF_NBOOL]).value, line[IDX_OCF_INTER], line[IDX_OCF_CODIN])
  {
    var cols := [IDX_OCF_NAME, IDX_OCF_NBCHCK, IDX_OCF_NBOOL, IDX_OCF_INTER, IDX_OCF_CODIN];
    assert CheckMandatory(ctx, line, cols).Ok? <==> |line| > IDX_OCF_CODIN by {
      if |line| > IDX_OCF_CODIN { assert forall i :: 0 <= i < |cols| ==> cols[i] < |line|; }
      else { assert !(cols[4] < |line|); }
    }
    var _ :- CheckMandatory(ctx, line, cols);
    var nbchck :- GetInt(ctx, line, IDX_OCF_NBCHCK);
    var nbool :- GetInt(ctx, line, IDX_OCF_NBOOL);
    Ok(OcfRecord(line[IDX_OCF_NAME], nbchck, nbool, line[IDX_OCF_INTER], line[IDX_OCF_CODIN]))
  }

  /** The host class of a parameter type, as `getClass()` prints it. */
  function ClassName(k: TypeKind): string {
    "class org.yamcs.xtce." +
      match k
      case BooleanKind => "BooleanParameterType"
      case IntegerKind(_, _) => "IntegerParameterType"
      case FloatKind(_) => "FloatParameterType"
      case EnumeratedKind(_, _, _) => "EnumeratedParameterType"
      case StringKind => "StringParameterType"
      case BinaryKind => "BinaryParameterType"
      case AbsoluteTimeKind(_, _) => "AbsoluteTimeParameterType"
      case AggregateKind(_) => "AggregateParameterType"
  }

  function NoPcf(ctx: Context, pname: string): LoadError {
    MibLoadError(Some(ctx), "OCF record without a corresponding PCF for parameter '" + pname + "'")
  }

  function NoOcp(ctx: Context, pname: string): LoadError {
    MibLoadError(Some(ctx), "OCF record without a corresponding OCP for parameter '" + pname + "'")
  }

  function IllegalCodin(ctx: Context, pname: string, codin: string): LoadError {
    MibLoadError(Some(ctx), pname + ": illegal value " + codin + " for OCF_CODIN (allowed are: R, A and I")
  }

  function CodinMismatch(ctx: Context, pname: string, codin: string, t: DataType, pcf: PcfRecord): LoadError {
    MibLoadError(Some(ctx), pname + ": OCF_CODIN = " + codin + " cannot be used for a parameter of type "
                            + ClassName(t.kind) + "(pcf: " + PcfText(pcf) + ")")
  }

  function EnumOnly(ctx: Context, pname: string, t: DataType): LoadError {
    MibLoadError(Some(ctx), pname + ": OCF_CODIN = A cannot be used for a parameter of type " + ClassName(t.kind))
  }

  /** `PcfRecord.toString`. */
  function PcfText(p: PcfRecord): string {
    "PcfRecord [name=" + p.name + ", descr=" + p.descr + ", ptc=" + IntToString(p.ptc) + ", pfc=" + IntToString(p.pfc)
      + ", pcfCateg=" + p.categ + ", natur=" + Nullable(p.natur) + ", curtx=" + Nullable(p.curtx)
      + ", inter=" + Nullable(p.inter) + ", vplb=" + IntToString(p.vplb) + ", width=" + IntToString(p.width)
      + ", pid=" + IntToString(p.pid) + ", unit=" + Nullable(p.unit) + ", uscon=" + (if p.uscon then "true" else "false")
      + ", related=" + Nullable(p.related) + "]"
  }

  /** What the limits loader builds: the space system and the errors reported. */
  datatype LimitsState = LimitsState(ss: SpaceSystem, errors: seq<LoadError>)

  /** What the alarms change: parameters get new types of the same kind and
      encoding, and new types are added; nothing is removed or replaced. */
  ghost predicate AlarmsOnly(a: SpaceSystem, b: SpaceSystem) {
    && b.WellFormed()
    && b.parameters.Keys == a.parameters.Keys && b.parameterOrder == a.parameterOrder
    && (forall n :: n in a.parameterTypes ==> n in b.parameterTypes && b.parameterTypes[n] == a.parameterTypes[n])
    && (forall n :: n in a.parameters ==>
          && b.parameters[n].name == a.parameters[n].name
          && b.parameters[n].ptype.encoding == a.parameters[n].ptype.encoding
          && b.parameters[n].ptype.calibrator == a.parameters[n].ptype.calibrator
          && SameKind(a.parameters[n].ptype.kind, b.parameters[n].ptype.kind))
    && b.containers == a.containers && b.containerOrder == a.containerOrder && b.commands == a.commands
  }

  /** The same kind up to its enumeration alarms. */
  predicate SameKind(k1: TypeKind, k2: TypeKind) {
    if k1.EnumeratedKind? then k2.EnumeratedKind? && k2.values == k1.values && k2.ranges == k1.ranges
    else k2 == k1
  }

  lemma AlarmsOnlyTrans(a: SpaceSystem, b: SpaceSystem, c: SpaceSystem)
    requires AlarmsOnly(a, b) && AlarmsOnly(b, c)
    ensures AlarmsOnly(a, c)
  {
  }

  lemma AddEnumeratedAlarmOnly(ss: SpaceSystem, ctx: Context, pname: string, l: seq<OcpRecord>, raw: bool)
    requires ss.WellFormed()
    requires AddEnumeratedAlarm(ss, ctx, pname, l, raw).Ok?
    ensures AlarmsOnly(ss, AddEnumeratedAlarm(ss, ctx, pname, l, raw).value)
  {
  }

  lemma AddNumericAlarmOnly(ss: SpaceSystem, ctx: Context, pname: string, l: seq<OcpRecord>, minViolations: int)
    requires ss.WellFormed()
    requires AddNumericAlarm(ss, ctx, pname, l, minViolations).Ok?
    ensures AlarmsOnly(ss, AddNumericAlarm(ss, ctx, pname, l, minViolations).value.0)
  {
    var t := ss.parameters[pname].ptype;
    var base := t.name.GetOr("null");
    var k := FreshIndex(ss.parameterTypes.Keys, base, 1);
    var name := InstanceName(base, k);
    var out := NumericScan(ss, ctx, pname, minViolations, l, NoContext(None), NumericOut(t.numericAlarms, [])).value;
    var t1 := t.(numericAlarms := out.alarms).Named(name);
    assert AddNumericAlarm(ss, ctx, pname, l, minViolations).value.0 == Retype(ss.AddParameterType(t1, name), pname, t1);
    NewTypeAlarmsOnly(ss, pname, t1, name);
  }

  /** A parameter moved to a new type of the same kind, encoding and
      calibrator changes alarms only. */
  lemma NewTypeAlarmsOnly(ss: SpaceSystem, pname: string, t1: DataType, name: string)
    requires ss.WellFormed() && pname in ss.parameters && name !in ss.parameterTypes
    requires t1.encoding == ss.parameters[pname].ptype.encoding && t1.calibrator == ss.parameters[pname].ptype.calibrator
    requires SameKind(ss.parameters[pname].ptype.kind, t1.kind)
    ensures AlarmsOnly(ss, Retype(ss.AddParameterType(t1, name), pname, t1))
  {
  }

  /** The check of an OCF row on a parameter whose type is known: CODIN R
      and I give enumeration alarms on raw values (INTER U), nothing for a
      boolean, numeric alarms for a number; A gives enumeration alarms on
      labels. */
  function ApplyCheck(ctx: Context, l: seq<OcpRecord>, t: DataType, pcf: PcfRecord, st: LimitsState, o: OcfRecord)
    : (r: Result<LimitsState, LoadError>)
    requires st.ss.WellFormed()
    ensures r.Ok? ==> r.value.ss.WellFormed()
    ensures r.Ok? ==> |r.value.errors| >= |st.errors| && r.value.errors[..|st.errors|] == st.errors
  {
    if o.codin == "R" || o.codin == "I" then
      if t.kind.EnumeratedKind? && o.inter == "U" then
        var ss :- AddEnumeratedAlarm(st.ss, ctx, o.pname, l, true);
        Ok(st.(ss := ss))
      else if t.kind.BooleanKind? then Ok(st)
      else if t.kind.IsNumeric() then
        var x :- AddNumericAlarm(st.ss, ctx, o.pname, l, o.nbchck);
        assert (st.errors + x.1)[..|st.errors|] == st.errors;
        Ok(LimitsState(x.0, st.errors + x.1))
      else Err(CodinMismatch(ctx, o.pname, o.codin, t, pcf))
    else if o.codin == "A" then
      if !t.kind.EnumeratedKind? then Err(EnumOnly(ctx, o.pname, t))
      else
        var ss :- AddEnumeratedAlarm(st.ss, ctx, o.pname, l, false);
        Ok(st.(ss := ss))
    else Err(IllegalCodin(ctx, o.pname, o.codin))
  }

  /** One OCF row (see `ApplyOcfCases` for what each row does). */
  function ApplyOcf(ctx: Context, ocp: map<string, seq<OcpRecord>>, parameters: map<string, MibParameter>,
                    st: LimitsState, o: OcfRecord): (r: Result<LimitsState, LoadError>)
    requires st.ss.WellFormed()
    ensures r.Ok? ==> r.value.ss.WellFormed()
    ensures r.Ok? ==> |r.value.errors| >= |st.errors| && r.value.errors[..|st.errors|] == st.errors
  {
    if o.pname !in parameters then Err(NoPcf(ctx, o.pname))
    else
      var mp := parameters[o.pname];
      if mp.pcf.uscon && o.nbool == 1 then Ok(st)
      else if o.pname !in ocp then Err(NoOcp(ctx, o.pname))
      else if mp.ptype.None? then
        if o.codin in {"R", "I", "A"} then Err(NullPointer()) else Err(IllegalCodin(ctx, o.pname, o.codin))
      else ApplyCheck(ctx, ocp[o.pname], mp.ptype.value, mp.pcf, st, o)
  }

  /** One OCF row. The parameter must have a PCF row and, unless it is a
      status consistency check (USCON with NBOOL 1, skipped), OCP rows.
      CODIN R and I give enumeration alarms on raw values for an enumerated
      parameter with INTER U, nothing for a boolean, numeric alarms for a
      numeric one; A gives enumeration alarms on labels and needs an
      enumerated parameter; any other CODIN is an error. The type tested is
      the one the parameter loader built. */
  lemma ApplyOcfCases(ctx: Context, ocp: map<string, seq<OcpRecord>>, parameters: map<string, MibParameter>,
                      st: LimitsState, o: OcfRecord)
    requires st.ss.WellFormed()
    ensures var r := ApplyOcf(ctx, ocp, parameters, st, o);
      && (o.pname !in parameters ==> r == Err(NoPcf(ctx, o.pname)))
      && (o.pname in parameters && parameters[o.pname].pcf.uscon && o.nbool == 1 ==> r == Ok(st))
      && (o.pname in parameters && !(parameters[o.pname].pcf.uscon && o.nbool == 1) && o.pname !in ocp ==>
            r == Err(NoOcp(ctx, o.pname)))
    ensures o.pname in parameters && !(parameters[o.pname].pcf.uscon && o.nbool == 1) && o.pname in ocp ==>
      var r := ApplyOcf(ctx, ocp, parameters, st, o);
      var pt := parameters[o.pname].ptype;
      var l := ocp[o.pname];
      && (o.codin !in {"R", "I", "A"} ==> r == Err(IllegalCodin(ctx, o.pname, o.codin)))
      && (o.codin in {"R", "I", "A"} && pt.None? ==> r == Err(NullPointer()))
      && (o.codin in {"R", "I"} && pt.Some? && pt.value.kind.EnumeratedKind? && o.inter == "U" ==>
            r == (var ss :- AddEnumeratedAlarm(st.ss, ctx, o.pname, l, true); Ok(st.(ss := ss))))
      && (o.codin in {"R", "I"} && pt.Some? && !(pt.value.kind.EnumeratedKind? && o.inter == "U") && pt.value.kind.BooleanKind? ==>
            r == Ok(st))
      && (o.codin in {"R", "I"} && pt.Some? && !(pt.value.kind.EnumeratedKind? && o.inter == "U") && pt.value.kind.IsNumeric() ==>
            r == (var x :- AddNumericAlarm(st.ss, ctx, o.pname, l, o.nbchck); Ok(LimitsState(x.0, st.errors + x.1))))
      && (o.codin in {"R", "I"} && pt.Some? && !pt.value.kind.EnumeratedKind? && !pt.value.kind.BooleanKind? && !pt.value.kind.IsNumeric() ==>
            r == Err(CodinMismatch(ctx, o.pname, o.codin, pt.value, parameters[o.pname].pcf)))
      && (o.codin == "A" && pt.Some? && !pt.value.kind.EnumeratedKind? ==> r == Err(EnumOnly(ctx, o.pname, pt.value)))
      && (o.codin == "A" && pt.Some? && pt.value.kind.EnumeratedKind? ==>
            r == (var ss :- AddEnumeratedAlarm(st.ss, ctx, o.pname, l, false); Ok(st.(ss := ss))))
  {
  }

  /** The check of an OCF row changes alarms only. */
  lemma ApplyCheckOnly(ctx: Context, l: seq<OcpRecord>, t: DataType, pcf: PcfRecord, st: LimitsState, o: OcfRecord)
    requires st.ss.WellFormed()
    ensures var r := ApplyCheck(ctx, l, t, pcf, st, o);
      r.Ok? ==> AlarmsOnly(st.ss, r.value.ss)
  {
    if o.codin == "R" || o.codin == "I" {
      if t.kind.EnumeratedKind? && o.inter == "U" {
        if AddEnumeratedAlarm(st.ss, ctx, o.pname, l, true).Ok? {
          AddEnumeratedAlarmOnly(st.ss, ctx, o.pname, l, true);
        }
      } else if t.kind.IsNumeric() && AddNumericAlarm(st.ss, ctx, o.pname, l, o.nbchck).Ok? {
        AddNumericAlarmOnly(st.ss, ctx, o.pname, l, o.nbchck);
      }
    } else if o.codin == "A" && AddEnumeratedAlarm(st.ss, ctx, o.pname, l, false).Ok? {
      AddEnumeratedAlarmOnly(st.ss, ctx, o.pname, l, false);
    }
  }

  /** An OCF row changes alarms only. */
  lemma ApplyOcfOnly(ctx: Context, ocp: map<string, seq<OcpRecord>>, parameters: map<string, MibParameter>,
                     st: LimitsState, o: OcfRecord)
    requires st.ss.WellFormed()
    ensures var r := ApplyOcf(ctx, ocp, parameters, st, o);
      r.Ok? ==> AlarmsOnly(st.ss, r.value.ss)
  {
    if o.pname in parameters && o.pname in ocp && parameters[o.pname].ptype.Some? {
      var mp := parameters[o.pname];
      ApplyCheckOnly(ctx, ocp[o.pname], mp.ptype.value, mp.pcf, st, o);
    }
  }

  /** The OCF rows read, applied one after the other from `st0`: row `i`
      is applied with the context of line `i`, and the first failure stops
      the pass. */
  function ApplyAllOcf(ocf: Table, ocp: map<string, seq<OcpRecord>>, parameters: map<string, MibParameter>,
                       st0: LimitsState, recs: seq<OcfRecord>): (r: Result<LimitsState, LoadError>)
    requires st0.ss.WellFormed() && |recs| <= |ocf.lines|
    ensures r.Ok? ==> r.value.ss.WellFormed()
    decreases |recs|
  {
    if |recs| == 0 then Ok(st0)
    else
      var st :- ApplyAllOcf(ocf, ocp, parameters, st0, recs[..|recs| - 1]);
      ApplyOcf(ocf.At(|recs| - 1), ocp, parameters, st, recs[|recs| - 1])
  }

  /** `loadLimits` over the first `n` OCF rows (`LoadLimitsIsFold` gives
      its result). */
  function LoadLimitsUpTo(ocf: Table, ocp: map<string, seq<OcpRecord>>, parameters: map<string, MibParameter>,
                          st0: LimitsState, n: nat): (r: Result<LimitsState, LoadError>)
    requires st0.ss.WellFormed() && n <= |ocf.lines|
    ensures r.Ok? ==> r.value.ss.WellFormed()
    ensures r.Ok? ==> |r.value.errors| >= |st0.errors| && r.value.errors[..|st0.errors|] == st0.errors
    ensures r.Ok? ==> AlarmsOnly(st0.ss, r.value.ss)
    decreases n
  {
    if n == 0 then
      assert st0.errors[..|st0.errors|] == st0.errors;
      Ok(st0)
    else
      var st :- LoadLimitsUpTo(ocf, ocp, parameters, st0, n - 1);
      var o :- OcfRow(ocf.At(n - 1), ocf.lines[n - 1].fields);
      var r :- ApplyOcf(ocf.At(n - 1), ocp, parameters, st, o);
      ApplyOcfKeeps(ocf.At(n - 1), ocp, parameters, st0, st, o);
      Ok(r)
  }

  /** A row applied after others keeps what they kept: the errors reported
      before the pass, and alarms as the only change. */
  lemma ApplyOcfKeeps(ctx: Context, ocp: map<string, seq<OcpRecord>>, parameters: map<string, MibParameter>,
                      st0: LimitsState, st: LimitsState, o: OcfRecord)
    requires st.ss.WellFormed() && AlarmsOnly(st0.ss, st.ss)
    requires |st.errors| >= |st0.errors| && st.errors[..|st0.errors|] == st0.errors
    requires ApplyOcf(ctx, ocp, parameters, st, o).Ok?
    ensures var r := ApplyOcf(ctx, ocp, parameters, st, o).value;
      && AlarmsOnly(st0.ss, r.ss)
      && |r.errors| >= |st0.errors| && r.errors[..|st0.errors|] == st0.errors
  {
    var r := ApplyOcf(ctx, ocp, parameters, st, o).value;
    ApplyOcfOnly(ctx, ocp, parameters, st, o);
    AlarmsOnlyTrans(st0.ss, st.ss, r.ss);
    assert r.errors[..|st0.errors|] == st.errors[..|st0.errors|];
  }

  /** The loop reads a row and applies it before reading the next, yet it
      succeeds exactly when every row reads and the rows read then apply in
      order, and its result is that of applying them. */
  lemma {:induction false} LoadLimitsIsFold(ocf: Table, ocp: map<string, seq<OcpRecord>>, parameters: map<string, MibParameter>,
                                            st0: LimitsState, n: nat)
    requires st0.ss.WellFormed() && n <= |ocf.lines|
    ensures var r := LoadLimitsUpTo(ocf, ocp, parameters, st0, n);
      var rows := ParseRowsUpTo(ocf, OcfRow, n);
      && (r.Ok? <==> rows.Ok? && ApplyAllOcf(ocf, ocp, parameters, st0, rows.value).Ok?)
      && (r.Ok? ==> r == ApplyAllOcf(ocf, ocp, parameters, st0, rows.value))
    decreases n
  {
    if n > 0 {
      LoadLimitsIsFold(ocf, ocp, parameters, st0, n - 1);
      LoadLimitsStep(ocf, ocp, parameters, st0, n);
      var prev := LoadLimitsUpTo(ocf, ocp, parameters, st0, n - 1);
      var rowsPrev := ParseRowsUpTo(ocf, OcfRow, n - 1);
      var row := OcfRow(ocf.At(n - 1), ocf.lines[n - 1].fields);
      if rowsPrev.Ok? && row.Ok? {
        ParseRowsSnoc(ocf, n, rowsPrev.value, row.value);
        ApplyAllSnoc(ocf, ocp, parameters, st0, rowsPrev.value, row.value);
        var before := ApplyAllOcf(ocf, ocp, parameters, st0, rowsPrev.value);
        assert prev.Ok? <==> before.Ok?;
        assert prev.Ok? ==> prev.value == before.value;
      } else {
        assert ParseRowsUpTo(ocf, OcfRow, n).Err?;
        assert LoadLimitsUpTo(ocf, ocp, parameters, st0, n).Err?;
      }
    }
  }

  /** One more OCF row: read it, then apply it to the state the earlier
      rows left, unless they failed. */
  lemma LoadLimitsStep(ocf: Table, ocp: map<string, seq<OcpRecord>>, parameters: map<string, MibParameter>,
                       st0: LimitsState, n: nat)
    requires st0.ss.WellFormed() && 0 < n <= |ocf.lines|
    ensures var prev := LoadLimitsUpTo(ocf, ocp, parameters, st0, n - 1);
      var row := OcfRow(ocf.At(n - 1), ocf.lines[n - 1].fields);
      LoadLimitsUpTo(ocf, ocp, parameters, st0, n)
        == if prev.Err? then Err(prev.error) else if row.Err? then Err(row.error)
           else ApplyOcf(ocf.At(n - 1), ocp, parameters, prev.value, row.value)
  {
  }

  /** Applying one more row applies it to the state the earlier rows left. */
  lemma ApplyAllSnoc(ocf: Table, ocp: map<string, seq<OcpRecord>>, parameters: map<string, MibParameter>,
                     st0: LimitsState, prefix: seq<OcfRecord>, o: OcfRecord)
    requires st0.ss.WellFormed() && |prefix| < |ocf.lines|
    ensures var before := ApplyAllOcf(ocf, ocp, parameters, st0, prefix);
      ApplyAllOcf(ocf, ocp, parameters, st0, prefix + [o])
        == if before.Err? then Err(before.error) else ApplyOcf(ocf.At(|prefix|), ocp, parameters, before.value, o)
  {
    assert (prefix + [o])[..|prefix|] == prefix;
  }

  /** The OCF rows read up to `n` are those read up to `n - 1` and then row
      `n - 1`. */
  lemma ParseRowsSnoc(ocf: Table, n: nat, prefix: seq<OcfRecord>, o: OcfRecord)
    requires 0 < n <= |ocf.lines|
    requires ParseRowsUpTo(ocf, OcfRow, n - 1) == Ok(prefix)
    requires OcfRow(ocf.At(n - 1), ocf.lines[n - 1].fields) == Ok(o)
    ensures ParseRowsUpTo(ocf, OcfRow, n) == Ok(prefix + [o])
    ensures (prefix + [o])[..n - 1] == prefix && (prefix + [o])[n - 1] == o
  {
  }

  /** `loadLimits`: the OCP table, then every OCF row in order. The result
      is that of applying the OCF rows read, one after the other; it only
      adds alarms and types, and keeps the errors reported before. */
  function LoadLimits(ocpTable: Table, ocfTable: Table, parameters: map<string, MibParameter>, st0: LimitsState)
    : (r: Result<LimitsState, LoadError>)
    requires st0.ss.WellFormed()
    ensures LoadOcp(ocpTable).Err? ==> r == Err(LoadOcp(ocpTable).error)
    ensures LoadOcp(ocpTable).Ok? ==>
      var rows := ParseRows(ocfTable, OcfRow);
      var applied := if rows.Ok? then ApplyAllOcf(ocfTable, LoadOcp(ocpTable).value, parameters, st0, rows.value)
                     else Err(rows.error);
      && (r.Ok? <==> applied.Ok?)
      && (r.Ok? ==> r == applied)
    ensures r.Ok? ==> AlarmsOnly(st0.ss, r.value.ss)
    ensures r.Ok? ==> |r.value.errors| >= |st0.errors| && r.value.errors[..|st0.errors|] == st0.errors
  {
    var ocp :- LoadOcp(ocpTable);
    LoadLimitsIsFold(ocfTable, ocp, parameters, st0, |ocfTable.lines|);
    LoadLimitsUpTo(ocfTable, ocp, parameters, st0, |ocfTable.lines|)
  }
}
