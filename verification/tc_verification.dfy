/** Pre-transmission validation and command verification: the PTV
    constraints of each command, the CVE verification expressions, the CVS
    verification stages (PUS service 1 algorithms or container checks) and
    the CVP profiles attaching stages to commands. */
module TcVerification {
  import opened Wrappers
  import opened Text
  import opened JavaInt
  import opened Mdb
  import opened MibLoaderBits
  import opened BaseMibLoader
  import opened Collections

  // ---------------------------------------------------------------------------
  // Match criteria and what they accept

  /** One comparison alone, several as a list that must all hold. */
  function Criteria(l: seq<Comparison>): (m: MatchCriteria)
    requires |l| > 0
    ensures m.Single? <==> |l| == 1
    ensures Conditions(m) == l
  {
    if |l| == 1 then Single(l[0]) else AllOf(l)
  }

  /** The comparisons a criterion is made of. */
  function Conditions(m: MatchCriteria): seq<Comparison> {
    match m
    case Single(c) => [c]
    case AllOf(cs) => cs
  }

  /** The number a comparison's right-hand side stands for: a text value is
      read as a decimal number. */
  function CompNumber(v: CompValue): Option<real> {
    match v
    case Text(s) => ParseReal(s)
    case Number(n) => Some(n)
  }

  /** A numeric value `x` of the compared parameter satisfies `c`. */
  predicate Holds(c: Comparison, x: real) {
    var n := CompNumber(c.value);
    n.Some? &&
    match c.op
    case Equality => x == n.value
    case LargerOrEqual => x >= n.value
    case SmallerOrEqual => x <= n.value
  }

  /** Every comparison of the criterion holds for `x`. */
  predicate Matches(m: MatchCriteria, x: real) {
    forall c :: c in Conditions(m) ==> Holds(c, x)
  }

  // ---------------------------------------------------------------------------
  // PTV: pre-transmission validation

  const IDX_PTV_CNAME: nat := 0
  const IDX_PTV_PARNAM: nat := 1
  const IDX_PTV_INTER: nat := 2
  const IDX_PTV_VAL: nat := 3

  function InvalidPtvCommand(ctx: Context, cname: string): LoadError {
    MibLoadError(Some(ctx), "Invalid command PTV_CNAME=" + cname)
  }

  function InvalidPtvParameter(ctx: Context, pname: string): LoadError {
    MibLoadError(Some(ctx), "Reference to invalid parameter PTV_PARNAM=" + pname)
  }

  /** A PTV row that names a command and a parameter of the space system,
      with a valid interpretation (raw by default). */
  predicate PtvAccepted(ss: SpaceSystem, line: seq<string>) {
    && IDX_PTV_VAL < |line|
    && line[IDX_PTV_CNAME] in ss.commands
    && line[IDX_PTV_PARNAM] in ss.parameters
    && GetString(line, IDX_PTV_INTER, "R") in {"E", "R"}
  }

  /** One PTV row: the command it constrains and the equality the
      parameter must satisfy before the command may be sent. */
  function PtvRow(ss: SpaceSystem, ctx: Context, line: seq<string>): (r: Result<(string, Comparison), LoadError>)
    ensures r.Ok? <==> PtvAccepted(ss, line)
    ensures r.Ok? ==> r.value.0 == line[IDX_PTV_CNAME]
    ensures r.Ok? ==> r.value.1 == Comparison(line[IDX_PTV_PARNAM], GetString(line, IDX_PTV_INTER, "R") == "E",
                                              Equality, Text(line[IDX_PTV_VAL]))
    ensures IDX_PTV_VAL < |line| && line[IDX_PTV_CNAME] !in ss.commands ==>
      r == Err(InvalidPtvCommand(ctx, line[IDX_PTV_CNAME]))
    ensures IDX_PTV_VAL < |line| && line[IDX_PTV_CNAME] in ss.commands && line[IDX_PTV_PARNAM] !in ss.parameters ==>
      r == Err(InvalidPtvParameter(ctx, line[IDX_PTV_PARNAM]))
  {
    var cols := [IDX_PTV_CNAME, IDX_PTV_PARNAM, IDX_PTV_VAL];
    var _ :- CheckMandatory(ctx, line, cols);
    assert cols[2] < |line|;
    var cname := line[IDX_PTV_CNAME];
    if cname !in ss.commands then Err(InvalidPtvCommand(ctx, cname))
    else if line[IDX_PTV_PARNAM] !in ss.parameters then Err(InvalidPtvParameter(ctx, line[IDX_PTV_PARNAM]))
    else
      var useCalibrated :- GetUseCalibrated(ctx, "PTV_INTER", GetString(line, IDX_PTV_INTER, "R"));
      Ok((cname, Comparison(line[IDX_PTV_PARNAM], useCalibrated, Equality, Text(line[IDX_PTV_VAL]))))
  }

  function PtvParser(ss: SpaceSystem): (Context, seq<string>) -> Result<(string, Comparison), LoadError> {
    (ctx, line) => PtvRow(ss, ctx, line)
  }

  /** A command with one more transmission constraint. */
  function Constrained(mc: MetaCommand, l: seq<Comparison>): (r: MetaCommand)
    requires |l| > 0
    ensures r.constraints == mc.constraints + [Criteria(l)]
    ensures r.(constraints := mc.constraints) == mc
  {
    mc.(constraints := mc.constraints + [Criteria(l)])
  }

  /** Adds to each listed command the constraint of its comparisons. */
  function AttachConstraints(ss: SpaceSystem, lists: map<string, seq<Comparison>>, order: seq<string>): (r: SpaceSystem)
    requires forall i :: 0 <= i < |order| ==> order[i] in lists && order[i] in ss.commands && lists[order[i]] != []
    requires NoDuplicates(order)
    ensures r.SameTelemetry(ss) && r.algorithms == ss.algorithms && r.commands.Keys == ss.commands.Keys
    ensures r.name == ss.name && r.version == ss.version && r.description == ss.description
    ensures forall c :: c in ss.commands ==>
      r.commands[c] == if c in order then Constrained(ss.commands[c], lists[c]) else ss.commands[c]
    decreases |order|
  {
    if |order| == 0 then ss
    else
      var init := order[..|order| - 1];
      var c := order[|order| - 1];
      assert c !in init by {
        forall i | 0 <= i < |init| ensures init[i] != c { assert init[i] == order[i]; }
      }
      assert forall x :: x in order <==> x in init || x == c;
      var ss1 := AttachConstraints(ss, lists, init);
      ss1.UpdateCommand(c, Constrained(ss1.commands[c], lists[c]))
  }

  /** Every key the rows name is a command. */
  lemma PtvKeysKnown(ss: SpaceSystem, t: Table)
    requires ParseRows(t, PtvParser(ss)).Ok?
    ensures var pairs := ParseRows(t, PtvParser(ss)).value;
      forall c :: Select(pairs, c) != [] ==> c in ss.commands
  {
    var pairs := ParseRows(t, PtvParser(ss)).value;
    forall c | Select(pairs, c) != [] ensures c in ss.commands {
      SelectNonEmpty(pairs, c);
      var i :| 0 <= i < |pairs| && pairs[i].0 == c;
      ParsedAt(t, PtvParser(ss), i);
    }
  }

  /** `loadPtv`: each command receives one transmission constraint made of
      the equalities of the PTV rows naming it, in file order (a single
      comparison alone, several as a list); other commands are unchanged. */
  function LoadPtv(ss: SpaceSystem, t: Table): (r: Result<SpaceSystem, LoadError>)
    ensures r.Ok? <==> forall i :: 0 <= i < |t.lines| ==> PtvAccepted(ss, t.lines[i].fields)
    ensures r.Ok? ==> r.value.SameTelemetry(ss) && r.value.algorithms == ss.algorithms
    ensures r.Ok? ==> r.value.commands.Keys == ss.commands.Keys && r.value.name == ss.name
    ensures r.Ok? ==>
      var pairs := ParseRows(t, PtvParser(ss)).value;
      forall c :: c in ss.commands ==>
        r.value.commands[c] == if Select(pairs, c) == [] then ss.commands[c] else Constrained(ss.commands[c], Select(pairs, c))
  {
    var pairs :- ParseRows(t, PtvParser(ss));
    GroupByLists(pairs);
    GroupByOrder(pairs);
    PtvKeysKnown(ss, t);
    var g := GroupBy(pairs);
    Ok(AttachConstraints(ss, g.lists, g.order))
  }

  // ---------------------------------------------------------------------------
  // CVE: verification expressions

  const IDX_CVE_CVSID: nat := 0
  const IDX_CVE_PARNAM: nat := 1
  const IDX_CVE_INTER: nat := 2
  const IDX_CVE_VAL: nat := 3
  const IDX_CVE_TOL: nat := 4
  const IDX_CVE_CHECK: nat := 5

  function UnknownCveParameter(ctx: Context, pname: string): LoadError {
    MibLoadError(Some(ctx), "Found reference to unexisting parameter CVE_PARAM=" + pname)
  }

  function NonNumericEng(ctx: Context, pname: string): LoadError {
    MibLoadError(Some(ctx), "Cannot use CVE_TOL for a parameter with non numeric eng value" + pname)
  }

  function NonNumericRaw(ctx: Context, pname: string): LoadError {
    MibLoadError(Some(ctx), "Cannot use CVE_TOL for a parameter with non numeric raw value" + pname)
  }

  /** Status-consistency checks ("S") and checks on command parameters
      ("C") are not supported and skip the row. */
  predicate CveSkipped(line: seq<string>) {
    GetString(line, IDX_CVE_CHECK, "B") == "S"
    || (IDX_CVE_VAL < |line| && GetString(line, IDX_CVE_INTER, "R") == "C")
  }

  /** The tolerance may only be used on a value that is numeric: the
      engineering type when calibrated, the raw encoding otherwise. */
  function ToleranceAllowed(ctx: Context, p: Parameter, useCalibrated: bool): (r: Result<(), LoadError>)
    ensures r.Ok? <==> if useCalibrated then p.ptype.kind.IsNumeric()
                       else !p.ptype.kind.AggregateKind? && p.ptype.encoding.Some? && p.ptype.encoding.value.IsNumeric()
    ensures useCalibrated && r.Err? ==> r.error == NonNumericEng(ctx, p.name)
    ensures !useCalibrated && p.ptype.kind.AggregateKind? ==> r == Err(ClassCast())
  {
    if useCalibrated then
      if p.ptype.kind.IsNumeric() then Ok(()) else Err(NonNumericEng(ctx, p.name))
    else if p.ptype.kind.AggregateKind? then Err(ClassCast())
    else if p.ptype.encoding.Some? && p.ptype.encoding.value.IsNumeric() then Ok(())
    else Err(NonNumericRaw(ctx, p.name))
  }

  /** The criterion of a CVE row with a tolerance column: a non-zero
      tolerance gives the inclusive range around the value, zero the
      equality with the value as written. */
  function ToleranceCriteria(ctx: Context, line: seq<string>, pname: string, useCalibrated: bool)
    : (r: Result<MatchCriteria, LoadError>)
    requires IDX_CVE_TOL < |line|
    ensures r.Ok? <==> ParseReal(line[IDX_CVE_TOL]).Some?
                       && (ParseReal(line[IDX_CVE_TOL]).value != 0.0 ==> ParseReal(line[IDX_CVE_VAL]).Some?)
    ensures r.Ok? ==> forall c :: c in Conditions(r.value) ==> c.param == pname && c.useCalibrated == useCalibrated
  {
    var tolerance :- GetDouble(ctx, line, IDX_CVE_TOL);
    if tolerance != 0.0 then
      var val :- GetDouble(ctx, line, IDX_CVE_VAL);
      Ok(AllOf([Comparison(pname, useCalibrated, LargerOrEqual, Number(val - tolerance)),
                Comparison(pname, useCalibrated, SmallerOrEqual, Number(val + tolerance))]))
    else
      Ok(Single(Comparison(pname, useCalibrated, Equality, Text(line[IDX_CVE_VAL]))))
  }

  /** One CVE row: `None` for a skipped row, otherwise the stage id and the
      criterion on the parameter. */
  function CveRow(ss: SpaceSystem, ctx: Context, line: seq<string>): (r: Result<Option<(string, MatchCriteria)>, LoadError>)
    ensures IDX_CVE_PARNAM < |line| && line[IDX_CVE_PARNAM] !in ss.parameters ==>
      r == Err(UnknownCveParameter(ctx, line[IDX_CVE_PARNAM]))
    ensures r == Ok(None) <==> IDX_CVE_PARNAM < |line| && line[IDX_CVE_PARNAM] in ss.parameters && CveSkipped(line)
    ensures r.Ok? && r.value.Some? ==>
      && IDX_CVE_VAL < |line| && line[IDX_CVE_PARNAM] in ss.parameters && !CveSkipped(line)
      && r.value.value.0 == line[IDX_CVE_CVSID]
      && (forall c :: c in Conditions(r.value.value.1) ==>
            c.param == line[IDX_CVE_PARNAM] && c.useCalibrated == (GetString(line, IDX_CVE_INTER, "R") == "E"))
    ensures r.Ok? && r.value.Some? && !HasColumn(line, IDX_CVE_TOL) ==>
      r.value.value.1 == Single(Comparison(line[IDX_CVE_PARNAM], GetString(line, IDX_CVE_INTER, "R") == "E",
                                           Equality, Text(line[IDX_CVE_VAL])))
  {
    var cols := [IDX_CVE_CVSID, IDX_CVE_PARNAM];
    var _ :- CheckMandatory(ctx, line, cols);
    assert cols[1] < |line|;
    var pname := line[IDX_CVE_PARNAM];
    if pname !in ss.parameters then Err(UnknownCveParameter(ctx, pname))
    else if GetString(line, IDX_CVE_CHECK, "B") == "S" then Ok(None)
    else
      var _ :- CheckMandatory(ctx, line, [IDX_CVE_VAL]);
      var inter := GetString(line, IDX_CVE_INTER, "R");
      if inter == "C" then Ok(None)
      else
        var useCalibrated :- GetUseCalibrated(ctx, "CVE_INTER", inter);
        if HasColumn(line, IDX_CVE_TOL) then
          var _ :- ToleranceAllowed(ctx, ss.parameters[pname], useCalibrated);
          var m :- ToleranceCriteria(ctx, line, pname, useCalibrated);
          Ok(Some((line[IDX_CVE_CVSID], m)))
        else
          Ok(Some((line[IDX_CVE_CVSID], Single(Comparison(pname, useCalibrated, Equality, Text(line[IDX_CVE_VAL]))))))
  }

  /** A CVE tolerance `tol` accepts exactly the values within `tol` of the
      expected value, bounds included; a negative tolerance accepts nothing. */
  lemma CveToleranceRange(ss: SpaceSystem, ctx: Context, line: seq<string>, x: real)
    requires CveRow(ss, ctx, line).Ok? && CveRow(ss, ctx, line).value.Some?
    requires HasColumn(line, IDX_CVE_TOL) && ParseReal(line[IDX_CVE_VAL]).Some?
    ensures ParseReal(line[IDX_CVE_TOL]).Some?
    ensures var tol := ParseReal(line[IDX_CVE_TOL]).value;
      var val := ParseReal(line[IDX_CVE_VAL]).value;
      && (Matches(CveRow(ss, ctx, line).value.value.1, x) <==> val - tol <= x <= val + tol)
      && (tol < 0.0 ==> !Matches(CveRow(ss, ctx, line).value.value.1, x))
  {
    var pname := line[IDX_CVE_PARNAM];
    var useCalibrated := GetString(line, IDX_CVE_INTER, "R") == "E";
    var m := ToleranceCriteria(ctx, line, pname, useCalibrated);
    assert CveRow(ss, ctx, line).value.value.1 == m.value;
    var tol := ParseReal(line[IDX_CVE_TOL]).value;
    var val := ParseReal(line[IDX_CVE_VAL]).value;
    if tol != 0.0 {
      var lo := Comparison(pname, useCalibrated, LargerOrEqual, Number(val - tol));
      var hi := Comparison(pname, useCalibrated, SmallerOrEqual, Number(val + tol));
      assert Conditions(m.value) == [lo, hi];
      assert Matches(m.value, x) <==> Holds(lo, x) && Holds(hi, x);
    } else {
      var eq := Comparison(pname, useCalibrated, Equality, Text(line[IDX_CVE_VAL]));
      assert Conditions(m.value) == [eq];
      assert Matches(m.value, x) <==> Holds(eq, x);
    }
  }

  function CveParser(ss: SpaceSystem): (Context, seq<string>) -> Result<Option<(string, MatchCriteria)>, LoadError> {
    (ctx, line) => CveRow(ss, ctx, line)
  }

  /** Some row of the CVE table yields a criterion for stage `id`. */
  ghost predicate CveNames(ss: SpaceSystem, t: Table, id: string) {
    exists i, m :: 0 <= i < |t.lines| && CveRow(ss, t.At(i), t.lines[i].fields) == Ok(Some((id, m)))
  }

  /** `loadCve`: the criteria of the rows kept, listed under their stage id
      in file order. A stage id is listed iff some kept row names it. */
  function LoadCve(ss: SpaceSystem, t: Table): (r: Result<map<string, seq<MatchCriteria>>, LoadError>)
    ensures r.Ok? <==> ParseRows(t, CveParser(ss)).Ok?
    ensures r.Ok? ==> forall id :: id in r.value <==> CveNames(ss, t, id)
    ensures r.Ok? ==> forall id :: id in r.value ==>
      r.value[id] == Select(Somes(ParseRows(t, CveParser(ss)).value), id)
  {
    var rows :- ParseRows(t, CveParser(ss));
    CveIds(ss, t);
    Ok(GroupBy(Somes(rows)).lists)
  }

  /** A stage id has criteria iff some row of the table yields it. */
  lemma CveIds(ss: SpaceSystem, t: Table)
    requires ParseRows(t, CveParser(ss)).Ok?
    ensures var kept := Somes(ParseRows(t, CveParser(ss)).value);
      && (forall id :: id in GroupBy(kept).lists ==> GroupBy(kept).lists[id] == Select(kept, id))
      && (forall id :: id in GroupBy(kept).lists <==> CveNames(ss, t, id))
  {
    var kept := Somes(ParseRows(t, CveParser(ss)).value);
    GroupByLists(kept);
    forall id ensures Select(kept, id) != [] <==> CveNames(ss, t, id) {
      if Select(kept, id) != [] {
        CveIdFrom(ss, t, id);
      }
      if CveNames(ss, t, id) {
        CveIdTo(ss, t, id);
      }
    }
  }

  lemma CveIdFrom(ss: SpaceSystem, t: Table, id: string)
    requires ParseRows(t, CveParser(ss)).Ok?
    requires Select(Somes(ParseRows(t, CveParser(ss)).value), id) != []
    ensures CveNames(ss, t, id)
  {
    var rows := ParseRows(t, CveParser(ss)).value;
    var kept := Somes(rows);
    SelectNonEmpty(kept, id);
    var k :| 0 <= k < |kept| && kept[k].0 == id;
    SomesFrom(rows, k);
    var i :| 0 <= i < |rows| && rows[i] == Some(kept[k]);
    ParsedAt(t, CveParser(ss), i);
    assert CveRow(ss, t.At(i), t.lines[i].fields) == Ok(Some((id, kept[k].1)));
  }

  lemma CveIdTo(ss: SpaceSystem, t: Table, id: string)
    requires ParseRows(t, CveParser(ss)).Ok?
    requires CveNames(ss, t, id)
    ensures Select(Somes(ParseRows(t, CveParser(ss)).value), id) != []
  {
    var rows := ParseRows(t, CveParser(ss)).value;
    var kept := Somes(rows);
    var i, m :| 0 <= i < |t.lines| && CveRow(ss, t.At(i), t.lines[i].fields) == Ok(Some((id, m)));
    ParsedAt(t, CveParser(ss), i);
    assert rows[i] == Some((id, m));
    SomesHas(rows, i);
    var k :| 0 <= k < |kept| && kept[k] == (id, m);
    SelectHas(kept, k);
  }
  // ---------------------------------------------------------------------------
  // CVS: verification stages

  const IDX_CVS_ID: nat := 0
  const IDX_CVS_TYPE: nat := 1
  const IDX_CVS_SOURCE: nat := 2
  const IDX_CVS_START: nat := 3
  const IDX_CVS_INTERVAL: nat := 4
  const IDX_CVS_UNCERTAINTY: nat := 6

  /** The stage a CVS type stands for: acceptance, start, completion, or a
      numbered progress stage. */
  function StageName(stype: string): (s: string)
    ensures stype == "A" <==> s == "Acceptance"
    ensures stype == "S" <==> s == "Start"
    ensures stype == "C" <==> s == "Completion"
    ensures StartsWith(s, "Progress_") <==> stype !in {"A", "S", "C"}
  {
    var p := "Progress_" + stype;
    assert p[..9] == "Progress_";
    assert p[0] == 'P';
    if stype == "A" then "Acceptance"
    else if stype == "S" then "Start"
    else if stype == "C" then "Completion"
    else p
  }

  /** Different types give different stages. */
  lemma StageNameInjective(a: string, b: string)
    requires StageName(a) == StageName(b)
    ensures a == b
  {
    if a !in {"A", "S", "C"} {
      assert b !in {"A", "S", "C"};
      assert a == ("Progress_" + a)[9..];
      assert b == ("Progress_" + b)[9..];
    }
  }

  /** The PUS service 1 stage code the verifier algorithm checks. */
  function StageCode(stage: string): (k: int)
    ensures k in {1, 3, 5, 7}
  {
    if stage == "Acceptance" then 1
    else if stage == "Start" then 3
    else if stage == "Completion" then 7
    else 5
  }

  /** Acceptance, start and completion are reported with the PUS(1,1),
      (1,3) and (1,7) codes; every progress stage with (1,5). */
  lemma StageCodes(stype: string)
    ensures StageCode(StageName(stype)) == if stype == "A" then 1 else if stype == "S" then 3 else if stype == "C" then 7 else 5
  {
  }

  /** The check window of a stage, in milliseconds after release: from
      `start` seconds to `start + interval` seconds, plus the uncertainty
      when it is positive. The sums and products are Java int arithmetic:
      each bound agrees with the exact one modulo 2^32. */
  function Window(start: int, interval: int, uncertainty: int): (w: CheckWindow)
    ensures IsJavaInt(w.startMillis) && IsJavaInt(w.stopMillis)
    ensures (w.startMillis - start * 1000) % TWO_32 == 0
    ensures (w.stopMillis - (start + interval + Positive(uncertainty)) * 1000) % TWO_32 == 0
  {
    var stop := Wrap32(start + interval + Positive(uncertainty));
    WrapScaled(start + interval + Positive(uncertainty), 1000);
    CheckWindow(Wrap32(start * 1000), Wrap32(stop * 1000))
  }

  function Positive(x: int): (r: int)
    ensures r >= 0 && r >= x
  {
    if x > 0 then x else 0
  }

  /** Scaling a wrapped value gives, after wrapping, the wrapped scaled value. */
  lemma WrapScaled(v: int, k: int)
    ensures (Wrap32(Wrap32(v) * k) - v * k) % TWO_32 == 0
  {
    var q := (Wrap32(v) - v) / TWO_32;
    assert Wrap32(v) == v + q * TWO_32;
    assert Wrap32(v) * k == v * k + (q * k) * TWO_32;
    var q2 := (Wrap32(Wrap32(v) * k) - Wrap32(v) * k) / TWO_32;
    assert Wrap32(Wrap32(v) * k) == Wrap32(v) * k + q2 * TWO_32;
    assert Wrap32(Wrap32(v) * k) - v * k == (q * k + q2) * TWO_32;
  }

  /** When the bounds fit in an int the window is the exact one, and it is
      not empty when the interval is not negative. */
  lemma WindowExact(start: int, interval: int, uncertainty: int)
    requires IsJavaInt(start * 1000)
    requires IsJavaInt((start + interval + Positive(uncertainty)) * 1000)
    ensures Window(start, interval, uncertainty)
      == CheckWindow(start * 1000, (start + interval + Positive(uncertainty)) * 1000)
    ensures interval >= 0 ==> Window(start, interval, uncertainty).startMillis <= Window(start, interval, uncertainty).stopMillis
  {
    var w := Window(start, interval, uncertainty);
    ModTwo32Equal(w.startMillis, start * 1000);
    ModTwo32Equal(w.stopMillis, (start + interval + Positive(uncertainty)) * 1000);
  }

  /** Two ints that agree modulo 2^32 are equal. */
  lemma ModTwo32Equal(a: int, b: int)
    requires IsJavaInt(a) && IsJavaInt(b) && (a - b) % TWO_32 == 0
    ensures a == b
  {
    var q := (a - b) / TWO_32;
    assert a - b == q * TWO_32;
  }

  // ---------------------------------------------------------------------------
  // PUS service 1 verifier algorithms

  /** The telemetry parameters a PUS verifier reads besides the apid of the
      sent command: the sequence count of the sent command and the apid and
      sequence count the PUS service 1 report carries. Their names are
      constants of the loader that are not part of this model. */
  datatype PusParameters = PusParameters(seqCount: string, pus1Apid: string, pus1SeqCount: string)

  /** The parameters an algorithm reads, in input order. */
  function PusInputParameters(ps: PusParameters): seq<string> {
    [PARA_NAME_APID, ps.seqCount, ps.pus1Apid, ps.pus1SeqCount]
  }

  /** The input names as the loader writes them: the sent sequence count is
      bound under the name of the sent apid. */
  const PUS_INPUT_NAMES_AS_WRITTEN: seq<string> := ["sentApid", "sentApid", "rcvdApid", "rcvdSeq"]

  /** The input names with the sent sequence count under its own name. */
  const PUS_INPUT_NAMES: seq<string> := ["sentApid", "sentSeq", "rcvdApid", "rcvdSeq"]

  function PusAlgorithmName(stage: string): string {
    "PUS_Verifier-" + stage
  }

  function MissingAlgoParameter(pname: string): LoadError {
    MibLoadError(None, "Cannot find parameter " + pname)
  }

  /** `getAlgoInput` for each parameter in turn: the first that is not
      defined aborts. */
  function AlgoInputs(ss: SpaceSystem, params: seq<string>, names: seq<string>): (r: Result<seq<InputParameter>, LoadError>)
    requires |params| == |names|
    ensures r.Ok? <==> forall i :: 0 <= i < |params| ==> params[i] in ss.parameters
    ensures r.Ok? ==> |r.value| == |params| && forall i :: 0 <= i < |params| ==> r.value[i] == InputParameter(params[i], names[i])
    ensures r.Err? ==> exists i :: (0 <= i < |params| && params[i] !in ss.parameters && r.error == MissingAlgoParameter(params[i])
      && forall j :: 0 <= j < i ==> params[j] in ss.parameters)
  {
    if |params| == 0 then Ok([])
    else if params[0] !in ss.parameters then Err(MissingAlgoParameter(params[0]))
    else
      var rest :- AlgoInputs(ss, params[1..], names[1..]);
      assert forall i :: 1 <= i < |params| ==> params[i] == params[1..][i - 1];
      Ok([InputParameter(params[0], names[0])] + rest)
  }

  /** The verifier algorithm of a stage with the given input names: a Java
      algorithm checking the PUS service 1 report of the stage's code. */
  function PusAlgorithmWith(ss: SpaceSystem, ps: PusParameters, stage: string, names: seq<string>): (r: Result<Algorithm, LoadError>)
    requires |names| == 4
    ensures r.Ok? <==> forall i :: 0 <= i < 4 ==> PusInputParameters(ps)[i] in ss.parameters
    ensures r.Ok? ==>
      && r.value.name == PusAlgorithmName(stage) && r.value.language == "java"
      && r.value.text == "org.yamcs.scos2k.Pus1Verifier({stage: " + IntToString(StageCode(stage)) + "})"
      && |r.value.inputs| == 4
      && forall i :: 0 <= i < 4 ==> r.value.inputs[i] == InputParameter(PusInputParameters(ps)[i], names[i])
  {
    var inputs :- AlgoInputs(ss, PusInputParameters(ps), names);
    Ok(Algorithm(PusAlgorithmName(stage), "java",
                 "org.yamcs.scos2k.Pus1Verifier({stage: " + IntToString(StageCode(stage)) + "})", inputs))
  }

  /** The algorithm as the loader builds it: two inputs share the name
      "sentApid", so the algorithm has no input named "sentSeq" and the sent
      sequence count cannot be told from the sent apid by name. */
  function PusAlgorithmAsWritten(ss: SpaceSystem, ps: PusParameters, stage: string): (r: Result<Algorithm, LoadError>)
    ensures r.Ok? <==> forall i :: 0 <= i < 4 ==> PusInputParameters(ps)[i] in ss.parameters
    ensures r.Ok? ==> r.value.name == PusAlgorithmName(stage)
    ensures r.Ok? ==> |r.value.inputs| == 4 && r.value.inputs[0].inputName == r.value.inputs[1].inputName == "sentApid"
    ensures r.Ok? ==> |r.value.inputs| == 4 && r.value.inputs[1].param == ps.seqCount
    ensures r.Ok? ==> forall i :: 0 <= i < |r.value.inputs| ==> r.value.inputs[i].inputName != "sentSeq"
  {
    PusAlgorithmWith(ss, ps, stage, PUS_INPUT_NAMES_AS_WRITTEN)
  }

  /** The algorithm with the names corrected: every input has its own name,
      and each name reads its own parameter. */
  function PusAlgorithm(ss: SpaceSystem, ps: PusParameters, stage: string): (r: Result<Algorithm, LoadError>)
    ensures r.Ok? <==> forall i :: 0 <= i < 4 ==> PusInputParameters(ps)[i] in ss.parameters
    ensures r.Ok? ==> r.value.name == PusAlgorithmName(stage)
    ensures r.Ok? ==>
      && |r.value.inputs| == 4
      && (forall i, j :: 0 <= i < j < 4 ==> r.value.inputs[i].inputName != r.value.inputs[j].inputName)
      && r.value.inputs[1] == InputParameter(ps.seqCount, "sentSeq")
  {
    PusAlgorithmWith(ss, ps, stage, PUS_INPUT_NAMES)
  }

  /** `createPusVerifier`: an algorithm verifier of the stage, whose
      algorithm is created on first use, with the input names as the loader
      writes them, and shared by later stages of the same name. */
  function CreatePusVerifier(ss: SpaceSystem, ps: PusParameters, stage: string, window: CheckWindow)
    : (r: Result<(Verifier, SpaceSystem), LoadError>)
    ensures PusAlgorithmName(stage) in ss.algorithms ==> r.Ok? && r.value.1 == ss
    ensures r.Ok? ==> r.value.0 == Verifier(AlgorithmVerifier, stage, window, None, Some(PusAlgorithmName(stage)))
    ensures r.Ok? ==>
      && PusAlgorithmName(stage) in r.value.1.algorithms
      && r.value.1.algorithms.Keys == ss.algorithms.Keys + {PusAlgorithmName(stage)}
      && (forall n :: n in ss.algorithms ==> r.value.1.algorithms[n] == ss.algorithms[n])
      && r.value.1.SameTelemetry(ss) && r.value.1.commands == ss.commands
    ensures r.Ok? && PusAlgorithmName(stage) !in ss.algorithms ==>
      PusAlgorithmAsWritten(ss, ps, stage) == Ok(r.value.1.algorithms[PusAlgorithmName(stage)])
    ensures r.Err? ==> PusAlgorithmName(stage) !in ss.algorithms && PusAlgorithmAsWritten(ss, ps, stage).Err?
  {
    var name := PusAlgorithmName(stage);
    var v := Verifier(AlgorithmVerifier, stage, window, None, Some(name));
    if name in ss.algorithms then Ok((v, ss))
    else
      var alg :- PusAlgorithmAsWritten(ss, ps, stage);
      Ok((v, ss.(algorithms := ss.algorithms[name := alg])))
  }

  function NoCveRecord(ctx: Context, id: string): LoadError {
    MibLoadError(Some(ctx), "No CVE record found for CVS_ID=" + id)
  }

  function InvalidSource(ctx: Context, source: string): LoadError {
    MibLoadError(Some(ctx), "Invalid value '" + source + "' for CVS_SOURCE. Expected R or V")
  }

  /** The uncertainty used when a stage gives none: the loader's field for
      it is never assigned, so it keeps Java's default of zero. */
  const UNCERTAINTY_PERIOD: int := 0

  /** The mandatory columns of a CVS row are there and its numbers parse. */
  predicate CvsColumns(line: seq<string>) {
    && IDX_CVS_INTERVAL < |line|
    && ParseInt(line[IDX_CVS_START]).Some? && ParseInt(line[IDX_CVS_INTERVAL]).Some?
    && (HasColumn(line, IDX_CVS_UNCERTAINTY) ==> ParseInt(line[IDX_CVS_UNCERTAINTY]).Some?)
  }

  /** The verifier of a CVS row, read from the row alone: the PUS algorithm
      verifier of the stage for "R", a parameter verifier of the CVS type
      otherwise; the window from the start, interval and uncertainty, the
      last zero when absent. */
  function CvsVerifier(line: seq<string>): Verifier
    requires CvsColumns(line)
  {
    var uncertainty := if HasColumn(line, IDX_CVS_UNCERTAINTY) then ParseInt(line[IDX_CVS_UNCERTAINTY]).value else UNCERTAINTY_PERIOD;
    var window := Window(ParseInt(line[IDX_CVS_START]).value, ParseInt(line[IDX_CVS_INTERVAL]).value, uncertainty);
    var stage := StageName(line[IDX_CVS_TYPE]);
    if line[IDX_CVS_SOURCE] == "R" then Verifier(AlgorithmVerifier, stage, window, None, Some(PusAlgorithmName(stage)))
    else Verifier(ContainerVerifier, line[IDX_CVS_TYPE], window, None, None)
  }

  /** One CVS row: a stage checked by the PUS service 1 report ("R"), or by
      parameter expressions ("V"), which must exist in the CVE table. A
      parameter stage keeps the CVS type as its stage name and carries no
      expression. */
  function CvsRow(ss: SpaceSystem, pus: PusParameters, conditions: map<string, seq<MatchCriteria>>, ctx: Context, line: seq<string>)
    : (r: Result<((string, Verifier), SpaceSystem), LoadError>)
    ensures r.Ok? ==> CvsColumns(line) && r.value.0 == (line[IDX_CVS_ID], CvsVerifier(line))
    ensures r.Ok? ==> line[IDX_CVS_SOURCE] in {"R", "V"} && VerifierResolved(r.value.1, conditions, line[IDX_CVS_ID], r.value.0.1)
    ensures r.Ok? && line[IDX_CVS_SOURCE] == "V" ==> r.value.1 == ss
    ensures r.Ok? ==>
      && r.value.1.SameTelemetry(ss) && r.value.1.commands == ss.commands
      && ss.algorithms.Keys <= r.value.1.algorithms.Keys
      && (forall n :: n in ss.algorithms ==> r.value.1.algorithms[n] == ss.algorithms[n])
    ensures (&& IDX_CVS_INTERVAL < |line| && GetInt(ctx, line, IDX_CVS_START).Ok? && GetInt(ctx, line, IDX_CVS_INTERVAL).Ok?
             && GetIntOr(ctx, line, IDX_CVS_UNCERTAINTY, UNCERTAINTY_PERIOD).Ok? && line[IDX_CVS_SOURCE] !in {"R", "V"}) ==>
      r == Err(InvalidSource(ctx, line[IDX_CVS_SOURCE]))
  {
    var cols := [IDX_CVS_ID, IDX_CVS_TYPE, IDX_CVS_SOURCE, IDX_CVS_START, IDX_CVS_INTERVAL];
    var _ :- CheckMandatory(ctx, line, cols);
    assert cols[4] < |line|;
    var id := line[IDX_CVS_ID];
    var source := line[IDX_CVS_SOURCE];
    var start :- GetInt(ctx, line, IDX_CVS_START);
    var interval :- GetInt(ctx, line, IDX_CVS_INTERVAL);
    var uncertainty :- GetIntOr(ctx, line, IDX_CVS_UNCERTAINTY, UNCERTAINTY_PERIOD);
    var stype := line[IDX_CVS_TYPE];
    var window := Window(start, interval, uncertainty);
    if source == "R" then
      var (v, ss1) :- CreatePusVerifier(ss, pus, StageName(stype), window);
      Ok(((id, v), ss1))
    else if source == "V" then
      if id !in conditions then Err(NoCveRecord(ctx, id))
      else Ok(((id, Verifier(ContainerVerifier, stype, window, None, None)), ss))
    else Err(InvalidSource(ctx, source))
  }

  /** Every algorithm verifier names an algorithm of the space system, and
      every parameter verifier a stage with CVE expressions. */
  predicate VerifierResolved(ss: SpaceSystem, conditions: map<string, seq<MatchCriteria>>, id: string, v: Verifier) {
    && (v.kind == AlgorithmVerifier ==> v.algorithm.Some? && v.algorithm.value in ss.algorithms)
    && (v.kind == ContainerVerifier ==> id in conditions)
  }

  /** The first `n` pairs are those of the first `n` CVS rows: each row's
      id with the row's verifier, resolved in `ss`. */
  predicate CvsPairs(t: Table, ss: SpaceSystem, conditions: map<string, seq<MatchCriteria>>,
                     pairs: seq<(string, Verifier)>, n: nat) {
    && n <= |t.lines| && |pairs| == n
    && forall i :: 0 <= i < n ==>
         CvsColumns(t.lines[i].fields) && pairs[i] == (t.lines[i].fields[IDX_CVS_ID], CvsVerifier(t.lines[i].fields))
         && VerifierResolved(ss, conditions, pairs[i].0, pairs[i].1)
  }

  /** The pair of the next row extends the prefix, and the algorithms it
      adds keep the earlier verifiers resolved. */
  lemma CvsPairsStep(t: Table, ss: SpaceSystem, pus: PusParameters, conditions: map<string, seq<MatchCriteria>>,
                     prev: (seq<(string, Verifier)>, SpaceSystem), n: nat, step: ((string, Verifier), SpaceSystem))
    requires n < |t.lines| && CvsLoaded(ss, conditions, t, prev, n)
    requires CvsRow(prev.1, pus, conditions, t.At(n), t.lines[n].fields) == Ok(step)
    ensures CvsLoaded(ss, conditions, t, (prev.0 + [step.0], step.1), n + 1)
  {
  }

  /** `res` holds the pairs of the first `n` CVS rows, and its space system
      is `ss` with only algorithms added. */
  predicate CvsLoaded(ss: SpaceSystem, conditions: map<string, seq<MatchCriteria>>, t: Table,
                      res: (seq<(string, Verifier)>, SpaceSystem), n: nat) {
    && res.1.SameTelemetry(ss) && res.1.commands == ss.commands && ss.algorithms.Keys <= res.1.algorithms.Keys
    && CvsPairs(t, res.1, conditions, res.0, n)
  }

  /** The CVS rows up to `n`, threading the algorithms they create. */
  function LoadCvsUpTo(ss: SpaceSystem, pus: PusParameters, conditions: map<string, seq<MatchCriteria>>, t: Table, n: nat)
    : (r: Result<(seq<(string, Verifier)>, SpaceSystem), LoadError>)
    requires n <= |t.lines|
    ensures r.Ok? ==> CvsLoaded(ss, conditions, t, r.value, n)
  {
    if n == 0 then Ok(([], ss))
    else
      var prev :- LoadCvsUpTo(ss, pus, conditions, t, n - 1);
      CvsNext(ss, pus, conditions, t, prev, n - 1)
  }

  /** Row `n` of the CVS table after the rows before it. */
  function CvsNext(ss: SpaceSystem, pus: PusParameters, conditions: map<string, seq<MatchCriteria>>, t: Table,
                   prev: (seq<(string, Verifier)>, SpaceSystem), n: nat)
    : (r: Result<(seq<(string, Verifier)>, SpaceSystem), LoadError>)
    requires n < |t.lines| && CvsLoaded(ss, conditions, t, prev, n)
    ensures r.Ok? ==> CvsLoaded(ss, conditions, t, r.value, n + 1)
  {
    var step :- CvsRow(prev.1, pus, conditions, t.At(n), t.lines[n].fields);
    CvsPairsStep(t, ss, pus, conditions, prev, n, step);
    Ok((prev.0 + [step.0], step.1))
  }

  /** `loadCvs`: the stages by id, a later row replacing an earlier one,
      with the verifier algorithms they need added to the space system. */
  function LoadCvs(ss: SpaceSystem, pus: PusParameters, conditions: map<string, seq<MatchCriteria>>, t: Table)
    : (r: Result<(map<string, Verifier>, SpaceSystem), LoadError>)
    ensures r.Ok? ==>
      && r.value.1.SameTelemetry(ss) && r.value.1.commands == ss.commands
      && ss.algorithms.Keys <= r.value.1.algorithms.Keys
    ensures r.Ok? ==> forall id :: id in r.value.0 <==> CvsNames(t, id)
    ensures r.Ok? ==> forall id :: id in r.value.0 ==> VerifierResolved(r.value.1, conditions, id, r.value.0[id])
    ensures r.Ok? ==> forall id :: id in r.value.0 ==> LastCvsRow(t, id, r.value.0[id])
  {
    var res :- LoadCvsUpTo(ss, pus, conditions, t, |t.lines|);
    CvsMap(res.0, t, res.1, conditions);
    Ok((ToMap(res.0), res.1))
  }

  /** Some row of the CVS table defines stage `id`. */
  ghost predicate CvsNames(t: Table, id: string) {
    exists i :: 0 <= i < |t.lines| && IDX_CVS_ID < |t.lines[i].fields| && t.lines[i].fields[IDX_CVS_ID] == id
  }

  /** `v` is the verifier of the last CVS row of id `id`. */
  ghost predicate LastCvsRow(t: Table, id: string, v: Verifier) {
    exists i :: 0 <= i < |t.lines| && CvsColumns(t.lines[i].fields) && t.lines[i].fields[IDX_CVS_ID] == id
      && v == CvsVerifier(t.lines[i].fields)
      && forall j :: i < j < |t.lines| && IDX_CVS_ID < |t.lines[j].fields| ==> t.lines[j].fields[IDX_CVS_ID] != id
  }

  /** The map of the pairs holds the ids of the rows, each resolved, and
      maps each to the verifier of its last row. */
  lemma CvsMap(pairs: seq<(string, Verifier)>, t: Table, ss: SpaceSystem, conditions: map<string, seq<MatchCriteria>>)
    requires CvsPairs(t, ss, conditions, pairs, |t.lines|)
    ensures forall id :: id in ToMap(pairs) <==> CvsNames(t, id)
    ensures forall id :: id in ToMap(pairs) ==> VerifierResolved(ss, conditions, id, ToMap(pairs)[id])
    ensures forall id :: id in ToMap(pairs) ==> LastCvsRow(t, id, ToMap(pairs)[id])
  {
    forall id ensures id in ToMap(pairs) <==> CvsNames(t, id) {
      CvsMapHas(pairs, t, id);
    }
    CvsMapResolved(pairs, ss, conditions);
    forall id | id in ToMap(pairs) ensures LastCvsRow(t, id, ToMap(pairs)[id]) {
      ToMapFromLast(pairs, id);
      var i :| 0 <= i < |pairs| && pairs[i] == (id, ToMap(pairs)[id]) && forall j :: i < j < |pairs| ==> pairs[j].0 != id;
      CvsMapLast(pairs, t, id, i);
    }
  }

  /** The last pair of an id is that of its last row. */
  lemma CvsMapLast(pairs: seq<(string, Verifier)>, t: Table, id: string, i: int)
    requires |pairs| == |t.lines| && 0 <= i < |pairs| && pairs[i].0 == id
    requires forall j :: i < j < |pairs| ==> pairs[j].0 != id
    requires forall k :: 0 <= k < |pairs| ==>
      CvsColumns(t.lines[k].fields) && pairs[k] == (t.lines[k].fields[IDX_CVS_ID], CvsVerifier(t.lines[k].fields))
    ensures LastCvsRow(t, id, pairs[i].1)
  {
    forall j | i < j < |t.lines| && IDX_CVS_ID < |t.lines[j].fields| ensures t.lines[j].fields[IDX_CVS_ID] != id {
      assert pairs[j].0 != id && pairs[j].0 == t.lines[j].fields[IDX_CVS_ID];
    }
  }

  /** Every stage of the map of resolved pairs is resolved. */
  lemma CvsMapResolved(pairs: seq<(string, Verifier)>, ss: SpaceSystem, conditions: map<string, seq<MatchCriteria>>)
    requires forall i :: 0 <= i < |pairs| ==> VerifierResolved(ss, conditions, pairs[i].0, pairs[i].1)
    ensures forall id :: id in ToMap(pairs) ==> VerifierResolved(ss, conditions, id, ToMap(pairs)[id])
  {
    forall id | id in ToMap(pairs) ensures VerifierResolved(ss, conditions, id, ToMap(pairs)[id]) {
      CvsResolvedAt(pairs, ss, conditions, id);
    }
  }

  lemma {:induction false} CvsMapHas(pairs: seq<(string, Verifier)>, t: Table, id: string)
    requires |pairs| == |t.lines|
    requires forall i :: 0 <= i < |pairs| ==> IDX_CVS_ID < |t.lines[i].fields| && pairs[i].0 == t.lines[i].fields[IDX_CVS_ID]
    ensures id in ToMap(pairs) <==> CvsNames(t, id)
  {
    if id in ToMap(pairs) {
      ToMapFromLast(pairs, id);
    }
    if CvsNames(t, id) {
      CvsNamedHas(pairs, t, id);
    }
  }

  lemma {:induction false} CvsNamedHas(pairs: seq<(string, Verifier)>, t: Table, id: string)
    requires |pairs| == |t.lines|
    requires forall i :: 0 <= i < |pairs| ==> IDX_CVS_ID < |t.lines[i].fields| && pairs[i].0 == t.lines[i].fields[IDX_CVS_ID]
    requires CvsNames(t, id)
    ensures id in ToMap(pairs)
  {
    var i :| 0 <= i < |t.lines| && IDX_CVS_ID < |t.lines[i].fields| && t.lines[i].fields[IDX_CVS_ID] == id;
    ToMapHas(pairs, i);
  }

  lemma CvsResolvedAt(pairs: seq<(string, Verifier)>, ss: SpaceSystem, conditions: map<string, seq<MatchCriteria>>, id: string)
    requires forall i :: 0 <= i < |pairs| ==> VerifierResolved(ss, conditions, pairs[i].0, pairs[i].1)
    requires id in ToMap(pairs)
    ensures VerifierResolved(ss, conditions, id, ToMap(pairs)[id])
  {
    ToMapFromLast(pairs, id);
  }

  // ---------------------------------------------------------------------------
  // CVP: verification profiles

  const IDX_CVP_TASK: nat := 0
  const IDX_CVP_TYPE: nat := 1
  const IDX_CVP_CVSID: nat := 2

  function UnknownTask(ctx: Context, task: string): LoadError {
    MibLoadError(Some(ctx), "Verifier profile reference to unknown command CVP_TASK=" + task)
  }

  /** A profile of a command ("C"); other profile types are skipped. */
  predicate IsCommandProfile(line: seq<string>) {
    GetString(line, IDX_CVP_TYPE, "C") == "C"
  }

  /** A CVP row is accepted iff it is complete and, when it is a command
      profile, names a command. */
  predicate CvpAccepted(commands: set<string>, line: seq<string>) {
    IDX_CVP_CVSID < |line| && (IsCommandProfile(line) ==> line[IDX_CVP_TASK] in commands)
  }

  /** The verifiers one profile row gives command `c`. */
  function RowVerifiers(verifiers: map<string, Verifier>, line: seq<string>, c: string): seq<Verifier>
    requires IDX_CVP_CVSID < |line|
  {
    if IsCommandProfile(line) && line[IDX_CVP_TASK] == c && line[IDX_CVP_CVSID] in verifiers
    then [verifiers[line[IDX_CVP_CVSID]]] else []
  }

  /** The reference: the verifiers the first `n` profiles give command `c`,
      in file order. A profile naming an unknown stage gives none. */
  function ProfileVerifiers(t: Table, verifiers: map<string, Verifier>, c: string, n: nat): (r: seq<Verifier>)
    requires n <= |t.lines|
    requires forall i :: 0 <= i < n ==> IDX_CVP_CVSID < |t.lines[i].fields|
  {
    if n == 0 then []
    else ProfileVerifiers(t, verifiers, c, n - 1) + RowVerifiers(verifiers, t.lines[n - 1].fields, c)
  }

  function WithVerifiers(mc: MetaCommand, vs: seq<Verifier>): MetaCommand {
    mc.(verifiers := mc.verifiers + vs)
  }

  /** One CVP row: the stage's verifier appended to the command's. */
  function CvpRow(ss: SpaceSystem, verifiers: map<string, Verifier>, ctx: Context, line: seq<string>): (r: Result<SpaceSystem, LoadError>)
    ensures r.Ok? <==> CvpAccepted(ss.commands.Keys, line)
    ensures IDX_CVP_CVSID < |line| && IsCommandProfile(line) && line[IDX_CVP_TASK] !in ss.commands ==>
      r == Err(UnknownTask(ctx, line[IDX_CVP_TASK]))
    ensures r.Ok? ==>
      && r.value.SameTelemetry(ss) && r.value.algorithms == ss.algorithms
      && r.value.commands.Keys == ss.commands.Keys && r.value.name == ss.name
    ensures r.Ok? ==> forall c :: c in ss.commands ==>
      r.value.commands[c] == WithVerifiers(ss.commands[c], RowVerifiers(verifiers, line, c))
  {
    var cols := [IDX_CVP_TASK, IDX_CVP_CVSID];
    var _ :- CheckMandatory(ctx, line, cols);
    assert cols[1] < |line|;
    if !IsCommandProfile(line) then Ok(ss)
    else
      var task := line[IDX_CVP_TASK];
      if task !in ss.commands then Err(UnknownTask(ctx, task))
      else if line[IDX_CVP_CVSID] !in verifiers then Ok(ss)
      else
        var mc := ss.commands[task];
        Ok(ss.UpdateCommand(task, WithVerifiers(mc, [verifiers[line[IDX_CVP_CVSID]]])))
  }

  /** Every command of `ss0` holds in `ss` its verifiers followed by those
      the first `n` profiles give it. */
  predicate Profiled(ss0: SpaceSystem, ss: SpaceSystem, verifiers: map<string, Verifier>, t: Table, n: nat)
    requires n <= |t.lines|
    requires forall i :: 0 <= i < n ==> IDX_CVP_CVSID < |t.lines[i].fields|
  {
    && ss.commands.Keys == ss0.commands.Keys
    && forall c :: c in ss0.commands ==> ss.commands[c] == WithVerifiers(ss0.commands[c], ProfileVerifiers(t, verifiers, c, n))
  }

  lemma ProfiledStep(ss0: SpaceSystem, ss1: SpaceSystem, ss2: SpaceSystem, verifiers: map<string, Verifier>, t: Table, n: nat)
    requires 0 < n <= |t.lines|
    requires forall i :: 0 <= i < n ==> IDX_CVP_CVSID < |t.lines[i].fields|
    requires Profiled(ss0, ss1, verifiers, t, n - 1)
    requires CvpRow(ss1, verifiers, t.At(n - 1), t.lines[n - 1].fields) == Ok(ss2)
    ensures Profiled(ss0, ss2, verifiers, t, n)
  {
    forall c | c in ss0.commands
      ensures ss2.commands[c] == WithVerifiers(ss0.commands[c], ProfileVerifiers(t, verifiers, c, n))
    {
      var row := RowVerifiers(verifiers, t.lines[n - 1].fields, c);
      assert ProfileVerifiers(t, verifiers, c, n) == ProfileVerifiers(t, verifiers, c, n - 1) + row;
      assert ss2.commands[c] == WithVerifiers(ss1.commands[c], row);
    }
  }

  /** The CVP rows up to `n`: each command ends with its verifiers followed
      by those its profiles give it. */
  function LoadCvpUpTo(ss: SpaceSystem, verifiers: map<string, Verifier>, t: Table, n: nat): (r: Result<SpaceSystem, LoadError>)
    requires n <= |t.lines|
    ensures r.Ok? <==> forall i :: 0 <= i < n ==> CvpAccepted(ss.commands.Keys, t.lines[i].fields)
    ensures r.Ok? ==> r.value.SameTelemetry(ss) && r.value.algorithms == ss.algorithms && r.value.name == ss.name
    ensures r.Ok? ==> Profiled(ss, r.value, verifiers, t, n)
  {
    if n == 0 then Ok(ss)
    else
      var ss1 :- LoadCvpUpTo(ss, verifiers, t, n - 1);
      var r := CvpRow(ss1, verifiers, t.At(n - 1), t.lines[n - 1].fields);
      if r.Ok? then
        ProfiledStep(ss, ss1, r.value, verifiers, t, n);
        r
      else r
  }

  /** `loadCvp`, with the stages of `loadCvs` and the expressions of
      `loadCve` read first. */
  function LoadCvp(ss: SpaceSystem, pus: PusParameters, cve: Table, cvs: Table, cvp: Table): (r: Result<SpaceSystem, LoadError>)
    ensures r.Ok? ==>
      && r.value.SameTelemetry(ss) && r.value.commands.Keys == ss.commands.Keys
      && ss.algorithms.Keys <= r.value.algorithms.Keys
    ensures r.Ok? ==>
      && LoadCve(ss, cve).Ok? && LoadCvs(ss, pus, LoadCve(ss, cve).value, cvs).Ok?
      && (forall i :: 0 <= i < |cvp.lines| ==> IDX_CVP_CVSID < |cvp.lines[i].fields|)
      && Profiled(ss, r.value, LoadCvs(ss, pus, LoadCve(ss, cve).value, cvs).value.0, cvp, |cvp.lines|)
  {
    var conditions :- LoadCve(ss, cve);
    var res :- LoadCvs(ss, pus, conditions, cvs);
    LoadCvpUpTo(res.1, res.0, cvp, |cvp.lines|)
  }
}
