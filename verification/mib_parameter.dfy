/** A monitoring parameter as the telemetry loader keeps it: its PCF row, its
    type once built, and whether it is calibrated. */
module MibParameter {
  import opened Wrappers
  import opened Text
  import opened Mdb
  import opened MonitoringData

  datatype MibParameter = MibParameter(pcf: PcfRecord, ptype: Option<DataType>, hasCalibrator: bool)
  {
    function Name(): (n: string)
      ensures n == pcf.name
    {
      pcf.name
    }

    function Ptc(): (p: int)
      ensures p == pcf.ptc
    {
      pcf.ptc
    }

    function Pfc(): (p: int)
      ensures p == pcf.pfc
    {
      pcf.pfc
    }

    predicate IsSynthetic() {
      pcf.IsSynthetic()
    }
  }

  function NewMibParameter(pcf: PcfRecord): (mp: MibParameter)
    ensures mp.pcf == pcf && mp.ptype.None? && !mp.hasCalibrator
  {
    MibParameter(pcf, None, false)
  }

  /** `StringBuilder.append` of a nullable string: a null appends "null". */
  function AppendNullable(s: Option<string>): string {
    match s
    case Some(v) => v
    case None => "null"
  }

  /** A unit with `/` and `%` removed. */
  function UnitSuffix(unit: string): (r: string)
    ensures '/' !in r && '%' !in r
    ensures forall c :: c in r ==> c in unit
  {
    RemoveChar(RemoveChar(unit, '/'), '%')
  }

  /** A prefix of `a` is a prefix of `a + b`, and `b` is what follows `a`. */
  lemma ConcatParts(a: string, b: string, p: string)
    requires StartsWith(a, p)
    ensures StartsWith(a + b, p) && (a + b)[|a|..] == b
  {
    assert (a + b)[..|p|] == a[..|p|];
  }

  /** `getTypeName`: the key under which parameters with the same typing
      columns share one type. */
  function TypeName(pcf: PcfRecord): (s: string)
    ensures StartsWith(s, "ptcpfc_")
    ensures pcf.unit.Some? ==>
      |s| > |UnitSuffix(pcf.unit.value)| && s[|s| - |UnitSuffix(pcf.unit.value)| - 1..] == "_" + UnitSuffix(pcf.unit.value)
  {
    var head := "ptcpfc_";
    var rest := IntToString(pcf.ptc) + "_" + IntToString(pcf.pfc)
      + "_" + pcf.categ + "_" + AppendNullable(pcf.natur)
      + "_" + pcf.curtx.GetOr("")
      + "_" + pcf.inter.GetOr("")
      + "_" + IntToString(pcf.vplb);
    ConcatParts(head, rest, head);
    var base := head + rest;
    match pcf.unit
    case None => base
    case Some(u) =>
      var tail := "_" + UnitSuffix(u);
      ConcatParts(base, tail, head);
      base + tail
  }

  /** The typing columns of a PCF row. */
  predicate SameTypingColumns(a: PcfRecord, b: PcfRecord) {
    a.ptc == b.ptc && a.pfc == b.pfc && a.categ == b.categ && a.natur == b.natur
    && a.curtx == b.curtx && a.inter == b.inter && a.vplb == b.vplb && a.unit == b.unit
  }

  /** Two rows that agree on the typing columns get the same type name,
      whatever their name, description, pid or other columns. */
  lemma TypeNameDeterminedByTypingColumns(a: PcfRecord, b: PcfRecord)
    requires SameTypingColumns(a, b)
    ensures TypeName(a) == TypeName(b)
  {
  }

  /** The type name tells the PTC and PFC apart: the name starts with
      `ptcpfc_<ptc>_`. */
  lemma TypeNameStartsWithPtc(pcf: PcfRecord)
    ensures StartsWith(TypeName(pcf), "ptcpfc_" + IntToString(pcf.ptc) + "_")
  {
    var p := "ptcpfc_" + IntToString(pcf.ptc) + "_";
    assert TypeName(pcf)[..|p|] == p;
  }
}
