/** Shared pieces of the MIB compiler: the load error, the (PTC, PFC) to
    encoding resolver, the embedded PUS packet layout, container naming, the
    shared unsigned integer types and the root PUS container. */
module MibLoaderBits {
  import opened Wrappers
  import opened Text
  import opened Mdb
  import opened JavaInt

  // ---------------------------------------------------------------------------
  // Errors

  /** File name and physical line number current when an error is raised. */
  datatype Context = Context(file: string, lineNum: int)

  /** A `MibLoadException`, or a Java runtime exception escaping a loader
      (number format, missing array index, null dereference, illegal argument). */
  datatype LoadError =
    | MibLoadError(ctx: Option<Context>, msg: string)
    | RuntimeError(msg: string)
  {
    /** `MibLoadException.toString`: `file:line: message` when a context is known. */
    function ToString(): (s: string)
      ensures MibLoadError? && ctx.Some? ==> StartsWith(s, ctx.value.file + ":")
      ensures MibLoadError? && ctx.Some? ==> |s| > |msg| && s[|s| - |msg|..] == msg
      ensures !(MibLoadError? && ctx.Some?) ==> s == msg
    {
      match this
      case MibLoadError(Some(c), m) =>
        var s := c.file + ":" + IntToString(c.lineNum) + ": " + m;
        assert s[..|c.file + ":"|] == c.file + ":";
        assert s[|s| - |m|..] == m;
        s
      case MibLoadError(None, m) => m
      case RuntimeError(m) => m
    }
  }

  /** The line number is part of the printed error: two errors of the same
      file and message on different lines print differently. */
  lemma ToStringLineNumber(file: string, l1: int, l2: int, msg: string)
    requires l1 != l2
    ensures MibLoadError(Some(Context(file, l1)), msg).ToString() != MibLoadError(Some(Context(file, l2)), msg).ToString()
  {
    var a, b := file + ":", ": " + msg;
    var d1, d2 := IntToString(l1), IntToString(l2);
    var s1, s2 := a + d1 + b, a + d2 + b;
    assert MibLoadError(Some(Context(file, l1)), msg).ToString() == s1;
    assert MibLoadError(Some(Context(file, l2)), msg).ToString() == s2;
    if s1 == s2 {
      assert s1[|a|..|s1| - |b|] == d1;
      assert s2[|a|..|s2| - |b|] == d2;
      var lo, hi := if l1 < l2 then l1 else l2, if l1 < l2 then l2 else l1;
      IntToStringRoundTrip(l1, lo, hi);
      IntToStringRoundTrip(l2, lo, hi);
      assert false;
    }
  }

  function Fail(ctx: Option<Context>, msg: string): LoadError {
    MibLoadError(ctx, msg)
  }

  /** A null dereference in the loader. */
  function NullPointer(): LoadError {
    RuntimeError("java.lang.NullPointerException")
  }

  /** A failed down-cast in the loader. */
  function ClassCast(): LoadError {
    RuntimeError("java.lang.ClassCastException")
  }

  // ---------------------------------------------------------------------------
  // Constants

  /** Bit widths of the CUC/CDS time formats of PTC 9 and 10, indexed by PFC. */
  const PTC9_10_SIZE_IN_BITS: seq<int> :=
    [-1, 48, 64, 8, 16, 24, 32, 16, 24, 32, 40, 24, 32, 40, 48, 32, 40, 48, 56]

  const PARA_NAME_APID: string := "ccsds_apid"
  const PARA_NAME_PUS_TYPE: string := "pus_type"
  const PARA_NAME_PUS_STYPE: string := "pus_stype"
  const CONTAINER_NAME_ROOT: string := "ccsds-pus"

  // ---------------------------------------------------------------------------
  // Encoding resolver

  /** The (PTC, PFC, size-tag bytes) combinations the resolver accepts. */
  predicate KnownPtcPfc(ptc: int, pfc: int, vplb: int) {
    (ptc == 1 && pfc == 0)
    || ptc == 2
    || ((ptc == 3 || ptc == 4) && pfc <= 16)
    || (ptc == 5 && 1 <= pfc <= 4)
    || (ptc == 6 && 1 <= pfc <= 64)
    || ((ptc == 7 || ptc == 8) && (pfc > 0 || (pfc == 0 && vplb >= 0)))
    || (ptc == 9 && (0 <= pfc <= 18 || pfc == 30))
    || (ptc == 10 && 3 <= pfc <= 18)
    || ptc == 11 || ptc == 12
  }

  /** Integer width of PTC 3/4 for a PFC of at most 16. */
  function Ptc34Width(pfc: int): int
    requires pfc <= 16
  {
    if pfc < 13 then pfc + 4
    else [24, 32, 48, 64][pfc - 13]
  }

  function UnknownTypeMsg(ptc: int, pfc: int): string {
    "Unknown parameter type (ptc,pfc): (" + IntToString(ptc) + "," + IntToString(pfc) + ")"
  }

  /** `getDataEncoding`: the encoding for a (PTC, PFC) pair; `None` for the
      deduced (11) and embedded-packet (12) types that carry no encoding. */
  function GetDataEncoding(ctx: Option<Context>, ptc: int, pfc: int, vplb: int): (r: Result<Option<DataEncoding>, LoadError>)
    ensures r.Ok? <==> KnownPtcPfc(ptc, pfc, vplb)
    ensures r.Ok? ==> (r.value.None? <==> ptc == 11 || ptc == 12)
    ensures r.Ok? && r.value.Some? ==>
      var e := r.value.value;
      && (e.IntegerEncoding? <==> ptc in {1, 2, 3, 4, 6})
      && (e.FloatEncoding? <==> ptc == 5)
      && (e.BinaryEncoding? <==> ptc in {7, 9, 10})
      && (e.StringEncoding? <==> ptc == 8)
    ensures r.Ok? && ptc == 1 ==> r.value == Some(IntegerEncoding(1, None))
    ensures r.Ok? && (ptc == 2 || ptc == 6) ==> r.value == Some(IntegerEncoding(pfc, Some(Unsigned)))
    ensures r.Ok? && (ptc == 7 || ptc == 8) && pfc > 0 ==>
      r.value == Some(if ptc == 7 then BinaryEncoding(FixedSize, Some(Wrap32(pfc * 8)), None, None)
                      else StringEncoding(FixedSize, Some(Wrap32(pfc * 8)), None))
    ensures r.Ok? && (ptc == 3 || ptc == 4) ==>
      r.value == Some(IntegerEncoding(Ptc34Width(pfc), Some(if ptc == 3 then Unsigned else TwosComplement)))
    ensures r.Ok? && ptc == 5 ==>
      r.value.value.floatBits == [32, 64, 32, 48][pfc - 1]
      && (r.value.value.floatCoding == Ieee754 <==> pfc <= 2)
    ensures r.Ok? && (ptc == 9 || ptc == 10) ==>
      r.value.value.binSize == CustomSize
      && r.value.value.binBits == Some(if pfc == 30 then 64 else PTC9_10_SIZE_IN_BITS[pfc])
    ensures r.Ok? && (ptc == 7 || ptc == 8) && pfc == 0 ==>
      var e := r.value.value;
      (if ptc == 7 then e == BinaryEncoding(LeadingSize, None, Some(Wrap32(8 * vplb)), None)
       else e == StringEncoding(LeadingSize, None, Some(Wrap32(8 * vplb))))
    ensures r.Err? && (ptc == 7 || ptc == 8) && pfc == 0 ==>
      r.error == Fail(ctx, "Invalid size of the size tag (vplb) '" + IntToString(vplb) + "'")
  {
    if ptc == 1 then
      if pfc == 0 then Ok(Some(IntegerEncoding(1, None)))
      else Err(Fail(ctx, UnknownTypeMsg(ptc, pfc)))
    else if ptc == 2 then
      // the guard `pfc > 1 || pfc < 33` of the source holds for every pfc
      Ok(Some(IntegerEncoding(pfc, Some(Unsigned))))
    else if ptc == 3 || ptc == 4 then
      if pfc > 16 then
        Err(Fail(ctx, "Unknown parameter type (" + IntToString(ptc) + "," + IntToString(pfc) + ")"))
      else
        Ok(Some(IntegerEncoding(Ptc34Width(pfc), Some(if ptc == 3 then Unsigned else TwosComplement))))
    else if ptc == 5 then
      if pfc == 1 then Ok(Some(FloatEncoding(32, Ieee754)))
      else if pfc == 2 then Ok(Some(FloatEncoding(64, Ieee754)))
      else if pfc == 3 then Ok(Some(FloatEncoding(32, MilStd1750a)))
      else if pfc == 4 then Ok(Some(FloatEncoding(48, MilStd1750a)))
      else Err(Fail(ctx, "Unknown parameter type (" + IntToString(ptc) + "," + IntToString(pfc) + ")"))
    else if ptc == 6 then
      if pfc < 1 || pfc > 64 then Err(Fail(ctx, UnknownTypeMsg(ptc, pfc)))
      else Ok(Some(IntegerEncoding(pfc, Some(Unsigned))))
    else if ptc == 7 || ptc == 8 then
      if pfc < 0 then Err(Fail(ctx, UnknownTypeMsg(ptc, pfc)))
      else if pfc == 0 then
        if vplb < 0 then Err(Fail(ctx, "Invalid size of the size tag (vplb) '" + IntToString(vplb) + "'"))
        else if ptc == 7 then Ok(Some(BinaryEncoding(LeadingSize, None, Some(Wrap32(8 * vplb)), None)))
        else Ok(Some(StringEncoding(LeadingSize, None, Some(Wrap32(8 * vplb)))))
      else if ptc == 7 then Ok(Some(BinaryEncoding(FixedSize, Some(Wrap32(pfc * 8)), None, None)))
      else Ok(Some(StringEncoding(FixedSize, Some(Wrap32(pfc * 8)), None)))
    else if ptc == 9 then
      if pfc < 0 || (pfc > 18 && pfc != 30) then Err(Fail(ctx, UnknownTypeMsg(ptc, pfc)))
      else
        var algo := Algorithm("absolute_cuc_" + IntToString(ptc) + "_" + IntToString(pfc), "java",
          "org.yamcs.scos2k.TimeDecoder({'ptc':" + IntToString(ptc) + ", 'pfc':" + IntToString(pfc) + "})", []);
        var bits := if pfc == 30 then 64 else PTC9_10_SIZE_IN_BITS[pfc];
        Ok(Some(BinaryEncoding(CustomSize, Some(bits), None, Some(algo))))
    else if ptc == 10 then
      if pfc < 3 || pfc > 18 then Err(Fail(ctx, UnknownTypeMsg(ptc, pfc)))
      else
        var algo := Algorithm("relative_cuc_" + IntToString(ptc) + "_" + IntToString(pfc), "java",
          "bububu relative cuc " + IntToString(ptc) + ", " + IntToString(pfc), []);
        Ok(Some(BinaryEncoding(CustomSize, Some(PTC9_10_SIZE_IN_BITS[pfc]), None, Some(algo))))
    else if ptc == 11 || ptc == 12 then
      Ok(None)
    else
      Err(Fail(ctx, UnknownTypeMsg(ptc, pfc)))
  }

  /** Every PTC 3/4 width is PFC+4 below PFC 13 and a whole number of bytes from
      PFC 13 up; the widths grow with PFC. */
  lemma Ptc34WidthMonotone(p: int, q: int)
    requires p <= q <= 16
    ensures Ptc34Width(p) <= Ptc34Width(q)
    ensures 13 <= q ==> Ptc34Width(q) % 8 == 0
  {
  }

  /** The resolved PTC 9/10 widths are positive except PTC 9 PFC 0, whose table
      entry is -1. */
  lemma TimeEncodingWidth(ptc: int, pfc: int, vplb: int)
    requires ptc == 9 || ptc == 10
    requires GetDataEncoding(None, ptc, pfc, vplb).Ok?
    ensures var bits := GetDataEncoding(None, ptc, pfc, vplb).value.value.binBits.value;
      bits == -1 <==> (ptc == 9 && pfc == 0)
  {
  }

  /** The fixed PTC 7/8 size is PFC bytes in bits while that fits a Java int;
      from PFC 2^28 the `int` product wraps, to -2^31 first. */
  lemma FixedSizeWraps(ptc: int, pfc: int)
    requires ptc == 7 || ptc == 8
    requires 0 < pfc
    ensures var e := GetDataEncoding(None, ptc, pfc, 0).value.value;
      var bits := if ptc == 7 then e.binBits.value else e.strBits.value;
      && (pfc < TWO_31 / 8 ==> bits == 8 * pfc)
      && (pfc == TWO_31 / 8 ==> bits == -TWO_31)
  {
  }

  // ---------------------------------------------------------------------------
  // Embedded PUS packets (PTC 12)

  const CCSDS_MEMBERS: seq<Member> := [
    Member("ccsds_version", 3), Member("ccsds_packettype", 1), Member("ccsds_shflag", 1),
    Member(PARA_NAME_APID, 11), Member("ccsds_seqcount", 16), Member("ccsds_length", 16)]

  const TM_MEMBERS: seq<Member> := [
    Member("pus_version", 4), Member("pus_time_ref", 4), Member(PARA_NAME_PUS_TYPE, 8),
    Member(PARA_NAME_PUS_STYPE, 8), Member("pus_counter", 16), Member("pus_destination_id", 16),
    Member("pus_time", 64)]

  const TC_MEMBERS: seq<Member> := [
    Member("pus_version", 4), Member("pus_ackflags", 4), Member(PARA_NAME_PUS_TYPE, 8),
    Member(PARA_NAME_PUS_STYPE, 8), Member("pus_source_id", 16)]

  function TotalBits(ms: seq<Member>): int {
    if |ms| == 0 then 0 else ms[0].bits + TotalBits(ms[1..])
  }

  lemma TotalBitsAppend(a: seq<Member>, b: seq<Member>)
    ensures TotalBits(a + b) == TotalBits(a) + TotalBits(b)
  {
    if |a| > 0 {
      assert (a + b)[1..] == a[1..] + b;
      TotalBitsAppend(a[1..], b);
    } else {
      assert a + b == b;
    }
  }

  /** `addPtc12Members`: the CCSDS primary header followed by the PUS TM
      (PFC 0) or TC (otherwise) data field header. */
  function Ptc12Members(pfc: int): (r: seq<Member>)
    ensures |r| == if pfc == 0 then 13 else 11
    ensures r[..6] == CCSDS_MEMBERS
    ensures forall i :: 0 <= i < |r| ==> 1 <= r[i].bits <= 64
  {
    if pfc == 0 then CCSDS_MEMBERS + TM_MEMBERS else CCSDS_MEMBERS + TC_MEMBERS
  }

  lemma CcsdsBits()
    ensures TotalBits(CCSDS_MEMBERS) == 48
  {
    var m := CCSDS_MEMBERS;
    assert TotalBits(m[5..]) == 16 + TotalBits(m[6..]);
    assert TotalBits(m[4..]) == 16 + TotalBits(m[5..]);
    assert TotalBits(m[3..]) == 11 + TotalBits(m[4..]);
    assert TotalBits(m[2..]) == 1 + TotalBits(m[3..]);
    assert TotalBits(m[1..]) == 1 + TotalBits(m[2..]);
  }

  lemma TmBits()
    ensures TotalBits(TM_MEMBERS) == 120
  {
    var m := TM_MEMBERS;
    assert TotalBits(m[6..]) == 64 + TotalBits(m[7..]);
    assert TotalBits(m[5..]) == 16 + TotalBits(m[6..]);
    assert TotalBits(m[4..]) == 16 + TotalBits(m[5..]);
    assert TotalBits(m[3..]) == 8 + TotalBits(m[4..]);
    assert TotalBits(m[2..]) == 8 + TotalBits(m[3..]);
    assert TotalBits(m[1..]) == 4 + TotalBits(m[2..]);
  }

  lemma TcBits()
    ensures TotalBits(TC_MEMBERS) == 40
  {
    var m := TC_MEMBERS;
    assert TotalBits(m[4..]) == 16 + TotalBits(m[5..]);
    assert TotalBits(m[3..]) == 8 + TotalBits(m[4..]);
    assert TotalBits(m[2..]) == 8 + TotalBits(m[3..]);
    assert TotalBits(m[1..]) == 4 + TotalBits(m[2..]);
  }

  /** The embedded TM header spans 21 bytes (6 primary + 15 secondary) and the
      TC header 11 bytes (6 primary + 5 secondary). */
  lemma Ptc12HeaderBytes(pfc: int)
    ensures TotalBits(Ptc12Members(pfc)) == 8 * (if pfc == 0 then 21 else 11)
  {
    TotalBitsAppend(CCSDS_MEMBERS, if pfc == 0 then TM_MEMBERS else TC_MEMBERS);
    CcsdsBits();
    TmBits();
    TcBits();
  }

  // ---------------------------------------------------------------------------
  // Naming

  /** `getContainerName`: `pus_<apid>_<type><stype>` with two hex digits each. */
  function ContainerName(apid: int, ptype: int, stype: int): (s: string)
    requires IsJavaInt(ptype) && IsJavaInt(stype)
    ensures StartsWith(s, "pus_")
  {
    "pus_" + IntToString(apid) + "_" + Hex02(ptype) + Hex02(stype)
  }

  lemma SmallHexLength(x: int)
    requires 0 <= x <= 255
    ensures |Hex02(x)| == 2
  {
    if x >= 16 {
      assert NatToHex(x) == NatToHex(x / 16) + [DigitChar(x % 16)];
    }
  }

  /** Where the decimal apid and the two hex bytes sit in a container name. */
  lemma ContainerNameParts(a: int, t: int, st: int)
    requires IsJavaInt(a) && 0 <= t <= 255 && 0 <= st <= 255
    ensures var n := ContainerName(a, t, st); var d := IntToString(a);
      && |n| == |d| + 9
      && n[4..4 + |d|] == d
      && n[|n| - 4..|n| - 2] == Hex02(t)
      && n[|n| - 2..] == Hex02(st)
  {
    SmallHexLength(t);
    SmallHexLength(st);
  }

  /** Distinct (apid, type, subtype) triples with one-byte type and subtype get
      distinct container names. */
  lemma ContainerNameInjective(a1: int, t1: int, s1: int, a2: int, t2: int, s2: int)
    requires IsJavaInt(a1) && IsJavaInt(a2)
    requires 0 <= t1 <= 255 && 0 <= s1 <= 255 && 0 <= t2 <= 255 && 0 <= s2 <= 255
    requires ContainerName(a1, t1, s1) == ContainerName(a2, t2, s2)
    ensures a1 == a2 && t1 == t2 && s1 == s2
  {
    ContainerNameParts(a1, t1, s1);
    ContainerNameParts(a2, t2, s2);
    var n := ContainerName(a1, t1, s1);
    assert IntToString(a1) == IntToString(a2) by {
      assert n[4..4 + |IntToString(a1)|] == IntToString(a1);
    }
    IntToStringRoundTrip(a1, INT_MIN, INT_MAX);
    IntToStringRoundTrip(a2, INT_MIN, INT_MAX);
    Hex02RoundTrip(t1, 0, INT_MAX); Hex02RoundTrip(t2, 0, INT_MAX);
    Hex02RoundTrip(s1, 0, INT_MAX); Hex02RoundTrip(s2, 0, INT_MAX);
  }

  predicate IsSanitized(c: char) {
    IsRegexSpace(c) || c == '/'
  }

  /** `sanitizeName`: every whitespace character and `/` becomes `_`. */
  function SanitizeName(name: string): (r: string)
    ensures |r| == |name|
    ensures forall i :: 0 <= i < |r| ==> !IsSanitized(r[i])
    ensures forall i :: 0 <= i < |r| ==> !IsSanitized(name[i]) ==> r[i] == name[i]
  {
    if |name| == 0 then ""
    else [if IsSanitized(name[0]) then '_' else name[0]] + SanitizeName(name[1..])
  }

  /** Sanitising twice is sanitising once. */
  lemma SanitizeIdempotent(name: string)
    ensures SanitizeName(SanitizeName(name)) == SanitizeName(name)
  {
    var once := SanitizeName(name);
    var twice := SanitizeName(once);
    assert forall i :: 0 <= i < |twice| ==> twice[i] == once[i];
  }

  // ---------------------------------------------------------------------------
  // Shared unsigned integer types

  function UintTypeName(bits: int): string {
    "mib-ptype-uint" + IntToString(bits)
  }

  /** The shared `mib-ptype-uint<n>` type, unsigned with an n-bit encoding. */
  function UintType(bits: int): (t: DataType)
    ensures t.name == Some(UintTypeName(bits))
    ensures t.kind == IntegerKind(Some(false), None)
    ensures t.encoding == Some(IntegerEncoding(bits, None))
  {
    NewType(IntegerKind(Some(false), None), Some(IntegerEncoding(bits, None))).Named(UintTypeName(bits))
  }

  /** The space system with the shared type for `bits` present (left as is when
      already there), and that type. */
  function EnsureUintType(ss: SpaceSystem, bits: int): (r: (SpaceSystem, DataType))
    requires ss.WellFormed()
    ensures r.0.WellFormed() && r.1.name == Some(UintTypeName(bits))
    ensures UintTypeName(bits) in r.0.parameterTypes && r.0.parameterTypes[UintTypeName(bits)] == r.1
    ensures UintTypeName(bits) in ss.parameterTypes ==> r.0 == ss
    ensures r.0.parameterTypes.Keys == ss.parameterTypes.Keys + {UintTypeName(bits)}
    ensures forall n :: n in ss.parameterTypes ==> r.0.parameterTypes[n] == ss.parameterTypes[n]
    ensures r.0.parameters == ss.parameters && r.0.containers == ss.containers && r.0.commands == ss.commands
    ensures r.0.parameterOrder == ss.parameterOrder && r.0.containerOrder == ss.containerOrder
  {
    var n := UintTypeName(bits);
    if n in ss.parameterTypes then (ss, ss.parameterTypes[n])
    else (ss.AddParameterType(UintType(bits), n), UintType(bits))
  }

  /** `getIntegerParameterType`: rejects widths outside 1..64, otherwise reuses
      or creates the shared unsigned type. */
  function GetIntegerParameterType(ss: SpaceSystem, bits: int): (r: Result<(SpaceSystem, DataType), LoadError>)
    requires ss.WellFormed()
    ensures r.Ok? <==> 1 <= bits <= 64
    ensures r.Ok? ==> r.value == EnsureUintType(ss, bits)
  {
    if bits < 1 || bits > 64 then Err(RuntimeError("bitsize " + IntToString(bits) + " not allowed"))
    else Ok(EnsureUintType(ss, bits))
  }

  /** Asking twice for the same width adds nothing the second time. */
  lemma GetIntegerParameterTypeIdempotent(ss: SpaceSystem, bits: int)
    requires ss.WellFormed()
    requires 1 <= bits <= 64
    ensures var r1 := GetIntegerParameterType(ss, bits).value;
      GetIntegerParameterType(r1.0, bits) == Ok(r1)
  {
  }

  /** The space system with every member type of an embedded packet present. */
  function EnsureMemberTypes(ss: SpaceSystem, ms: seq<Member>): (r: SpaceSystem)
    requires ss.WellFormed()
    ensures r.WellFormed()
    requires forall i :: 0 <= i < |ms| ==> 1 <= ms[i].bits <= 64
    decreases |ms|
    ensures forall i :: 0 <= i < |ms| ==> UintTypeName(ms[i].bits) in r.parameterTypes
    ensures forall n :: n in ss.parameterTypes ==> n in r.parameterTypes && r.parameterTypes[n] == ss.parameterTypes[n]
    ensures r.parameters == ss.parameters && r.containers == ss.containers && r.commands == ss.commands
    ensures r.parameterOrder == ss.parameterOrder && r.containerOrder == ss.containerOrder
  {
    if |ms| == 0 then ss
    else EnsureMemberTypes(EnsureUintType(ss, ms[0].bits).0, ms[1..])
  }

  // ---------------------------------------------------------------------------
  // Root and level-1 PUS containers

  /** Adds a parameter of the shared unsigned type of the given width. */
  function AddUintParameter(ss: SpaceSystem, pname: string, bits: int): (r: SpaceSystem)
    requires ss.WellFormed()
    ensures r.WellFormed()
    ensures pname in r.parameters && r.parameters[pname].ptype.name == Some(UintTypeName(bits))
    ensures forall n :: n in ss.parameters && n != pname ==> n in r.parameters && r.parameters[n] == ss.parameters[n]
    ensures r.containers == ss.containers && r.containerOrder == ss.containerOrder && r.commands == ss.commands
  {
    var (ss1, t) := EnsureUintType(ss, bits);
    ss1.AddParameter(Parameter(pname, None, t, []))
  }

  function ParamEntryAt(param: string, bits: int): Entry {
    Entry(ParamEntry(param), ContainerStart, bits, None)
  }

  /** `createRootPusContainers`: the `ccsds-pus` container with the 11-bit apid
      at bit 5 and the 8-bit type and subtype at the configured byte offsets. */
  function CreateRootPusContainers(ss: SpaceSystem, typeOffset: int, subtypeOffset: int): (r: SpaceSystem)
    requires ss.WellFormed()
    ensures r.WellFormed()
    ensures CONTAINER_NAME_ROOT in r.containers
    ensures r.containers[CONTAINER_NAME_ROOT].entries == [
      ParamEntryAt(PARA_NAME_APID, 5),
      ParamEntryAt(PARA_NAME_PUS_TYPE, Wrap32(8 * typeOffset)),
      ParamEntryAt(PARA_NAME_PUS_STYPE, Wrap32(8 * subtypeOffset))]
    ensures r.containers[CONTAINER_NAME_ROOT].base.None? && r.containers[CONTAINER_NAME_ROOT].restriction.None?
    ensures PARA_NAME_APID in r.parameters && r.parameters[PARA_NAME_APID].ptype.name == Some(UintTypeName(11))
    ensures PARA_NAME_PUS_TYPE in r.parameters && r.parameters[PARA_NAME_PUS_TYPE].ptype.name == Some(UintTypeName(8))
    ensures PARA_NAME_PUS_STYPE in r.parameters && r.parameters[PARA_NAME_PUS_STYPE].ptype.name == Some(UintTypeName(8))
  {
    var root := Container(CONTAINER_NAME_ROOT, None, None, [
      ParamEntryAt(PARA_NAME_APID, 5),
      ParamEntryAt(PARA_NAME_PUS_TYPE, Wrap32(8 * typeOffset)),
      ParamEntryAt(PARA_NAME_PUS_STYPE, Wrap32(8 * subtypeOffset))]);
    var ss1 := ss.PutContainer(root);
    var ss2 := AddUintParameter(ss1, PARA_NAME_APID, 11);
    var ss3 := AddUintParameter(ss2, PARA_NAME_PUS_TYPE, 8);
    AddUintParameter(ss3, PARA_NAME_PUS_STYPE, 8)
  }

  function EqualsInt(param: string, v: int): Comparison {
    Comparison(param, false, Equality, Text(IntToString(v)))
  }

  /** `createSubcontainer`: a container based on the root and restricted to
      packets whose apid, type and subtype equal the given values. */
  function CreateSubcontainer(ss: SpaceSystem, apid: int, ptype: int, stype: int, name: string): (r: SpaceSystem)
    requires ss.WellFormed()
    ensures r.WellFormed()
    ensures name in r.containers
    ensures r.containers[name].base == Some(CONTAINER_NAME_ROOT)
    ensures r.containers[name].restriction ==
      Some([EqualsInt(PARA_NAME_APID, apid), EqualsInt(PARA_NAME_PUS_TYPE, ptype), EqualsInt(PARA_NAME_PUS_STYPE, stype)])
    ensures r.containers[name].entries == []
    ensures forall n :: n in ss.containers && n != name ==> n in r.containers && r.containers[n] == ss.containers[n]
    ensures r.parameters == ss.parameters && r.parameterTypes == ss.parameterTypes && r.commands == ss.commands
  {
    ss.PutContainer(Container(name, Some(CONTAINER_NAME_ROOT),
      Some([EqualsInt(PARA_NAME_APID, apid), EqualsInt(PARA_NAME_PUS_TYPE, ptype), EqualsInt(PARA_NAME_PUS_STYPE, stype)]),
      []))
  }

  /** A restriction written with `Integer.toString` reads back as the number
      it was built from. */
  lemma EqualsIntRoundTrip(param: string, v: int)
    requires IsJavaInt(v)
    ensures ParseInt(EqualsInt(param, v).value.text) == Some(v)
  {
    IntToStringRoundTrip(v, INT_MIN, INT_MAX);
  }
}
