/** The telemetry packet structure: the PIC, PID and TPCF tables, one level-1
    container per (apid, type, subtype) with one leaf per packet when several
    packets share the triple, and the fixed parameter locations of the PLF
    table. */
module TmPackets {
  import opened Wrappers
  import opened Text
  import opened JavaInt
  import opened Mdb
  import opened MibLoaderBits
  import opened BaseMibLoader
  import opened MonitoringData
  import opened Collections

  // ---------------------------------------------------------------------------
  // PIC

  const IDX_PIC_TYPE: nat := 0
  const IDX_PIC_STYPE: nat := 1
  const IDX_PIC_PI1_OFF: nat := 2
  const IDX_PIC_PI1_WID: nat := 3
  const IDX_PIC_PI2_OFF: nat := 4
  const IDX_PIC_PI2_WID: nat := 5
  const IDX_PIC_APID: nat := 6

  /** One PIC row: type, subtype and the two discriminator fields are
      mandatory integers; the apid is -1 (any apid) when absent. */
  function PicRow(ctx: Context, line: seq<string>): (r: Result<PicRecord, LoadError>)
    ensures r.Ok? <==>
      && |line| > IDX_PIC_PI2_WID
      && ParseInt(line[IDX_PIC_TYPE]).Some? && ParseInt(line[IDX_PIC_STYPE]).Some?
      && ParseInt(line[IDX_PIC_PI1_OFF]).Some? && ParseInt(line[IDX_PIC_PI1_WID]).Some?
      && ParseInt(line[IDX_PIC_PI2_OFF]).Some? && ParseInt(line[IDX_PIC_PI2_WID]).Some?
      && (HasColumn(line, IDX_PIC_APID) ==> ParseInt(line[IDX_PIC_APID]).Some?)
    ensures r.Ok? ==>
      && r.value.ptype == ParseInt(line[IDX_PIC_TYPE]).value && r.value.stype == ParseInt(line[IDX_PIC_STYPE]).value
      && r.value.pi1Offset == ParseInt(line[IDX_PIC_PI1_OFF]).value && r.value.pi1Width == ParseInt(line[IDX_PIC_PI1_WID]).value
      && r.value.pi2Offset == ParseInt(line[IDX_PIC_PI2_OFF]).value && r.value.pi2Width == ParseInt(line[IDX_PIC_PI2_WID]).value
      && r.value.apid == (if HasColumn(line, IDX_PIC_APID) then ParseInt(line[IDX_PIC_APID]).value else -1)
  {
    var cols := [IDX_PIC_TYPE, IDX_PIC_STYPE, IDX_PIC_PI1_OFF, IDX_PIC_PI1_WID, IDX_PIC_PI2_OFF, IDX_PIC_PI2_WID];
    assert CheckMandatory(ctx, line, cols).Ok? <==> |line| > IDX_PIC_PI2_WID by {
      if |line| > IDX_PIC_PI2_WID { assert forall i :: 0 <= i < |cols| ==> cols[i] < |line|; }
      else { assert !(cols[5] < |line|); }
    }
    var _ :- CheckMandatory(ctx, line, cols);
    var ptype :- GetInt(ctx, line, IDX_PIC_TYPE);
    var stype :- GetInt(ctx, line, IDX_PIC_STYPE);
    var pi1Offset :- GetInt(ctx, line, IDX_PIC_PI1_OFF);
    var pi1Width :- GetInt(ctx, line, IDX_PIC_PI1_WID);
    var pi2Offset :- GetInt(ctx, line, IDX_PIC_PI2_OFF);
    var pi2Width :- GetInt(ctx, line, IDX_PIC_PI2_WID);
    var apid :- if HasColumn(line, IDX_PIC_APID) then GetInt(ctx, line, IDX_PIC_APID) else Ok(-1);
    Ok(PicRecord(ptype, stype, apid, pi1Offset, pi1Width, pi2Offset, pi2Width))
  }

  /** `loadPic`: every row, in order. */
  function LoadPic(t: Table): Result<seq<PicRecord>, LoadError> {
    ParseRows(t, PicRow)
  }

  /** `findPic`: the first record of the type and subtype for exactly this
      apid, else the last one for any apid (-1), else none. */
  function FindPic(pics: seq<PicRecord>, ptype: int, stype: int, apid: int): (r: Option<PicRecord>)
    ensures r.Some? ==> r.value in pics && r.value.ptype == ptype && r.value.stype == stype
    ensures r.Some? ==> r.value.apid == apid || r.value.apid == -1
    decreases |pics|
  {
    if |pics| == 0 then None
    else
      var p := pics[0];
      if p.ptype == ptype && p.stype == stype && p.apid == apid then Some(p)
      else
        var rest := FindPic(pics[1..], ptype, stype, apid);
        if rest.Some? then rest
        else if p.ptype == ptype && p.stype == stype && p.apid == -1 then Some(p)
        else None
  }

  /** The records for exactly this apid, in order. */
  function ExactPics(pics: seq<PicRecord>, ptype: int, stype: int, apid: int): (r: seq<PicRecord>)
    decreases |pics|
  {
    if |pics| == 0 then []
    else
      (if pics[0].ptype == ptype && pics[0].stype == stype && pics[0].apid == apid then [pics[0]] else [])
        + ExactPics(pics[1..], ptype, stype, apid)
  }

  /** The records for any apid, in order. */
  function WildcardPics(pics: seq<PicRecord>, ptype: int, stype: int): (r: seq<PicRecord>)
    decreases |pics|
  {
    if |pics| == 0 then []
    else
      (if pics[0].ptype == ptype && pics[0].stype == stype && pics[0].apid == -1 then [pics[0]] else [])
        + WildcardPics(pics[1..], ptype, stype)
  }

  /** An exact apid match wins over the wildcard wherever it appears; among
      exact matches the first wins, among wildcards the last. */
  lemma {:induction false} FindPicSpec(pics: seq<PicRecord>, ptype: int, stype: int, apid: int)
    ensures var exact := ExactPics(pics, ptype, stype, apid);
      var wild := WildcardPics(pics, ptype, stype);
      FindPic(pics, ptype, stype, apid) ==
        if |exact| > 0 then Some(exact[0])
        else if |wild| > 0 then Some(wild[|wild| - 1])
        else None
    decreases |pics|
  {
    if |pics| > 0 {
      FindPicSpec(pics[1..], ptype, stype, apid);
    }
  }

  // ---------------------------------------------------------------------------
  // PID

  const IDX_PID_TYPE: nat := 0
  const IDX_PID_STYPE: nat := 1
  const IDX_PID_APID: nat := 2
  const IDX_PID_PI1_VAL: nat := 3
  const IDX_PID_PI2_VAL: nat := 4
  const IDX_PID_SPID: nat := 5
  const IDX_PID_TPSD: nat := 8
  const IDX_PID_DHHSIZE: nat := 9
  const IDX_PID_VALID: nat := 12

  /** A PID row is skipped (VALID = N) or gives a packet and its TPSD (-1
      when the packet is not variable). */
  datatype PidRow = SkippedPid | PidOf(pid: PidRecord, tpsd: int)

  /** An optional unsigned-long column; 0, the field's initial value, when
      absent. */
  function OptUnsigned(ctx: Context, line: seq<string>, k: nat): (r: Result<int, LoadError>)
    ensures !HasColumn(line, k) ==> r == Ok(0)
    ensures HasColumn(line, k) ==> r == GetUnsignedLong(ctx, line, k)
  {
    if HasColumn(line, k) then GetUnsignedLong(ctx, line, k) else Ok(0)
  }

  /** One PID row. The VALID column is read without a check, so a row too
      short to hold it is an index error even when the mandatory columns are
      there. */
  function PidRowOf(ctx: Context, line: seq<string>): (r: Result<PidRow, LoadError>)
    ensures r.Ok? ==> |line| > IDX_PID_VALID
    ensures |line| > IDX_PID_VALID ==> (r == Ok(SkippedPid) <==> line[IDX_PID_VALID] == "N")
    ensures IDX_PID_SPID < |line| <= IDX_PID_VALID ==> r == Err(IndexError(IDX_PID_VALID, |line|))
    ensures r.Ok? && r.value.PidOf? ==>
      && GetInt(ctx, line, IDX_PID_TYPE) == Ok(r.value.pid.ptype)
      && GetInt(ctx, line, IDX_PID_STYPE) == Ok(r.value.pid.stype)
      && GetInt(ctx, line, IDX_PID_APID) == Ok(r.value.pid.apid)
      && OptUnsigned(ctx, line, IDX_PID_PI1_VAL) == Ok(r.value.pid.pi1)
      && OptUnsigned(ctx, line, IDX_PID_PI2_VAL) == Ok(r.value.pid.pi2)
      && GetLong(ctx, line, IDX_PID_SPID) == Ok(r.value.pid.spid)
      && GetLongOr(ctx, line, IDX_PID_TPSD, -1) == Ok(r.value.tpsd)
      && GetInt(ctx, line, IDX_PID_DHHSIZE) == Ok(r.value.pid.dfhsize)
  {
    var cols := [IDX_PID_TYPE, IDX_PID_STYPE, IDX_PID_APID, IDX_PID_SPID];
    assert CheckMandatory(ctx, line, cols).Ok? <==> |line| > IDX_PID_SPID by {
      if |line| > IDX_PID_SPID { assert forall i :: 0 <= i < |cols| ==> cols[i] < |line|; }
      else { assert !(cols[3] < |line|); }
    }
    var _ :- CheckMandatory(ctx, line, cols);
    var valid :- Column(line, IDX_PID_VALID);
    if valid == "N" then Ok(SkippedPid)
    else
      var ptype :- GetInt(ctx, line, IDX_PID_TYPE);
      var stype :- GetInt(ctx, line, IDX_PID_STYPE);
      var apid :- GetInt(ctx, line, IDX_PID_APID);
      var pi1 :- OptUnsigned(ctx, line, IDX_PID_PI1_VAL);
      var pi2 :- OptUnsigned(ctx, line, IDX_PID_PI2_VAL);
      var spid :- GetLong(ctx, line, IDX_PID_SPID);
      var tpsd :- GetLongOr(ctx, line, IDX_PID_TPSD, -1);
      var dfhsize :- GetInt(ctx, line, IDX_PID_DHHSIZE);
      Ok(PidOf(PidRecord(ptype, stype, apid, pi1, pi2, spid, dfhsize), tpsd))
  }

  /** The packets of the rows not skipped, keyed by SPID. */
  function BySpid(rows: seq<PidRow>): (r: seq<(int, PidRecord)>)
    decreases |rows|
  {
    if |rows| == 0 then []
    else
      var last := rows[|rows| - 1];
      BySpid(rows[..|rows| - 1]) + (if last.PidOf? then [(last.pid.spid, last.pid)] else [])
  }

  /** The packets of the variable rows (TPSD not -1), keyed by TPSD. */
  function ByTpsd(rows: seq<PidRow>): (r: seq<(int, PidRecord)>)
    decreases |rows|
  {
    if |rows| == 0 then []
    else
      var last := rows[|rows| - 1];
      ByTpsd(rows[..|rows| - 1]) + (if last.PidOf? && last.tpsd != -1 then [(last.tpsd, last.pid)] else [])
  }

  /** Every key of the grouping has a non-empty list and appears once in the
      key order. */
  ghost predicate GroupsValid<K(!new), V>(g: Groups<K, V>) {
    && (forall k :: k in g.lists <==> k in g.order)
    && (forall k :: k in g.lists ==> g.lists[k] != [])
    && NoDuplicates(g.order)
  }

  lemma GroupByValid<K(!new), V>(s: seq<(K, V)>)
    ensures GroupsValid(GroupBy(s))
  {
    GroupByLists(s);
    GroupByOrder(s);
  }

  /** The two PID maps: `pidRecords` (by SPID, a later row replacing an
      earlier one) and `pidVpdRecords` (by TPSD, every row kept). Both are
      kept as groupings whose key order stands for the hash-map order. */
  datatype PidTables = PidTables(bySpid: Groups<int, PidRecord>, byTpsd: Groups<int, PidRecord>)
  {
    ghost predicate Valid() {
      GroupsValid(bySpid) && GroupsValid(byTpsd)
    }

    /** `pidRecords.values()`: the last packet of each SPID. */
    function Values(): (r: seq<PidRecord>)
      requires Valid()
      ensures |r| == |bySpid.order|
      ensures forall i :: 0 <= i < |r| ==> r[i] == Last(bySpid.lists[bySpid.order[i]])
    {
      seq(|bySpid.order|, i requires 0 <= i < |bySpid.order| => Last(bySpid.lists[bySpid.order[i]]))
    }
  }

  function Last<T>(s: seq<T>): T
    requires s != []
  {
    s[|s| - 1]
  }

  /** `loadPid`: the rows in order, the first error aborting. */
  function LoadPid(t: Table): (r: Result<PidTables, LoadError>)
    ensures r.Ok? ==> r.value.Valid()
    ensures r.Ok? <==> ParseRows(t, PidRowOf).Ok?
    ensures r.Ok? ==>
      var rows := ParseRows(t, PidRowOf).value;
      r.value == PidTables(GroupBy(BySpid(rows)), GroupBy(ByTpsd(rows)))
  {
    var rows :- ParseRows(t, PidRowOf);
    GroupByValid(BySpid(rows));
    GroupByValid(ByTpsd(rows));
    Ok(PidTables(GroupBy(BySpid(rows)), GroupBy(ByTpsd(rows))))
  }

  /** A packet reaches the SPID map iff its row is kept. */
  lemma {:induction false} PidRowsKept(rows: seq<PidRow>, spid: int)
    ensures spid in GroupBy(BySpid(rows)).lists <==>
      exists i :: 0 <= i < |rows| && rows[i].PidOf? && rows[i].pid.spid == spid
    decreases |rows|
  {
    GroupByLists(BySpid(rows));
    if |rows| > 0 {
      var init := rows[..|rows| - 1];
      PidRowsKept(init, spid);
      GroupByLists(BySpid(init));
      var last := rows[|rows| - 1];
      var s, s0 := BySpid(rows), BySpid(init);
      if last.PidOf? { assert s[..|s| - 1] == s0; } else { assert s == s0; }
      if exists i :: 0 <= i < |rows| && rows[i].PidOf? && rows[i].pid.spid == spid {
        var i :| 0 <= i < |rows| && rows[i].PidOf? && rows[i].pid.spid == spid;
        if i < |init| { assert init[i] == rows[i]; }
      }
      if exists i :: 0 <= i < |init| && init[i].PidOf? && init[i].pid.spid == spid {
        var i :| 0 <= i < |init| && init[i].PidOf? && init[i].pid.spid == spid;
        assert rows[i] == init[i];
      }
    }
  }

  /** Only variable packets reach the TPSD map: nothing is listed under -1. */
  lemma {:induction false} ByTpsdVariableOnly(rows: seq<PidRow>)
    ensures Select(ByTpsd(rows), -1) == []
    ensures -1 !in GroupBy(ByTpsd(rows)).lists
    decreases |rows|
  {
    GroupByLists(ByTpsd(rows));
    if |rows| > 0 {
      var init := rows[..|rows| - 1];
      ByTpsdVariableOnly(init);
      var last := rows[|rows| - 1];
      var u, u0 := ByTpsd(rows), ByTpsd(init);
      if last.PidOf? && last.tpsd != -1 { assert u[..|u| - 1] == u0; } else { assert u == u0; }
    }
  }

  // ---------------------------------------------------------------------------
  // TPCF

  const IDX_TPCF_SPID: nat := 0
  const IDX_TPCF_NAME: nat := 1
  const IDX_TPCF_SIZE: nat := 2

  /** One TPCF row: the SPID, the optional name and the size (-1 when absent). */
  function TpcfRow(ctx: Context, line: seq<string>): (r: Result<(int, TpcfRecord), LoadError>)
    ensures r.Ok? <==> |line| > IDX_TPCF_SPID && ParseLong(line[IDX_TPCF_SPID]).Some?
                       && GetIntOr(ctx, line, IDX_TPCF_SIZE, -1).Ok?
    ensures r.Ok? ==> r.value.0 == ParseLong(line[IDX_TPCF_SPID]).value
    ensures r.Ok? ==> r.value.1.name == GetOptString(line, IDX_TPCF_NAME)
    ensures r.Ok? ==> Ok(r.value.1.size) == GetIntOr(ctx, line, IDX_TPCF_SIZE, -1)
  {
    var _ :- CheckMandatory(ctx, line, [IDX_TPCF_SPID]);
    var spid :- GetLong(ctx, line, IDX_TPCF_SPID);
    var size :- GetIntOr(ctx, line, IDX_TPCF_SIZE, -1);
    Ok((spid, TpcfRecord(GetOptString(line, IDX_TPCF_NAME), size)))
  }

  /** `loadTpcf`: a later row of an SPID replaces an earlier one. */
  function LoadTpcf(t: Table): (r: Result<map<int, TpcfRecord>, LoadError>)
    ensures r.Ok? <==> ParseRows(t, TpcfRow).Ok?
    ensures r.Ok? ==> r.value == ToMap(ParseRows(t, TpcfRow).value)
  {
    var rows :- ParseRows(t, TpcfRow);
    Ok(ToMap(rows))
  }

  // ---------------------------------------------------------------------------
  // Packet containers

  /** What the packet pass builds: the space system, the container each SPID
      is decoded with (`spidToSeqContainer`, by container name) and the
      errors reported without aborting. */
  datatype PacketState = PacketState(ss: SpaceSystem, spidToContainer: map<int, string>, errors: seq<LoadError>)
  {
    /** Every SPID is mapped to a container of the space system. */
    ghost predicate Valid() {
      ss.WellFormed() && forall spid :: spid in spidToContainer ==> spidToContainer[spid] in ss.containers
    }
  }

  /** The packet pass only ever adds: containers and mapped SPIDs stay, and
      errors are appended. */
  ghost predicate Grows(a: PacketState, b: PacketState) {
    && a.ss.containers.Keys <= b.ss.containers.Keys
    && a.spidToContainer.Keys <= b.spidToContainer.Keys
    && a.errors <= b.errors
  }

  /** The packets of one (apid, type, subtype) key, in order. */
  function PacketsOf(values: seq<PidRecord>, k: int): (r: seq<PidRecord>)
    ensures forall p :: p in r <==> p in values && ApidTypeSubtype(p) == k
    decreases |values|
  {
    if |values| == 0 then []
    else
      var last := values[|values| - 1];
      var init := values[..|values| - 1];
      assert values == init + [last];
      PacketsOf(init, k) + (if ApidTypeSubtype(last) == k then [last] else [])
  }

  /** The keys of the packets, each once, in order of first appearance
      (`mapToInt(...).distinct()`). */
  function PacketKeys(values: seq<PidRecord>): (r: seq<int>)
    ensures NoDuplicates(r)
    ensures forall p :: p in values ==> ApidTypeSubtype(p) in r
  {
    var keys := seq(|values|, i requires 0 <= i < |values| => ApidTypeSubtype(values[i]));
    DedupDistinct(keys);
    assert forall p :: p in values ==> ApidTypeSubtype(p) in keys by {
      forall p | p in values ensures ApidTypeSubtype(p) in keys {
        var i :| 0 <= i < |values| && values[i] == p;
        assert keys[i] == ApidTypeSubtype(p);
      }
    }
    Dedup(keys)
  }

  /** The TPCF name of a packet, when its row gives one. */
  function TpcfName(tpcf: map<int, TpcfRecord>, spid: int): (r: Option<string>)
    ensures r.Some? <==> spid in tpcf && tpcf[spid].name.Some?
  {
    if spid in tpcf && tpcf[spid].name.Some? then tpcf[spid].name else None
  }

  function SpidSuffix(spid: int): string {
    "spid_" + IntToString(spid)
  }

  /** `name + " spid_" + spid` when a container of that name exists. */
  function Unclash(ss: SpaceSystem, name: string, spid: int): (r: string)
    ensures name !in ss.containers ==> r == name
    ensures name in ss.containers ==> r == name + " " + SpidSuffix(spid)
  {
    if name in ss.containers then name + " " + SpidSuffix(spid) else name
  }

  /** The restriction of the container of a key: its apid, type and subtype. */
  function KeyRestriction(apid: int, ptype: int, stype: int): seq<Comparison> {
    [EqualsInt(PARA_NAME_APID, apid), EqualsInt(PARA_NAME_PUS_TYPE, ptype), EqualsInt(PARA_NAME_PUS_STYPE, stype)]
  }

  /** The only packet of a key gets the key's container, named after the
      packet's TPCF name when it has one. */
  function SingleGroup(st: PacketState, tpcf: map<int, TpcfRecord>, apid: int, ptype: int, stype: int, keyName: string, pid: PidRecord): (r: PacketState)
    requires st.Valid()
    ensures r.Valid() && Grows(st, r) && r.errors == st.errors
    ensures pid.spid in r.spidToContainer
    ensures var n := r.spidToContainer[pid.spid];
      && r.ss.containers[n].base == Some(CONTAINER_NAME_ROOT)
      && r.ss.containers[n].restriction == Some(KeyRestriction(apid, ptype, stype))
      && (TpcfName(tpcf, pid.spid).None? ==> n == Unclash(st.ss, keyName, pid.spid))
      && (TpcfName(tpcf, pid.spid).Some? ==> n == Unclash(st.ss, SanitizeName(TpcfName(tpcf, pid.spid).value), pid.spid))
    ensures forall c :: c in st.ss.containers && c != r.spidToContainer[pid.spid] ==> r.ss.containers[c] == st.ss.containers[c]
  {
    var tn := TpcfName(tpcf, pid.spid);
    var name := Unclash(st.ss, if tn.Some? then SanitizeName(tn.value) else keyName, pid.spid);
    var ss1 := CreateSubcontainer(st.ss, apid, ptype, stype, name);
    PacketState(ss1, st.spidToContainer[pid.spid := name], st.errors)
  }

  function PicError(ctx: Context, pic: PicRecord, which: string): LoadError {
    MibLoadError(Some(ctx), "Found PIC record with " + which + "_offset >= 0 and " + which + "_width <= 0: " + pic.ToString())
  }

  /** One discriminator parameter (`_pi1` or `_pi2`) of a key with several
      packets: with a non-negative offset and an accepted width, an unsigned
      parameter of that width read at `8 * offset` bits from the start of
      the key's container; with a non-negative offset and a width refused, an
      error; with a negative offset, nothing. */
  function AddDiscriminator(st: PacketState, ctx: Context, pic: PicRecord, level1: string, pname: string,
                            offset: int, width: int, accepted: bool, which: string): (r: Result<(PacketState, Option<string>), LoadError>)
    requires st.Valid() && level1 in st.ss.containers
    ensures r.Ok? ==> r.value.0.Valid() && Grows(st, r.value.0) && level1 in r.value.0.ss.containers
    ensures r.Ok? ==> r.value.0.spidToContainer == st.spidToContainer
    ensures r.Ok? ==> (r.value.1.Some? <==> offset >= 0 && accepted) && (r.value.1.Some? ==> r.value.1.value == pname)
    ensures r.Err? <==> offset >= 0 && accepted && !(1 <= width <= 64)
  {
    if offset < 0 then Ok((st, None))
    else if !accepted then Ok((st.(errors := st.errors + [PicError(ctx, pic, which)]), None))
    else
      var (ss1, t) :- GetIntegerParameterType(st.ss, width);
      var ss2 := ss1.AddParameter(Parameter(pname, None, t, []));
      var ss3 := ss2.AppendEntries(level1, [Entry(ParamEntry(pname), ContainerStart, Wrap32(8 * offset), None)]);
      Ok((st.(ss := ss3), Some(pname)))
  }

  /** What a discriminator adds: the parameter of the shared unsigned type
      and its entry at the end of the key's container, or the error. */
  lemma AddDiscriminatorSpec(st: PacketState, ctx: Context, pic: PicRecord, level1: string, pname: string,
                             offset: int, width: int, accepted: bool, which: string)
    requires st.Valid() && level1 in st.ss.containers
    ensures var r := AddDiscriminator(st, ctx, pic, level1, pname, offset, width, accepted, which);
      && (offset < 0 ==> r == Ok((st, None)))
      && (offset >= 0 && !accepted ==>
            r == Ok((st.(errors := st.errors + [PicError(ctx, pic, which)]), None)))
      && (r.Ok? ==>
            var c := st.ss.containers[level1];
            var added := if r.value.1.Some? then [Entry(ParamEntry(pname), ContainerStart, Wrap32(8 * offset), None)] else [];
            r.value.0.ss.containers[level1] == c.(entries := c.entries + added))
      && (r.Ok? && r.value.1.Some? ==>
            var ss1 := r.value.0.ss;
            && r.value.0.errors == st.errors
            && pname in ss1.parameters && ss1.parameters[pname].ptype.name == Some(UintTypeName(width)))
  {
  }

  /** The restriction of one packet under its key's container: the value of
      each discriminator parameter present, as a raw-value equality. */
  function PacketRestriction(pid: PidRecord, pi1: Option<string>, pi2: Option<string>): (r: seq<Comparison>)
    ensures |r| == (if pi1.Some? then 1 else 0) + (if pi2.Some? then 1 else 0)
    ensures pi1.Some? ==> r[0] == Comparison(pi1.value, false, Equality, Text(IntToString(pid.pi1)))
    ensures pi2.Some? ==> r[|r| - 1] == Comparison(pi2.value, false, Equality, Text(IntToString(pid.pi2)))
  {
    (if pi1.Some? then [Comparison(pi1.value, false, Equality, Text(IntToString(pid.pi1)))] else [])
      + (if pi2.Some? then [Comparison(pi2.value, false, Equality, Text(IntToString(pid.pi2)))] else [])
  }

  /** The name of one packet under a key with several: its TPCF name (made
      unique with " spid_<spid>"), else the previous name with
      "spid_<spid>" appended. The previous name is the one given to the
      packet before (the key's name for the first): names without a TPCF
      name accumulate along the key. */
  function LeafName(ss: SpaceSystem, tpcf: map<int, TpcfRecord>, prev: string, pid: PidRecord): (r: string)
    ensures TpcfName(tpcf, pid.spid).None? ==> r == prev + SpidSuffix(pid.spid)
    ensures TpcfName(tpcf, pid.spid).Some? ==> r == Unclash(ss, SanitizeName(TpcfName(tpcf, pid.spid).value), pid.spid)
  {
    var tn := TpcfName(tpcf, pid.spid);
    if tn.Some? then Unclash(ss, SanitizeName(tn.value), pid.spid) else prev + SpidSuffix(pid.spid)
  }

  /** One packet under a key with several: a container based on the key's,
      restricted on the discriminators. */
  function Leaf(st: PacketState, level1: string, name: string, pid: PidRecord, pi1: Option<string>, pi2: Option<string>): (r: PacketState)
    requires st.Valid()
    ensures r.Valid() && Grows(st, r) && r.errors == st.errors
    ensures r.spidToContainer == st.spidToContainer[pid.spid := name]
    ensures name in r.ss.containers
    ensures r.ss.containers[name] == Container(name, Some(level1), Some(PacketRestriction(pid, pi1, pi2)), [])
    ensures forall c :: c in st.ss.containers && c != name ==> r.ss.containers[c] == st.ss.containers[c]
  {
    var c := Container(name, Some(level1), Some(PacketRestriction(pid, pi1, pi2)), []);
    PacketState(st.ss.PutContainer(c), st.spidToContainer[pid.spid := name], st.errors)
  }

  /** The packets of a key with several, in order, each named after the one
      before. */
  function Leaves(st: PacketState, tpcf: map<int, TpcfRecord>, level1: string, prev: string, pids: seq<PidRecord>,
                  pi1: Option<string>, pi2: Option<string>): (r: PacketState)
    requires st.Valid()
    ensures r.Valid() && Grows(st, r) && r.errors == st.errors
    ensures forall p :: p in pids ==> p.spid in r.spidToContainer
    decreases |pids|
  {
    if |pids| == 0 then st
    else
      var name := LeafName(st.ss, tpcf, prev, pids[0]);
      var st1 := Leaf(st, level1, name, pids[0], pi1, pi2);
      var r := Leaves(st1, tpcf, level1, name, pids[1..], pi1, pi2);
      assert forall p :: p in pids ==> p == pids[0] || p in pids[1..];
      r
  }

  /** Without TPCF names, the n-th packet of a key is named after the key
      followed by the "spid_<spid>" of every packet up to it. */
  function AccumulatedName(keyName: string, pids: seq<PidRecord>): string
    decreases |pids|
  {
    if |pids| == 0 then keyName
    else AccumulatedName(keyName, pids[..|pids| - 1]) + SpidSuffix(pids[|pids| - 1].spid)
  }

  lemma {:induction false} LeavesAccumulate(st: PacketState, tpcf: map<int, TpcfRecord>, level1: string, prev: string,
                                            pids: seq<PidRecord>, pi1: Option<string>, pi2: Option<string>, n: nat)
    requires st.Valid()
    requires n < |pids|
    requires forall i :: 0 <= i < |pids| ==> TpcfName(tpcf, pids[i].spid).None?
    requires forall i :: n < i < |pids| ==> pids[i].spid != pids[n].spid
    ensures Leaves(st, tpcf, level1, prev, pids, pi1, pi2).spidToContainer[pids[n].spid]
              == AccumulatedName(prev, pids[..n + 1])
    decreases |pids|, 1
  {
    if n == 0 {
      LeavesFirst(st, tpcf, level1, prev, pids, pi1, pi2);
    } else {
      LeavesLater(st, tpcf, level1, prev, pids, pi1, pi2, n);
    }
  }

  lemma {:induction false} LeavesLater(st: PacketState, tpcf: map<int, TpcfRecord>, level1: string, prev: string,
                                       pids: seq<PidRecord>, pi1: Option<string>, pi2: Option<string>, n: nat)
    requires st.Valid()
    requires 0 < n < |pids|
    requires forall i :: 0 <= i < |pids| ==> TpcfName(tpcf, pids[i].spid).None?
    requires forall i :: n < i < |pids| ==> pids[i].spid != pids[n].spid
    ensures Leaves(st, tpcf, level1, prev, pids, pi1, pi2).spidToContainer[pids[n].spid]
              == AccumulatedName(prev, pids[..n + 1])
    decreases |pids|, 0
  {
    var name := LeafName(st.ss, tpcf, prev, pids[0]);
    var st1 := Leaf(st, level1, name, pids[0], pi1, pi2);
    var rest := pids[1..];
    assert Leaves(st, tpcf, level1, prev, pids, pi1, pi2) == Leaves(st1, tpcf, level1, name, rest, pi1, pi2);
    assert forall i :: 0 <= i < |rest| ==> rest[i] == pids[i + 1];
    LeavesAccumulate(st1, tpcf, level1, name, rest, pi1, pi2, n - 1);
    assert rest[n - 1] == pids[n];
    assert name == prev + SpidSuffix(pids[0].spid);
    AccumulatedShift(prev, pids, n + 1);
  }

  lemma LeavesFirst(st: PacketState, tpcf: map<int, TpcfRecord>, level1: string, prev: string,
                    pids: seq<PidRecord>, pi1: Option<string>, pi2: Option<string>)
    requires st.Valid() && |pids| > 0
    requires TpcfName(tpcf, pids[0].spid).None?
    requires forall i :: 0 < i < |pids| ==> pids[i].spid != pids[0].spid
    ensures Leaves(st, tpcf, level1, prev, pids, pi1, pi2).spidToContainer[pids[0].spid]
              == AccumulatedName(prev, pids[..1])
  {
    var name := LeafName(st.ss, tpcf, prev, pids[0]);
    var st1 := Leaf(st, level1, name, pids[0], pi1, pi2);
    assert AccumulatedName(prev, pids[..1]) == name by {
      assert pids[..1][..0] == [];
    }
    var rest := pids[1..];
    assert forall i :: 0 <= i < |rest| ==> rest[i] == pids[i + 1];
    LeavesKeep(st1, tpcf, level1, name, rest, pi1, pi2, pids[0].spid);
  }

  /** Naming from the second packet on, after the first, is naming from the
      start. */
  lemma {:induction false} AccumulatedShift(keyName: string, pids: seq<PidRecord>, n: nat)
    requires 1 <= n <= |pids|
    ensures AccumulatedName(keyName + SpidSuffix(pids[0].spid), pids[1..][..n - 1]) == AccumulatedName(keyName, pids[..n])
    decreases n
  {
    if n > 1 {
      AccumulatedShift(keyName, pids, n - 1);
      assert pids[1..][..n - 1][..n - 2] == pids[1..][..n - 2];
      assert pids[..n][..n - 1] == pids[..n - 1];
    } else {
      assert pids[..1][..0] == [];
    }
  }

  /** A SPID none of the remaining packets carries keeps its container. */
  lemma {:induction false} LeavesKeep(st: PacketState, tpcf: map<int, TpcfRecord>, level1: string, prev: string,
                                      pids: seq<PidRecord>, pi1: Option<string>, pi2: Option<string>, spid: int)
    requires st.Valid() && spid in st.spidToContainer
    requires forall i :: 0 <= i < |pids| ==> pids[i].spid != spid
    ensures Leaves(st, tpcf, level1, prev, pids, pi1, pi2).spidToContainer[spid] == st.spidToContainer[spid]
    decreases |pids|
  {
    if |pids| > 0 {
      var name := LeafName(st.ss, tpcf, prev, pids[0]);
      var st1 := Leaf(st, level1, name, pids[0], pi1, pi2);
      LeavesKeep(st1, tpcf, level1, name, pids[1..], pi1, pi2, spid);
    }
  }

  /** Every packet listed under a SPID carries that SPID. */
  lemma {:induction false} BySpidMatch(rows: seq<PidRow>, spid: int)
    ensures forall v :: v in Select(BySpid(rows), spid) ==> v.spid == spid
    decreases |rows|
  {
    if |rows| > 0 {
      var init := rows[..|rows| - 1];
      BySpidMatch(init, spid);
      var last := rows[|rows| - 1];
      var s, s0 := BySpid(rows), BySpid(init);
      if last.PidOf? { assert s[..|s| - 1] == s0; } else { assert s == s0; }
    }
  }

  // ---------------------------------------------------------------------------
  // Keys with several packets

  /** The second discriminator as the code tests it: by the FIRST width. */
  function Pi2StepAsWritten(st: PacketState, ctx: Context, pic: PicRecord, level1: string): (r: Result<(PacketState, Option<string>), LoadError>)
    requires st.Valid() && level1 in st.ss.containers
    ensures pic.pi2Offset >= 0 && pic.pi1Width <= 0 ==> r.Ok? && r.value.1.None?
    ensures pic.pi2Offset >= 0 && pic.pi1Width > 0 ==> (r.Ok? <==> 1 <= pic.pi2Width <= 64)
  {
    AddDiscriminator(st, ctx, pic, level1, level1 + "_pi2", pic.pi2Offset, pic.pi2Width, pic.pi1Width > 0, "p2")
  }

  /** The second discriminator tested by its own width, as for the first. */
  function Pi2Step(st: PacketState, ctx: Context, pic: PicRecord, level1: string): (r: Result<(PacketState, Option<string>), LoadError>)
    requires st.Valid() && level1 in st.ss.containers
    ensures r.Ok? && r.value.1.Some? <==> pic.pi2Offset >= 0 && 1 <= pic.pi2Width <= 64
    ensures r.Err? <==> pic.pi2Offset >= 0 && pic.pi2Width > 64
  {
    AddDiscriminator(st, ctx, pic, level1, level1 + "_pi2", pic.pi2Offset, pic.pi2Width, pic.pi2Width > 0, "p2")
  }

  /** A PIC record with no first discriminator and an 8-bit second one: the
      code reports the second width as not positive and reads no second
      discriminator, where the width test of the first makes the second
      parameter. With an 8-bit first and a 0-bit second, the code asks for a
      0-bit type and aborts, where it would report the record. */
  lemma Pi2WidthTestDiscrepancy(st: PacketState, ctx: Context, level1: string)
    requires st.Valid() && level1 in st.ss.containers
    ensures var pic := PicRecord(3, 25, -1, -1, 0, 2, 8);
      && Pi2StepAsWritten(st, ctx, pic, level1).Ok? && Pi2StepAsWritten(st, ctx, pic, level1).value.1.None?
      && Pi2Step(st, ctx, pic, level1).Ok? && Pi2Step(st, ctx, pic, level1).value.1 == Some(level1 + "_pi2")
    ensures var pic := PicRecord(3, 25, -1, 0, 8, 2, 0);
      && Pi2StepAsWritten(st, ctx, pic, level1).Err?
      && Pi2Step(st, ctx, pic, level1).Ok? && Pi2Step(st, ctx, pic, level1).value.1.None?
  {
  }

  /** The level-1 container of a key with several packets, with the
      discriminator parameters its PIC record describes. */
  function Level1(st: PacketState, ctx: Context, pic: PicRecord, apid: int, ptype: int, stype: int, keyName: string)
    : (r: Result<(PacketState, Option<string>, Option<string>), LoadError>)
    requires st.Valid()
    ensures r.Ok? ==> r.value.0.Valid() && Grows(st, r.value.0) && r.value.0.spidToContainer == st.spidToContainer
    ensures r.Ok? ==> (r.value.1.Some? <==> pic.pi1Offset >= 0 && pic.pi1Width > 0)
    ensures r.Ok? ==> (r.value.2.Some? <==> pic.pi2Offset >= 0 && pic.pi1Width > 0)
    ensures r.Err? <==> (pic.pi1Offset >= 0 && pic.pi1Width > 64)
                        || (pic.pi2Offset >= 0 && pic.pi1Width > 0 && !(1 <= pic.pi2Width <= 64))
  {
    var ss1 := CreateSubcontainer(st.ss, apid, ptype, stype, keyName);
    var st1 := st.(ss := ss1);
    var (st2, pi1) :- AddDiscriminator(st1, ctx, pic, keyName, keyName + "_pi1", pic.pi1Offset, pic.pi1Width, pic.pi1Width > 0, "p1");
    var (st3, pi2) :- Pi2StepAsWritten(st2, ctx, pic, keyName);
    Ok((st3, pi1, pi2))
  }

  /** The level-1 container: based on the root, restricted on the key, and
      holding the entries of the discriminators present, the first before
      the second. */
  lemma Level1Spec(st: PacketState, ctx: Context, pic: PicRecord, apid: int, ptype: int, stype: int, keyName: string)
    requires st.Valid()
    requires Level1(st, ctx, pic, apid, ptype, stype, keyName).Ok?
    ensures var (st3, pi1, pi2) := Level1(st, ctx, pic, apid, ptype, stype, keyName).value;
      && keyName in st3.ss.containers
      && st3.ss.containers[keyName].base == Some(CONTAINER_NAME_ROOT)
      && st3.ss.containers[keyName].restriction == Some(KeyRestriction(apid, ptype, stype))
      && (pi1.Some? ==> pi1.value == keyName + "_pi1" && pi1.value in st3.ss.parameters)
      && (pi2.Some? ==> pi2.value == keyName + "_pi2" && pi2.value in st3.ss.parameters)
      && st3.ss.containers[keyName].entries ==
           (if pi1.Some? then [Entry(ParamEntry(pi1.value), ContainerStart, Wrap32(8 * pic.pi1Offset), None)] else [])
           + (if pi2.Some? then [Entry(ParamEntry(pi2.value), ContainerStart, Wrap32(8 * pic.pi2Offset), None)] else [])
  {
    var ss1 := CreateSubcontainer(st.ss, apid, ptype, stype, keyName);
    var st1 := st.(ss := ss1);
    AddDiscriminatorSpec(st1, ctx, pic, keyName, keyName + "_pi1", pic.pi1Offset, pic.pi1Width, pic.pi1Width > 0, "p1");
    var (st2, pi1) := AddDiscriminator(st1, ctx, pic, keyName, keyName + "_pi1", pic.pi1Offset, pic.pi1Width, pic.pi1Width > 0, "p1").value;
    var c1 := st1.ss.containers[keyName];
    assert c1 == Container(keyName, Some(CONTAINER_NAME_ROOT), Some(KeyRestriction(apid, ptype, stype)), []);
    var c2 := st2.ss.containers[keyName];
    assert c2 == c1.(entries := if pi1.Some? then [Entry(ParamEntry(keyName + "_pi1"), ContainerStart, Wrap32(8 * pic.pi1Offset), None)] else []);
    AddDiscriminatorSpec(st2, ctx, pic, keyName, keyName + "_pi2", pic.pi2Offset, pic.pi2Width, pic.pi1Width > 0, "p2");
    var (st3, pi2) := Pi2StepAsWritten(st2, ctx, pic, keyName).value;
    if pi1.Some? {
      assert keyName + "_pi1" in st3.ss.parameters by {
        assert st3.ss.parameters.Keys >= st2.ss.parameters.Keys;
      }
    }
  }

  function NoPic(ctx: Context, ptype: int, stype: int, apid: int): LoadError {
    MibLoadError(Some(ctx), "Cannot find a PIC record for type=" + IntToString(ptype) + " stype="
      + IntToString(stype) + " apid = " + IntToString(apid))
  }

  /** A key with several packets: its PIC record (an error when none
      applies), the level-1 container and one container per packet. */
  function MultiGroup(st: PacketState, ctx: Context, pics: seq<PicRecord>, tpcf: map<int, TpcfRecord>,
                      apid: int, ptype: int, stype: int, keyName: string, pids: seq<PidRecord>): (r: Result<PacketState, LoadError>)
    requires st.Valid()
    ensures r.Ok? ==> r.value.Valid() && Grows(st, r.value)
    ensures r.Ok? ==> forall p :: p in pids ==> p.spid in r.value.spidToContainer
    ensures FindPic(pics, ptype, stype, apid).None? ==> r == Err(NoPic(ctx, ptype, stype, apid))
  {
    match FindPic(pics, ptype, stype, apid)
    case None => Err(NoPic(ctx, ptype, stype, apid))
    case Some(pic) =>
      var (st1, pi1, pi2) :- Level1(st, ctx, pic, apid, ptype, stype, keyName);
      Ok(Leaves(st1, tpcf, keyName, keyName, pids, pi1, pi2))
  }

  // ---------------------------------------------------------------------------
  // The packet pass

  /** One key: a single packet gets the key's container, several get one
      each under it. */
  function Group(st: PacketState, ctx: Context, pics: seq<PicRecord>, tpcf: map<int, TpcfRecord>,
                 values: seq<PidRecord>, k: int): (r: Result<PacketState, LoadError>)
    requires st.Valid()
    ensures r.Ok? ==> r.value.Valid() && Grows(st, r.value)
    ensures r.Ok? ==> forall p :: p in values && ApidTypeSubtype(p) == k ==> p.spid in r.value.spidToContainer
  {
    var (apid, ptype, stype) := DecodeAsWritten(k);
    var pids := PacketsOf(values, k);
    var keyName := ContainerName(apid, ptype, stype);
    if |pids| == 1 then
      assert forall p :: p in pids ==> p == pids[0];
      Ok(SingleGroup(st, tpcf, apid, ptype, stype, keyName, pids[0]))
    else
      MultiGroup(st, ctx, pics, tpcf, apid, ptype, stype, keyName, pids)
  }

  /** A key with one packet, decoded as the loader decodes it: from apid
      32768 on, the container is named after and restricted on `apid - 65536`
      (for apid 40000, `pus_-25536_...`). */
  lemma GroupSingleAsWritten(st: PacketState, ctx: Context, pics: seq<PicRecord>, tpcf: map<int, TpcfRecord>,
                             values: seq<PidRecord>, p: PidRecord)
    requires st.Valid() && InKeyRange(p.apid, p.ptype, p.stype)
    requires PacketsOf(values, ApidTypeSubtype(p)) == [p]
    ensures var r := Group(st, ctx, pics, tpcf, values, ApidTypeSubtype(p));
      var apid := if p.apid >= 32768 then p.apid - 65536 else p.apid;
      && r.Ok? && p.spid in r.value.spidToContainer
      && r.value.ss.containers[r.value.spidToContainer[p.spid]].restriction == Some(KeyRestriction(apid, p.ptype, p.stype))
      && (TpcfName(tpcf, p.spid).None? ==>
            r.value.spidToContainer[p.spid] == Unclash(st.ss, ContainerName(apid, p.ptype, p.stype), p.spid))
  {
    if p.apid >= 32768 { DecodeAsWrittenHighApid(p); } else { DecodeAsWrittenRoundTrip(p); }
  }

  /** The keys taken in order. */
  function GroupsFrom(st: PacketState, ctx: Context, pics: seq<PicRecord>, tpcf: map<int, TpcfRecord>,
                      values: seq<PidRecord>, keys: seq<int>): (r: Result<PacketState, LoadError>)
    requires st.Valid()
    ensures r.Ok? ==> r.value.Valid() && Grows(st, r.value)
    ensures r.Ok? ==> forall p :: p in values && ApidTypeSubtype(p) in keys ==> p.spid in r.value.spidToContainer
    decreases |keys|
  {
    if |keys| == 0 then Ok(st)
    else
      var st1 :- Group(st, ctx, pics, tpcf, values, keys[0]);
      var st2 :- GroupsFrom(st1, ctx, pics, tpcf, values, keys[1..]);
      assert forall x :: x in keys ==> x == keys[0] || x in keys[1..];
      Ok(st2)
  }

  /** Every SPID the PID table keeps is the SPID of one of its values. */
  lemma {:induction false} ValuesCoverKept(pt: PidTables, rows: seq<PidRow>)
    requires pt.Valid() && pt.bySpid == GroupBy(BySpid(rows))
    ensures forall spid :: spid in pt.bySpid.lists ==> exists p :: p in pt.Values() && p.spid == spid
  {
    var values := pt.Values();
    forall spid | spid in pt.bySpid.lists ensures exists p :: p in values && p.spid == spid {
      GroupByLists(BySpid(rows));
      BySpidMatch(rows, spid);
      var i :| 0 <= i < |pt.bySpid.order| && pt.bySpid.order[i] == spid;
      assert values[i] in values;
    }
  }

  /** `loadTelemetryPackets` up to the VPD table: the PIC, PID and TPCF
      tables, the root PUS container, then one key after the other in the
      order the packets list them. Every packet the PID table keeps ends up
      with a container. */
  function LoadPacketStructure(ss: SpaceSystem, errors: seq<LoadError>, pic: Table, pid: Table, tpcf: Table,
                               typeOffset: int, subtypeOffset: int): (r: Result<(PacketState, PidTables), LoadError>)
    requires ss.WellFormed()
    ensures r.Ok? ==> r.value.0.Valid() && r.value.1.Valid() && errors <= r.value.0.errors
    ensures r.Ok? ==> LoadPid(pid) == Ok(r.value.1)
    ensures r.Ok? ==> forall spid :: spid in r.value.1.bySpid.lists ==> spid in r.value.0.spidToContainer
    ensures LoadPic(pic).Err? ==> r == Err(LoadPic(pic).error)
    ensures LoadPic(pic).Ok? && LoadPid(pid).Err? ==> r == Err(LoadPid(pid).error)
  {
    var pics :- LoadPic(pic);
    var pt :- LoadPid(pid);
    var tp :- LoadTpcf(tpcf);
    var values := pt.Values();
    var keys := PacketKeys(values);
    var ss1 := CreateRootPusContainers(ss, typeOffset, subtypeOffset);
    var st :- GroupsFrom(PacketState(ss1, map[], errors), tpcf.AtEnd(), pics, tp, values, keys);
    ValuesCoverKept(pt, ParseRows(pid, PidRowOf).value);
    Ok((st, pt))
  }
}
