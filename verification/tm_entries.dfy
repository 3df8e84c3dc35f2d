/** The parameters of the telemetry packets: at fixed locations (the PLF
    table) and in variable packets (the VPD table), where a group counter is
    followed by the parameters it repeats. */
module TmEntries {
  import opened Wrappers
  import opened Text
  import opened JavaInt
  import opened Mdb
  import opened MibLoaderBits
  import opened BaseMibLoader
  import opened MonitoringData
  import opened Collections
  import opened TmParameters
  import opened TmPackets

  // ---------------------------------------------------------------------------
  // PLF: parameter locations in fixed packets

  const IDX_PLF_NAME: nat := 0
  const IDX_PLF_SPID: nat := 1
  const IDX_PLF_OFFBY: nat := 2
  const IDX_PLF_OFFBI: nat := 3
  const IDX_PLF_NBOCC: nat := 4
  const IDX_PLF_LGOCC: nat := 5

  /** The reference of an indirect entry: the related parameter, absent
      (a null reference) when the space system does not have it. */
  function RelatedRef(params: map<string, Parameter>, dp: DeducedParameter): (r: Option<string>)
    ensures r.Some? <==> dp.refPname in params
    ensures r.Some? ==> r.value == dp.refPname
  {
    if dp.refPname in params then Some(dp.refPname) else None
  }

  /** The entry of a deduced parameter: the parameter found at run time by the
      value of its related parameter, as an on-board id. */
  function DeducedEntry(params: map<string, Parameter>, dp: DeducedParameter, location: Location, offset: int): Entry {
    Entry(IndirectEntry(RelatedRef(params, dp), OB_PID_NAMESPACE), location, offset, None)
  }

  /** One PLF row: the container to extend and the entry, or nothing when the
      SPID has no container. */
  function PlfRow(ctx: Context, line: seq<string>, ss: SpaceSystem, spidToContainer: map<int, string>,
                  deduced: map<string, DeducedParameter>, synthetic: map<string, PcfRecord>)
    : (r: Result<Option<(string, Entry)>, LoadError>)
    ensures r.Ok? ==> |line| > IDX_PLF_OFFBI && GetUnsignedLong(ctx, line, IDX_PLF_SPID).Ok?
    ensures r.Ok? && r.value.Some? ==>
      var spid := GetUnsignedLong(ctx, line, IDX_PLF_SPID).value;
      spid in spidToContainer && r.value.value.0 == spidToContainer[spid]
  {
    var cols := [IDX_PLF_NAME, IDX_PLF_SPID, IDX_PLF_OFFBY, IDX_PLF_OFFBI];
    assert CheckMandatory(ctx, line, cols).Ok? <==> |line| > IDX_PLF_OFFBI by {
      if |line| > IDX_PLF_OFFBI { assert forall i :: 0 <= i < |cols| ==> cols[i] < |line|; }
      else { assert !(cols[3] < |line|); }
    }
    var _ :- CheckMandatory(ctx, line, cols);
    var spid :- GetUnsignedLong(ctx, line, IDX_PLF_SPID);
    if spid !in spidToContainer then Ok(None)
    else
      var e :- PlfEntry(ctx, line, ss, deduced, synthetic);
      Ok(if e.Some? then Some((spidToContainer[spid], e.value)) else None)
  }

  /** The entry of a PLF row whose packet has a container, or nothing for a
      synthetic parameter. The location is `8 * OFFBY + OFFBI` in Java `int`
      arithmetic; more than one occurrence makes a fixed repeat with `LGOCC`
      bits between them. A deduced parameter is read indirectly through its
      related one; any other must be known. */
  function PlfEntry(ctx: Context, line: seq<string>, ss: SpaceSystem,
                    deduced: map<string, DeducedParameter>, synthetic: map<string, PcfRecord>)
    : (r: Result<Option<Entry>, LoadError>)
    requires |line| > IDX_PLF_OFFBI
    ensures r.Ok? ==> GetInt(ctx, line, IDX_PLF_OFFBY).Ok? && GetInt(ctx, line, IDX_PLF_OFFBI).Ok?
    ensures r.Ok? ==> GetIntOr(ctx, line, IDX_PLF_NBOCC, 1).Ok? && GetIntOr(ctx, line, IDX_PLF_NBOCC, 1).value >= 1
    ensures r.Ok? && r.value.None? <==> r.Ok? && line[IDX_PLF_NAME] !in deduced && line[IDX_PLF_NAME] in synthetic
    ensures r.Ok? && r.value.Some? ==>
      var pname := line[IDX_PLF_NAME];
      var e := r.value.value;
      var nbocc := GetIntOr(ctx, line, IDX_PLF_NBOCC, 1).value;
      && e.location == ContainerStart
      && e.offsetBits == Wrap32(GetInt(ctx, line, IDX_PLF_OFFBY).value * 8 + GetInt(ctx, line, IDX_PLF_OFFBI).value)
      && (pname in deduced ==> e.kind == IndirectEntry(RelatedRef(ss.parameters, deduced[pname]), OB_PID_NAMESPACE))
      && (pname !in deduced ==> pname in ss.parameters && e.kind == ParamEntry(pname))
      && (e.repeat.None? <==> nbocc == 1)
      && (e.repeat.Some? ==>
            && GetIntOr(ctx, line, IDX_PLF_LGOCC, 0).Ok?
            && e.repeat.value == FixedRepeat(nbocc, GetIntOr(ctx, line, IDX_PLF_LGOCC, 0).value))
  {
    var pname := line[IDX_PLF_NAME];
    var offby :- GetInt(ctx, line, IDX_PLF_OFFBY);
    var offbi :- GetInt(ctx, line, IDX_PLF_OFFBI);
    var location := Wrap32(offby * 8 + offbi);
    var nbocc :- GetIntOr(ctx, line, IDX_PLF_NBOCC, 1);
    if nbocc < 1 then Err(MibLoadError(Some(ctx), "Invalid PLF_NBOCC " + IntToString(nbocc)))
    else if pname !in deduced && pname in synthetic then Ok(None)
    else if pname !in deduced && pname !in ss.parameters then Err(MibLoadError(Some(ctx), "Unknown parameter '" + pname + "'"))
    else
      var kind := if pname in deduced then IndirectEntry(RelatedRef(ss.parameters, deduced[pname]), OB_PID_NAMESPACE) else ParamEntry(pname);
      var repeat :-
        if nbocc > 1 then
          var lgocc :- GetIntOr(ctx, line, IDX_PLF_LGOCC, 0);
          Ok(Some(FixedRepeat(nbocc, lgocc)))
        else Ok(None);
      Ok(Some(Entry(kind, ContainerStart, location, repeat)))
  }

  /** The two errors of a PLF row with readable columns: an occurrence count
      below one, and a parameter that is neither deduced, synthetic nor
      known. */
  lemma PlfEntryErrors(ctx: Context, line: seq<string>, ss: SpaceSystem,
                       deduced: map<string, DeducedParameter>, synthetic: map<string, PcfRecord>)
    requires |line| > IDX_PLF_OFFBI
    requires GetInt(ctx, line, IDX_PLF_OFFBY).Ok? && GetInt(ctx, line, IDX_PLF_OFFBI).Ok?
    requires GetIntOr(ctx, line, IDX_PLF_NBOCC, 1).Ok?
    ensures var nbocc := GetIntOr(ctx, line, IDX_PLF_NBOCC, 1).value;
      nbocc < 1 ==> PlfEntry(ctx, line, ss, deduced, synthetic) == Err(MibLoadError(Some(ctx), "Invalid PLF_NBOCC " + IntToString(nbocc)))
    ensures var pname := line[IDX_PLF_NAME];
      GetIntOr(ctx, line, IDX_PLF_NBOCC, 1).value >= 1 && pname !in deduced && pname !in synthetic && pname !in ss.parameters ==>
      PlfEntry(ctx, line, ss, deduced, synthetic) == Err(MibLoadError(Some(ctx), "Unknown parameter '" + pname + "'"))
  {
  }

  /** `seq.addEntry(entry)` for each kept row in turn. */
  function AppendAll(ss: SpaceSystem, adds: seq<(string, Entry)>): (r: SpaceSystem)
    requires ss.WellFormed()
    requires forall i :: 0 <= i < |adds| ==> adds[i].0 in ss.containers
    ensures r.WellFormed()
    ensures r.containers.Keys == ss.containers.Keys && r.containerOrder == ss.containerOrder
    ensures r.parameters == ss.parameters && r.parameterTypes == ss.parameterTypes && r.commands == ss.commands
    decreases |adds|
  {
    if |adds| == 0 then ss
    else AppendAll(ss, adds[..|adds| - 1]).AppendEntries(adds[|adds| - 1].0, [adds[|adds| - 1].1])
  }

  /** Each container ends with the entries added to it, in order, and is
      otherwise unchanged. */
  lemma {:induction false} AppendAllEntries(ss: SpaceSystem, adds: seq<(string, Entry)>, k: string)
    requires ss.WellFormed()
    requires forall i :: 0 <= i < |adds| ==> adds[i].0 in ss.containers
    requires k in ss.containers
    ensures AppendAll(ss, adds).containers[k] == ss.containers[k].(entries := ss.containers[k].entries + Select(adds, k))
    decreases |adds|
  {
    if |adds| > 0 {
      var init := adds[..|adds| - 1];
      var (c, e) := adds[|adds| - 1];
      AppendAllEntries(ss, init, k);
      var ss1 := AppendAll(ss, init);
      var r := ss1.AppendEntries(c, [e]);
      assert AppendAll(ss, adds) == r;
      assert r.containers == ss1.containers[c := ss1.containers[c].(entries := ss1.containers[c].entries + [e])];
      assert Select(adds, k) == Select(init, k) + (if k == c then [e] else []);
      if k == c {
        assert r.containers[k].entries == ss.containers[k].entries + Select(init, k) + [e];
      } else {
        assert r.containers[k] == ss1.containers[k];
      }
    }
  }

  /** Every kept row names a container the packet pass made. */
  lemma {:induction false} KeptTargets(outs: seq<Option<(string, Entry)>>, targets: set<string>)
    requires forall i :: 0 <= i < |outs| && outs[i].Some? ==> outs[i].value.0 in targets
    ensures forall i :: 0 <= i < |Somes(outs)| ==> Somes(outs)[i].0 in targets
    decreases |outs|
  {
    if |outs| > 0 {
      var init := outs[..|outs| - 1];
      assert forall i :: 0 <= i < |init| ==> init[i] == outs[i];
      KeptTargets(init, targets);
    }
  }

  /** `loadPacketEntries`: every row parsed against the state the packet pass
      left (the parameters do not change meanwhile), then each kept entry
      appended to its packet's container, in row order. */
  function LoadPacketEntries(st: PacketState, deduced: map<string, DeducedParameter>, synthetic: map<string, PcfRecord>,
                             plf: Table): (r: Result<SpaceSystem, LoadError>)
    requires st.Valid()
    ensures r.Ok? ==> r.value.WellFormed()
    ensures r.Ok? ==> r.value.containers.Keys == st.ss.containers.Keys && r.value.parameters == st.ss.parameters
    ensures r.Ok? <==> ParseRows(plf, (ctx, line) => PlfRow(ctx, line, st.ss, st.spidToContainer, deduced, synthetic)).Ok?
    ensures r.Ok? ==>
      var adds := Somes(ParseRows(plf, (ctx, line) => PlfRow(ctx, line, st.ss, st.spidToContainer, deduced, synthetic)).value);
      forall c :: c in st.ss.containers ==>
        r.value.containers[c].entries == st.ss.containers[c].entries + Select(adds, c)
  {
    var outs :- ParseRows(plf, (ctx, line) => PlfRow(ctx, line, st.ss, st.spidToContainer, deduced, synthetic));
    KeptTargets(outs, st.ss.containers.Keys);
    var adds := Somes(outs);
    forall c | c in st.ss.containers
      ensures AppendAll(st.ss, adds).containers[c].entries == st.ss.containers[c].entries + Select(adds, c)
    {
      AppendAllEntries(st.ss, adds, c);
    }
    Ok(AppendAll(st.ss, adds))
  }

  // ---------------------------------------------------------------------------
  // VPD: variable packets

  const IDX_VPD_TPSD: nat := 0
  const IDX_VPD_POS: nat := 1
  const IDX_VPD_NAME: nat := 2
  const IDX_VPD_GRPSIZE: nat := 3
  const IDX_VPD_CHOICE: nat := 5
  const IDX_VPD_OFFSET: nat := 13

  /** One VPD row: TPSD, position and name are mandatory; the group size and
      the offset default to 0 and the choice flag to "N". FIXREP is not read. */
  function VpdRow(ctx: Context, line: seq<string>): (r: Result<VpdRecord, LoadError>)
    ensures r.Ok? <==>
      && |line| > IDX_VPD_NAME && GetLong(ctx, line, IDX_VPD_TPSD).Ok? && GetInt(ctx, line, IDX_VPD_POS).Ok?
      && GetIntOr(ctx, line, IDX_VPD_GRPSIZE, 0).Ok? && GetIntOr(ctx, line, IDX_VPD_OFFSET, 0).Ok?
    ensures r.Ok? ==>
      && Ok(r.value.tpsd) == GetLong(ctx, line, IDX_VPD_TPSD) && Ok(r.value.pos) == GetInt(ctx, line, IDX_VPD_POS)
      && r.value.name == line[IDX_VPD_NAME] && Ok(r.value.grpSize) == GetIntOr(ctx, line, IDX_VPD_GRPSIZE, 0)
      && r.value.choice == GetString(line, IDX_VPD_CHOICE, "N") && Ok(r.value.offset) == GetIntOr(ctx, line, IDX_VPD_OFFSET, 0)
  {
    var cols := [IDX_VPD_TPSD, IDX_VPD_POS, IDX_VPD_NAME];
    assert CheckMandatory(ctx, line, cols).Ok? <==> |line| > IDX_VPD_NAME by {
      if |line| > IDX_VPD_NAME { assert forall i :: 0 <= i < |cols| ==> cols[i] < |line|; }
      else { assert !(cols[2] < |line|); }
    }
    var _ :- CheckMandatory(ctx, line, cols);
    var tpsd :- GetLong(ctx, line, IDX_VPD_TPSD);
    var pos :- GetInt(ctx, line, IDX_VPD_POS);
    var grpSize :- GetIntOr(ctx, line, IDX_VPD_GRPSIZE, 0);
    var offset :- GetIntOr(ctx, line, IDX_VPD_OFFSET, 0);
    Ok(VpdRecord(tpsd, pos, line[IDX_VPD_NAME], grpSize, 0, GetString(line, IDX_VPD_CHOICE, "N"), offset))
  }

  /** The entries a variable packet adds to a container, and the containers
      of its groups, in the order they are added to the space system. */
  datatype VpdOut = VpdOut(entries: seq<Entry>, nested: seq<Container>)

  /** The entry of one VPD slot: a parameter entry, or an indirect one for a
      deduced parameter. A name that is neither is a null dereference. */
  function VpdEntry(params: map<string, Parameter>, deduced: map<string, DeducedParameter>, name: string, location: Location, offset: int)
    : (r: Result<Entry, LoadError>)
    ensures r.Ok? <==> name in params || name in deduced
    ensures r.Ok? ==> r.value.location == location && r.value.offsetBits == offset && r.value.repeat.None?
    ensures r.Ok? && name in params ==> r.value.kind == ParamEntry(name)
    ensures r.Ok? && name !in params ==> r.value.kind == IndirectEntry(RelatedRef(params, deduced[name]), OB_PID_NAMESPACE)
  {
    if name in params then Ok(Entry(ParamEntry(name), location, offset, None))
    else if name in deduced then Ok(DeducedEntry(params, deduced[name], location, offset))
    else Err(NullPointer())
  }

  /** The repeat of the slots a group counter governs: as many times as the
      counter's value, the counter referenced only when it is a parameter. */
  function CounterRepeat(params: map<string, Parameter>, name: string): (r: Repeat)
    ensures r.DynamicRepeat? && (r.counter.Some? <==> name in params)
    ensures r.counter.Some? ==> r.counter.value == name
  {
    DynamicRepeat(if name in params then Some(name) else None)
  }

  function GroupName(seqName: string, count: int): string {
    seqName + "_" + IntToString(count)
  }

  function Overrun(vpd: VpdRecord, i: int): LoadError {
    MibLoadError(None, "Inconsistency in vpd file, for parameter " + vpd.name + " on position " + IntToString(vpd.pos)
      + " grp size is " + IntToString(vpd.grpSize) + " but there are only " + IntToString(i)
      + " positions left until the end of the structure")
  }

  /** `addVdpParamsToContainer` from slot `i` on, `count` slots of the packet
      numbered so far. The first slot of the packet is placed from the start of
      the container, `absOffset` bits further; every other slot follows the
      previous entry. A slot with a group size of one is followed by the
      parameter it repeats; a larger group becomes a container of its own,
      repeated by the counter. */
  function VpdWalk(params: map<string, Parameter>, deduced: map<string, DeducedParameter>, seqName: string, absOffset: int,
                   recs: seq<VpdRecord>, i: nat, count: int): (r: Result<VpdOut, LoadError>)
    requires i <= |recs|
    decreases |recs| - i
  {
    if i == |recs| then Ok(VpdOut([], []))
    else
      var count1 := count + 1;
      var vpd := recs[i];
      var first := count1 == 1;
      var e :- VpdEntry(params, deduced, vpd.name, if first then ContainerStart else PreviousEntry,
                        if first then Wrap32(vpd.offset + absOffset) else vpd.offset);
      if vpd.grpSize <= 0 then
        var rest :- VpdWalk(params, deduced, seqName, absOffset, recs, i + 1, count1);
        Ok(VpdOut([e] + rest.entries, rest.nested))
      else if |recs| - i - 1 < vpd.grpSize then Err(Overrun(vpd, i))
      else if vpd.grpSize == 1 then
        var vpd1 := recs[i + 1];
        if vpd1.name !in params then
          Err(MibLoadError(None, "Cannot find parameter '" + vpd.name + " referenced in vpd table"))
        else
          var e1 := Entry(ParamEntry(vpd1.name), PreviousEntry, vpd1.offset, Some(CounterRepeat(params, vpd.name)));
          var rest :- VpdWalk(params, deduced, seqName, absOffset, recs, i + 2, count1);
          Ok(VpdOut([e, e1] + rest.entries, rest.nested))
      else
        var name1 := GroupName(seqName, count1);
        var ce := Entry(ContainerRef(name1), PreviousEntry, 0, Some(CounterRepeat(params, vpd.name)));
        var inner :- VpdWalk(params, deduced, name1, -1, recs[i + 1..i + 1 + vpd.grpSize], 0, count1);
        var rest :- VpdWalk(params, deduced, seqName, absOffset, recs, i + 1 + vpd.grpSize, count1);
        Ok(VpdOut([e, ce] + rest.entries, inner.nested + [Container(name1, None, None, inner.entries)] + rest.nested))
  }

  /** Every entry is placed after the previous one. */
  predicate AllFollow(es: seq<Entry>) {
    forall j :: 0 <= j < |es| ==> es[j].location == PreviousEntry
  }

  /** The slot after slot `i` and the records it consumes. */
  function NextSlot(recs: seq<VpdRecord>, i: nat): nat
    requires i < |recs|
  {
    if recs[i].grpSize <= 0 then i + 1 else if recs[i].grpSize == 1 then i + 2 else i + 1 + recs[i].grpSize
  }

  /** One slot: its own entry first, then entries that follow the previous
      one, then what the walk from the next slot adds. */
  lemma VpdWalkStep(ss: SpaceSystem, deduced: map<string, DeducedParameter>, seqName: string,
                    absOffset: int, recs: seq<VpdRecord>, i: nat, count: int)
    requires i < |recs|
    requires VpdWalk(ss.parameters, deduced, seqName, absOffset, recs, i, count).Ok?
    ensures NextSlot(recs, i) <= |recs|
    ensures var es := VpdWalk(ss.parameters, deduced, seqName, absOffset, recs, i, count).value.entries;
      var rest := VpdWalk(ss.parameters, deduced, seqName, absOffset, recs, NextSlot(recs, i), count + 1);
      var first := count + 1 == 1;
      && rest.Ok?
      && 1 + |rest.value.entries| <= |es|
      && es[|es| - |rest.value.entries|..] == rest.value.entries
      && AllFollow(es[1..|es| - |rest.value.entries|])
      && es[0] == VpdEntry(ss.parameters, deduced, recs[i].name, if first then ContainerStart else PreviousEntry,
                           if first then Wrap32(recs[i].offset + absOffset) else recs[i].offset).value
    ensures var es := VpdWalk(ss.parameters, deduced, seqName, absOffset, recs, i, count).value.entries;
      && (recs[i].grpSize == 1 ==>
        && recs[i + 1].name in ss.parameters
        && es[1] == Entry(ParamEntry(recs[i + 1].name), PreviousEntry, recs[i + 1].offset, Some(CounterRepeat(ss.parameters, recs[i].name))))
      && (recs[i].grpSize > 1 ==>
        es[1] == Entry(ContainerRef(GroupName(seqName, count + 1)), PreviousEntry, 0, Some(CounterRepeat(ss.parameters, recs[i].name))))
  {
  }

  /** The errors of one slot: a name that is neither a parameter nor a deduced
      one, a group longer than the records left, and a counter of one whose
      repeated record is not a parameter (the message names the counter). */
  lemma VpdWalkErrors(ss: SpaceSystem, deduced: map<string, DeducedParameter>, seqName: string,
                      absOffset: int, recs: seq<VpdRecord>, i: nat, count: int)
    requires i < |recs|
    ensures var r := VpdWalk(ss.parameters, deduced, seqName, absOffset, recs, i, count);
      var vpd := recs[i];
      var known := vpd.name in ss.parameters || vpd.name in deduced;
      && (!known ==> r == Err(NullPointer()))
      && (known && vpd.grpSize > 0 && |recs| - i - 1 < vpd.grpSize ==> r == Err(Overrun(vpd, i)))
      && (known && vpd.grpSize == 1 && i + 1 < |recs| && recs[i + 1].name !in ss.parameters ==>
        r == Err(MibLoadError(None, "Cannot find parameter '" + vpd.name + " referenced in vpd table")))
  {
  }

  lemma AllFollowConcat(a: seq<Entry>, b: seq<Entry>)
    requires AllFollow(a) && AllFollow(b)
    ensures AllFollow(a + b)
  {
  }

  /** Placement: the first slot of the packet, and only that one, is placed
      from the start of the container, at its own offset plus `absOffset`
      (wrapped as a Java int); inside a group, every entry follows the
      previous one. */
  lemma {:induction false} VpdWalkPlacement(ss: SpaceSystem, deduced: map<string, DeducedParameter>, seqName: string,
                                            absOffset: int, recs: seq<VpdRecord>, i: nat, count: int)
    requires i <= |recs|
    requires VpdWalk(ss.parameters, deduced, seqName, absOffset, recs, i, count).Ok?
    ensures var es := VpdWalk(ss.parameters, deduced, seqName, absOffset, recs, i, count).value.entries;
      && (count >= 1 ==> AllFollow(es))
      && (count == 0 && i < |recs| ==>
        && |es| > 0
        && es[0].location == ContainerStart
        && es[0].offsetBits == Wrap32(recs[i].offset + absOffset)
        && AllFollow(es[1..]))
    decreases |recs| - i
  {
    if i < |recs| && count >= 0 {
      VpdWalkStep(ss, deduced, seqName, absOffset, recs, i, count);
      var next := NextSlot(recs, i);
      VpdWalkPlacement(ss, deduced, seqName, absOffset, recs, next, count + 1);
      var es := VpdWalk(ss.parameters, deduced, seqName, absOffset, recs, i, count).value.entries;
      var rs := VpdWalk(ss.parameters, deduced, seqName, absOffset, recs, next, count + 1).value.entries;
      var k := |es| - |rs|;
      assert AllFollow(rs);
      assert es[k..] == rs;
      assert AllFollow(es[1..k]);
      assert AllFollow(es[1..]) by {
        forall j | 1 <= j < |es| ensures es[j].location == PreviousEntry {
          if j < k { assert es[1..k][j - 1] == es[j]; } else { assert es[j] == rs[j - k]; }
        }
      }
      if count >= 1 {
        assert es[0].location == PreviousEntry;
        assert forall j | 1 <= j < |es| :: es[1..][j - 1] == es[j];
      }
    }
  }

  /** The containers one slot adds: those of its group, then the group's
      own container, when the slot opens a group of more than one record. */
  lemma VpdWalkNestedStep(ss: SpaceSystem, deduced: map<string, DeducedParameter>, seqName: string,
                          absOffset: int, recs: seq<VpdRecord>, i: nat, count: int)
    requires i < |recs|
    requires VpdWalk(ss.parameters, deduced, seqName, absOffset, recs, i, count).Ok?
    ensures NextSlot(recs, i) <= |recs|
    ensures var r := VpdWalk(ss.parameters, deduced, seqName, absOffset, recs, i, count).value;
      var rest := VpdWalk(ss.parameters, deduced, seqName, absOffset, recs, NextSlot(recs, i), count + 1);
      && rest.Ok?
      && (recs[i].grpSize <= 1 ==> r.nested == rest.value.nested)
      && (recs[i].grpSize > 1 ==>
        var name1 := GroupName(seqName, count + 1);
        var inner := VpdWalk(ss.parameters, deduced, name1, -1, recs[i + 1..i + 1 + recs[i].grpSize], 0, count + 1);
        && inner.Ok?
        && r.nested == inner.value.nested + [Container(name1, None, None, inner.value.entries)] + rest.value.nested)
  {
  }

  /** A container of a group of the packet `seqName`: named after the
      packet's container (its name, an underscore and the slot number, nested
      groups after their group's), without base or restriction, and made of
      entries that each follow the previous one. */
  predicate GroupContainer(seqName: string, c: Container) {
    && StartsWith(c.name, seqName + "_")
    && c.base.None? && c.restriction.None?
    && AllFollow(c.entries)
  }

  /** The containers of the groups are group containers. */
  lemma {:induction false} VpdWalkNested(ss: SpaceSystem, deduced: map<string, DeducedParameter>, seqName: string,
                                         absOffset: int, recs: seq<VpdRecord>, i: nat, count: int)
    requires i <= |recs| && count >= 0
    requires VpdWalk(ss.parameters, deduced, seqName, absOffset, recs, i, count).Ok?
    ensures forall c :: c in VpdWalk(ss.parameters, deduced, seqName, absOffset, recs, i, count).value.nested ==> GroupContainer(seqName, c)
    decreases |recs| - i
  {
    if i < |recs| {
      VpdWalkNestedStep(ss, deduced, seqName, absOffset, recs, i, count);
      var next := NextSlot(recs, i);
      VpdWalkNested(ss, deduced, seqName, absOffset, recs, next, count + 1);
      var g := recs[i].grpSize;
      if g > 1 {
        var name1 := GroupName(seqName, count + 1);
        var sub := recs[i + 1..i + 1 + g];
        var inner := VpdWalk(ss.parameters, deduced, name1, -1, sub, 0, count + 1).value;
        var rest := VpdWalk(ss.parameters, deduced, seqName, absOffset, recs, next, count + 1).value.nested;
        VpdWalkNested(ss, deduced, name1, -1, sub, 0, count + 1);
        VpdWalkPlacement(ss, deduced, name1, -1, sub, 0, count + 1);
        NestedNames(seqName, count + 1, []);
        GroupsUnder(seqName, count + 1, inner.nested);
        var own := Container(name1, None, None, inner.entries);
        assert GroupContainer(seqName, own);
        GroupContainersJoin(seqName, inner.nested, own, rest);
      }
    }
  }

  /** The group containers of a group are group containers of the packet. */
  lemma GroupsUnder(seqName: string, count: int, cs: seq<Container>)
    requires forall c :: c in cs ==> GroupContainer(GroupName(seqName, count), c)
    ensures forall c :: c in cs ==> GroupContainer(seqName, c)
  {
    NestedNames(seqName, count, cs);
  }

  /** Group containers put together stay group containers. */
  lemma GroupContainersJoin(seqName: string, a: seq<Container>, c: Container, b: seq<Container>)
    requires forall x :: x in a ==> GroupContainer(seqName, x)
    requires GroupContainer(seqName, c)
    requires forall x :: x in b ==> GroupContainer(seqName, x)
    ensures forall x :: x in a + [c] + b ==> GroupContainer(seqName, x)
  {
  }

  /** The entry of the `n`-th slot (from 0) of a packet without groups. */
  ghost predicate FlatSlot(ss: SpaceSystem, deduced: map<string, DeducedParameter>, absOffset: int,
                           vpd: VpdRecord, n: int, e: Entry)
  {
    && (vpd.name in ss.parameters ==> e.kind == ParamEntry(vpd.name))
    && (vpd.name !in ss.parameters ==> vpd.name in deduced && e.kind == IndirectEntry(RelatedRef(ss.parameters, deduced[vpd.name]), OB_PID_NAMESPACE))
    && (e.location == ContainerStart <==> n == 0)
    && e.location in {ContainerStart, PreviousEntry}
    && e.offsetBits == (if n == 0 then Wrap32(vpd.offset + absOffset) else vpd.offset)
    && e.repeat.None?
  }

  /** A packet without groups: one entry per record, in order, and no
      containers; it fails, on a null dereference, exactly when some name is
      neither a parameter nor a deduced parameter. */
  lemma {:induction false} VpdWalkFlat(ss: SpaceSystem, deduced: map<string, DeducedParameter>, seqName: string,
                                       absOffset: int, recs: seq<VpdRecord>, i: nat, count: int)
    requires i <= |recs| && count >= 0
    requires forall j :: i <= j < |recs| ==> recs[j].grpSize <= 0
    ensures var r := VpdWalk(ss.parameters, deduced, seqName, absOffset, recs, i, count);
      && (r.Ok? <==> forall j :: i <= j < |recs| ==> recs[j].name in ss.parameters || recs[j].name in deduced)
      && (r.Err? ==> r.error == NullPointer())
      && (r.Ok? ==>
        && r.value.nested == []
        && |r.value.entries| == |recs| - i
        && forall j :: 0 <= j < |r.value.entries| ==> FlatSlot(ss, deduced, absOffset, recs[i + j], count + j, r.value.entries[j]))
    decreases |recs| - i
  {
    if i < |recs| {
      VpdWalkFlat(ss, deduced, seqName, absOffset, recs, i + 1, count + 1);
      var r := VpdWalk(ss.parameters, deduced, seqName, absOffset, recs, i, count);
      var rest := VpdWalk(ss.parameters, deduced, seqName, absOffset, recs, i + 1, count + 1);
      if r.Ok? {
        var es := r.value.entries;
        assert es[1..] == rest.value.entries;
        forall j | 0 <= j < |es| ensures FlatSlot(ss, deduced, absOffset, recs[i + j], count + j, es[j]) {
          if j > 0 { assert es[j] == rest.value.entries[j - 1]; }
        }
      }
    }
  }

  /** The containers of a group's own groups are named after the group, so
      after the packet too. */
  lemma NestedNames(seqName: string, count: int, cs: seq<Container>)
    requires forall c :: c in cs ==> StartsWith(c.name, GroupName(seqName, count) + "_")
    ensures forall c :: c in cs ==> StartsWith(c.name, seqName + "_")
    ensures StartsWith(GroupName(seqName, count), seqName + "_")
  {
    var p := seqName + "_";
    var g := GroupName(seqName, count);
    assert g[..|p|] == p;
    forall c | c in cs ensures StartsWith(c.name, p) {
      PrefixOfPrefix(c.name, g + "_", p);
    }
  }

  /** A prefix of a prefix of a string is a prefix of it. */
  lemma PrefixOfPrefix(s: string, q: string, p: string)
    requires StartsWith(s, q) && StartsWith(q, p)
    ensures StartsWith(s, p)
  {
    assert s[..|p|] == q[..|p|];
  }

  // ---------------------------------------------------------------------------
  // loadVpd

  /** A VPD row read: kept under its TPSD, or dropped because no packet has
      that TPSD. */
  datatype VpdOutcome = NoPid(tpsd: int, ctx: Context) | VpdKept(rec: VpdRecord)

  function NoPcf(ctx: Context, name: string): LoadError {
    MibLoadError(Some(ctx), "VPD_NAME=" + name + " has no correspondence in the pcf table")
  }

  function NoPidFor(ctx: Context, tpsd: int): LoadError {
    MibLoadError(Some(ctx), "VPD_TPSD=" + IntToString(tpsd) + " has no correspondence in the pid table")
  }

  /** One iteration of the row loop: a TPSD no packet uses drops the row
      (before its name is looked at); otherwise the name must be a parameter
      or a deduced parameter. */
  function VpdClassify(ctx: Context, line: seq<string>, ss: SpaceSystem, deduced: map<string, DeducedParameter>,
                       pidVpd: map<int, seq<PidRecord>>): (r: Result<VpdOutcome, LoadError>)
    ensures r.Ok? <==>
      && VpdRow(ctx, line).Ok?
      && var v := VpdRow(ctx, line).value;
      v.tpsd !in pidVpd || v.name in ss.parameters || v.name in deduced
    ensures VpdRow(ctx, line).Ok? && r.Err? ==> r.error == NoPcf(ctx, VpdRow(ctx, line).value.name)
    ensures r.Ok? ==>
      var v := VpdRow(ctx, line).value;
      && (r.value.NoPid? <==> v.tpsd !in pidVpd)
      && (r.value.NoPid? ==> r.value == NoPid(v.tpsd, ctx))
      && (r.value.VpdKept? ==> r.value.rec == v)
  {
    var v :- VpdRow(ctx, line);
    if v.tpsd !in pidVpd then Ok(NoPid(v.tpsd, ctx))
    else if v.name !in ss.parameters && v.name !in deduced then Err(NoPcf(ctx, v.name))
    else Ok(VpdKept(v))
  }

  /** The TPSDs of the dropped rows. */
  function DroppedTpsds(outs: seq<VpdOutcome>): (r: set<int>)
    ensures forall t :: t in r <==> exists i :: 0 <= i < |outs| && outs[i].NoPid? && outs[i].tpsd == t
    decreases |outs|
  {
    if |outs| == 0 then {}
    else
      var last := outs[|outs| - 1];
      var prefix := outs[..|outs| - 1];
      assert forall i :: 0 <= i < |prefix| ==> prefix[i] == outs[i];
      DroppedTpsds(prefix) + (if last.NoPid? then {last.tpsd} else {})
  }

  /** The errors the row loop reports: one per TPSD that no packet uses, at
      the first row that has it. */
  function SkipErrors(outs: seq<VpdOutcome>): (r: seq<LoadError>)
    ensures forall e :: e in r ==> exists i :: 0 <= i < |outs| && outs[i].NoPid? && e == NoPidFor(outs[i].ctx, outs[i].tpsd)
    decreases |outs|
  {
    if |outs| == 0 then []
    else
      var last := outs[|outs| - 1];
      var prefix := outs[..|outs| - 1];
      assert forall i :: 0 <= i < |prefix| ==> prefix[i] == outs[i];
      SkipErrors(prefix) + (if last.NoPid? && last.tpsd !in DroppedTpsds(prefix) then [NoPidFor(last.ctx, last.tpsd)] else [])
  }

  /** Exactly one error per TPSD that no packet uses. */
  lemma {:induction false} SkipErrorsOnePerTpsd(outs: seq<VpdOutcome>)
    ensures |SkipErrors(outs)| == |DroppedTpsds(outs)|
    decreases |outs|
  {
    if |outs| > 0 {
      var prefix := outs[..|outs| - 1];
      var last := outs[|outs| - 1];
      SkipErrorsOnePerTpsd(prefix);
      if last.NoPid? && last.tpsd !in DroppedTpsds(prefix) {
        assert DroppedTpsds(outs) == DroppedTpsds(prefix) + {last.tpsd};
      } else {
        assert DroppedTpsds(outs) == DroppedTpsds(prefix);
      }
    }
  }

  /** The records kept, each with its TPSD. */
  function KeptVpd(outs: seq<VpdOutcome>): (r: seq<(int, VpdRecord)>)
    ensures forall p :: p in r ==> p.0 == p.1.tpsd && exists j :: 0 <= j < |outs| && outs[j] == VpdKept(p.1)
    decreases |outs|
  {
    if |outs| == 0 then []
    else
      var last := outs[|outs| - 1];
      var prefix := outs[..|outs| - 1];
      assert forall i :: 0 <= i < |prefix| ==> prefix[i] == outs[i];
      KeptVpd(prefix) + (if last.VpdKept? then [(last.rec.tpsd, last.rec)] else [])
  }

  /** The records map of the row loop, its lists then sorted: the kept
      records of each TPSD, ordered by position, those at the same position
      in file order. */
  function VpdRecords(outs: seq<VpdOutcome>): (r: Groups<int, VpdRecord>)
    ensures GroupsValid(r)
    ensures forall k :: k in r.lists <==> Select(KeptVpd(outs), k) != []
    ensures forall k :: k in r.lists ==>
      && SortedBy(r.lists[k], PosKey)
      && multiset(r.lists[k]) == multiset(Select(KeptVpd(outs), k))
      && forall p :: WithKey(r.lists[k], PosKey, p) == WithKey(Select(KeptVpd(outs), k), PosKey, p)
  {
    var g := GroupBy(KeptVpd(outs));
    GroupByValid(KeptVpd(outs));
    GroupByLists(KeptVpd(outs));
    SortLists(g)
  }

  function PosKey(v: VpdRecord): int {
    v.pos
  }

  /** `l.sort(by pos)` for every list: stable, so records at the same position
      keep the order of the file. */
  function SortLists(g: Groups<int, VpdRecord>): (r: Groups<int, VpdRecord>)
    ensures r.order == g.order && r.lists.Keys == g.lists.Keys
    ensures forall k :: k in r.lists ==>
      && SortedBy(r.lists[k], PosKey)
      && multiset(r.lists[k]) == multiset(g.lists[k])
      && forall p :: WithKey(r.lists[k], PosKey, p) == WithKey(g.lists[k], PosKey, p)
  {
    var r := Groups(map k | k in g.lists :: SortBy(g.lists[k], PosKey), g.order);
    forall k | k in r.lists
      ensures SortedBy(r.lists[k], PosKey) && forall p :: WithKey(r.lists[k], PosKey, p) == WithKey(g.lists[k], PosKey, p)
    {
      SortBySorted(g.lists[k], PosKey);
      forall p ensures WithKey(r.lists[k], PosKey, p) == WithKey(g.lists[k], PosKey, p) {
        SortByStable(g.lists[k], PosKey, p);
      }
    }
    r
  }

  /** The variable part of one packet: the walk from its first slot, placed
      after the data field header, its entries appended to the packet's
      container and its group containers added. A SPID without a container
      is a null dereference. */
  function ApplyVpd(st: PacketState, deduced: map<string, DeducedParameter>, recs: seq<VpdRecord>, pr: PidRecord)
    : (r: Result<PacketState, LoadError>)
    requires st.Valid()
    ensures r.Ok? ==> r.value.Valid() && Grows(st, r.value) && r.value.errors == st.errors
    ensures r.Ok? ==> r.value.spidToContainer == st.spidToContainer && r.value.ss.parameters == st.ss.parameters
    ensures r.Ok? && |recs| > 0 ==>
      && pr.spid in st.spidToContainer
      && var name := st.spidToContainer[pr.spid];
      var out := VpdWalk(st.ss.parameters, deduced, name, Wrap32(8 * pr.dfhsize), recs, 0, 0);
      && out.Ok?
      && r.value.ss.containers[name].entries == st.ss.containers[name].entries + out.value.entries
      && forall c :: c in out.value.nested ==> c.name in r.value.ss.containers
  {
    if |recs| == 0 then Ok(st)
    else if pr.spid !in st.spidToContainer then Err(NullPointer())
    else
      var name := st.spidToContainer[pr.spid];
      var out :- VpdWalk(st.ss.parameters, deduced, name, Wrap32(8 * pr.dfhsize), recs, 0, 0);
      VpdWalkNested(st.ss, deduced, name, Wrap32(8 * pr.dfhsize), recs, 0, 0);
      var ss1 := st.ss.AppendEntries(name, out.entries);
      var ss2 := PutAll(ss1, out.nested);
      PutAllKeeps(ss1, out.nested, name);
      Ok(st.(ss := ss2))
  }

  /** Adds containers in order, a later one replacing an earlier one of the
      same name. */
  function PutAll(ss: SpaceSystem, cs: seq<Container>): (r: SpaceSystem)
    requires ss.WellFormed()
    ensures r.WellFormed()
    ensures r.containers.Keys == ss.containers.Keys + set c | c in cs :: c.name
    ensures r.parameters == ss.parameters
    decreases |cs|
  {
    if |cs| == 0 then ss
    else
      var r := PutAll(ss, cs[..|cs| - 1]).PutContainer(cs[|cs| - 1]);
      assert forall c :: c in cs ==> c in cs[..|cs| - 1] || c == cs[|cs| - 1];
      r
  }

  /** A container none of the added ones is named after is left as it was. */
  lemma {:induction false} PutAllKeeps(ss: SpaceSystem, cs: seq<Container>, n: string)
    requires ss.WellFormed() && n in ss.containers
    requires forall c :: c in cs ==> c.name != n
    ensures PutAll(ss, cs).containers[n] == ss.containers[n]
    decreases |cs|
  {
    if |cs| > 0 {
      PutAllKeeps(ss, cs[..|cs| - 1], n);
    }
  }

  /** The containers of the packets `prs` are pairwise distinct, and none is
      named like a group container (`<name>_...`) of another. */
  ghost predicate Separate(m: map<int, string>, prs: seq<PidRecord>) {
    forall i, j :: 0 <= i < |prs| && 0 <= j < |prs| && prs[i].spid in m && prs[j].spid in m ==>
      && (i != j ==> m[prs[i].spid] != m[prs[j].spid])
      && !StartsWith(m[prs[i].spid], m[prs[j].spid] + "_")
  }

  /** Container `n` is neither the container of a packet of `prs` nor named
      like one of its group containers. */
  ghost predicate Outside(m: map<int, string>, prs: seq<PidRecord>, n: string) {
    forall pr :: pr in prs && pr.spid in m ==> n != m[pr.spid] && !StartsWith(n, m[pr.spid] + "_")
  }

  /** Every container of `a` outside the packets `prs` is the same in `b`. */
  ghost predicate Untouched(a: PacketState, b: PacketState, prs: seq<PidRecord>) {
    forall n :: n in a.ss.containers && Outside(a.spidToContainer, prs, n) ==>
      n in b.ss.containers && b.ss.containers[n] == a.ss.containers[n]
  }

  /** The container of packet `pr` has, in `b`, its entries of `a` followed by
      the walk of `recs` placed after the packet's data field header. */
  ghost predicate AppendedFor(a: PacketState, b: PacketState, deduced: map<string, DeducedParameter>,
                              recs: seq<VpdRecord>, pr: PidRecord) {
    && pr.spid in a.spidToContainer
    && var name := a.spidToContainer[pr.spid];
    var out := VpdWalk(a.ss.parameters, deduced, name, Wrap32(8 * pr.dfhsize), recs, 0, 0);
    && out.Ok? && name in a.ss.containers && name in b.ss.containers
    && b.ss.containers[name].entries == a.ss.containers[name].entries + out.value.entries
  }

  ghost predicate EntriesAppended(a: PacketState, b: PacketState, deduced: map<string, DeducedParameter>,
                                  recs: seq<VpdRecord>, prs: seq<PidRecord>) {
    forall pr :: pr in prs ==> AppendedFor(a, b, deduced, recs, pr)
  }

  /** The parts of a separate concatenation are separate, and the containers
      of each part lie outside the other part. */
  lemma SeparateSplit(m: map<int, string>, a: seq<PidRecord>, b: seq<PidRecord>)
    requires Separate(m, a + b)
    ensures Separate(m, a) && Separate(m, b)
    ensures forall pr :: pr in a && pr.spid in m ==> Outside(m, b, m[pr.spid])
    ensures forall pr :: pr in b && pr.spid in m ==> Outside(m, a, m[pr.spid])
  {
    var ab := a + b;
    assert forall i :: 0 <= i < |a| ==> ab[i] == a[i];
    assert forall j :: 0 <= j < |b| ==> ab[|a| + j] == b[j];
    forall pr | pr in a && pr.spid in m ensures Outside(m, b, m[pr.spid]) {
      var i :| 0 <= i < |a| && a[i] == pr;
      forall q | q in b && q.spid in m ensures m[pr.spid] != m[q.spid] && !StartsWith(m[pr.spid], m[q.spid] + "_") {
        var j :| 0 <= j < |b| && b[j] == q;
        assert ab[i] == pr && ab[|a| + j] == q;
      }
    }
    forall pr | pr in b && pr.spid in m ensures Outside(m, a, m[pr.spid]) {
      var j :| 0 <= j < |b| && b[j] == pr;
      forall q | q in a && q.spid in m ensures m[pr.spid] != m[q.spid] && !StartsWith(m[pr.spid], m[q.spid] + "_") {
        var i :| 0 <= i < |a| && a[i] == q;
        assert ab[i] == q && ab[|a| + j] == pr;
      }
    }
  }

  /** One packet's variable part changes only its own container and adds
      group containers named after it. */
  lemma ApplyVpdFrame(st: PacketState, deduced: map<string, DeducedParameter>, recs: seq<VpdRecord>, pr: PidRecord, n: string)
    requires st.Valid() && ApplyVpd(st, deduced, recs, pr).Ok?
    requires n in st.ss.containers && Outside(st.spidToContainer, [pr], n)
    ensures var r := ApplyVpd(st, deduced, recs, pr).value;
      n in r.ss.containers && r.ss.containers[n] == st.ss.containers[n]
  {
    if |recs| > 0 {
      var name := st.spidToContainer[pr.spid];
      assert pr in [pr];
      var absOffset := Wrap32(8 * pr.dfhsize);
      var out := VpdWalk(st.ss.parameters, deduced, name, absOffset, recs, 0, 0).value;
      VpdWalkNested(st.ss, deduced, name, absOffset, recs, 0, 0);
      var ss1 := st.ss.AppendEntries(name, out.entries);
      PutAllKeeps(ss1, out.nested, n);
    }
  }

  /** The step of ApplyPids: the first packet, then the rest. */
  lemma ApplyPidsCons(st: PacketState, st1: PacketState, r: Result<PacketState, LoadError>,
                      deduced: map<string, DeducedParameter>, recs: seq<VpdRecord>, prs: seq<PidRecord>)
    requires st.Valid() && |prs| > 0 && ApplyVpd(st, deduced, recs, prs[0]) == Ok(st1)
    requires r.Ok? ==> Untouched(st1, r.value, prs[1..])
    requires r.Ok? && |recs| > 0 && Separate(st1.spidToContainer, prs[1..]) ==>
      EntriesAppended(st1, r.value, deduced, recs, prs[1..])
    ensures r.Ok? ==> Untouched(st, r.value, prs)
    ensures r.Ok? && |recs| > 0 && Separate(st.spidToContainer, prs) ==> EntriesAppended(st, r.value, deduced, recs, prs)
  {
    if r.Ok? {
      var m := st.spidToContainer;
      var rv := r.value;
      assert prs == [prs[0]] + prs[1..];
      forall n | n in st.ss.containers && Outside(m, prs, n)
        ensures n in rv.ss.containers && rv.ss.containers[n] == st.ss.containers[n]
      {
        ApplyVpdFrame(st, deduced, recs, prs[0], n);
      }
      if |recs| > 0 && Separate(m, prs) {
        SeparateSplit(m, [prs[0]], prs[1..]);
        var pr0 := prs[0];
        assert pr0 in [pr0];
        assert AppendedFor(st, rv, deduced, recs, pr0);
        forall pr | pr in prs[1..] ensures AppendedFor(st, rv, deduced, recs, pr) {
          assert AppendedFor(st1, rv, deduced, recs, pr);
          var name := m[pr.spid];
          ApplyVpdFrame(st, deduced, recs, pr0, name);
        }
      }
    }
  }

  /** Every packet of one TPSD gets the variable part in turn. When the
      packets' containers are separate, each one ends up with the walk of the
      TPSD's records appended, and nothing outside them changes. */
  function ApplyPids(st: PacketState, deduced: map<string, DeducedParameter>, recs: seq<VpdRecord>, prs: seq<PidRecord>)
    : (r: Result<PacketState, LoadError>)
    requires st.Valid()
    ensures r.Ok? ==> r.value.Valid() && Grows(st, r.value) && r.value.errors == st.errors
    ensures r.Ok? ==> r.value.spidToContainer == st.spidToContainer && r.value.ss.parameters == st.ss.parameters
    ensures |recs| > 0 && (exists pr :: pr in prs && pr.spid !in st.spidToContainer) ==> r.Err?
    ensures r.Ok? ==> Untouched(st, r.value, prs)
    ensures r.Ok? && |recs| > 0 && Separate(st.spidToContainer, prs) ==> EntriesAppended(st, r.value, deduced, recs, prs)
    decreases |prs|
  {
    if |prs| == 0 then Ok(st)
    else
      var st1 :- ApplyVpd(st, deduced, recs, prs[0]);
      var r := ApplyPids(st1, deduced, recs, prs[1..]);
      assert forall pr :: pr in prs ==> pr == prs[0] || pr in prs[1..];
      ApplyPidsCons(st, st1, r, deduced, recs, prs);
      r
  }

  /** The packets of the TPSDs `keys`, in order (a TPSD without packets has
      none). */
  function TpsdPids(pidVpd: map<int, seq<PidRecord>>, keys: seq<int>): seq<PidRecord>
    decreases |keys|
  {
    if |keys| == 0 then []
    else (if keys[0] in pidVpd then pidVpd[keys[0]] else []) + TpsdPids(pidVpd, keys[1..])
  }

  lemma {:induction false} TpsdPidsHas(pidVpd: map<int, seq<PidRecord>>, keys: seq<int>, t: nat, pr: PidRecord)
    requires t < |keys| && keys[t] in pidVpd && pr in pidVpd[keys[t]]
    ensures pr in TpsdPids(pidVpd, keys)
    decreases t
  {
    if t > 0 {
      TpsdPidsHas(pidVpd, keys[1..], t - 1, pr);
    }
  }

  /** The step of ApplyTpsds: the packets of the first TPSD, then the rest. */
  lemma ApplyTpsdsCons(st: PacketState, st1: PacketState, r: Result<PacketState, LoadError>,
                       deduced: map<string, DeducedParameter>, records: Groups<int, VpdRecord>,
                       pidVpd: map<int, seq<PidRecord>>, keys: seq<int>)
    requires st.Valid() && |keys| > 0
    requires forall i :: 0 <= i < |keys| ==> keys[i] in records.lists && keys[i] in pidVpd
    requires ApplyPids(st, deduced, records.lists[keys[0]], pidVpd[keys[0]]) == Ok(st1)
    requires r.Ok? ==> r.value.ss.parameters == st1.ss.parameters && Untouched(st1, r.value, TpsdPids(pidVpd, keys[1..]))
    requires r.Ok? && Separate(st1.spidToContainer, TpsdPids(pidVpd, keys[1..])) ==>
      forall t :: 1 <= t < |keys| && |records.lists[keys[t]]| > 0 ==>
        EntriesAppended(st1, r.value, deduced, records.lists[keys[t]], pidVpd[keys[t]])
    ensures r.Ok? ==> Untouched(st, r.value, TpsdPids(pidVpd, keys))
    ensures r.Ok? && Separate(st.spidToContainer, TpsdPids(pidVpd, keys)) ==>
      forall t :: 0 <= t < |keys| && |records.lists[keys[t]]| > 0 ==>
        EntriesAppended(st, r.value, deduced, records.lists[keys[t]], pidVpd[keys[t]])
  {
    if r.Ok? {
      var m := st.spidToContainer;
      var rv := r.value;
      var a := pidVpd[keys[0]];
      var b := TpsdPids(pidVpd, keys[1..]);
      assert TpsdPids(pidVpd, keys) == a + b;
      if Separate(m, a + b) {
        SeparateSplit(m, a, b);
        forall t | 0 <= t < |keys| && |records.lists[keys[t]]| > 0
          ensures EntriesAppended(st, rv, deduced, records.lists[keys[t]], pidVpd[keys[t]])
        {
          var recs := records.lists[keys[t]];
          if t == 0 {
            forall pr | pr in a ensures AppendedFor(st, rv, deduced, recs, pr) {
              assert AppendedFor(st, st1, deduced, recs, pr);
            }
          } else {
            assert keys[1..][t - 1] == keys[t];
            forall pr | pr in pidVpd[keys[t]] ensures AppendedFor(st, rv, deduced, recs, pr) {
              TpsdPidsHas(pidVpd, keys[1..], t - 1, pr);
              assert AppendedFor(st1, rv, deduced, recs, pr);
              var name := m[pr.spid];
            }
          }
        }
      }
    }
  }

  /** The second loop of `loadVpd`, over the TPSDs of the records map. When
      the containers of all their packets are separate, every packet of every
      TPSD with records gets the walk of those records appended, and nothing
      outside them changes. */
  function ApplyTpsds(st: PacketState, deduced: map<string, DeducedParameter>, records: Groups<int, VpdRecord>,
                      pidVpd: map<int, seq<PidRecord>>, keys: seq<int>): (r: Result<PacketState, LoadError>)
    requires st.Valid()
    requires forall i :: 0 <= i < |keys| ==> keys[i] in records.lists && keys[i] in pidVpd
    ensures r.Ok? ==> r.value.Valid() && Grows(st, r.value) && r.value.errors == st.errors
    ensures r.Ok? ==> r.value.spidToContainer == st.spidToContainer && r.value.ss.parameters == st.ss.parameters
    ensures r.Ok? ==> Untouched(st, r.value, TpsdPids(pidVpd, keys))
    ensures r.Ok? && Separate(st.spidToContainer, TpsdPids(pidVpd, keys)) ==>
      forall t :: 0 <= t < |keys| && |records.lists[keys[t]]| > 0 ==>
        EntriesAppended(st, r.value, deduced, records.lists[keys[t]], pidVpd[keys[t]])
    decreases |keys|
  {
    if |keys| == 0 then Ok(st)
    else
      var st1 :- ApplyPids(st, deduced, records.lists[keys[0]], pidVpd[keys[0]]);
      var r := ApplyTpsds(st1, deduced, records, pidVpd, keys[1..]);
      ApplyTpsdsCons(st, st1, r, deduced, records, pidVpd, keys);
      r
  }

  /** Every record the row loop keeps has the TPSD of some packet. */
  lemma KeptTpsdsKnown(ss: SpaceSystem, deduced: map<string, DeducedParameter>, pidVpd: map<int, seq<PidRecord>>,
                       vpd: Table, outs: seq<VpdOutcome>)
    requires ParseRows(vpd, (ctx, line) => VpdClassify(ctx, line, ss, deduced, pidVpd)) == Ok(outs)
    ensures forall p :: p in KeptVpd(outs) ==> p.0 in pidVpd
  {
    forall j | 0 <= j < |outs| && outs[j].VpdKept? ensures outs[j].rec.tpsd in pidVpd {
      assert VpdClassify(vpd.At(j), vpd.lines[j].fields, ss, deduced, pidVpd) == Ok(outs[j]);
    }
  }

  /** A key selected from pairs whose keys are all known is known. */
  lemma SelectedKeysKnown(kept: seq<(int, VpdRecord)>, pidVpd: map<int, seq<PidRecord>>, k: int)
    requires forall p :: p in kept ==> p.0 in pidVpd
    requires Select(kept, k) != []
    ensures k in pidVpd
  {
    SelectNonEmpty(kept, k);
    var i :| 0 <= i < |kept| && kept[i].0 == k;
    assert kept[i] in kept;
  }

  /** Every TPSD of the records map is the TPSD of some packet. */
  lemma RecordsKnown(ss: SpaceSystem, deduced: map<string, DeducedParameter>, pidVpd: map<int, seq<PidRecord>>,
                     vpd: Table, outs: seq<VpdOutcome>)
    requires ParseRows(vpd, (ctx, line) => VpdClassify(ctx, line, ss, deduced, pidVpd)) == Ok(outs)
    ensures var order := VpdRecords(outs).order;
      forall i :: 0 <= i < |order| ==> order[i] in VpdRecords(outs).lists && order[i] in pidVpd
  {
    KeptTpsdsKnown(ss, deduced, pidVpd, vpd, outs);
    var records := VpdRecords(outs);
    SelectedKeysAllKnown(KeptVpd(outs), pidVpd, records.lists.Keys);
    OrderKnown(records, pidVpd.Keys);
  }

  /** The order of valid groups whose keys are known lists known keys. */
  lemma OrderKnown(g: Groups<int, VpdRecord>, known: set<int>)
    requires GroupsValid(g) && g.lists.Keys <= known
    ensures forall i :: 0 <= i < |g.order| ==> g.order[i] in g.lists && g.order[i] in known
  {
    forall i | 0 <= i < |g.order| ensures g.order[i] in g.lists && g.order[i] in known {
      assert g.order[i] in g.order;
    }
  }

  /** Keys selected from pairs whose keys are all known are known. */
  lemma SelectedKeysAllKnown(kept: seq<(int, VpdRecord)>, pidVpd: map<int, seq<PidRecord>>, keys: set<int>)
    requires forall p :: p in kept ==> p.0 in pidVpd
    requires forall k :: k in keys <==> Select(kept, k) != []
    ensures keys <= pidVpd.Keys
  {
    forall k | k in keys ensures k in pidVpd {
      SelectedKeysKnown(kept, pidVpd, k);
    }
  }

  /** `loadVpd`: reads the VPD table (the first exception aborts, a TPSD no
      packet uses is reported once and its rows dropped), sorts each TPSD's
      records by position and adds them to the container of every packet
      with that TPSD. */
  function LoadVpd(st: PacketState, deduced: map<string, DeducedParameter>, pidVpd: Groups<int, PidRecord>, vpd: Table)
    : (r: Result<PacketState, LoadError>)
    requires st.Valid()
    ensures var rows := ParseRows(vpd, (ctx, line) => VpdClassify(ctx, line, st.ss, deduced, pidVpd.lists));
      && (rows.Err? ==> r == Err(rows.error))
      && (r.Ok? ==> rows.Ok? && r.value.errors == st.errors + SkipErrors(rows.value))
    ensures r.Ok? ==> r.value.Valid() && Grows(st, r.value)
    ensures r.Ok? ==> r.value.spidToContainer == st.spidToContainer && r.value.ss.parameters == st.ss.parameters
    ensures r.Ok? ==>
      var records := VpdRecords(ParseRows(vpd, (ctx, line) => VpdClassify(ctx, line, st.ss, deduced, pidVpd.lists)).value);
      var pids := TpsdPids(pidVpd.lists, records.order);
      && records.lists.Keys <= pidVpd.lists.Keys
      && Untouched(st, r.value, pids)
      && (Separate(st.spidToContainer, pids) ==>
        forall k :: k in records.lists && k in pidVpd.lists ==>
          EntriesAppended(st, r.value, deduced, records.lists[k], pidVpd.lists[k]))
  {
    var outs :- ParseRows(vpd, (ctx, line) => VpdClassify(ctx, line, st.ss, deduced, pidVpd.lists));
    var records := VpdRecords(outs);
    RecordsKnown(st.ss, deduced, pidVpd.lists, vpd, outs);
    var st1 := st.(errors := st.errors + SkipErrors(outs));
    var r := ApplyTpsds(st1, deduced, records, pidVpd.lists, records.order);
    LoadVpdEntries(st, st1, r, deduced, records, pidVpd.lists);
    r
  }

  /** From the TPSD positions of ApplyTpsds to the TPSDs of the records map. */
  lemma LoadVpdEntries(st: PacketState, st1: PacketState, r: Result<PacketState, LoadError>,
                       deduced: map<string, DeducedParameter>, records: Groups<int, VpdRecord>, pidVpd: map<int, seq<PidRecord>>)
    requires GroupsValid(records) && st1.ss == st.ss && st1.spidToContainer == st.spidToContainer
    requires forall i :: 0 <= i < |records.order| ==> records.order[i] in records.lists && records.order[i] in pidVpd
    requires r.Ok? && Separate(st1.spidToContainer, TpsdPids(pidVpd, records.order)) ==>
      forall t :: 0 <= t < |records.order| && |records.lists[records.order[t]]| > 0 ==>
        EntriesAppended(st1, r.value, deduced, records.lists[records.order[t]], pidVpd[records.order[t]])
    ensures records.lists.Keys <= pidVpd.Keys
    ensures r.Ok? && Separate(st.spidToContainer, TpsdPids(pidVpd, records.order)) ==>
      forall k :: k in records.lists && k in pidVpd ==> EntriesAppended(st, r.value, deduced, records.lists[k], pidVpd[k])
  {
    forall k | k in records.lists ensures k in pidVpd && exists t :: 0 <= t < |records.order| && records.order[t] == k {
      assert k in records.order;
    }
  }
}
