/** The command pass of the MIB loader: the command tables read in the
    loader's fixed order, each stage building on the space system the
    previous one left. */
module TcMibLoader {
  import opened Wrappers
  import opened Mdb
  import opened MibLoaderBits
  import opened BaseMibLoader
  import opened MibParameter
  import opened TcTables
  import opened TcHeaders
  import opened TcCommands
  import opened TcCcf
  import opened TcVerification

  /** The command tables of a MIB. */
  datatype CommandTables = CommandTables(
    tcp: Table, pcpc: Table, pcdf: Table,
    cca: Table, ccs: Table, paf: Table, pas: Table,
    cpc: Table, cdf: Table, ccf: Table,
    ptv: Table, cve: Table, cvs: Table, cvp: Table)

  /** The configuration of the command pass: the default size in bytes of
      the length tag of variable-length arguments (`TC.vblParamLengthBytes`,
      1 unless configured) and the telemetry parameters PUS verifiers read. */
  datatype CommandSettings = CommandSettings(vblParamLengthBytes: int, pus: PusParameters)

  /** Every header and every non-`BINCMD` CCF command of the tables is a
      command of `r`. */
  predicate Registers(tables: CommandTables, r: SpaceSystem) {
    && LoadTcp(tables.tcp).Ok?
    && (forall h :: h in LoadTcp(tables.tcp).value ==> h in r.commands)
    && (forall i :: 0 <= i < |tables.ccf.lines| ==>
          |tables.ccf.lines[i].fields| > IDX_CCF_PKTID
          && (!IsBinCmd(tables.ccf.lines[i].fields[IDX_CCF_CNAME]) ==> tables.ccf.lines[i].fields[IDX_CCF_CNAME] in r.commands))
  }

  /** Registration survives any stage that keeps the command names. */
  lemma RegistersKept(tables: CommandTables, a: SpaceSystem, b: SpaceSystem)
    requires Registers(tables, a) && a.commands.Keys <= b.commands.Keys
    ensures Registers(tables, b)
  {
  }

  /** The de-calibrations and parameters CCF arguments draw on: CCA/CCS
      first, then PAF/PAS, the first failure aborting. */
  function LoadInputs(parameters: seq<MibParameter>, tables: CommandTables): (r: Result<TcInputs, LoadError>)
    ensures r.Ok? <==> LoadDecalib(tables.cca, tables.ccs).Ok? && LoadTxtDecalib(tables.paf, tables.pas).Ok?
    ensures LoadDecalib(tables.cca, tables.ccs).Err? ==> r == Err(LoadDecalib(tables.cca, tables.ccs).error)
    ensures LoadDecalib(tables.cca, tables.ccs).Ok? && LoadTxtDecalib(tables.paf, tables.pas).Err? ==>
      r == Err(LoadTxtDecalib(tables.paf, tables.pas).error)
    ensures r.Ok? ==>
      && r.value.ccas == LoadDecalib(tables.cca, tables.ccs).value
      && r.value.enums == LoadTxtDecalib(tables.paf, tables.pas).value.0
      && r.value.ranges == LoadTxtDecalib(tables.paf, tables.pas).value.1
      && r.value.parameters == parameters
  {
    var ccas :- LoadDecalib(tables.cca, tables.ccs);
    var txt :- LoadTxtDecalib(tables.paf, tables.pas);
    Ok(TcInputs(ccas, txt.0, txt.1, parameters))
  }

  /** The first half of `loadCommands`: headers (TCP, PCPC, PCDF),
      de-calibrations (CCA/CCS, PAF/PAS), parameters and elements (CPC, CDF)
      and the commands themselves (CCF). */
  function BuildCommands(ss: SpaceSystem, parameters: seq<MibParameter>, tables: CommandTables, cfg: CommandSettings,
                         hex: string -> Result<Bytes, LoadError>): (r: Result<SpaceSystem, LoadError>)
    requires ss.WellFormed()
    ensures r.Ok? ==> r.value.WellFormed() && Registers(tables, r.value)
  {
    var hs :- LoadHeaders(ss, tables.tcp, tables.pcpc, tables.pcdf, hex);
    var inputs :- LoadInputs(parameters, tables);
    var cpcs :- LoadCpc(tables.cpc);
    var cdfs :- LoadCdf(tables.cdf, cpcs, cfg.vblParamLengthBytes);
    LoadCdfOk(tables.cdf, cpcs, cfg.vblParamLengthBytes);
    CcfCommands(hs, inputs, cdfs.lists, tables, hex)
  }

  /** The CCF step of `BuildCommands`, on the loaded headers and elements: the
      commands of the TCP headers stay and those of the CCF rows are added. */
  function CcfCommands(hs: HeaderState, inputs: TcInputs, cdfs: map<string, seq<CdfRecord>>, tables: CommandTables,
                       hex: string -> Result<Bytes, LoadError>): (r: Result<SpaceSystem, LoadError>)
    requires hs.ss.WellFormed() && hs.Valid() && CdfsOk(cdfs)
    requires LoadTcp(tables.tcp).Ok? && hs.headers.Keys == LoadTcp(tables.tcp).value.Keys
    ensures r.Ok? ==> r.value.WellFormed() && Registers(tables, r.value)
  {
    var st :- LoadCcf(ArgState(hs.ss, map[]), inputs, hs.headers, cdfs, hex, tables.ccf);
    RegistersHeaders(tables, hs, st.ss);
    Ok(st.ss)
  }

  /** The headers registered by `LoadHeaders` are those of the TCP table. */
  lemma RegistersHeaders(tables: CommandTables, hs: HeaderState, ss: SpaceSystem)
    requires hs.Valid() && LoadTcp(tables.tcp).Ok? && hs.headers.Keys == LoadTcp(tables.tcp).value.Keys
    requires hs.ss.commands.Keys <= ss.commands.Keys
    ensures forall h :: h in LoadTcp(tables.tcp).value ==> h in ss.commands
  {
  }

  /** `loadCommands`: the commands, then pre-transmission validation (PTV)
      and verification (CVE, CVS, CVP), which change the commands but not
      which commands there are, nor the telemetry. */
  function LoadCommands(ss: SpaceSystem, parameters: seq<MibParameter>, tables: CommandTables, cfg: CommandSettings,
                        hex: string -> Result<Bytes, LoadError>): (r: Result<SpaceSystem, LoadError>)
    requires ss.WellFormed()
    ensures r.Ok? ==> r.value.WellFormed() && Registers(tables, r.value)
    ensures r.Ok? ==>
      && BuildCommands(ss, parameters, tables, cfg, hex).Ok?
      && r.value.SameTelemetry(BuildCommands(ss, parameters, tables, cfg, hex).value)
  {
    var built :- BuildCommands(ss, parameters, tables, cfg, hex);
    var ss1 :- LoadPtv(built, tables.ptv);
    var ss2 :- LoadCvp(ss1, cfg.pus, tables.cve, tables.cvs, tables.cvp);
    RegistersKept(tables, built, ss2);
    Ok(ss2)
  }
}
