/** The CCF pass of the command loader: the CCF rows folded in file order
    into the argument state, with what each command ends up as. */
module TcCcf {
  import opened Wrappers
  import opened Mdb
  import opened MibLoaderBits
  import opened BaseMibLoader
  import opened TcTables
  import opened TcHeaders
  import opened TcCommands

  /** `loadCcf` over the first `n` rows, keeping the state before the first
      row and after each row: `states[k]` is what the rows before row `k`
      left, and `states[n]` the result. */
  function CcfStatesUpTo(st: ArgState, inputs: TcInputs, headers: map<string, TcHeader>, cdfs: map<string, seq<CdfRecord>>,
                         hex: string -> Result<Bytes, LoadError>, t: Table, n: nat): (r: Result<seq<ArgState>, LoadError>)
    requires st.ss.WellFormed() && CdfsOk(cdfs) && n <= |t.lines|
    ensures r.Ok? ==> Trace(st, cdfs, t, r.value, n)
    ensures r.Ok? ==> RowsBuilt(inputs, headers, cdfs, hex, t, r.value, n)
  {
    if n == 0 then Ok([st])
    else
      var prev :- CcfStatesUpTo(st, inputs, headers, cdfs, hex, t, n - 1);
      var line := t.lines[n - 1].fields;
      var s :- CcfRow(prev[n - 1], inputs, headers, cdfs, hex, t.At(n - 1), line);
      CcfRowStep(prev[n - 1], inputs, headers, cdfs, hex, t.At(n - 1), line, s);
      TraceSnoc(st, cdfs, t, prev, s, n - 1);
      RowsBuiltSnoc(inputs, headers, cdfs, hex, t, prev, s, n - 1);
      Ok(prev + [s])
  }

  /** `loadCcf`: the commands are those there were and those the CCF rows
      register, every command that is not `BINCMD` with its abstract parent
      if it has read-only arguments; the command under a name is what the
      last row registering it built, in the state the rows before it left,
      and a name no row registers keeps its command. */
  function LoadCcf(st: ArgState, inputs: TcInputs, headers: map<string, TcHeader>, cdfs: map<string, seq<CdfRecord>>,
                   hex: string -> Result<Bytes, LoadError>, t: Table): (r: Result<ArgState, LoadError>)
    requires st.ss.WellFormed() && CdfsOk(cdfs)
    ensures r.Ok? <==> CcfStatesUpTo(st, inputs, headers, cdfs, hex, t, |t.lines|).Ok?
    ensures r.Ok? ==> r.value.ss.WellFormed() && st.ss.commands.Keys <= r.value.ss.commands.Keys
    ensures r.Ok? ==> forall i :: 0 <= i < |t.lines| ==>
      |t.lines[i].fields| > IDX_CCF_PKTID
      && (!IsBinCmd(t.lines[i].fields[IDX_CCF_CNAME]) ==> t.lines[i].fields[IDX_CCF_CNAME] in r.value.ss.commands)
    ensures r.Ok? ==> forall k :: k in r.value.ss.commands <==> k in st.ss.commands || RegisteredBy(cdfs, t, |t.lines|, k)
    ensures r.Ok? ==> forall k :: k in st.ss.commands && !RegisteredBy(cdfs, t, |t.lines|, k) ==> r.value.ss.commands[k] == st.ss.commands[k]
    ensures r.Ok? ==> var states := CcfStatesUpTo(st, inputs, headers, cdfs, hex, t, |t.lines|).value;
      forall i: nat, name :: LastRegistration(cdfs, t, i, name) ==>
        var b := BuildCommand(states[i], inputs, headers, cdfs, hex, t.At(i), t.lines[i].fields);
        b.Ok? && name in r.value.ss.commands && r.value.ss.commands[name] == RegisteredAs(b.value, name)
  {
    var states :- CcfStatesUpTo(st, inputs, headers, cdfs, hex, t, |t.lines|);
    StatesLoaded(st, cdfs, t, states, |t.lines|);
    CcfLastRows(inputs, headers, cdfs, hex, t, states);
    assert forall i :: 0 <= i < |t.lines| && !IsBinCmd(t.lines[i].fields[IDX_CCF_CNAME]) ==>
      RowRegisters(cdfs, t.lines[i].fields, t.lines[i].fields[IDX_CCF_CNAME]);
    Ok(states[|t.lines|])
  }

  /** Along the states of the CCF rows, the last row registering a name
      decides the command under it. */
  lemma CcfLastRows(inputs: TcInputs, headers: map<string, TcHeader>, cdfs: map<string, seq<CdfRecord>>,
                    hex: string -> Result<Bytes, LoadError>, t: Table, states: seq<ArgState>)
    requires |states| == |t.lines| + 1 && CdfsOk(cdfs)
    requires Trace(states[0], cdfs, t, states, |t.lines|) && RowsBuilt(inputs, headers, cdfs, hex, t, states, |t.lines|)
    ensures forall i: nat, name :: LastRegistration(cdfs, t, i, name) ==>
      var b := BuildCommand(states[i], inputs, headers, cdfs, hex, t.At(i), t.lines[i].fields);
      b.Ok? && name in states[|t.lines|].ss.commands && states[|t.lines|].ss.commands[name] == RegisteredAs(b.value, name)
  {
    forall i: nat, name | LastRegistration(cdfs, t, i, name)
      ensures var b := BuildCommand(states[i], inputs, headers, cdfs, hex, t.At(i), t.lines[i].fields);
        b.Ok? && name in states[|t.lines|].ss.commands && states[|t.lines|].ss.commands[name] == RegisteredAs(b.value, name)
    {
      StatesLast(cdfs, t, states, |t.lines|, i, name);
      RowBuiltAt(inputs, headers, cdfs, hex, t, states, |t.lines|, i);
      assert BuildsName(cdfs, t.lines[i].fields[IDX_CCF_CNAME], name);
    }
  }
}
