/** Telecommand packet headers: the abstract header commands (TCP), their
    parameters (PCPC) and their layout (PCDF). */
module TcHeaders {
  import opened Wrappers
  import opened Text
  import opened Mdb
  import opened MibLoaderBits
  import opened BaseMibLoader

  const IDX_TCP_ID: nat := 0

  const IDX_PCPC_NAME: nat := 0
  const IDX_PCPC_DESC: nat := 1
  const IDX_PCPC_CODE: nat := 2

  const IDX_PCDF_TCNAME: nat := 0
  const IDX_PCDF_DESC: nat := 1
  const IDX_PCDF_TYPE: nat := 2
  const IDX_PCDF_LEN: nat := 3
  const IDX_PCDF_BIT: nat := 4
  const IDX_PCDF_PNAME: nat := 5
  const IDX_PCDF_VALUE: nat := 6

  /** A TC header: its abstract command and the arguments holding the APID,
      the service type and subtype and the acknowledgement flags. */
  datatype TcHeader = TcHeader(
    name: string,
    command: MetaCommand,
    apid: Option<string>,
    ptype: Option<string>,
    subType: Option<string>,
    ack: Option<string>)

  // ---------------------------------------------------------------------------
  // Rows keyed by a unique name

  predicate HasColumns(line: seq<string>, cols: seq<nat>) {
    forall i :: 0 <= i < |cols| ==> cols[i] < |line|
  }

  /** The key column of line `i`, "" for a line too short to hold it. */
  function KeyAt(t: Table, key: nat, i: int): string
    requires 0 <= i < |t.lines|
  {
    if key < |t.lines[i].fields| then t.lines[i].fields[key] else ""
  }

  predicate RowAccepted<T>(t: Table, cols: seq<nat>, make: (Context, seq<string>) --> Result<T, LoadError>, i: int)
    requires 0 <= i < |t.lines|
    requires forall c, l :: HasColumns(l, cols) ==> make.requires(c, l)
  {
    HasColumns(t.lines[i].fields, cols) && make(t.At(i), t.lines[i].fields).Ok?
  }

  predicate AllAccepted<T>(t: Table, cols: seq<nat>, make: (Context, seq<string>) --> Result<T, LoadError>, n: nat)
    requires n <= |t.lines|
    requires forall c, l :: HasColumns(l, cols) ==> make.requires(c, l)
  {
    forall i :: 0 <= i < n ==> RowAccepted(t, cols, make, i)
  }

  /** No two of the first `n` rows share a key. */
  predicate DistinctKeys(t: Table, key: nat, n: nat)
    requires n <= |t.lines|
  {
    forall i, j :: 0 <= j < i < n ==> KeyAt(t, key, j) != KeyAt(t, key, i)
  }

  /** A loop that reads rows keyed by one column into a map and throws on a
      key seen before (`containsKey` checked before the row is built). */
  function UniqueRowsUpTo<T>(t: Table, cols: seq<nat>, key: nat, make: (Context, seq<string>) --> Result<T, LoadError>,
                             dup: (Context, string) -> LoadError, n: nat): (r: Result<map<string, T>, LoadError>)
    requires n <= |t.lines|
    requires key in cols
    requires forall c, l :: HasColumns(l, cols) ==> make.requires(c, l)
    ensures r.Ok? <==> AllAccepted(t, cols, make, n) && DistinctKeys(t, key, n)
    ensures r.Ok? ==> forall k :: k in r.value <==> exists i :: 0 <= i < n && KeyAt(t, key, i) == k
    ensures r.Ok? ==> forall i :: 0 <= i < n ==>
      RowAccepted(t, cols, make, i) && r.value[KeyAt(t, key, i)] == make(t.At(i), t.lines[i].fields).value
  {
    if n == 0 then Ok(map[])
    else
      var prev := UniqueRowsUpTo(t, cols, key, make, dup, n - 1);
      if prev.Err? then Err(prev.error)
      else
        var m := prev.value;
        var ctx := t.At(n - 1);
        var line := t.lines[n - 1].fields;
        if !HasColumns(line, cols) then
          assert !RowAccepted(t, cols, make, n - 1);
          CheckMandatory(ctx, line, cols).PropagateFailure()
        else
          assert CheckMandatory(ctx, line, cols).Ok?;
          var k := line[key];
          assert KeyAt(t, key, n - 1) == k;
          if k in m then
            var j :| 0 <= j < n - 1 && KeyAt(t, key, j) == k;
            assert !DistinctKeys(t, key, n);
            Err(dup(ctx, k))
          else
            var v := make(ctx, line);
            if v.Err? then
              assert !RowAccepted(t, cols, make, n - 1);
              Err(v.error)
            else
              UniqueRowsAdd(t, cols, key, make, n, m, v.value);
              Ok(m[k := v.value])
  }

  /** A row with a fresh key extends the map by that key alone. */
  lemma UniqueRowsAdd<T>(t: Table, cols: seq<nat>, key: nat, make: (Context, seq<string>) --> Result<T, LoadError>,
                         n: nat, m: map<string, T>, v: T)
    requires 0 < n <= |t.lines|
    requires forall c, l :: HasColumns(l, cols) ==> make.requires(c, l)
    requires AllAccepted(t, cols, make, n - 1) && DistinctKeys(t, key, n - 1)
    requires forall k :: k in m <==> exists i :: 0 <= i < n - 1 && KeyAt(t, key, i) == k
    requires forall i :: 0 <= i < n - 1 ==>
      RowAccepted(t, cols, make, i) && m[KeyAt(t, key, i)] == make(t.At(i), t.lines[i].fields).value
    requires RowAccepted(t, cols, make, n - 1) && KeyAt(t, key, n - 1) !in m
    requires make(t.At(n - 1), t.lines[n - 1].fields) == Ok(v)
    ensures AllAccepted(t, cols, make, n) && DistinctKeys(t, key, n)
    ensures var r := m[KeyAt(t, key, n - 1) := v];
      && (forall k :: k in r <==> exists i :: 0 <= i < n && KeyAt(t, key, i) == k)
      && (forall i :: 0 <= i < n ==>
            RowAccepted(t, cols, make, i) && r[KeyAt(t, key, i)] == make(t.At(i), t.lines[i].fields).value)
  {
    var k := KeyAt(t, key, n - 1);
    var r := m[k := v];
    forall i | 0 <= i < n - 1 ensures KeyAt(t, key, i) != k {
      assert KeyAt(t, key, i) in m;
    }
    forall k' ensures k' in r <==> exists i :: 0 <= i < n && KeyAt(t, key, i) == k' {
      if k' in m {
        var i :| 0 <= i < n - 1 && KeyAt(t, key, i) == k';
      }
    }
  }

  // ---------------------------------------------------------------------------
  // TCP / PCPC

  /** The abstract command of a header, with its own empty container. */
  function HeaderCommand(name: string): (mc: MetaCommand)
    ensures mc.name == name && mc.container.name == name && mc.isAbstract
    ensures mc.arguments == [] && mc.container.entries == []
  {
    NewCommand(name).(isAbstract := true)
  }

  function DuplicateHeader(ctx: Context, name: string): LoadError {
    MibLoadError(Some(ctx), "duplicate definition of TC header '" + name + "'")
  }

  function DuplicateHeaderArg(ctx: Context, name: string): LoadError {
    MibLoadError(Some(ctx), "duplicate definition of TC parameter '" + name + "'")
  }

  /** Every header command is registered with the space system. */
  function PutHeaders(ss: SpaceSystem, headers: map<string, TcHeader>): (r: SpaceSystem)
    ensures r.commands.Keys == ss.commands.Keys + headers.Keys
    ensures forall h :: h in headers ==> r.commands[h] == headers[h].command
    ensures forall c :: c in ss.commands && c !in headers ==> r.commands[c] == ss.commands[c]
    ensures r.parameters == ss.parameters && r.parameterTypes == ss.parameterTypes && r.containers == ss.containers
    ensures r.containerOrder == ss.containerOrder && r.parameterOrder == ss.parameterOrder
  {
    ss.(commands := ss.commands + map h | h in headers :: headers[h].command)
  }

  /** `loadTcpPcpc`, first half: one abstract header per TCP row; a name seen
      twice is an error. */
  function LoadTcp(t: Table): (r: Result<map<string, TcHeader>, LoadError>)
    ensures r.Ok? <==> (forall i :: 0 <= i < |t.lines| ==> |t.lines[i].fields| > IDX_TCP_ID) && DistinctKeys(t, IDX_TCP_ID, |t.lines|)
    ensures r.Ok? ==> forall h :: h in r.value <==> exists i :: 0 <= i < |t.lines| && KeyAt(t, IDX_TCP_ID, i) == h
    ensures r.Ok? ==> forall h :: h in r.value ==>
      r.value[h] == TcHeader(h, HeaderCommand(h), None, None, None, None)
  {
    var make := (ctx: Context, line: seq<string>) requires |line| > IDX_TCP_ID =>
      Ok(TcHeader(line[IDX_TCP_ID], HeaderCommand(line[IDX_TCP_ID]), None, None, None, None));
    var r := UniqueRowsUpTo(t, [IDX_TCP_ID], IDX_TCP_ID, make, DuplicateHeader, |t.lines|);
    assert forall i :: 0 <= i < |t.lines| ==> (RowAccepted(t, [IDX_TCP_ID], make, i) <==> |t.lines[i].fields| > IDX_TCP_ID);
    r
  }

  function InvalidPcpcCode(ctx: Context, code: string): LoadError {
    MibLoadError(Some(ctx), "invalid  PCPC_CODE=" + code)
  }

  /** One PCPC row: an integer argument without encoding, unsigned for code
      "U" (the default) and signed for "I". */
  function PcpcArgument(ctx: Context, line: seq<string>): (r: Result<Argument, LoadError>)
    requires |line| > IDX_PCPC_DESC
    ensures var code := GetString(line, IDX_PCPC_CODE, "U");
      && (r.Ok? <==> code == "U" || code == "I")
      && (r.Err? ==> r.error == InvalidPcpcCode(ctx, code))
      && (r.Ok? ==> r.value.atype.kind == IntegerKind(Some(code == "I"), None))
    ensures r.Ok? ==>
      && r.value.name == line[IDX_PCPC_NAME] && r.value.description == Some(line[IDX_PCPC_DESC])
      && r.value.atype.name == Some(line[IDX_PCPC_NAME]) && r.value.atype.encoding.None?
  {
    var code := GetString(line, IDX_PCPC_CODE, "U");
    if code == "U" || code == "I" then
      var pname := line[IDX_PCPC_NAME];
      Ok(Argument(pname, Some(line[IDX_PCPC_DESC]), NewType(IntegerKind(Some(code == "I"), None), None).Named(pname)))
    else
      Err(InvalidPcpcCode(ctx, code))
  }

  /** `loadTcpPcpc`, second half: the header arguments by name; a name seen
      twice is an error, checked before the code. */
  function LoadPcpc(t: Table): (r: Result<map<string, Argument>, LoadError>)
    ensures r.Ok? <==>
      && (forall i :: 0 <= i < |t.lines| ==>
            |t.lines[i].fields| > IDX_PCPC_DESC && PcpcArgument(t.At(i), t.lines[i].fields).Ok?)
      && DistinctKeys(t, IDX_PCPC_NAME, |t.lines|)
    ensures r.Ok? ==> forall a :: a in r.value <==> exists i :: 0 <= i < |t.lines| && KeyAt(t, IDX_PCPC_NAME, i) == a
    ensures r.Ok? ==> forall i :: 0 <= i < |t.lines| ==>
      |t.lines[i].fields| > IDX_PCPC_DESC
      && r.value[KeyAt(t, IDX_PCPC_NAME, i)] == PcpcArgument(t.At(i), t.lines[i].fields).value
  {
    var cols := [IDX_PCPC_NAME, IDX_PCPC_DESC];
    var make := (ctx: Context, line: seq<string>) requires |line| > IDX_PCPC_DESC => PcpcArgument(ctx, line);
    assert forall l :: HasColumns(l, cols) ==> cols[1] < |l|;
    var r := UniqueRowsUpTo(t, cols, IDX_PCPC_NAME, make, DuplicateHeaderArg, |t.lines|);
    assert forall i :: 0 <= i < |t.lines| ==>
      (RowAccepted(t, cols, make, i) <==> |t.lines[i].fields| > IDX_PCPC_DESC && PcpcArgument(t.At(i), t.lines[i].fields).Ok?);
    r
  }

  // ---------------------------------------------------------------------------
  // PCDF

  function ZeroBytes(n: nat): (b: Bytes)
    ensures |b| == n && forall i :: 0 <= i < n ==> b[i] == 0
  {
    seq(n, _ => 0)
  }

  /** The value of a byte string read big-endian. */
  function BytesValue(b: Bytes): nat {
    if |b| == 0 then 0 else 256 * BytesValue(b[..|b| - 1]) + b[|b| - 1] as nat
  }

  /** A fixed value wider than its bytes: the bytes copied to the end of a
      zeroed array of `(sizeInBits >> 3) + 1` bytes. */
  function Pad(b: Bytes, sizeInBits: int): (r: Bytes)
    requires sizeInBits > 8 * |b|
    ensures |r| == sizeInBits / 8 + 1
  {
    ZeroBytes(sizeInBits / 8 + 1 - |b|) + b
  }

  /** Padding keeps the bytes at the end, zeroes in front, leaves room for
      every bit of the declared size, and does not change the value. */
  lemma PadRightAligned(b: Bytes, sizeInBits: int)
    requires sizeInBits > 8 * |b|
    ensures var r := Pad(b, sizeInBits);
      && r[|r| - |b|..] == b
      && (forall i :: 0 <= i < |r| - |b| ==> r[i] == 0)
      && 8 * |r| > sizeInBits
      && BytesValue(r) == BytesValue(b)
  {
    var z := ZeroBytes(sizeInBits / 8 + 1 - |b|);
    assert Pad(b, sizeInBits)[|z|..] == b;
    LeadingZeros(z, b);
  }

  /** Leading zero bytes do not change a big-endian value. */
  lemma {:induction false} LeadingZeros(z: Bytes, b: Bytes)
    requires forall i :: 0 <= i < |z| ==> z[i] == 0
    ensures BytesValue(z + b) == BytesValue(b)
    decreases |b|
  {
    if |b| == 0 {
      assert z + b == z;
      ZerosValue(z);
    } else {
      var init := b[..|b| - 1];
      assert (z + b)[..|z + b| - 1] == z + init;
      LeadingZeros(z, init);
    }
  }

  lemma {:induction false} ZerosValue(z: Bytes)
    requires forall i :: 0 <= i < |z| ==> z[i] == 0
    ensures BytesValue(z) == 0
    decreases |z|
  {
    if |z| > 0 {
      ZerosValue(z[..|z| - 1]);
    }
  }

  /** The header commands and header arguments while the PCDF rows are read,
      with the space system holding the current header commands. */
  datatype HeaderState = HeaderState(ss: SpaceSystem, headers: map<string, TcHeader>, args: map<string, Argument>)
  {
    /** Every header is registered under its own name. */
    predicate Registered() {
      forall h :: h in headers ==>
        h in ss.commands && ss.commands[h] == headers[h].command
        && headers[h].name == h && headers[h].command.name == h && headers[h].command.container.name == h && headers[h].command.isAbstract
    }

    /** The header arguments are integer arguments, with an integer encoding
        once one has been set. */
    predicate IntegerArgs() {
      forall n :: n in args ==>
        args[n].name == n && args[n].atype.kind.IntegerKind?
        && (args[n].atype.encoding.None? || args[n].atype.encoding.value.IntegerEncoding?)
    }

    /** An argument placed in a header is the current encoded argument of
        that name. */
    predicate ArgsPlaced() {
      forall h, i :: h in headers && 0 <= i < |headers[h].command.arguments| ==>
        var a := headers[h].command.arguments[i];
        a.name in args && args[a.name] == a && a.atype.encoding.Some?
    }

    /** Each field role names one of the header's arguments. */
    predicate RolesPlaced() {
      forall h :: h in headers ==>
        var hd := headers[h];
        && (hd.apid.Some? ==> hd.command.HasArgument(hd.apid.value))
        && (hd.ptype.Some? ==> hd.command.HasArgument(hd.ptype.value))
        && (hd.subType.Some? ==> hd.command.HasArgument(hd.subType.value))
        && (hd.ack.Some? ==> hd.command.HasArgument(hd.ack.value))
    }

    /** Header entries are all placed from the container start. */
    predicate FromStart() {
      forall h, i :: h in headers && 0 <= i < |headers[h].command.container.entries| ==>
        headers[h].command.container.entries[i].location == ContainerStart
    }

    predicate Valid() {
      Registered() && IntegerArgs() && ArgsPlaced() && RolesPlaced() && FromStart()
    }
  }

  function UnknownHeader(ctx: Context, cname: string): LoadError {
    MibLoadError(Some(ctx), "Ecountered PCDF record without a corresponding tcp record with TCP_ID '" + cname + "'")
  }

  function UnknownHeaderArg(ctx: Context, pname: string): LoadError {
    MibLoadError(Some(ctx), "Ecountered PCDF record without a corresponding pcpc record with PCPC_PNAME '" + pname + "'")
  }

  function SizeMismatch(ctx: Context, pname: string, size: int, before: int): LoadError {
    MibLoadError(Some(ctx), pname + ": ecountered PCDF_LEN=" + IntToString(size) + " different than specified before"
      + IntToString(before))
  }

  function NegativeArraySize(n: int): LoadError {
    RuntimeError("java.lang.NegativeArraySizeException: " + IntToString(n))
  }

  /** The encoding a header argument gets from its first PCDF row. */
  function HeaderEncoding(a: Argument, sizeInBits: int): DataEncoding
    requires a.atype.kind.IntegerKind?
  {
    IntegerEncoding(sizeInBits, if a.atype.kind.signed == Some(true) then Some(TwosComplement) else None)
  }

  /** The argument of a "A", "T", "S" or "K" row: its encoding is fixed by the
      first row naming it, and a later row must give the same size. */
  function EncodedArg(ctx: Context, a: Argument, sizeInBits: int): (r: Result<Argument, LoadError>)
    requires a.atype.kind.IntegerKind? && (a.atype.encoding.None? || a.atype.encoding.value.IntegerEncoding?)
    ensures a.atype.encoding.None? ==> r == Ok(a.(atype := a.atype.(encoding := Some(HeaderEncoding(a, sizeInBits)))))
    ensures a.atype.encoding.Some? ==> (r.Ok? <==> a.atype.encoding.value.bits == sizeInBits)
    ensures a.atype.encoding.Some? && r.Ok? ==> r.value == a
  {
    match a.atype.encoding
    case Some(e) =>
      if e.bits != sizeInBits then Err(SizeMismatch(ctx, a.name, sizeInBits, e.bits)) else Ok(a)
    case None =>
      Ok(a.(atype := a.atype.(encoding := Some(HeaderEncoding(a, sizeInBits)))))
  }

  /** The header with one more entry (and possibly one more argument and role). */
  function WithEntry(hd: TcHeader, e: Entry): (r: TcHeader)
    ensures r.command.container.entries == hd.command.container.entries + [e]
    ensures r.name == hd.name && r.command.name == hd.command.name && r.command.container.name == hd.command.container.name
    ensures r.command.arguments == hd.command.arguments && r.command.isAbstract == hd.command.isAbstract
    ensures r.apid == hd.apid && r.ptype == hd.ptype && r.subType == hd.subType && r.ack == hd.ack
  {
    var mc := hd.command;
    hd.(command := mc.(container := mc.container.(entries := mc.container.entries + [e])))
  }

  /** The field role a one-letter PCDF type assigns. */
  function WithRole(hd: TcHeader, ptype: string, pname: string): (r: TcHeader)
    ensures r.command == hd.command && r.name == hd.name
    ensures r.apid == (if ptype == "A" then Some(pname) else hd.apid)
    ensures r.ptype == (if ptype == "T" then Some(pname) else hd.ptype)
    ensures r.subType == (if ptype == "S" then Some(pname) else hd.subType)
    ensures r.ack == (if ptype == "K" then Some(pname) else hd.ack)
  {
    if ptype == "A" then hd.(apid := Some(pname))
    else if ptype == "T" then hd.(ptype := Some(pname))
    else if ptype == "S" then hd.(subType := Some(pname))
    else if ptype == "K" then hd.(ack := Some(pname))
    else hd
  }

  /** The state with a header replaced and registered again. */
  function PutHeader(st: HeaderState, hd: TcHeader): (r: HeaderState)
    ensures r.headers == st.headers[hd.name := hd] && r.args == st.args
    ensures r.ss.commands == st.ss.commands[hd.command.name := hd.command]
    ensures r.ss.SameTelemetry(st.ss)
  {
    HeaderState(st.ss.PutCommand(hd.command), st.headers[hd.name := hd], st.args)
  }

  /** A fixed value (or padding) appended to header `cname`. */
  function AddFixed(st: HeaderState, cname: string, e: Entry): (r: HeaderState)
    requires st.Valid() && cname in st.headers && e.location == ContainerStart && e.kind.FixedValueEntry?
    ensures r.Valid()
    ensures r.headers.Keys == st.headers.Keys && r.args == st.args
    ensures forall h :: h in st.headers && h != cname ==> r.headers[h] == st.headers[h]
    ensures r.headers[cname].command.container.entries == st.headers[cname].command.container.entries + [e]
    ensures r.headers[cname].command.arguments == st.headers[cname].command.arguments
    ensures r.ss.SameTelemetry(st.ss)
  {
    FixedRowValid(st, cname, e);
    PutHeader(st, WithEntry(st.headers[cname], e))
  }

  /** The header of `cname` after an argument row: the argument appended to
      the command and its entry to the container, and the role recorded. */
  function ArgHeader(hd: TcHeader, a: Argument, bit: int, ptype: string): (r: TcHeader)
    ensures r.name == hd.name && r.command.name == hd.command.name && r.command.container.name == hd.command.container.name
    ensures r.command.isAbstract == hd.command.isAbstract
    ensures r.command.arguments == hd.command.arguments + [a]
    ensures r.command.container.entries == hd.command.container.entries + [Entry(ArgumentEntry(a.name), ContainerStart, bit, None)]
    ensures r.apid == (if ptype == "A" then Some(a.name) else hd.apid)
    ensures r.ptype == (if ptype == "T" then Some(a.name) else hd.ptype)
    ensures r.subType == (if ptype == "S" then Some(a.name) else hd.subType)
    ensures r.ack == (if ptype == "K" then Some(a.name) else hd.ack)
  {
    var mc := hd.command.(arguments := hd.command.arguments + [a]);
    WithRole(WithEntry(hd.(command := mc), Entry(ArgumentEntry(a.name), ContainerStart, bit, None)), ptype, a.name)
  }

  /** An encoded argument placed in header `cname`. */
  function AddArgument(st: HeaderState, cname: string, a: Argument, bit: int, ptype: string): (r: HeaderState)
    requires st.Valid() && cname in st.headers && a.name in st.args
    requires a.atype.kind == st.args[a.name].atype.kind && a.atype.encoding.Some? && a.atype.encoding.value.IntegerEncoding?
    requires st.args[a.name].atype.encoding.Some? ==> a == st.args[a.name]
    ensures r.Valid()
    ensures r.headers.Keys == st.headers.Keys && r.args == st.args[a.name := a]
    ensures forall h :: h in st.headers && h != cname ==> r.headers[h] == st.headers[h]
    ensures r.headers[cname] == ArgHeader(st.headers[cname], a, bit, ptype)
    ensures r.ss.SameTelemetry(st.ss)
  {
    var r := PutHeader(HeaderState(st.ss, st.headers, st.args[a.name := a]), ArgHeader(st.headers[cname], a, bit, ptype));
    ArgRowRoles(st, cname, a, bit, ptype);
    ArgRowPlaced(st, cname, a, bit, ptype);
    ArgRowFromStart(st, cname, a, bit, ptype);
    r
  }

  /** The facts every PCDF row step keeps: the invariants, the same headers
      and header arguments, and only header `cname` changed. */
  predicate StepFrom(st: HeaderState, cname: string, r: HeaderState) {
    && r.Valid() && r.ss.SameTelemetry(st.ss)
    && cname in st.headers && cname in r.headers
    && |r.headers[cname].command.container.entries| == |st.headers[cname].command.container.entries| + 1
    && r.headers.Keys == st.headers.Keys && r.args.Keys == st.args.Keys
    && (forall h :: h in st.headers && h != cname ==> r.headers[h] == st.headers[h])
  }

  /** A "F" row: the hexadecimal value, right-aligned in zeros when the size
      is wider than its bytes. */
  function PcdfFixed(st: HeaderState, hex: string -> Result<Bytes, LoadError>, ctx: Context, line: seq<string>,
                     cname: string, sizeInBits: int): (r: Result<HeaderState, LoadError>)
    requires st.Valid() && cname in st.headers
    ensures r.Ok? ==> StepFrom(st, cname, r.value)
    ensures r.Ok? <==> IDX_PCDF_VALUE < |line| && hex(line[IDX_PCDF_VALUE]).Ok? && GetInt(ctx, line, IDX_PCDF_BIT).Ok?
    ensures r.Ok? ==>
      var e := Entry(FixedValueEntry(GetOptString(line, IDX_PCDF_DESC), FixedBytes(hex(line[IDX_PCDF_VALUE]).value, sizeInBits), sizeInBits),
                     ContainerStart, ParseInt(line[IDX_PCDF_BIT]).value, None);
      r.value.headers[cname] == WithEntry(st.headers[cname], e) && r.value.args == st.args
  {
    var _ :- CheckMandatory(ctx, line, [IDX_PCDF_VALUE]);
    var binary :- hex(line[IDX_PCDF_VALUE]);
    var bit :- GetInt(ctx, line, IDX_PCDF_BIT);
    Ok(AddFixed(st, cname, Entry(FixedValueEntry(GetOptString(line, IDX_PCDF_DESC), FixedBytes(binary, sizeInBits), sizeInBits), ContainerStart, bit, None)))
  }

  /** The bytes of an "F" row: the value as given, or right-aligned in
      `(sizeInBits >> 3) + 1` bytes when the size is wider than it. */
  function FixedBytes(binary: Bytes, sizeInBits: int): (r: Bytes)
    ensures sizeInBits > 8 * |binary| ==>
      && |r| == sizeInBits / 8 + 1 && r[|r| - |binary|..] == binary
      && forall i :: 0 <= i < |r| - |binary| ==> r[i] == 0
    ensures sizeInBits <= 8 * |binary| ==> r == binary
  {
    if sizeInBits > 8 * |binary| then Pad(binary, sizeInBits) else binary
  }

  /** A "P" row: `(sizeInBits >> 3) + 1` zero bytes; a negative array size
      is a runtime error. */
  function PcdfPadding(st: HeaderState, ctx: Context, line: seq<string>, cname: string, sizeInBits: int)
    : (r: Result<HeaderState, LoadError>)
    requires st.Valid() && cname in st.headers
    ensures r.Ok? ==> StepFrom(st, cname, r.value)
    ensures sizeInBits / 8 + 1 < 0 ==> r == Err(NegativeArraySize(sizeInBits / 8 + 1))
    ensures r.Ok? <==> sizeInBits / 8 + 1 >= 0 && GetInt(ctx, line, IDX_PCDF_BIT).Ok?
    ensures r.Ok? ==>
      var e := Entry(FixedValueEntry(GetOptString(line, IDX_PCDF_PNAME), ZeroBytes(sizeInBits / 8 + 1), sizeInBits),
                     ContainerStart, ParseInt(line[IDX_PCDF_BIT]).value, None);
      r.value.headers[cname] == WithEntry(st.headers[cname], e) && r.value.args == st.args
  {
    var n := sizeInBits / 8 + 1;
    if n < 0 then Err(NegativeArraySize(n))
    else
      var bit :- GetInt(ctx, line, IDX_PCDF_BIT);
      Ok(AddFixed(st, cname, Entry(FixedValueEntry(GetOptString(line, IDX_PCDF_PNAME), ZeroBytes(n), sizeInBits), ContainerStart, bit, None)))
  }

  /** An argument row's PCPC argument exists and takes the row's length,
      and its bit parses. */
  predicate ArgRowReads(st: HeaderState, ctx: Context, line: seq<string>, sizeInBits: int)
    requires st.Valid() && IDX_PCDF_PNAME < |line|
  {
    && line[IDX_PCDF_PNAME] in st.args
    && EncodedArg(ctx, st.args[line[IDX_PCDF_PNAME]], sizeInBits).Ok? && GetInt(ctx, line, IDX_PCDF_BIT).Ok?
  }

  /** An argument row: the PCPC argument, encoded on its first use. */
  function PcdfArgument(st: HeaderState, ctx: Context, line: seq<string>, cname: string, ptype: string, sizeInBits: int)
    : (r: Result<HeaderState, LoadError>)
    requires st.Valid() && cname in st.headers
    ensures r.Ok? ==> StepFrom(st, cname, r.value)
    ensures |line| > IDX_PCDF_PNAME && line[IDX_PCDF_PNAME] !in st.args ==> r == Err(UnknownHeaderArg(ctx, line[IDX_PCDF_PNAME]))
    ensures r.Ok? <==> IDX_PCDF_PNAME < |line| && ArgRowReads(st, ctx, line, sizeInBits)
    ensures r.Ok? ==>
      var pname := line[IDX_PCDF_PNAME];
      var a := EncodedArg(ctx, st.args[pname], sizeInBits).value;
      && r.value.headers[cname] == ArgHeader(st.headers[cname], a, ParseInt(line[IDX_PCDF_BIT]).value, ptype)
      && r.value.args == st.args[pname := a]
  {
    var _ :- CheckMandatory(ctx, line, [IDX_PCDF_PNAME]);
    var pname := line[IDX_PCDF_PNAME];
    if pname !in st.args then Err(UnknownHeaderArg(ctx, pname))
    else
      var a :- EncodedArg(ctx, st.args[pname], sizeInBits);
      var bit :- GetInt(ctx, line, IDX_PCDF_BIT);
      AddArgumentStep(st, cname, a, bit, ptype);
      Ok(AddArgument(st, cname, a, bit, ptype))
  }

  lemma AddArgumentStep(st: HeaderState, cname: string, a: Argument, bit: int, ptype: string)
    requires st.Valid() && cname in st.headers && a.name in st.args
    requires a.atype.kind == st.args[a.name].atype.kind && a.atype.encoding.Some? && a.atype.encoding.value.IntegerEncoding?
    requires st.args[a.name].atype.encoding.Some? ==> a == st.args[a.name]
    ensures StepFrom(st, cname, AddArgument(st, cname, a, bit, ptype))
  {
  }

  /** One PCDF row: the mandatory columns, the header it names, its length,
      then the step its type selects. */
  function PcdfRow(st: HeaderState, hex: string -> Result<Bytes, LoadError>, ctx: Context, line: seq<string>)
    : (r: Result<HeaderState, LoadError>)
    requires st.Valid()
    ensures r.Ok? ==> |line| > IDX_PCDF_BIT && line[IDX_PCDF_TCNAME] in st.headers
    ensures r.Ok? ==> StepFrom(st, line[IDX_PCDF_TCNAME], r.value)
    ensures r.Ok? ==> var cname := line[IDX_PCDF_TCNAME];
      r.value.headers[cname].command.container.entries == st.headers[cname].command.container.entries + [PcdfEntry(hex, line)]
  {
    var cols := [IDX_PCDF_TCNAME, IDX_PCDF_TYPE, IDX_PCDF_LEN, IDX_PCDF_BIT];
    var _ :- CheckMandatory(ctx, line, cols);
    assert cols[3] < |line|;
    var cname := line[IDX_PCDF_TCNAME];
    if cname !in st.headers then Err(UnknownHeader(ctx, cname))
    else
      var sizeInBits :- GetInt(ctx, line, IDX_PCDF_LEN);
      PcdfTyped(st, hex, ctx, line, cname, line[IDX_PCDF_TYPE], sizeInBits)
  }

  /** A row of a known header with all four mandatory columns fails on a
      length that does not parse, and otherwise takes the step of its type. */
  lemma PcdfRowDispatch(st: HeaderState, hex: string -> Result<Bytes, LoadError>, ctx: Context, line: seq<string>)
    requires st.Valid() && |line| > IDX_PCDF_BIT && line[IDX_PCDF_TCNAME] in st.headers
    ensures var size := GetInt(ctx, line, IDX_PCDF_LEN);
      && (size.Err? ==> PcdfRow(st, hex, ctx, line) == Err(size.error))
      && (size.Ok? ==> PcdfRow(st, hex, ctx, line) == PcdfTyped(st, hex, ctx, line, line[IDX_PCDF_TCNAME], line[IDX_PCDF_TYPE], size.value))
  {
    PcdfColumns(ctx, line);
  }

  /** The step of a row of type `ptype` of length `sizeInBits`: "F" is a
      fixed value, any part of "ATSK" ("" included) an argument, "P" zero
      padding, and any other type is rejected. */
  function PcdfTyped(st: HeaderState, hex: string -> Result<Bytes, LoadError>, ctx: Context, line: seq<string>,
                     cname: string, ptype: string, sizeInBits: int): (r: Result<HeaderState, LoadError>)
    requires st.Valid() && cname in st.headers && |line| > IDX_PCDF_BIT
    requires ptype == line[IDX_PCDF_TYPE] && ParseInt(line[IDX_PCDF_LEN]) == Some(sizeInBits)
    ensures r.Ok? ==> StepFrom(st, cname, r.value)
    ensures r.Ok? ==>
      r.value.headers[cname].command.container.entries == st.headers[cname].command.container.entries + [PcdfEntry(hex, line)]
    ensures ptype != "F" && ptype != "P" && !Contains("ATSK", ptype) ==> r == Err(MibLoadError(Some(ctx), "Invalid PCDF_TYPE=" + ptype))
  {
    PaddingNotArgument();
    if ptype == "F" then
      var r := PcdfFixed(st, hex, ctx, line, cname, sizeInBits);
      PcdfFixedEntry(st, hex, ctx, line, cname, sizeInBits);
      r
    else if Contains("ATSK", ptype) then
      var r := PcdfArgument(st, ctx, line, cname, ptype, sizeInBits);
      PcdfArgumentEntry(st, hex, ctx, line, cname, ptype, sizeInBits);
      r
    else if ptype == "P" then
      var r := PcdfPadding(st, ctx, line, cname, sizeInBits);
      PcdfPaddingEntry(st, hex, ctx, line, cname, sizeInBits);
      r
    else Err(MibLoadError(Some(ctx), "Invalid PCDF_TYPE=" + ptype))
  }

  /** "P" is not a part of "ATSK", so a padding row is not taken for an
      argument. */
  lemma PaddingNotArgument()
    ensures !Contains("ATSK", "P")
  {
    assert !Contains("K", "P") by {
      assert "K"[1..] == "" && !Contains("", "P");
      assert "K"[..1] == "K" && "K" != "P";
    }
    assert !Contains("SK", "P") by { assert "SK"[1..] == "K"; }
    assert !Contains("TSK", "P") by { assert "TSK"[1..] == "SK"; }
    assert "ATSK"[1..] == "TSK";
  }

  lemma PcdfFixedEntry(st: HeaderState, hex: string -> Result<Bytes, LoadError>, ctx: Context, line: seq<string>,
                       cname: string, sizeInBits: int)
    requires st.Valid() && cname in st.headers && |line| > IDX_PCDF_BIT
    requires line[IDX_PCDF_TYPE] == "F" && ParseInt(line[IDX_PCDF_LEN]) == Some(sizeInBits)
    ensures var r := PcdfFixed(st, hex, ctx, line, cname, sizeInBits);
      r.Ok? ==> r.value.headers[cname].command.container.entries == st.headers[cname].command.container.entries + [PcdfEntry(hex, line)]
  {
  }

  lemma PcdfArgumentEntry(st: HeaderState, hex: string -> Result<Bytes, LoadError>, ctx: Context, line: seq<string>,
                          cname: string, ptype: string, sizeInBits: int)
    requires st.Valid() && cname in st.headers && |line| > IDX_PCDF_BIT
    requires line[IDX_PCDF_TYPE] == ptype && ptype != "F" && Contains("ATSK", ptype)
    ensures var r := PcdfArgument(st, ctx, line, cname, ptype, sizeInBits);
      r.Ok? ==> r.value.headers[cname].command.container.entries == st.headers[cname].command.container.entries + [PcdfEntry(hex, line)]
  {
  }

  lemma PcdfPaddingEntry(st: HeaderState, hex: string -> Result<Bytes, LoadError>, ctx: Context, line: seq<string>,
                         cname: string, sizeInBits: int)
    requires st.Valid() && cname in st.headers && |line| > IDX_PCDF_BIT
    requires line[IDX_PCDF_TYPE] == "P" && ParseInt(line[IDX_PCDF_LEN]) == Some(sizeInBits)
    ensures var r := PcdfPadding(st, ctx, line, cname, sizeInBits);
      r.Ok? ==> r.value.headers[cname].command.container.entries == st.headers[cname].command.container.entries + [PcdfEntry(hex, line)]
  {
    if PcdfPadding(st, ctx, line, cname, sizeInBits).Ok? {
      PaddingEntry(hex, line, sizeInBits);
    }
  }

  /** The entry of a "P" row of a non-negative byte count. */
  lemma PaddingEntry(hex: string -> Result<Bytes, LoadError>, line: seq<string>, sizeInBits: int)
    requires |line| > IDX_PCDF_BIT && line[IDX_PCDF_TYPE] == "P" && ParseInt(line[IDX_PCDF_LEN]) == Some(sizeInBits)
    requires sizeInBits / 8 + 1 >= 0 && ParseInt(line[IDX_PCDF_BIT]).Some?
    ensures PcdfEntry(hex, line)
      == Entry(FixedValueEntry(GetOptString(line, IDX_PCDF_PNAME), ZeroBytes(sizeInBits / 8 + 1), sizeInBits),
               ContainerStart, ParseInt(line[IDX_PCDF_BIT]).value, None)
  {
    PaddingNotArgument();
    assert "P" != "F" by { assert "P"[0] != "F"[0]; }
  }

  /** The entry a PCDF row adds to its header's container, read from the row
      alone: the value for "F", the argument named in PNAME for a part of
      "ATSK", zero padding otherwise ("P", the only other type that loads); placed from the container start at BIT. A
      number that does not parse reads as 0 here: such a row fails before it
      adds anything. */
  function PcdfEntry(hex: string -> Result<Bytes, LoadError>, line: seq<string>): Entry {
    var size := IntAt(line, IDX_PCDF_LEN);
    var ptype := if IDX_PCDF_TYPE < |line| then line[IDX_PCDF_TYPE] else "";
    var kind :=
      if ptype == "F" then
        var value := if IDX_PCDF_VALUE < |line| && hex(line[IDX_PCDF_VALUE]).Ok? then hex(line[IDX_PCDF_VALUE]).value else [];
        FixedValueEntry(GetOptString(line, IDX_PCDF_DESC), FixedBytes(value, size), size)
      else if Contains("ATSK", ptype) then ArgumentEntry(if IDX_PCDF_PNAME < |line| then line[IDX_PCDF_PNAME] else "")
      else FixedValueEntry(GetOptString(line, IDX_PCDF_PNAME), ZeroBytes(if size / 8 + 1 >= 0 then size / 8 + 1 else 0), size);
    Entry(kind, ContainerStart, IntAt(line, IDX_PCDF_BIT), None)
  }

  /** Column `k` as an int, 0 when it is missing or does not parse. */
  function IntAt(line: seq<string>, k: nat): int {
    if k < |line| && ParseInt(line[k]).Some? then ParseInt(line[k]).value else 0
  }

  /** A PCDF row of an unknown header is rejected with that header's name. */
  lemma PcdfUnknownHeader(st: HeaderState, hex: string -> Result<Bytes, LoadError>, ctx: Context, line: seq<string>)
    requires st.Valid()
    requires |line| > IDX_PCDF_BIT && line[IDX_PCDF_TCNAME] !in st.headers
    ensures PcdfRow(st, hex, ctx, line) == Err(UnknownHeader(ctx, line[IDX_PCDF_TCNAME]))
  {
    PcdfColumns(ctx, line);
  }

  /** A line long enough for BIT holds all four mandatory PCDF columns. */
  lemma PcdfColumns(ctx: Context, line: seq<string>)
    ensures |line| > IDX_PCDF_BIT <==> CheckMandatory(ctx, line, [IDX_PCDF_TCNAME, IDX_PCDF_TYPE, IDX_PCDF_LEN, IDX_PCDF_BIT]).Ok?
  {
    var cols := [IDX_PCDF_TCNAME, IDX_PCDF_TYPE, IDX_PCDF_LEN, IDX_PCDF_BIT];
    if |line| > IDX_PCDF_BIT {
      assert forall i :: 0 <= i < |cols| ==> cols[i] < |line|;
    } else {
      assert !(cols[3] < |line|);
    }
  }

  /** A header keeps the arguments it had when it gains one. */
  lemma GainsArgument(hd: TcHeader, a: Argument, bit: int, ptype: string, n: string)
    requires hd.command.HasArgument(n)
    ensures ArgHeader(hd, a, bit, ptype).command.HasArgument(n)
  {
    var i :| 0 <= i < |hd.command.arguments| && hd.command.arguments[i].name == n;
    assert ArgHeader(hd, a, bit, ptype).command.arguments[i] == hd.command.arguments[i];
  }

  /** A fixed-value entry keeps the header's arguments and start-located entries. */
  lemma FixedRowValid(st: HeaderState, cname: string, e: Entry)
    requires st.Valid() && cname in st.headers && e.location == ContainerStart
    ensures PutHeader(st, WithEntry(st.headers[cname], e)).Valid()
  {
    var hd := st.headers[cname];
    var hd1 := WithEntry(hd, e);
    var r := PutHeader(st, hd1);
    assert hd1.command.arguments == hd.command.arguments;
    forall h, i | h in r.headers && 0 <= i < |r.headers[h].command.container.entries|
      ensures r.headers[h].command.container.entries[i].location == ContainerStart
    {
      if h == cname && i < |hd.command.container.entries| {
        assert r.headers[h].command.container.entries[i] == hd.command.container.entries[i];
      }
    }
  }

  lemma ArgRowRoles(st: HeaderState, cname: string, a: Argument, bit: int, ptype: string)
    requires st.Valid() && cname in st.headers
    ensures PutHeader(HeaderState(st.ss, st.headers, st.args[a.name := a]), ArgHeader(st.headers[cname], a, bit, ptype)).RolesPlaced()
  {
    var hd := st.headers[cname];
    var hd1 := ArgHeader(hd, a, bit, ptype);
    assert hd1.command.arguments[|hd1.command.arguments| - 1] == a;
    assert hd1.command.HasArgument(a.name);
    forall n | hd.command.HasArgument(n) ensures hd1.command.HasArgument(n) {
      GainsArgument(hd, a, bit, ptype, n);
    }
  }

  lemma ArgRowPlaced(st: HeaderState, cname: string, a: Argument, bit: int, ptype: string)
    requires st.Valid() && cname in st.headers && a.name in st.args && a.atype.encoding.Some?
    requires st.args[a.name].atype.encoding.Some? ==> a == st.args[a.name]
    ensures PutHeader(HeaderState(st.ss, st.headers, st.args[a.name := a]), ArgHeader(st.headers[cname], a, bit, ptype)).ArgsPlaced()
  {
    var hd := st.headers[cname];
    var r := PutHeader(HeaderState(st.ss, st.headers, st.args[a.name := a]), ArgHeader(hd, a, bit, ptype));
    forall h, i | h in r.headers && 0 <= i < |r.headers[h].command.arguments|
      ensures var x := r.headers[h].command.arguments[i];
        x.name in r.args && r.args[x.name] == x && x.atype.encoding.Some?
    {
      var x := r.headers[h].command.arguments[i];
      if h != cname || i < |hd.command.arguments| {
        assert x == st.headers[h].command.arguments[i];
      }
    }
  }

  lemma ArgRowFromStart(st: HeaderState, cname: string, a: Argument, bit: int, ptype: string)
    requires st.Valid() && cname in st.headers
    ensures PutHeader(HeaderState(st.ss, st.headers, st.args[a.name := a]), ArgHeader(st.headers[cname], a, bit, ptype)).FromStart()
  {
    var hd := st.headers[cname];
    var r := PutHeader(HeaderState(st.ss, st.headers, st.args[a.name := a]), ArgHeader(hd, a, bit, ptype));
    forall h, i | h in r.headers && 0 <= i < |r.headers[h].command.container.entries|
      ensures r.headers[h].command.container.entries[i].location == ContainerStart
    {
      if h == cname && i < |hd.command.container.entries| {
        assert r.headers[h].command.container.entries[i] == hd.command.container.entries[i];
      }
    }
  }

  /** The entries the first `n` PCDF rows add to header `h`: the entry of
      each row naming `h`, in row order. */
  function PcdfEntries(t: Table, hex: string -> Result<Bytes, LoadError>, h: string, n: nat): seq<Entry>
    requires n <= |t.lines|
  {
    if n == 0 then []
    else PcdfEntries(t, hex, h, n - 1) + (if KeyAt(t, IDX_PCDF_TCNAME, n - 1) == h then [PcdfEntry(hex, t.lines[n - 1].fields)] else [])
  }

  /** The entries of a header after rows `st0`..`n`: its entries before them,
      then those rows' entries. */
  ghost predicate EntriesFrom(st0: HeaderState, r: HeaderState, t: Table, hex: string -> Result<Bytes, LoadError>, n: nat)
    requires n <= |t.lines|
  {
    forall h :: h in st0.headers && h in r.headers ==>
      r.headers[h].command.container.entries == st0.headers[h].command.container.entries + PcdfEntries(t, hex, h, n)
  }

  /** `loadPcdf` over the first `n` rows: each row appends its entry to the
      container of the header it names. */
  function LoadPcdfUpTo(st: HeaderState, t: Table, hex: string -> Result<Bytes, LoadError>, n: nat): (r: Result<HeaderState, LoadError>)
    requires st.Valid() && n <= |t.lines|
    ensures r.Ok? ==> r.value.Valid() && r.value.ss.SameTelemetry(st.ss)
    ensures r.Ok? ==> r.value.headers.Keys == st.headers.Keys && r.value.args.Keys == st.args.Keys
    ensures r.Ok? ==> EntriesFrom(st, r.value, t, hex, n)
  {
    if n == 0 then Ok(st)
    else
      var st1 :- LoadPcdfUpTo(st, t, hex, n - 1);
      var r :- PcdfRow(st1, hex, t.At(n - 1), t.lines[n - 1].fields);
      PcdfStep(st, st1, r, t, hex, n);
      Ok(r)
  }

  /** One more row keeps `EntriesFrom`. */
  lemma PcdfStep(st: HeaderState, st1: HeaderState, r: HeaderState, t: Table, hex: string -> Result<Bytes, LoadError>, n: nat)
    requires 0 < n <= |t.lines| && |t.lines[n - 1].fields| > IDX_PCDF_BIT
    requires st1.headers.Keys == st.headers.Keys && EntriesFrom(st, st1, t, hex, n - 1)
    requires StepFrom(st1, t.lines[n - 1].fields[IDX_PCDF_TCNAME], r)
    requires var cname := t.lines[n - 1].fields[IDX_PCDF_TCNAME];
      r.headers[cname].command.container.entries == st1.headers[cname].command.container.entries + [PcdfEntry(hex, t.lines[n - 1].fields)]
    ensures EntriesFrom(st, r, t, hex, n)
  {
    var cname := t.lines[n - 1].fields[IDX_PCDF_TCNAME];
    assert KeyAt(t, IDX_PCDF_TCNAME, n - 1) == cname;
    forall h | h in st.headers && h in r.headers
      ensures r.headers[h].command.container.entries == st.headers[h].command.container.entries + PcdfEntries(t, hex, h, n)
    {
      var old0 := st.headers[h].command.container.entries;
      if h == cname {
        assert old0 + PcdfEntries(t, hex, h, n - 1) + [PcdfEntry(hex, t.lines[n - 1].fields)]
            == old0 + (PcdfEntries(t, hex, h, n - 1) + [PcdfEntry(hex, t.lines[n - 1].fields)]);
      } else {
        assert r.headers[h] == st1.headers[h];
        assert PcdfEntries(t, hex, h, n) == PcdfEntries(t, hex, h, n - 1);
      }
    }
  }

  /** `loadPcdf`: the layout of every header. */
  function LoadPcdf(st: HeaderState, t: Table, hex: string -> Result<Bytes, LoadError>): (r: Result<HeaderState, LoadError>)
    requires st.Valid()
    ensures r.Ok? ==> r.value.Valid() && r.value.ss.SameTelemetry(st.ss)
    ensures r.Ok? ==> r.value.headers.Keys == st.headers.Keys && r.value.args.Keys == st.args.Keys
    ensures r.Ok? ==> forall h :: h in st.headers ==>
      r.value.headers[h].command.container.entries == st.headers[h].command.container.entries + PcdfEntries(t, hex, h, |t.lines|)
  {
    LoadPcdfUpTo(st, t, hex, |t.lines|)
  }

  /** `loadTcpPcpc` then `loadPcdf`: the headers registered with the space
      system and laid out. */
  function LoadHeaders(ss: SpaceSystem, tcp: Table, pcpc: Table, pcdf: Table, hex: string -> Result<Bytes, LoadError>)
    : (r: Result<HeaderState, LoadError>)
    ensures r.Ok? ==> r.value.Valid() && r.value.ss.SameTelemetry(ss)
    ensures r.Ok? ==> (LoadTcp(tcp).Ok? && LoadPcpc(pcpc).Ok?
      && r.value.headers.Keys == LoadTcp(tcp).value.Keys && r.value.args.Keys == LoadPcpc(pcpc).value.Keys)
    ensures r.Ok? ==> forall h :: h in r.value.headers ==>
      r.value.headers[h].command.container.entries == PcdfEntries(pcdf, hex, h, |pcdf.lines|)
  {
    var headers :- LoadTcp(tcp);
    var args :- LoadPcpc(pcpc);
    var st := HeaderState(PutHeaders(ss, headers), headers, args);
    var r := LoadPcdf(st, pcdf, hex);
    FreshHeadersEntries(st, r, pcdf, hex);
    r
  }

  /** Headers that start empty end with exactly their PCDF entries. */
  lemma FreshHeadersEntries(st: HeaderState, r: Result<HeaderState, LoadError>, pcdf: Table, hex: string -> Result<Bytes, LoadError>)
    requires forall h :: h in st.headers ==> st.headers[h].command.container.entries == []
    requires r.Ok? ==> r.value.headers.Keys == st.headers.Keys
    requires r.Ok? ==> forall h :: h in st.headers ==>
      r.value.headers[h].command.container.entries == st.headers[h].command.container.entries + PcdfEntries(pcdf, hex, h, |pcdf.lines|)
    ensures r.Ok? ==> forall h :: h in r.value.headers ==>
      r.value.headers[h].command.container.entries == PcdfEntries(pcdf, hex, h, |pcdf.lines|)
  {
    if r.Ok? {
      forall h | h in r.value.headers
        ensures r.value.headers[h].command.container.entries == PcdfEntries(pcdf, hex, h, |pcdf.lines|)
      {
        assert [] + PcdfEntries(pcdf, hex, h, |pcdf.lines|) == PcdfEntries(pcdf, hex, h, |pcdf.lines|);
      }
    }
  }
}
