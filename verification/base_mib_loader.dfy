/** The table reader and the column accessors every MIB table loader shares.
    A MIB table is a tab-separated text file; a loader reads it line by line
    and picks columns by zero-based index. */
module BaseMibLoader {
  import opened Wrappers
  import opened Text
  import opened Mdb
  import opened MibLoaderBits

  const OB_PID_NAMESPACE: string := "OB:PID"
  const PUS_NAMESPACE: string := "PUS"
  const SEPARATOR: char := '\t'

  /** One line of a table: its physical line number and its columns. */
  datatype Line = Line(lineNum: int, fields: seq<string>)

  /** A table as read from `<path>/<name>.dat`; `endLine` is the line number
      the reader reports once the file is exhausted. */
  datatype Table = Table(file: string, lines: seq<Line>, endLine: int)
  {
    function At(i: int): Context
      requires 0 <= i < |lines|
    {
      Context(file, lines[i].lineNum)
    }

    function AtEnd(): Context {
      Context(file, endLine)
    }
  }

  function TableFile(path: string, name: string): string {
    path + "/" + name + ".dat"
  }

  /** `switchTo` followed by `nextLine` until the end of the file. Only the
      first physical line may be a `#` comment; every other line is split on
      tabs. The physical lines are given (file access is outside the model). */
  function ReadTable(path: string, name: string, physical: seq<string>): (t: Table)
    ensures t.file == TableFile(path, name) && t.endLine == |physical|
    ensures var skip := if |physical| > 0 && StartsWith(physical[0], "#") then 1 else 0;
      |t.lines| == |physical| - skip
      && forall i :: 0 <= i < |t.lines| ==> t.lines[i].lineNum == i + skip + 1
  {
    var skip := if |physical| > 0 && StartsWith(physical[0], "#") then 1 else 0;
    Table(TableFile(path, name),
      seq(|physical| - skip, i requires 0 <= i < |physical| - skip =>
        Line(i + skip + 1, JavaSplit(physical[i + skip], SEPARATOR))),
      |physical|)
  }

  /** Every line read keeps the text of its physical line: the columns joined
      with tabs are the line without its trailing tabs, and a line other than
      the first is never dropped. */
  lemma ReadTableFaithful(path: string, name: string, physical: seq<string>, i: int)
    requires 0 <= i < |ReadTable(path, name, physical).lines|
    ensures var t := ReadTable(path, name, physical);
      var s := physical[t.lines[i].lineNum - 1];
      var j := JoinFields(t.lines[i].fields, SEPARATOR);
      StartsWith(s, j) && forall k :: |j| <= k < |s| ==> s[k] == SEPARATOR
  {
    var t := ReadTable(path, name, physical);
    JavaSplitJoin(physical[t.lines[i].lineNum - 1], SEPARATOR);
  }

  /** A row reader applied to the first `n` lines of a table, stopping at
      the first row that throws. */
  function ParseRowsUpTo<T>(t: Table, parse: (Context, seq<string>) -> Result<T, LoadError>, n: nat): (r: Result<seq<T>, LoadError>)
    requires n <= |t.lines|
    ensures r.Ok? <==> forall i :: 0 <= i < n ==> parse(t.At(i), t.lines[i].fields).Ok?
    ensures r.Ok? ==> |r.value| == n && forall i :: 0 <= i < n ==> parse(t.At(i), t.lines[i].fields) == Ok(r.value[i])
    ensures r.Err? ==> (exists i :: 0 <= i < n && parse(t.At(i), t.lines[i].fields) == Err(r.error)
                          && forall j :: 0 <= j < i ==> parse(t.At(j), t.lines[j].fields).Ok?)
  {
    if n == 0 then Ok([])
    else
      var prefix :- ParseRowsUpTo(t, parse, n - 1);
      var row :- parse(t.At(n - 1), t.lines[n - 1].fields);
      Ok(prefix + [row])
  }

  /** The `while ((line = nextLine()) != null)` loop of a loader whose rows
      are independent: every row read in order, the first error aborting. */
  function ParseRows<T>(t: Table, parse: (Context, seq<string>) -> Result<T, LoadError>): (r: Result<seq<T>, LoadError>)
    ensures r.Ok? <==> forall i :: 0 <= i < |t.lines| ==> parse(t.At(i), t.lines[i].fields).Ok?
    ensures r.Ok? ==> (|r.value| == |t.lines|
                       && forall i :: 0 <= i < |t.lines| ==> parse(t.At(i), t.lines[i].fields) == Ok(r.value[i]))
    ensures r.Err? ==> (exists i :: 0 <= i < |t.lines| && parse(t.At(i), t.lines[i].fields) == Err(r.error)
                          && forall j :: 0 <= j < i ==> parse(t.At(j), t.lines[j].fields).Ok?)
  {
    ParseRowsUpTo(t, parse, |t.lines|)
  }

  /** The row a successful pass kept for line `i` is what the reader made of it. */
  lemma ParsedAt<T>(t: Table, parse: (Context, seq<string>) -> Result<T, LoadError>, i: int)
    requires ParseRows(t, parse).Ok? && 0 <= i < |t.lines|
    ensures i < |ParseRows(t, parse).value| && parse(t.At(i), t.lines[i].fields) == Ok(ParseRows(t, parse).value[i])
  {
  }

  // ---------------------------------------------------------------------------
  // Column accessors

  /** `hasColumn`: the column exists and is not empty. */
  predicate HasColumn(line: seq<string>, k: nat) {
    k < |line| && line[k] != ""
  }

  /** The runtime exception of indexing past the end of a line. */
  function IndexError(k: int, len: int): LoadError {
    RuntimeError("Index " + IntToString(k) + " out of bounds for length " + IntToString(len))
  }

  /** `line[k]` without a prior check: a short line raises an index error. */
  function Column(line: seq<string>, k: nat): (r: Result<string, LoadError>)
    ensures r.Ok? <==> k < |line|
    ensures r.Ok? ==> r.value == line[k]
  {
    if k < |line| then Ok(line[k]) else Err(IndexError(k, |line|))
  }

  function MissingColumn(ctx: Context, k: nat): LoadError {
    MibLoadError(Some(ctx), "Missing column " + IntToString(k + 1))
  }

  /** The largest column of a list (0 for an empty list). */
  function MaxCol(cols: seq<nat>): (m: nat)
    ensures forall i :: 0 <= i < |cols| ==> cols[i] <= m
  {
    if |cols| == 0 then 0
    else var rest := MaxCol(cols[1..]); if cols[0] > rest then cols[0] else rest
  }

  /** `checkMandatory`: fails on the first listed column the line is too short
      to hold. An empty column is present. */
  function CheckMandatory(ctx: Context, line: seq<string>, cols: seq<nat>): (r: Result<(), LoadError>)
    ensures r.Ok? <==> forall i :: 0 <= i < |cols| ==> cols[i] < |line|
    ensures r.Ok? ==> |cols| == 0 || MaxCol(cols) < |line|
    ensures r.Err? ==>
      exists i :: 0 <= i < |cols| && |line| <= cols[i] && r.error == MissingColumn(ctx, cols[i])
        && forall j :: 0 <= j < i ==> cols[j] < |line|
  {
    if |cols| == 0 then Ok(())
    else if |line| <= cols[0] then Err(MissingColumn(ctx, cols[0]))
    else
      var r := CheckMandatory(ctx, line, cols[1..]);
      assert forall i :: 1 <= i < |cols| ==> cols[i] == cols[1..][i - 1];
      if r.Err? then
        var i :| 0 <= i < |cols| - 1 && |line| <= cols[1..][i] && r.error == MissingColumn(ctx, cols[1..][i])
          && forall j :: 0 <= j < i ==> cols[1..][j] < |line|;
        assert cols[i + 1] == cols[1..][i];
        r
      else
        r
  }

  function ParseFailure(ctx: Context, s: string): LoadError {
    MibLoadError(Some(ctx), "Failed to parse '" + s + "' into a number")
  }

  /** `getInt(line, k)`: mandatory column parsed as a Java int. */
  function GetInt(ctx: Context, line: seq<string>, k: nat): (r: Result<int, LoadError>)
    ensures r.Ok? <==> k < |line| && ParseInt(line[k]).Some?
    ensures r.Ok? ==> r.value == ParseInt(line[k]).value && IsJavaInt(r.value)
    ensures |line| <= k ==> r == Err(MissingColumn(ctx, k))
    ensures k < |line| && r.Err? ==> r.error == ParseFailure(ctx, line[k])
  {
    var _ :- CheckMandatory(ctx, line, [k]);
    match ParseInt(line[k])
    case Some(v) => Ok(v)
    case None => Err(ParseFailure(ctx, line[k]))
  }

  /** `getInt(line, k, default)`: the default for an absent or empty column. */
  function GetIntOr(ctx: Context, line: seq<string>, k: nat, default: int): (r: Result<int, LoadError>)
    ensures !HasColumn(line, k) ==> r == Ok(default)
    ensures HasColumn(line, k) ==> r == GetInt(ctx, line, k)
  {
    if HasColumn(line, k) then GetInt(ctx, line, k) else Ok(default)
  }

  /** `getString(line, k, default)`. */
  function GetString(line: seq<string>, k: nat, default: string): (r: string)
    ensures HasColumn(line, k) ==> r == line[k]
    ensures !HasColumn(line, k) ==> r == default
  {
    if k < |line| && line[k] != "" then line[k] else default
  }

  /** `getString(line, k, null)`: `None` stands for the null default. */
  function GetOptString(line: seq<string>, k: nat): (r: Option<string>)
    ensures r.Some? <==> HasColumn(line, k)
    ensures r.Some? ==> r.value == line[k]
  {
    if HasColumn(line, k) then Some(line[k]) else None
  }

  /** `getLong(line, k)`: no mandatory check, so a short line is an index error. */
  function GetLong(ctx: Context, line: seq<string>, k: nat): (r: Result<int, LoadError>)
    ensures r.Ok? <==> k < |line| && ParseLong(line[k]).Some?
    ensures r.Ok? ==> r.value == ParseLong(line[k]).value
    ensures |line| <= k ==> r == Err(IndexError(k, |line|))
  {
    var s :- Column(line, k);
    match ParseLong(s)
    case Some(v) => Ok(v)
    case None => Err(ParseFailure(ctx, s))
  }

  function GetLongOr(ctx: Context, line: seq<string>, k: nat, default: int): (r: Result<int, LoadError>)
    ensures !HasColumn(line, k) ==> r == Ok(default)
    ensures HasColumn(line, k) ==> r == GetLong(ctx, line, k)
  {
    if HasColumn(line, k) then GetLong(ctx, line, k) else Ok(default)
  }

  /** `getUnsignedLong(line, k)`: the 64-bit pattern of an unsigned decimal,
      as a signed long. */
  function GetUnsignedLong(ctx: Context, line: seq<string>, k: nat): (r: Result<int, LoadError>)
    ensures r.Ok? <==> k < |line| && ParseUnsignedLong(line[k]).Some?
    ensures r.Ok? ==> r.value == ParseUnsignedLong(line[k]).value
    ensures |line| <= k ==> r == Err(IndexError(k, |line|))
  {
    var s :- Column(line, k);
    match ParseUnsignedLong(s)
    case Some(v) => Ok(v)
    case None => Err(ParseFailure(ctx, s))
  }

  /** `getDouble(line, k)`. */
  function GetDouble(ctx: Context, line: seq<string>, k: nat): (r: Result<real, LoadError>)
    ensures r.Ok? <==> k < |line| && ParseReal(line[k]).Some?
    ensures r.Ok? ==> r.value == ParseReal(line[k]).value
    ensures |line| <= k ==> r == Err(IndexError(k, |line|))
  {
    var s :- Column(line, k);
    match ParseReal(s)
    case Some(v) => Ok(v)
    case None => Err(ParseFailure(ctx, s))
  }

  function GetDoubleOr(ctx: Context, line: seq<string>, k: nat, default: real): (r: Result<real, LoadError>)
    ensures !HasColumn(line, k) ==> r == Ok(default)
    ensures HasColumn(line, k) ==> r == GetDouble(ctx, line, k)
  {
    if HasColumn(line, k) then GetDouble(ctx, line, k) else Ok(default)
  }

  /** A column holding a printed int reads back as that int. */
  lemma GetIntRoundTrip(ctx: Context, line: seq<string>, k: nat, n: int)
    requires k < |line| && line[k] == IntToString(n) && IsJavaInt(n)
    ensures GetInt(ctx, line, k) == Ok(n)
    ensures GetIntOr(ctx, line, k, 0) == Ok(n)
  {
    IntToStringRoundTrip(n, INT_MIN, INT_MAX);
  }

  // ---------------------------------------------------------------------------
  // Raw and engineering values

  function RadixOf(radix: string): (r: nat)
    ensures r in {8, 10, 16}
  {
    if radix == "H" then 16 else if radix == "O" then 8 else 10
  }

  function NumberFormatError(s: string): LoadError {
    RuntimeError("For input string: \"" + s + "\"")
  }

  /** `getDouble(val, fmt, radix)`: an unsigned raw format ("U") is read as a
      long in hexadecimal ("H"), octal ("O") or decimal; every other format as
      a decimal number. A malformed value escapes as a runtime exception. */
  function GetDoubleFmt(v: string, fmt: string, radix: string): (r: Result<real, LoadError>)
    ensures fmt == "U" ==> (r.Ok? <==> ParseLongRadix(v, RadixOf(radix)).Some?)
    ensures fmt == "U" && r.Ok? ==> r.value == ParseLongRadix(v, RadixOf(radix)).value as real
    ensures fmt != "U" ==> (r.Ok? <==> ParseReal(v).Some?)
    ensures fmt != "U" && r.Ok? ==> r.value == ParseReal(v).value
    ensures r.Err? ==> r.error == NumberFormatError(v)
  {
    if fmt == "U" then
      match ParseLongRadix(v, RadixOf(radix))
      case Some(x) => Ok(x as real)
      case None => Err(NumberFormatError(v))
    else
      match ParseReal(v)
      case Some(x) => Ok(x)
      case None => Err(NumberFormatError(v))
  }

  /** A raw value printed with `%02x` reads back through the hexadecimal radix. */
  lemma GetDoubleFmtHex(x: int)
    requires 0 <= x <= INT_MAX
    ensures GetDoubleFmt(Hex02(x), "U", "H") == Ok(x as real)
  {
    Hex02RoundTrip(x, LONG_MIN, LONG_MAX);
  }

  /** A raw value printed in decimal reads back through the decimal radix. */
  lemma GetDoubleFmtDecimal(x: int)
    requires LONG_MIN <= x <= LONG_MAX
    ensures GetDoubleFmt(IntToString(x), "U", "D") == Ok(x as real)
  {
    IntToStringRoundTrip(x, LONG_MIN, LONG_MAX);
  }

  /** `getUseCalibrated`: "E" selects the engineering value, "R" the raw one. */
  function GetUseCalibrated(ctx: Context, colName: string, v: string): (r: Result<bool, LoadError>)
    ensures r == Ok(true) <==> v == "E"
    ensures r == Ok(false) <==> v == "R"
    ensures r.Err? <==> v != "E" && v != "R"
  {
    if v == "E" then Ok(true)
    else if v == "R" then Ok(false)
    else Err(MibLoadError(Some(ctx), "Invalid value '" + v + "'for column " + colName + "; expected E or R"))
  }

  // ---------------------------------------------------------------------------
  // Natural types

  /** Value width of an integer type for an encoding of `bits` bits. */
  function IntValueBits(bits: int): int {
    if bits > 32 then 64 else 32
  }

  /** `getDataType`: the natural uncalibrated type for an encoding. */
  function GetDataType(enc: Option<DataEncoding>, name: string): (r: Result<DataType, LoadError>)
    ensures r.Ok? <==> enc.Some?
    ensures r.Ok? ==> r.value.name == Some(name) && r.value.encoding == enc
    ensures r.Ok? ==> (r.value.kind.IsNumeric() <==> enc.value.IsNumeric())
    ensures r.Ok? && enc.value.IntegerEncoding? ==>
      r.value.kind.IntegerKind?
      && (r.value.kind.signed == Some(true) <==> enc.value.coding != Some(Unsigned))
      && r.value.kind.valueBits.Some?
      && (enc.value.bits <= 64 ==> enc.value.bits <= r.value.kind.valueBits.value <= 64)
    ensures r.Ok? && enc.value.FloatEncoding? ==>
      r.value.kind.FloatKind?
      && r.value.kind.floatValueBits == Some(if enc.value.floatCoding == Ieee754 then enc.value.floatBits else 64)
    ensures r.Ok? && enc.value.BinaryEncoding? ==> r.value.kind == BinaryKind
    ensures r.Ok? && enc.value.StringEncoding? ==> r.value.kind == StringKind
  {
    match enc
    case None => Err(RuntimeError("name:" + name + " encoding: null"))
    case Some(e) =>
      var kind :=
        match e
        case IntegerEncoding(bits, coding) => IntegerKind(Some(coding != Some(Unsigned)), Some(IntValueBits(bits)))
        case FloatEncoding(bits, coding) => FloatKind(Some(if coding == Ieee754 then bits else 64))
        case BinaryEncoding(_, _, _, _) => BinaryKind
        case StringEncoding(_, _, _) => StringKind;
      Ok(NewType(kind, enc).Named(name))
  }

  /** The natural type of every numeric (PTC, PFC) the resolver accepts up to
      64 bits holds the encoded value: the value width is at least the
      encoded width. */
  lemma NaturalTypeHoldsEncoding(ptc: int, pfc: int, vplb: int)
    requires 1 <= ptc <= 6
    requires GetDataEncoding(None, ptc, pfc, vplb).Ok?
    requires ptc == 2 ==> pfc <= 64
    ensures var enc := GetDataEncoding(None, ptc, pfc, vplb).value;
      var t := GetDataType(enc, "t").value;
      && (t.kind.IntegerKind? ==> enc.value.bits <= t.kind.valueBits.value)
      && (t.kind.FloatKind? ==> enc.value.floatBits <= t.kind.floatValueBits.value)
  {
  }
}
