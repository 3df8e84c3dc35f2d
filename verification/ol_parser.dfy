/** The typing half of the OL formula translator: local variables, the
    identifiers a formula reads (locals, globals and parameter references),
    the list of input parameters, the input bindings of the generated class
    and the coercion of the result to the output parameter's encoding. The
    grammar itself is outside the model. */
module OlParser {
  import opened Wrappers
  import opened Text
  import opened Mdb
  import opened Collections
  import opened OlOperation

  datatype OlError =
    | ParseException(msg: string)
    | NullPointer
    | ClassCast
    | IndexOutOfBounds

  /** What the translator accumulates while parsing one formula. */
  datatype ParserState = ParserState(
    locals: map<string, OlType>,
    inputParams: seq<string>,
    noTrigger: set<string>)

  const EMPTY_STATE: ParserState := ParserState(map[], [], {})

  /** Host services the translator calls: the name of the engineering value
      type of a parameter type, the name of the raw value type of an encoding
      (`ParameterTypeUtils.getEngType`, `DataEncodingDecoder.getRawType`) and
      a parameter type's `toString`. */
  datatype Host = Host(
    engTypeName: DataType -> string,
    rawTypeName: Option<DataEncoding> -> string,
    typeText: DataType -> string)

  // ---------------------------------------------------------------------------
  // Local variables

  /** `addVariable`: the first assignment fixes the type; a long variable
      assigned a double becomes double; a boolean variable cannot change
      type; any other change keeps the type it had. */
  function AddVariable(st: ParserState, name: string, t: OlType): (r: Result<ParserState, OlError>)
    ensures name !in st.locals ==> r == Ok(st.(locals := st.locals[name := t]))
    ensures name in st.locals && st.locals[name] == Boolean && t != Boolean ==>
      r == Err(ParseException("Cannot convert " + t.Name() + " too boolean"))
    ensures name in st.locals && st.locals[name] == Long && t == Double ==>
      r == Ok(st.(locals := st.locals[name := Double]))
    ensures name in st.locals && st.locals[name] != Boolean && !(st.locals[name] == Long && t == Double) ==>
      r == Ok(st)
  {
    if name !in st.locals then Ok(st.(locals := st.locals[name := t]))
    else
      var prev := st.locals[name];
      if prev == t then Ok(st)
      else if prev == Boolean then Err(ParseException("Cannot convert " + t.Name() + " too boolean"))
      else if prev == Long && t == Double then Ok(st.(locals := st.locals[name := Double]))
      else Ok(st)
  }

  /** A declared variable only ever widens: once double it stays double, a
      boolean stays boolean, and the other variables and the inputs are left
      alone. */
  lemma AddVariableWidens(st: ParserState, name: string, t: OlType, other: string)
    requires AddVariable(st, name, t).Ok?
    ensures var r := AddVariable(st, name, t).value;
      && name in r.locals
      && (name in st.locals && st.locals[name] in {Double, Boolean} ==> r.locals[name] == st.locals[name])
      && (name in st.locals ==> r.locals[name] == st.locals[name] || r.locals[name] == Double)
      && (other != name ==> (other in r.locals <==> other in st.locals))
      && (other != name && other in st.locals ==> r.locals[other] == st.locals[other])
      && r.inputParams == st.inputParams && r.noTrigger == st.noTrigger
  {
  }

  /** Declaring the same variable with the same type twice is declaring it once. */
  lemma AddVariableIdempotent(st: ParserState, name: string, t: OlType)
    requires AddVariable(st, name, t).Ok?
    ensures AddVariable(AddVariable(st, name, t).value, name, t) == AddVariable(st, name, t)
  {
  }

  // ---------------------------------------------------------------------------
  // Input parameters

  /** `addInputParam`: a name is listed once, where it first occurred. */
  function AddInputParam(st: ParserState, name: string): (r: ParserState)
    ensures r.locals == st.locals && r.noTrigger == st.noTrigger
    ensures name in st.inputParams ==> r.inputParams == st.inputParams
    ensures name !in st.inputParams ==> r.inputParams == st.inputParams + [name]
  {
    if name in st.inputParams then st else st.(inputParams := st.inputParams + [name])
  }

  /** Every name of a list added in turn. */
  function AddInputParams(st: ParserState, names: seq<string>): (r: ParserState)
    decreases |names|
  {
    if |names| == 0 then st else AddInputParams(AddInputParam(st, names[0]), names[1..])
  }

  lemma {:induction false} AddInputParamsSnoc(st: ParserState, names: seq<string>, x: string)
    ensures AddInputParams(st, names + [x]) == AddInputParam(AddInputParams(st, names), x)
    decreases |names|
  {
    if |names| > 0 {
      assert (names + [x])[1..] == names[1..] + [x];
      AddInputParamsSnoc(AddInputParam(st, names[0]), names[1..], x);
    }
  }

  /** Adding names one by one leaves the inputs as the reference computes
      them over the old inputs followed by the new names: each name once,
      in the order of its first occurrence. */
  lemma {:induction false} AddInputParamsIsDedup(st: ParserState, names: seq<string>)
    requires NoDuplicates(st.inputParams)
    ensures AddInputParams(st, names).inputParams == Dedup(st.inputParams + names)
    ensures AddInputParams(st, names).locals == st.locals
    ensures AddInputParams(st, names).noTrigger == st.noTrigger
    decreases |names|
  {
    if |names| == 0 {
      assert st.inputParams + names == st.inputParams;
      DedupOfDistinct(st.inputParams);
    } else {
      var init := names[..|names| - 1];
      var x := names[|names| - 1];
      assert names == init + [x];
      AddInputParamsSnoc(st, init, x);
      AddInputParamsIsDedup(st, init);
      var all := st.inputParams + names;
      assert all[..|all| - 1] == st.inputParams + init;
    }
  }

  // ---------------------------------------------------------------------------
  // Identifiers

  predicate IsLocalVar(id: string) {
    StartsWith(id, "VAR")
  }

  predicate IsGlobalVar(id: string) {
    StartsWith(id, "GVAR")
  }

  /** A parameter reference `name[.property]`, split at the first dot when
      it is not the first character; the property defaults to `eng`. */
  function SplitReference(id: string): (r: (string, string))
    ensures IndexOf(id, '.') > 0 ==> id == r.0 + "." + r.1 && '.' !in r.0
    ensures IndexOf(id, '.') <= 0 ==> r == (id, "eng")
  {
    var idx := IndexOf(id, '.');
    if idx > 0 then
      assert id == id[..idx] + "." + id[idx + 1..];
      (id[..idx], id[idx + 1..])
    else (id, "eng")
  }

  /** `t.substring(0, 1) + t.substring(1).toLowerCase()`. */
  function Capitalize(t: string): Result<string, OlError> {
    if |t| == 0 then Err(IndexOutOfBounds) else Ok(t[..1] + ToLower(t[1..]))
  }

  function Unsupported(host: Host, ptype: DataType): OlError {
    ParseException("Unsupported parameter of type " + host.typeText(ptype))
  }

  /** The expression for a property of a known parameter. */
  function PropertyCode(host: Host, name: string, prop: string, ptype: DataType): (r: Result<ExpressionCode, OlError>)
    ensures prop == "eng" && r.Ok? ==>
      (r.value.otype == Long <==> ptype.kind.IntegerKind?)
      && (r.value.otype == Double <==> ptype.kind.FloatKind?)
      && (r.value.otype == Boolean <==> ptype.kind.BooleanKind?)
    ensures prop == "eng" && r.Err? && |host.engTypeName(ptype)| > 0 ==>
      r == Err(Unsupported(host, ptype))
      && !ptype.kind.IntegerKind? && !ptype.kind.FloatKind? && !ptype.kind.BooleanKind?
    ensures prop == "raw" && ptype.kind.AggregateKind? ==> r == Err(ClassCast)
    ensures prop == "raw" && r.Ok? ==>
      ptype.encoding.Some? && !ptype.kind.AggregateKind?
      && (r.value.otype == Long <==> ptype.encoding.value.IntegerEncoding?)
      && (r.value.otype == Double <==> ptype.encoding.value.FloatEncoding?)
    ensures prop == "raw" && r.Err? && !ptype.kind.AggregateKind? && |host.rawTypeName(ptype.encoding)| > 0 ==>
      r == Err(Unsupported(host, ptype)) && !(ptype.encoding.Some? && ptype.encoding.value.IsNumeric())
    ensures prop == "time" ==> r == Ok(ExpressionCode(Double, "OLFunction.getObTime(" + name + ")"))
    ensures prop !in {"eng", "raw", "time"} ==>
      r == Err(ParseException("Unknown property '" + prop + "' for parameter '" + name + "'"))
  {
    if prop == "eng" then
      var t :- Capitalize(host.engTypeName(ptype));
      var v := name + ".getEngValue().get" + t + "Value()";
      if ptype.kind.IntegerKind? then Ok(ExpressionCode(Long, v))
      else if ptype.kind.FloatKind? then Ok(ExpressionCode(Double, v))
      else if ptype.kind.BooleanKind? then Ok(ExpressionCode(Boolean, v))
      else Err(Unsupported(host, ptype))
    else if prop == "raw" then
      if ptype.kind.AggregateKind? then Err(ClassCast)
      else
        var enc := ptype.encoding;
        var t :- Capitalize(host.rawTypeName(enc));
        var v := name + ".getRawValue().get" + t + "Value()";
        if enc.Some? && enc.value.IntegerEncoding? then Ok(ExpressionCode(Long, v))
        else if enc.Some? && enc.value.FloatEncoding? then Ok(ExpressionCode(Double, v))
        else Err(Unsupported(host, ptype))
    else if prop == "time" then Ok(ExpressionCode(Double, "OLFunction.getObTime(" + name + ")"))
    else Err(ParseException("Unknown property '" + prop + "' for parameter '" + name + "'"))
  }

  /** `getIdentifierCode`: a `VAR` local must already be declared; a `GVAR`
      global is a double read from the shared variables; anything else is a
      parameter reference, recorded as an input (and, with a leading `$`, as
      not triggering the formula). An unknown parameter is an error. */
  function GetIdentifierCode(host: Host, types: map<string, DataType>, st: ParserState, id: string): (r: Result<(ParserState, ExpressionCode), OlError>)
    ensures IsLocalVar(id) ==>
      (r.Ok? <==> id in st.locals) && (r.Ok? ==> r.value == (st, ExpressionCode(st.locals[id], id)))
    ensures IsLocalVar(id) && r.Err? ==> r.error == ParseException("Uninitialized local variable '" + id + "'")
    ensures !IsLocalVar(id) && IsGlobalVar(id) ==>
      r == Ok((st, ExpressionCode(Double, "globalVariables.get(\"" + id + "\")")))
    ensures !IsLocalVar(id) && !IsGlobalVar(id) ==>
      var (n, prop) := SplitReference(id);
      var name := if StartsWith(n, "$") then n[1..] else n;
      && (name !in types ==> r == Err(ParseException("Unknonw parameter '" + name + "'")))
      && (r.Ok? ==>
            && name in types
            && r.value.0.inputParams == AddInputParam(st, name).inputParams
            && r.value.0.noTrigger == (if StartsWith(n, "$") then st.noTrigger + {name} else st.noTrigger)
            && r.value.0.locals == st.locals
            && Ok(r.value.1) == PropertyCode(host, name, prop, types[name]))
  {
    if IsLocalVar(id) then
      if id !in st.locals then Err(ParseException("Uninitialized local variable '" + id + "'"))
      else Ok((st, ExpressionCode(st.locals[id], id)))
    else if IsGlobalVar(id) then
      Ok((st, ExpressionCode(Double, "globalVariables.get(\"" + id + "\")")))
    else
      var (n, prop) := SplitReference(id);
      var noTrigger := StartsWith(n, "$");
      var name := if noTrigger then n[1..] else n;
      var st1 := if noTrigger then st.(noTrigger := st.noTrigger + {name}) else st;
      if name !in types then Err(ParseException("Unknonw parameter '" + name + "'"))
      else
        var st2 := AddInputParam(st1, name);
        var ec :- PropertyCode(host, name, prop, types[name]);
        Ok((st2, ec))
  }

  /** `getSynthExpression`: every listed parameter becomes an input, and the
      expression is a boolean call of `OLFunction.synth` on all of them. */
  function GetSynthExpression(st: ParserState, paraList: seq<string>): (r: (ParserState, ExpressionCode))
    ensures r.0 == AddInputParams(st, paraList)
    ensures r.1.otype == Boolean
    ensures r.1.code == "OLFunction.synth( new ParameterValue[] {" + JoinWith(paraList, ", ") + "})"
  {
    (AddInputParams(st, paraList),
     ExpressionCode(Boolean, "OLFunction.synth( new ParameterValue[] {" + JoinWith(paraList, ", ") + "})"))
  }

  /** The names separated by `sep`, none before the first. */
  function JoinWith(names: seq<string>, sep: string): string {
    if |names| == 0 then ""
    else if |names| == 1 then names[0]
    else names[0] + sep + JoinWith(names[1..], sep)
  }

  /** After a synthetic expression every listed parameter is an input, and
      nothing else was added. */
  lemma SynthInputs(st: ParserState, paraList: seq<string>)
    requires NoDuplicates(st.inputParams)
    ensures var r := GetSynthExpression(st, paraList).0;
      && NoDuplicates(r.inputParams)
      && (forall x :: x in r.inputParams <==> x in st.inputParams || x in paraList)
      && |r.inputParams| >= |st.inputParams| && r.inputParams[..|st.inputParams|] == st.inputParams
  {
    AddInputParamsIsDedup(st, paraList);
    DedupDistinct(st.inputParams + paraList);
    DedupPrefix(st.inputParams, paraList);
  }

  // ---------------------------------------------------------------------------
  // Generated class

  /** One input binding of `evaluate`: the i-th input is `inputList.get(i)`. */
  datatype Binding = Binding(param: string, index: nat)
  {
    function Text(): string {
      "        ParameterValue " + param + " = (ParameterValue) inputList.get(" + IntToString(index) + ");\n"
    }
  }

  function InputBindings(inputs: seq<string>): (r: seq<Binding>)
    ensures |r| == |inputs|
    ensures forall i :: 0 <= i < |r| ==> r[i] == Binding(inputs[i], i)
  {
    seq(|inputs|, i requires 0 <= i < |inputs| => Binding(inputs[i], i))
  }

  /** With inputs free of duplicates every input is bound exactly once, to
      the list element at its own position. */
  lemma BindingsUnique(inputs: seq<string>, i: int, j: int)
    requires NoDuplicates(inputs)
    requires 0 <= i < |inputs| && 0 <= j < |inputs|
    requires InputBindings(inputs)[i].param == InputBindings(inputs)[j].param
    ensures i == j && InputBindings(inputs)[i].index == i
  {
  }

  /** `getReturnCode`: a boolean result stored into a numeric encoding goes
      through `bool2int`, a double into an integer encoding is cast to long,
      and anything else is returned as it is. An unknown output parameter or
      an aggregate type fails as the host's casts do. */
  function GetReturnCode(types: map<string, DataType>, name: string, ec: ExpressionCode): (r: Result<string, OlError>)
    ensures name !in types ==> r == Err(NullPointer)
    ensures name in types && types[name].kind.AggregateKind? ==> r == Err(ClassCast)
    ensures r.Ok? ==>
      var enc := types[name].encoding;
      && (enc.Some? && enc.value.IsNumeric() && ec.otype == Boolean ==> r.value == "OLFunction.bool2int(" + ec.code + ")")
      && (enc.Some? && enc.value.IntegerEncoding? && ec.otype == Double ==> r.value == "(long) (" + ec.code + ")")
      && (!(enc.Some? && enc.value.IsNumeric() && ec.otype in {Boolean, Double}) ==> r.value == ec.code)
      && (enc.Some? && enc.value.FloatEncoding? && ec.otype == Double ==> r.value == ec.code)
  {
    if name !in types then Err(NullPointer)
    else
      var otype := types[name];
      if otype.kind.AggregateKind? then Err(ClassCast)
      else
        var enc := otype.encoding;
        if enc.Some? && enc.value.IsNumeric() && ec.otype == Boolean then Ok("OLFunction.bool2int(" + ec.code + ")")
        else if enc.Some? && enc.value.IntegerEncoding? && ec.otype == Double then Ok("(long) (" + ec.code + ")")
        else Ok(ec.code)
  }
}
