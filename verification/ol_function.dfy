/** The runtime helpers OL formulas are translated to: the function-name
    table and the boolean conversions. */
module OlFunction {
  import opened Wrappers

  /** The static table of one-argument functions. */
  const JAVA_FUNCTION: map<string, string> := map[
    "sin" := "Math.sin",
    "arcsin" := "Math.asin",
    "cos" := "Math.cos",
    "arccos" := "Math.acos",
    "tan" := "Math.tan",
    "arctan" := "Math.atan",
    "cotan" := "org.yamcs.scos2k.ol.cotan",
    "arccotan" := "org.yamcs.scos2k.ol.cotan"]

  /** `getJavaFunctionName`: `arctan` of two arguments is `Math.atan2`;
      every other call goes through the table, `None` (null) when absent. */
  function GetJavaFunctionName(olName: string, argCount: int): (r: Option<string>)
    ensures argCount == 2 && olName == "arctan" ==> r == Some("Math.atan2")
    ensures !(argCount == 2 && olName == "arctan") ==>
      (r.Some? <==> olName in {"sin", "arcsin", "cos", "arccos", "tan", "arctan", "cotan", "arccotan"})
    ensures r.Some? && olName != "arctan" ==> r.value == JAVA_FUNCTION[olName]
  {
    if argCount == 2 && olName == "arctan" then Some("Math.atan2")
    else if olName in JAVA_FUNCTION then Some(JAVA_FUNCTION[olName])
    else None
  }

  /** As written, `arccotan` is translated to the same target as `cotan`,
      not to the `arccotan` helper, whatever the argument count. */
  lemma ArccotanAsCotan(argCount: int)
    ensures GetJavaFunctionName("arccotan", argCount) == GetJavaFunctionName("cotan", argCount)
    ensures GetJavaFunctionName("arccotan", argCount) == Some("org.yamcs.scos2k.ol.cotan")
  {
  }

  /** `bool2int`. */
  function Bool2Int(v: bool): (r: int)
    ensures r == 0 || r == 1
    ensures (r == 1) <==> v
  {
    if v then 1 else 0
  }

  /** `synth`: the synthetic-parameter placeholder is always false, whatever
      its inputs. */
  function Synth<T>(pv: seq<T>): (r: bool)
    ensures !r
  {
    false
  }
}

/** The OL global variables shared by every formula of one processor: a map
    from name to double where an unset name reads as 0. */
module GlobalVariables {
  type Globals = map<string, real>

  function Set(g: Globals, name: string, value: real): (r: Globals)
    ensures name in r && r[name] == value
    ensures forall n :: n != name ==> (n in r <==> n in g)
  {
    g[name := value]
  }

  function Get(g: Globals, name: string): (r: real)
    ensures name !in g ==> r == 0.0
    ensures name in g ==> r == g[name]
  {
    if name in g then g[name] else 0.0
  }

  /** A name read after being set gives the value set; setting one name
      leaves every other name's value alone; of two sets of one name the
      last wins. */
  lemma SetGet(g: Globals, name: string, value: real, other: string, v2: real)
    ensures Get(Set(g, name, value), name) == value
    ensures other != name ==> Get(Set(g, name, value), other) == Get(g, other)
    ensures Set(Set(g, name, v2), name, value) == Set(g, name, value)
  {
  }
}
