/** The type algebra of the OL (on-board language) expression translator:
    the value types of expressions, and the binary operations with the result
    type each admits for a pair of operand types. */
module OlOperation {
  import opened Wrappers
  import opened JavaInt

  /** `ol/Type`: the value type of a translated expression. */
  datatype OlType = Double | Long | Boolean | Str | Enum
  {
    function Ordinal(): (o: nat)
      ensures o < 5
    {
      match this
      case Double => 0
      case Long => 1
      case Boolean => 2
      case Str => 3
      case Enum => 4
    }

    /** `name()`, as `toString` prints it. */
    function Name(): string {
      match this
      case Double => "DOUBLE"
      case Long => "LONG"
      case Boolean => "BOOLEAN"
      case Str => "STRING"
      case Enum => "ENUM"
    }

    /** `javaType()`: the lower-cased name, used to declare locals. */
    function JavaType(): string {
      match this
      case Double => "double"
      case Long => "long"
      case Boolean => "boolean"
      case Str => "string"
      case Enum => "enum"
    }
  }

  /** A translated expression: its type and its Java text. */
  datatype ExpressionCode = ExpressionCode(otype: OlType, code: string)
  {
    function ToString(): string {
      "ExpressionCode [type=" + otype.Name() + ", code=" + code + "]"
    }
  }

  /** `key(t1, t2) = t1.ordinal() << 16 | t2.ordinal()`. */
  function Key(t1: OlType, t2: OlType): int {
    Or(Shl(t1.Ordinal(), 16), t2.Ordinal())
  }

  /** The packed key is `ordinal1 * 65536 + ordinal2`. */
  lemma KeyValue(t1: OlType, t2: OlType)
    ensures Key(t1, t2) == t1.Ordinal() * 65536 + t2.Ordinal()
  {
    Pow2Facts();
    var a := t1.Ordinal() * 65536;
    assert Shl(t1.Ordinal(), 16) == a;
    assert a % Pow2(16) == 0 by { MulModZero(65536, t1.Ordinal()); }
    OrDisjoint(a, t2.Ordinal(), 16);
  }

  /** Distinct type pairs never share a key, so the tables below can be
      keyed by the pair itself. */
  lemma KeyInjective(a1: OlType, a2: OlType, b1: OlType, b2: OlType)
    requires Key(a1, a2) == Key(b1, b2)
    ensures a1 == b1 && a2 == b2
  {
    KeyValue(a1, a2);
    KeyValue(b1, b2);
  }

  /** The three result-type tables. */
  datatype TypeTable = MathOp | ShiftOp | Comp

  /** The table entries as the static initialiser puts them, one orientation
      per pair. */
  function Entries(t: TypeTable): map<(OlType, OlType), OlType> {
    match t
    case MathOp => map[(Double, Double) := Double, (Double, Boolean) := Double,
                       (Double, Long) := Double, (Long, Long) := Long]
    case ShiftOp => map[(Long, Long) := Long]
    case Comp => map[(Double, Long) := Boolean, (Double, Double) := Boolean,
                     (Long, Long) := Boolean, (Boolean, Boolean) := Boolean]
  }

  /** How `getCode` is computed: from the table, with booleans first promoted
      to longs (the arithmetic operations), or always as `Math.pow`. */
  datatype OpKind = Plain | Arithmetic | Power

  datatype Operation = Operation(code: string, table: TypeTable, kind: OpKind)

  const PLUS: Operation := Operation("+", MathOp, Arithmetic)
  const MINUS: Operation := Operation("-", MathOp, Arithmetic)
  const STAR: Operation := Operation("*", MathOp, Arithmetic)
  const SLASH: Operation := Operation("/", MathOp, Arithmetic)
  const MODULUS: Operation := Operation("%", MathOp, Arithmetic)
  const SMALLER_THAN: Operation := Operation("<", Comp, Plain)
  const BIGGER_THAN: Operation := Operation(">", Comp, Plain)
  const SMALLER_THAN_EQ: Operation := Operation("<=", Comp, Plain)
  const BIGGER_THAN_EQ: Operation := Operation(">=", Comp, Plain)
  const EQUAL: Operation := Operation("==", Comp, Plain)
  const DIFFER: Operation := Operation("<>", Comp, Plain)
  const SHIFT_RIGHT: Operation := Operation(">>", ShiftOp, Plain)
  const SHIFT_LEFT: Operation := Operation("<<", ShiftOp, Plain)
  const BITW_AND: Operation := Operation("&", ShiftOp, Plain)
  const BITW_OR: Operation := Operation("|", ShiftOp, Plain)
  const BITW_NOT: Operation := Operation("~", ShiftOp, Plain)
  const BITW_XOR: Operation := Operation("^", ShiftOp, Plain)
  const LOGIC_AND: Operation := Operation("&&", Comp, Plain)
  const LOGIC_OR: Operation := Operation("||", Comp, Plain)
  const LOGIC_NOT: Operation := Operation("!", Comp, Plain)
  const POW: Operation := Operation("Math.pow", Comp, Power)

  /** `getTypeResult`: the entry for (t1, t2), else the one for (t2, t1). */
  function GetTypeResult(t: TypeTable, t1: OlType, t2: OlType): Option<OlType> {
    var m := Entries(t);
    if (t1, t2) in m then Some(m[(t1, t2)])
    else if (t2, t1) in m then Some(m[(t2, t1)])
    else None
  }

  predicate IsNumber(t: OlType) {
    t == Double || t == Long
  }

  /** The result types, stated per table without the table: arithmetic on
      numbers (and booleans) gives long only for two longs; comparison and
      logic need two numbers or two booleans; shifts and bitwise operations
      need two longs. The lookup is symmetric. */
  lemma GetTypeResultCharacterised(t: TypeTable, t1: OlType, t2: OlType)
    ensures GetTypeResult(t, t1, t2) == GetTypeResult(t, t2, t1)
    ensures t == MathOp ==>
      GetTypeResult(t, t1, t2) ==
        (if t1 == Long && t2 == Long then Some(Long)
         else if (t1 == Double && (IsNumber(t2) || t2 == Boolean)) || (t2 == Double && (IsNumber(t1) || t1 == Boolean)) then Some(Double)
         else None)
    ensures t == Comp ==>
      GetTypeResult(t, t1, t2) ==
        (if (IsNumber(t1) && IsNumber(t2)) || (t1 == Boolean && t2 == Boolean) then Some(Boolean) else None)
    ensures t == ShiftOp ==>
      GetTypeResult(t, t1, t2) == (if t1 == Long && t2 == Long then Some(Long) else None)
  {
  }

  /** `bool2int` applied to a boolean operand of an arithmetic operation. */
  function Promote(ec: ExpressionCode): (r: ExpressionCode)
    ensures r.otype != Boolean
    ensures ec.otype != Boolean ==> r == ec
  {
    if ec.otype == Boolean then ExpressionCode(Long, "OLFunction.bool2int(" + ec.code + ")") else ec
  }

  function Unsupported(op: Operation, ec1: ExpressionCode, ec2: ExpressionCode): string {
    "Unsupported operation " + op.code + " for expressions: " + ec1.ToString() + " and " + ec2.ToString()
  }

  /** `Operation.getCode`: the typed Java text of `ec1 op ec2`; a pair of
      types the operation does not admit is a parse error. */
  function GetCode(op: Operation, ec1: ExpressionCode, ec2: ExpressionCode): (r: Result<ExpressionCode, string>)
    ensures op.kind == Power ==>
      r == Ok(ExpressionCode(Double, "Math.pow(" + ec1.code + ", " + ec2.code + ")"))
    ensures op.kind == Arithmetic && op.table == MathOp ==>
      var p1 := Promote(ec1);
      var p2 := Promote(ec2);
      && (r.Ok? <==> (ec1.otype != Str && ec1.otype != Enum && ec2.otype != Str && ec2.otype != Enum))
      && (r.Ok? ==> r.value == ExpressionCode(if p1.otype == Long && p2.otype == Long then Long else Double,
                                                p1.code + " " + op.code + " " + p2.code))
    ensures op.kind == Plain && op.table == Comp ==>
      && (r.Ok? <==> (IsNumber(ec1.otype) && IsNumber(ec2.otype)) || (ec1.otype == Boolean && ec2.otype == Boolean))
      && (r.Ok? ==> r.value == ExpressionCode(Boolean, ec1.code + " " + op.code + " " + ec2.code))
    ensures op.kind == Plain && op.table == ShiftOp ==>
      && (r.Ok? <==> ec1.otype == Long && ec2.otype == Long)
      && (r.Ok? ==> r.value == ExpressionCode(Long, ec1.code + " " + op.code + " " + ec2.code))
    ensures op.kind != Power && r.Err? ==> r.error == Unsupported(op, ec1, ec2)
  {
    match op.kind
    case Power => Ok(ExpressionCode(Double, "Math.pow(" + ec1.code + ", " + ec2.code + ")"))
    case Arithmetic =>
      var p1 := Promote(ec1);
      var p2 := Promote(ec2);
      GetTypeResultCharacterised(op.table, p1.otype, p2.otype);
      var rt := GetTypeResult(op.table, p1.otype, p2.otype);
      if rt.None? then Err(Unsupported(op, ec1, ec2))
      else Ok(ExpressionCode(rt.value, p1.code + " " + op.code + " " + p2.code))
    case Plain =>
      GetTypeResultCharacterised(op.table, ec1.otype, ec2.otype);
      var rt := GetTypeResult(op.table, ec1.otype, ec2.otype);
      if rt.None? then Err(Unsupported(op, ec1, ec2))
      else Ok(ExpressionCode(rt.value, ec1.code + " " + op.code + " " + ec2.code))
  }

  /** `ExpressionCode.getCode`: a missing right operand leaves the left one. */
  function Combine(ec1: ExpressionCode, ec2: Option<ExpressionCode>, op: Operation): (r: Result<ExpressionCode, string>)
    ensures ec2.None? ==> r == Ok(ec1)
    ensures ec2.Some? ==> r == GetCode(op, ec1, ec2.value)
  {
    match ec2
    case None => Ok(ec1)
    case Some(e) => GetCode(op, ec1, e)
  }

  /** Swapping the operands of a table operation does not change whether it
      type-checks nor its result type. */
  lemma GetCodeTypeSymmetric(op: Operation, ec1: ExpressionCode, ec2: ExpressionCode)
    requires op.kind != Power
    requires op.kind == Arithmetic <==> op.table == MathOp
    ensures GetCode(op, ec1, ec2).Ok? <==> GetCode(op, ec2, ec1).Ok?
    ensures GetCode(op, ec1, ec2).Ok? ==> GetCode(op, ec1, ec2).value.otype == GetCode(op, ec2, ec1).value.otype
  {
  }
}
