/** The mission database the loaders build: closed datatypes standing in for
    the host's XTCE object model (space system, parameter and argument types,
    sequence containers with their entries, meta-commands and verifiers). */
module Mdb {
  import opened Wrappers

  type Bytes = seq<bv8>

  // ---------------------------------------------------------------------------
  // Data encodings

  datatype IntCoding = Unsigned | TwosComplement

  datatype FloatCoding = Ieee754 | MilStd1750a

  /** Size discipline of a binary or string encoding. */
  datatype SizeKind = FixedSize | LeadingSize | CustomSize

  /** An algorithm input: the parameter read and the name the algorithm sees it under. */
  datatype InputParameter = InputParameter(param: string, inputName: string)

  /** A custom algorithm: name, language, algorithm text and inputs. */
  datatype Algorithm = Algorithm(name: string, language: string, text: string, inputs: seq<InputParameter>)

  /** `coding == None` leaves the host default in place (the PTC 1 encoding). */
  datatype DataEncoding =
    | IntegerEncoding(bits: int, coding: Option<IntCoding>)
    | FloatEncoding(floatBits: int, floatCoding: FloatCoding)
    | BinaryEncoding(binSize: SizeKind, binBits: Option<int>, binTagBits: Option<int>, decoder: Option<Algorithm>)
    | StringEncoding(strSize: SizeKind, strBits: Option<int>, strTagBits: Option<int>)
  {
    predicate IsNumeric() {
      IntegerEncoding? || FloatEncoding?
    }
  }

  // ---------------------------------------------------------------------------
  // Match criteria

  datatype Operator = Equality | LargerOrEqual | SmallerOrEqual

  /** The right-hand side of a comparison: the host keeps a string; values the
      loaders compute from doubles are kept as exact reals. */
  datatype CompValue = Text(text: string) | Number(number: real)

  /** A comparison of a parameter instance with a value; `useCalibrated` selects
      the engineering (true) or raw (false) value. */
  datatype Comparison = Comparison(param: string, useCalibrated: bool, op: Operator, value: CompValue)

  datatype MatchCriteria = Single(comparison: Comparison) | AllOf(comparisons: seq<Comparison>)

  // ---------------------------------------------------------------------------
  // Calibrations, enumerations, alarms

  datatype SplinePoint = SplinePoint(raw: real, eng: real)

  datatype Calibrator =
    | Polynomial(coefficients: seq<real>)
    | Spline(points: seq<SplinePoint>)
    /** `LogCalibration.calibrate(v, a0..a4)` wrapped as a Java expression. */
    | Logarithmic(logCoefficients: seq<real>)

  datatype ContextCalibrator = ContextCalibrator(context: Comparison, calibrator: Option<Calibrator>)

  datatype EnumValue = EnumValue(value: int, caption: string)

  /** An enumeration range, inclusive at both ends. */
  datatype EnumRange = EnumRange(min: real, max: real, caption: string)

  datatype AlarmLevel = Warning | Critical

  datatype EnumAlarm = EnumAlarm(context: Option<Comparison>, caption: Option<string>, level: AlarmLevel)

  /** `None` bounds are the host's NaN (an absent OCP limit). */
  datatype AlarmRange = AlarmRange(low: Option<real>, high: Option<real>, level: AlarmLevel)

  datatype NumericAlarm = NumericAlarm(context: Option<Comparison>, minViolations: int, ranges: seq<AlarmRange>)

  // ---------------------------------------------------------------------------
  // Parameter and argument types

  datatype Member = Member(name: string, bits: int)

  /** `None` in `signed`/`valueBits` leaves the host default. */
  datatype TypeKind =
    | BooleanKind
    | IntegerKind(signed: Option<bool>, valueBits: Option<int>)
    | FloatKind(floatValueBits: Option<int>)
    | EnumeratedKind(values: seq<EnumValue>, ranges: seq<EnumRange>, enumAlarms: seq<EnumAlarm>)
    | StringKind
    | BinaryKind
    | AbsoluteTimeKind(scaleOffset: real, scaleFactor: real)
    | AggregateKind(members: seq<Member>)
  {
    predicate IsNumeric() {
      IntegerKind? || FloatKind?
    }
  }

  /** A parameter or argument type. The default and context calibrators live
      on the numeric encoding in the host; they are kept here beside it. */
  datatype DataType = DataType(
    name: Option<string>,
    kind: TypeKind,
    encoding: Option<DataEncoding>,
    units: seq<string>,
    initialValue: Option<string>,
    calibrator: Option<Calibrator>,
    contextCalibrators: seq<ContextCalibrator>,
    numericAlarms: seq<NumericAlarm>)
  {
    function Named(n: string): (r: DataType)
      ensures r.name == Some(n) && r.kind == kind && r.encoding == encoding && r.calibrator == calibrator
    {
      this.(name := Some(n))
    }

    function WithUnit(u: Option<string>): (r: DataType)
      ensures r.kind == kind && r.encoding == encoding && r.name == name
      ensures u.Some? ==> r.units == units + [u.value]
      ensures u.None? ==> r == this
    {
      if u.Some? then this.(units := units + [u.value]) else this
    }
  }

  function NewType(kind: TypeKind, encoding: Option<DataEncoding>): (r: DataType)
    ensures r.kind == kind && r.encoding == encoding && r.name.None?
    ensures r.units == [] && r.initialValue.None? && r.calibrator.None?
  {
    DataType(None, kind, encoding, [], None, None, [], [])
  }

  // ---------------------------------------------------------------------------
  // Parameters and containers

  datatype Alias = Alias(namespace: string, alias: string)

  datatype Parameter = Parameter(name: string, description: Option<string>, ptype: DataType, aliases: seq<Alias>)

  datatype Location = ContainerStart | PreviousEntry

  datatype Repeat =
    | FixedRepeat(count: int, strideBits: int)
    /** Repeated as many times as the value of `counter` (no offset between repeats). */
    | DynamicRepeat(counter: Option<string>)

  datatype EntryKind =
    | ParamEntry(param: string)
    /** A parameter found by the value of `ref` in the alias `namespace`. */
    | IndirectEntry(ref: Option<string>, namespace: string)
    | ContainerRef(container: string)
    | FixedValueEntry(caption: Option<string>, bytes: Bytes, bits: int)
    | ArgumentEntry(argument: string)

  datatype Entry = Entry(kind: EntryKind, location: Location, offsetBits: int, repeat: Option<Repeat>)

  datatype Container = Container(
    name: string,
    base: Option<string>,
    restriction: Option<seq<Comparison>>,
    entries: seq<Entry>)

  // ---------------------------------------------------------------------------
  // Commands

  datatype Significance = NoSignificance | CriticalSignificance

  datatype Argument = Argument(name: string, description: Option<string>, atype: DataType)

  /** An argument assignment; `None` is a null value. */
  datatype Assignment = Assignment(argument: string, value: Option<string>)

  datatype CheckWindow = CheckWindow(startMillis: int, stopMillis: int)

  datatype VerifierKind = ContainerVerifier | AlgorithmVerifier

  datatype Verifier = Verifier(
    kind: VerifierKind,
    stage: string,
    window: CheckWindow,
    containerRef: Option<string>,
    algorithm: Option<string>)

  datatype MetaCommand = MetaCommand(
    name: string,
    isAbstract: bool,
    base: Option<string>,
    shortDescription: Option<string>,
    longDescription: Option<string>,
    significance: Option<Significance>,
    arguments: seq<Argument>,
    assignments: seq<Assignment>,
    container: Container,
    verifiers: seq<Verifier>,
    constraints: seq<MatchCriteria>)
  {
    /** `getArgument(name) != null`, on the command's own arguments. */
    predicate HasArgument(n: string) {
      exists i :: 0 <= i < |arguments| && arguments[i].name == n
    }
  }

  function NewCommand(name: string): (r: MetaCommand)
    ensures r.name == name && r.container.name == name
    ensures !r.isAbstract && r.arguments == [] && r.assignments == [] && r.container.entries == []
  {
    MetaCommand(name, false, None, None, None, None, [], [], Container(name, None, None, []), [], [])
  }

  // ---------------------------------------------------------------------------
  // The space system

  datatype SpaceSystem = SpaceSystem(
    name: string,
    version: string,
    description: Option<string>,
    parameterTypes: map<string, DataType>,
    parameters: map<string, Parameter>,
    parameterOrder: seq<string>,
    containers: map<string, Container>,
    containerOrder: seq<string>,
    commands: map<string, MetaCommand>,
    algorithms: map<string, Algorithm>)
  {
    /** Containers in the order they were added, as `getSequenceContainers()` lists them. */
    ghost predicate WellFormed() {
      (forall n :: n in containers <==> n in containerOrder)
      && (forall n :: n in containers ==> containers[n].name == n)
      && (forall n :: n in parameters <==> n in parameterOrder)
      && (forall n :: n in parameterTypes ==> parameterTypes[n].name == Some(n))
    }

    /** The telemetry side (types, parameters and containers) is the same
        in both systems; commands may differ. */
    predicate SameTelemetry(other: SpaceSystem) {
      && parameterTypes == other.parameterTypes
      && parameters == other.parameters && parameterOrder == other.parameterOrder
      && containers == other.containers && containerOrder == other.containerOrder
    }

    function AddParameterType(t: DataType, n: string): (r: SpaceSystem)
      requires WellFormed()
      ensures r.WellFormed()
      ensures r.parameterTypes == parameterTypes[n := t.Named(n)]
      ensures r.parameters == parameters && r.containers == containers && r.commands == commands
      ensures r.containerOrder == containerOrder && r.parameterOrder == parameterOrder
    {
      this.(parameterTypes := parameterTypes[n := t.Named(n)])
    }

    function AddParameter(p: Parameter): (r: SpaceSystem)
      requires WellFormed()
      ensures r.WellFormed()
      ensures r.parameters == parameters[p.name := p]
      ensures r.parameterTypes == parameterTypes && r.containers == containers && r.commands == commands
      ensures r.containerOrder == containerOrder
    {
      this.(parameters := parameters[p.name := p],
            parameterOrder := if p.name in parameters then parameterOrder else parameterOrder + [p.name])
    }

    /** Adds a new container, or replaces the one of that name keeping its place. */
    function PutContainer(c: Container): (r: SpaceSystem)
      requires WellFormed()
      ensures r.WellFormed()
      ensures r.containers == containers[c.name := c]
      ensures r.parameterTypes == parameterTypes && r.parameters == parameters && r.commands == commands
      ensures c.name in containers ==> r.containerOrder == containerOrder
    {
      this.(containers := containers[c.name := c],
            containerOrder := if c.name in containers then containerOrder else containerOrder + [c.name])
    }

    /** Appends entries to an existing container. */
    function AppendEntries(container: string, es: seq<Entry>): (r: SpaceSystem)
      requires WellFormed()
      requires container in containers
      ensures r.WellFormed()
      ensures container in r.containers
      ensures r.containers[container].entries == containers[container].entries + es
      ensures forall n :: n in containers && n != container ==> n in r.containers && r.containers[n] == containers[n]
      ensures r.containers.Keys == containers.Keys && r.containerOrder == containerOrder
      ensures r.parameters == parameters && r.parameterTypes == parameterTypes && r.commands == commands
    {
      var c := containers[container];
      this.(containers := containers[container := c.(entries := c.entries + es)])
    }

    function PutCommand(mc: MetaCommand): (r: SpaceSystem)
      ensures r.commands == commands[mc.name := mc]
      ensures r.parameters == parameters && r.parameterTypes == parameterTypes && r.containers == containers
      ensures r.containerOrder == containerOrder && r.parameterOrder == parameterOrder
    {
      this.(commands := commands[mc.name := mc])
    }

    /** Replaces the command held under `key`, leaving the rest alone. */
    function UpdateCommand(key: string, mc: MetaCommand): (r: SpaceSystem)
      requires key in commands
      ensures r.commands == commands[key := mc] && r.commands.Keys == commands.Keys
      ensures r.SameTelemetry(this) && r.algorithms == algorithms
      ensures r.name == name && r.version == version && r.description == description
    {
      this.(commands := commands[key := mc])
    }
  }

  function EmptySpaceSystem(name: string): (r: SpaceSystem)
    ensures r.WellFormed()
    ensures r.parameters == map[] && r.containers == map[] && r.commands == map[]
  {
    SpaceSystem(name, "", None, map[], map[], [], map[], [], map[], map[])
  }
}
