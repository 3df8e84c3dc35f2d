# SCOS-2000 MIB loader, modelled in Dafny

This project models the core of the yamcs SCOS-2000 plugin. The plugin reads an
ESA SCOS-2000 Mission Information Base (MIB), a directory of tab-separated `.dat`
tables, and builds a Yamcs mission database from it:

- telemetry parameters with their calibrations (numerical, polynomial,
  logarithmic, textual, spline, context-dependent) and their monitoring
  checks (OCF/OCP limits);
- telemetry packets with their entries, fixed and variable (VPD) packets,
  and the packet identification fields (PIC/PID);
- telecommand headers (TCP/PCPC/PCDF), commands (CCF/CDF/CPC) with their
  argument types and calibrations, pre-transmission validation (PTV) and
  command verification stages (CVS/CVE/CVP, plus the PUS verifier);
- OL expressions, the MIB's language for synthetic parameters and
  context conditions, including the operation tables that decide result
  types;
- the display loader that turns the DPF/DPC tables into stored
  parameter lists.

Each loader method becomes a pure function. It takes the rows of its tables,
as `seq<seq<string>>` with line numbers, plus whatever earlier stages built.
It returns a `Result`: either the loader's output or the `MibLoadException`
that aborts the load. XTCE host objects (space systems, parameter and argument
types, containers, meta-commands, algorithms) are replaced by the datatypes of
module `Mdb`. Java `int` arithmetic, including the sign bit of shifted keys and
the wrap-around of `int` products such as encoding sizes and entry offsets, is
written out in `JavaInt`. Java's `HashMap` iteration order is replaced by
first-appearance order. Every member that states a property of the loader is
listed below with the lines it models.

Errors take two paths in the code. The `error()` call sites accumulate
messages, and `strict` is false by default
(src/main/java/org/yamcs/scos2k/MibConfig.java:10). A thrown
`MibLoadException` ends the whole load, because no per-row handler catches it.
The model propagates such an exception as the `Err` of the whole load, and
keeps the `error()` reports as a list of messages in the loader state.

The load follows the code as written, including three places where the code
evidently does not do what it intends (see "## Findings"): the APID decode
keeps the sign bit, the PUS verifier names `sentApid` twice, and the second
packet discriminator is guarded by the first one's width. `TmPackets.Level1`,
`TmPackets.Group` and `TcVerification.CreatePusVerifier` use those as-written
definitions. The corrected definitions (`MonitoringData.DecodeKey`,
`TcVerification.PusAlgorithm`, `TmPackets.Pi2Step`) are stated and proved
beside them; nothing on the load path calls them.

## Model

| member | source | states |
|---|---|---|
| Collections.GroupByLists | src/main/java/org/yamcs/scos2k/TcMibLoader.java:676-677 | grouping rows with computeIfAbsent and add gives a list for exactly the keys that occur, holding that key's values in row order |
| Collections.GroupByOrder | src/main/java/org/yamcs/scos2k/TcMibLoader.java:676-677 | the groups' key order lists every grouped key once |
| Collections.ToMapLast | src/main/java/org/yamcs/scos2k/TcMibLoader.java:626 | a map filled with put holds exactly the keys that occur, each with the value of its last row |
| Collections.SortBySorted | src/main/java/org/yamcs/scos2k/TmMibLoader.java:962-964 | sorting by position yields a list ordered by position |
| Collections.SortByStable | src/main/java/org/yamcs/scos2k/TmMibLoader.java:962-964 | the sort is stable: the records of each position keep their relative order |
| Collections.DedupDistinct | src/main/java/org/yamcs/scos2k/ol/BaseOLParser.java:232-236 | the deduplicated list holds each element of the input once |
| Text.JavaSplitJoin | src/main/java/org/yamcs/scos2k/BaseMibLoader.java:194 | splitting a line on a separator and joining the fields back gives the line up to trailing separators only |
| Text.IntToStringRoundTrip | src/main/java/org/yamcs/scos2k/BaseMibLoader.java:102 | a printed int in range parses back to itself |
| Text.Hex02RoundTrip | src/main/java/org/yamcs/scos2k/BaseMibLoader.java:259 | a value printed in hexadecimal parses back in radix 16 |
| JavaInt.Wrap32 | src/main/java/org/yamcs/scos2k/MonitoringData.java:324-326 | a Java int result: congruent to the exact value modulo 2^32 and equal to it when it already fits |
| BaseMibLoader.ReadTable | src/main/java/org/yamcs/scos2k/BaseMibLoader.java:183-213 | a table read from `<path>/<name>.dat` drops exactly the first physical line when it starts with `#`, and each kept line carries its physical line number |
| BaseMibLoader.ReadTableFaithful | src/main/java/org/yamcs/scos2k/BaseMibLoader.java:183-198 | splitting on tabs loses nothing but trailing tabs: the columns joined with tabs are a prefix of the physical line followed only by tabs |
| BaseMibLoader.ParseRows | src/main/java/org/yamcs/scos2k/BaseMibLoader.java:183-198 | the row loop succeeds iff every row does, keeps one result per row in order, and otherwise fails with the error of the first failing row |
| BaseMibLoader.CheckMandatory | src/main/java/org/yamcs/scos2k/BaseMibLoader.java:175-181 | passes iff every listed column is within the row (an empty column passes); otherwise reports "Missing column" for the first listed column that is out of range |
| BaseMibLoader.GetInt | src/main/java/org/yamcs/scos2k/BaseMibLoader.java:98-107 | succeeds iff the column exists and parses as a Java int; a short row is a missing-column error and a bad number a parse error naming the text |
| BaseMibLoader.GetIntOr | src/main/java/org/yamcs/scos2k/BaseMibLoader.java:109-115 | the default exactly when the column is absent or empty, otherwise the mandatory read |
| BaseMibLoader.GetString | src/main/java/org/yamcs/scos2k/BaseMibLoader.java:117-127 | the column verbatim when present and non-empty, otherwise the default |
| BaseMibLoader.GetOptString | src/main/java/org/yamcs/scos2k/BaseMibLoader.java:117-127 | with a null default: present exactly when the column is, holding its text |
| BaseMibLoader.GetLong | src/main/java/org/yamcs/scos2k/BaseMibLoader.java:129-137 | a Java long parse of the column; a short row raises an index error since there is no mandatory check |
| BaseMibLoader.GetLongOr | src/main/java/org/yamcs/scos2k/BaseMibLoader.java:139-145 | the default exactly when the column is absent or empty, otherwise the long read |
| BaseMibLoader.GetUnsignedLong | src/main/java/org/yamcs/scos2k/BaseMibLoader.java:147-155 | succeeds iff the column parses as an unsigned decimal long, giving its 64-bit pattern as a signed long |
| BaseMibLoader.GetDouble | src/main/java/org/yamcs/scos2k/BaseMibLoader.java:157-165 | succeeds iff the column parses as a decimal number, giving that number |
| BaseMibLoader.GetDoubleOr | src/main/java/org/yamcs/scos2k/BaseMibLoader.java:167-173 | the default exactly when the column is absent or empty, otherwise the decimal read |
| BaseMibLoader.GetIntRoundTrip | src/main/java/org/yamcs/scos2k/BaseMibLoader.java:98-115 | a column holding a printed Java int reads back as that int, with or without a default |
| BaseMibLoader.RadixOf | src/main/java/org/yamcs/scos2k/BaseMibLoader.java:253-258 | the radix letter selects 16 for "H", 8 for "O" and 10 for anything else |
| BaseMibLoader.GetDoubleFmt | src/main/java/org/yamcs/scos2k/BaseMibLoader.java:251-263 | format "U" reads a long in the radix of the radix letter, any other format a decimal number; a malformed value is a NumberFormatException naming it |
| BaseMibLoader.GetDoubleFmtHex | src/main/java/org/yamcs/scos2k/BaseMibLoader.java:251-263 | a value printed as two hexadecimal digits reads back through format "U" radix "H" |
| BaseMibLoader.GetDoubleFmtDecimal | src/main/java/org/yamcs/scos2k/BaseMibLoader.java:251-263 | a printed long reads back through format "U" with a decimal radix |
| BaseMibLoader.GetUseCalibrated | src/main/java/org/yamcs/scos2k/BaseMibLoader.java:265-273 | "E" gives true, "R" gives false, and every other value is an error |
| BaseMibLoader.GetDataType | src/main/java/org/yamcs/scos2k/BaseMibLoader.java:216-249 | an integer encoding gives an integer type, signed iff the encoding is not unsigned, with a 32- or 64-bit value wide enough for the encoding; IEEE floats keep their width and MIL-STD becomes 64; binary and string encodings give binary and string types |
| BaseMibLoader.NaturalTypeHoldsEncoding | src/main/java/org/yamcs/scos2k/BaseMibLoader.java:216-249 | for every numeric (PTC, PFC) the resolver accepts, the natural type's value width is at least the encoded width |
| MibLoaderBits.LoadError.ToString | src/main/java/org/yamcs/scos2k/MibLoaderBits.java:63-84 | a load exception with a context prints as the file name and a colon, ending with the message; without a context (or a runtime exception) it is the bare message |
| MibLoaderBits.ToStringLineNumber | src/main/java/org/yamcs/scos2k/MibLoaderBits.java:77-80 | the line number is printed: the same file and message on two different lines print differently |
| MibLoaderBits.GetDataEncoding | src/main/java/org/yamcs/scos2k/MibLoaderBits.java:115-236 | accepts exactly the known (PTC, PFC) pairs (PTC 2 with any PFC, since its guard is always true); no encoding iff PTC 11 or 12; the encoding kind follows the PTC; boolean, unsigned, PTC 3/4 widths, float widths and codings, fixed and leading-size binary and string sizes (PFC and VPLB bytes in bits, wrapped as Java `int` products) and the CUC/CDS time widths are the table's; a negative size-tag length is its own error |
| MibLoaderBits.FixedSizeWraps | src/main/java/org/yamcs/scos2k/MibLoaderBits.java:184-186 | a fixed PTC 7/8 size is 8 * PFC while that fits a Java `int`, and PFC 2^28 wraps to -2^31 as the `int` product does |
| MibLoaderBits.Ptc34WidthMonotone | src/main/java/org/yamcs/scos2k/MibLoaderBits.java:124-147 | the PTC 3/4 integer width grows with the PFC and is whole bytes from PFC 13 on |
| MibLoaderBits.TimeEncodingWidth | src/main/java/org/yamcs/scos2k/MibLoaderBits.java:201-230 | a time encoding has the undefined width -1 exactly for PTC 9 PFC 0 |
| MibLoaderBits.Ptc12Members | src/main/java/org/yamcs/scos2k/MibLoaderBits.java:851-875 | an embedded packet has the six CCSDS primary header members, then seven TM (PFC 0) or five TC data field header members, each 1 to 64 bits wide |
| MibLoaderBits.CcsdsBits | src/main/java/org/yamcs/scos2k/MibLoaderBits.java:854-859 | the CCSDS primary header members add up to 48 bits |
| MibLoaderBits.TmBits | src/main/java/org/yamcs/scos2k/MibLoaderBits.java:860-867 | the TM data field header members add up to 120 bits |
| MibLoaderBits.TcBits | src/main/java/org/yamcs/scos2k/MibLoaderBits.java:868-874 | the TC data field header members add up to 40 bits |
| MibLoaderBits.Ptc12HeaderBytes | src/main/java/org/yamcs/scos2k/MibLoaderBits.java:851-875 | an embedded TM packet header is 21 bytes and a TC one 11 |
| MibLoaderBits.ContainerName | src/main/java/org/yamcs/scos2k/MibLoaderBits.java:803-805 | every PUS container name starts with `pus_` |
| MibLoaderBits.ContainerNameParts | src/main/java/org/yamcs/scos2k/MibLoaderBits.java:803-805 | the name is `pus_`, the decimal APID, `_` and the type and subtype as two hex digits each |
| MibLoaderBits.ContainerNameInjective | src/main/java/org/yamcs/scos2k/MibLoaderBits.java:803-805 | two (APID, type, subtype) triples with byte-sized type and subtype get the same name only if they are equal |
| MibLoaderBits.SanitizeName | src/main/java/org/yamcs/scos2k/MibLoaderBits.java:807-809 | keeps the length, leaves no whitespace or `/`, and keeps every other character in place |
| MibLoaderBits.SanitizeIdempotent | src/main/java/org/yamcs/scos2k/MibLoaderBits.java:807-809 | sanitizing twice is sanitizing once |
| MibLoaderBits.UintType | src/main/java/org/yamcs/scos2k/MibLoaderBits.java:818-822 | the shared type `mib-ptype-uint<n>` is unsigned with an n-bit integer encoding |
| MibLoaderBits.EnsureUintType | src/main/java/org/yamcs/scos2k/MibLoaderBits.java:816-826 | afterwards the space system holds `mib-ptype-uint<n>`; it is added only when missing, and nothing else changes |
| MibLoaderBits.GetIntegerParameterType | src/main/java/org/yamcs/scos2k/MibLoaderBits.java:811-827 | succeeds iff the width is 1 to 64, an illegal argument otherwise |
| MibLoaderBits.GetIntegerParameterTypeIdempotent | src/main/java/org/yamcs/scos2k/MibLoaderBits.java:811-827 | asking twice for the same width returns the same type and space system |
| MibLoaderBits.EnsureMemberTypes | src/main/java/org/yamcs/scos2k/MibLoaderBits.java:843-849 | every member width of an aggregate gets its shared type, and existing types, parameters, containers and commands are kept |
| MibLoaderBits.AddUintParameter | src/main/java/org/yamcs/scos2k/MibLoaderBits.java:756-760 | adds the parameter with the shared type of its width and keeps every other parameter, container and command |
| MibLoaderBits.CreateRootPusContainers | src/main/java/org/yamcs/scos2k/MibLoaderBits.java:751-772 | the root `ccsds-pus` container holds the 11-bit APID at bit 5 and the 8-bit type and subtype at the configured byte offsets times 8, wrapped as Java `int` products, all from the container start, with no base or restriction |
| MibLoaderBits.CreateSubcontainer | src/main/java/org/yamcs/scos2k/MibLoaderBits.java:780-801 | adds an empty container inheriting from the root, restricted on APID, type and subtype, and keeps every other container |
| MibLoaderBits.EqualsIntRoundTrip | src/main/java/org/yamcs/scos2k/MibLoaderBits.java:786-795 | the comparison value of a restriction reads back as the integer it was written from |
| MonitoringData.PrfRecord.AddMinMax | src/main/java/org/yamcs/scos2k/MonitoringData.java:431-434 | the minimum and maximum lists each grow by one, at the same index, and nothing else changes |
| MonitoringData.KeyValue | src/main/java/org/yamcs/scos2k/MonitoringData.java:324-326 | for an apid, type and subtype in range, the packed key is `apid*65536 + type*256 + stype` wrapped to a Java int |
| MonitoringData.KeyExact | src/main/java/org/yamcs/scos2k/MonitoringData.java:324-326 | the packed key is negative exactly when the apid has bit 15 set, and then it is the apid less 65536 shifted up |
| MonitoringData.KeyInjective | src/main/java/org/yamcs/scos2k/MonitoringData.java:324-326 | two in-range records share a packed key only if they share apid, type and subtype |
| MonitoringData.TypeSubtypeValue | src/main/java/org/yamcs/scos2k/MonitoringData.java:383-385 | for a byte-sized type and subtype, the PIC key is `type*256 + stype` |
| MonitoringData.DecodeAsWrittenRoundTrip | src/main/java/org/yamcs/scos2k/TmMibLoader.java:1057-1059 | the decode of the packet loop recovers apid, type and subtype from the key when the apid is below 32768 |
| MonitoringData.DecodeAsWrittenHighApid | src/main/java/org/yamcs/scos2k/TmMibLoader.java:1057-1059 | for an apid of 32768 or more the key is negative and the decode gives the apid less 65536 |
| MonitoringData.DecodeKey | src/main/java/org/yamcs/scos2k/TmMibLoader.java:1057-1059 | the decode with the apid masked to 16 bits always gives an in-range triple |
| MonitoringData.DecodeKeyRoundTrip | src/main/java/org/yamcs/scos2k/MonitoringData.java:324-326 | the masked decode inverts the packed key for every in-range apid, type and subtype |
| MibParameter.NewMibParameter | src/main/java/org/yamcs/scos2k/MibParameter.java:10-17 | a new parameter keeps its PCF row and has no type and no calibrator yet |
| MibParameter.UnitSuffix | src/main/java/org/yamcs/scos2k/MibParameter.java:56-58 | the unit with every `/` and `%` removed: none remains and nothing else is added |
| MibParameter.TypeName | src/main/java/org/yamcs/scos2k/MibParameter.java:39-61 | the type name starts with `ptcpfc_` and, when a unit is set, ends with `_` and the cleaned unit |
| MibParameter.TypeNameDeterminedByTypingColumns | src/main/java/org/yamcs/scos2k/MibParameter.java:39-61 | two PCF rows agreeing on PTC, PFC, category, nature, text calibration, interpretation, size tag and unit get the same type name, so they share a type |
| MibParameter.TypeNameStartsWithPtc | src/main/java/org/yamcs/scos2k/MibParameter.java:41-43 | the type name starts with `ptcpfc_`, the PTC and an underscore |
| TimeDecoder.NewTimeDecoder | src/main/java/org/yamcs/scos2k/TimeDecoder.java:27-48 | succeeds iff both keys are present, the PTC is 9 and the PFC is 0 or 2 to 29; the preamble field is -1 for PFC 0 and PFC+29 otherwise; each failure has its own message |
| TimeDecoder.PfieldInjective | src/main/java/org/yamcs/scos2k/TimeDecoder.java:37-47 | two successful configurations give the same decoder only when their PFCs are equal |
| TimeDecoder.EncodedTimesDecodable | src/main/java/org/yamcs/scos2k/MibLoaderBits.java:201-212 | of the PTC 9 PFCs the encoding resolver accepts, the decoder rejects exactly 1 and 30 |
| LogCalibration.HornerIsPowerSum | src/main/java/org/yamcs/scos2k/LogCalibration.java:8-22 | the Horner evaluation equals the sum of `a[i] * u^i` written in the formula |
| LogCalibration.Calibrate | src/main/java/org/yamcs/scos2k/LogCalibration.java:16-23 | the downward loop yields the reciprocal of the power sum of the coefficients at `ln v`, with no value for a zero sum |
| LogCalibration.PaddingNeutral | src/main/java/org/yamcs/scos2k/TmMibLoader.java:305-312 | a zero coefficient appended at the top leaves the value unchanged, so padding LGF rows to five coefficients is harmless |
| LogCalibration.ConstantOnly | src/main/java/org/yamcs/scos2k/TmMibLoader.java:305-312 | a row with only its constant coefficient calibrates to that constant's sum |
| TmCalibration.CurRow | src/main/java/org/yamcs/scos2k/TmMibLoader.java:136-149 | a CUR row is read iff it has its five columns, an int position and a long raw value, giving the parameter and the record |
| TmCalibration.LoadCur | src/main/java/org/yamcs/scos2k/TmMibLoader.java:136-149 | succeeds iff every row reads; the records are grouped by parameter in row order |
| TmCalibration.LoadCurGroups | src/main/java/org/yamcs/scos2k/TmMibLoader.java:136-149 | a parameter has a group iff some row names it, the group is exactly its rows in order, and each parameter is listed once |
| TmCalibration.CafRow | src/main/java/org/yamcs/scos2k/TmMibLoader.java:170-182 | a CAF row needs five columns: fewer than three fail the mandatory check, three or four fail on the raw-format index |
| TmCalibration.CapRow | src/main/java/org/yamcs/scos2k/TmMibLoader.java:183-197 | a CAP row whose number has no CAF record is an error naming it; otherwise it reads iff both values parse in their formats, giving the raw and engineering point |
| TmCalibration.LoadCafCap | src/main/java/org/yamcs/scos2k/TmMibLoader.java:170-201 | CAF records are keyed by number, a later row winning; the spline points of each CAP number are its rows in order |
| TmCalibration.SplinesHaveCaf | src/main/java/org/yamcs/scos2k/TmMibLoader.java:183-201 | every spline calibrator has a CAF record, and its points are exactly the rows of its number |
| TmCalibration.TxfRow | src/main/java/org/yamcs/scos2k/TmMibLoader.java:219-223 | a TXF row needs three columns and keeps its raw format under its number |
| TmCalibration.TxpRow | src/main/java/org/yamcs/scos2k/TmMibLoader.java:225-257 | a TXP row whose number has no TXF record is an error; equal bounds with an I or U raw format give a value enumeration needing a long, otherwise a range needing two decimals |
| TmCalibration.PointsRangesPartition | src/main/java/org/yamcs/scos2k/TmMibLoader.java:241-256 | every TXP row becomes exactly one point or one range |
| TmCalibration.LoadTxfTxp | src/main/java/org/yamcs/scos2k/TmMibLoader.java:216-259 | the enumerations and ranges of each number are its TXP rows of each sort, in order |
| TmCalibration.LastPresent | src/main/java/org/yamcs/scos2k/TmMibLoader.java:271-275 | the last non-empty coefficient column before the limit, or -1 when there is none |
| TmCalibration.McfCount | src/main/java/org/yamcs/scos2k/TmMibLoader.java:270-275 | the number of MCF coefficients: 2 when no coefficient column is filled, otherwise up to and including the last filled one |
| TmCalibration.PolCoefficients | src/main/java/org/yamcs/scos2k/TmMibLoader.java:276-281 | succeeds iff every filled coefficient column parses; empty columns give zero; a failure names a column that did not parse |
| TmCalibration.McfRow | src/main/java/org/yamcs/scos2k/TmMibLoader.java:266-284 | an MCF row keeps its identifier and as many coefficients as the count says, read column by column |
| TmCalibration.McfKeepsEveryColumn | src/main/java/org/yamcs/scos2k/TmMibLoader.java:270-281 | no filled coefficient column is dropped: each reaches the polynomial at its position |
| TmCalibration.LoadMcf | src/main/java/org/yamcs/scos2k/TmMibLoader.java:266-284 | succeeds iff every row reads; polynomials are keyed by identifier, a later row winning |
| TmCalibration.LgfRow | src/main/java/org/yamcs/scos2k/TmMibLoader.java:300-316 | an LGF row has always five coefficients: the first mandatory, the others zero when empty |
| TmCalibration.LgfCoefficients | src/main/java/org/yamcs/scos2k/TmMibLoader.java:305-311 | each of the five coefficients is its column's value |
| TmCalibration.LoadLgf | src/main/java/org/yamcs/scos2k/TmMibLoader.java:300-316 | succeeds iff every row reads; calibrations keyed by identifier, each with five coefficients |
| TmCalibration.LoadCalibrations | src/main/java/org/yamcs/scos2k/TmMibLoader.java:480-486 | the calibration tables load in order (CUR first) and the result holds each table's result |
| TmCalibration.GetNumericCalibrator | src/main/java/org/yamcs/scos2k/TmMibLoader.java:665-674 | a named calibration resolves to the polynomial, else the spline, else the logarithmic one, and to nothing when none has that name |
| TmParameters.ParsePcf | src/main/java/org/yamcs/scos2k/TmMibLoader.java:342-368 | a PCF row reads into its record: a name that is not a word is an error naming it; PTC and PFC are mandatory ints; width and PID default to -1, the size tag to the configured default, optional columns are absent when empty, and USCON is set iff the column is `Y` |
| TmParameters.CalibratedKind | src/main/java/org/yamcs/scos2k/TmMibLoader.java:638-663 | a calibrated numeric parameter is a float or an integer type, without a fixed width |
| TmParameters.NcategType | src/main/java/org/yamcs/scos2k/TmMibLoader.java:561-636 | a numeric-category type exists only for a known (PTC, PFC); it carries a calibrator iff PCF_CURTX or a CUR row is set, which is an error for PTC 1 and from PTC 6 on; booleans for PTC 1, the PUS header aggregate with its member types for PTC 12 (PFC 0 or 1 only), and otherwise the resolver's encoding with the space system unchanged |
| TmParameters.NumericType | src/main/java/org/yamcs/scos2k/TmMibLoader.java:578-596 | a numeric parameter keeps the encoding; with a calibration it takes the named calibrator, and a calibrator on a non-numeric encoding is an illegal state |
| TmParameters.OtherType | src/main/java/org/yamcs/scos2k/TmMibLoader.java:598-635 | PTC 6 to 10 and PTC 12 with PFC 0 or 1 are accepted, others are unsupported; PTC 12 gets the header aggregate and its member types, the rest leave the space system unchanged |
| TmParameters.ScategType | src/main/java/org/yamcs/scos2k/TmMibLoader.java:676-726 | a status parameter is an enumeration of its text calibration's values and ranges when it has one, otherwise an integer signed iff PTC 4; exactly one error is reported when PCF_CURTX is missing, or names no text calibration and the parameter has no CUR rows |
| TmParameters.TcategType | src/main/java/org/yamcs/scos2k/TmMibLoader.java:728-742 | a text parameter must have PTC 8 and gives a string type with the resolver's encoding and the PCF default value |
| TmParameters.CreateParameterType | src/main/java/org/yamcs/scos2k/TmMibLoader.java:532-559 | dispatches on category N, S or T, any other being an error naming it; the unit is added when set; a constant with a default value gets it; a calibrator only for category N with a calibration |
| TmParameters.Finish | src/main/java/org/yamcs/scos2k/TmMibLoader.java:545-556 | adds the unit and, for constants with a default, the initial value, changing nothing else |
| TmParameters.InstanceNamesDistinct | src/main/java/org/yamcs/scos2k/TmMibLoader.java:396-404 | different indexes give different private type names |
| TmParameters.FreshIndex | src/main/java/org/yamcs/scos2k/TmMibLoader.java:396-404 | the probe stops at the first index whose `<typeName>_<k>` is not taken, every index before it being taken |
| TmParameters.PcfTyped | src/main/java/org/yamcs/scos2k/TmMibLoader.java:382-409 | a typed parameter is stored with its row; without CUR rows an existing type of its type name is reused unchanged; with CUR rows it gets a fresh private type named after the first free index |
| TmParameters.SharedTyped | src/main/java/org/yamcs/scos2k/TmMibLoader.java:384-392 | without CUR rows, an existing type of the same type name is shared, leaving the space system unchanged |
| TmParameters.PrivateTyped | src/main/java/org/yamcs/scos2k/TmMibLoader.java:393-407 | with CUR rows, the type is new, named `<typeName>_<k>` for the first untaken k |
| TmParameters.PcfApply | src/main/java/org/yamcs/scos2k/TmMibLoader.java:370-410 | a PTC 13 row is set aside as synthetic; a PTC 11 row needs PCF_RELATED (else an error naming the parameter) and becomes an untyped deduced parameter; any other row is stored typed; no other parameter changes |
| TmParameters.PcfStep | src/main/java/org/yamcs/scos2k/TmMibLoader.java:345-410 | a row that does not parse fails with its error; otherwise its record is applied |
| TmParameters.LoadPcfUpTo | src/main/java/org/yamcs/scos2k/TmMibLoader.java:342-411 | after n rows the state is still valid, every non-synthetic row's parameter is stored, and each stored parameter comes from a row or was there before |
| TmParameters.LoadPcf | src/main/java/org/yamcs/scos2k/TmMibLoader.java:342-411 | the whole PCF table: every row read, every non-synthetic parameter stored, nothing invented, existing types kept |
| TmParameters.SharedType | src/main/java/org/yamcs/scos2k/TmMibLoader.java:384-392 | two parameters without CUR rows whose rows agree on the typing columns hold the same type |
| TmParameters.ToParameter | src/main/java/org/yamcs/scos2k/TmMibLoader.java:490-499 | the published parameter keeps name, type and description, with one on-board PID alias exactly when the PID is set |
| TmParameters.PidAliasRoundTrip | src/main/java/org/yamcs/scos2k/TmMibLoader.java:495-497 | the alias text reads back as the PID |
| TmParameters.PublishUpToContents | src/main/java/org/yamcs/scos2k/TmMibLoader.java:487-500 | every typed parameter among the first n is published as its converted form |
| TmParameters.PublishUpToFrame | src/main/java/org/yamcs/scos2k/TmMibLoader.java:487-500 | publishing adds only loaded parameters and keeps every parameter already there |
| TmParameters.Publish | src/main/java/org/yamcs/scos2k/TmMibLoader.java:487-500 | every typed parameter is published and deduced ones are not; types and the loader state are unchanged and nothing foreign is added |
| TmParameters.CurCalibrators | src/main/java/org/yamcs/scos2k/TmMibLoader.java:516-526 | one context calibrator per CUR row |
| TmParameters.CurContextRoundTrip | src/main/java/org/yamcs/scos2k/TmMibLoader.java:521-522 | a CUR context compares the raw value of the referenced parameter for equality with the row's value, whose text reads back as it |
| TmParameters.ContextCalibrators | src/main/java/org/yamcs/scos2k/TmMibLoader.java:514-526 | succeeds iff every referenced parameter exists, giving one calibrator per row; otherwise the CUR_RLCHK error |
| TmParameters.ApplyContextCalibration | src/main/java/org/yamcs/scos2k/TmMibLoader.java:505-529 | a CUR parameter that is not loaded, or whose rows reference unknown parameters, is an error with its message; otherwise its type is replaced everywhere by one carrying the rows' calibrators |
| TmParameters.ApplyContextCalibrationValid | src/main/java/org/yamcs/scos2k/TmMibLoader.java:505-529 | calibrating one parameter keeps the loader state valid and published, and leaves other parameters with private types alone |
| TmParameters.LoadContextCalibrators | src/main/java/org/yamcs/scos2k/TmMibLoader.java:505-529 | after the loop every CUR parameter's type carries its own rows' calibrators, nothing else is reshaped and the state stays valid |
| TmParameters.LoadParameters | src/main/java/org/yamcs/scos2k/TmMibLoader.java:487-503 | the PCF rows are loaded, typed parameters are published and every CUR parameter is calibrated |
| TmParameters.LoadTelemetryParams | src/main/java/org/yamcs/scos2k/TmMibLoader.java:480-503 | a calibration table error is returned as is; otherwise the result holds the calibrations, loads every PCF row, publishes the typed parameters and calibrates every CUR parameter |
| TmPackets.PicRow | src/main/java/org/yamcs/scos2k/TmMibLoader.java:978-996 | a PIC row reads iff its six mandatory columns are there and parse as ints, and the APID column, when filled, too; the APID is -1 when empty |
| TmPackets.FindPic | src/main/java/org/yamcs/scos2k/TmMibLoader.java:1164-1175 | a found PIC record is one of the list with the type and subtype asked, and the APID asked or the wildcard -1 |
| TmPackets.FindPicSpec | src/main/java/org/yamcs/scos2k/TmMibLoader.java:1164-1175 | the search returns the first record matching the APID exactly, else the last wildcard record, else nothing |
| TmPackets.OptUnsigned | src/main/java/org/yamcs/scos2k/TmMibLoader.java:1031-1036 | a discriminator value is 0 when its column is empty and the unsigned long read otherwise |
| TmPackets.PidRowOf | src/main/java/org/yamcs/scos2k/TmMibLoader.java:1016-1046 | a PID row with VALID `N` is skipped; a row too short for the VALID column raises an index error; otherwise the record's fields are the column reads, TPSD defaulting to -1 |
| TmPackets.PidTables.Values | src/main/java/org/yamcs/scos2k/TmMibLoader.java:1051 | one packet per SPID, the last row of that SPID |
| TmPackets.LoadPid | src/main/java/org/yamcs/scos2k/TmMibLoader.java:1016-1046 | succeeds iff every row reads; packets are grouped by SPID and, when a TPSD is set, by TPSD |
| TmPackets.PidRowsKept | src/main/java/org/yamcs/scos2k/TmMibLoader.java:1020-1045 | a SPID is kept iff some row not skipped has it |
| TmPackets.ByTpsdVariableOnly | src/main/java/org/yamcs/scos2k/TmMibLoader.java:1039-1043 | packets without a TPSD are never listed as variable packets |
| TmPackets.TpcfRow | src/main/java/org/yamcs/scos2k/TmMibLoader.java:1148-1162 | a TPCF row needs a long SPID and a valid size when filled; the name is absent when empty |
| TmPackets.LoadTpcf | src/main/java/org/yamcs/scos2k/TmMibLoader.java:1148-1162 | succeeds iff every row reads; records keyed by SPID, a later row winning |
| TmPackets.PacketsOf | src/main/java/org/yamcs/scos2k/TmMibLoader.java:1060-1061 | the packets of a key are exactly those whose packed key is it |
| TmPackets.PacketKeys | src/main/java/org/yamcs/scos2k/TmMibLoader.java:1051 | the distinct packed keys: every packet's key, each once |
| TmPackets.TpcfName | src/main/java/org/yamcs/scos2k/TmMibLoader.java:1066-1069 | a packet has a TPCF name iff its SPID has a TPCF row with a name |
| TmPackets.Unclash | src/main/java/org/yamcs/scos2k/TmMibLoader.java:1070-1072 | a name already taken by a container gets ` spid_<spid>` appended, any other is kept |
| TmPackets.SingleGroup | src/main/java/org/yamcs/scos2k/TmMibLoader.java:1064-1076 | the only packet of a key gets a container under the root restricted on the key, named after its sanitised TPCF name or the key name, unclashed; other containers are kept |
| TmPackets.AddDiscriminator | src/main/java/org/yamcs/scos2k/TmMibLoader.java:1084-1109 | a discriminator is added iff its offset is not negative and its width test passes; a failed width test with a valid offset is reported, and a width over 64 aborts |
| TmPackets.AddDiscriminatorSpec | src/main/java/org/yamcs/scos2k/TmMibLoader.java:1084-1109 | a negative offset changes nothing, a failed width test only adds the PIC error, and an added discriminator is an unsigned parameter of its width placed at 8 times its offset from the container start |
| TmPackets.PacketRestriction | src/main/java/org/yamcs/scos2k/TmMibLoader.java:1123-1133 | a packet's restriction compares each discriminator present with its PID value, the first before the second |
| TmPackets.LeafName | src/main/java/org/yamcs/scos2k/TmMibLoader.java:1112-1120 | a packet with a TPCF name is named after it, unclashed; otherwise `spid_<spid>` is appended to the previous name |
| TmPackets.Leaf | src/main/java/org/yamcs/scos2k/TmMibLoader.java:1121-1137 | the packet's container is based on the level-1 container, restricted on the discriminators, empty, and becomes the SPID's container |
| TmPackets.Leaves | src/main/java/org/yamcs/scos2k/TmMibLoader.java:1111-1138 | every packet of the key gets a container |
| TmPackets.LeavesAccumulate | src/main/java/org/yamcs/scos2k/TmMibLoader.java:1119 | without TPCF names the n-th packet's container is the key name followed by the `spid_` suffixes of the first n+1 packets, since the name variable is never reset |
| TmPackets.LeavesKeep | src/main/java/org/yamcs/scos2k/TmMibLoader.java:1111-1138 | a SPID of no packet of the key keeps its container |
| TmPackets.Pi2StepAsWritten | src/main/java/org/yamcs/scos2k/TmMibLoader.java:1097-1109 | the second discriminator as written: with a first width not positive it is skipped and reported, whatever its own width |
| TmPackets.Pi2Step | src/main/java/org/yamcs/scos2k/TmMibLoader.java:1097-1109 | the second discriminator is added iff its offset is not negative and its own width is 1 to 64, and aborts iff that width exceeds 64 |
| TmPackets.Pi2WidthTestDiscrepancy | src/main/java/org/yamcs/scos2k/TmMibLoader.java:1097-1109 | for PIC (3, 25) with no first discriminator and an 8-bit second, the code drops the second; with an 8-bit first and a 0-bit second it aborts where it should report |
| TmPackets.Level1 | src/main/java/org/yamcs/scos2k/TmMibLoader.java:1078-1109 | the level-1 container has a first discriminator iff its offset is set and its width positive, and a second iff the second offset is set and the FIRST width is positive, as line 1098 tests; it fails iff the first width exceeds 64 or the second branch is taken with a second width outside 1 to 64 |
| TmPackets.Level1Spec | src/main/java/org/yamcs/scos2k/TmMibLoader.java:1078-1109 | the level-1 container is under the root, restricted on the key, and holds the discriminators `<key>_pi1` then `<key>_pi2` that `TmPackets.Level1` adds, at their offsets |
| TmPackets.MultiGroup | src/main/java/org/yamcs/scos2k/TmMibLoader.java:1077-1139 | a key with several packets needs a PIC record, else the error naming type, subtype and APID; every packet gets a container |
| TmPackets.Group | src/main/java/org/yamcs/scos2k/TmMibLoader.java:1056-1140 | the key is decoded with the arithmetic `>> 16` of line 1059; every packet of the key gets a container, and nothing is removed |
| TmPackets.GroupSingleAsWritten | src/main/java/org/yamcs/scos2k/TmMibLoader.java:1056-1076 | a key with one packet gets a container restricted on, and named after, the decoded apid, which is `apid - 65536` from apid 32768 on |
| TmPackets.GroupsFrom | src/main/java/org/yamcs/scos2k/TmMibLoader.java:1056-1140 | every packet of every key processed gets a container |
| TmPackets.ValuesCoverKept | src/main/java/org/yamcs/scos2k/TmMibLoader.java:1051 | every kept SPID is the SPID of a packet the loop visits |
| TmPackets.LoadPacketStructure | src/main/java/org/yamcs/scos2k/TmMibLoader.java:1048-1139 | a PIC error, then a PID error, is returned as is; on success every packet the PID table keeps has a container, built with the code's APID decode and second-discriminator test, and earlier errors are kept |
| TmEntries.RelatedRef | src/main/java/org/yamcs/scos2k/TmMibLoader.java:1209-1211 | a deduced parameter's reference resolves iff the parameter it names exists, and then to it |
| TmEntries.PlfRow | src/main/java/org/yamcs/scos2k/TmMibLoader.java:1192-1198 | a PLF row needs its mandatory columns and a long SPID; a row for an unknown SPID is ignored, any other entry goes to the SPID's container |
| TmEntries.PlfEntry | src/main/java/org/yamcs/scos2k/TmMibLoader.java:1200-1230 | the entry is placed from the container start at 8 times the byte offset plus the bit offset (int arithmetic), refers to the deduced parameter's reference or to the parameter itself, is skipped for a saved synthetic parameter, and repeats NBOCC times with LGOCC bits between occurrences iff NBOCC is above one |
| TmEntries.PlfEntryErrors | src/main/java/org/yamcs/scos2k/TmMibLoader.java:1203-1221 | an NBOCC below one aborts with `Invalid PLF_NBOCC`, and a name neither deduced, synthetic nor a parameter with `Unknown parameter` |
| TmEntries.AppendAll | src/main/java/org/yamcs/scos2k/TmMibLoader.java:1231 | appending entries to containers keeps the container names, their order and every parameter, type and command |
| TmEntries.AppendAllEntries | src/main/java/org/yamcs/scos2k/TmMibLoader.java:1231 | each container ends up with its old entries followed, in row order, by the entries added to it |
| TmEntries.LoadPacketEntries | src/main/java/org/yamcs/scos2k/TmMibLoader.java:1188-1234 | the PLF pass succeeds iff every row reads, and then every container holds its old entries followed by the entries its rows add, and no container or parameter is added |
| TmEntries.VpdRow | src/main/java/org/yamcs/scos2k/TmMibLoader.java:1261-1270 | a VPD row reads iff its mandatory columns are there and TPSD, POS, GRPSIZE and OFFSET parse; CHOICE defaults to `N` and GRPSIZE and OFFSET to 0 |
| TmEntries.VpdEntry | src/main/java/org/yamcs/scos2k/TmMibLoader.java:1305-1324 | a VPD slot's entry exists iff the name is a parameter or a deduced parameter; it is a plain parameter entry for a parameter and an indirect reference otherwise, never repeated |
| TmEntries.CounterRepeat | src/main/java/org/yamcs/scos2k/TmMibLoader.java:1342-1348 | a group is repeated dynamically by the counter parameter when it exists |
| TmEntries.VpdWalkStep | src/main/java/org/yamcs/scos2k/TmMibLoader.java:1301-1355 | each slot adds its own entry first, then entries that follow the previous one: the repeated parameter for a group of one, a container reference named `<container>_<count>` for a larger group |
| TmEntries.VpdWalkErrors | src/main/java/org/yamcs/scos2k/TmMibLoader.java:1313-1340 | an unknown name fails, a group longer than the records left fails with the inconsistency message, and a group of one whose parameter is unknown fails with `Cannot find parameter` |
| TmEntries.VpdWalkPlacement | src/main/java/org/yamcs/scos2k/TmMibLoader.java:1306-1312 | the first slot of a packet is placed from the container start at its offset plus the header size; every other entry follows the previous one |
| TmEntries.VpdWalkNestedStep | src/main/java/org/yamcs/scos2k/TmMibLoader.java:1345-1353 | a larger group adds its own nested containers, then its container, then those of the later slots |
| TmEntries.VpdWalkNested | src/main/java/org/yamcs/scos2k/TmMibLoader.java:1346 | every nested container is named after the packet container with an underscore suffix, has no base and no restriction, and all its entries follow each other |
| TmEntries.VpdWalkFlat | src/main/java/org/yamcs/scos2k/TmMibLoader.java:1301-1324 | without groups, the walk succeeds iff every name is known, adds no container and one entry per record, the first from the container start |
| TmEntries.NestedNames | src/main/java/org/yamcs/scos2k/TmMibLoader.java:1346 | names built from a group name still start with the packet container's name and an underscore |
| TmEntries.VpdClassify | src/main/java/org/yamcs/scos2k/TmMibLoader.java:1261-1282 | a VPD row of an unknown TPSD is set aside, a known TPSD with a name neither parameter nor deduced aborts with `has no correspondence in the pcf table`, any other is kept |
| TmEntries.DroppedTpsds | src/main/java/org/yamcs/scos2k/TmMibLoader.java:1259-1277 | the TPSDs set aside are those of the rows with no PID |
| TmEntries.SkipErrors | src/main/java/org/yamcs/scos2k/TmMibLoader.java:1272-1277 | each error reported is the `no correspondence in the pid table` error of a row set aside |
| TmEntries.SkipErrorsOnePerTpsd | src/main/java/org/yamcs/scos2k/TmMibLoader.java:1273-1276 | one error is reported per distinct TPSD set aside, not per row |
| TmEntries.KeptVpd | src/main/java/org/yamcs/scos2k/TmMibLoader.java:1284-1285 | the kept records are paired with their own TPSD and come from kept rows |
| TmEntries.VpdRecords | src/main/java/org/yamcs/scos2k/TmMibLoader.java:1284-1289 | a TPSD is grouped iff some kept row has it, and its records are those rows stably sorted by position |
| TmEntries.SortLists | src/main/java/org/yamcs/scos2k/TmMibLoader.java:1287-1289 | sorting keeps the groups and their order and sorts each group's records stably by position |
| TmEntries.ApplyVpd | src/main/java/org/yamcs/scos2k/TmMibLoader.java:1294-1297 | the walk of a TPSD's records is appended to the container of each packet of that TPSD, from 8 times its header size, and its nested containers are added |
| TmEntries.PutAll | src/main/java/org/yamcs/scos2k/TmMibLoader.java:1352 | adding nested containers keeps the model well formed and adds exactly their names |
| TmEntries.ApplyVpdFrame | src/main/java/org/yamcs/scos2k/TmMibLoader.java:1294-1297 | one packet's variable part leaves every container other than its own and those named `<container>_...` as it was |
| TmEntries.ApplyPids | src/main/java/org/yamcs/scos2k/TmMibLoader.java:1294-1297 | every packet of the TPSD must have a container, a missing one making the pass fail; nothing outside the packets' containers changes; when those containers are separate, each ends with its old entries followed by the walk of the TPSD's records from 8 times the packet's header size |
| TmEntries.ApplyTpsds | src/main/java/org/yamcs/scos2k/TmMibLoader.java:1291-1298 | processing grouped TPSDs only grows the containers and keeps parameters and packet containers; nothing outside the packets' containers changes; when all those containers are separate, every packet of every TPSD ends with its old entries followed by the walk of that TPSD's records |
| TmEntries.RecordsKnown | src/main/java/org/yamcs/scos2k/TmMibLoader.java:1291-1294 | every TPSD processed has records and a PID list |
| TmEntries.KeptTpsdsKnown | src/main/java/org/yamcs/scos2k/TmMibLoader.java:1272-1285 | every kept record's TPSD has packets |
| TmEntries.LoadVpd | src/main/java/org/yamcs/scos2k/TmMibLoader.java:1255-1299 | a row error aborts the pass; on success the errors reported are the earlier ones followed by one per TPSD set aside, containers only grow, every grouped TPSD has packets, nothing outside their containers changes, and, when those containers are separate, each packet container of a grouped TPSD ends with its old entries followed by the walk of the TPSD's sorted records |
| TmLimits.OcpRow | src/main/java/org/yamcs/scos2k/TmMibLoader.java:950-958 | an OCP row reads iff its mandatory columns are there, POS parses and VALPAR, when filled, parses; TYPE, LVALU, HVALU and RLCHK are absent exactly when their column is empty, and VALPAR is the long read from its column, 1 when it is empty |
| TmLimits.LoadOcp | src/main/java/org/yamcs/scos2k/TmMibLoader.java:945-967 | the OCP table loads iff every row reads |
| TmLimits.LoadOcpLists | src/main/java/org/yamcs/scos2k/TmMibLoader.java:959-964 | a parameter has checks iff some row names it, and its checks are those rows stably sorted by position |
| TmLimits.LevelOf | src/main/java/org/yamcs/scos2k/TmMibLoader.java:834 | a check is a warning iff its type is `S`, critical otherwise |
| TmLimits.ContextOf | src/main/java/org/yamcs/scos2k/TmMibLoader.java:816-829 | a check has a context iff it names a related parameter, and the context compares that parameter's raw value for equality with VALPAR as text |
| TmLimits.StepContextSpec | src/main/java/org/yamcs/scos2k/TmMibLoader.java:816-832 | the context for a check is unknown exactly when its related parameter does not exist, and otherwise its own context, whether reused from the previous check or built anew |
| TmLimits.After | src/main/java/org/yamcs/scos2k/TmMibLoader.java:854 | after a check the scan remembers it, in a context iff the check has one |
| TmLimits.AfterInv | src/main/java/org/yamcs/scos2k/TmMibLoader.java:816-832 | remembering a check whose related parameter exists keeps the scan consistent |
| TmLimits.Retype | src/main/java/org/yamcs/scos2k/TmMibLoader.java:856 | giving a parameter a new type changes that parameter's type and nothing else |
| TmLimits.FirstValue | src/main/java/org/yamcs/scos2k/TmMibLoader.java:860-864 | the index found is that of the first enumeration value equal to the raw value, or past the end |
| TmLimits.FirstRange | src/main/java/org/yamcs/scos2k/TmMibLoader.java:866-870 | the index found is that of the first range holding the raw value, or past the end |
| TmLimits.FindEnumeration | src/main/java/org/yamcs/scos2k/TmMibLoader.java:859-873 | the label is absent iff no value equals the raw value and no range holds it; the first equal value wins, then the first range holding it |
| TmLimits.EnumCheck | src/main/java/org/yamcs/scos2k/TmMibLoader.java:834-853 | an unknown related parameter aborts; an engineering check adds an alarm on LVALU; a raw check needs LVALU to parse as a long, else aborts, and adds an alarm on the label found, or none |
| TmLimits.EnumScanIsSpec | src/main/java/org/yamcs/scos2k/TmMibLoader.java:809-855 | the scan over the checks, reusing the context of the previous check, equals the reference definition where each check's context is computed from the check alone |
| TmLimits.AddEnumeratedAlarm | src/main/java/org/yamcs/scos2k/TmMibLoader.java:802-857 | a missing parameter is a null dereference and a non-enumerated type a class cast; on success the type keeps its alarms and gains those of the checks, in order |
| TmLimits.SetRange | src/main/java/org/yamcs/scos2k/TmMibLoader.java:928 | setting a range puts it in and keeps every range of another level |
| TmLimits.SetRangeKeepsOnePerLevel | src/main/java/org/yamcs/scos2k/TmMibLoader.java:928 | there stays at most one range per level |
| TmLimits.AddRangeSpec | src/main/java/org/yamcs/scos2k/TmMibLoader.java:926-928 | the range goes to the alarm of its context, created at the end when there is none; other alarms are unchanged |
| TmLimits.AddRangeKeepsOnePerContext | src/main/java/org/yamcs/scos2k/TmMibLoader.java:926 | there stays at most one alarm per context |
| TmLimits.NumericCheck | src/main/java/org/yamcs/scos2k/TmMibLoader.java:896-929 | a limit that does not parse aborts with `Cannot parse low/high`; an unknown related parameter is reported and the check skipped; otherwise the range of the check's level is added to its context's alarm |
| TmLimits.NumericScanIsSpec | src/main/java/org/yamcs/scos2k/TmMibLoader.java:888-930 | the scan over the checks equals the reference definition where each check's context is computed from the check alone |
| TmLimits.NumericSpecOnePerContext | src/main/java/org/yamcs/scos2k/TmMibLoader.java:890-930 | after all checks there is still at most one alarm per context |
| TmLimits.AddNumericAlarm | src/main/java/org/yamcs/scos2k/TmMibLoader.java:875-934 | a missing parameter is a null dereference and a non-numeric type a class cast; on success a new type named after the old one with the first free `_<n>` suffix, holding the old alarms plus those of the checks, is added and given to the parameter |
| TmLimits.OcfRow | src/main/java/org/yamcs/scos2k/TmMibLoader.java:757-762 | an OCF row reads iff its five mandatory columns are there and NBCHCK and NBOOL parse |
| TmLimits.AlarmsOnlyTrans | src/main/java/org/yamcs/scos2k/TmMibLoader.java:751-800 | changing only alarms twice changes only alarms |
| TmLimits.AddEnumeratedAlarmOnly | src/main/java/org/yamcs/scos2k/TmMibLoader.java:802-857 | an enumerated alarm changes only the parameter's type's alarms |
| TmLimits.AddNumericAlarmOnly | src/main/java/org/yamcs/scos2k/TmMibLoader.java:875-934 | a numeric alarm changes only alarms, apart from the new type it adds |
| TmLimits.NewTypeAlarmsOnly | src/main/java/org/yamcs/scos2k/TmMibLoader.java:931-933 | adding a fresh type of the same kind, encoding and calibrator and giving it to the parameter changes only alarms |
| TmLimits.ApplyCheck | src/main/java/org/yamcs/scos2k/TmMibLoader.java:776-798 | applying a limit keeps the model well formed and keeps earlier errors |
| TmLimits.ApplyOcf | src/main/java/org/yamcs/scos2k/TmMibLoader.java:757-798 | one OCF row keeps the model well formed and keeps earlier errors |
| TmLimits.ApplyOcfCases | src/main/java/org/yamcs/scos2k/TmMibLoader.java:763-798 | no PCF and no OCP abort; a status consistency check is skipped; R and I add a raw enumerated alarm for an unsigned enumerated parameter, nothing for a boolean, a numeric alarm for a numeric one and abort otherwise; A adds an engineering enumerated alarm and aborts on other types; any other CODIN aborts |
| TmLimits.ApplyCheckOnly | src/main/java/org/yamcs/scos2k/TmMibLoader.java:776-798 | a limit changes only alarms |
| TmLimits.ApplyOcfOnly | src/main/java/org/yamcs/scos2k/TmMibLoader.java:757-798 | an OCF row changes only alarms |
| TmLimits.LoadLimitsUpTo | src/main/java/org/yamcs/scos2k/TmMibLoader.java:756-799 | the rows read so far change only alarms and keep earlier errors |
| TmLimits.LoadLimitsIsFold | src/main/java/org/yamcs/scos2k/TmMibLoader.java:756-799 | the first n rows load iff they all read and applying them in file order succeeds, and then the state is that of applying them in order; an earlier row's failure wins over a later row's |
| TmLimits.LoadLimits | src/main/java/org/yamcs/scos2k/TmMibLoader.java:751-800 | an OCP error aborts first; otherwise the load succeeds iff every OCF row reads and applying them in file order succeeds, and the state is that of applying them in order; only alarms change and earlier errors are kept |
| TcTables.CpcRow | src/main/java/org/yamcs/scos2k/TcMibLoader.java:612-617 | a CPC row reads iff its mandatory columns are there and PTC and PFC parse as ints, PFC being read first; name, PTC and PFC are those columns |
| TcTables.CpcRowQuirks | src/main/java/org/yamcs/scos2k/TcMibLoader.java:615-625 | as the code reads them: the description is the name column, CORR is the default value column (`Y` when empty), and the category defaults to `N` |
| TcTables.CpcPairs | src/main/java/org/yamcs/scos2k/TcMibLoader.java:626 | every CPC record is keyed by its own name |
| TcTables.LoadCpc | src/main/java/org/yamcs/scos2k/TcMibLoader.java:608-628 | the CPC table loads iff every row reads, into a map from name to the row |
| TcTables.LoadCpcLastWins | src/main/java/org/yamcs/scos2k/TcMibLoader.java:626 | every name read is in the map, and a name maps to its last row |
| TcTables.CdfRow | src/main/java/org/yamcs/scos2k/TcMibLoader.java:648-678 | a `BINCMD` row is skipped; any other keeps its name, element type and bit position, and refers to a CPC record iff it is not a fixed area; a missing CPC record fails |
| TcTables.LoadCdf | src/main/java/org/yamcs/scos2k/TcMibLoader.java:644-680 | the CDF table loads iff every row reads, into per-command lists in row order |
| TcTables.CdfKept | src/main/java/org/yamcs/scos2k/TcMibLoader.java:649-671 | a kept element belongs to a command that is not `BINCMD` and refers to a known CPC record iff it is not a fixed area |
| TcTables.LoadCdfElements | src/main/java/org/yamcs/scos2k/TcMibLoader.java:676-677 | a command's elements are its kept rows in order, and there is at least one |
| TcTables.CcaRow | src/main/java/org/yamcs/scos2k/TcMibLoader.java:700-706 | a CCA row reads iff its RADIX column is there: an empty row misses NUMBR and a short one is an index error; the curve starts with no points |
| TcTables.CcsRow | src/main/java/org/yamcs/scos2k/TcMibLoader.java:709-721 | a CCS row for an unknown curve fails with `found no record in CCA file`; otherwise both values parse with the curve's format and radix into one point |
| TcTables.LoadDecalib | src/main/java/org/yamcs/scos2k/TcMibLoader.java:696-723 | on success the curves are those of the CCA rows, last row winning, with their formats and radix kept, and each curve's points are exactly its CCS lines, in file order, read in its engineering format |
| TcTables.SelectCurve | src/main/java/org/yamcs/scos2k/TcMibLoader.java:709-721 | the points a successful CCS pass keeps for a curve are the points of the CCS lines numbered after it, in order |
| TcTables.DecalibCurves | src/main/java/org/yamcs/scos2k/TcMibLoader.java:709-721 | every CCS row names a loaded curve and its point is among that curve's points |
| TcTables.PafRow | src/main/java/org/yamcs/scos2k/TcMibLoader.java:740-747 | a PAF row reads iff NUMBR is there and RAWFMT, default `U`, is `U`, `R` or `I` |
| TcTables.PasRow | src/main/java/org/yamcs/scos2k/TcMibLoader.java:751-770 | a PAS row of an unknown PAF fails; `U` gives an enumeration value parsed as long, `I` one parsed as unsigned long, `R` a one-point range parsed as a double |
| TcTables.LoadTxtDecalib | src/main/java/org/yamcs/scos2k/TcMibLoader.java:735-772 | on success enumeration values and ranges are grouped by PAF number in row order |
| TcTables.PafFormatsValid | src/main/java/org/yamcs/scos2k/TcMibLoader.java:743-744 | every stored raw format is `U`, `R` or `I` |
| TcTables.PointsFrom | src/main/java/org/yamcs/scos2k/TcMibLoader.java:760-765 | every enumeration value comes from a PAS row |
| TcTables.RangesFrom | src/main/java/org/yamcs/scos2k/TcMibLoader.java:768-769 | every enumeration range comes from a PAS row |
| TcTables.PasEntryFormat | src/main/java/org/yamcs/scos2k/TcMibLoader.java:753-770 | every PAS entry's number has a format, and it is a range iff the format is `R` |
| TcTables.TxtDecalibKinds | src/main/java/org/yamcs/scos2k/TcMibLoader.java:758-770 | a PAF number gets values only for `U` or `I` and ranges only for `R`, never both |
| TcTables.PrfRow | src/main/java/org/yamcs/scos2k/TcMibLoader.java:793-799 | a PRF row reads iff NUMBR is there; it has no bounds yet, and its interpretation is the RADIX column, default `D`, the last of three assignments |
| TcTables.PrvRow | src/main/java/org/yamcs/scos2k/TcMibLoader.java:803-811 | a PRV row reads iff its mandatory columns are there, and carries its minimum and maximum |
| TcTables.AddAllMinMax | src/main/java/org/yamcs/scos2k/TcMibLoader.java:812 | bounds are appended in order, keeping the earlier ones and the rest of the record |
| TcTables.AttachBounds | src/main/java/org/yamcs/scos2k/TcMibLoader.java:802-813 | every range set keeps its name and gets exactly the bounds of its PRV rows in order; rows of unknown sets are ignored |
| TcTables.AddAllMinMaxFresh | src/main/java/org/yamcs/scos2k/TcMibLoader.java:812 | a fresh range set gets exactly the bounds given |
| TcTables.LoadPrfPrv | src/main/java/org/yamcs/scos2k/TcMibLoader.java:787-815 | on success the range sets are those of the PRF rows, each with the bounds of its PRV rows in row order |
| TcTables.PrfRowsEmpty | src/main/java/org/yamcs/scos2k/TcMibLoader.java:794-799 | a range set read from PRF has no bounds |
| TcHeaders.UniqueRowsUpTo | src/main/java/org/yamcs/scos2k/TcMibLoader.java:128-163 | a table of uniquely named rows loads iff every row has its mandatory columns and is accepted and no name repeats; each name maps to its row |
| TcHeaders.HeaderCommand | src/main/java/org/yamcs/scos2k/TcMibLoader.java:134-138 | a header is an abstract command of its own name with an empty container of that name and no arguments |
| TcHeaders.PutHeaders | src/main/java/org/yamcs/scos2k/TcMibLoader.java:139 | registering the headers adds their commands and changes nothing else |
| TcHeaders.LoadTcp | src/main/java/org/yamcs/scos2k/TcMibLoader.java:125-141 | the TCP table loads iff every row has an ID and no ID repeats; there is one empty abstract header per ID |
| TcHeaders.PcpcArgument | src/main/java/org/yamcs/scos2k/TcMibLoader.java:149-161 | PCPC_CODE, default `U`, must be `U` (unsigned) or `I` (signed), else `invalid PCPC_CODE`; the argument is an integer of its own name with no encoding yet and the row's description |
| TcHeaders.LoadPcpc | src/main/java/org/yamcs/scos2k/TcMibLoader.java:143-163 | the PCPC table loads iff every row reads and no name repeats; each name maps to its argument |
| TcHeaders.Pad | src/main/java/org/yamcs/scos2k/TcMibLoader.java:186-190 | a fixed value narrower than its size is widened to size/8+1 bytes |
| TcHeaders.PadRightAligned | src/main/java/org/yamcs/scos2k/TcMibLoader.java:186-190 | the widened value ends with the original bytes after leading zeros, now covers the size, and keeps its numeric value |
| TcHeaders.EncodedArg | src/main/java/org/yamcs/scos2k/TcMibLoader.java:202-217 | an argument without an encoding gets an integer encoding of the row's size, two's complement when signed; one with an encoding must have that size, else the load fails |
| TcHeaders.WithEntry | src/main/java/org/yamcs/scos2k/TcMibLoader.java:193 | an entry is appended to the header's container and nothing else changes |
| TcHeaders.WithRole | src/main/java/org/yamcs/scos2k/TcMibLoader.java:223-236 | type `A`, `T`, `S` or `K` makes the argument the header's APID, type, subtype or acknowledgement field respectively |
| TcHeaders.PutHeader | src/main/java/org/yamcs/scos2k/TcMibLoader.java:139-140 | storing a header updates its command and leaves telemetry alone |
| TcHeaders.AddFixed | src/main/java/org/yamcs/scos2k/TcMibLoader.java:191-193 | a fixed entry from the container start is appended to one header, other headers unchanged |
| TcHeaders.ArgHeader | src/main/java/org/yamcs/scos2k/TcMibLoader.java:218-221 | the argument is appended to the header's arguments and an argument entry at the row's bit from the container start to its container |
| TcHeaders.AddArgument | src/main/java/org/yamcs/scos2k/TcMibLoader.java:217-236 | the argument with its encoding is stored for later rows and appended to one header, other headers unchanged |
| TcHeaders.PcdfFixed | src/main/java/org/yamcs/scos2k/TcMibLoader.java:183-193 | an `F` row loads iff its VALUE column is there, the value decodes and BIT parses; it appends to its header exactly the fixed entry of the row's description and value, right-aligned in zeros when the length is wider, at BIT from the container start, and leaves the stored arguments alone |
| TcHeaders.FixedBytes | src/main/java/org/yamcs/scos2k/TcMibLoader.java:186-190 | a value narrower than the length becomes (length >> 3) + 1 bytes ending with it after zeros; a value at least as wide is kept |
| TcHeaders.PcdfPadding | src/main/java/org/yamcs/scos2k/TcMibLoader.java:237-241 | a `P` row whose byte count (length >> 3) + 1 is negative aborts with that count; otherwise it loads iff BIT parses and appends exactly one entry of that many zero bytes, named by PNAME, at BIT from the container start; the stored arguments are unchanged |
| TcHeaders.PcdfArgument | src/main/java/org/yamcs/scos2k/TcMibLoader.java:194-236 | an argument row loads iff PNAME names a PCPC argument that takes the row's length and BIT parses; an unknown name fails with the `without a corresponding pcpc record` message; the header becomes its old self with the encoded argument, its entry at BIT and its role, and the encoded argument is stored for later rows |
| TcHeaders.PcdfRow | src/main/java/org/yamcs/scos2k/TcMibLoader.java:170-244 | a row that loads has its four mandatory columns and names an existing header; that header's container ends with its old entries followed by the entry read from the row, and no other header changes |
| TcHeaders.PcdfTyped | src/main/java/org/yamcs/scos2k/TcMibLoader.java:182-244 | the row type selects the step: `F` a fixed value, any part of `ATSK` an argument, `P` padding; any other type fails with `Invalid PCDF_TYPE`; a step that loads appends the row's entry |
| TcHeaders.PcdfRowDispatch | src/main/java/org/yamcs/scos2k/TcMibLoader.java:171-178 | a row of a known header with its columns fails on a length that does not parse and otherwise takes the step of its type |
| TcHeaders.PaddingEntry | src/main/java/org/yamcs/scos2k/TcMibLoader.java:237-241 | the entry read from a `P` row is the zero-filled entry the padding step appends |
| TcHeaders.PcdfUnknownHeader | src/main/java/org/yamcs/scos2k/TcMibLoader.java:173-177 | a row for an unknown header fails with the `without a corresponding tcp record` message |
| TcHeaders.GainsArgument | src/main/java/org/yamcs/scos2k/TcMibLoader.java:218 | a header keeps the arguments it had |
| TcHeaders.FixedRowValid | src/main/java/org/yamcs/scos2k/TcMibLoader.java:191-193 | a fixed entry keeps the header state consistent |
| TcHeaders.ArgRowRoles | src/main/java/org/yamcs/scos2k/TcMibLoader.java:223-236 | after an argument row every role of every header names one of its arguments |
| TcHeaders.ArgRowPlaced | src/main/java/org/yamcs/scos2k/TcMibLoader.java:217-218 | after an argument row every header argument is the stored, encoded argument of its name |
| TcHeaders.ArgRowFromStart | src/main/java/org/yamcs/scos2k/TcMibLoader.java:220-221 | after an argument row every header entry is placed from the container start |
| TcHeaders.LoadPcdfUpTo | src/main/java/org/yamcs/scos2k/TcMibLoader.java:170-245 | the rows read so far keep the header state consistent, the headers and argument names, and each header's container is its old entries followed by the entries of the rows naming it, in row order |
| TcHeaders.PcdfStep | src/main/java/org/yamcs/scos2k/TcMibLoader.java:170-245 | one more row, which appends its entry to the header it names, extends that header's row-ordered entries and keeps the others |
| TcHeaders.LoadPcdf | src/main/java/org/yamcs/scos2k/TcMibLoader.java:167-246 | the PCDF pass keeps the headers and header arguments, and each header ends with its old entries followed by the entry of every row naming it, in file order |
| TcHeaders.LoadHeaders | src/main/java/org/yamcs/scos2k/TcMibLoader.java:94-95 | TCP, PCPC then PCDF give a consistent header state whose headers are the TCP IDs, whose arguments are the PCPC names, and each header's container holds exactly the entries of the PCDF rows naming it, in file order |
| TcHeaders.FreshHeadersEntries | src/main/java/org/yamcs/scos2k/TcMibLoader.java:134-138 | headers that start with empty containers end with exactly their PCDF entries |
| TcCommands.CcategType | src/main/java/org/yamcs/scos2k/TcMibLoader.java:474-502 | a C argument needs a known CCA curve; its encoding is the PTC/PFC encoding with the spline calibrator, and it is a float, a signed or an unsigned integer iff the curve's engineering format is R, I or U |
| TcCommands.TcategType | src/main/java/org/yamcs/scos2k/TcMibLoader.java:555-589 | a T argument needs a PAF reference; an integer encoding gives an enumeration of the PAF values, a float encoding one of its ranges |
| TcCommands.PacketArgumentType | src/main/java/org/yamcs/scos2k/TcMibLoader.java:536-548 | a PTC 12 argument exists iff PFC is 0 or 1; it is an aggregate of the packet header members whose unsigned types are registered |
| TcCommands.NcategType | src/main/java/org/yamcs/scos2k/TcMibLoader.java:534-553 | an N argument is the PTC 12 aggregate or, otherwise, the data type of its encoding named `arg_<name>` |
| TcCommands.ParameterIds | src/main/java/org/yamcs/scos2k/TcMibLoader.java:514-518 | the parameter id enumeration has at most one value per parameter |
| TcCommands.ParameterIdsExact | src/main/java/org/yamcs/scos2k/TcMibLoader.java:514-518 | a value is in the enumeration iff it is the PID and name of a parameter whose PID is not -1 |
| TcCommands.ParameterIdType | src/main/java/org/yamcs/scos2k/TcMibLoader.java:504-523 | a P argument needs PTC 3; the type per PFC is built once, named `parameter_id_<pfc>`, enumerating parameter ids, and reused afterwards |
| TcCommands.AcategType | src/main/java/org/yamcs/scos2k/TcMibLoader.java:525-532 | an A argument is binary with the PTC/PFC encoding, and exists iff that encoding does |
| TcCommands.CategoryType | src/main/java/org/yamcs/scos2k/TcMibLoader.java:450-466 | the category selects the type builder; C without a CCA reference and an unknown category abort |
| TcCommands.CreateArgument | src/main/java/org/yamcs/scos2k/TcMibLoader.java:445-472 | the argument is named after the CPC record, its type is the category's, and it gains the CPC unit unless PTC is 12 |
| TcCommands.ParameterIdUnitsAccumulate | src/main/java/org/yamcs/scos2k/TcMibLoader.java:467-468 | two P arguments with the same PFC share one type builder, so the second gains the first's units too |
| TcCommands.FreshIndex | src/main/java/org/yamcs/scos2k/TcMibLoader.java:416-419 | the index chosen is the first from where the suffixed name is free |
| TcCommands.FreshName | src/main/java/org/yamcs/scos2k/TcMibLoader.java:414-421 | a name already used by an argument gets the first free `_<i>` suffix, any other is kept, and the result is never already used |
| TcCommands.AppendFresh | src/main/java/org/yamcs/scos2k/TcMibLoader.java:422 | appending an argument with a fresh name keeps argument names distinct |
| TcCommands.FixedAreaBytes | src/main/java/org/yamcs/scos2k/TcMibLoader.java:403-409 | a fixed area needs a value; the hexadecimal bytes are right-aligned in zeros when the length is wider, covering the length and keeping their numeric value |
| TcCommands.AddElement | src/main/java/org/yamcs/scos2k/TcMibLoader.java:400-441 | `A` adds a fixed value, `E` a freshly named argument of the command, `F` a freshly named argument of the abstract parent plus an assignment of its value; any other element type aborts; each adds one entry following the previous one |
| TcCommands.AddElements | src/main/java/org/yamcs/scos2k/TcMibLoader.java:400-442 | the elements are laid out in order after the existing entries, keeping the command's shell |
| TcCommands.Elements | src/main/java/org/yamcs/scos2k/TcMibLoader.java:391-398 | a command's elements are its CDF rows sorted by bit position, none when it has none |
| TcCommands.AddArguments | src/main/java/org/yamcs/scos2k/TcMibLoader.java:389-443 | the command's container holds one entry per element in position order |
| TcCommands.FindContainerFrom | src/main/java/org/yamcs/scos2k/TcMibLoader.java:344-373 | the container found is the first in insertion order restricted on both the service type and subtype |
| TcCommands.FindContainer | src/main/java/org/yamcs/scos2k/TcMibLoader.java:344-373 | a container is found iff some container is restricted on the service type and subtype, and it is the first such |
| TcCommands.FindsCreatedSubcontainer | src/main/java/org/yamcs/scos2k/TcMibLoader.java:328 | a container created for a type and subtype is then found for them |
| TcCommands.LoadCdfOk | src/main/java/org/yamcs/scos2k/TcMibLoader.java:663-671 | every loaded element refers to a CPC record unless it is a fixed area |
| TcCommands.NewBuilding | src/main/java/org/yamcs/scos2k/TcMibLoader.java:287-303 | a new command has the row's name and container, no entries, and an abstract parent iff it has read-only arguments |
| TcCommands.RoleAssignment | src/main/java/org/yamcs/scos2k/TcMibLoader.java:309-324 | a header role present assigns the column's int value, one absent assigns nothing |
| TcCommands.HeaderAssignments | src/main/java/org/yamcs/scos2k/TcMibLoader.java:306-325 | a header assigns at most four fields; type and subtype are read from CCF when the header has them, -1 otherwise |
| TcCommands.WithHeader | src/main/java/org/yamcs/scos2k/TcMibLoader.java:306-308 | the command or its abstract parent is based on the header command and its container on the header container, gaining the header assignments |
| TcCommands.Pus17Verifiers | src/main/java/org/yamcs/scos2k/TcMibLoader.java:326-335 | a (17, 1) command gets the `PUS17_Report` verifier on the first (17, 2) container when there is one, no verifier otherwise |
| TcCommands.BuildCommand | src/main/java/org/yamcs/scos2k/TcMibLoader.java:280-336 | an unknown packet id other than `NOHEADER` aborts; the command has the row's name, an abstract parent iff it has read-only arguments, and its elements laid out in position order |
| TcCommands.BuildCommandShell | src/main/java/org/yamcs/scos2k/TcMibLoader.java:290-301 | the command's descriptions come from CCF, its significance is critical iff CRITICAL is `Y`, and a read-only command is based on the abstract `<name>_abstract` |
| TcCommands.BuildCommandHeader | src/main/java/org/yamcs/scos2k/TcMibLoader.java:306-325 | with a header, the command (or its parent) is based on it and carries its assignments; with `NOHEADER` it has no base |
| TcCommands.BuildCommandPus17 | src/main/java/org/yamcs/scos2k/TcMibLoader.java:326-335 | a command has a verifier iff its header has type and subtype fields, CCF gives (17, 1) and a (17, 2) container exists |
| TcCommands.Register | src/main/java/org/yamcs/scos2k/TcMibLoader.java:337-340 | the command and its abstract parent are added, telemetry unchanged |
| TcCommands.CcfCommand | src/main/java/org/yamcs/scos2k/TcMibLoader.java:274-341 | a CCF command row succeeds iff the command builds; the names added are the command's and, when it has read-only arguments, its abstract parent's, each holding what was built, and every other command is unchanged |
| TcCommands.RegisterNames | src/main/java/org/yamcs/scos2k/TcMibLoader.java:337-340 | registering a built command adds exactly its name and, with read-only arguments, the abstract parent's name, each holding the built command or parent, and changes no other command |
| TcCommands.CcfRow | src/main/java/org/yamcs/scos2k/TcMibLoader.java:275-279 | a `BINCMD` row changes nothing; any other is the command step of its row |
| TcCommands.CcfRowStep | src/main/java/org/yamcs/scos2k/TcMibLoader.java:274-341 | a loaded CCF row adds exactly the names its row registers and keeps every other command; unless it is `BINCMD` it holds what its row built |
| TcCommands.StatesLoaded | src/main/java/org/yamcs/scos2k/TcMibLoader.java:274-341 | along the states of the rows, the commands after n rows are those before and those the n rows register, and a name no row registers keeps its command |
| TcCommands.StatesLast | src/main/java/org/yamcs/scos2k/TcMibLoader.java:274-341 | the command a row registers under a name stays there until a later row registers that name |
| TcCcf.CcfStatesUpTo | src/main/java/org/yamcs/scos2k/TcMibLoader.java:274-341 | the states before and after each of the first n rows: each row adds what it registers and keeps the rest, and each row that is not `BINCMD` built its command in the state before it |
| TcCcf.LoadCcf | src/main/java/org/yamcs/scos2k/TcMibLoader.java:271-342 | the CCF pass succeeds iff every row loads in file order; the commands are the earlier ones and those the rows register; under each registered name is the command, or abstract parent, that the last row registering that name built; a name no row registers keeps its command |
| TcCcf.CcfLastRows | src/main/java/org/yamcs/scos2k/TcMibLoader.java:274-341 | along the states of all the rows, the last row registering a name decides the command under it |
| TcVerification.Criteria | src/main/java/org/yamcs/scos2k/TcMibLoader.java:850-859 | one comparison is used as it is and several become a list, keeping every comparison in order |
| TcVerification.PtvRow | src/main/java/org/yamcs/scos2k/TcMibLoader.java:827-844 | a PTV row needs its mandatory columns, a known command (`Invalid command PTV_CNAME`) and a known parameter (`Reference to invalid parameter`); it compares the parameter, raw unless INTER is `E`, for equality with the value |
| TcVerification.Constrained | src/main/java/org/yamcs/scos2k/TcMibLoader.java:860 | a constraint is appended and the command is otherwise unchanged |
| TcVerification.AttachConstraints | src/main/java/org/yamcs/scos2k/TcMibLoader.java:847-861 | every constrained command gets its list as one constraint, other commands and telemetry unchanged |
| TcVerification.PtvKeysKnown | src/main/java/org/yamcs/scos2k/TcMibLoader.java:830-832 | every command with PTV rows exists |
| TcVerification.LoadPtv | src/main/java/org/yamcs/scos2k/TcMibLoader.java:823-862 | the PTV pass succeeds iff every row is accepted; each command with rows gains one constraint over them in row order, others are unchanged |
| TcVerification.ToleranceAllowed | src/main/java/org/yamcs/scos2k/TcMibLoader.java:903-915 | a tolerance needs a numeric engineering type for an engineering check and a numeric raw encoding for a raw one, with the two error messages; an aggregate raw type is a class cast |
| TcVerification.ToleranceCriteria | src/main/java/org/yamcs/scos2k/TcMibLoader.java:916-930 | the tolerance must parse as a double and, when not zero, so must the value; every comparison is on the row's parameter with its interpretation |
| TcVerification.CveRow | src/main/java/org/yamcs/scos2k/TcMibLoader.java:876-933 | a CVE row of an unknown parameter aborts; a status consistency check or a command parameter check is skipped; otherwise its criteria refer to the parameter, and without a tolerance it is one equality with the value |
| TcVerification.CveToleranceRange | src/main/java/org/yamcs/scos2k/TcMibLoader.java:917-925 | with a tolerance, a value matches iff it lies between value minus and value plus tolerance, so a negative tolerance matches nothing |
| TcVerification.LoadCve | src/main/java/org/yamcs/scos2k/TcMibLoader.java:872-935 | the CVE pass succeeds iff every row reads; a CVS id has criteria iff some row not skipped names it, and they are those rows in order |
| TcVerification.CveIds | src/main/java/org/yamcs/scos2k/TcMibLoader.java:931-932 | the grouped ids are exactly the ids of rows not skipped |
| TcVerification.StageName | src/main/java/org/yamcs/scos2k/TcMibLoader.java:964-969 | `A`, `S` and `C` give Acceptance, Start and Completion, every other type `Progress_<type>` |
| TcVerification.StageNameInjective | src/main/java/org/yamcs/scos2k/TcMibLoader.java:964-969 | different verification types give different stage names |
| TcVerification.StageCode | src/main/java/org/yamcs/scos2k/TcMibLoader.java:1003-1008 | the PUS 1 stage code is 1, 3, 5 or 7 |
| TcVerification.StageCodes | src/main/java/org/yamcs/scos2k/TcMibLoader.java:1003-1008 | Acceptance is 1, Start 3, Completion 7 and every progress stage 5 |
| TcVerification.Window | src/main/java/org/yamcs/scos2k/TcMibLoader.java:960-962 | the window runs from start seconds to start plus interval plus the positive part of the uncertainty, in milliseconds, each computed in 32-bit int arithmetic |
| TcVerification.WindowExact | src/main/java/org/yamcs/scos2k/TcMibLoader.java:960-962 | without overflow the window is exactly those milliseconds, and it is not reversed for a non-negative interval |
| TcVerification.AlgoInputs | src/main/java/org/yamcs/scos2k/TcMibLoader.java:1049-1058 | the algorithm inputs exist iff every parameter does, each input naming its parameter; the first missing one is reported |
| TcVerification.PusAlgorithmWith | src/main/java/org/yamcs/scos2k/TcMibLoader.java:990-1012 | the PUS verifier algorithm is named `PUS_Verifier-<stage>`, is Java text calling `Pus1Verifier` with the stage code, and has the four PUS inputs |
| TcVerification.PusAlgorithmAsWritten | src/main/java/org/yamcs/scos2k/TcMibLoader.java:996-1001 | as written, the first two inputs are both named `sentApid` and no input is named `sentSeq` |
| TcVerification.PusAlgorithm | src/main/java/org/yamcs/scos2k/TcMibLoader.java:996-1001 | corrected, the four input names are distinct and the sequence count input is `sentSeq` |
| TcVerification.CreatePusVerifier | src/main/java/org/yamcs/scos2k/TcMibLoader.java:990-1016 | an algorithm verifier for the stage is made; the stage's algorithm is created once, with the PUS inputs named as lines 996-1001 write them, and reused afterwards |
| TcVerification.CvsRow | src/main/java/org/yamcs/scos2k/TcMibLoader.java:951-985 | a CVS row needs its mandatory int columns and gives its id with exactly the verifier read from the row: `R` the PUS algorithm verifier of its stage, `V` a parameter verifier of the CVS type when CVE rows exist for the id, the window from the row; any other source aborts |
| TcVerification.LoadCvsUpTo | src/main/java/org/yamcs/scos2k/TcMibLoader.java:951-986 | the pairs of the first n rows are, in order, each row's id with the verifier read from that row, each resolved; only algorithms are added |
| TcVerification.CvsPairsStep | src/main/java/org/yamcs/scos2k/TcMibLoader.java:952-985 | the pair of one more row extends the pairs of the rows before, and the algorithms it adds keep them resolved |
| TcVerification.LoadCvs | src/main/java/org/yamcs/scos2k/TcMibLoader.java:946-988 | the verifiers are keyed exactly by the CVS ids; each is resolved and is the verifier read from the last row of its id; telemetry and commands are unchanged |
| TcVerification.CvsMap | src/main/java/org/yamcs/scos2k/TcMibLoader.java:985 | keyed by id, the map of the row pairs covers exactly the ids read, each resolved, and holds under each id the verifier of its last row |
| TcVerification.CvsMapLast | src/main/java/org/yamcs/scos2k/TcMibLoader.java:985 | the last pair of an id is the verifier of the last row of that id |
| TcVerification.CvpRow | src/main/java/org/yamcs/scos2k/TcMibLoader.java:1028-1045 | a CVP row of another type than `C` is skipped; a command profile needs a known command (`unknown command CVP_TASK`); the command gains the verifier when its id is known, and nothing when it is not |
| TcVerification.ProfiledStep | src/main/java/org/yamcs/scos2k/TcMibLoader.java:1027-1046 | each profile row adds its verifier to its command |
| TcVerification.LoadCvpUpTo | src/main/java/org/yamcs/scos2k/TcMibLoader.java:1027-1046 | the CVP rows succeed iff each is accepted, and every command gains the verifiers of its rows in order |
| TcVerification.LoadCvp | src/main/java/org/yamcs/scos2k/TcMibLoader.java:1023-1047 | CVE, CVS then CVP: commands gain the verifiers of their profile rows; telemetry and command names are unchanged and algorithms only added |
| TcMibLoader.RegistersKept | src/main/java/org/yamcs/scos2k/TcMibLoader.java:93-103 | the headers and commands registered stay registered through any later stage that keeps command names |
| TcMibLoader.LoadInputs | src/main/java/org/yamcs/scos2k/TcMibLoader.java:96-97 | the numeric (CCA/CCS) then the textual (PAF/PAS) de-calibrations are read, the first failure aborting; on success the inputs hold both results and the telemetry parameters given |
| TcMibLoader.BuildCommands | src/main/java/org/yamcs/scos2k/TcMibLoader.java:94-100 | headers, calibrations, CPC, CDF then CCF leave a well-formed model in which every TCP header and every CCF command other than `BINCMD` is a command |
| TcMibLoader.CcfCommands | src/main/java/org/yamcs/scos2k/TcMibLoader.java:100 | the CCF step on loaded headers keeps the model well-formed, keeps every TCP header a command and adds every CCF command other than `BINCMD` |
| TcMibLoader.RegistersHeaders | src/main/java/org/yamcs/scos2k/TcMibLoader.java:139 | every TCP header is a command once the header commands are registered |
| TcMibLoader.LoadCommands | src/main/java/org/yamcs/scos2k/TcMibLoader.java:93-103 | the whole command pass registers every header and CCF command and leaves telemetry as the build left it, after constraints and verifiers |
| OlParser.AddVariable | src/main/java/org/yamcs/scos2k/ol/BaseOLParser.java:129-140 | a new local variable gets its type; a boolean one cannot take another type; a long one assigned a double becomes double; any other existing type is kept |
| OlParser.AddVariableWidens | src/main/java/org/yamcs/scos2k/ol/BaseOLParser.java:129-140 | declaring a variable only ever widens its own type from long to double, and touches no other variable, input or no-trigger parameter |
| OlParser.AddVariableIdempotent | src/main/java/org/yamcs/scos2k/ol/BaseOLParser.java:129-140 | declaring the same variable with the same type twice is the same as once |
| OlParser.AddInputParam | src/main/java/org/yamcs/scos2k/ol/BaseOLParser.java:232-236 | an input parameter is appended unless already listed |
| OlParser.AddInputParamsSnoc | src/main/java/org/yamcs/scos2k/ol/BaseOLParser.java:232-236 | adding a list of inputs one at a time is adding its prefix then its last element |
| OlParser.AddInputParamsIsDedup | src/main/java/org/yamcs/scos2k/ol/BaseOLParser.java:215-236 | adding inputs one at a time yields the earlier inputs followed by the new names, first occurrences only |
| OlParser.SplitReference | src/main/java/org/yamcs/scos2k/ol/BaseOLParser.java:152-161 | an identifier with a dot after its first character splits there into parameter and property; any other refers to the engineering value |
| OlParser.PropertyCode | src/main/java/org/yamcs/scos2k/ol/BaseOLParser.java:171-203 | `eng` is a long, double or boolean for an integer, float or boolean type and unsupported otherwise; `raw` goes by the encoding likewise, and is a class cast for an aggregate; `time` is the on-board time as a double; any other property fails |
| OlParser.GetIdentifierCode | src/main/java/org/yamcs/scos2k/ol/BaseOLParser.java:142-205 | a `VAR` identifier must be an initialised local and has its type; a `GVAR` one is a double global; otherwise a `$` prefix marks the parameter as not triggering, an unknown parameter fails, and a known one becomes an input parameter |
| OlParser.GetSynthExpression | src/main/java/org/yamcs/scos2k/ol/BaseOLParser.java:215-230 | a synthetic expression is a boolean call of `OLFunction.synth` over the parameters joined by commas, all of which become inputs |
| OlParser.SynthInputs | src/main/java/org/yamcs/scos2k/ol/BaseOLParser.java:215-236 | the inputs stay distinct, keep their order, and gain exactly the synthetic's parameters |
| OlParser.InputBindings | src/main/java/org/yamcs/scos2k/ol/BaseOLParser.java:103-106 | the i-th input parameter is read from the i-th input value |
| OlParser.BindingsUnique | src/main/java/org/yamcs/scos2k/ol/BaseOLParser.java:103-106 | with distinct inputs, each parameter is bound to exactly one index, its own |
| OlParser.GetReturnCode | src/main/java/org/yamcs/scos2k/ol/BaseOLParser.java:117-128 | a boolean result into a numeric encoding is converted with `bool2int`, a double into an integer encoding is cast to long, and anything else is returned as it is |
| OlFunction.GetJavaFunctionName | src/main/java/org/yamcs/scos2k/ol/OLFunction.java:10-26 | two-argument `arctan` is `Math.atan2`; otherwise exactly the eight trigonometric OL names have a Java function, the one in the table |
| OlFunction.ArccotanAsCotan | src/main/java/org/yamcs/scos2k/ol/OLFunction.java:18-19 | `arccotan` maps to the same Java function as `cotan` |
| OlFunction.Bool2Int | src/main/java/org/yamcs/scos2k/ol/OLFunction.java:44-46 | a boolean becomes 1 iff it is true, and 0 otherwise |
| OlFunction.Synth | src/main/java/org/yamcs/scos2k/ol/OLFunction.java:36-38 | a synthetic check is always false |
| GlobalVariables.Set | src/main/java/org/yamcs/scos2k/ol/GlobalVariables.java:16-18 | setting a global gives it the value and keeps every other name |
| GlobalVariables.Get | src/main/java/org/yamcs/scos2k/ol/GlobalVariables.java:19-26 | an unset global reads as 0, a set one as its value |
| GlobalVariables.SetGet | src/main/java/org/yamcs/scos2k/ol/GlobalVariables.java:16-26 | a global reads back what was set, other globals are unaffected, and a later set overrides an earlier one |
| OlOperation.OlType.Ordinal | src/main/java/org/yamcs/scos2k/ol/Type.java:3-10 | each OL type has an ordinal below five |
| OlOperation.KeyValue | src/main/java/org/yamcs/scos2k/ol/Operation.java:84-86 | the table key of two types is the first ordinal shifted 16 bits left or-ed with the second |
| OlOperation.KeyInjective | src/main/java/org/yamcs/scos2k/ol/Operation.java:84-86 | different type pairs have different keys |
| OlOperation.GetTypeResultCharacterised | src/main/java/org/yamcs/scos2k/ol/Operation.java:7-22 | the result type does not depend on operand order; arithmetic on two longs is long and on a double with a number or boolean double; comparison needs two numbers or two booleans; shifts and bitwise operations need two longs |
| OlOperation.Promote | src/main/java/org/yamcs/scos2k/ol/Operation.java:99-111 | a boolean operand is promoted with `bool2int`; others are unchanged |
| OlOperation.GetCode | src/main/java/org/yamcs/scos2k/ol/Operation.java:51-119 | power is always a double `Math.pow` call; arithmetic promotes booleans and fails only on strings or enumerations; comparisons and shifts need their operand types; the code is the operands around the operator |
| OlOperation.Combine | src/main/java/org/yamcs/scos2k/ol/Operation.java:67-73 | without a second operand the first is the result; otherwise the operation's code |
| OlOperation.GetCodeTypeSymmetric | src/main/java/org/yamcs/scos2k/ol/Operation.java:75-82 | swapping the operands neither changes whether an operation is accepted nor its result type |
| MibLoader.VdfRow | src/main/java/org/yamcs/scos2k/MibLoader.java:42 | a VDF row needs its NAME column |
| MibLoader.LoadVdf | src/main/java/org/yamcs/scos2k/MibLoader.java:37-58 | an empty VDF table fails with `No record present into the VDF table`; otherwise an empty space system of the configured name whose version is `<release>.<issue>` (0 when empty) and whose description is the comment, both from the last row |
| MibLoader.LoadVdfLastRowOnly | src/main/java/org/yamcs/scos2k/MibLoader.java:43-57 | only the last VDF row matters |
| MibLoader.VersionRoundTrip | src/main/java/org/yamcs/scos2k/MibLoader.java:53 | release and issue are read back from the version by splitting at its dot |
| MibLoader.ParameterList | src/main/java/org/yamcs/scos2k/TmMibLoader.java:120-125 | the telemetry parameters are handed on in loading order |
| MibLoader.Load | src/main/java/org/yamcs/scos2k/MibLoader.java:23-29 | VDF, telemetry then commands: a VDF error is the load's error, and a successful load is well formed with every TCP header and CCF command registered |
| MibDisplayLoader.QualifiedPrefix | src/main/java/org/yamcs/scos2k/MibDisplayLoader.java:50-52 | the qualified name gets a trailing slash unless it already ends with one |
| MibDisplayLoader.Plist | src/main/java/org/yamcs/scos2k/MibDisplayLoader.java:243-247 | a display's parameter list has at most one entry per slot |
| MibDisplayLoader.PlistSlots | src/main/java/org/yamcs/scos2k/MibDisplayLoader.java:243-247 | the list holds exactly the parameters of the filled slots |
| MibDisplayLoader.PlistAppend | src/main/java/org/yamcs/scos2k/MibDisplayLoader.java:243-247 | the list of a concatenation of slots is the concatenation of their lists |
| MibDisplayLoader.EmptySlots | src/main/java/org/yamcs/scos2k/MibDisplayLoader.java:202 | a new display has the given number of empty slots |
| MibDisplayLoader.PlistEmpty | src/main/java/org/yamcs/scos2k/MibDisplayLoader.java:202 | a new display lists no parameter |
| MibDisplayLoader.DpfSlots | src/main/java/org/yamcs/scos2k/MibDisplayLoader.java:192-200 | display type 1 has 32 slots, type 3 has 64, any other type is not a display |
| MibDisplayLoader.DpfRow | src/main/java/org/yamcs/scos2k/MibDisplayLoader.java:186-202 | a DPF row of at least three columns and type 1 or 3 gives a display of its name and heading with empty slots; any other row is ignored |
| MibDisplayLoader.DpfStep | src/main/java/org/yamcs/scos2k/MibDisplayLoader.java:185-203 | each DPF row read keeps the map of the last valid row per display name |
| MibDisplayLoader.ReadDpfUpTo | src/main/java/org/yamcs/scos2k/MibDisplayLoader.java:185-203 | after the rows read so far, each display is the last valid row of its name |
| MibDisplayLoader.ReadDpf | src/main/java/org/yamcs/scos2k/MibDisplayLoader.java:179-206 | every valid DPF row's name is a display, and each display is the last valid row of its name |
| MibDisplayLoader.ReadDpfEmpty | src/main/java/org/yamcs/scos2k/MibDisplayLoader.java:202 | a display read from DPF has 32 or 64 slots and lists no parameter |
| MibDisplayLoader.DpcRow | src/main/java/org/yamcs/scos2k/MibDisplayLoader.java:146-173 | a DPC row shorter than three columns, with a blank parameter or an unknown display is ignored; a field number that does not parse or is out of the slots fails; otherwise the slot gets the qualified parameter name |
| MibDisplayLoader.ReadDpcUpTo | src/main/java/org/yamcs/scos2k/MibDisplayLoader.java:146-174 | the DPC rows read so far succeed iff each is valid, and every slot holds the last parameter assigned to it |
| MibDisplayLoader.ReadDpc | src/main/java/org/yamcs/scos2k/MibDisplayLoader.java:140-177 | the displays after DPC keep their shape and each slot holds the last qualified parameter assigned to it, or stays empty |
| MibDisplayLoader.SlotAfterNamed | src/main/java/org/yamcs/scos2k/MibDisplayLoader.java:172 | a filled slot names the parameter of the last DPC row assigning it |
| MibDisplayLoader.ReconcileUpTo | src/main/java/org/yamcs/scos2k/MibDisplayLoader.java:103-123 | each stored list so far is decided against the display it claims, and the displays left are those no stored list names |
| MibDisplayLoader.Reconcile | src/main/java/org/yamcs/scos2k/MibDisplayLoader.java:103-125 | every stored list is kept, updated or deleted against the display it claims, and the displays no stored list names are left to insert |
| MibDisplayLoader.Inserted | src/main/java/org/yamcs/scos2k/MibDisplayLoader.java:125-130 | an inserted list has the display's name, description and parameter list |
| MibDisplayLoader.ReconcileSynced | src/main/java/org/yamcs/scos2k/MibDisplayLoader.java:103-130 | a list kept or updated matches its display, two such lists never share a name, and every display ends up stored or inserted |
| MibDisplayLoader.ReconcileMinimal | src/main/java/org/yamcs/scos2k/MibDisplayLoader.java:106-118 | a list is kept only when it already matches its display, updated only when it differs, and deleted iff it claims no display |
| MibDisplayLoader.LoadDisplays | src/main/java/org/yamcs/scos2k/MibDisplayLoader.java:83-138 | the display load fails iff reading the tables does, and otherwise reconciles the stored lists with the displays read; every display left to insert is in DPF |

## Left out

- File I/O: opening `<path>/<name>.dat`, the line reader and the display loader's own `nextLine`. Tables arrive as rows of columns, each with its physical line number. The display tables follow the same convention as `BaseMibLoader.ReadTable`, where a first line starting with `#` is a header.
- Strict mode: `strict` is false by default and never set by the loaders shown, so `error()` only accumulates messages.
- XTCE host objects and their builders: the `Mdb` datatypes stand in for them. The host's duplicate-name checks are not modelled, so adding an object under an existing name replaces it.
- `HashMap` iteration order: wherever the code iterates a hash map, the model uses first-appearance order. The order in which lists and containers are inserted is therefore a choice of the model.
- Floating point: `Double.parseDouble` is modelled as an exact decimal parse into `real`. `Math.log` is a function parameter. Spline evaluation and IEEE rounding, infinity and NaN are not modelled. An absent (NaN) limit is `None`.
- LogCalibration.Calibrate: a zero denominator gives the host's infinity; the model returns `None` there.
- `StringConverter.hexStringToArray` is a host routine; the command loader takes it as a function parameter.
- `TmMibLoader.loadSynthetic`: it compiles generated Java with janino and reads files. Only the OL translation it relies on is modelled. The JavaCC grammar behind `OLParser.parse` is not shown, so `parse`, and the code generation that follows it, are not part of this model; the modelled parser works on the identifiers and operations that `parse` hands over.
- `OLExecutor`, `OLExecutorFactory`, `OLAlgorithmEngine`, `OLEvaluator` and `Scos2kPlugin`: runtime and registration plumbing with no loading decisions.
- `TimeDecoder.extractRaw`: it depends on the host's `CucTimeDecoder` and `BitBuffer`.
- The display loader's service lifecycle, its background thread, UUID generation, logging, `printStackTrace` and the yarch/plist database calls: the model computes which stored lists are kept, updated, deleted or inserted, and leaves the database writes out.
- `MibLoaderBits.integerArgumentTypes`: this static cache returns one type per bit size. The model builds that type again at each use, which gives the same value, so the cache is not modelled.
- The duplicate record classes and `ParameterTypeCache` in MibLoaderBits.java, which `MonitoringData`, `CommandingData` and `MibParameter` supersede, are not part of this model. So are the 3-argument `MibLoaderContext` constructor and `timeEpoch`.
- `createLevel1Subcontainer` is not part of this model. `TmPackets.Level1` takes it to be `MibLoaderBits.CreateSubcontainer`, and drops the `pus1DataOffset` argument it is called with (src/main/java/org/yamcs/scos2k/TmMibLoader.java:1074 and :1082).
- `getUnsignedParameterType` is not part of this model. `TmPackets.AddDiscriminator` takes it to be `getIntegerParameterType` with that routine's 1..64 width check (src/main/java/org/yamcs/scos2k/MibLoaderBits.java:811-813), so a 0-bit second discriminator aborts the load with that routine's message.
- `PARA_NAME_SEQCOUNT` and `PARA_NAME_PUS1_*` are not part of this model. Their values are the fields of `TcVerification.PusParameters`, a parameter of the command loaders.
- Text parsing is ASCII-only. `Text.ParseInt` and `Text.ParseLong` accept ASCII digits only, while `Integer.parseInt` and `Long.parseLong` also accept other Unicode decimal digits. `Text.IsJavaWhitespace` (and so `Text.IsBlank`) covers the ASCII range only, while `Character.isWhitespace` also holds for U+1680, U+2000-U+2006, U+2008-U+200A, U+2028, U+2029, U+205F and U+3000. `Text.ParseReal` accepts plain decimals only, while `Double.parseDouble` also accepts surrounding blanks (`" 1.5"`, `"1.5 "`), the `f`/`d` suffixes (`"1.5f"`, `"2d"`), hexadecimal floats (`"0x1p3"`), `Infinity` and `NaN`. `BaseMibLoader.GetDouble`, `BaseMibLoader.GetDoubleFmt`, the OCF limits and `MibDisplayLoader.DpcRow` inherit these gaps: for such texts the model reports an error where the host would accept the value.
- TmParameters.Finish: the host's `setInitialValue` converts the PARVAL text to the type and throws `IllegalArgumentException` when it does not convert, which the loader turns into the abort "Cannot set default value for parameter '<name>': ..." (src/main/java/org/yamcs/scos2k/TmMibLoader.java:549-555). The model stores any PARVAL text as the initial value and does not model that abort.
- TmParameters.CreateParameterType: it does not abort on an unconvertible PARVAL, for the reason given for `TmParameters.Finish`; `TmParameters.LoadPcf` and `TmParameters.LoadTelemetryParams` inherit this.
- Command repeated groups: CDF_GRPSIZE is read but never used. The header-override flags and `tcoFineBytes` shifting are not implemented in the code either.
- `TcMibLoader.loadPrfPrv` is modelled as `TcTables.LoadPrfPrv`, but `loadCommands` never calls it, so the modelled command load does not use its range sets.
- The exception texts name host classes such as the encoding builder. The model prints a fixed class name in their place.
- The verification stages' uncertainty period is the Java field's default of 0, because the code never assigns it. A CVS stage of type "V" gets a container verifier with no criteria attached, as in the code.
- Alarm host behaviour: an alarm range set holds one range per level, later ones replacing earlier ones. `createOrGetAlarm` matches contexts by value equality. The raw branch of the OL identifier code for a boolean encoding is absent because the MIB never creates one.
- TcTables.DecalibCurves: it states only that each CCS row's point is among its curve's points. That each curve holds exactly its CCS points, in file order, is stated by `TcTables.LoadDecalib` and proved with `TcTables.SelectCurve`.
- TmLimits.LoadLimitsUpTo: its own contract states only the frame (alarms change, earlier errors kept); the row-by-row fold it computes is stated by `TmLimits.LoadLimitsIsFold`.
- TmEntries.LoadVpd: the entries each packet container ends with are stated only when the containers of the TPSDs' packets are separate: pairwise distinct, and none named `<another>_...`. When two packets share a container, the walk is appended once per packet and the model does not state the result.
- TmEntries.ApplyPids: the entries of its packets' containers are stated only when those containers are separate, for the reason given for `TmEntries.LoadVpd`.
- TmEntries.ApplyTpsds: the same condition as `TmEntries.ApplyPids`, over the packets of all the TPSDs it processes.
- Logging and the build documentation.

## Findings

In each row the load uses the as-written member's definition; the corrected member states and proves the evidently intended behaviour beside it.

| source | as written | input that shows it | evidently intended | confidence | as-written member | corrected member |
|---|---|---|---|---|---|---|
| src/main/java/org/yamcs/scos2k/TmMibLoader.java:1057-1059 | the APID is recovered from the packed key with an arithmetic `>> 16`, so the sign bit comes back | a PID row with APID 40000: the key is negative and the decode gives APID 40000 - 65536 | mask the APID to 16 bits, so the decode inverts the packing for every APID below 65536 | not executed | MonitoringData.DecodeAsWrittenHighApid | MonitoringData.DecodeKeyRoundTrip |
| src/main/java/org/yamcs/scos2k/TcMibLoader.java:996-1001 | the PUS verifier's input list names `sentApid` twice | any CVS stage verified by the PUS algorithm: its first two inputs are both `sentApid`, and the sequence count is missing | the second input is the sent sequence count, `sentSeq` | not executed | TcVerification.PusAlgorithmAsWritten | TcVerification.PusAlgorithm |
| src/main/java/org/yamcs/scos2k/TmMibLoader.java:1097-1109 | the second packet discriminator is guarded by the first discriminator's width | PIC (3, 25) with no first discriminator and an 8-bit second one loses the second; with an 8-bit first and a 0-bit second the load aborts | test the second discriminator's own width | not executed | TmPackets.Pi2WidthTestDiscrepancy | TmPackets.Pi2Step |
