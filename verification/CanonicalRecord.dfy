/** The canonical KPM record, its validator, and the 28 fields both serialisers print. */
module CanonicalRecord {
  import opened Bytes
  import Utf8

  // ---- the C struct ----

  const NODE_TYPE_CAPACITY: nat := 32
  const NODE_ID_CAPACITY: nat := 128
  const UE_ID_TYPE_CAPACITY: nat := 32
  const UE_ID_VALUE_CAPACITY: nat := 128
  const MEASUREMENT_NAME_CAPACITY: nat := 256
  const DIAGNOSTIC_CODE_CAPACITY: nat := 64
  const DIAGNOSTIC_MESSAGE_CAPACITY: nat := 256

  type Text32 = s: seq<byte> | |s| == 32 witness seq(32, _ => 0)
  type Text64 = s: seq<byte> | |s| == 64 witness seq(64, _ => 0)
  type Text128 = s: seq<byte> | |s| == 128 witness seq(128, _ => 0)
  type Text256 = s: seq<byte> | |s| == 256 witness seq(256, _ => 0)

  // A C enum variable can hold any int; Other stands for the values without a name.
  datatype RecordKind = Measurement | Diagnostic | OtherKind(raw: int)
  datatype Status =
    | StatusOk | StatusNoValue | LengthMismatch | InvalidInput
    | UnsupportedUeId | UnsupportedDescriptor | UnsupportedValueType | OtherStatus(raw: int)
  datatype DescriptorType = DescriptorUnknown | DescriptorName | DescriptorId | OtherDescriptor(raw: int)
  datatype ValueType = ValueUnknown | ValueInteger | ValueReal | ValueNoValue | OtherValue(raw: int)

  /** How many digits a run starts with. */
  function DigitRun(s: seq<byte>): (n: nat)
    ensures n <= |s| && AllDigits(s[..n])
    ensures n < |s| ==> !IsDigit(s[n])
  {
    if s == [] || !IsDigit(s[0]) then 0 else
      var n := 1 + DigitRun(s[1..]);
      assert s[..n] == [s[0]] + s[1..][..n - 1];
      n
  }

  predicate IsExponent(s: seq<byte>) {
    && |s| > 0 && (s[0] == 69 || s[0] == 101)
    && var t := s[1..];
       var digits := if t != [] && (t[0] == 43 || t[0] == 45) then t[1..] else t;
       digits != [] && AllDigits(digits)
  }

  /** What may follow the integer part of a JSON number. */
  predicate IsFractionExponent(s: seq<byte>) {
    if s != [] && s[0] == 46 then
      var n := DigitRun(s[1..]);
      n > 0 && (s[1 + n..] == [] || IsExponent(s[1 + n..]))
    else s == [] || IsExponent(s)
  }

  /** The number grammar of RFC 8259, section 6. */
  predicate IsJsonNumber(s: seq<byte>) {
    var u := if s != [] && s[0] == 45 then s[1..] else s;
    var n := DigitRun(u);
    && n > 0
    && (u[0] == 48 ==> n == 1)
    && IsFractionExponent(u[n..])
  }

  function ExponentValue(s: seq<byte>): int
    requires s == [] || IsExponent(s)
  {
    if s == [] then 0
    else if s[1] == 45 then -(DigitsValue(s[2..]) as int)
    else DigitsValue(if s[1] == 43 then s[2..] else s[1..])
  }

  /** The magnitude of a JSON number: its digits, and the power of ten they are multiplied with. */
  function Magnitude(s: seq<byte>): (nat, int)
    requires IsJsonNumber(s)
  {
    var u := if s[0] == 45 then s[1..] else s;
    var n := DigitRun(u);
    var rest := u[n..];
    if rest != [] && rest[0] == 46 then
      var k := DigitRun(rest[1..]);
      (DigitsValue(u[..n] + rest[1..][..k]), ExponentValue(rest[1 + k..]) - k)
    else (DigitsValue(u[..n]), ExponentValue(rest))
  }

  const TWO_POW_97: nat := 0x2_0000_0000_0000_0000_0000_0000

  /** 2^1024 - 2^970: from here on a magnitude rounds to infinity. */
  function DoubleLimit(): nat {
    var twoPow485 := TWO_POW_97 * TWO_POW_97 * TWO_POW_97 * TWO_POW_97 * TWO_POW_97;
    0x3F_FFFF_FFFF_FFFF * twoPow485 * twoPow485
  }

  /** A JSON number that is a finite double. */
  predicate IsFiniteNumber(s: seq<byte>) {
    && IsJsonNumber(s)
    && var (digits, exponent) := Magnitude(s);
       if exponent >= 0 then digits * Pow10(exponent) < DoubleLimit() else digits < DoubleLimit() * Pow10(-exponent)
  }

  // A finite double is identified with the text "%.17g" prints for it: seventeen significant
  // digits determine the double, and the text is a JSON number of at most 24 bytes.
  datatype RawDouble = Finite(text: seq<byte>) | NotFinite
  type Double = d: RawDouble | d.Finite? ==> IsFiniteNumber(d.text) && |d.text| <= 24 witness NotFinite

  datatype Record = Record(
    recordKind: RecordKind,
    indicationSequence: u64,
    receiveTimestampUs: u64,
    hasKpmHeaderTimestampUs: bool, kpmHeaderTimestampUs: u64,
    messageFormat: u32,
    hasNodeType: bool, nodeType: Text32,
    hasNodeId: bool, nodeId: Text128,
    hasUeReportIndex: bool, ueReportIndex: u32,
    ueIdType: Text32,
    hasUeIdValue: bool, ueIdValue: Text128,
    hasMeasDataIndex: bool, measDataIndex: u32,
    hasMeasInfoIndex: bool, measInfoIndex: u32,
    hasMeasRecordIndex: bool, measRecordIndex: u32,
    measDataLstLen: u32, measInfoLstLen: u32, measRecordLen: u32,
    incompleteFlagPresent: bool, incompleteFlag: bool,
    structuralStatus: Status,
    descriptorType: DescriptorType,
    hasMeasurementName: bool, measurementName: Text256,
    hasMeasurementId: bool, measurementId: u32,
    valueType: ValueType,
    hasIntegerValue: bool, integerValue: i64,
    hasRealValue: bool, realValue: Double,
    hasDiagnosticCode: bool, diagnosticCode: Text64,
    hasDiagnosticMessage: bool, diagnosticMessage: Text256)

  function KindName(k: RecordKind): Option<string> {
    match k
    case Measurement => Some("measurement")
    case Diagnostic => Some("diagnostic")
    case OtherKind(_) => None
  }

  function StatusName(s: Status): Option<string> {
    match s
    case StatusOk => Some("ok")
    case StatusNoValue => Some("no_value")
    case LengthMismatch => Some("length_mismatch")
    case InvalidInput => Some("invalid_input")
    case UnsupportedUeId => Some("unsupported_ue_id")
    case UnsupportedDescriptor => Some("unsupported_descriptor")
    case UnsupportedValueType => Some("unsupported_value_type")
    case OtherStatus(_) => None
  }

  function DescriptorTypeName(d: DescriptorType): Option<string> {
    match d
    case DescriptorName => Some("name")
    case DescriptorId => Some("id")
    case DescriptorUnknown => Some("unknown")
    case OtherDescriptor(_) => None
  }

  function ValueTypeName(v: ValueType): Option<string> {
    match v
    case ValueInteger => Some("integer")
    case ValueReal => Some("real")
    case ValueNoValue => Some("no_value")
    case ValueUnknown => Some("unknown")
    case OtherValue(_) => None
  }

  // ---- validation ----

  /** A buffer holding a NUL-terminated UTF-8 string. */
  ghost predicate GoodString(buffer: seq<byte>) {
    Utf8.Terminated(buffer) && Utf8.WellFormed(Utf8.CString(buffer))
  }

  ghost predicate GoodStrings(r: Record) {
    && GoodString(r.ueIdType) && Utf8.CString(r.ueIdType) != []
    && (r.hasNodeType ==> GoodString(r.nodeType))
    && (r.hasNodeId ==> GoodString(r.nodeId))
    && (r.hasUeIdValue ==> GoodString(r.ueIdValue))
    && (r.hasMeasurementName ==> GoodString(r.measurementName))
    && (r.hasDiagnosticCode ==> GoodString(r.diagnosticCode))
    && (r.hasDiagnosticMessage ==> GoodString(r.diagnosticMessage))
  }

  /** Exactly one descriptor, of the announced type, and never an empty name. */
  predicate GoodDescriptor(r: Record) {
    || (&& r.descriptorType == DescriptorName && r.hasMeasurementName && !r.hasMeasurementId
        && Utf8.CString(r.measurementName) != [])
    || (r.descriptorType == DescriptorId && r.hasMeasurementId && !r.hasMeasurementName)
  }

  /** Exactly the value the announced type and the status ask for. */
  predicate GoodValue(r: Record) {
    || (r.valueType == ValueInteger && r.hasIntegerValue && !r.hasRealValue && r.structuralStatus == StatusOk)
    || (&& r.valueType == ValueReal && r.hasRealValue && !r.hasIntegerValue && r.realValue.Finite?
        && r.structuralStatus == StatusOk)
    || (&& r.valueType == ValueNoValue && !r.hasIntegerValue && !r.hasRealValue
        && r.structuralStatus == StatusNoValue)
  }

  predicate GoodMeasurement(r: Record) {
    && r.recordKind == Measurement
    && r.hasMeasInfoIndex && r.hasMeasRecordIndex && r.measInfoIndex == r.measRecordIndex
    && !r.hasDiagnosticCode && !r.hasDiagnosticMessage
    && GoodDescriptor(r) && GoodValue(r)
  }

  predicate GoodDiagnostic(r: Record) {
    && r.recordKind == Diagnostic
    && !r.hasMeasInfoIndex && !r.hasMeasRecordIndex
    && r.descriptorType == DescriptorUnknown && r.valueType == ValueUnknown
    && !r.hasMeasurementName && !r.hasMeasurementId && !r.hasIntegerValue && !r.hasRealValue
    && r.hasDiagnosticCode && Utf8.CString(r.diagnosticCode) != []
    && r.structuralStatus in {
         LengthMismatch, InvalidInput, UnsupportedUeId, UnsupportedDescriptor, UnsupportedValueType}
    && (r.structuralStatus == LengthMismatch ==> r.measInfoLstLen != r.measRecordLen)
  }

  /** What the validator accepts, in the terms of the record format. */
  ghost predicate Valid(r: Record) {
    && GoodStrings(r)
    && (r.incompleteFlag ==> r.incompleteFlagPresent)
    && (GoodMeasurement(r) || GoodDiagnostic(r))
  }

  method OptionalStringValid(present: bool, value: seq<byte>) returns (ok: bool)
    ensures ok <==> (present ==> GoodString(value))
  {
    if !present { return true; }
    ok := Utf8.BoundedStringValid(value);
  }

  method ValidateDiagnostic(r: Record) returns (reason: Option<string>)
    requires r.recordKind == Diagnostic && StatusName(r.structuralStatus).Some?
    ensures reason == None <==> GoodDiagnostic(r)
  {
    if r.hasMeasInfoIndex || r.hasMeasRecordIndex { return Some("diagnostic_has_pair_indexes"); }
    if r.descriptorType != DescriptorUnknown || r.valueType != ValueUnknown {
      return Some("diagnostic_has_descriptor_or_value_type");
    }
    if r.hasMeasurementName || r.hasMeasurementId || r.hasIntegerValue || r.hasRealValue {
      return Some("diagnostic_has_measurement_value");
    }
    if !r.hasDiagnosticCode || r.diagnosticCode[0] == 0 { return Some("diagnostic_code_missing"); }
    if r.structuralStatus == StatusOk || r.structuralStatus == StatusNoValue {
      return Some("diagnostic_has_measurement_status");
    }
    if r.structuralStatus == LengthMismatch && r.measInfoLstLen == r.measRecordLen {
      return Some("length_mismatch_lengths_equal");
    }
    return None;
  }

  method ValidateMeasurement(r: Record) returns (reason: Option<string>)
    requires r.recordKind == Measurement
    ensures reason == None <==> GoodMeasurement(r)
  {
    if !r.hasMeasInfoIndex || !r.hasMeasRecordIndex || r.measInfoIndex != r.measRecordIndex {
      return Some("measurement_pair_indexes_invalid");
    }
    if r.structuralStatus != StatusOk && r.structuralStatus != StatusNoValue {
      return Some("measurement_has_diagnostic_status");
    }
    if r.hasDiagnosticCode || r.hasDiagnosticMessage { return Some("measurement_has_diagnostic_fields"); }
    match r.descriptorType {
      case DescriptorName =>
        if !r.hasMeasurementName || r.measurementName[0] == 0 || r.hasMeasurementId {
          return Some("name_descriptor_invalid");
        }
      case DescriptorId =>
        if !r.hasMeasurementId || r.hasMeasurementName { return Some("id_descriptor_invalid"); }
      case _ =>
        return Some("measurement_descriptor_unknown");
    }
    match r.valueType {
      case ValueInteger =>
        if !r.hasIntegerValue || r.hasRealValue { return Some("integer_value_invalid"); }
        if r.structuralStatus != StatusOk { return Some("integer_status_invalid"); }
      case ValueReal =>
        if !r.hasRealValue || r.hasIntegerValue || !r.realValue.Finite? { return Some("real_value_invalid"); }
        if r.structuralStatus != StatusOk { return Some("real_status_invalid"); }
      case ValueNoValue =>
        if r.hasIntegerValue || r.hasRealValue || r.structuralStatus != StatusNoValue {
          return Some("no_value_invalid");
        }
      case _ =>
        return Some("measurement_value_unknown");
    }
    return None;
  }

  /** tcd_kpm_canonical_record_validate: None is acceptance, Some names the refused rule. */
  method Validate(r: Record) returns (reason: Option<string>)
    ensures reason == None <==> Valid(r)
  {
    hide GoodMeasurement;
    hide GoodDiagnostic;
    hide Utf8.WellFormed;
    KindsAreNamed(r);
    if KindName(r.recordKind) == None { return Some("invalid_record_kind"); }
    if StatusName(r.structuralStatus) == None { return Some("invalid_structural_status"); }
    if DescriptorTypeName(r.descriptorType) == None { return Some("invalid_descriptor_type"); }
    if ValueTypeName(r.valueType) == None { return Some("invalid_value_type"); }
    var ueIdTypeOk := Utf8.BoundedStringValid(r.ueIdType);
    if !ueIdTypeOk || r.ueIdType[0] == 0 { return Some("invalid_ue_id_type"); }
    var s1 := OptionalStringValid(r.hasNodeType, r.nodeType);
    var s2 := OptionalStringValid(r.hasNodeId, r.nodeId);
    var s3 := OptionalStringValid(r.hasUeIdValue, r.ueIdValue);
    var s4 := OptionalStringValid(r.hasMeasurementName, r.measurementName);
    var s5 := OptionalStringValid(r.hasDiagnosticCode, r.diagnosticCode);
    var s6 := OptionalStringValid(r.hasDiagnosticMessage, r.diagnosticMessage);
    if !s1 || !s2 || !s3 || !s4 || !s5 || !s6 { return Some("invalid_utf8_or_unterminated_string"); }
    assert GoodStrings(r);
    if !r.incompleteFlagPresent && r.incompleteFlag { return Some("incomplete_flag_without_presence"); }

    if r.recordKind == Diagnostic {
      reason := ValidateDiagnostic(r);
    } else {
      reason := ValidateMeasurement(r);
    }
  }

  /** Good records name their kind and all they are made of. */
  lemma KindsAreNamed(r: Record)
    ensures GoodMeasurement(r) ==> r.recordKind == Measurement
    ensures GoodDiagnostic(r) ==> r.recordKind == Diagnostic
    ensures GoodMeasurement(r) || GoodDiagnostic(r) ==>
      && StatusName(r.structuralStatus).Some? && DescriptorTypeName(r.descriptorType).Some?
      && ValueTypeName(r.valueType).Some?
  {
  }

  // ---- the canonical view ----

  /** What a record says: presence instead of flags, strings instead of buffers. */
  datatype Canonical = Canonical(
    recordKind: RecordKind,
    indicationSequence: u64,
    receiveTimestampUs: u64,
    kpmHeaderTimestampUs: Option<u64>,
    messageFormat: u32,
    nodeType: Option<seq<byte>>,
    nodeId: Option<seq<byte>>,
    ueReportIndex: Option<u32>,
    ueIdType: seq<byte>,
    ueIdValue: Option<seq<byte>>,
    measDataIndex: Option<u32>,
    measInfoIndex: Option<u32>,
    measRecordIndex: Option<u32>,
    measDataLstLen: u32, measInfoLstLen: u32, measRecordLen: u32,
    incompleteFlag: Option<bool>,
    structuralStatus: Status,
    descriptorType: DescriptorType,
    measurementName: Option<seq<byte>>,
    measurementId: Option<u32>,
    valueType: ValueType,
    integerValue: Option<i64>,
    realValue: Option<Double>,
    diagnosticCode: Option<seq<byte>>,
    diagnosticMessage: Option<seq<byte>>)

  function When<T>(present: bool, value: T): Option<T> {
    if present then Some(value) else None
  }

  function WhenText(present: bool, buffer: seq<byte>): Option<seq<byte>> {
    if present then Some(Utf8.CString(buffer)) else None
  }

  function ViewOf(r: Record): Canonical {
    Canonical(
      r.recordKind,
      r.indicationSequence,
      r.receiveTimestampUs,
      When(r.hasKpmHeaderTimestampUs, r.kpmHeaderTimestampUs),
      r.messageFormat,
      WhenText(r.hasNodeType, r.nodeType),
      WhenText(r.hasNodeId, r.nodeId),
      When(r.hasUeReportIndex, r.ueReportIndex),
      Utf8.CString(r.ueIdType),
      WhenText(r.hasUeIdValue, r.ueIdValue),
      When(r.hasMeasDataIndex, r.measDataIndex),
      When(r.hasMeasInfoIndex, r.measInfoIndex),
      When(r.hasMeasRecordIndex, r.measRecordIndex),
      r.measDataLstLen, r.measInfoLstLen, r.measRecordLen,
      When(r.incompleteFlagPresent, r.incompleteFlag),
      r.structuralStatus,
      r.descriptorType,
      WhenText(r.hasMeasurementName, r.measurementName),
      When(r.hasMeasurementId, r.measurementId),
      r.valueType,
      When(r.hasIntegerValue, r.integerValue),
      When(r.hasRealValue, r.realValue),
      WhenText(r.hasDiagnosticCode, r.diagnosticCode),
      WhenText(r.hasDiagnosticMessage, r.diagnosticMessage))
  }

  /** The views both formats can express: named enum values and finite reals. */
  predicate Printable(c: Canonical) {
    && KindName(c.recordKind).Some? && StatusName(c.structuralStatus).Some?
    && DescriptorTypeName(c.descriptorType).Some? && ValueTypeName(c.valueType).Some?
    && (c.realValue.Some? ==> c.realValue.value.Finite?)
  }

  /** What a reader of a valid record may rely on. */
  lemma ValidShows(r: Record)
    requires Valid(r)
    ensures var c := ViewOf(r);
      && c.ueIdType != [] && Utf8.WellFormed(c.ueIdType)
      && (c.recordKind == Measurement || c.recordKind == Diagnostic)
      && (c.recordKind == Measurement ==>
            && c.measInfoIndex.Some? && c.measInfoIndex == c.measRecordIndex
            && c.diagnosticCode == None && c.diagnosticMessage == None
            && c.structuralStatus == (if c.valueType == ValueNoValue then StatusNoValue else StatusOk)
            && (c.valueType == ValueInteger || c.valueType == ValueReal || c.valueType == ValueNoValue)
            && (c.integerValue.Some? <==> c.valueType == ValueInteger)
            && (c.realValue.Some? <==> c.valueType == ValueReal)
            && (c.measurementName.Some? <==> c.descriptorType == DescriptorName)
            && (c.measurementId.Some? <==> c.descriptorType == DescriptorId)
            && (c.measurementName.Some? || c.measurementId.Some?)
            && (c.measurementName.Some? ==> c.measurementName.value != [] && Utf8.WellFormed(c.measurementName.value)))
      && (c.recordKind == Diagnostic ==>
            && c.measInfoIndex == None && c.measRecordIndex == None
            && c.descriptorType == DescriptorUnknown && c.valueType == ValueUnknown
            && c.measurementName == None && c.measurementId == None && c.integerValue == None && c.realValue == None
            && c.diagnosticCode.Some? && c.diagnosticCode.value != []
            && c.structuralStatus != StatusOk && c.structuralStatus != StatusNoValue
            && (c.structuralStatus == LengthMismatch ==> c.measInfoLstLen != c.measRecordLen))
  {
    hide Utf8.WellFormed;
    hide Utf8.Terminated;
  }

  lemma ValidIsPrintable(r: Record)
    requires Valid(r)
    ensures Printable(ViewOf(r))
    ensures r.incompleteFlag <==> ViewOf(r).incompleteFlag == Some(true)
  {
    assert GoodMeasurement(r) || GoodDiagnostic(r);
  }

  // ---- the 28 printed fields ----

  const SCHEMA_VERSION := "tcd.kpm.record.emulator-draft-0.1"

  const FIELD_COUNT: nat := 28

  const FIELD_NAMES: seq<string> := [
    "schema_version", "record_kind", "indication_sequence", "receive_timestamp_us",
    "kpm_header_timestamp_us", "message_format", "node_type", "node_id", "ue_report_index", "ue_id_type",
    "ue_id_value", "meas_data_index", "meas_info_index", "meas_record_index", "meas_data_lst_len",
    "meas_info_lst_len", "meas_record_len", "incomplete_flag_present", "incomplete_flag", "structural_status",
    "descriptor_type", "measurement_name", "measurement_id", "value_type", "integer_value", "real_value",
    "diagnostic_code", "diagnostic_message"]

  /** A printed scalar; Null is an absent field. */
  datatype Scalar = Null | Bool(flag: bool) | Number(text: seq<byte>) | Text(text: seq<byte>)

  function Unsigned(n: nat): Scalar { Number(Decimal(n)) }

  function Signed(n: int): Scalar { Number(SignedDecimal(n)) }

  function Name(n: Option<string>): Scalar {
    match n
    case Some(s) => Text(Ascii(s))
    case None => Null
  }

  function OptionalU64(o: Option<u64>): Scalar {
    match o
    case Some(n) => Unsigned(n)
    case None => Null
  }

  function OptionalU32(o: Option<u32>): Scalar {
    match o
    case Some(n) => Unsigned(n)
    case None => Null
  }

  function OptionalI64(o: Option<i64>): Scalar {
    match o
    case Some(n) => Signed(n)
    case None => Null
  }

  function OptionalText(o: Option<seq<byte>>): Scalar {
    match o
    case Some(s) => Text(s)
    case None => Null
  }

  function OptionalBool(o: Option<bool>): Scalar {
    match o
    case Some(b) => Bool(b)
    case None => Null
  }

  function OptionalReal(o: Option<Double>): Scalar {
    match o
    case Some(Finite(t)) => Number(t)
    case _ => Null
  }

  function SchemaVersion(): seq<byte> { Ascii(SCHEMA_VERSION) }

  /** Which record this is: schema, kind, sequence, times, format, node type. */
  function IdentityFields(c: Canonical): (f: seq<Scalar>)
    ensures |f| == 7
  {
    [Text(SchemaVersion()),
     Name(KindName(c.recordKind)),
     Unsigned(c.indicationSequence),
     Unsigned(c.receiveTimestampUs),
     OptionalU64(c.kpmHeaderTimestampUs),
     Unsigned(c.messageFormat),
     OptionalText(c.nodeType)]
  }

  /** Where it belongs: node, UE and the indexes into the indication. */
  function PlaceFields(c: Canonical): (f: seq<Scalar>)
    ensures |f| == 7
  {
    [OptionalText(c.nodeId),
     OptionalU32(c.ueReportIndex),
     Text(c.ueIdType),
     OptionalText(c.ueIdValue),
     OptionalU32(c.measDataIndex),
     OptionalU32(c.measInfoIndex),
     OptionalU32(c.measRecordIndex)]
  }

  /** The shape of its row: lengths, incomplete flag, status, descriptor type. */
  function ShapeFields(c: Canonical): (f: seq<Scalar>)
    ensures |f| == 7
  {
    [Unsigned(c.measDataLstLen),
     Unsigned(c.measInfoLstLen),
     Unsigned(c.measRecordLen),
     Bool(c.incompleteFlag.Some?),
     OptionalBool(c.incompleteFlag),
     Name(StatusName(c.structuralStatus)),
     Name(DescriptorTypeName(c.descriptorType))]
  }

  /** What was measured, or why nothing was. */
  function ValueFields(c: Canonical): (f: seq<Scalar>)
    ensures |f| == 7
  {
    [OptionalText(c.measurementName),
     OptionalU32(c.measurementId),
     Name(ValueTypeName(c.valueType)),
     OptionalI64(c.integerValue),
     OptionalReal(c.realValue),
     OptionalText(c.diagnosticCode),
     OptionalText(c.diagnosticMessage)]
  }

  /** The 28 printed fields, in order. */
  function Fields(c: Canonical): (f: seq<Scalar>)
    ensures |f| == FIELD_COUNT
  {
    IdentityFields(c) + PlaceFields(c) + ShapeFields(c) + ValueFields(c)
  }

  /** Which printed field is which. */
  lemma FieldGroups(c: Canonical)
    ensures forall k :: 0 <= k < 7 ==> Fields(c)[k] == IdentityFields(c)[k]
    ensures forall k :: 7 <= k < 14 ==> Fields(c)[k] == PlaceFields(c)[k - 7]
    ensures forall k :: 14 <= k < 21 ==> Fields(c)[k] == ShapeFields(c)[k - 14]
    ensures forall k :: 21 <= k < 28 ==> Fields(c)[k] == ValueFields(c)[k - 21]
  {
    hide IdentityFields;
    hide PlaceFields;
    hide ShapeFields;
    hide ValueFields;
  }

  // ---- reading the fields back ----

  function ReadU64(f: Scalar): Option<u64> {
    if f.Number? && NumeralValue(f.text).Some? && 0 <= NumeralValue(f.text).value < 0x1_0000_0000_0000_0000
    then Some(NumeralValue(f.text).value) else None
  }

  function ReadU32(f: Scalar): Option<u32> {
    if f.Number? && NumeralValue(f.text).Some? && 0 <= NumeralValue(f.text).value < 0x1_0000_0000
    then Some(NumeralValue(f.text).value) else None
  }

  function ReadSigned(f: Scalar): Option<i64> {
    if f.Number? && NumeralValue(f.text).Some?
       && -0x8000_0000_0000_0000 <= NumeralValue(f.text).value < 0x8000_0000_0000_0000
    then Some(NumeralValue(f.text).value) else None
  }

  function ReadText(f: Scalar): Option<seq<byte>> {
    if f.Text? then Some(f.text) else None
  }

  function ReadBool(f: Scalar): Option<bool> {
    if f.Bool? then Some(f.flag) else None
  }

  function ReadReal(f: Scalar): Option<Double> {
    if f.Number? && IsFiniteNumber(f.text) && |f.text| <= 24 then Some(Finite(f.text)) else None
  }

  function ReadKind(f: Scalar): RecordKind {
    if f == Name(Some("measurement")) then Measurement
    else if f == Name(Some("diagnostic")) then Diagnostic
    else OtherKind(0)
  }

  function ReadStatus(f: Scalar): Status {
    if f == Name(Some("ok")) then StatusOk
    else if f == Name(Some("no_value")) then StatusNoValue
    else if f == Name(Some("length_mismatch")) then LengthMismatch
    else if f == Name(Some("invalid_input")) then InvalidInput
    else if f == Name(Some("unsupported_ue_id")) then UnsupportedUeId
    else if f == Name(Some("unsupported_descriptor")) then UnsupportedDescriptor
    else if f == Name(Some("unsupported_value_type")) then UnsupportedValueType
    else OtherStatus(0)
  }

  function ReadDescriptor(f: Scalar): DescriptorType {
    if f == Name(Some("name")) then DescriptorName
    else if f == Name(Some("id")) then DescriptorId
    else if f == Name(Some("unknown")) then DescriptorUnknown
    else OtherDescriptor(0)
  }

  function ReadValueType(f: Scalar): ValueType {
    if f == Name(Some("integer")) then ValueInteger
    else if f == Name(Some("real")) then ValueReal
    else if f == Name(Some("no_value")) then ValueNoValue
    else if f == Name(Some("unknown")) then ValueUnknown
    else OtherValue(0)
  }

  function Else<T>(o: Option<T>, default: T): T {
    if o.Some? then o.value else default
  }

  /** The canonical view a reader rebuilds from 28 fields. */
  function Interpret(f: seq<Scalar>): Canonical
    requires |f| == FIELD_COUNT
  {
    Canonical(
      ReadKind(f[1]),
      Else(ReadU64(f[2]), 0),
      Else(ReadU64(f[3]), 0),
      ReadU64(f[4]),
      Else(ReadU32(f[5]), 0),
      ReadText(f[6]), ReadText(f[7]),
      ReadU32(f[8]),
      Else(ReadText(f[9]), []),
      ReadText(f[10]),
      ReadU32(f[11]), ReadU32(f[12]), ReadU32(f[13]),
      Else(ReadU32(f[14]), 0), Else(ReadU32(f[15]), 0), Else(ReadU32(f[16]), 0),
      ReadBool(f[18]),
      ReadStatus(f[19]),
      ReadDescriptor(f[20]),
      ReadText(f[21]),
      ReadU32(f[22]),
      ReadValueType(f[23]),
      ReadSigned(f[24]),
      ReadReal(f[25]),
      ReadText(f[26]), ReadText(f[27]))
  }

  lemma KindReadsBack(k: RecordKind)
    requires KindName(k).Some?
    ensures ReadKind(Name(KindName(k))) == k
  {
  }

  lemma StatusReadsBack(t: Status)
    requires StatusName(t).Some?
    ensures ReadStatus(Name(StatusName(t))) == t
  {
    assert Ascii("unsupported_descriptor")[12] != Ascii("unsupported_value_type")[12];
  }

  lemma DescriptorReadsBack(d: DescriptorType)
    requires DescriptorTypeName(d).Some?
    ensures ReadDescriptor(Name(DescriptorTypeName(d))) == d
  {
  }

  lemma ValueTypeReadsBack(v: ValueType)
    requires ValueTypeName(v).Some?
    ensures ReadValueType(Name(ValueTypeName(v))) == v
  {
    assert Ascii("integer")[0] != Ascii("unknown")[0];
  }

  lemma U64ReadsBack(n: u64)
    ensures ReadU64(Unsigned(n)) == Some(n)
  {
    SignedDecimalRoundTrip(n);
  }

  lemma OptionalU64ReadsBack(o: Option<u64>)
    ensures ReadU64(OptionalU64(o)) == o
  {
    if o.Some? { U64ReadsBack(o.value); }
  }

  lemma U32ReadsBack(n: u32)
    ensures ReadU32(Unsigned(n)) == Some(n)
  {
    SignedDecimalRoundTrip(n);
  }

  lemma OptionalU32ReadsBack(o: Option<u32>)
    ensures ReadU32(OptionalU32(o)) == o
  {
    if o.Some? { U32ReadsBack(o.value); }
  }

  lemma OptionalI64ReadsBack(o: Option<i64>)
    ensures ReadSigned(OptionalI64(o)) == o
  {
    if o.Some? { SignedDecimalRoundTrip(o.value); }
  }

  lemma IdentityInterprets(c: Canonical)
    requires Printable(c)
    ensures var d := Interpret(Fields(c));
      && d.recordKind == c.recordKind
      && d.indicationSequence == c.indicationSequence && d.receiveTimestampUs == c.receiveTimestampUs
      && d.kpmHeaderTimestampUs == c.kpmHeaderTimestampUs && d.messageFormat == c.messageFormat
      && d.nodeType == c.nodeType
  {
    hide PlaceFields;
    hide ShapeFields;
    hide ValueFields;
    KindReadsBack(c.recordKind);
    U64ReadsBack(c.indicationSequence);
    U64ReadsBack(c.receiveTimestampUs);
    OptionalU64ReadsBack(c.kpmHeaderTimestampUs);
    U32ReadsBack(c.messageFormat);
  }

  lemma PlaceInterprets(c: Canonical)
    ensures var d := Interpret(Fields(c));
      && d.nodeId == c.nodeId && d.ueReportIndex == c.ueReportIndex && d.ueIdType == c.ueIdType
      && d.ueIdValue == c.ueIdValue && d.measDataIndex == c.measDataIndex
      && d.measInfoIndex == c.measInfoIndex && d.measRecordIndex == c.measRecordIndex
  {
    hide IdentityFields;
    hide ShapeFields;
    hide ValueFields;
    OptionalU32ReadsBack(c.ueReportIndex);
    OptionalU32ReadsBack(c.measDataIndex);
    OptionalU32ReadsBack(c.measInfoIndex);
    OptionalU32ReadsBack(c.measRecordIndex);
  }

  lemma ShapeInterprets(c: Canonical)
    requires Printable(c)
    ensures var d := Interpret(Fields(c));
      && d.measDataLstLen == c.measDataLstLen && d.measInfoLstLen == c.measInfoLstLen
      && d.measRecordLen == c.measRecordLen && d.incompleteFlag == c.incompleteFlag
      && d.structuralStatus == c.structuralStatus && d.descriptorType == c.descriptorType
  {
    hide IdentityFields;
    hide PlaceFields;
    hide ValueFields;
    U32ReadsBack(c.measDataLstLen);
    U32ReadsBack(c.measInfoLstLen);
    U32ReadsBack(c.measRecordLen);
    StatusReadsBack(c.structuralStatus);
    DescriptorReadsBack(c.descriptorType);
  }

  lemma RealReadsBack(o: Option<Double>)
    requires o.Some? ==> o.value.Finite?
    ensures ReadReal(OptionalReal(o)) == o
  {
  }

  lemma ValueInterprets(c: Canonical)
    requires Printable(c)
    ensures var d := Interpret(Fields(c));
      && d.measurementName == c.measurementName && d.measurementId == c.measurementId
      && d.valueType == c.valueType && d.integerValue == c.integerValue && d.realValue == c.realValue
      && d.diagnosticCode == c.diagnosticCode && d.diagnosticMessage == c.diagnosticMessage
  {
    hide IdentityFields;
    hide PlaceFields;
    hide ShapeFields;
    OptionalU32ReadsBack(c.measurementId);
    ValueTypeReadsBack(c.valueType);
    OptionalI64ReadsBack(c.integerValue);
    RealReadsBack(c.realValue);
  }

  /** The 28 fields determine the canonical view: every value and every presence flag. */
  lemma InterpretFields(c: Canonical)
    requires Printable(c)
    ensures Interpret(Fields(c)) == c
  {
    hide Fields;
    hide Interpret;
    IdentityInterprets(c);
    PlaceInterprets(c);
    ShapeInterprets(c);
    ValueInterprets(c);
  }
}
