/** The JSONL to Parquet converter's checks on one line, and which valid records pass them. */
module ParquetConverter {
  import opened Bytes
  import opened CanonicalRecord
  import Json
  import KpmCallback
  import KpmAdapter

  datatype LogicalType = StringType | U64Type | U32Type | BooleanType | I64Type | F64Type

  /** The catalogue's logical type of each field; its enums are strings to the converter. */
  function TypeOf(i: nat): LogicalType
    requires i < FIELD_COUNT
  {
    if i in {2, 3, 4} then U64Type
    else if i in {5, 8, 11, 12, 13, 14, 15, 16, 22} then U32Type
    else if i in {17, 18} then BooleanType
    else if i == 24 then I64Type
    else if i == 25 then F64Type
    else StringType
  }

  predicate Nullable(i: nat) { i in {4, 6, 7, 8, 10, 11, 12, 13, 18, 21, 22, 24, 25, 26, 27} }

  /** validate_scalar. A number is an integer to the reader when it has no fraction and no exponent;
      a real must be a finite double. */
  predicate ScalarAccepted(i: nat, v: Scalar)
    requires i < FIELD_COUNT
  {
    if v == Null then Nullable(i)
    else
      match TypeOf(i)
      case StringType => v.Text?
      case BooleanType => v.Bool?
      case U64Type => ReadU64(v).Some?
      case U32Type => ReadU32(v).Some?
      case I64Type => ReadSigned(v).Some?
      case F64Type => v.Number? && IsFiniteNumber(v.text)
  }

  /** strict_object: an object with a repeated key is refused. */
  predicate NoDuplicates(pairs: Json.Pairs) {
    forall i, j :: 0 <= i < j < |pairs| ==> pairs[i].0 != pairs[j].0
  }

  /** The keys are exactly the catalogue's, in any order. */
  predicate ExactKeys(pairs: Json.Pairs) {
    && (forall k :: 0 <= k < FIELD_COUNT ==> exists i :: 0 <= i < |pairs| && pairs[i].0 == Json.FieldKey(k))
    && (forall i :: 0 <= i < |pairs| ==> exists k :: 0 <= k < FIELD_COUNT && pairs[i].0 == Json.FieldKey(k))
  }

  /** The row the converter builds: the value of each catalogue field. */
  ghost predicate IsRow(pairs: Json.Pairs, row: seq<Scalar>) {
    && |row| == FIELD_COUNT
    && forall k :: 0 <= k < FIELD_COUNT ==> (Json.FieldKey(k), row[k]) in pairs
  }

  predicate DiagnosticAccepted(row: seq<Scalar>)
    requires |row| == FIELD_COUNT
  {
    && row[12] == Null && row[13] == Null
    && ReadDescriptor(row[20]) == DescriptorUnknown && ReadValueType(row[23]) == ValueUnknown
    && row[21] == Null && row[22] == Null && row[24] == Null && row[25] == Null
    && row[26] != Null && row[27] != Null
    && (ReadStatus(row[19]) == LengthMismatch ==> row[15] != row[16])
  }

  predicate MeasurementAccepted(row: seq<Scalar>)
    requires |row| == FIELD_COUNT
  {
    && row[12] != Null && row[13] != Null && row[12] == row[13]
    && row[26] == Null && row[27] == Null
    && (match ReadDescriptor(row[20])
        case DescriptorName => row[21] != Null && row[22] == Null
        case DescriptorId => row[22] != Null && row[21] == Null
        case _ => false)
    && (match ReadValueType(row[23])
        case ValueInteger => row[24] != Null && row[25] == Null
        case ValueReal => row[25] != Null && row[24] == Null
        case ValueNoValue => row[24] == Null && row[25] == Null
        case _ => false)
  }

  /** validate_semantics */
  predicate SemanticsAccepted(row: seq<Scalar>)
    requires |row| == FIELD_COUNT
  {
    && row[0] == Text(SchemaVersion())
    && !ReadKind(row[1]).OtherKind? && !ReadStatus(row[19]).OtherStatus?
    && !ReadDescriptor(row[20]).OtherDescriptor? && !ReadValueType(row[23]).OtherValue?
    && row[9] != Text([])
    && (if row[17] == Bool(true) then row[18] != Null else row[18] == Null)
    && (if ReadKind(row[1]) == Diagnostic then DiagnosticAccepted(row) else MeasurementAccepted(row))
  }

  /** parse_row on the members of a line. */
  ghost predicate RowAccepted(pairs: Json.Pairs) {
    && NoDuplicates(pairs) && ExactKeys(pairs)
    && exists row :: IsRow(pairs, row)
         && (forall k :: 0 <= k < FIELD_COUNT ==> ScalarAccepted(k, row[k]))
         && SemanticsAccepted(row)
  }

  // ---- a printed line ----

  lemma PairsAre(f: seq<Scalar>)
    requires |f| == FIELD_COUNT
    ensures forall k :: 0 <= k < FIELD_COUNT ==> Json.FieldPairs(f, 0)[k] == (Json.FieldKey(k), f[k])
  {
    hide Json.FieldKey;
    hide Json.FieldPairs;
    forall k | 0 <= k < FIELD_COUNT ensures Json.FieldPairs(f, 0)[k] == (Json.FieldKey(k), f[k]) {
      Json.FieldPairsAt(f, 0, k);
    }
  }

  lemma PrintedKeys(f: seq<Scalar>)
    requires |f| == FIELD_COUNT
    ensures NoDuplicates(Json.FieldPairs(f, 0)) && ExactKeys(Json.FieldPairs(f, 0))
  {
    hide Json.FieldKey;
    hide Json.FieldPairs;
    var pairs := Json.FieldPairs(f, 0);
    Json.FieldKeysDistinct();
    PairsAre(f);
    forall k | 0 <= k < FIELD_COUNT ensures exists i :: 0 <= i < |pairs| && pairs[i].0 == Json.FieldKey(k) {
      assert pairs[k].0 == Json.FieldKey(k);
    }
  }

  lemma PrintedRow(f: seq<Scalar>, row: seq<Scalar>)
    requires |f| == FIELD_COUNT
    ensures IsRow(Json.FieldPairs(f, 0), row) <==> row == f
  {
    hide Json.FieldKey;
    hide Json.FieldPairs;
    var pairs := Json.FieldPairs(f, 0);
    PairsAre(f);
    Json.FieldKeysDistinct();
    if IsRow(pairs, row) {
      forall k | 0 <= k < FIELD_COUNT ensures row[k] == f[k] {
        assert (Json.FieldKey(k), row[k]) in pairs;
        var i :| 0 <= i < |pairs| && pairs[i] == (Json.FieldKey(k), row[k]);
        assert pairs[i] == (Json.FieldKey(i), f[i]);
      }
    } else if row == f {
      forall k | 0 <= k < FIELD_COUNT ensures (Json.FieldKey(k), row[k]) in pairs {
        assert pairs[k] == (Json.FieldKey(k), f[k]);
      }
    }
  }

  lemma PrintedPairs(f: seq<Scalar>)
    requires |f| == FIELD_COUNT
    ensures var pairs := Json.FieldPairs(f, 0);
      && NoDuplicates(pairs) && ExactKeys(pairs)
      && forall row :: IsRow(pairs, row) <==> row == f
  {
    hide Json.FieldPairs;
    hide NoDuplicates;
    hide ExactKeys;
    hide IsRow;
    PrintedKeys(f);
    forall row ensures IsRow(Json.FieldPairs(f, 0), row) <==> row == f { PrintedRow(f, row); }
  }

  /** The scalars of a printable record have the catalogue's types. */
  lemma ScalarsAccepted(c: Canonical, k: nat)
    requires Printable(c) && k < FIELD_COUNT
    ensures ScalarAccepted(k, Fields(c)[k])
  {
    hide Fields;
    hide Decimal;
    hide SignedDecimal;
    hide NumeralValue;
    hide IsFiniteNumber;
    hide Ascii;
    FieldGroups(c);
    if k < 7 { IdentityScalars(c, k); }
    else if k < 14 { PlaceScalars(c, k); }
    else if k < 21 { ShapeScalars(c, k); }
    else { ValueScalars(c, k); }
  }

  lemma IdentityScalars(c: Canonical, k: nat)
    requires Printable(c) && k < 7
    ensures ScalarAccepted(k, IdentityFields(c)[k])
  {
    hide ReadU64;
    hide ReadU32;
    hide Decimal;
    hide Ascii;
    U64ReadsBack(c.indicationSequence);
    U64ReadsBack(c.receiveTimestampUs);
    OptionalU64ReadsBack(c.kpmHeaderTimestampUs);
    U32ReadsBack(c.messageFormat);
  }

  lemma PlaceScalars(c: Canonical, k: nat)
    requires Printable(c) && 7 <= k < 14
    ensures ScalarAccepted(k, PlaceFields(c)[k - 7])
  {
    hide ReadU32;
    hide Decimal;
    OptionalU32ReadsBack(c.ueReportIndex);
    OptionalU32ReadsBack(c.measDataIndex);
    OptionalU32ReadsBack(c.measInfoIndex);
    OptionalU32ReadsBack(c.measRecordIndex);
  }

  lemma ShapeScalars(c: Canonical, k: nat)
    requires Printable(c) && 14 <= k < 21
    ensures ScalarAccepted(k, ShapeFields(c)[k - 14])
  {
    hide ReadU32;
    hide Decimal;
    hide Ascii;
    U32ReadsBack(c.measDataLstLen);
    U32ReadsBack(c.measInfoLstLen);
    U32ReadsBack(c.measRecordLen);
  }

  lemma ValueScalars(c: Canonical, k: nat)
    requires Printable(c) && 21 <= k < 28
    ensures ScalarAccepted(k, ValueFields(c)[k - 21])
  {
    hide ReadU32;
    hide ReadSigned;
    hide ReadReal;
    hide Decimal;
    hide SignedDecimal;
    hide Ascii;
    hide IsFiniteNumber;
    OptionalU32ReadsBack(c.measurementId);
    OptionalI64ReadsBack(c.integerValue);
    RealReadsBack(c.realValue);
  }

  /** The checks of validate_semantics in terms of the canonical view. */
  predicate ViewAccepted(c: Canonical) {
    && c.ueIdType != []
    && if c.recordKind == Diagnostic then
         && c.measInfoIndex == None && c.measRecordIndex == None
         && c.descriptorType == DescriptorUnknown && c.valueType == ValueUnknown
         && c.measurementName == None && c.measurementId == None && c.integerValue == None && c.realValue == None
         && c.diagnosticCode.Some? && c.diagnosticMessage.Some?
         && (c.structuralStatus == LengthMismatch ==> c.measInfoLstLen != c.measRecordLen)
       else
         && c.measInfoIndex.Some? && c.measInfoIndex == c.measRecordIndex
         && c.diagnosticCode == None && c.diagnosticMessage == None
         && (|| (c.descriptorType == DescriptorName && c.measurementName.Some? && c.measurementId == None)
             || (c.descriptorType == DescriptorId && c.measurementId.Some? && c.measurementName == None))
         && (|| (c.valueType == ValueInteger && c.integerValue.Some? && c.realValue == None)
             || (c.valueType == ValueReal && c.realValue.Some? && c.integerValue == None)
             || (c.valueType == ValueNoValue && c.integerValue == None && c.realValue == None))
  }

  lemma U32Injective(a: Option<u32>, b: Option<u32>)
    ensures OptionalU32(a) == OptionalU32(b) <==> a == b
  {
    OptionalU32ReadsBack(a);
    OptionalU32ReadsBack(b);
  }

  /** The fields of a row that validate_semantics looks at. */
  lemma RowOfView(c: Canonical)
    requires Printable(c)
    ensures var f := Fields(c);
      && f[0] == Text(SchemaVersion()) && ReadKind(f[1]) == c.recordKind
      && f[9] == Text(c.ueIdType)
      && f[12] == OptionalU32(c.measInfoIndex) && f[13] == OptionalU32(c.measRecordIndex)
      && f[15] == OptionalU32(Some(c.measInfoLstLen)) && f[16] == OptionalU32(Some(c.measRecordLen))
      && f[17] == Bool(c.incompleteFlag.Some?) && f[18] == OptionalBool(c.incompleteFlag)
      && ReadStatus(f[19]) == c.structuralStatus && ReadDescriptor(f[20]) == c.descriptorType
      && f[21] == OptionalText(c.measurementName) && f[22] == OptionalU32(c.measurementId)
      && ReadValueType(f[23]) == c.valueType
      && f[24] == OptionalI64(c.integerValue) && f[25] == OptionalReal(c.realValue)
      && f[26] == OptionalText(c.diagnosticCode) && f[27] == OptionalText(c.diagnosticMessage)
  {
    hide Fields;
    hide Ascii;
    hide ReadKind;
    hide ReadStatus;
    hide ReadDescriptor;
    hide ReadValueType;
    FieldGroups(c);
    KindReadsBack(c.recordKind);
    StatusReadsBack(c.structuralStatus);
    DescriptorReadsBack(c.descriptorType);
    ValueTypeReadsBack(c.valueType);
  }

  lemma SemanticsOfView(c: Canonical)
    requires Printable(c)
    ensures SemanticsAccepted(Fields(c)) <==> ViewAccepted(c)
  {
    hide Fields;
    hide ReadKind;
    hide ReadStatus;
    hide ReadDescriptor;
    hide ReadValueType;
    hide OptionalU32;
    RowOfView(c);
    U32Injective(c.measInfoIndex, c.measRecordIndex);
    U32Injective(Some(c.measInfoLstLen), Some(c.measRecordLen));
    U32Injective(c.measInfoIndex, None);
    U32Injective(c.measRecordIndex, None);
    U32Injective(c.measurementId, None);
    NullIsAbsent();
  }

  lemma NullIsAbsent()
    ensures OptionalU32(None) == Null
  {
  }

  lemma LineAccepted(c: Canonical, rest: seq<byte>)
    requires Printable(c)
    ensures Json.ParseLine(Json.RecordLine(c) + rest).Parsed?
    ensures RowAccepted(Json.ParseLine(Json.RecordLine(c) + rest).value) <==> ViewAccepted(c)
  {
    hide Json.ParseLine;
    hide Json.RecordLine;
    hide Json.FieldPairs;
    hide NoDuplicates;
    hide ExactKeys;
    hide IsRow;
    hide ScalarAccepted;
    hide SemanticsAccepted;
    hide ViewAccepted;
    hide Fields;
    hide Printable;
    Json.LineRoundTrip(c, rest);
    PrintedPairs(Fields(c));
    SemanticsOfView(c);
    forall k | 0 <= k < FIELD_COUNT ensures ScalarAccepted(k, Fields(c)[k]) { ScalarsAccepted(c, k); }
  }

  /** Of the records the C validator accepts, the converter refuses exactly the diagnostics
      without a message: the two sides disagree on whether the message is required. */
  lemma ConverterContract(r: Record, rest: seq<byte>)
    requires Valid(r)
    ensures Json.ParseLine(Json.RecordLine(ViewOf(r)) + rest).Parsed?
    ensures RowAccepted(Json.ParseLine(Json.RecordLine(ViewOf(r)) + rest).value) <==>
      (r.recordKind == Diagnostic ==> r.hasDiagnosticMessage)
  {
    hide Json.ParseLine;
    hide Json.RecordLine;
    hide RowAccepted;
    hide ViewOf;
    hide Printable;
    hide ViewAccepted;
    hide Valid;
    ValidIsPrintable(r);
    LineAccepted(ViewOf(r), rest);
    ValidViewAccepted(r);
  }

  lemma ValidViewAccepted(r: Record)
    requires Valid(r)
    ensures ViewAccepted(ViewOf(r)) <==> (r.recordKind == Diagnostic ==> r.hasDiagnosticMessage)
  {
    hide GoodString;
    assert GoodMeasurement(r) || GoodDiagnostic(r);
  }

  /** A diagnostic without a message. */
  function SilentDiagnostic(): Record {
    KpmAdapter.Blank().(
      recordKind := Diagnostic, structuralStatus := InvalidInput,
      ueIdType := KpmAdapter.Printed(KpmAdapter.UeTypeText(KpmCallback.UnknownUe), 32),
      hasDiagnosticCode := true,
      diagnosticCode := KpmAdapter.Printed(Ascii(KpmAdapter.DiagnosticCode(KpmCallback.InvalidInput)), 64))
  }

  /** A record the C side writes and the converter refuses. */
  lemma SilentDiagnosticIsRefused()
    ensures Valid(SilentDiagnostic())
    ensures match Json.ParseLine(Json.RecordLine(ViewOf(SilentDiagnostic())) + [])
            case Failed => false
            case Parsed(pairs, _) => !RowAccepted(pairs)
  {
    hide RowAccepted;
    hide Json.RecordLine;
    hide Json.ParseLine;
    hide ViewOf;
    hide KpmAdapter.Printed;
    hide KpmAdapter.UeTypeText;
    hide GoodString;
    KpmAdapter.UeTypeIsGood(KpmCallback.UnknownUe);
    KpmAdapter.CodeIsGood(KpmCallback.InvalidInput);
    hide Ascii;
    hide KpmAdapter.DiagnosticCode;
    ConverterContract(SilentDiagnostic(), []);
  }

  /** End to end: whatever an indication holds, a record of it that the output path accepts is
      written as a line the converter accepts, because the adapter always gives diagnostics a
      message. */
  lemma IndicationsConvert(indication: KpmCallback.Indication, message: KpmCallback.KpmMessage,
                           m: KpmCallback.MeasRecord, rest: seq<byte>)
    requires KpmAdapter.NamedNode(indication) && m in KpmCallback.IndicationRecords(indication, message)
    requires KpmAdapter.Admissible(m)
    ensures Valid(KpmAdapter.Adapt(m))
    ensures Json.ParseLine(Json.RecordLine(ViewOf(KpmAdapter.Adapt(m))) + rest).Parsed?
    ensures RowAccepted(Json.ParseLine(Json.RecordLine(ViewOf(KpmAdapter.Adapt(m))) + rest).value)
  {
    hide KpmCallback.IndicationRecords;
    hide KpmAdapter.NamedNode;
    hide KpmAdapter.Admissible;
    hide KpmAdapter.Adapt;
    hide Json.ParseLine;
    hide Json.RecordLine;
    hide RowAccepted;
    hide ViewOf;
    hide Valid;
    KpmAdapter.AdapterContract(indication, message, m);
    DiagnosticsHaveMessages(m);
    ConverterContract(KpmAdapter.Adapt(m), rest);
  }

  lemma DiagnosticsHaveMessages(m: KpmCallback.MeasRecord)
    ensures KpmAdapter.Adapt(m).recordKind == Diagnostic ==> KpmAdapter.Adapt(m).hasDiagnosticMessage
  {
    hide KpmAdapter.Printed;
    hide KpmAdapter.DiagnosticText;
    hide KpmAdapter.DiagnosticCode;
    hide KpmAdapter.CopyCommon;
    hide KpmAdapter.Blank;
  }
}
