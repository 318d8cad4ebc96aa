/** The output adapter: from a measurement record to the canonical record, and when the canonical
    validator accepts the result. */
module KpmAdapter {
  import opened Bytes
  import CanonicalRecord
  import OutputPipeline
  import Utf8
  import opened KpmCallback

  type Record = CanonicalRecord.Record

  // ---- filling the canonical struct ----

  function Zeros(n: nat): (r: seq<byte>)
    ensures |r| == n
  {
    seq(n, _ => 0)
  }

  /** tcd_kpm_canonical_record_init: everything zero, the invalid kind and status. */
  function Blank(): Record {
    CanonicalRecord.Record(
      CanonicalRecord.OtherKind(0), 0, 0, false, 0, 0, false, Zeros(32), false, Zeros(128), false, 0, Zeros(32),
      false, Zeros(128), false, 0, false, 0, false, 0, 0, 0, 0, false, false, CanonicalRecord.OtherStatus(0),
      CanonicalRecord.DescriptorUnknown, false, Zeros(256), false, 0, CanonicalRecord.ValueUnknown,
      false, 0, false, CanonicalRecord.NotFinite, false, Zeros(64), false, Zeros(256))
  }

  /** copy_text and snprintf into a zeroed buffer: at most capacity - 1 bytes and a terminator. */
  function Printed(text: seq<byte>, capacity: nat): (r: seq<byte>)
    requires capacity > 0
    ensures |r| == capacity
  {
    Padded(if |text| < capacity then text else text[..capacity - 1], capacity)
  }

  function NodeTypeText(raw: u32): seq<byte> { Ascii("raw_") + Decimal(raw) }

  /** copy_node */
  function CopyNode(d: Record, s: MeasRecord): Record {
    var named := s.indication.nodeId[0] != 0;
    d.(hasNodeType := true, nodeType := Printed(NodeTypeText(s.indication.nodeType), 32),
       hasNodeId := d.hasNodeId || named,
       nodeId := if named then Printed(Utf8.CString(s.indication.nodeId), 128) else d.nodeId)
  }

  function UeTypeText(kind: UeKind): seq<byte> {
    match kind
    case Gnb => Ascii("gnb")
    case GnbDu => Ascii("gnb_du")
    case GnbCuUp => Ascii("gnb_cu_up")
    case UnknownUe => Ascii("unknown")
  }

  /** The identifier copy_ue prints, when the one its type calls for is present. */
  function UeValueText(ue: UeId): Option<seq<byte>> {
    match ue.kind
    case Gnb => if ue.amf.Some? then Some(Ascii("amf_ue_ngap_id=") + Decimal(ue.amf.value)) else None
    case GnbDu => if ue.f1ap.Some? then Some(Ascii("gnb_cu_ue_f1ap=") + Decimal(ue.f1ap.value)) else None
    case GnbCuUp => if ue.e1ap.Some? then Some(Ascii("gnb_cu_cp_ue_e1ap=") + Decimal(ue.e1ap.value)) else None
    case UnknownUe => None
  }

  /** copy_ue */
  function CopyUe(d: Record, s: MeasRecord): Record {
    var text := UeValueText(s.ue);
    d.(ueIdType := Printed(UeTypeText(s.ue.kind), 32),
       hasUeIdValue := d.hasUeIdValue || text.Some?,
       ueIdValue := if text.Some? then Printed(text.value, 128) else d.ueIdValue)
  }

  /** copy_common's times and message format. */
  function CopyTimes(d: Record, s: MeasRecord): Record {
    d.(indicationSequence := s.indication.sequence,
       receiveTimestampUs := if s.indication.receiveTimestampNs > 0 then s.indication.receiveTimestampNs / 1000 else 0,
       hasKpmHeaderTimestampUs := s.indication.headerTimestamp > 0,
       kpmHeaderTimestampUs :=
         if s.indication.headerTimestamp > 0 then s.indication.headerTimestamp else d.kpmHeaderTimestampUs,
       messageFormat := s.indication.messageFormat)
  }

  /** copy_common's indexes, lengths and incomplete flag; the largest u32 means no index. */
  function CopyShape(d: Record, s: MeasRecord): Record {
    d.(hasUeReportIndex := s.ueReportIndex != U32_MAX,
       ueReportIndex := if s.ueReportIndex != U32_MAX then s.ueReportIndex else d.ueReportIndex,
       hasMeasDataIndex := s.dataIndex != U32_MAX,
       measDataIndex := if s.dataIndex != U32_MAX then s.dataIndex else d.measDataIndex,
       measDataLstLen := s.dataLength, measInfoLstLen := s.infoLength, measRecordLen := s.recordLength,
       incompleteFlagPresent := s.incomplete.Some?, incompleteFlag := s.incomplete == Some(true))
  }

  /** copy_common */
  function CopyCommon(d: Record, s: MeasRecord): Record {
    CopyShape(CopyUe(CopyNode(CopyTimes(d, s), s), s), s)
  }

  function CopyHead(d: Record, s: MeasRecord): Record {
    d.(recordKind := CanonicalRecord.Measurement,
       hasMeasInfoIndex := true, measInfoIndex := s.infoIndex,
       hasMeasRecordIndex := true, measRecordIndex := s.recordIndex,
       structuralStatus :=
         if s.status == NoValueStatus then CanonicalRecord.StatusNoValue else CanonicalRecord.StatusOk)
  }

  /** Anything but a name is passed on as an identifier; without one it is zero. */
  function CopyDescriptorField(d: Record, s: MeasRecord): Record {
    var named := s.descriptor.NameDescriptor?;
    d.(descriptorType := if named then CanonicalRecord.DescriptorName else CanonicalRecord.DescriptorId,
       hasMeasurementName := d.hasMeasurementName || named,
       measurementName := if named then Printed(Utf8.CString(s.descriptor.buffer), 256) else d.measurementName,
       hasMeasurementId := d.hasMeasurementId || !named,
       measurementId :=
         if s.descriptor.IdDescriptor? then s.descriptor.id else if named then d.measurementId else 0)
  }

  function CopyValueField(d: Record, s: MeasRecord): Record {
    d.(valueType :=
         if s.value.IntegerValue? then CanonicalRecord.ValueInteger
         else if s.value.RealValue? then CanonicalRecord.ValueReal
         else CanonicalRecord.ValueNoValue,
       hasIntegerValue := d.hasIntegerValue || s.value.IntegerValue?,
       integerValue := if s.value.IntegerValue? then s.value.i else d.integerValue,
       hasRealValue := d.hasRealValue || s.value.RealValue?,
       realValue := if s.value.RealValue? then s.value.d else d.realValue)
  }

  /** copy_measurement */
  function CopyMeasurement(d: Record, s: MeasRecord): Record {
    CopyValueField(CopyDescriptorField(CopyHead(d, s), s), s)
  }

  function MapDiagnosticStatus(s: Status): CanonicalRecord.Status {
    match s
    case LengthMismatch => CanonicalRecord.LengthMismatch
    case UnsupportedUeId => CanonicalRecord.UnsupportedUeId
    case UnsupportedDescriptor => CanonicalRecord.UnsupportedDescriptor
    case UnsupportedValueType => CanonicalRecord.UnsupportedValueType
    case _ => CanonicalRecord.InvalidInput
  }

  function DiagnosticCode(s: Status): string {
    match s
    case LengthMismatch => "length_mismatch"
    case UnsupportedUeId => "unsupported_ue_id"
    case UnsupportedDescriptor => "unsupported_descriptor"
    case UnsupportedValueType => "unsupported_value_type"
    case UnknownMessageFormat => "unknown_message_format"
    case _ => "invalid_input"
  }

  function DiagnosticText(s: MeasRecord): seq<byte> {
    Ascii("meas_info_lst_len=") + Decimal(s.infoLength) + Ascii(" meas_record_len=") + Decimal(s.recordLength)
  }

  /** copy_diagnostic */
  function CopyDiagnostic(d: Record, s: MeasRecord): Record {
    d.(recordKind := CanonicalRecord.Diagnostic,
       structuralStatus := MapDiagnosticStatus(s.status),
       descriptorType := CanonicalRecord.DescriptorUnknown,
       valueType := CanonicalRecord.ValueUnknown,
       hasDiagnosticCode := true, diagnosticCode := Printed(Ascii(DiagnosticCode(s.status)), 64),
       hasDiagnosticMessage := true, diagnosticMessage := Printed(DiagnosticText(s), 256))
  }

  /** The record tcd_kpm_output_adapter_submit hands to the pipeline. */
  function Adapt(s: MeasRecord): Record {
    var common := CopyCommon(Blank(), s);
    if s.status == Ok || s.status == NoValueStatus then CopyMeasurement(common, s) else CopyDiagnostic(common, s)
  }

  // ---- printed text is a good string ----

  predicate Clean(text: seq<byte>) { forall i :: 0 <= i < |text| ==> 0 < text[i] < 0x80 }

  lemma {:induction false} CStringOfPadded(text: seq<byte>, capacity: nat)
    requires |text| < capacity && 0 !in text
    ensures Utf8.Terminated(Padded(text, capacity)) && Utf8.CString(Padded(text, capacity)) == text
  {
    var buffer := Padded(text, capacity);
    assert buffer[|text|] == 0;
    assert buffer[..|text|] == text;
    Utf8.CStringIsScanned(buffer, |text|);
  }

  lemma CleanIsGood(text: seq<byte>, capacity: nat)
    requires Clean(text) && |text| < capacity
    ensures CanonicalRecord.GoodString(Printed(text, capacity)) && Utf8.CString(Printed(text, capacity)) == text
  {
    CStringOfPadded(text, capacity);
    Utf8.AsciiWellFormed(text);
  }

  lemma CleanDecimal(n: nat)
    ensures Clean(Decimal(n))
  {
  }

  lemma CleanConcat(s: seq<byte>, t: seq<byte>)
    requires Clean(s) && Clean(t)
    ensures Clean(s + t)
  {
  }

  lemma NodeTypeIsGood(raw: u32)
    ensures CanonicalRecord.GoodString(Printed(NodeTypeText(raw), 32))
  {
    NumeralLengths();
    assert Clean(Ascii("raw_"));
    CleanConcat(Ascii("raw_"), Decimal(raw));
    CleanIsGood(NodeTypeText(raw), 32);
  }

  lemma UeTypeIsClean(kind: UeKind)
    ensures Clean(UeTypeText(kind)) && 0 < |UeTypeText(kind)| < 32
  {
  }

  lemma UeTypeIsGood(kind: UeKind)
    ensures CanonicalRecord.GoodString(Printed(UeTypeText(kind), 32))
    ensures Utf8.CString(Printed(UeTypeText(kind), 32)) != []
  {
    hide Printed;
    hide Utf8.CString;
    hide CanonicalRecord.GoodString;
    UeTypeIsClean(kind);
    hide UeTypeText;
    CleanIsGood(UeTypeText(kind), 32);
  }

  lemma LabelledIsGood(title: string, n: u64, capacity: nat)
    requires |title| <= 30 && capacity > 50 && forall i :: 0 <= i < |title| ==> 0 < title[i] as int < 0x80
    ensures CanonicalRecord.GoodString(Printed(Ascii(title) + Decimal(n), capacity))
  {
    NumeralLengths();
    CleanConcat(Ascii(title), Decimal(n));
    CleanIsGood(Ascii(title) + Decimal(n), capacity);
  }

  lemma UeValueIsGood(ue: UeId)
    requires UeValueText(ue).Some?
    ensures CanonicalRecord.GoodString(Printed(UeValueText(ue).value, 128))
  {
    hide Printed;
    hide Ascii;
    hide Decimal;
    hide CanonicalRecord.GoodString;
    match ue.kind {
      case Gnb => LabelledIsGood("amf_ue_ngap_id=", ue.amf.value, 128);
      case GnbDu => LabelledIsGood("gnb_cu_ue_f1ap=", ue.f1ap.value, 128);
      case GnbCuUp => LabelledIsGood("gnb_cu_cp_ue_e1ap=", ue.e1ap.value, 128);
    }
  }

  lemma LiteralIsGood(text: string, capacity: nat)
    requires 0 < |text| < capacity && forall i :: 0 <= i < |text| ==> 0 < text[i] as int < 0x80
    ensures CanonicalRecord.GoodString(Printed(Ascii(text), capacity))
    ensures Utf8.CString(Printed(Ascii(text), capacity)) != []
  {
    CleanIsGood(Ascii(text), capacity);
  }

  lemma CodeIsShort(s: Status)
    ensures var code := DiagnosticCode(s);
      0 < |code| < 64 && forall i :: 0 <= i < |code| ==> 0 < code[i] as int < 0x80
  {
  }

  lemma CodeIsGood(s: Status)
    ensures CanonicalRecord.GoodString(Printed(Ascii(DiagnosticCode(s)), 64))
    ensures Utf8.CString(Printed(Ascii(DiagnosticCode(s)), 64)) != []
  {
    hide Printed;
    hide Ascii;
    hide DiagnosticCode;
    hide CanonicalRecord.GoodString;
    CodeIsShort(s);
    LiteralIsGood(DiagnosticCode(s), 64);
  }

  lemma CleanDiagnosticText(s: MeasRecord)
    ensures Clean(DiagnosticText(s)) && |DiagnosticText(s)| < 256
  {
    NumeralLengths();
    CleanLiteral("meas_info_lst_len=");
    CleanLiteral(" meas_record_len=");
    hide Ascii;
    hide Decimal;
    CleanDecimal(s.infoLength);
    CleanDecimal(s.recordLength);
    var left := Ascii("meas_info_lst_len=") + Decimal(s.infoLength);
    CleanConcat(Ascii("meas_info_lst_len="), Decimal(s.infoLength));
    CleanConcat(left, Ascii(" meas_record_len="));
    CleanConcat(left + Ascii(" meas_record_len="), Decimal(s.recordLength));
  }

  lemma MessageIsGood(s: MeasRecord)
    ensures CanonicalRecord.GoodString(Printed(DiagnosticText(s), 256))
  {
    hide Printed;
    hide CanonicalRecord.GoodString;
    hide DiagnosticText;
    CleanDiagnosticText(s);
    CleanIsGood(DiagnosticText(s), 256);
  }

  lemma CleanLiteral(text: string)
    requires forall i :: 0 <= i < |text| ==> 0 < text[i] as int < 0x80
    ensures Clean(Ascii(text)) && |Ascii(text)| == |text|
  {
  }

  /** Copying a terminated text into a buffer of its own size keeps it. */
  lemma CopyKeepsText(buffer: seq<byte>)
    requires |buffer| > 0 && Utf8.Terminated(buffer)
    ensures Utf8.Terminated(Printed(Utf8.CString(buffer), |buffer|))
    ensures Utf8.CString(Printed(Utf8.CString(buffer), |buffer|)) == Utf8.CString(buffer)
  {
    CStringOfPadded(Utf8.CString(buffer), |buffer|);
  }

  // ---- what the callback builds ----

  /** The node identifier tcd_kpm_format_node_id prints. */
  function NodeIdText(nb: u64, cuDu: Option<u64>): seq<byte> {
    Ascii("nb_id=") + Decimal(nb) + if cuDu.Some? then Ascii(";cu_du_id=") + Decimal(cuDu.value) else []
  }

  ghost predicate NamedNode(i: Indication) {
    exists nb: u64, cuDu: Option<u64> :: i.nodeId == Printed(NodeIdText(nb, cuDu), 128)
  }

  lemma NodeIdIsGood(nb: u64, cuDu: Option<u64>)
    ensures CanonicalRecord.GoodString(Printed(NodeIdText(nb, cuDu), 128))
    ensures |NodeIdText(nb, cuDu)| < 128
  {
    NumeralLengths();
    assert Clean(Ascii("nb_id=")) && Clean(Ascii(";cu_du_id="));
    CleanConcat(Ascii("nb_id="), Decimal(nb));
    if cuDu.Some? { CleanConcat(Ascii(";cu_du_id="), Decimal(cuDu.value)); }
    CleanIsGood(NodeIdText(nb, cuDu), 128);
  }

  /** What every record of an indication satisfies. */
  ghost predicate Built(m: MeasRecord) {
    && NamedNode(m.indication)
    && (m.status == Ok || m.status == NoValueStatus ==>
          && m.recordIndex == m.infoIndex
          && !m.descriptor.NoDescriptor?
          && (m.status == Ok ==> m.value.IntegerValue? || m.value.RealValue?)
          && (m.status == NoValueStatus ==> m.value.NoValue?))
    && (m.descriptor.NameDescriptor? ==> Utf8.Terminated(m.descriptor.buffer))
    && (m.status == LengthMismatch ==> m.infoLength != m.recordLength)
  }

  lemma ValueRecordBuilt(c: Call, i: nat, j: nat)
    requires NamedNode(c.indication)
    requires i < RowCount(c.message) && Verdict(c, i).RowOk? && j < Verdict(c, i).values
    ensures Built(ValueRecord(c, i, j))
  {
    hide Printed;
    hide NodeIdText;
    var source := c.message.infos.items[j];
    if source.NameInfo? {
      var bytes := if source.name.Items? then source.name.items else [];
      PaddedTerminates(NamePrefix(bytes), 256);
      PaddedTerminates([], 256);
    }
  }

  lemma PaddedTerminates(text: seq<byte>, capacity: nat)
    requires |text| < capacity
    ensures Utf8.Terminated(Padded(text, capacity))
  {
    assert Padded(text, capacity)[|text|] == 0;
  }

  lemma DiagnosticBuilt(c: Call, i: nat)
    requires NamedNode(c.indication) && i < RowCount(c.message) && !Verdict(c, i).RowOk?
    ensures Built(RowDiagnostic(c, i))
  {
    hide NamedNode;
    RowVerdicts(ShapeOf(c.message, c.message.rows.items[i]));
  }

  lemma {:induction false} RowBuilt(c: Call, i: nat, n: nat)
    requires NamedNode(c.indication) && i < RowCount(c.message) && Verdict(c, i).RowOk? && n <= Verdict(c, i).values
    ensures forall m :: m in ValueRecords(c, i, n) ==> Built(m)
  {
    hide Built;
    hide NamedNode;
    hide ValueRecord;
    hide Verdict;
    if n > 0 {
      RowBuilt(c, i, n - 1);
      ValueRecordBuilt(c, i, n - 1);
      assert ValueRecords(c, i, n) == ValueRecords(c, i, n - 1) + [ValueRecord(c, i, n - 1)];
    }
  }

  lemma {:induction false} MessageRecordsBuilt(c: Call, n: nat)
    requires NamedNode(c.indication) && n <= RowCount(c.message)
    ensures forall m :: m in MessageRecords(c, n) ==> Built(m)
  {
    hide Built;
    hide NamedNode;
    hide ValueRecord;
    hide RowDiagnostic;
    hide Verdict;
    if n > 0 {
      MessageRecordsBuilt(c, n - 1);
      if Verdict(c, n - 1).RowOk? {
        RowBuilt(c, n - 1, Verdict(c, n - 1).values);
      } else {
        DiagnosticBuilt(c, n - 1);
      }
    }
  }

  lemma {:induction false} ReportRecordsBuilt(indication: Indication, reports: seq<UeReport>, n: nat)
    requires NamedNode(indication) && n <= |reports|
    ensures forall m :: m in ReportRecords(indication, reports, n) ==> Built(m)
  {
    hide Built;
    hide NamedNode;
    hide MessageRecords;
    if n > 0 {
      ReportRecordsBuilt(indication, reports, n - 1);
      var c := ReportCall(indication, reports, n - 1);
      MessageRecordsBuilt(c, RowCount(c.message));
    }
  }

  lemma IndicationRecordsBuilt(indication: Indication, message: KpmMessage)
    requires NamedNode(indication)
    ensures forall m :: m in IndicationRecords(indication, message) ==> Built(m)
  {
    hide NamedNode;
    hide MessageRecords;
    hide ReportRecords;
    match message {
      case Format1Message(m) =>
        MessageRecordsBuilt(Call(indication, U32_MAX, NoUe, m), RowCount(m));
      case Format3Message(reports) =>
        if reports.Items? { ReportRecordsBuilt(indication, reports.items, |reports.items|); }
      case OtherMessage =>
    }
  }

  // ---- which records the validator accepts ----

  /** The one demand the output path makes on the values an indication carries. */
  ghost predicate Admissible(m: MeasRecord) {
    m.status == Ok || m.status == NoValueStatus ==>
      && (m.descriptor.NameDescriptor? ==>
            Utf8.CString(m.descriptor.buffer) != [] && Utf8.WellFormed(Utf8.CString(m.descriptor.buffer)))
      && (m.value.RealValue? ==> m.value.d.Finite?)
  }

  /** The strings copy_common leaves behind. */
  lemma CommonStrings(m: MeasRecord)
    requires NamedNode(m.indication)
    ensures var d := CopyCommon(Blank(), m);
      && CanonicalRecord.GoodString(d.ueIdType) && Utf8.CString(d.ueIdType) != []
      && (d.hasNodeType ==> CanonicalRecord.GoodString(d.nodeType))
      && (d.hasNodeId ==> CanonicalRecord.GoodString(d.nodeId))
      && (d.hasUeIdValue ==> CanonicalRecord.GoodString(d.ueIdValue))
  {
    hide CopyCommon;
    hide Blank;
    hide CanonicalRecord.GoodString;
    hide NodeTypeText;
    hide NodeIdText;
    hide UeTypeText;
    hide UeValueText;
    hide Printed;
    CommonFields(m);
    NodeTypeIsGood(m.indication.nodeType);
    UeTypeIsGood(m.ue.kind);
    if UeValueText(m.ue).Some? { UeValueIsGood(m.ue); }
    var nb: u64, cuDu: Option<u64> :| m.indication.nodeId == Printed(NodeIdText(nb, cuDu), 128);
    NodeIdIsGood(nb, cuDu);
    CopiedNodeId(m.indication.nodeId);
  }

  lemma CopiedNodeId(nodeId: Text128)
    requires CanonicalRecord.GoodString(nodeId)
    ensures CanonicalRecord.GoodString(Printed(Utf8.CString(nodeId), 128))
  {
    CopyKeepsText(nodeId);
  }

  /** The strings of a record that only copy_node and copy_ue write. */
  predicate SameStrings(r: Record, d: Record) {
    && r.ueIdType == d.ueIdType && r.hasNodeType == d.hasNodeType && r.nodeType == d.nodeType
    && r.hasNodeId == d.hasNodeId && r.nodeId == d.nodeId
    && r.hasUeIdValue == d.hasUeIdValue && r.ueIdValue == d.ueIdValue
  }

  /** The fields only copy_measurement and copy_diagnostic write are still blank. */
  predicate Unfilled(d: Record) {
    && !d.hasMeasInfoIndex && !d.hasMeasRecordIndex && !d.hasMeasurementName && !d.hasMeasurementId
    && !d.hasIntegerValue && !d.hasRealValue && !d.hasDiagnosticCode && !d.hasDiagnosticMessage
  }

  lemma BlankIsUnfilled()
    ensures Unfilled(Blank()) && !Blank().hasNodeId && !Blank().hasUeIdValue
  {
  }

  lemma TimesKeep(d: Record, m: MeasRecord)
    requires Unfilled(d)
    ensures Unfilled(CopyTimes(d, m)) && SameStrings(CopyTimes(d, m), d)
  {
  }

  lemma NodeFields(d: Record, m: MeasRecord)
    requires Unfilled(d) && !d.hasNodeId && !d.hasUeIdValue
    ensures var r := CopyNode(d, m);
      && Unfilled(r) && !r.hasUeIdValue
      && r.nodeType == Printed(NodeTypeText(m.indication.nodeType), 32)
      && (r.hasNodeId ==> r.nodeId == Printed(Utf8.CString(m.indication.nodeId), 128))
  {
    hide Printed;
    hide NodeTypeText;
  }

  lemma UeFields(d: Record, m: MeasRecord)
    requires Unfilled(d) && !d.hasUeIdValue
    ensures var r := CopyUe(d, m);
      && Unfilled(r)
      && r.nodeType == d.nodeType && r.hasNodeId == d.hasNodeId && r.nodeId == d.nodeId
      && r.ueIdType == Printed(UeTypeText(m.ue.kind), 32)
      && r.hasUeIdValue == UeValueText(m.ue).Some?
      && (r.hasUeIdValue ==> r.ueIdValue == Printed(UeValueText(m.ue).value, 128))
  {
    hide Printed;
    hide UeTypeText;
    hide UeValueText;
  }

  lemma ShapeFields(d: Record, m: MeasRecord)
    requires Unfilled(d)
    ensures var r := CopyShape(d, m);
      && Unfilled(r) && SameStrings(r, d)
      && r.measInfoLstLen == m.infoLength && r.measRecordLen == m.recordLength
      && (r.incompleteFlag ==> r.incompleteFlagPresent)
  {
  }

  /** What copy_common leaves behind. */
  lemma CommonFields(m: MeasRecord)
    ensures var d := CopyCommon(Blank(), m);
      && Unfilled(d)
      && d.measInfoLstLen == m.infoLength && d.measRecordLen == m.recordLength
      && (d.incompleteFlag ==> d.incompleteFlagPresent)
      && d.nodeType == Printed(NodeTypeText(m.indication.nodeType), 32)
      && d.ueIdType == Printed(UeTypeText(m.ue.kind), 32)
      && (d.hasNodeId ==> d.nodeId == Printed(Utf8.CString(m.indication.nodeId), 128))
      && d.hasUeIdValue == UeValueText(m.ue).Some?
      && (d.hasUeIdValue ==> d.ueIdValue == Printed(UeValueText(m.ue).value, 128))
  {
    hide Printed;
    hide UeTypeText;
    hide UeValueText;
    hide NodeTypeText;
    hide Unfilled;
    hide Blank;
    hide CopyTimes;
    hide CopyNode;
    hide CopyUe;
    hide CopyShape;
    BlankIsUnfilled();
    var d1 := CopyTimes(Blank(), m);
    TimesKeep(Blank(), m);
    var d2 := CopyNode(d1, m);
    NodeFields(d1, m);
    var d3 := CopyUe(d2, m);
    UeFields(d2, m);
    ShapeFields(d3, m);
  }

  lemma HeadFields(d: Record, m: MeasRecord)
    requires Unfilled(d)
    ensures var r := CopyHead(d, m);
      && SameStrings(r, d) && r.incompleteFlag == d.incompleteFlag && r.incompleteFlagPresent == d.incompleteFlagPresent
      && r.recordKind == CanonicalRecord.Measurement
      && r.hasMeasInfoIndex && r.hasMeasRecordIndex
      && r.measInfoIndex == m.infoIndex && r.measRecordIndex == m.recordIndex
      && r.structuralStatus ==
         (if m.status == NoValueStatus then CanonicalRecord.StatusNoValue else CanonicalRecord.StatusOk)
      && !r.hasMeasurementName && !r.hasMeasurementId && !r.hasIntegerValue && !r.hasRealValue
      && !r.hasDiagnosticCode && !r.hasDiagnosticMessage
  {
  }

  /** The fields copy_measurement's last two steps leave alone. */
  predicate SameHead(r: Record, d: Record) {
    && SameStrings(r, d) && r.incompleteFlag == d.incompleteFlag && r.incompleteFlagPresent == d.incompleteFlagPresent
    && r.recordKind == d.recordKind && r.hasMeasInfoIndex == d.hasMeasInfoIndex
    && r.hasMeasRecordIndex == d.hasMeasRecordIndex && r.measInfoIndex == d.measInfoIndex
    && r.measRecordIndex == d.measRecordIndex && r.structuralStatus == d.structuralStatus
    && r.hasDiagnosticCode == d.hasDiagnosticCode && r.hasDiagnosticMessage == d.hasDiagnosticMessage
  }

  lemma DescriptorFields(d: Record, m: MeasRecord)
    requires !d.hasMeasurementName && !d.hasMeasurementId && !m.descriptor.NoDescriptor?
    ensures var r := CopyDescriptorField(d, m);
      && SameHead(r, d) && r.hasIntegerValue == d.hasIntegerValue && r.hasRealValue == d.hasRealValue
      && r.hasMeasurementName == m.descriptor.NameDescriptor? && r.hasMeasurementId == m.descriptor.IdDescriptor?
      && (r.hasMeasurementName ==>
            && r.descriptorType == CanonicalRecord.DescriptorName
            && r.measurementName == Printed(Utf8.CString(m.descriptor.buffer), 256))
      && (r.hasMeasurementId ==> r.descriptorType == CanonicalRecord.DescriptorId)
  {
    hide Printed;
  }

  lemma ValueFields(d: Record, m: MeasRecord)
    requires !d.hasIntegerValue && !d.hasRealValue
    ensures var r := CopyValueField(d, m);
      && SameHead(r, d)
      && r.descriptorType == d.descriptorType && r.hasMeasurementName == d.hasMeasurementName
      && r.measurementName == d.measurementName && r.hasMeasurementId == d.hasMeasurementId
      && r.hasIntegerValue == m.value.IntegerValue? && r.hasRealValue == m.value.RealValue?
      && (m.value.IntegerValue? ==> r.valueType == CanonicalRecord.ValueInteger)
      && (m.value.RealValue? ==> r.valueType == CanonicalRecord.ValueReal && r.realValue == m.value.d)
      && (m.value.NoValue? ==> r.valueType == CanonicalRecord.ValueNoValue)
  {
  }

  /** What copy_measurement makes of a record that copy_common filled. */
  lemma MeasurementFields(d: Record, m: MeasRecord)
    requires Built(m) && (m.status == Ok || m.status == NoValueStatus) && Unfilled(d)
    ensures var r := CopyMeasurement(d, m);
      && SameStrings(r, d) && r.incompleteFlag == d.incompleteFlag && r.incompleteFlagPresent == d.incompleteFlagPresent
      && CanonicalRecord.GoodMeasurement(r) ==
         (&& (r.hasMeasurementName ==> Utf8.CString(r.measurementName) != [])
          && (m.value.RealValue? ==> m.value.d.Finite?))
      && !CanonicalRecord.GoodDiagnostic(r)
      && !r.hasDiagnosticCode && !r.hasDiagnosticMessage
      && r.hasMeasurementName == m.descriptor.NameDescriptor?
      && (r.hasMeasurementName ==> r.measurementName == Printed(Utf8.CString(m.descriptor.buffer), 256))
  {
    hide Printed;
    hide NamedNode;
    hide CopyHead;
    hide CopyDescriptorField;
    hide CopyValueField;
    HeadFields(d, m);
    var d1 := CopyHead(d, m);
    DescriptorFields(d1, m);
    ValueFields(CopyDescriptorField(d1, m), m);
  }

  lemma MeasurementAccepted(m: MeasRecord)
    requires Built(m) && (m.status == Ok || m.status == NoValueStatus)
    ensures CanonicalRecord.Valid(Adapt(m)) <==> Admissible(m)
  {
    hide CopyCommon;
    hide CopyMeasurement;
    hide Blank;
    hide NamedNode;
    hide Printed;
    hide CanonicalRecord.GoodMeasurement;
    hide CanonicalRecord.GoodDiagnostic;
    CommonStrings(m);
    CommonFields(m);
    var d := CopyCommon(Blank(), m);
    MeasurementFields(d, m);
    if m.descriptor.NameDescriptor? { CopyKeepsText(m.descriptor.buffer); }
  }

  lemma DiagnosticAccepted(m: MeasRecord)
    requires Built(m) && m.status != Ok && m.status != NoValueStatus
    ensures CanonicalRecord.Valid(Adapt(m))
  {
    hide CopyCommon;
    hide Blank;
    hide NamedNode;
    hide Printed;
    hide DiagnosticText;
    CommonStrings(m);
    CommonFields(m);
    CodeIsGood(m.status);
    MessageIsGood(m);
    hide DiagnosticCode;
    hide CanonicalRecord.GoodString;
  }

  /** Every record of every indication is mapped to a canonical record that the validator accepts
      exactly when a name it carries is, up to its first NUL and at most 255 bytes, non-empty
      well-formed UTF-8 and a real it carries is finite. Diagnostics are always accepted. */
  lemma AdapterContract(indication: Indication, message: KpmMessage, m: MeasRecord)
    requires NamedNode(indication) && m in IndicationRecords(indication, message)
    ensures CanonicalRecord.Valid(Adapt(m)) <==> Admissible(m)
  {
    hide IndicationRecords;
    hide NamedNode;
    hide Built;
    hide CanonicalRecord.Valid;
    hide Adapt;
    IndicationRecordsBuilt(indication, message);
    if m.status == Ok || m.status == NoValueStatus { MeasurementAccepted(m); } else { DiagnosticAccepted(m); }
  }

  // ---- what the canonical record carries ----

  function TextOf(buffer: seq<byte>): Option<seq<byte>> {
    if Utf8.CString(buffer) == [] then None else Some(Utf8.CString(buffer))
  }

  function IndexOf(i: u32): Option<u32> { if i == U32_MAX then None else Some(i) }

  /** Times, node, UE and shape, as the canonical view shows them. */
  predicate CarriesCommon(c: CanonicalRecord.Canonical, m: MeasRecord) {
    && c.indicationSequence == m.indication.sequence
    && c.receiveTimestampUs * 1000 <=
         (if m.indication.receiveTimestampNs > 0 then m.indication.receiveTimestampNs else 0)
    && (m.indication.receiveTimestampNs > 0 ==> m.indication.receiveTimestampNs < (c.receiveTimestampUs + 1) * 1000)
    && c.kpmHeaderTimestampUs ==
       (if m.indication.headerTimestamp == 0 then None else Some(m.indication.headerTimestamp))
    && c.messageFormat == m.indication.messageFormat
    && c.nodeType == Some(NodeTypeText(m.indication.nodeType)) && c.nodeId == TextOf(m.indication.nodeId)
    && c.ueReportIndex == IndexOf(m.ueReportIndex) && c.measDataIndex == IndexOf(m.dataIndex)
    && c.ueIdType == UeTypeText(m.ue.kind) && c.ueIdValue == UeValueText(m.ue)
    && c.measDataLstLen == m.dataLength && c.measInfoLstLen == m.infoLength && c.measRecordLen == m.recordLength
    && c.incompleteFlag == m.incomplete
  }

  /** What was measured. */
  predicate CarriesValue(c: CanonicalRecord.Canonical, m: MeasRecord) {
    && c.recordKind == CanonicalRecord.Measurement
    && c.measInfoIndex == Some(m.infoIndex) && c.measRecordIndex == Some(m.recordIndex)
    && c.structuralStatus ==
       (if m.status == NoValueStatus then CanonicalRecord.StatusNoValue else CanonicalRecord.StatusOk)
    && c.measurementName == (if m.descriptor.NameDescriptor? then Some(Utf8.CString(m.descriptor.buffer)) else None)
    && c.measurementId == (if m.descriptor.IdDescriptor? then Some(m.descriptor.id) else None)
    && c.descriptorType ==
       (if m.descriptor.NameDescriptor? then CanonicalRecord.DescriptorName else CanonicalRecord.DescriptorId)
    && c.valueType ==
       (if m.value.IntegerValue? then CanonicalRecord.ValueInteger
        else if m.value.RealValue? then CanonicalRecord.ValueReal else CanonicalRecord.ValueNoValue)
    && c.integerValue == (if m.value.IntegerValue? then Some(m.value.i) else None)
    && c.realValue == (if m.value.RealValue? then Some(m.value.d) else None)
    && c.diagnosticCode == None && c.diagnosticMessage == None
  }

  /** Why nothing was measured. */
  predicate CarriesDiagnosis(c: CanonicalRecord.Canonical, m: MeasRecord) {
    && c.recordKind == CanonicalRecord.Diagnostic
    && c.measInfoIndex == None && c.measRecordIndex == None
    && c.structuralStatus == MapDiagnosticStatus(m.status)
    && c.measurementName == None && c.measurementId == None && c.integerValue == None && c.realValue == None
    && c.descriptorType == CanonicalRecord.DescriptorUnknown && c.valueType == CanonicalRecord.ValueUnknown
    && c.diagnosticCode == Some(Ascii(DiagnosticCode(m.status)))
    && c.diagnosticMessage == Some(DiagnosticText(m))
  }

  /** The fields copy_times and copy_shape fill. */
  predicate SameTimes(r: Record, d: Record) {
    && r.indicationSequence == d.indicationSequence && r.receiveTimestampUs == d.receiveTimestampUs
    && r.hasKpmHeaderTimestampUs == d.hasKpmHeaderTimestampUs
    && r.kpmHeaderTimestampUs == d.kpmHeaderTimestampUs && r.messageFormat == d.messageFormat
  }

  predicate SameShape(r: Record, d: Record) {
    && r.hasUeReportIndex == d.hasUeReportIndex && r.ueReportIndex == d.ueReportIndex
    && r.hasMeasDataIndex == d.hasMeasDataIndex && r.measDataIndex == d.measDataIndex
    && r.measDataLstLen == d.measDataLstLen && r.measInfoLstLen == d.measInfoLstLen
    && r.measRecordLen == d.measRecordLen
    && r.incompleteFlagPresent == d.incompleteFlagPresent && r.incompleteFlag == d.incompleteFlag
  }

  predicate SameCommon(r: Record, d: Record) { SameTimes(r, d) && SameShape(r, d) && SameStrings(r, d) }

  lemma NodeKeepsTimes(d: Record, m: MeasRecord)
    ensures SameTimes(CopyNode(d, m), d)
    ensures CopyNode(d, m).hasNodeType && CopyNode(d, m).hasNodeId == (d.hasNodeId || m.indication.nodeId[0] != 0)
  {
    hide Printed;
    hide NodeTypeText;
  }

  lemma UeKeepsTimes(d: Record, m: MeasRecord)
    ensures SameTimes(CopyUe(d, m), d)
    ensures CopyUe(d, m).hasNodeType == d.hasNodeType && CopyUe(d, m).hasNodeId == d.hasNodeId
  {
    hide Printed;
    hide UeTypeText;
    hide UeValueText;
  }

  lemma ShapeKeepsTimes(d: Record, m: MeasRecord)
    ensures SameTimes(CopyShape(d, m), d) && SameStrings(CopyShape(d, m), d)
  {
  }

  lemma ShapeContent(d: Record, m: MeasRecord)
    requires !d.hasUeReportIndex && !d.hasMeasDataIndex
    ensures var r := CopyShape(d, m);
      && CanonicalRecord.When(r.hasUeReportIndex, r.ueReportIndex) == IndexOf(m.ueReportIndex)
      && CanonicalRecord.When(r.hasMeasDataIndex, r.measDataIndex) == IndexOf(m.dataIndex)
      && r.measDataLstLen == m.dataLength && r.measInfoLstLen == m.infoLength && r.measRecordLen == m.recordLength
      && CanonicalRecord.When(r.incompleteFlagPresent, r.incompleteFlag) == m.incomplete
  {
    FlagReadsBack(m.incomplete);
  }

  lemma FlagReadsBack(o: Option<bool>)
    ensures CanonicalRecord.When(o.Some?, o == Some(true)) == o
  {
    if o.Some? {
      if o.value { assert o == Some(true); } else { assert o == Some(false); }
    }
  }

  /** The fields shape fills are untouched before it. */
  lemma ShapeIsBlankBefore(m: MeasRecord)
    ensures var d := CopyUe(CopyNode(CopyTimes(Blank(), m), m), m);
      !d.hasUeReportIndex && !d.hasMeasDataIndex
  {
    hide Printed;
    hide UeTypeText;
    hide UeValueText;
    hide NodeTypeText;
    var d1 := CopyTimes(Blank(), m);
    assert !d1.hasUeReportIndex && !d1.hasMeasDataIndex;
    var d2 := CopyNode(d1, m);
    assert !d2.hasUeReportIndex && !d2.hasMeasDataIndex;
  }

  lemma TimesContent(d: Record, m: MeasRecord)
    ensures var r := CopyTimes(d, m);
      && r.indicationSequence == m.indication.sequence && r.messageFormat == m.indication.messageFormat
      && r.receiveTimestampUs ==
         (if m.indication.receiveTimestampNs > 0 then m.indication.receiveTimestampNs / 1000 else 0)
      && CanonicalRecord.When(r.hasKpmHeaderTimestampUs, r.kpmHeaderTimestampUs) ==
         (if m.indication.headerTimestamp == 0 then None else Some(m.indication.headerTimestamp))
  {
  }

  /** copy_common, field by field. */
  lemma CommonContent(m: MeasRecord)
    ensures var r := CopyCommon(Blank(), m);
      && SameTimes(r, CopyTimes(Blank(), m))
      && CanonicalRecord.When(r.hasUeReportIndex, r.ueReportIndex) == IndexOf(m.ueReportIndex)
      && CanonicalRecord.When(r.hasMeasDataIndex, r.measDataIndex) == IndexOf(m.dataIndex)
      && r.measDataLstLen == m.dataLength && r.measInfoLstLen == m.infoLength && r.measRecordLen == m.recordLength
      && CanonicalRecord.When(r.incompleteFlagPresent, r.incompleteFlag) == m.incomplete
      && r.hasNodeType && r.hasNodeId == (m.indication.nodeId[0] != 0)
  {
    hide CopyTimes;
    hide CopyNode;
    hide CopyUe;
    hide CopyShape;
    hide Blank;
    BlankIsUnfilled();
    var d1 := CopyTimes(Blank(), m);
    TimesKeep(Blank(), m);
    var d2 := CopyNode(d1, m);
    NodeKeepsTimes(d1, m);
    var d3 := CopyUe(d2, m);
    UeKeepsTimes(d2, m);
    ShapeKeepsTimes(d3, m);
    ShapeIsBlankBefore(m);
    ShapeContent(d3, m);
  }

  /** The texts that were printed read back as printed. */
  lemma CommonTexts(m: MeasRecord)
    requires NamedNode(m.indication)
    ensures Utf8.CString(Printed(NodeTypeText(m.indication.nodeType), 32)) == NodeTypeText(m.indication.nodeType)
    ensures Utf8.CString(Printed(UeTypeText(m.ue.kind), 32)) == UeTypeText(m.ue.kind)
    ensures UeValueText(m.ue).Some? ==>
      Utf8.CString(Printed(UeValueText(m.ue).value, 128)) == UeValueText(m.ue).value
    ensures Utf8.CString(Printed(Utf8.CString(m.indication.nodeId), 128)) == Utf8.CString(m.indication.nodeId)
    ensures m.indication.nodeId[0] != 0 <==> Utf8.CString(m.indication.nodeId) != []
  {
    hide Printed;
    hide NodeIdText;
    NodeTypeReadsBack(m.indication.nodeType);
    UeTypeReadsBack(m.ue.kind);
    if UeValueText(m.ue).Some? { UeValueReadsBack(m.ue); }
    var nb: u64, cuDu: Option<u64> :| m.indication.nodeId == Printed(NodeIdText(nb, cuDu), 128);
    NodeIdIsGood(nb, cuDu);
    CopyKeepsText(m.indication.nodeId);
    hide NodeTypeText;
    hide UeTypeText;
    hide UeValueText;
  }

  lemma NodeTypeReadsBack(raw: u32)
    ensures Utf8.CString(Printed(NodeTypeText(raw), 32)) == NodeTypeText(raw)
  {
    NumeralLengths();
    assert Clean(Ascii("raw_"));
    CleanConcat(Ascii("raw_"), Decimal(raw));
    CleanIsGood(NodeTypeText(raw), 32);
  }

  lemma UeTypeReadsBack(kind: UeKind)
    ensures Utf8.CString(Printed(UeTypeText(kind), 32)) == UeTypeText(kind)
  {
    hide Printed;
    hide Utf8.CString;
    hide CanonicalRecord.GoodString;
    UeTypeIsClean(kind);
    hide UeTypeText;
    CleanIsGood(UeTypeText(kind), 32);
  }

  lemma LabelledReadsBack(title: string, n: u64, capacity: nat)
    requires |title| <= 30 && capacity > 50 && forall i :: 0 <= i < |title| ==> 0 < title[i] as int < 0x80
    ensures Utf8.CString(Printed(Ascii(title) + Decimal(n), capacity)) == Ascii(title) + Decimal(n)
  {
    NumeralLengths();
    CleanConcat(Ascii(title), Decimal(n));
    CleanIsGood(Ascii(title) + Decimal(n), capacity);
  }

  lemma UeValueReadsBack(ue: UeId)
    requires UeValueText(ue).Some?
    ensures Utf8.CString(Printed(UeValueText(ue).value, 128)) == UeValueText(ue).value
  {
    hide Printed;
    hide Ascii;
    hide Decimal;
    match ue.kind {
      case Gnb => LabelledReadsBack("amf_ue_ngap_id=", ue.amf.value, 128);
      case GnbDu => LabelledReadsBack("gnb_cu_ue_f1ap=", ue.f1ap.value, 128);
      case GnbCuUp => LabelledReadsBack("gnb_cu_cp_ue_e1ap=", ue.e1ap.value, 128);
    }
  }

  /** Two UEs of one type that are printed alike have the same identifier. */
  lemma UeValueDistinguishes(a: UeId, b: UeId)
    requires a.kind == b.kind && UeValueText(a).Some? && UeValueText(a) == UeValueText(b)
    ensures a.kind == Gnb ==> a.amf == b.amf
    ensures a.kind == GnbDu ==> a.f1ap == b.f1ap
    ensures a.kind == GnbCuUp ==> a.e1ap == b.e1ap
  {
    match a.kind {
      case Gnb => SameNumber(Ascii("amf_ue_ngap_id="), a.amf.value, b.amf.value);
      case GnbDu => SameNumber(Ascii("gnb_cu_ue_f1ap="), a.f1ap.value, b.f1ap.value);
      case GnbCuUp => SameNumber(Ascii("gnb_cu_cp_ue_e1ap="), a.e1ap.value, b.e1ap.value);
    }
  }

  lemma SameNumber(title: seq<byte>, m: nat, n: nat)
    requires title + Decimal(m) == title + Decimal(n)
    ensures m == n
  {
    assert (title + Decimal(m))[|title|..] == Decimal(m);
    assert (title + Decimal(n))[|title|..] == Decimal(n);
    DecimalRoundTrip(m);
    DecimalRoundTrip(n);
  }

  lemma MeasurementKeepsCommon(d: Record, m: MeasRecord)
    ensures SameCommon(CopyMeasurement(d, m), d)
  {
    hide CopyDescriptorField;
    hide CopyValueField;
    hide CopyHead;
    HeadKeepsCommon(d, m);
    DescriptorKeepsCommon(CopyHead(d, m), m);
    ValueKeepsCommon(CopyDescriptorField(CopyHead(d, m), m), m);
  }

  lemma HeadKeepsCommon(d: Record, m: MeasRecord)
    ensures SameCommon(CopyHead(d, m), d)
  {
  }

  lemma DescriptorKeepsCommon(d: Record, m: MeasRecord)
    ensures SameCommon(CopyDescriptorField(d, m), d)
  {
    hide Printed;
  }

  lemma ValueKeepsCommon(d: Record, m: MeasRecord)
    ensures SameCommon(CopyValueField(d, m), d)
  {
  }

  lemma DiagnosticKeepsCommon(d: Record, m: MeasRecord)
    ensures SameCommon(CopyDiagnostic(d, m), d)
  {
    hide Printed;
    hide DiagnosticText;
    hide DiagnosticCode;
    hide MapDiagnosticStatus;
  }

  lemma CommonCarries(r: Record, m: MeasRecord)
    requires NamedNode(m.indication) && SameCommon(r, CopyCommon(Blank(), m))
    ensures CarriesCommon(CanonicalRecord.ViewOf(r), m)
  {
    hide CopyCommon;
    hide CopyTimes;
    hide Blank;
    hide Printed;
    hide NodeTypeText;
    hide UeTypeText;
    hide UeValueText;
    hide NamedNode;
    CommonFields(m);
    CommonContent(m);
    TimesContent(Blank(), m);
    CommonTexts(m);
  }

  /** The canonical record of a measurement carries its times, places, lengths, name or identifier
      and value, each in its own field and nothing else. */
  lemma MeasurementCarries(m: MeasRecord)
    requires Built(m) && (m.status == Ok || m.status == NoValueStatus)
    ensures CarriesCommon(CanonicalRecord.ViewOf(Adapt(m)), m)
    ensures CarriesValue(CanonicalRecord.ViewOf(Adapt(m)), m)
  {
    hide CopyCommon;
    hide Blank;
    hide Printed;
    hide NamedNode;
    hide CarriesCommon;
    hide SameCommon;
    hide CopyHead;
    hide CopyDescriptorField;
    hide CopyValueField;
    var d := CopyCommon(Blank(), m);
    MeasurementKeepsCommon(d, m);
    CommonCarries(Adapt(m), m);
    CommonFields(m);
    HeadFields(d, m);
    var d1 := CopyHead(d, m);
    DescriptorFields(d1, m);
    DescriptorIdField(d1, m);
    var d2 := CopyDescriptorField(d1, m);
    ValueFields(d2, m);
    ValueIdField(d2, m);
    if m.descriptor.NameDescriptor? { CopyKeepsText(m.descriptor.buffer); }
  }

  lemma DescriptorIdField(d: Record, m: MeasRecord)
    ensures m.descriptor.IdDescriptor? ==> CopyDescriptorField(d, m).measurementId == m.descriptor.id
  {
    hide Printed;
  }

  lemma ValueIdField(d: Record, m: MeasRecord)
    ensures CopyValueField(d, m).measurementId == d.measurementId
    ensures m.value.IntegerValue? ==> CopyValueField(d, m).integerValue == m.value.i
  {
  }

  /** The canonical record of a diagnostic carries the same places and lengths, its code and a
      message with both lengths. */
  lemma DiagnosticCarries(m: MeasRecord)
    requires Built(m) && m.status != Ok && m.status != NoValueStatus
    ensures CarriesCommon(CanonicalRecord.ViewOf(Adapt(m)), m)
    ensures CarriesDiagnosis(CanonicalRecord.ViewOf(Adapt(m)), m)
  {
    hide CopyCommon;
    hide Blank;
    hide Printed;
    hide NamedNode;
    hide CarriesCommon;
    hide SameCommon;
    hide DiagnosticText;
    hide DiagnosticCode;
    hide MapDiagnosticStatus;
    var d := CopyCommon(Blank(), m);
    DiagnosticKeepsCommon(d, m);
    CommonCarries(Adapt(m), m);
    CommonFields(m);
    DiagnosticTexts(m);
  }

  lemma LiteralReadsBack(text: string, capacity: nat)
    requires |text| < capacity && forall i :: 0 <= i < |text| ==> 0 < text[i] as int < 0x80
    ensures Utf8.CString(Printed(Ascii(text), capacity)) == Ascii(text)
  {
    CleanIsGood(Ascii(text), capacity);
  }

  lemma DiagnosticTexts(m: MeasRecord)
    ensures Utf8.CString(Printed(Ascii(DiagnosticCode(m.status)), 64)) == Ascii(DiagnosticCode(m.status))
    ensures Utf8.CString(Printed(DiagnosticText(m), 256)) == DiagnosticText(m)
  {
    hide Printed;
    hide Ascii;
    hide DiagnosticText;
    hide DiagnosticCode;
    hide CanonicalRecord.GoodString;
    CodeIsShort(m.status);
    LiteralReadsBack(DiagnosticCode(m.status), 64);
    CleanDiagnosticText(m);
    CleanIsGood(DiagnosticText(m), 256);
  }

  /** In particular a name of at most 255 bytes that is non-empty NUL-free UTF-8 passes whole. */
  lemma ShortNamesPass(name: seq<byte>)
    requires 0 < |name| <= 255 && 0 !in name && Utf8.WellFormed(name)
    ensures var d := CopyDescriptor(NameInfo(Items(name))).0;
      && !d.truncated
      && Utf8.CString(d.buffer) == name
      && Utf8.CString(d.buffer) != [] && Utf8.WellFormed(Utf8.CString(d.buffer))
  {
    CStringOfPadded(name, 256);
  }

  /** A longer name is cut after 255 bytes, and says so; its original length is kept. */
  lemma LongNamesAreCut(name: seq<byte>)
    ensures var d := CopyDescriptor(NameInfo(Items(name))).0;
      && d.length == |name| && (d.truncated <==> |name| > 255)
      && (0 !in name ==> Utf8.CString(d.buffer) == if |name| > 255 then name[..255] else name)
  {
    if 0 !in name { CStringOfPadded(NamePrefix(name), 256); }
  }

  /** tcd_kpm_output_adapter_submit: the canonical struct is filled step by step and submitted. */
  method Submit(pipeline: OutputPipeline.Pipeline, s: MeasRecord, locked: bool) returns (ok: bool)
    requires pipeline.Valid()
    modifies pipeline, pipeline.queue
    ensures pipeline.Valid()
    ensures ok <==>
      CanonicalRecord.Valid(Adapt(s)) && locked && !OutputPipeline.Refuses(pipeline.config, old(pipeline.View()))
    ensures pipeline.View() ==
      if ok then OutputPipeline.Enqueue(pipeline.config, old(pipeline.View()), Adapt(s))
      else OutputPipeline.MarkFailed(OutputPipeline.CountDrop(old(pipeline.View())))
  {
    hide CanonicalRecord.Valid;
    var canonical := Blank();
    canonical := CopyCommon(canonical, s);
    if s.status == Ok || s.status == NoValueStatus {
      canonical := CopyMeasurement(canonical, s);
    } else {
      canonical := CopyDiagnostic(canonical, s);
    }
    ok := pipeline.TrySubmit(canonical, locked);
  }
}
