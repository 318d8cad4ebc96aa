/** From the structs of an indication to the canonical records and their lines: what each record says
    of the value, row and UE it was made from. */
module KpmMeaning {
  import opened Bytes
  import C = CanonicalRecord
  import opened KpmCallback
  import KpmAdapter
  import Json
  import Utf8

  /** The view of the record tcd_kpm_output_adapter_submit hands on. */
  function Shown(m: MeasRecord): C.Canonical { C.ViewOf(KpmAdapter.Adapt(m)) }

  // ---- the UE ----

  /** The UE's type and identifier, as text. */
  predicate ShowsUe(v: C.Canonical, source: UeSource) {
    match source
    case GnbUe(amf, _, _) =>
      v.ueIdType == Ascii("gnb") && v.ueIdValue == Some(Ascii("amf_ue_ngap_id=") + Decimal(amf))
    case GnbDuUe(f1ap, _) =>
      v.ueIdType == Ascii("gnb_du") && v.ueIdValue == Some(Ascii("gnb_cu_ue_f1ap=") + Decimal(f1ap))
    case GnbCuUpUe(e1ap, _) =>
      v.ueIdType == Ascii("gnb_cu_up") && v.ueIdValue == Some(Ascii("gnb_cu_cp_ue_e1ap=") + Decimal(e1ap))
    case _ => v.ueIdType == Ascii("unknown") && v.ueIdValue == None
  }

  lemma UeShown(v: C.Canonical, m: MeasRecord, source: UeSource)
    requires KpmAdapter.CarriesCommon(v, m) && UeFrom(source, m.ue)
    ensures ShowsUe(v, source)
  {
    hide Ascii;
    hide Decimal;
    hide KpmAdapter.NodeTypeText;
    hide KpmAdapter.TextOf;
  }

  // ---- times and places ----

  /** Sequence number, times and format of the indication, the node, and the places and lengths of the
      row; a place that does not fit 32 bits, or is the largest, is not shown. */
  predicate ShowsRow(v: C.Canonical, c: Call, i: nat)
    requires i < RowCount(c.message)
  {
    var ind, row := c.indication, c.message.rows.items[i];
    && v.indicationSequence == ind.sequence && v.messageFormat == ind.messageFormat
    && (ind.receiveTimestampNs <= 0 ==> v.receiveTimestampUs == 0)
    && (ind.receiveTimestampNs > 0 ==> v.receiveTimestampUs == ind.receiveTimestampNs / 1000)
    && v.kpmHeaderTimestampUs == (if ind.headerTimestamp > 0 then Some(ind.headerTimestamp) else None)
    && v.nodeType == Some(Ascii("raw_") + Decimal(ind.nodeType))
    && v.nodeId == (if ind.nodeId[0] != 0 then Some(Utf8.CString(ind.nodeId)) else None)
    && v.ueReportIndex == (if c.ueReportIndex < U32_MAX then Some(c.ueReportIndex) else None)
    && v.measDataIndex == (if i < U32_MAX then Some(i) else None)
    && v.measDataLstLen == LengthToU32(|c.message.rows.items|)
    && v.measInfoLstLen == LengthToU32(Length(c.message.infos))
    && v.measRecordLen == LengthToU32(Length(row.values))
    && v.incompleteFlag == row.incomplete
  }

  lemma RowShown(v: C.Canonical, m: MeasRecord, c: Call, i: nat)
    requires i < RowCount(c.message) && SharedFrom(c, i, m) && KpmAdapter.CarriesCommon(v, m)
    requires m.infoLength == LengthToU32(Length(c.message.infos))
    requires m.recordLength == LengthToU32(Length(c.message.rows.items[i].values))
    requires KpmAdapter.NamedNode(c.indication)
    ensures ShowsRow(v, c, i)
  {
    hide UeFrom;
    hide KpmAdapter.UeTypeText;
    hide KpmAdapter.UeValueText;
    NodeShown(m);
    hide KpmAdapter.NamedNode;
  }

  lemma NodeShown(m: MeasRecord)
    requires KpmAdapter.NamedNode(m.indication)
    ensures KpmAdapter.TextOf(m.indication.nodeId) ==
            if m.indication.nodeId[0] != 0 then Some(Utf8.CString(m.indication.nodeId)) else None
  {
    hide KpmAdapter.NodeIdText;
    hide KpmAdapter.Printed;
    hide KpmAdapter.UeTypeText;
    hide KpmAdapter.UeValueText;
    hide KpmAdapter.NodeTypeText;
    KpmAdapter.CommonTexts(m);
  }

  // ---- the value ----

  /** A value of an accepted row, with what it was announced by. */
  ghost predicate Accepted(c: Call, i: nat, j: nat) {
    && i < RowCount(c.message)
    && var row, infos := c.message.rows.items[i], c.message.infos;
       && row.values.Items? && infos.Items? && |row.values.items| == |infos.items| <= 65535
       && j < |infos.items|
  }

  /** Everything the collector supports: the UE, the descriptor and the value. */
  ghost predicate Supported(c: Call, i: nat, j: nat)
    requires Accepted(c, i, j)
  {
    !c.ue.OtherUe? && Describes(c.message.infos.items[j]) && !c.message.rows.items[i].values.items[j].OtherMeas?
  }

  /** The measurement, by value and descriptor. */
  ghost predicate ShowsValue(v: C.Canonical, c: Call, i: nat, j: nat)
    requires Accepted(c, i, j)
  {
    var source, info := c.message.rows.items[i].values.items[j], c.message.infos.items[j];
    && v.recordKind == C.Measurement
    && v.measInfoIndex == v.measRecordIndex == Some(j)
    && v.integerValue == (if source.IntegerMeas? then Some(source.i) else None)
    && v.realValue == (if source.RealMeas? then Some(source.d) else None)
    && (source.IntegerMeas? <==> v.valueType == C.ValueInteger)
    && (source.RealMeas? <==> v.valueType == C.ValueReal)
    && (source.NoValueMeas? <==> v.valueType == C.ValueNoValue)
    && v.structuralStatus == (if source.NoValueMeas? then C.StatusNoValue else C.StatusOk)
    && v.measurementId == (if info.IdInfo? then Some(info.id) else None)
    && (info.IdInfo? <==> v.descriptorType == C.DescriptorId)
    && (info.NameInfo? <==> v.descriptorType == C.DescriptorName)
    && (info.NameInfo? <==> v.measurementName.Some?)
    && (info.NameInfo? && info.name.Items? && 0 !in info.name.items ==>
          v.measurementName == Some(if |info.name.items| <= 255 then info.name.items else info.name.items[..255]))
    && v.diagnosticCode == None && v.diagnosticMessage == None
  }

  /** Why a value gives no measurement: its record is a diagnostic with the first thing that is not
      supported. */
  ghost predicate ShowsUnsupported(v: C.Canonical, c: Call, i: nat, j: nat)
    requires Accepted(c, i, j)
  {
    var info := c.message.infos.items[j];
    && v.structuralStatus ==
       (if c.ue.OtherUe? then C.UnsupportedUeId
        else if !Describes(info) then C.UnsupportedDescriptor else C.UnsupportedValueType)
    && v.diagnosticCode ==
       Some(Ascii(if c.ue.OtherUe? then "unsupported_ue_id"
                  else if !Describes(info) then "unsupported_descriptor" else "unsupported_value_type"))
    && OnlyDiagnostic(v)
  }

  /** A diagnostic says nothing of a value. */
  ghost predicate OnlyDiagnostic(v: C.Canonical) {
    && v.recordKind == C.Diagnostic && v.measInfoIndex == None && v.measRecordIndex == None
    && v.descriptorType == C.DescriptorUnknown && v.valueType == C.ValueUnknown
    && v.measurementName == None && v.measurementId == None && v.integerValue == None && v.realValue == None
    && v.diagnosticMessage ==
       Some(Ascii("meas_info_lst_len=") + Decimal(v.measInfoLstLen) + Ascii(" meas_record_len=")
            + Decimal(v.measRecordLen))
  }

  lemma AcceptedIsOk(c: Call, i: nat, j: nat)
    requires Accepted(c, i, j)
    ensures Verdict(c, i).RowOk? && Verdict(c, i).values == |c.message.infos.items| == RowTotal(c, i)
    ensures RowRecords(c, i)[j] == ValueRecord(c, i, j)
  {
    RowVerdicts(ShapeOf(c.message, c.message.rows.items[i]));
  }

  /** The name a descriptor's buffer holds. */
  lemma NameKept(info: MeasInfo, d: Descriptor)
    requires DescriptorFrom(info, d) && info.NameInfo? && info.name.Items? && 0 !in info.name.items
    ensures Utf8.CString(d.buffer) == if |info.name.items| <= 255 then info.name.items else info.name.items[..255]
  {
    var bytes := info.name.items;
    var kept := if |bytes| <= 255 then bytes else bytes[..255];
    assert d.buffer == Padded(kept, 256);
    KpmAdapter.CStringOfPadded(kept, 256);
  }

  lemma SupportedShown(v: C.Canonical, m: MeasRecord, c: Call, i: nat, j: nat)
    requires Accepted(c, i, j) && Supported(c, i, j) && KpmAdapter.CarriesValue(v, m)
    requires m.infoIndex == m.recordIndex == j
    requires StatusFrom(c, i, j, m.status)
    requires ValueFrom(c.message.rows.items[i].values.items[j], m.value)
    requires DescriptorFrom(c.message.infos.items[j], m.descriptor)
    ensures ShowsValue(v, c, i, j)
  {
    var info := c.message.infos.items[j];
    if info.NameInfo? && info.name.Items? && 0 !in info.name.items { NameKept(info, m.descriptor); }
  }

  lemma UnsupportedShown(v: C.Canonical, m: MeasRecord, c: Call, i: nat, j: nat)
    requires Accepted(c, i, j) && !Supported(c, i, j)
    requires KpmAdapter.CarriesCommon(v, m) && KpmAdapter.CarriesDiagnosis(v, m)
    requires StatusFrom(c, i, j, m.status)
    ensures ShowsUnsupported(v, c, i, j)
  {
    hide Describes;
    hide KpmAdapter.NodeTypeText;
    hide KpmAdapter.UeTypeText;
    hide KpmAdapter.UeValueText;
    hide KpmAdapter.TextOf;
    hide Decimal;
  }

  /** The record of every value of an accepted row shows its row and its UE, and its own value and
      descriptor when all three are supported; otherwise it is a diagnostic that says what is not. */
  lemma ValueIsShown(c: Call, i: nat, j: nat)
    requires Accepted(c, i, j) && KpmAdapter.NamedNode(c.indication)
    ensures j < |RowRecords(c, i)|
    ensures var v := Shown(RowRecords(c, i)[j]);
      && ShowsRow(v, c, i) && ShowsUe(v, c.ue)
      && if Supported(c, i, j) then ShowsValue(v, c, i, j) else ShowsUnsupported(v, c, i, j)
  {
    hide ShowsRow;
    hide ShowsUe;
    hide ShowsValue;
    hide ShowsUnsupported;
    hide KpmAdapter.NamedNode;
    hide KpmAdapter.CarriesCommon;
    hide KpmAdapter.CarriesValue;
    hide KpmAdapter.CarriesDiagnosis;
    hide KpmAdapter.Adapt;
    hide C.ViewOf;
    hide ValueRecord;
    hide ValueFrom;
    hide DescriptorFrom;
    AcceptedIsOk(c, i, j);
    RowRecordsAre(c, i);
    KpmAdapter.ValueRecordBuilt(c, i, j);
    var m := RowRecords(c, i)[j];
    var v := Shown(m);
    if Supported(c, i, j) {
      KpmAdapter.MeasurementCarries(m);
      SupportedShown(v, m, c, i, j);
    } else {
      KpmAdapter.DiagnosticCarries(m);
      UnsupportedShown(v, m, c, i, j);
    }
    UeShown(v, m, c.ue);
    RowShown(v, m, c, i);
  }

  /** The one record of a row that is not accepted shows its row and its UE, and whether the two lists
      were sound but of different lengths. */
  lemma RejectedIsShown(c: Call, i: nat)
    requires i < RowCount(c.message) && !Verdict(c, i).RowOk? && KpmAdapter.NamedNode(c.indication)
    ensures |RowRecords(c, i)| == 1
    ensures var v := Shown(RowRecords(c, i)[0]);
      var row, infos := c.message.rows.items[i], c.message.infos;
      var mismatch := && SoundList(row.values.NullArray?, Length(row.values), 65535)
                      && SoundList(infos.NullArray?, Length(infos), 65535);
      && ShowsRow(v, c, i) && ShowsUe(v, c.ue) && OnlyDiagnostic(v)
      && v.structuralStatus == (if mismatch then C.LengthMismatch else C.InvalidInput)
      && v.diagnosticCode == Some(Ascii(if mismatch then "length_mismatch" else "invalid_input"))
  {
    hide ShowsRow;
    hide ShowsUe;
    hide KpmAdapter.NamedNode;
    hide KpmAdapter.Adapt;
    hide C.ViewOf;
    hide RowDiagnostic;
    RowRecordsAre(c, i);
    KpmAdapter.DiagnosticBuilt(c, i);
    var m := RowRecords(c, i)[0];
    KpmAdapter.DiagnosticCarries(m);
    DiagnosisShown(Shown(m), m);
    UeShown(Shown(m), m, c.ue);
    RowShown(Shown(m), m, c, i);
  }

  lemma DiagnosisShown(v: C.Canonical, m: MeasRecord)
    requires KpmAdapter.CarriesCommon(v, m) && KpmAdapter.CarriesDiagnosis(v, m)
    ensures OnlyDiagnostic(v)
  {
    hide KpmAdapter.NodeTypeText;
    hide KpmAdapter.UeTypeText;
    hide KpmAdapter.UeValueText;
    hide KpmAdapter.TextOf;
    hide KpmAdapter.DiagnosticCode;
    hide Decimal;
  }

  /** The record of an unknown message format says so. */
  lemma UnknownFormatIsShown(indication: Indication)
    requires KpmAdapter.NamedNode(indication)
    ensures var v := Shown(UnknownFormatRecord(indication));
      && OnlyDiagnostic(v) && v.structuralStatus == C.InvalidInput && ShowsUe(v, NoUe)
      && v.diagnosticCode == Some(Ascii("unknown_message_format"))
      && v.ueReportIndex == None && v.measDataIndex == None && v.incompleteFlag == None
      && v.measDataLstLen == v.measInfoLstLen == v.measRecordLen == 0
      && v.indicationSequence == indication.sequence && v.messageFormat == indication.messageFormat
  {
    hide KpmAdapter.NamedNode;
    hide KpmAdapter.Adapt;
    hide C.ViewOf;
    hide ShowsUe;
    var m := UnknownFormatRecord(indication);
    KpmAdapter.DiagnosticCarries(m);
    DiagnosisShown(Shown(m), m);
    UeShown(Shown(m), m, NoUe);
  }

  /** An integer of an indication is the integer on its line. */
  lemma IntegerReachesTheLine(c: Call, i: nat, j: nat, rest: seq<byte>)
    requires Accepted(c, i, j) && Supported(c, i, j) && KpmAdapter.NamedNode(c.indication)
    requires c.message.rows.items[i].values.items[j].IntegerMeas?
    requires j < |RowRecords(c, i)| && C.Valid(KpmAdapter.Adapt(RowRecords(c, i)[j]))
    ensures var line := Json.ReadRecord(Json.RecordLine(Shown(RowRecords(c, i)[j])) + rest);
      && line.Parsed? && line.rest == rest
      && line.value.integerValue == Some(c.message.rows.items[i].values.items[j].i)
  {
    hide ShowsRow;
    hide ShowsUe;
    hide KpmAdapter.NamedNode;
    hide KpmAdapter.Adapt;
    hide C.Valid;
    hide C.ViewOf;
    hide C.Printable;
    hide RowRecords;
    hide Json.ReadRecord;
    hide Json.RecordLine;
    ValueIsShown(c, i, j);
    C.ValidIsPrintable(KpmAdapter.Adapt(RowRecords(c, i)[j]));
    Json.RecordRoundTrip(Shown(RowRecords(c, i)[j]), rest);
  }
}
