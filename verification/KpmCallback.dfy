/** The indication callback: from a KPM message to one measurement record per value. */
module KpmCallback {
  import opened Bytes
  import CanonicalRecord

  type Double = CanonicalRecord.Double
  type Text128 = CanonicalRecord.Text128
  type Text256 = CanonicalRecord.Text256

  // ---- the indication, as the FlexRIC structs hold it ----

  /** A pointer with a declared length: either null, or that many elements. */
  datatype CArray<+T> = NullArray(declared: nat) | Items(items: seq<T>)

  function Length<T>(a: CArray<T>): nat { if a.NullArray? then a.declared else |a.items| }

  datatype UeSource =
    | NoUe
    | GnbUe(amf: u64, f1aps: CArray<u32>, ran: Option<u64>)
    | GnbDuUe(f1ap: u32, ran: Option<u64>)
    | GnbCuUpUe(e1ap: u32, ran: Option<u64>)
    | OtherUe

  datatype MeasInfo = NameInfo(name: CArray<byte>) | IdInfo(id: u32) | OtherInfo
  datatype MeasValue = IntegerMeas(i: i64) | RealMeas(d: Double) | NoValueMeas | OtherMeas
  datatype DataRow = DataRow(values: CArray<MeasValue>, incomplete: Option<bool>)
  datatype Format1 = Format1(rows: CArray<DataRow>, infos: CArray<MeasInfo>)
  datatype UeReport = UeReport(ue: UeSource, message: Format1)
  datatype KpmMessage = Format1Message(message: Format1) | Format3Message(reports: CArray<UeReport>) | OtherMessage

  // ---- the collector's record ----

  datatype UeKind = UnknownUe | Gnb | GnbDu | GnbCuUp
  datatype UeId = UeId(kind: UeKind, amf: Option<u64>, f1ap: Option<u32>, e1ap: Option<u32>, ran: Option<u64>)

  datatype Descriptor =
    | NoDescriptor
    | NameDescriptor(length: nat, truncated: bool, buffer: Text256)
    | IdDescriptor(id: u32)

  datatype Value = UnknownValue | IntegerValue(i: i64) | RealValue(d: Double) | NoValue

  datatype Status =
    | Ok | LengthMismatch | NoValueStatus | UnsupportedDescriptor | UnsupportedValueType
    | UnsupportedUeId | UnknownMessageFormat | InvalidInput

  datatype Indication = Indication(
    sequence: u64, receiveTimestampNs: i64, headerTimestamp: u64, messageFormat: u32,
    nodeType: u32, nodeId: Text128)

  datatype MeasRecord = MeasRecord(
    indication: Indication, ueReportIndex: u32, ue: UeId,
    dataIndex: u32, recordIndex: u32, infoIndex: u32,
    dataLength: u32, infoLength: u32, recordLength: u32,
    descriptor: Descriptor, value: Value, incomplete: Option<bool>, status: Status)

  /** length_to_u32 saturates. */
  function LengthToU32(n: nat): (r: u32)
    ensures n <= U32_MAX ==> r == n
    ensures n > U32_MAX ==> r == U32_MAX
  {
    if n > U32_MAX then U32_MAX else n
  }

  // ---- row validation ----

  const MAXIMUM_SUPPORTED_LENGTH: nat := 65535

  datatype RowStatus =
    | RowOk(values: nat) | RowLengthMismatch | RowMetadataUnavailable | RowInvalidRecordLength | RowInvalidInput

  datatype RowShape = RowShape(metadataAvailable: bool, metadataNull: bool, metadataLength: nat,
                               recordNull: bool, recordLength: nat, maximum: nat)

  /** tcd_kpm_validate_row_shape */
  function ValidateRowShape(s: RowShape): RowStatus {
    if s.maximum == 0 then RowInvalidInput
    else if s.recordLength == 0 || s.recordLength > s.maximum then RowInvalidRecordLength
    else if s.recordNull then RowInvalidInput
    else if !s.metadataAvailable || s.metadataLength == 0 then RowMetadataUnavailable
    else if s.metadataNull || s.metadataLength > s.maximum then RowInvalidInput
    else if s.metadataLength != s.recordLength then RowLengthMismatch
    else RowOk(s.recordLength)
  }

  predicate SoundList(isNull: bool, length: nat, maximum: nat) { !isNull && 0 < length <= maximum }

  /** A row is accepted exactly when both lists are sound and of one length; a length mismatch is
      reported exactly when both are sound and their lengths differ. */
  lemma RowVerdicts(s: RowShape)
    requires s.metadataAvailable == (s.metadataLength > 0)
    ensures var sound := && SoundList(s.recordNull, s.recordLength, s.maximum)
                         && SoundList(s.metadataNull, s.metadataLength, s.maximum);
      && (ValidateRowShape(s).RowOk? <==> sound && s.recordLength == s.metadataLength)
      && (ValidateRowShape(s) == RowLengthMismatch <==> sound && s.recordLength != s.metadataLength)
    ensures ValidateRowShape(s).RowOk? ==> ValidateRowShape(s).values == s.recordLength == s.metadataLength
  {
  }

  function ShapeOf(m: Format1, row: DataRow): RowShape {
    RowShape(Length(m.infos) > 0, m.infos.NullArray?, Length(m.infos), row.values.NullArray?, Length(row.values),
             MAXIMUM_SUPPORTED_LENGTH)
  }

  // ---- copying one UE id, descriptor and value ----

  /** copy_ue_id; the second component says whether the type is supported. */
  function CopyUeId(source: UeSource): (UeId, bool) {
    match source
    case NoUe => (UeId(UnknownUe, None, None, None, None), true)
    case GnbUe(amf, f1aps, ran) =>
      (UeId(Gnb, Some(amf), if f1aps.Items? && |f1aps.items| > 0 then Some(f1aps.items[0]) else None, None, ran), true)
    case GnbDuUe(f1ap, ran) => (UeId(GnbDu, None, Some(f1ap), None, ran), true)
    case GnbCuUpUe(e1ap, ran) => (UeId(GnbCuUp, None, None, Some(e1ap), ran), true)
    case OtherUe => (UeId(UnknownUe, None, None, None, None), false)
  }

  /** A zeroed buffer with a text copied to its front. */
  function Padded(text: seq<byte>, capacity: nat): (r: seq<byte>)
    requires |text| <= capacity
    ensures |r| == capacity && text <= r
  {
    text + seq(capacity - |text|, _ => 0)
  }

  /** What fits of a name next to its terminator. */
  function NamePrefix(name: seq<byte>): (r: seq<byte>)
    ensures |r| < CanonicalRecord.MEASUREMENT_NAME_CAPACITY
  {
    if |name| >= CanonicalRecord.MEASUREMENT_NAME_CAPACITY then name[..CanonicalRecord.MEASUREMENT_NAME_CAPACITY - 1]
    else name
  }

  /** copy_descriptor */
  function CopyDescriptor(source: MeasInfo): (Descriptor, bool) {
    match source
    case NameInfo(name) =>
      if name.NullArray? && name.declared > 0 then
        (NameDescriptor(name.declared, false, Padded([], 256)), false)
      else
        var bytes := if name.Items? then name.items else [];
        (NameDescriptor(|bytes|, |bytes| >= 256, Padded(NamePrefix(bytes), 256)), true)
    case IdInfo(id) => (IdDescriptor(id), true)
    case OtherInfo => (NoDescriptor, false)
  }

  /** copy_value */
  function CopyValue(source: MeasValue): (Value, bool) {
    match source
    case IntegerMeas(i) => (IntegerValue(i), true)
    case RealMeas(d) => (RealValue(d), true)
    case NoValueMeas => (NoValue, true)
    case OtherMeas => (UnknownValue, false)
  }

  // ---- the records of a message ----

  /** Everything process_format_1 is called with. */
  datatype Call = Call(indication: Indication, ueReportIndex: u32, ue: UeSource, message: Format1)

  /** The row list is unusable: a count without rows. */
  predicate RowsMissing(m: Format1) { m.rows.NullArray? && m.rows.declared > 0 }

  function RowCount(m: Format1): nat { if m.rows.Items? then |m.rows.items| else 0 }

  /** The fields every record of row i shares. */
  function RowRecord(c: Call, i: nat): MeasRecord
    requires i < RowCount(c.message)
  {
    var row := c.message.rows.items[i];
    MeasRecord(
      c.indication, c.ueReportIndex, CopyUeId(c.ue).0,
      LengthToU32(i), U32_MAX, U32_MAX,
      LengthToU32(RowCount(c.message)), LengthToU32(Length(c.message.infos)), LengthToU32(Length(row.values)),
      NoDescriptor, UnknownValue, row.incomplete, Ok)
  }

  function Verdict(c: Call, i: nat): RowStatus
    requires i < RowCount(c.message)
  {
    ValidateRowShape(ShapeOf(c.message, c.message.rows.items[i]))
  }

  function RowDiagnostic(c: Call, i: nat): MeasRecord
    requires i < RowCount(c.message)
  {
    RowRecord(c, i).(status := if Verdict(c, i) == RowLengthMismatch then LengthMismatch else InvalidInput)
  }

  /** The record of value j in an accepted row. */
  function ValueRecord(c: Call, i: nat, j: nat): MeasRecord
    requires i < RowCount(c.message) && Verdict(c, i).RowOk? && j < Verdict(c, i).values
  {
    var (descriptor, descriptorOk) := CopyDescriptor(c.message.infos.items[j]);
    var (value, valueOk) := CopyValue(c.message.rows.items[i].values.items[j]);
    RowRecord(c, i).(
      recordIndex := LengthToU32(j), infoIndex := LengthToU32(j), descriptor := descriptor, value := value,
      status :=
        if !CopyUeId(c.ue).1 then UnsupportedUeId
        else if !descriptorOk then UnsupportedDescriptor
        else if !valueOk then UnsupportedValueType
        else if value.NoValue? then NoValueStatus
        else Ok)
  }

  /** The first n records of an accepted row. */
  function ValueRecords(c: Call, i: nat, n: nat): (r: seq<MeasRecord>)
    requires i < RowCount(c.message) && Verdict(c, i).RowOk? && n <= Verdict(c, i).values
    ensures |r| == n
  {
    seq(n, j requires 0 <= j < n && i < RowCount(c.message) && Verdict(c, i).RowOk? && n <= Verdict(c, i).values
           => ValueRecord(c, i, j))
  }

  function RowRecords(c: Call, i: nat): seq<MeasRecord>
    requires i < RowCount(c.message)
  {
    if Verdict(c, i).RowOk? then ValueRecords(c, i, Verdict(c, i).values) else [RowDiagnostic(c, i)]
  }

  /** The records of the first n rows. */
  function MessageRecords(c: Call, n: nat): seq<MeasRecord>
    requires n <= RowCount(c.message)
  {
    if n == 0 then [] else MessageRecords(c, n - 1) + RowRecords(c, n - 1)
  }

  /** How many records row i must give: one per value, or one diagnostic. */
  function RowTotal(c: Call, i: nat): nat
    requires i < RowCount(c.message)
  {
    var row := c.message.rows.items[i];
    if SoundList(row.values.NullArray?, Length(row.values), MAXIMUM_SUPPORTED_LENGTH)
       && SoundList(c.message.infos.NullArray?, Length(c.message.infos), MAXIMUM_SUPPORTED_LENGTH)
       && Length(row.values) == Length(c.message.infos)
    then Length(row.values) else 1
  }

  function TotalRecords(c: Call, n: nat): nat
    requires n <= RowCount(c.message)
  {
    if n == 0 then 0 else TotalRecords(c, n - 1) + RowTotal(c, n - 1)
  }

  /** The records created for a message are one per value of every sound row and one diagnostic for
      every other row: nothing is cut short and nothing is invented. */
  lemma {:induction false} NothingTruncated(c: Call, n: nat)
    requires n <= RowCount(c.message)
    ensures |MessageRecords(c, n)| == TotalRecords(c, n)
  {
    if n > 0 {
      NothingTruncated(c, n - 1);
      RowVerdicts(ShapeOf(c.message, c.message.rows.items[n - 1]));
    }
  }

  /** The value of a record is that of the source struct. */
  predicate ValueFrom(source: MeasValue, value: Value) {
    && (source.IntegerMeas? ==> value == IntegerValue(source.i))
    && (source.RealMeas? ==> value == RealValue(source.d))
    && (source.NoValueMeas? ==> value == NoValue)
    && (source.OtherMeas? ==> value == UnknownValue)
  }

  /** So is its descriptor; of a name that can be read at most 255 bytes are kept, the rest is zero. */
  predicate DescriptorFrom(source: MeasInfo, d: Descriptor) {
    && (source.IdInfo? ==> d == IdDescriptor(source.id))
    && (source.OtherInfo? ==> d == NoDescriptor)
    && (source.NameInfo? ==> d.NameDescriptor? && d.length == Length(source.name))
    && (source.NameInfo? && source.name.Items? ==>
          var kept := if |source.name.items| <= 255 then |source.name.items| else 255;
          && d.truncated == (|source.name.items| > 255)
          && d.buffer[..kept] == source.name.items[..kept]
          && forall i :: kept <= i < 256 ==> d.buffer[i] == 0)
  }

  /** The descriptor can be handed on. */
  predicate Describes(source: MeasInfo) {
    source.IdInfo? || (source.NameInfo? && (source.name.Items? || source.name.declared == 0))
  }

  /** The identifiers of a record are those of the source struct, of the kind it has. */
  predicate UeFrom(source: UeSource, ue: UeId) {
    match source
    case GnbUe(amf, f1aps, ran) =>
      && ue.kind == Gnb && ue.amf == Some(amf) && ue.e1ap == None && ue.ran == ran
      && (f1aps.Items? && f1aps.items != [] ==> ue.f1ap == Some(f1aps.items[0]))
      && (f1aps.NullArray? || f1aps.items == [] ==> ue.f1ap == None)
    case GnbDuUe(f1ap, ran) =>
      ue.kind == GnbDu && ue.f1ap == Some(f1ap) && ue.amf == None && ue.e1ap == None && ue.ran == ran
    case GnbCuUpUe(e1ap, ran) =>
      ue.kind == GnbCuUp && ue.e1ap == Some(e1ap) && ue.amf == None && ue.f1ap == None && ue.ran == ran
    case _ => ue == UeId(UnknownUe, None, None, None, None)
  }

  /** What every record of a row takes over from the call. */
  predicate SharedFrom(c: Call, i: nat, r: MeasRecord)
    requires i < RowCount(c.message)
  {
    && r.indication == c.indication && r.ueReportIndex == c.ueReportIndex && UeFrom(c.ue, r.ue)
    && r.dataIndex == (if i <= U32_MAX then i else U32_MAX)
    && r.dataLength == (if |c.message.rows.items| <= U32_MAX then |c.message.rows.items| else U32_MAX)
    && r.incomplete == c.message.rows.items[i].incomplete
  }

  /** The status of a value's record: the first thing that is not supported, in the order UE,
      descriptor, value; a supported value is Ok unless it is the explicit absence of one. */
  predicate StatusFrom(c: Call, i: nat, j: nat, s: Status)
    requires i < RowCount(c.message) && c.message.rows.items[i].values.Items? && c.message.infos.Items?
    requires j < |c.message.rows.items[i].values.items| && j < |c.message.infos.items|
  {
    var info, v := c.message.infos.items[j], c.message.rows.items[i].values.items[j];
    && (s == UnsupportedUeId <==> c.ue.OtherUe?)
    && (s == UnsupportedDescriptor <==> !c.ue.OtherUe? && !Describes(info))
    && (s == UnsupportedValueType <==> !c.ue.OtherUe? && Describes(info) && v.OtherMeas?)
    && (s == NoValueStatus <==> !c.ue.OtherUe? && Describes(info) && v.NoValueMeas?)
    && (s == Ok <==> !c.ue.OtherUe? && Describes(info) && (v.IntegerMeas? || v.RealMeas?))
  }

  lemma ValueCopied(source: MeasValue)
    ensures ValueFrom(source, CopyValue(source).0)
    ensures CopyValue(source).1 <==> !source.OtherMeas?
  {
  }

  lemma DescriptorCopied(source: MeasInfo)
    ensures DescriptorFrom(source, CopyDescriptor(source).0)
    ensures CopyDescriptor(source).1 <==> Describes(source)
  {
  }

  lemma UeCopied(source: UeSource)
    ensures UeFrom(source, CopyUeId(source).0)
    ensures CopyUeId(source).1 <==> !source.OtherUe?
  {
  }

  lemma StatusCopied(c: Call, i: nat, j: nat)
    requires i < RowCount(c.message) && Verdict(c, i).RowOk? && j < Verdict(c, i).values
    ensures StatusFrom(c, i, j, ValueRecord(c, i, j).status)
  {
    hide CopyDescriptor;
    hide CopyValue;
    hide CopyUeId;
    hide Describes;
    UeCopied(c.ue);
    DescriptorCopied(c.message.infos.items[j]);
    ValueCopied(c.message.rows.items[i].values.items[j]);
  }

  /** What the records of one row look like: values in order with equal metadata and record
      indexes, or a single diagnostic; a length-mismatch diagnostic carries two different lengths
      even after they are narrowed to 32 bits. */
  lemma RowRecordsAre(c: Call, i: nat)
    requires i < RowCount(c.message)
    ensures var rs := RowRecords(c, i);
      var row := c.message.rows.items[i];
      if Verdict(c, i).RowOk? then
        && |rs| == RowTotal(c, i)
        && forall j :: 0 <= j < |rs| ==>
          && rs[j].recordIndex == rs[j].infoIndex == j
          && ValueFrom(row.values.items[j], rs[j].value)
          && DescriptorFrom(c.message.infos.items[j], rs[j].descriptor)
          && SharedFrom(c, i, rs[j]) && StatusFrom(c, i, j, rs[j].status)
          && rs[j].infoLength == rs[j].recordLength == |rs|
      else
        && |rs| == 1 && RowTotal(c, i) == 1 && SharedFrom(c, i, rs[0])
        && rs[0].descriptor == NoDescriptor && rs[0].value == UnknownValue
        && rs[0].infoLength == (if Length(c.message.infos) <= U32_MAX then Length(c.message.infos) else U32_MAX)
        && rs[0].recordLength == (if Length(row.values) <= U32_MAX then Length(row.values) else U32_MAX)
        && (rs[0].status == LengthMismatch || rs[0].status == InvalidInput)
        && (rs[0].status == LengthMismatch <==>
              && SoundList(row.values.NullArray?, Length(row.values), 65535)
              && SoundList(c.message.infos.NullArray?, Length(c.message.infos), 65535))
        && (rs[0].status == LengthMismatch ==> rs[0].infoLength != rs[0].recordLength)
        && rs[0].recordIndex == rs[0].infoIndex == U32_MAX
  {
    hide CopyDescriptor;
    hide CopyValue;
    hide CopyUeId;
    hide StatusFrom;
    var row := c.message.rows.items[i];
    RowVerdicts(ShapeOf(c.message, row));
    UeCopied(c.ue);
    if Verdict(c, i).RowOk? {
      forall j | 0 <= j < |row.values.items|
        ensures ValueFrom(row.values.items[j], ValueRecord(c, i, j).value)
        ensures DescriptorFrom(c.message.infos.items[j], ValueRecord(c, i, j).descriptor)
        ensures StatusFrom(c, i, j, ValueRecord(c, i, j).status)
      {
        ValueCopied(row.values.items[j]);
        DescriptorCopied(c.message.infos.items[j]);
        StatusCopied(c, i, j);
      }
    }
  }

  // ---- counters ----

  datatype Counters = Counters(
    indicationsReceived: nat, recordsCreated: nat, lengthMismatches: nat, noValues: nat,
    unsupported: nat, callbackErrors: nat)

  /** The counting part of retain_record. */
  function Counted(k: Counters, r: MeasRecord): Counters {
    var k := k.(recordsCreated := k.recordsCreated + 1);
    match r.status
    case LengthMismatch => k.(lengthMismatches := k.lengthMismatches + 1)
    case NoValueStatus => k.(noValues := k.noValues + 1)
    case UnsupportedDescriptor => k.(unsupported := k.unsupported + 1)
    case UnsupportedValueType => k.(unsupported := k.unsupported + 1)
    case UnsupportedUeId => k.(unsupported := k.unsupported + 1)
    case UnknownMessageFormat => k.(unsupported := k.unsupported + 1)
    case InvalidInput => k.(callbackErrors := k.callbackErrors + 1)
    case Ok => k
  }

  function CountedAll(k: Counters, rs: seq<MeasRecord>): Counters {
    if rs == [] then k else Counted(CountedAll(k, rs[..|rs| - 1]), rs[|rs| - 1])
  }

  lemma CountedNothing(k: Counters)
    ensures CountedAll(k, []) == k
    ensures forall n: nat :: CountedAll(WithErrors(k, n), []) == WithErrors(k, n)
  {
  }

  lemma CountedAllNext(k: Counters, rs: seq<MeasRecord>, r: MeasRecord)
    ensures CountedAll(k, rs + [r]) == Counted(CountedAll(k, rs), r)
  {
    assert (rs + [r])[..|rs|] == rs;
  }

  lemma {:induction false} CountedAllConcat(k: Counters, rs: seq<MeasRecord>, more: seq<MeasRecord>)
    ensures CountedAll(k, rs + more) == CountedAll(CountedAll(k, rs), more)
  {
    hide Counted;
    if more == [] {
      assert rs + more == rs;
    } else {
      var front, r := more[..|more| - 1], more[|more| - 1];
      CountedAllConcat(k, rs, front);
      CountedAllNext(k, rs + front, r);
      assert rs + more == (rs + front) + [r];
    }
  }

  function CountStatus(rs: seq<MeasRecord>, ss: set<Status>): nat {
    if rs == [] then 0 else CountStatus(rs[..|rs| - 1], ss) + if rs[|rs| - 1].status in ss then 1 else 0
  }

  const UNSUPPORTED: set<Status> :=
    {UnsupportedDescriptor, UnsupportedValueType, UnsupportedUeId, UnknownMessageFormat}

  /** The status counters partition the records that are not plain measurements. */
  lemma {:induction false} CountersPartition(k: Counters, rs: seq<MeasRecord>)
    ensures var t := CountedAll(k, rs);
      && t.recordsCreated - k.recordsCreated == |rs|
      && t.lengthMismatches - k.lengthMismatches == CountStatus(rs, {LengthMismatch})
      && t.noValues - k.noValues == CountStatus(rs, {NoValueStatus})
      && t.unsupported - k.unsupported == CountStatus(rs, UNSUPPORTED)
      && t.callbackErrors - k.callbackErrors == CountStatus(rs, {InvalidInput})
      && |rs| == CountStatus(rs, {Ok}) + CountStatus(rs, {LengthMismatch}) + CountStatus(rs, {NoValueStatus})
         + CountStatus(rs, UNSUPPORTED) + CountStatus(rs, {InvalidInput})
  {
    if rs != [] { CountersPartition(k, rs[..|rs| - 1]); }
  }

  // ---- the callback ----

  /** The records of a whole indication; record is the one an unknown format gives. */
  function ReportRecords(indication: Indication, reports: seq<UeReport>, n: nat): seq<MeasRecord>
    requires n <= |reports|
  {
    if n == 0 then []
    else
      ReportRecords(indication, reports, n - 1) + CallRecords(ReportCall(indication, reports, n - 1))
  }

  function ReportCall(indication: Indication, reports: seq<UeReport>, i: nat): Call
    requires i < |reports|
  {
    Call(indication, LengthToU32(i), reports[i].ue, reports[i].message)
  }

  function CallRecords(c: Call): seq<MeasRecord> { MessageRecords(c, RowCount(c.message)) }

  function UnknownFormatRecord(indication: Indication): MeasRecord {
    MeasRecord(indication, U32_MAX, UeId(UnknownUe, None, None, None, None), U32_MAX, U32_MAX, U32_MAX, 0, 0, 0,
               NoDescriptor, UnknownValue, None, UnknownMessageFormat)
  }

  function IndicationRecords(indication: Indication, message: KpmMessage): seq<MeasRecord> {
    match message
    case Format1Message(m) => CallRecords(Call(indication, U32_MAX, NoUe, m))
    case Format3Message(reports) =>
      if reports.Items? then ReportRecords(indication, reports.items, |reports.items|) else []
    case OtherMessage => [UnknownFormatRecord(indication)]
  }

  /** Lists that declare a length but are null: each is one callback error and gives no record. */
  function MissingLists(message: KpmMessage): nat {
    match message
    case Format1Message(m) => if RowsMissing(m) then 1 else 0
    case Format3Message(reports) =>
      if reports.Items? then MissingReports(reports.items, |reports.items|) else if reports.declared > 0 then 1 else 0
    case OtherMessage => 0
  }

  function MissingReports(reports: seq<UeReport>, n: nat): nat
    requires n <= |reports|
  {
    if n == 0 then 0 else MissingReports(reports, n - 1) + if RowsMissing(reports[n - 1].message) then 1 else 0
  }

  // ---- where the records of an indication are ----

  /** Record j of row i comes after the records of the rows before it. */
  lemma {:induction false} RecordPosition(c: Call, n: nat, i: nat, j: nat)
    requires i < n <= RowCount(c.message) && j < RowTotal(c, i)
    ensures |RowRecords(c, i)| == RowTotal(c, i)
    ensures TotalRecords(c, i) + j < |MessageRecords(c, n)|
    ensures MessageRecords(c, n)[TotalRecords(c, i) + j] == RowRecords(c, i)[j]
    decreases n
  {
    hide RowRecords;
    hide RowTotal;
    NothingTruncated(c, n - 1);
    RowSize(c, n - 1);
    if i < n - 1 { RecordPosition(c, n - 1, i, j); }
  }

  lemma RowSize(c: Call, i: nat)
    requires i < RowCount(c.message)
    ensures |RowRecords(c, i)| == RowTotal(c, i)
  {
    RowVerdicts(ShapeOf(c.message, c.message.rows.items[i]));
  }

  /** How many records come before report n. */
  function ReportStart(indication: Indication, reports: seq<UeReport>, n: nat): nat
    requires n <= |reports|
  {
    if n == 0 then 0
    else
      var c := ReportCall(indication, reports, n - 1);
      ReportStart(indication, reports, n - 1) + TotalRecords(c, RowCount(c.message))
  }

  lemma {:induction false} ReportSizes(indication: Indication, reports: seq<UeReport>, n: nat)
    requires n <= |reports|
    ensures |ReportRecords(indication, reports, n)| == ReportStart(indication, reports, n)
  {
    hide TotalRecords;
    hide MessageRecords;
    if n > 0 {
      ReportSizes(indication, reports, n - 1);
      var c := ReportCall(indication, reports, n - 1);
      NothingTruncated(c, RowCount(c.message));
    }
  }

  lemma {:induction false} ReportPosition(indication: Indication, reports: seq<UeReport>, n: nat, r: nat)
    requires r < n <= |reports|
    ensures ReportStart(indication, reports, r + 1) <= |ReportRecords(indication, reports, n)|
    ensures ReportStart(indication, reports, r) <= ReportStart(indication, reports, r + 1)
    ensures ReportRecords(indication, reports, n)
              [ReportStart(indication, reports, r)..ReportStart(indication, reports, r + 1)]
            == CallRecords(ReportCall(indication, reports, r))
    decreases n
  {
    hide TotalRecords;
    hide MessageRecords;
    hide ReportCall;
    ReportSizes(indication, reports, n - 1);
    ReportSizes(indication, reports, n);
    if r < n - 1 { ReportPosition(indication, reports, n - 1, r); }
  }

  /** From its start on come the records of report r, with its index and its UE. */
  predicate HoldsReport(rs: seq<MeasRecord>, indication: Indication, reports: seq<UeReport>, r: nat)
    requires r < |reports|
  {
    var from, to := ReportStart(indication, reports, r), ReportStart(indication, reports, r + 1);
    && from <= to <= |rs|
    && rs[from..to] ==
       CallRecords(Call(indication, if r <= U32_MAX then r else U32_MAX, reports[r].ue, reports[r].message))
  }

  /** The records of an indication are those of its rows, in order: of the one message of format 1,
      without a report index and a UE; of each report of format 3, with its index and its UE; and one
      record that says so for any other format. */
  lemma IndicationContents(indication: Indication, message: KpmMessage)
    ensures message.Format1Message? ==>
      IndicationRecords(indication, message) == CallRecords(Call(indication, U32_MAX, NoUe, message.message))
    ensures message.Format3Message? && message.reports.Items? ==>
      var rs, reports := IndicationRecords(indication, message), message.reports.items;
      && |rs| == ReportStart(indication, reports, |reports|)
      && forall r: nat :: r < |reports| ==> HoldsReport(rs, indication, reports, r)
    ensures message.Format3Message? && message.reports.NullArray? ==> IndicationRecords(indication, message) == []
    ensures message.OtherMessage? ==>
      && |IndicationRecords(indication, message)| == 1
      && var r := IndicationRecords(indication, message)[0];
         && r.indication == indication && r.status == UnknownMessageFormat && UeFrom(NoUe, r.ue)
         && r.ueReportIndex == r.dataIndex == r.infoIndex == r.recordIndex == U32_MAX
         && r.dataLength == r.infoLength == r.recordLength == 0
         && r.descriptor == NoDescriptor && r.value == UnknownValue && r.incomplete == None
  {
    hide CallRecords;
    if message.Format3Message? && message.reports.Items? {
      var reports := message.reports.items;
      ReportSizes(indication, reports, |reports|);
      forall r: nat | r < |reports|
        ensures HoldsReport(ReportRecords(indication, reports, |reports|), indication, reports, r)
      {
        ReportPosition(indication, reports, |reports|, r);
      }
    }
  }

  /** A list that declares a length but is null. */
  predicate Missing<T>(a: CArray<T>) { a.NullArray? && a.declared > 0 }

  /** The callback errors of an indication are its missing lists: the row list of the message or of
      each report, or the report list itself. */
  lemma MissingListsAre(message: KpmMessage)
    ensures message.Format1Message? ==> (MissingLists(message) == 1 <==> Missing(message.message.rows))
    ensures message.Format1Message? ==> MissingLists(message) <= 1
    ensures message.Format3Message? && message.reports.NullArray? ==>
      MissingLists(message) == if message.reports.declared > 0 then 1 else 0
    ensures message.Format3Message? && message.reports.Items? ==>
      MissingLists(message) ==
        |set r | 0 <= r < |message.reports.items| && Missing(message.reports.items[r].message.rows)|
    ensures message.OtherMessage? ==> MissingLists(message) == 0
  {
    if message.Format3Message? && message.reports.Items? {
      MissingReportsAre(message.reports.items, |message.reports.items|);
    }
  }

  lemma {:induction false} MissingReportsAre(reports: seq<UeReport>, n: nat)
    requires n <= |reports|
    ensures MissingReports(reports, n) == |set r | 0 <= r < n && Missing(reports[r].message.rows)|
  {
    var missing := set r | 0 <= r < n && Missing(reports[r].message.rows);
    if n == 0 {
      assert missing == {};
    } else {
      MissingReportsAre(reports, n - 1);
      var before := set r | 0 <= r < n - 1 && Missing(reports[r].message.rows);
      assert missing == if Missing(reports[n - 1].message.rows) then before + {n - 1} else before;
    }
  }

  function WithErrors(k: Counters, n: nat): Counters { k.(callbackErrors := k.callbackErrors + n) }

  lemma {:induction false} ErrorsCommute(k: Counters, n: nat, rs: seq<MeasRecord>)
    ensures CountedAll(WithErrors(k, n), rs) == WithErrors(CountedAll(k, rs), n)
  {
    if rs != [] { ErrorsCommute(k, n, rs[..|rs| - 1]); }
  }

  /** tcd_kpm_callback_context_t: its counters and, as history, what it handed to the adapter. */
  class CallbackContext {
    var counters: Counters
    var sequence: nat
    var maxIndications: nat
    var stopRequested: bool
    ghost var submitted: seq<MeasRecord>

    constructor (maxIndications: nat)
      ensures counters == Counters(0, 0, 0, 0, 0, 0) && submitted == [] && sequence == 0 && !stopRequested
      ensures this.maxIndications == maxIndications
    {
      counters := Counters(0, 0, 0, 0, 0, 0);
      sequence, submitted, stopRequested := 0, [], false;
      this.maxIndications := maxIndications;
    }

    /** retain_record */
    method Retain(r: MeasRecord)
      modifies this`counters, this`submitted
      ensures counters == Counted(old(counters), r) && submitted == old(submitted) + [r]
    {
      counters := counters.(recordsCreated := counters.recordsCreated + 1);
      match r.status {
        case LengthMismatch => counters := counters.(lengthMismatches := counters.lengthMismatches + 1);
        case NoValueStatus => counters := counters.(noValues := counters.noValues + 1);
        case UnsupportedDescriptor => counters := counters.(unsupported := counters.unsupported + 1);
        case UnsupportedValueType => counters := counters.(unsupported := counters.unsupported + 1);
        case UnsupportedUeId => counters := counters.(unsupported := counters.unsupported + 1);
        case UnknownMessageFormat => counters := counters.(unsupported := counters.unsupported + 1);
        case InvalidInput => counters := counters.(callbackErrors := counters.callbackErrors + 1);
        case Ok =>
      }
      submitted := submitted + [r];
    }

    /** The inner loop of process_format_1. */
    method ProcessValues(c: Call, i: nat)
      requires i < RowCount(c.message) && Verdict(c, i).RowOk?
      modifies this`counters, this`submitted
      ensures submitted == old(submitted) + RowRecords(c, i)
      ensures counters == CountedAll(old(counters), RowRecords(c, i))
    {
      hide Counted;
      hide ValueRecord;
      var n := Verdict(c, i).values;
      var index := 0;
      while index < n
        invariant 0 <= index <= n
        invariant submitted == old(submitted) + ValueRecords(c, i, index)
        invariant counters == CountedAll(old(counters), ValueRecords(c, i, index))
      {
        var record := BuildRecord(c, i, index);
        Retain(record);
        assert ValueRecords(c, i, index + 1) == ValueRecords(c, i, index) + [record];
        CountedAllNext(old(counters), ValueRecords(c, i, index), record);
        index := index + 1;
      }
    }

    /** The body of the inner loop up to retain_record. */
    method BuildRecord(c: Call, i: nat, j: nat) returns (record: MeasRecord)
      requires i < RowCount(c.message) && Verdict(c, i).RowOk? && j < Verdict(c, i).values
      ensures record == ValueRecord(c, i, j)
      ensures ValueFrom(c.message.rows.items[i].values.items[j], record.value)
      ensures DescriptorFrom(c.message.infos.items[j], record.descriptor)
      ensures SharedFrom(c, i, record) && StatusFrom(c, i, j, record.status)
    {
      ValueCopied(c.message.rows.items[i].values.items[j]);
      DescriptorCopied(c.message.infos.items[j]);
      UeCopied(c.ue);
      StatusCopied(c, i, j);
      hide ValueFrom;
      hide DescriptorFrom;
      hide StatusFrom;
      hide UeFrom;
      record := RowRecord(c, i);
      record := record.(recordIndex := LengthToU32(j), infoIndex := LengthToU32(j));
      var (descriptor, descriptorSupported) := CopyDescriptor(c.message.infos.items[j]);
      var (value, valueSupported) := CopyValue(c.message.rows.items[i].values.items[j]);
      record := record.(descriptor := descriptor, value := value);
      if !CopyUeId(c.ue).1 {
        record := record.(status := UnsupportedUeId);
      } else if !descriptorSupported {
        record := record.(status := UnsupportedDescriptor);
      } else if !valueSupported {
        record := record.(status := UnsupportedValueType);
      } else if value.NoValue? {
        record := record.(status := NoValueStatus);
      } else {
        record := record.(status := Ok);
      }
    }

    /** process_format_1: hands on the records of every row, in order, and counts each. */
    method ProcessFormat1(c: Call)
      modifies this`counters, this`submitted
      ensures submitted == old(submitted) + CallRecords(c)
      ensures counters == CountedAll(WithErrors(old(counters), if RowsMissing(c.message) then 1 else 0), CallRecords(c))
    {
      hide Counted;
      hide CountedAll;
      hide RowRecords;
      hide RowDiagnostic;
      hide Verdict;
      CountedNothing(old(counters));
      if RowsMissing(c.message) {
        counters := counters.(callbackErrors := counters.callbackErrors + 1);
        return;
      }
      var index := 0;
      while index < RowCount(c.message)
        invariant 0 <= index <= RowCount(c.message)
        invariant submitted == old(submitted) + MessageRecords(c, index)
        invariant counters == CountedAll(old(counters), MessageRecords(c, index))
      {
        ghost var before := MessageRecords(c, index);
        CountedAllConcat(old(counters), before, RowRecords(c, index));
        if !Verdict(c, index).RowOk? {
          var diagnostic := RowDiagnostic(c, index);
          RejectedRow(c, index);
          CountedAllNext(old(counters), before, diagnostic);
          Retain(diagnostic);
        } else {
          ProcessValues(c, index);
        }
        assert old(submitted) + before + RowRecords(c, index) == old(submitted) + (before + RowRecords(c, index));
        index := index + 1;
      }
    }

    static lemma RejectedRow(c: Call, i: nat)
      requires i < RowCount(c.message) && !Verdict(c, i).RowOk?
      ensures RowRecords(c, i) == [RowDiagnostic(c, i)]
    {
    }

    /** The format-3 loop of the callback. */
    method ProcessReports(indication: Indication, reports: seq<UeReport>)
      modifies this`counters, this`submitted
      ensures submitted == old(submitted) + ReportRecords(indication, reports, |reports|)
      ensures counters == CountedAll(WithErrors(old(counters), MissingReports(reports, |reports|)),
                                     ReportRecords(indication, reports, |reports|))
    {
      hide Counted;
      hide CallRecords;
      var i := 0;
      while i < |reports|
        invariant 0 <= i <= |reports|
        invariant submitted == old(submitted) + ReportRecords(indication, reports, i)
        invariant counters == CountedAll(WithErrors(old(counters), MissingReports(reports, i)),
                                         ReportRecords(indication, reports, i))
      {
        var c := ReportCall(indication, reports, i);
        ghost var before := ReportRecords(indication, reports, i);
        ghost var missing := if RowsMissing(c.message) then 1 else 0;
        ghost var errors := MissingReports(reports, i);
        ProcessFormat1(c);
        ErrorsCommute(WithErrors(old(counters), errors), missing, before);
        CountedAllConcat(WithErrors(old(counters), errors + missing), before, CallRecords(c));
        assert WithErrors(WithErrors(old(counters), errors), missing) == WithErrors(old(counters), errors + missing);
        assert old(submitted) + before + CallRecords(c) == old(submitted) + (before + CallRecords(c));
        i := i + 1;
      }
    }

    /** The callback's dispatch on the message format. */
    method ProcessMessage(indication: Indication, message: KpmMessage)
      modifies this`counters, this`submitted
      ensures submitted == old(submitted) + IndicationRecords(indication, message)
      ensures counters ==
        CountedAll(WithErrors(old(counters), MissingLists(message)), IndicationRecords(indication, message))
    {
      hide Counted;
      match message {
        case Format1Message(m) =>
          ProcessFormat1(Call(indication, U32_MAX, NoUe, m));
        case Format3Message(reports) =>
          if reports.NullArray? {
            if reports.declared > 0 { counters := counters.(callbackErrors := counters.callbackErrors + 1); }
          } else {
            ProcessReports(indication, reports.items);
          }
        case OtherMessage =>
          var record := UnknownFormatRecord(indication);
          CountedAllNext(old(counters), [], record);
          assert [] + [record] == [record];
          Retain(record);
      }
    }

    /** tcd_kpm_flexric_callback, stamping the indication with its sequence number. */
    method OnIndication(received: Indication, message: KpmMessage)
      modifies this
      ensures var indication := received.(sequence := (old(sequence) + 1) % 0x1_0000_0000_0000_0000);
        && submitted == old(submitted) + IndicationRecords(indication, message)
        && counters == CountedAll(
             WithErrors(
               old(counters).(indicationsReceived := old(counters).indicationsReceived + 1), MissingLists(message)),
             IndicationRecords(indication, message))
      ensures sequence == old(sequence) + 1 && maxIndications == old(maxIndications)
      ensures stopRequested <==> old(stopRequested) || 0 < maxIndications <= sequence
    {
      hide CountedAll;
      hide IndicationRecords;
      hide MissingLists;
      sequence := sequence + 1;
      var indication := received.(sequence := sequence % 0x1_0000_0000_0000_0000);
      counters := counters.(indicationsReceived := counters.indicationsReceived + 1);
      ProcessMessage(indication, message);
      if maxIndications > 0 && sequence >= maxIndications { stopRequested := true; }
    }
  }
}
