/** What every run of the output pipeline guarantees: the accounting, the two files, and what the
    result of shutdown means. */
module PipelineResults {
  import opened Bytes
  import CanonicalRecord
  import FileSink
  import Json
  import Csv
  import opened OutputPipeline
  import opened PipelineRuns

  // ---- the record buckets ----

  datatype Bucket = Integers | Reals | NoValues | LengthMismatches | OtherDiagnostics

  predicate In(b: Bucket, r: Record) {
    match b
    case Integers => r.recordKind == CanonicalRecord.Measurement && r.valueType == CanonicalRecord.ValueInteger
    case Reals => r.recordKind == CanonicalRecord.Measurement && r.valueType == CanonicalRecord.ValueReal
    case NoValues => r.recordKind == CanonicalRecord.Measurement && r.valueType == CanonicalRecord.ValueNoValue
    case LengthMismatches =>
      r.recordKind == CanonicalRecord.Diagnostic && r.structuralStatus == CanonicalRecord.LengthMismatch
    case OtherDiagnostics =>
      r.recordKind == CanonicalRecord.Diagnostic && r.structuralStatus != CanonicalRecord.LengthMismatch
  }

  function Count(rs: seq<Record>, b: Bucket): nat {
    if rs == [] then 0 else Count(rs[..|rs| - 1], b) + if In(b, rs[|rs| - 1]) then 1 else 0
  }

  /** How many indications of a format start in a record sequence: a record starts one unless the
      record before it has the same sequence number. */
  function Indications(rs: seq<Record>, format: nat): nat {
    if rs == [] then 0
    else
      var n := |rs| - 1;
      Indications(rs[..n], format) + if Starts(rs[..n], rs[n], format) then 1 else 0
  }

  predicate Starts(before: seq<Record>, r: Record, format: nat) {
    && r.messageFormat == format
    && (before == [] || before[|before| - 1].indicationSequence != r.indicationSequence)
  }

  /** Valid records fall into exactly one bucket each. */
  lemma {:induction false} BucketsPartition(rs: seq<Record>)
    requires forall r :: r in rs ==> CanonicalRecord.Valid(r)
    ensures Count(rs, Integers) + Count(rs, Reals) + Count(rs, NoValues)
            + Count(rs, LengthMismatches) + Count(rs, OtherDiagnostics) == |rs|
  {
    if rs != [] {
      var front, r := rs[..|rs| - 1], rs[|rs| - 1];
      BucketsPartition(front);
      assert CanonicalRecord.Valid(r);
      OneBucket(r);
      hide CanonicalRecord.Valid;
      hide In;
    }
  }

  lemma OneBucket(r: Record)
    requires CanonicalRecord.Valid(r)
    ensures (if In(Integers, r) then 1 else 0) + (if In(Reals, r) then 1 else 0) + (if In(NoValues, r) then 1 else 0)
            + (if In(LengthMismatches, r) then 1 else 0) + (if In(OtherDiagnostics, r) then 1 else 0) == 1
  {
    hide CanonicalRecord.GoodStrings;
  }

  lemma CountNext(rs: seq<Record>, r: Record)
    ensures forall b :: Count(rs + [r], b) == Count(rs, b) + if In(b, r) then 1 else 0
    ensures forall f :: Indications(rs + [r], f) == Indications(rs, f) + (if Starts(rs, r, f) then 1 else 0)
  {
    hide In;
    assert (rs + [r])[..|rs|] == rs;
  }

  /** The counters say what was accounted. */
  predicate Counts(s: Shared, rs: seq<Record>) {
    && KindCounts(s.stats, rs) && IndicationCounts(s, rs)
    && s.stats.lastReceiveSeconds == (if rs == [] then 0 else rs[|rs| - 1].receiveTimestampUs / 1000000)
  }

  predicate KindCounts(t: Stats, rs: seq<Record>) {
    && t.integers == Count(rs, Integers) && t.reals == Count(rs, Reals) && t.noValues == Count(rs, NoValues)
    && t.lengthMismatches == t.rejectedLengthMismatch == Count(rs, LengthMismatches)
    && t.invalidInputs == t.rejectedInvalidInput == Count(rs, OtherDiagnostics)
  }

  predicate IndicationCounts(s: Shared, rs: seq<Record>) {
    && s.stats.indicationsFormat1 == Indications(rs, 1) && s.stats.indicationsFormat3 == Indications(rs, 3)
    && s.lastIndication == (if rs == [] then None else Some(rs[|rs| - 1].indicationSequence))
  }

  lemma AccountKindCounts(t: Stats, rs: seq<Record>, r: Record)
    requires KindCounts(t, rs)
    ensures KindCounts(AccountKind(t, r), rs + [r])
    ensures AccountKind(t, r).indicationsFormat1 == t.indicationsFormat1
    ensures AccountKind(t, r).indicationsFormat3 == t.indicationsFormat3
  {
    hide Count;
    hide Indications;
    CountNext(rs, r);
  }

  lemma AccountIndicationCounts(s: Shared, rs: seq<Record>, r: Record)
    requires IndicationCounts(s, rs)
    ensures IndicationCounts(AccountIndication(s, r), rs + [r])
    ensures KindCounts(s.stats, rs) ==> KindCounts(AccountIndication(s, r).stats, rs)
  {
    hide Count;
    hide Indications;
    CountNext(rs, r);
  }

  lemma AccountRecordCounts(s: Shared, rs: seq<Record>, r: Record)
    requires Counts(s, rs)
    ensures Counts(AccountRecord(s, r), rs + [r])
  {
    hide AccountIndication;
    hide AccountKind;
    hide Count;
    hide Indications;
    AccountIndicationCounts(s, rs, r);
    AccountKindCounts(AccountIndication(s, r).stats, rs, r);
  }

  lemma AccountFileCounts(s: Shared, rs: seq<Record>, backend: FileBackend, result: FileSink.Result)
    requires Counts(s, rs)
    ensures Counts(AccountFileResult(s, backend, result), rs)
  {
    hide Count;
    hide Indications;
    hide AccountResult;
  }

  lemma AccountCounts(c: Config, s: Shared, rs: seq<Record>, r: Record, csv: FileSink.Result, jsonl: FileSink.Result)
    requires Counts(s, rs)
    ensures Counts(Account(c, s, r, csv, jsonl), rs + [r])
  {
    hide Counts;
    hide AccountRecord;
    hide AccountFileResult;
    AccountRecordCounts(s, rs, r);
    var t := AccountRecord(s, r);
    AccountFileCounts(t, rs + [r], CsvBackend, csv);
    var u := if c.csv then AccountFileResult(t, CsvBackend, csv) else t;
    AccountFileCounts(u, rs + [r], JsonlBackend, jsonl);
  }

  // ---- how far the worker is with the record it holds ----

  function Accounted(s: State): seq<Record> {
    s.processed + if s.worker.PublishDue? || s.worker.FinishDue? then [s.worker.r] else []
  }

  function CsvWritten(s: State): seq<Record> {
    s.processed + if s.worker.CsvDue? then [] else InFlight(s.worker)
  }

  function JsonlWritten(s: State): seq<Record> {
    s.processed + if s.worker.CsvDue? || s.worker.JsonlDue? then [] else InFlight(s.worker)
  }

  function Published(s: State): seq<Record> {
    s.processed + if s.worker.FinishDue? then [s.worker.r] else []
  }

  /** A write result that is not accounted yet. */
  function CsvPending(w: Worker): Option<FileSink.Result> {
    if w.JsonlDue? || w.AccountDue? then Some(w.csv) else None
  }

  function JsonlPending(w: Worker): Option<FileSink.Result> {
    if w.AccountDue? then Some(w.jsonl) else None
  }

  function CsvIsClosed(m: Main): bool { !m.Running? && !m.Stopping? && !m.CsvCloseDue? }

  function JsonlIsClosed(m: Main): bool { CsvIsClosed(m) && !m.JsonlCloseDue? }

  // ---- one file ----

  /** The bytes of a file that was given the records rs and reported the first k as written. */
  predicate FileHolds(format: FileSink.Format, disk: seq<byte>, rs: seq<Record>, k: nat) {
    && k <= |rs|
    && FileSink.FileText(format, rs[..k]) <= disk
    && disk <= FileSink.FileText(format, rs[..if k < |rs| then k + 1 else k])
  }

  /** One backend: its counters agree with its sink, its sink with the records it was given. */
  ghost predicate BackendInv(on: bool, format: FileSink.Format, sink: FileSink.Sink, b: BackendStats,
                             rs: seq<Record>, pending: Option<FileSink.Result>, closed: bool)
  {
    if !on then b == NO_BACKEND_STATS
    else
      && sink.format == format && format != FileSink.InvalidFormat
      && b.ok + (if pending == Some(FileSink.SinkOk) then 1 else 0) == sink.recordsWritten
      && b.ok + b.error + (if pending.Some? then 1 else 0) == |rs|
      && (pending.Some? ==> (pending.value == FileSink.SinkOk <==> sink.recordsWritten == |rs|))
      && b.Reasons() >= b.error
      && (if closed then pending == None && FileHolds(format, sink.disk, rs, b.ok)
          else b.Reasons() == b.error && FileSink.Tracks(sink, rs))
  }

  lemma TracksHolds(sink: FileSink.Sink, rs: seq<Record>)
    requires FileSink.Tracks(sink, rs)
    ensures FileHolds(sink.format, sink.disk, rs, sink.recordsWritten)
    ensures !sink.failed <==> sink.recordsWritten == |rs|
  {
    hide FileSink.FileText;
    assert rs[..|rs|] == rs;
  }

  lemma BackendWrites(format: FileSink.Format, sink: FileSink.Sink, b: BackendStats, rs: seq<Record>, r: Record,
                      io: FileSink.WriteIo)
    requires BackendInv(true, format, sink, b, rs, None, false) && CanonicalRecord.Valid(r)
    ensures var (sink', result) := FileSink.Write(sink, r, io);
      BackendInv(true, format, sink', b, rs + [r], Some(result), false)
  {
    hide FileSink.Write;
    hide FileSink.WriteAndFlush;
    hide FileSink.Tracks;
    hide FileSink.FileText;
    hide FileHolds;
    hide CanonicalRecord.Valid;
    TracksHolds(sink, rs);
    FileSink.WriteTracks(sink, rs, r, io);
  }

  lemma BackendAccounts(format: FileSink.Format, sink: FileSink.Sink, b: BackendStats, rs: seq<Record>,
                        result: FileSink.Result)
    requires BackendInv(true, format, sink, b, rs, Some(result), false)
    ensures BackendInv(true, format, sink, AccountResult(b, result), rs, None, false)
  {
    hide AccountResult;
    hide FileSink.Tracks;
    AccountResultReasons(b, result);
  }

  /** Closing: the close is clean exactly when the backend never counted an error. */
  lemma BackendCloses(format: FileSink.Format, sink: FileSink.Sink, b: BackendStats, rs: seq<Record>,
                      io: FileSink.CloseIo)
    requires BackendInv(true, format, sink, b, rs, None, false)
    ensures var (sink', result) := FileSink.Close(sink, io);
      var b' := if result == FileSink.SinkOk then b else b.Add(ReasonOf(result), 1);
      && BackendInv(true, format, sink', b', rs, None, true)
      && (result == FileSink.SinkOk <==> b'.Reasons() == 0)
  {
    hide FileSink.Close;
    hide FileSink.Tracks;
    hide FileSink.FileText;
    hide FileHolds;
    TracksHolds(sink, rs);
    FileSink.CloseTracks(sink, rs, io);
    ClosedHolds(sink, rs, io);
    AddReason(b, ReasonOf(FileSink.Close(sink, io).1));
  }

  lemma AddReason(b: BackendStats, reason: Reason)
    ensures b.Add(reason, 1).Reasons() == b.Reasons() + 1
    ensures b.Add(reason, 1).ok == b.ok && b.Add(reason, 1).error == b.error
  {
  }

  lemma ClosedHolds(sink: FileSink.Sink, rs: seq<Record>, io: FileSink.CloseIo)
    requires FileSink.Tracks(sink, rs)
    ensures FileHolds(sink.format, FileSink.Close(sink, io).0.disk, rs, sink.recordsWritten)
  {
    hide FileSink.Close;
    hide FileSink.FileText;
    FileSink.CloseTracks(sink, rs, io);
    assert rs[..|rs|] == rs;
  }

  // ---- the invariant of every run ----

  ghost predicate CsvInv(c: Config, s: State) {
    BackendInv(c.csv, FileSink.CsvFormat, s.csv, s.shared.stats.csv, CsvWritten(s), CsvPending(s.worker),
               CsvIsClosed(s.main))
  }

  ghost predicate JsonlInv(c: Config, s: State) {
    BackendInv(c.jsonl, FileSink.JsonlFormat, s.jsonl, s.shared.stats.jsonl, JsonlWritten(s), JsonlPending(s.worker),
               JsonlIsClosed(s.main))
  }

  predicate PrometheusInv(c: Config, s: State) {
    var b := s.shared.stats.prometheus;
    if c.prometheus then b.ok + b.error == |Published(s)| && b.Reasons() == b.error
    else b == NO_BACKEND_STATS
  }

  /** shutdown's success variable, and its result. */
  predicate SuccessInv(s: State) {
    var csvClean := s.shared.stats.csv.Reasons() == 0;
    var clean := csvClean && s.shared.stats.jsonl.Reasons() == 0;
    match s.main
    case JsonlCloseDue(success) => success <==> csvClean
    case SnapshotDue(success) => success <==> clean
    case LastPublishDue(success, _) => success <==> clean
    case DropsDue(success, published) => success <==> clean && published
    case FailedDue(success, published) => success <==> clean && published && s.shared.dropped == 0
    case Returned(success, published) =>
      success <==> clean && published && s.shared.dropped == 0 && !s.shared.failed
    case _ => true
  }

  ghost predicate Inv(c: Config, s: State) {
    && QueueInv(c, s) && CallsInv(s) && DropInv(s)
    && Counts(s.shared, Accounted(s))
    && CsvInv(c, s) && JsonlInv(c, s) && PrometheusInv(c, s) && SuccessInv(s)
  }

  lemma StartInv(c: Config, s: State)
    requires Start(c, s)
    ensures Inv(c, s)
  {
    hide QueueInv;
    hide DropInv;
    hide Counts;
    hide BackendInv;
    hide FileSink.Tracks;
    hide Initial;
    var zero :| s.shared == Initial(c, zero);
    StartHistories(s);
    StartQueue(c, s, zero);
    StartCounters(c, s, zero);
    BackendStarts(c.csv, FileSink.CsvFormat, s.csv);
    BackendStarts(c.jsonl, FileSink.JsonlFormat, s.jsonl);
  }

  lemma StartHistories(s: State)
    requires s.worker == Waiting && s.processed == []
    ensures Accounted(s) == CsvWritten(s) == JsonlWritten(s) == Published(s) == []
  {
  }

  lemma StartQueue(c: Config, s: State, zero: Record)
    requires c.capacity > 0 && s.shared == Initial(c, zero)
    requires s.worker == Waiting && s.main == Running && s.log == [] && s.processed == []
    ensures QueueInv(c, s)
  {
    InitialIsShaped(c, zero);
    hide WellShaped;
  }

  lemma StartCounters(c: Config, s: State, zero: Record)
    requires s.shared == Initial(c, zero)
    requires s.worker == Waiting && s.main == Running && s.calls == multiset{} && s.log == [] && s.submits == 0
    ensures DropInv(s) && Counts(s.shared, [])
    ensures s.shared.stats.csv == s.shared.stats.jsonl == s.shared.stats.prometheus == NO_BACKEND_STATS
  {
    hide DropInv;
    hide Counts;
    StartDrops(s);
    StartCounts(s.shared);
  }

  lemma StartDrops(s: State)
    requires s.shared.stats == NO_STATS && s.shared.dropped == 0 && !s.shared.failed
    requires s.main == Running && s.calls == multiset{} && s.log == [] && s.submits == 0
    ensures DropInv(s)
  {
    hide Errors;
    hide Undecided;
    NoCalls(s);
    NoErrors();
  }

  lemma NoCalls(s: State)
    requires s.calls == multiset{}
    ensures s.calls[Marking] == 0 && Undecided(s) == 0
  {
    assert |s.calls| == 0;
  }

  lemma NoErrors()
    ensures Errors(NO_STATS) == 0
  {
  }

  lemma StartCounts(s: Shared)
    requires s.stats == NO_STATS && s.lastIndication == None
    ensures Counts(s, [])
  {
    hide Count;
    hide Indications;
    NothingCounted();
  }

  lemma NothingCounted()
    ensures (forall b :: Count([], b) == 0) && (forall f :: Indications([], f) == 0)
  {
  }

  lemma InitialIsShaped(c: Config, zero: Record)
    requires c.capacity > 0
    ensures WellShaped(c, Initial(c, zero))
  {
  }

  lemma BackendStarts(on: bool, format: FileSink.Format, sink: FileSink.Sink)
    requires on ==> FileSink.Tracks(sink, []) && sink.format == format
    ensures BackendInv(on, format, sink, NO_BACKEND_STATS, [], None, false)
  {
    hide FileSink.FileText;
  }

  /** A submit changes neither counters nor sinks nor anything the worker or shutdown owns. */
  lemma SubmitKeeps(c: Config, s: State, a: Action)
    requires Enabled(c, s, a) && (a.Begin? || a.TryLockFails? || a.Region? || a.Drop? || a.Mark?)
    ensures var t := Submit(c, s, a);
      && t.shared.stats == s.shared.stats && t.shared.lastIndication == s.shared.lastIndication
      && t == s.(shared := t.shared, calls := t.calls, log := t.log, submits := t.submits)
      && (s.calls == multiset{} ==> a.Begin?)
      && (a.Begin? ==> t.shared == s.shared && !s.main.FailedDue? && !s.main.Returned?)
  {
    hide CanonicalRecord.Valid;
    hide Replace;
    hide WellShaped;
  }

  lemma SubmitStep(c: Config, s: State, a: Action)
    requires Inv(c, s)
    requires Enabled(c, s, a) && (a.Begin? || a.TryLockFails? || a.Region? || a.Drop? || a.Mark?)
    ensures var t := Submit(c, s, a);
      Counts(t.shared, Accounted(t)) && CsvInv(c, t) && JsonlInv(c, t) && PrometheusInv(c, t) && SuccessInv(t)
  {
    hide Submit;
    hide BackendInv;
    hide KindCounts;
    hide Indications;
    hide Ring;
    hide WellShaped;
    hide CanonicalRecord.Valid;
    hide DropInv;
    SubmitKeeps(c, s, a);
    assert IndicationCounts(Submit(c, s, a).shared, Accounted(s));
  }

  /** Counts depends on no backend counter and on nothing outside the counters. */
  lemma CountsFrame(s: Shared, t: Shared, rs: seq<Record>)
    requires Counts(s, rs) && t.lastIndication == s.lastIndication
    requires t.stats == s.stats.(csv := t.stats.csv, jsonl := t.stats.jsonl, prometheus := t.stats.prometheus,
               callbackErrors := t.stats.callbackErrors, subscriptionsCreated := t.stats.subscriptionsCreated,
               subscriptionsRemoved := t.stats.subscriptionsRemoved)
    ensures Counts(t, rs)
  {
    hide Count;
    hide Indications;
  }

  lemma CountsStep(c: Config, s: State, a: Action)
    requires Counts(s.shared, Accounted(s)) && Enabled(c, s, a)
    requires !(a.Begin? || a.TryLockFails? || a.Region? || a.Drop? || a.Mark?)
    ensures Counts(Apply(c, s, a).shared, Accounted(Apply(c, s, a)))
  {
    hide Counts;
    hide Account;
    hide FileSink.Write;
    hide FileSink.Close;
    hide ComposeSnapshot;
    hide CanonicalRecord.Valid;
    hide WellShaped;
    assert s.processed + [] == s.processed;
    if a.AccountRegion? {
      AccountCounts(c, s.shared, Accounted(s), s.worker.r, s.worker.csv, s.worker.jsonl);
    } else {
      CountsFrame(s.shared, Apply(c, s, a).shared, Accounted(s));
      if a.FinishRegion? { assert (s.processed + [s.worker.r]) + [] == s.processed + [s.worker.r]; }
    }
  }

  lemma InFlightIsValid(c: Config, s: State)
    requires QueueInv(c, s) && CallsInv(s)
    ensures forall r :: r in InFlight(s.worker) ==> CanonicalRecord.Valid(r)
    ensures forall r :: r in s.log ==> CanonicalRecord.Valid(r)
  {
    hide CanonicalRecord.Valid;
    hide Ring;
    hide WellShaped;
    forall r | r in InFlight(s.worker) ensures r in s.log {
    }
  }

  lemma OffMeansNoStats(c: Config, s: State)
    ensures !c.csv ==> (CsvInv(c, s) <==> s.shared.stats.csv == NO_BACKEND_STATS)
    ensures !c.jsonl ==> (JsonlInv(c, s) <==> s.shared.stats.jsonl == NO_BACKEND_STATS)
  {
    hide FileSink.Tracks;
    hide FileHolds;
  }

  lemma BackendsOff(c: Config, s: State, a: Action)
    requires CsvInv(c, s) && JsonlInv(c, s) && Enabled(c, s, a)
    requires !(a.Begin? || a.TryLockFails? || a.Region? || a.Drop? || a.Mark?)
    ensures !c.csv ==> CsvInv(c, Apply(c, s, a))
    ensures !c.jsonl ==> JsonlInv(c, Apply(c, s, a))
  {
    hide CsvInv;
    hide JsonlInv;
    hide Account;
    hide AccountResult;
    hide FileSink.Write;
    hide FileSink.Close;
    hide ComposeSnapshot;
    hide CanonicalRecord.Valid;
    hide WellShaped;
    OffMeansNoStats(c, s);
    OffMeansNoStats(c, Apply(c, s, a));
    if a.AccountRegion? { AccountErrors(c, s.shared, s.worker.r, s.worker.csv, s.worker.jsonl); }
  }

  lemma CsvStep(c: Config, s: State, a: Action)
    requires QueueInv(c, s) && CallsInv(s) && CsvInv(c, s) && Enabled(c, s, a) && c.csv
    requires !(a.Begin? || a.TryLockFails? || a.Region? || a.Drop? || a.Mark?)
    ensures CsvInv(c, Apply(c, s, a))
  {
    hide BackendInv;
    hide Account;
    hide AccountResult;
    hide FileSink.Write;
    hide FileSink.Close;
    hide ComposeSnapshot;
    hide CanonicalRecord.Valid;
    hide WellShaped;
    hide Ring;
    assert s.processed + [] == s.processed;
    if a.FinishRegion? { assert (s.processed + [s.worker.r]) + [] == s.processed + [s.worker.r]; }
    match a {
      case WriteCsv(io) =>
        InFlightIsValid(c, s);
        BackendWrites(FileSink.CsvFormat, s.csv, s.shared.stats.csv, s.processed, s.worker.r, io);
      case AccountRegion(seconds) =>
        AccountErrors(c, s.shared, s.worker.r, s.worker.csv, s.worker.jsonl);
        BackendAccounts(FileSink.CsvFormat, s.csv, s.shared.stats.csv, CsvWritten(s), s.worker.csv);
      case CloseCsv(io) =>
        BackendCloses(FileSink.CsvFormat, s.csv, s.shared.stats.csv, CsvWritten(s), io);
      case _ =>
    }
  }

  lemma JsonlStep(c: Config, s: State, a: Action)
    requires QueueInv(c, s) && CallsInv(s) && JsonlInv(c, s) && Enabled(c, s, a) && c.jsonl
    requires !(a.Begin? || a.TryLockFails? || a.Region? || a.Drop? || a.Mark?)
    ensures JsonlInv(c, Apply(c, s, a))
  {
    hide BackendInv;
    hide Account;
    hide AccountResult;
    hide FileSink.Write;
    hide FileSink.Close;
    hide ComposeSnapshot;
    hide CanonicalRecord.Valid;
    hide WellShaped;
    hide Ring;
    assert s.processed + [] == s.processed;
    if a.FinishRegion? { assert (s.processed + [s.worker.r]) + [] == s.processed + [s.worker.r]; }
    match a {
      case WriteJsonl(io) =>
        InFlightIsValid(c, s);
        BackendWrites(FileSink.JsonlFormat, s.jsonl, s.shared.stats.jsonl, s.processed, s.worker.r, io);
      case AccountRegion(seconds) =>
        AccountErrors(c, s.shared, s.worker.r, s.worker.csv, s.worker.jsonl);
        BackendAccounts(FileSink.JsonlFormat, s.jsonl, s.shared.stats.jsonl, JsonlWritten(s), s.worker.jsonl);
      case CloseJsonl(io) =>
        BackendCloses(FileSink.JsonlFormat, s.jsonl, s.shared.stats.jsonl, JsonlWritten(s), io);
      case _ =>
    }
  }

  lemma PrometheusStep(c: Config, s: State, a: Action)
    requires QueueInv(c, s) && PrometheusInv(c, s) && Enabled(c, s, a)
    requires !(a.Begin? || a.TryLockFails? || a.Region? || a.Drop? || a.Mark?)
    ensures PrometheusInv(c, Apply(c, s, a))
  {
    hide QueueInv;
    hide PrometheusInv;
    hide Enabled;
    hide Work;
    hide Shutdown;
    if WorkerAction(a) { PrometheusWorkStep(c, s, a); } else { PrometheusShutdownStep(c, s, a); }
  }

  lemma PrometheusWorkStep(c: Config, s: State, a: Action)
    requires PrometheusInv(c, s) && Enabled(c, s, a) && WorkerAction(a)
    ensures PrometheusInv(c, Work(c, s, a))
  {
    hide Enabled;
    hide Work;
    hide PrometheusInv;
    if a.Publish? { PrometheusPublishes(c, s, a); } else { PrometheusWaits(c, s, a); }
  }

  lemma PrometheusPublishes(c: Config, s: State, a: Action)
    requires PrometheusInv(c, s) && Enabled(c, s, a) && a.Publish?
    ensures PrometheusInv(c, Work(c, s, a))
  {
    hide WellShaped;
    hide AccountPublish;
    hide Work;
    hide Enabled;
    hide Published;
    PublishFrame(c, s, a);
    PublishCounts(s.shared, a.error);
  }

  /** A publish adds one record to those published, and accounts for it when the backend is on. */
  lemma PublishFrame(c: Config, s: State, a: Action)
    requires Enabled(c, s, a) && a.Publish?
    ensures |Published(Work(c, s, a))| == |Published(s)| + 1
    ensures Work(c, s, a).shared == if c.prometheus then AccountPublish(s.shared, a.error) else s.shared
  {
    hide AccountPublish;
    hide ComposeSnapshot;
    hide WellShaped;
  }

  lemma PublishCounts(s: Shared, error: Option<Reason>)
    ensures var b, t := s.stats.prometheus, AccountPublish(s, error).stats.prometheus;
      && t.ok + t.error == b.ok + b.error + 1
      && t.Reasons() - b.Reasons() == t.error - b.error
  {
    if error.Some? { AddReason(s.stats.prometheus, error.value); }
  }

  lemma PrometheusWaits(c: Config, s: State, a: Action)
    requires PrometheusInv(c, s) && Enabled(c, s, a) && WorkerAction(a) && !a.Publish?
    ensures PrometheusInv(c, Work(c, s, a))
  {
    hide WellShaped;
    hide PrometheusInv;
    hide Work;
    WaitFrame(c, s, a);
    SamePrometheus(c, s, Work(c, s, a));
  }

  lemma SamePrometheus(c: Config, s: State, t: State)
    requires PrometheusInv(c, s)
    requires t.shared.stats.prometheus == s.shared.stats.prometheus && |Published(t)| == |Published(s)|
    ensures PrometheusInv(c, t)
  {
  }

  lemma WaitFrame(c: Config, s: State, a: Action)
    requires Enabled(c, s, a) && WorkerAction(a) && !a.Publish?
    ensures Work(c, s, a).shared.stats.prometheus == s.shared.stats.prometheus
    ensures |Published(Work(c, s, a))| == |Published(s)|
  {
    hide Account;
    hide AccountResult;
    hide FileSink.Write;
    hide ComposeSnapshot;
    hide WellShaped;
    if a.AccountRegion? { AccountErrors(c, s.shared, s.worker.r, s.worker.csv, s.worker.jsonl); }
  }

  lemma PrometheusShutdownStep(c: Config, s: State, a: Action)
    requires PrometheusInv(c, s) && Enabled(c, s, a) && !WorkerAction(a)
    requires !(a.Begin? || a.TryLockFails? || a.Region? || a.Drop? || a.Mark?)
    ensures PrometheusInv(c, Shutdown(c, s, a))
  {
    hide FileSink.Close;
    hide ComposeSnapshot;
    hide WellShaped;
    var t := Shutdown(c, s, a);
    assert t.shared.stats.prometheus == s.shared.stats.prometheus && t.worker == s.worker && t.processed == s.processed;
  }

  lemma SuccessOtherStep(c: Config, s: State, a: Action)
    requires QueueInv(c, s) && CallsInv(s) && SuccessInv(s) && Enabled(c, s, a)
    requires !(a.Begin? || a.TryLockFails? || a.Region? || a.Drop? || a.Mark?)
    requires !a.CloseCsv? && !a.CloseJsonl?
    ensures SuccessInv(Apply(c, s, a))
  {
    hide Account;
    hide FileSink.Write;
    hide FileSink.Close;
    hide ComposeSnapshot;
    hide CanonicalRecord.Valid;
    hide WellShaped;
    hide Ring;
  }

  lemma SuccessCloseStep(c: Config, s: State, a: Action)
    requires Inv(c, s) && Enabled(c, s, a) && (a.CloseCsv? || a.CloseJsonl?)
    ensures SuccessInv(Apply(c, s, a))
  {
    hide BackendInv;
    hide FileSink.Close;
    hide Ring;
    hide CallsInv;
    hide DropInv;
    hide Counts;
    hide WellShaped;
    if a.CloseCsv? {
      if c.csv { BackendCloses(FileSink.CsvFormat, s.csv, s.shared.stats.csv, CsvWritten(s), a.closeIo); }
      else { BackendOffStats(FileSink.CsvFormat, s.csv, s.shared.stats.csv, CsvWritten(s), CsvPending(s.worker)); }
    } else {
      if c.jsonl { BackendCloses(FileSink.JsonlFormat, s.jsonl, s.shared.stats.jsonl, JsonlWritten(s), a.closeIo); }
      else {
        BackendOffStats(
          FileSink.JsonlFormat, s.jsonl, s.shared.stats.jsonl, JsonlWritten(s), JsonlPending(s.worker));
      }
    }
  }

  lemma BackendOffStats(format: FileSink.Format, sink: FileSink.Sink, b: BackendStats, rs: seq<Record>,
                        pending: Option<FileSink.Result>)
    requires BackendInv(false, format, sink, b, rs, pending, false)
    ensures b.Reasons() == 0
  {
  }

  lemma SubmitApplies(c: Config, s: State, a: Action)
    requires Enabled(c, s, a) && (a.Begin? || a.TryLockFails? || a.Region? || a.Drop? || a.Mark?)
    ensures Apply(c, s, a) == Submit(c, s, a)
  {
    hide Enabled;
    hide Submit;
  }

  /** Every step of every party keeps the invariant. */
  lemma Step(c: Config, s: State, a: Action)
    requires Inv(c, s) && Enabled(c, s, a)
    ensures Inv(c, Apply(c, s, a))
  {
    hide Apply;
    hide Enabled;
    hide QueueInv;
    hide CallsInv;
    hide DropInv;
    hide Counts;
    hide CsvInv;
    hide JsonlInv;
    hide PrometheusInv;
    hide SuccessInv;
    QueueStep(c, s, a);
    CallsStep(c, s, a);
    DropStep(c, s, a);
    if a.Begin? || a.TryLockFails? || a.Region? || a.Drop? || a.Mark? {
      SubmitApplies(c, s, a);
      SubmitStep(c, s, a);
    } else {
      CountsStep(c, s, a);
      BackendsOff(c, s, a);
      if c.csv { CsvStep(c, s, a); }
      if c.jsonl { JsonlStep(c, s, a); }
      PrometheusStep(c, s, a);
      if a.CloseCsv? || a.CloseJsonl? { SuccessCloseStep(c, s, a); } else { SuccessOtherStep(c, s, a); }
    }
  }

  lemma {:induction false} RunKeeps(c: Config, s: State, actions: seq<Action>)
    requires Inv(c, s) && Legal(c, s, actions)
    ensures Inv(c, After(c, s, actions))
    decreases |actions|
  {
    hide Inv;
    hide Apply;
    hide Enabled;
    if actions != [] {
      Step(c, s, actions[0]);
      RunKeeps(c, Apply(c, s, actions[0]), actions[1..]);
    }
  }

  /** Whatever the interleaving, every state of every run satisfies the invariant. */
  lemma EveryRun(c: Config, s: State, actions: seq<Action>)
    requires Start(c, s) && Legal(c, s, actions)
    ensures Inv(c, After(c, s, actions))
  {
    hide Inv;
    hide Start;
    StartInv(c, s);
    RunKeeps(c, s, actions);
  }

  // ---- what callers may rely on ----

  /** At every moment of every run the accepted records are those processed, the one in flight and
      those in the ring, oldest first; the ring never holds more than its capacity. */
  lemma AcceptedAreProcessedInFlightOrQueued(c: Config, s0: State, actions: seq<Action>)
    requires Start(c, s0) && Legal(c, s0, actions)
    ensures var s := After(c, s0, actions);
      && WellShaped(c, s.shared)
      && s.shared.tail == (s.shared.head + s.shared.count) % c.capacity
      && s.log == s.processed + InFlight(s.worker) + Ring(s.shared.queue, s.shared.head, s.shared.count)
      && s.shared.accepted == |s.log|
  {
    hide Start;
    hide After;
    hide Ring;
    hide CallsInv;
    hide DropInv;
    hide Counts;
    hide CsvInv;
    hide JsonlInv;
    EveryRun(c, s0, actions);
  }

  /** Once stop is requested nothing more is accepted, in any continuation. */
  lemma {:induction false} NothingAcceptedAfterStop(c: Config, s: State, actions: seq<Action>)
    requires s.shared.stop && Legal(c, s, actions)
    ensures After(c, s, actions).shared.stop && After(c, s, actions).log == s.log
    decreases |actions|
  {
    hide Apply;
    hide Enabled;
    if actions != [] {
      StopStays(c, s, actions[0]);
      NothingAcceptedAfterStop(c, Apply(c, s, actions[0]), actions[1..]);
    }
  }

  lemma StopStays(c: Config, s: State, a: Action)
    requires s.shared.stop && Enabled(c, s, a)
    ensures Apply(c, s, a).shared.stop && Apply(c, s, a).log == s.log
  {
    hide Account;
    hide FileSink.Write;
    hide FileSink.Close;
    hide ComposeSnapshot;
    hide CanonicalRecord.Valid;
    hide WellShaped;
  }

  /** When the join returns, every accepted record has been processed, in the order accepted. */
  lemma JoinedMeansProcessed(c: Config, s: State)
    requires QueueInv(c, s) && (s.worker.Exited? || s.main.Returned?)
    ensures s.worker.Exited?
    ensures s.processed == s.log && Accounted(s) == s.log && CsvWritten(s) == s.log && JsonlWritten(s) == s.log
    ensures Published(s) == s.log
  {
  }

  /** What shutdown's answer means. It is true exactly when nothing was dropped, no backend ever
      counted an error and the last snapshot was published; then every submit was accepted and
      each enabled file is the complete text of all accepted records. Whatever the answer, each
      enabled file holds every record its backend counted as written, then at most a part of the
      next one, and nothing else. */
  lemma ShutdownResult(c: Config, s0: State, actions: seq<Action>)
    requires Start(c, s0) && Legal(c, s0, actions) && After(c, s0, actions).main.Returned?
    ensures var s := After(c, s0, actions);
      && (s.main.success <==> s.shared.dropped == 0 && Errors(s.shared.stats) == 0 && s.main.published)
      && s.submits == |s.log| + s.shared.dropped
      && (c.csv ==> FileHolds(FileSink.CsvFormat, s.csv.disk, s.log, s.shared.stats.csv.ok))
      && (c.jsonl ==> FileHolds(FileSink.JsonlFormat, s.jsonl.disk, s.log, s.shared.stats.jsonl.ok))
      && (s.main.success && c.csv ==> s.csv.disk == FileSink.FileText(FileSink.CsvFormat, s.log))
      && (s.main.success && c.jsonl ==> s.jsonl.disk == FileSink.FileText(FileSink.JsonlFormat, s.log))
  {
    hide Start;
    hide After;
    hide Inv;
    hide FileHolds;
    hide FileSink.FileText;
    var s := After(c, s0, actions);
    EveryRun(c, s0, actions);
    ReturnedSuccess(c, s);
    FinalFiles(c, s);
    if s.main.success && c.csv { WholeFile(FileSink.CsvFormat, s.csv.disk, s.log, s.shared.stats.csv.ok); }
    if s.main.success && c.jsonl { WholeFile(FileSink.JsonlFormat, s.jsonl.disk, s.log, s.shared.stats.jsonl.ok); }
  }

  /** After a shutdown that answered true, reading the files back gives every accepted record. */
  lemma SuccessfulFilesReadBack(c: Config, s0: State, actions: seq<Action>)
    requires Start(c, s0) && Legal(c, s0, actions) && After(c, s0, actions).main.Returned?
    requires After(c, s0, actions).main.success
    ensures var s := After(c, s0, actions);
      && |s.log| == s.submits
      && (c.jsonl ==> Json.ReadFile(s.jsonl.disk) == Some(FileSink.Views(s.log)))
      && (c.csv ==>
            && Csv.Header() <= s.csv.disk
            && Csv.ReadRows(s.csv.disk[|Csv.Header()|..]) == Some(FileSink.Views(s.log)))
  {
    hide Start;
    hide After;
    hide Inv;
    hide FileHolds;
    hide FileSink.FileText;
    hide Json.ReadFile;
    hide Csv.ReadRows;
    hide Csv.Header;
    hide CanonicalRecord.Valid;
    var s := After(c, s0, actions);
    ShutdownResult(c, s0, actions);
    EveryRun(c, s0, actions);
    LogIsValid(c, s);
    FileSink.JsonlFileReadsBack(s.log);
    FileSink.CsvFileReadsBack(s.log);
  }

  lemma LogIsValid(c: Config, s: State)
    requires Inv(c, s)
    ensures forall i :: 0 <= i < |s.log| ==> CanonicalRecord.Valid(s.log[i])
  {
    hide CanonicalRecord.Valid;
    hide QueueInv;
    hide DropInv;
    hide Counts;
    hide CsvInv;
    hide JsonlInv;
    forall i | 0 <= i < |s.log| ensures CanonicalRecord.Valid(s.log[i]) { assert s.log[i] in s.log; }
  }

  lemma ReturnedSuccess(c: Config, s: State)
    requires Inv(c, s) && s.main.Returned?
    ensures s.main.success <==> s.shared.dropped == 0 && Errors(s.shared.stats) == 0 && s.main.published
    ensures s.submits == |s.log| + s.shared.dropped
  {
    hide QueueInv;
    hide Counts;
    hide CsvInv;
    hide JsonlInv;
    hide PrometheusInv;
    hide CanonicalRecord.Valid;
    assert s.calls == multiset{};
    ReturnedMeans(s);
  }

  lemma ReturnedMeans(s: State)
    requires DropInv(s) && SuccessInv(s) && s.calls == multiset{} && s.main.Returned?
    ensures s.main.success <==> s.shared.dropped == 0 && Errors(s.shared.stats) == 0 && s.main.published
    ensures s.submits == |s.log| + s.shared.dropped
  {
  }

  lemma FinalFiles(c: Config, s: State)
    requires Inv(c, s) && s.main.Returned?
    ensures c.csv ==>
      && FileHolds(FileSink.CsvFormat, s.csv.disk, s.log, s.shared.stats.csv.ok)
      && (Errors(s.shared.stats) == 0 ==> s.shared.stats.csv.ok == |s.log|)
    ensures c.jsonl ==>
      && FileHolds(FileSink.JsonlFormat, s.jsonl.disk, s.log, s.shared.stats.jsonl.ok)
      && (Errors(s.shared.stats) == 0 ==> s.shared.stats.jsonl.ok == |s.log|)
  {
    hide BackendInv;
    hide FileHolds;
    hide QueueInv;
    hide CallsInv;
    hide DropInv;
    hide Counts;
    hide SuccessInv;
    hide PrometheusInv;
    JoinedMeansProcessed(c, s);
    BackendCounts(c.csv, FileSink.CsvFormat, s.csv, s.shared.stats.csv, s.log, true);
    BackendCounts(c.jsonl, FileSink.JsonlFormat, s.jsonl, s.shared.stats.jsonl, s.log, true);
  }

  lemma BackendCounts(on: bool, format: FileSink.Format, sink: FileSink.Sink, b: BackendStats, rs: seq<Record>,
                      closed: bool)
    requires BackendInv(on, format, sink, b, rs, None, closed)
    ensures on ==> b.ok + b.error == |rs| && b.Reasons() >= b.error
    ensures on && closed ==> FileHolds(format, sink.disk, rs, b.ok)
  {
    hide FileHolds;
    hide FileSink.Tracks;
  }

  lemma WholeFile(format: FileSink.Format, disk: seq<byte>, rs: seq<Record>, k: nat)
    requires FileHolds(format, disk, rs, k) && k >= |rs|
    ensures disk == FileSink.FileText(format, rs)
  {
    hide FileSink.FileText;
    assert rs[..k] == rs;
  }

  /** The test wait_idle makes under the lock before it returns true. */
  predicate Idle(s: Shared) { s.count == 0 && !s.busy }

  /** When wait_idle returns true every accepted record is processed and accounted: its counters
      are the per-kind counts of the accepted records and add up to their number, and each enabled
      file backend's ok and error add up to it too. */
  lemma IdleMeansAccounted(c: Config, s0: State, actions: seq<Action>)
    requires Start(c, s0) && Legal(c, s0, actions) && Idle(After(c, s0, actions).shared)
    ensures var s := After(c, s0, actions);
      var t := s.shared.stats;
      && s.processed == s.log && |s.log| == s.shared.accepted
      && Counts(s.shared, s.log)
      && t.integers + t.reals + t.noValues + t.lengthMismatches + t.invalidInputs == |s.log|
      && (c.csv ==> t.csv.ok + t.csv.error == |s.log|)
      && (c.jsonl ==> t.jsonl.ok + t.jsonl.error == |s.log|)
      && (c.prometheus ==> t.prometheus.ok + t.prometheus.error == |s.log|)
  {
    hide Start;
    hide After;
    hide Inv;
    hide Counts;
    var s := After(c, s0, actions);
    EveryRun(c, s0, actions);
    IdleState(c, s);
    IdleBuckets(c, s);
  }

  lemma IdleState(c: Config, s: State)
    requires Inv(c, s) && Idle(s.shared)
    ensures s.processed == s.log && |s.log| == s.shared.accepted && Counts(s.shared, s.log)
    ensures forall r :: r in s.log ==> CanonicalRecord.Valid(r)
    ensures c.csv ==> s.shared.stats.csv.ok + s.shared.stats.csv.error == |s.log|
    ensures c.jsonl ==> s.shared.stats.jsonl.ok + s.shared.stats.jsonl.error == |s.log|
    ensures c.prometheus ==> s.shared.stats.prometheus.ok + s.shared.stats.prometheus.error == |s.log|
  {
    hide BackendInv;
    hide DropInv;
    hide QueueInv;
    hide Counts;
    hide CanonicalRecord.Valid;
    IdleQueue(c, s);
    BackendCounts(c.csv, FileSink.CsvFormat, s.csv, s.shared.stats.csv, s.log, CsvIsClosed(s.main));
    BackendCounts(c.jsonl, FileSink.JsonlFormat, s.jsonl, s.shared.stats.jsonl, s.log, JsonlIsClosed(s.main));
  }

  lemma IdleQueue(c: Config, s: State)
    requires QueueInv(c, s) && Idle(s.shared)
    ensures s.worker.Waiting? || s.worker.Exited?
    ensures s.processed == s.log && |s.log| == s.shared.accepted
    ensures Accounted(s) == CsvWritten(s) == JsonlWritten(s) == Published(s) == s.log
  {
    assert s.processed + [] + Ring(s.shared.queue, s.shared.head, s.shared.count) == s.processed;
    assert s.processed + [] == s.processed;
  }

  lemma IdleBuckets(c: Config, s: State)
    requires Inv(c, s) && Idle(s.shared)
    ensures var t := s.shared.stats;
      t.integers + t.reals + t.noValues + t.lengthMismatches + t.invalidInputs == |s.log|
  {
    hide Inv;
    hide CanonicalRecord.Valid;
    hide Count;
    hide Indications;
    IdleState(c, s);
    BucketsPartition(s.log);
  }

  /** The published counters count drops as errors: when the pipeline is idle and no call is in
      progress, every enabled backend's ok and error add up to the number of submits. */
  lemma SnapshotCountsEverySubmit(c: Config, s0: State, actions: seq<Action>, seconds: nat)
    requires Start(c, s0) && Legal(c, s0, actions)
    requires Idle(After(c, s0, actions).shared) && After(c, s0, actions).calls == multiset{}
    ensures var s := After(c, s0, actions);
      var snapshot := ComposeSnapshot(c, s.shared, s.shared.dropped, seconds);
      && s.submits == s.shared.accepted + s.shared.dropped
      && (c.csv ==> snapshot.csv.ok + snapshot.csv.error == s.submits)
      && (c.jsonl ==> snapshot.jsonl.ok + snapshot.jsonl.error == s.submits)
      && (c.prometheus ==> snapshot.prometheus.ok + snapshot.prometheus.error == s.submits)
  {
    hide Start;
    hide After;
    hide Inv;
    hide Counts;
    hide CanonicalRecord.Valid;
    var s := After(c, s0, actions);
    EveryRun(c, s0, actions);
    IdleState(c, s);
    QuietSubmits(c, s);
  }

  /** A snapshot taken at any moment of a run: its queue depth is the number of accepted records that
      nobody has taken, and every error it counts for an open file backend has a reason, a drop
      counting as a write error. */
  lemma SnapshotAtAnyTime(c: Config, s0: State, actions: seq<Action>, dropped: nat, seconds: nat)
    requires Start(c, s0) && Legal(c, s0, actions)
    ensures var s := After(c, s0, actions);
      var snapshot := ComposeSnapshot(c, s.shared, dropped, seconds);
      && snapshot.queueDepth == |s.log| - |s.processed| - |InFlight(s.worker)| && snapshot.snapshotSeconds == seconds
      && (c.csv && !CsvIsClosed(s.main) ==>
            snapshot.csv.Reasons() == snapshot.csv.error && snapshot.csv.write >= dropped)
      && (c.jsonl && !JsonlIsClosed(s.main) ==>
            snapshot.jsonl.Reasons() == snapshot.jsonl.error && snapshot.jsonl.write >= dropped)
      && (c.prometheus ==> snapshot.prometheus.Reasons() == snapshot.prometheus.error)
  {
    hide Start;
    hide After;
    hide Inv;
    EveryRun(c, s0, actions);
    SnapshotOfState(c, After(c, s0, actions), dropped, seconds);
  }

  lemma SnapshotOfState(c: Config, s: State, dropped: nat, seconds: nat)
    requires Inv(c, s)
    ensures var snapshot := ComposeSnapshot(c, s.shared, dropped, seconds);
      && snapshot.queueDepth == |s.log| - |s.processed| - |InFlight(s.worker)| && snapshot.snapshotSeconds == seconds
      && (c.csv && !CsvIsClosed(s.main) ==>
            snapshot.csv.Reasons() == snapshot.csv.error && snapshot.csv.write >= dropped)
      && (c.jsonl && !JsonlIsClosed(s.main) ==>
            snapshot.jsonl.Reasons() == snapshot.jsonl.error && snapshot.jsonl.write >= dropped)
      && (c.prometheus ==> snapshot.prometheus.Reasons() == snapshot.prometheus.error)
  {
    hide FileSink.Tracks;
    hide FileHolds;
    hide CallsInv;
    hide DropInv;
    hide Counts;
    hide SuccessInv;
    hide Ring;
  }

  lemma QuietSubmits(c: Config, s: State)
    requires Inv(c, s) && s.calls == multiset{}
    ensures s.submits == |s.log| + s.shared.dropped
  {
    hide QueueInv;
    hide CallsInv;
    hide Counts;
    hide CsvInv;
    hide JsonlInv;
  }

  // ---- shutdown terminates ----

  /** How many steps the worker still has to make once stop is requested. */
  function WorkerRank(s: State): nat {
    6 * s.shared.count +
    match s.worker
    case Exited => 0
    case Waiting => 1
    case FinishDue(_) => 2
    case PublishDue(_, _) => 3
    case AccountDue(_, _, _) => 4
    case JsonlDue(_, _) => 5
    case CsvDue(_) => 6
  }

  predicate WorkerAction(a: Action) {
    a.Take? || a.WriteCsv? || a.WriteJsonl? || a.AccountRegion? || a.Publish? || a.FinishRegion? || a.Exit?
  }

  /** No step moves the worker away from its exit once stop is requested, and each of its own
      steps brings it closer. */
  lemma WorkerDrains(c: Config, s: State, a: Action)
    requires s.shared.stop && Enabled(c, s, a)
    ensures WorkerRank(Apply(c, s, a)) <= WorkerRank(s)
    ensures WorkerAction(a) ==> WorkerRank(Apply(c, s, a)) < WorkerRank(s)
  {
    hide Enabled;
    hide Submit;
    hide Work;
    hide Shutdown;
    hide WorkerRank;
    if WorkerAction(a) { WorkDrains(c, s, a); } else { OthersKeepRank(c, s, a); }
  }

  lemma WorkDrains(c: Config, s: State, a: Action)
    requires Enabled(c, s, a) && WorkerAction(a)
    ensures WorkerRank(Work(c, s, a)) < WorkerRank(s)
  {
    hide Account;
    hide FileSink.Write;
    hide ComposeSnapshot;
    hide WellShaped;
  }

  lemma OthersKeepRank(c: Config, s: State, a: Action)
    requires s.shared.stop && Enabled(c, s, a) && !WorkerAction(a)
    ensures Apply(c, s, a).shared.count == s.shared.count && Apply(c, s, a).worker == s.worker
    ensures WorkerRank(Apply(c, s, a)) == WorkerRank(s)
  {
    hide FileSink.Close;
    hide ComposeSnapshot;
    hide CanonicalRecord.Valid;
    hide WellShaped;
    hide Replace;
    hide WorkerRank;
    RankOf(s, Apply(c, s, a));
  }

  lemma RankOf(s: State, t: State)
    ensures s.shared.count == t.shared.count && s.worker == t.worker ==> WorkerRank(s) == WorkerRank(t)
  {
  }

  /** After stop the worker always has a step until it exits: the join returns. */
  lemma WorkerHasAStep(c: Config, s: State)
    requires WellShaped(c, s.shared) && s.shared.stop && s.worker != Exited
    ensures exists a :: WorkerAction(a) && Enabled(c, s, a)
  {
    hide WellShaped;
    var io := FileSink.WriteIo(0, true, 0, true);
    var a :=
      match s.worker
      case CsvDue(_) => WriteCsv(io)
      case JsonlDue(_, _) => WriteJsonl(io)
      case AccountDue(_, _, _) => AccountRegion(0)
      case PublishDue(_, _) => Publish(None)
      case FinishDue(_) => FinishRegion
      case _ => if s.shared.count > 0 then Take else Exit;
    assert WorkerAction(a) && Enabled(c, s, a);
  }

  // ---- the program's own queue ----

  /** The collector runs the pipeline with 64 slots; a full ring turns records away. */
  lemma CollectorQueue(csv: bool, jsonl: bool, prometheus: bool, s0: State, actions: seq<Action>)
    requires Start(Config(csv, jsonl, prometheus, OUTPUT_QUEUE_CAPACITY), s0)
    requires Legal(Config(csv, jsonl, prometheus, OUTPUT_QUEUE_CAPACITY), s0, actions)
    ensures var s := After(Config(csv, jsonl, prometheus, OUTPUT_QUEUE_CAPACITY), s0, actions);
      |s.log| - |s.processed| <= 65
  {
    hide Start;
    hide After;
    hide Ring;
    AcceptedAreProcessedInFlightOrQueued(Config(csv, jsonl, prometheus, OUTPUT_QUEUE_CAPACITY), s0, actions);
  }
}
