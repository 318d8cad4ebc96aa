/** The error counters of the output pipeline against what stdio did: in every run, each reason is
    counted exactly as often as it occurred. */
module PipelineErrors {
  import opened Bytes
  import CanonicalRecord
  import FileSink
  import opened OutputPipeline
  import opened PipelineRuns
  import opened PipelineResults

  // ---- what stdio did ----

  /** The outcomes of a run so far: of each fwrite with its fflush, of each close, and of each attempt
      to publish. */
  datatype History = History(
    csvWrites: seq<FileSink.WriteIo>, jsonlWrites: seq<FileSink.WriteIo>,
    csvClose: Option<FileSink.CloseIo>, jsonlClose: Option<FileSink.CloseIo>,
    publishes: seq<Option<Reason>>)

  const NOTHING := History([], [], None, None, [])

  function Noted(h: History, a: Action): History {
    match a
    case WriteCsv(io) => h.(csvWrites := h.csvWrites + [io])
    case WriteJsonl(io) => h.(jsonlWrites := h.jsonlWrites + [io])
    case CloseCsv(io) => h.(csvClose := Some(io))
    case CloseJsonl(io) => h.(jsonlClose := Some(io))
    case Publish(error) => h.(publishes := h.publishes + [error])
    case _ => h
  }

  function HistoryOf(h: History, actions: seq<Action>): History
    decreases |actions|
  {
    if actions == [] then h else HistoryOf(Noted(h, actions[0]), actions[1..])
  }

  // ---- what must be counted ----

  ghost predicate AllWhole(format: FileSink.Format, rs: seq<Record>, ios: seq<FileSink.WriteIo>)
    requires |rs| == |ios|
  {
    forall i :: 0 <= i < |rs| ==> FileSink.WholeWrite(format, rs[i], ios[i])
  }

  /** fwrite took the whole record, and then fflush failed. */
  ghost predicate FlushFails(format: FileSink.Format, r: Record, io: FileSink.WriteIo) {
    io.taken >= |FileSink.RecordText(format, r)| && !io.flushes
  }

  /** Writes whose fflush failed: none is flushed any more after the first failure. */
  ghost function FlushErrors(format: FileSink.Format, rs: seq<Record>, ios: seq<FileSink.WriteIo>): nat
    requires |rs| == |ios|
  {
    if rs == [] then 0
    else
      var n := |rs| - 1;
      FlushErrors(format, rs[..n], ios[..n])
      + if AllWhole(format, rs[..n], ios[..n]) && FlushFails(format, rs[n], ios[n]) then 1 else 0
  }

  /** Writes that were short, or refused because an earlier one had failed. */
  ghost function WriteErrors(format: FileSink.Format, rs: seq<Record>, ios: seq<FileSink.WriteIo>): nat
    requires |rs| == |ios|
  {
    if rs == [] then 0
    else
      var n := |rs| - 1;
      WriteErrors(format, rs[..n], ios[..n])
      + if !AllWhole(format, rs[..n], ios[..n]) || ios[n].taken < |FileSink.RecordText(format, rs[n])| then 1 else 0
  }

  /** The counters of a file backend that has accounted for these writes and this close: every reason
      is what stdio did. A close that itself succeeds after a failed write counts as a write error. */
  ghost predicate Explains(b: BackendStats, format: FileSink.Format, rs: seq<Record>, ios: seq<FileSink.WriteIo>,
                           close: Option<FileSink.CloseIo>)
    requires |rs| == |ios|
  {
    && b.open == 0 && b.rename == 0
    && b.flush == FlushErrors(format, rs, ios) + (if close.Some? && !close.value.flushes then 1 else 0)
    && b.close == (if close.Some? && close.value.flushes && !close.value.closes then 1 else 0)
    && b.write == WriteErrors(format, rs, ios)
         + (if close.Some? && close.value.flushes && close.value.closes && !AllWhole(format, rs, ios) then 1 else 0)
  }

  /** How a write came out, in terms of its outcome and those before it. */
  ghost predicate Outcome(format: FileSink.Format, rs: seq<Record>, ios: seq<FileSink.WriteIo>, result: FileSink.Result)
    requires |rs| == |ios| > 0
  {
    var n := |rs| - 1;
    && (result == FileSink.SinkOk <==> AllWhole(format, rs, ios))
    && (result == FileSink.FlushFailed <==>
          AllWhole(format, rs[..n], ios[..n]) && FlushFails(format, rs[n], ios[n]))
    && result in {FileSink.SinkOk, FileSink.FlushFailed, FileSink.WriteFailed, FileSink.SinkFailed}
  }

  /** One backend in the middle of a run. */
  ghost predicate ErrorsInv(format: FileSink.Format, sink: FileSink.Sink, b: BackendStats, rs: seq<Record>,
                            ios: seq<FileSink.WriteIo>, pending: Option<FileSink.Result>, closed: bool,
                            close: Option<FileSink.CloseIo>)
  {
    && |rs| == |ios|
    && (closed <==> close.Some?)
    && (pending.Some? ==> rs != [] && Outcome(format, rs, ios, pending.value))
    && (!closed ==> (sink.failed <==> !AllWhole(format, rs, ios)))
    && var n := |rs| - if pending.Some? then 1 else 0;
       Explains(b, format, rs[..n], ios[..n], close)
  }

  // ---- one backend, step by step ----

  lemma AllWholeNext(format: FileSink.Format, rs: seq<Record>, ios: seq<FileSink.WriteIo>, r: Record,
                     io: FileSink.WriteIo)
    requires |rs| == |ios|
    ensures AllWhole(format, rs + [r], ios + [io]) <==>
      AllWhole(format, rs, ios) && FileSink.WholeWrite(format, r, io)
    ensures (rs + [r])[..|rs|] == rs && (ios + [io])[..|rs|] == ios
  {
    hide FileSink.WholeWrite;
    var rs', ios' := rs + [r], ios + [io];
    forall i | 0 <= i < |rs| ensures rs'[i] == rs[i] && ios'[i] == ios[i] { }
    if AllWhole(format, rs', ios') {
      forall i | 0 <= i < |rs| ensures FileSink.WholeWrite(format, rs[i], ios[i]) {
        assert FileSink.WholeWrite(format, rs'[i], ios'[i]);
      }
      assert FileSink.WholeWrite(format, rs'[|rs|], ios'[|rs|]);
    }
  }

  /** What a write of a valid record returns. */
  lemma WriteResult(sink: FileSink.Sink, r: Record, io: FileSink.WriteIo)
    requires sink.isOpen && sink.format != FileSink.InvalidFormat && CanonicalRecord.Valid(r)
    ensures var (t, result) := FileSink.Write(sink, r, io);
      && (sink.failed ==> t == sink && result == FileSink.SinkFailed)
      && (!sink.failed ==>
            && (t.failed <==> !FileSink.WholeWrite(sink.format, r, io))
            && result == if FileSink.WholeWrite(sink.format, r, io) then FileSink.SinkOk
                         else if FlushFails(sink.format, r, io) then FileSink.FlushFailed else FileSink.WriteFailed)
  {
    hide CanonicalRecord.Valid;
    hide FileSink.RecordText;
    hide FileSink.Moved;
    hide FileSink.Left;
  }

  lemma WriteExplained(sink: FileSink.Sink, b: BackendStats, rs: seq<Record>, ios: seq<FileSink.WriteIo>, r: Record,
                       io: FileSink.WriteIo)
    requires ErrorsInv(sink.format, sink, b, rs, ios, None, false, None)
    requires sink.isOpen && sink.format != FileSink.InvalidFormat && CanonicalRecord.Valid(r)
    ensures var (t, result) := FileSink.Write(sink, r, io);
      ErrorsInv(sink.format, t, b, rs + [r], ios + [io], Some(result), false, None)
  {
    hide CanonicalRecord.Valid;
    hide FileSink.Write;
    hide FileSink.WholeWrite;
    hide FlushFails;
    hide AllWhole;
    hide Explains;
    WriteResult(sink, r, io);
    AllWholeNext(sink.format, rs, ios, r, io);
    assert rs[..|rs|] == rs && ios[..|rs|] == ios;
    WholeOrNot(sink.format, r, io);
  }

  lemma WholeOrNot(format: FileSink.Format, r: Record, io: FileSink.WriteIo)
    ensures FileSink.WholeWrite(format, r, io) ==> !FlushFails(format, r, io)
  {
    hide FileSink.RecordText;
  }

  lemma AccountExplained(format: FileSink.Format, sink: FileSink.Sink, b: BackendStats, rs: seq<Record>,
                         ios: seq<FileSink.WriteIo>, result: FileSink.Result)
    requires ErrorsInv(format, sink, b, rs, ios, Some(result), false, None)
    requires rs != [] ==> CanonicalRecord.Valid(rs[|rs| - 1])
    ensures ErrorsInv(format, sink, AccountResult(b, result), rs, ios, None, false, None)
  {
    hide CanonicalRecord.Valid;
    hide FileSink.RecordText;
    var n := |rs| - 1;
    assert rs[..|rs|] == rs && ios[..|rs|] == ios;
    AllWholeNext(format, rs[..n], ios[..n], rs[n], ios[n]);
    assert rs == rs[..n] + [rs[n]] && ios == ios[..n] + [ios[n]];
    hide AllWhole;
  }

  lemma CloseExplained(sink: FileSink.Sink, b: BackendStats, rs: seq<Record>, ios: seq<FileSink.WriteIo>,
                       io: FileSink.CloseIo)
    requires ErrorsInv(sink.format, sink, b, rs, ios, None, false, None) && sink.isOpen
    ensures var (t, result) := FileSink.Close(sink, io);
      var b' := if result == FileSink.SinkOk then b else b.Add(ReasonOf(result), 1);
      ErrorsInv(sink.format, t, b', rs, ios, None, true, Some(io))
  {
    hide FileSink.Moved;
    hide AllWhole;
    hide FlushErrors;
    hide WriteErrors;
    assert rs[..|rs|] == rs && ios[..|rs|] == ios;
  }

  // ---- every run ----

  ghost predicate CsvErrors(c: Config, s: State, h: History) {
    c.csv ==> ErrorsInv(FileSink.CsvFormat, s.csv, s.shared.stats.csv, CsvWritten(s), h.csvWrites,
                        CsvPending(s.worker), CsvIsClosed(s.main), h.csvClose)
  }

  ghost predicate JsonlErrors(c: Config, s: State, h: History) {
    c.jsonl ==> ErrorsInv(FileSink.JsonlFormat, s.jsonl, s.shared.stats.jsonl, JsonlWritten(s), h.jsonlWrites,
                          JsonlPending(s.worker), JsonlIsClosed(s.main), h.jsonlClose)
  }

  function Times(publishes: seq<Option<Reason>>, outcome: Option<Reason>): nat {
    if publishes == [] then 0
    else
      Times(publishes[..|publishes| - 1], outcome) + if publishes[|publishes| - 1] == outcome then 1 else 0
  }

  predicate PublishErrors(c: Config, s: State, h: History) {
    var b := s.shared.stats.prometheus;
    c.prometheus ==>
      && b.ok == Times(h.publishes, None)
      && b.open == Times(h.publishes, Some(OpenError)) && b.write == Times(h.publishes, Some(WriteError))
      && b.flush == Times(h.publishes, Some(FlushError)) && b.close == Times(h.publishes, Some(CloseError))
      && b.rename == Times(h.publishes, Some(RenameError))
  }

  ghost predicate AllErrors(c: Config, s: State, h: History) {
    CsvErrors(c, s, h) && JsonlErrors(c, s, h) && PublishErrors(c, s, h)
  }

  /** Every other step leaves the CSV backend alone. */
  ghost predicate SameCsv(s: State, t: State) {
    && t.csv == s.csv && t.shared.stats.csv == s.shared.stats.csv && CsvWritten(t) == CsvWritten(s)
    && CsvPending(t.worker) == CsvPending(s.worker) && CsvIsClosed(t.main) == CsvIsClosed(s.main)
  }

  lemma CsvFrame(c: Config, s: State, a: Action)
    requires Enabled(c, s, a) && !a.WriteCsv? && !a.AccountRegion? && !a.CloseCsv?
    ensures SameCsv(s, Apply(c, s, a))
  {
    hide Enabled;
    hide Submit;
    hide Work;
    hide Shutdown;
    if a.Begin? || a.TryLockFails? || a.Region? || a.Drop? || a.Mark? {
      SubmitKeeps(c, s, a);
    } else if WorkerAction(a) {
      CsvWorkFrame(c, s, a);
    } else {
      CsvShutdownFrame(c, s, a);
    }
  }

  lemma CsvWorkFrame(c: Config, s: State, a: Action)
    requires Enabled(c, s, a) && WorkerAction(a) && !a.WriteCsv? && !a.AccountRegion?
    ensures SameCsv(s, Work(c, s, a))
  {
    hide ComposeSnapshot;
    hide FileSink.Write;
    hide WellShaped;
    assert s.processed + [] == s.processed;
    if a.FinishRegion? { assert (s.processed + [s.worker.r]) + [] == s.processed + [s.worker.r]; }
  }

  lemma CsvShutdownFrame(c: Config, s: State, a: Action)
    requires Enabled(c, s, a) && !WorkerAction(a) && !a.CloseCsv?
    requires !(a.Begin? || a.TryLockFails? || a.Region? || a.Drop? || a.Mark?)
    ensures SameCsv(s, Shutdown(c, s, a))
  {
    hide ComposeSnapshot;
    hide FileSink.Close;
    hide WellShaped;
  }

  /** Every other step leaves the JSONL backend alone. */
  ghost predicate SameJsonl(s: State, t: State) {
    && t.jsonl == s.jsonl && t.shared.stats.jsonl == s.shared.stats.jsonl && JsonlWritten(t) == JsonlWritten(s)
    && JsonlPending(t.worker) == JsonlPending(s.worker) && JsonlIsClosed(t.main) == JsonlIsClosed(s.main)
  }

  lemma JsonlFrame(c: Config, s: State, a: Action)
    requires Enabled(c, s, a) && !a.WriteJsonl? && !a.AccountRegion? && !a.CloseJsonl?
    ensures SameJsonl(s, Apply(c, s, a))
  {
    hide Enabled;
    hide Submit;
    hide Work;
    hide Shutdown;
    if a.Begin? || a.TryLockFails? || a.Region? || a.Drop? || a.Mark? {
      SubmitKeeps(c, s, a);
    } else if WorkerAction(a) {
      JsonlWorkFrame(c, s, a);
    } else {
      JsonlShutdownFrame(c, s, a);
    }
  }

  lemma JsonlWorkFrame(c: Config, s: State, a: Action)
    requires Enabled(c, s, a) && WorkerAction(a) && !a.WriteJsonl? && !a.AccountRegion?
    ensures SameJsonl(s, Work(c, s, a))
  {
    hide ComposeSnapshot;
    hide FileSink.Write;
    hide WellShaped;
    assert s.processed + [] == s.processed;
    if a.FinishRegion? { assert (s.processed + [s.worker.r]) + [] == s.processed + [s.worker.r]; }
  }

  lemma JsonlShutdownFrame(c: Config, s: State, a: Action)
    requires Enabled(c, s, a) && !WorkerAction(a) && !a.CloseJsonl?
    requires !(a.Begin? || a.TryLockFails? || a.Region? || a.Drop? || a.Mark?)
    ensures SameJsonl(s, Shutdown(c, s, a))
  {
    hide ComposeSnapshot;
    hide FileSink.Close;
    hide WellShaped;
  }

  lemma PublishErrorsFrame(c: Config, s: State, a: Action)
    requires Enabled(c, s, a) && !a.Publish?
    ensures Apply(c, s, a).shared.stats.prometheus == s.shared.stats.prometheus
  {
    hide Account;
    hide ComposeSnapshot;
    hide CanonicalRecord.Valid;
    hide FileSink.Write;
    hide FileSink.Close;
    hide WellShaped;
    if a.AccountRegion? { AccountErrors(c, s.shared, s.worker.r, s.worker.csv, s.worker.jsonl); }
  }

  lemma OpenSink(format: FileSink.Format, sink: FileSink.Sink, b: BackendStats, rs: seq<Record>)
    requires BackendInv(true, format, sink, b, rs, None, false)
    ensures sink.isOpen && sink.format == format && format != FileSink.InvalidFormat
  {
    hide FileSink.FileText;
  }

  /** While the worker has a record, no sink is closed. */
  lemma WriterIsNotClosed(c: Config, s: State)
    requires QueueInv(c, s) && !s.worker.Exited?
    ensures !CsvIsClosed(s.main) && !JsonlIsClosed(s.main)
  {
    hide WellShaped;
    hide Ring;
  }

  lemma CloserHasNoWorker(c: Config, s: State)
    requires QueueInv(c, s) && (s.main.CsvCloseDue? || s.main.JsonlCloseDue?)
    ensures s.worker.Exited?
  {
    hide WellShaped;
    hide Ring;
  }

  lemma CsvErrorsStep(c: Config, s: State, h: History, a: Action)
    requires Inv(c, s) && CsvErrors(c, s, h) && Enabled(c, s, a)
    ensures CsvErrors(c, Apply(c, s, a), Noted(h, a))
  {
    hide Inv;
    hide ErrorsInv;
    hide Apply;
    hide Enabled;
    if c.csv {
      match a {
        case WriteCsv(io) => CsvWriteStep(c, s, h, io);
        case AccountRegion(seconds) => CsvAccountStep(c, s, h, seconds);
        case CloseCsv(io) => CsvCloseStep(c, s, h, io);
        case _ => CsvFrame(c, s, a);
      }
    }
  }

  lemma CsvWriteStep(c: Config, s: State, h: History, io: FileSink.WriteIo)
    requires Inv(c, s) && CsvErrors(c, s, h) && Enabled(c, s, WriteCsv(io)) && c.csv
    ensures CsvErrors(c, Apply(c, s, WriteCsv(io)), Noted(h, WriteCsv(io)))
  {
    hide Explains;
    hide Outcome;
    hide AllWhole;
    hide QueueInv;
    hide DropInv;
    hide CallsInv;
    hide Counts;
    hide BackendInv;
    hide PrometheusInv;
    hide SuccessInv;
    hide FileSink.Write;
    hide CanonicalRecord.Valid;
    hide WellShaped;
    InFlightIsValid(c, s);
    WriterIsNotClosed(c, s);
    OpenSink(FileSink.CsvFormat, s.csv, s.shared.stats.csv, CsvWritten(s));
    assert s.processed + [] == s.processed;
    WriteExplained(s.csv, s.shared.stats.csv, CsvWritten(s), h.csvWrites, s.worker.r, io);
  }

  lemma CsvAccountStep(c: Config, s: State, h: History, seconds: nat)
    requires Inv(c, s) && CsvErrors(c, s, h) && Enabled(c, s, AccountRegion(seconds)) && c.csv
    ensures CsvErrors(c, Apply(c, s, AccountRegion(seconds)), Noted(h, AccountRegion(seconds)))
  {
    hide QueueInv;
    hide DropInv;
    hide CallsInv;
    hide Counts;
    hide BackendInv;
    hide PrometheusInv;
    hide SuccessInv;
    hide Account;
    hide AccountResult;
    hide ComposeSnapshot;
    hide CanonicalRecord.Valid;
    hide WellShaped;
    hide Explains;
    hide Outcome;
    hide AllWhole;
    InFlightIsValid(c, s);
    WriterIsNotClosed(c, s);
    AccountErrors(c, s.shared, s.worker.r, s.worker.csv, s.worker.jsonl);
    assert CsvWritten(s) == s.processed + [s.worker.r];
    AccountExplained(FileSink.CsvFormat, s.csv, s.shared.stats.csv, CsvWritten(s), h.csvWrites, s.worker.csv);
  }

  lemma CsvCloseStep(c: Config, s: State, h: History, io: FileSink.CloseIo)
    requires Inv(c, s) && CsvErrors(c, s, h) && Enabled(c, s, CloseCsv(io)) && c.csv
    ensures CsvErrors(c, Apply(c, s, CloseCsv(io)), Noted(h, CloseCsv(io)))
  {
    hide QueueInv;
    hide DropInv;
    hide CallsInv;
    hide Counts;
    hide BackendInv;
    hide PrometheusInv;
    hide SuccessInv;
    hide FileSink.Close;
    hide WellShaped;
    hide Explains;
    hide Outcome;
    hide AllWhole;
    CloserHasNoWorker(c, s);
    OpenSink(FileSink.CsvFormat, s.csv, s.shared.stats.csv, CsvWritten(s));
    assert CsvWritten(s)[..|CsvWritten(s)|] == CsvWritten(s);
    CloseExplained(s.csv, s.shared.stats.csv, CsvWritten(s), h.csvWrites, io);
  }

  lemma JsonlErrorsStep(c: Config, s: State, h: History, a: Action)
    requires Inv(c, s) && JsonlErrors(c, s, h) && Enabled(c, s, a)
    ensures JsonlErrors(c, Apply(c, s, a), Noted(h, a))
  {
    hide Inv;
    hide ErrorsInv;
    hide Apply;
    hide Enabled;
    if c.jsonl {
      match a {
        case WriteJsonl(io) => JsonlWriteStep(c, s, h, io);
        case AccountRegion(seconds) => JsonlAccountStep(c, s, h, seconds);
        case CloseJsonl(io) => JsonlCloseStep(c, s, h, io);
        case _ => JsonlFrame(c, s, a);
      }
    }
  }

  lemma JsonlWriteStep(c: Config, s: State, h: History, io: FileSink.WriteIo)
    requires Inv(c, s) && JsonlErrors(c, s, h) && Enabled(c, s, WriteJsonl(io)) && c.jsonl
    ensures JsonlErrors(c, Apply(c, s, WriteJsonl(io)), Noted(h, WriteJsonl(io)))
  {
    hide Explains;
    hide Outcome;
    hide AllWhole;
    hide QueueInv;
    hide DropInv;
    hide CallsInv;
    hide Counts;
    hide BackendInv;
    hide PrometheusInv;
    hide SuccessInv;
    hide FileSink.Write;
    hide CanonicalRecord.Valid;
    hide WellShaped;
    InFlightIsValid(c, s);
    WriterIsNotClosed(c, s);
    OpenSink(FileSink.JsonlFormat, s.jsonl, s.shared.stats.jsonl, JsonlWritten(s));
    assert s.processed + [] == s.processed;
    WriteExplained(s.jsonl, s.shared.stats.jsonl, JsonlWritten(s), h.jsonlWrites, s.worker.r, io);
  }

  lemma JsonlAccountStep(c: Config, s: State, h: History, seconds: nat)
    requires Inv(c, s) && JsonlErrors(c, s, h) && Enabled(c, s, AccountRegion(seconds)) && c.jsonl
    ensures JsonlErrors(c, Apply(c, s, AccountRegion(seconds)), Noted(h, AccountRegion(seconds)))
  {
    hide QueueInv;
    hide DropInv;
    hide CallsInv;
    hide Counts;
    hide BackendInv;
    hide PrometheusInv;
    hide SuccessInv;
    hide Account;
    hide AccountResult;
    hide ComposeSnapshot;
    hide CanonicalRecord.Valid;
    hide WellShaped;
    hide Explains;
    hide Outcome;
    hide AllWhole;
    InFlightIsValid(c, s);
    WriterIsNotClosed(c, s);
    AccountErrors(c, s.shared, s.worker.r, s.worker.csv, s.worker.jsonl);
    assert JsonlWritten(s) == s.processed + [s.worker.r];
    AccountExplained(
      FileSink.JsonlFormat, s.jsonl, s.shared.stats.jsonl, JsonlWritten(s), h.jsonlWrites, s.worker.jsonl);
  }

  lemma JsonlCloseStep(c: Config, s: State, h: History, io: FileSink.CloseIo)
    requires Inv(c, s) && JsonlErrors(c, s, h) && Enabled(c, s, CloseJsonl(io)) && c.jsonl
    ensures JsonlErrors(c, Apply(c, s, CloseJsonl(io)), Noted(h, CloseJsonl(io)))
  {
    hide QueueInv;
    hide DropInv;
    hide CallsInv;
    hide Counts;
    hide BackendInv;
    hide PrometheusInv;
    hide SuccessInv;
    hide FileSink.Close;
    hide WellShaped;
    hide Explains;
    hide Outcome;
    hide AllWhole;
    CloserHasNoWorker(c, s);
    OpenSink(FileSink.JsonlFormat, s.jsonl, s.shared.stats.jsonl, JsonlWritten(s));
    assert JsonlWritten(s)[..|JsonlWritten(s)|] == JsonlWritten(s);
    CloseExplained(s.jsonl, s.shared.stats.jsonl, JsonlWritten(s), h.jsonlWrites, io);
  }

  lemma PublishErrorsStep(c: Config, s: State, h: History, a: Action)
    requires PublishErrors(c, s, h) && Enabled(c, s, a)
    ensures PublishErrors(c, Apply(c, s, a), Noted(h, a))
  {
    hide Enabled;
    hide Apply;
    if a.Publish? { PublishCounted(c, s, h, a.error); } else { PublishErrorsFrame(c, s, a); }
  }

  lemma PublishCounted(c: Config, s: State, h: History, error: Option<Reason>)
    requires PublishErrors(c, s, h) && Enabled(c, s, Publish(error))
    ensures PublishErrors(c, Apply(c, s, Publish(error)), Noted(h, Publish(error)))
  {
    hide WellShaped;
    assert (h.publishes + [error])[..|h.publishes|] == h.publishes;
  }

  lemma ErrorsStep(c: Config, s: State, h: History, a: Action)
    requires Inv(c, s) && AllErrors(c, s, h) && Enabled(c, s, a)
    ensures AllErrors(c, Apply(c, s, a), Noted(h, a))
  {
    hide Inv;
    hide CsvErrors;
    hide JsonlErrors;
    hide PublishErrors;
    hide Apply;
    hide Enabled;
    hide Noted;
    CsvErrorsStep(c, s, h, a);
    JsonlErrorsStep(c, s, h, a);
    PublishErrorsStep(c, s, h, a);
  }

  lemma {:induction false} RunExplains(c: Config, s: State, h: History, actions: seq<Action>)
    requires Inv(c, s) && AllErrors(c, s, h) && Legal(c, s, actions)
    ensures AllErrors(c, After(c, s, actions), HistoryOf(h, actions))
    decreases |actions|
  {
    hide Inv;
    hide AllErrors;
    hide Apply;
    hide Enabled;
    hide Noted;
    if actions != [] {
      Step(c, s, actions[0]);
      ErrorsStep(c, s, h, actions[0]);
      RunExplains(c, Apply(c, s, actions[0]), Noted(h, actions[0]), actions[1..]);
    }
  }

  lemma NothingToExplain(c: Config, s: State)
    requires Start(c, s)
    ensures AllErrors(c, s, NOTHING)
  {
    hide FileSink.FileText;
    hide WellShaped;
  }

  /** The reasons a file backend must have counted once it accounted for its first n writes. */
  ghost predicate ReasonsAre(b: BackendStats, format: FileSink.Format, rs: seq<Record>, ios: seq<FileSink.WriteIo>,
                             n: nat, close: Option<FileSink.CloseIo>)
  {
    n <= |rs| == |ios| && Explains(b, format, rs[..n], ios[..n], close)
  }

  /** In every run, whatever the interleaving: the flush errors of a file backend are its writes and
      closes whose fflush failed, its close errors the failed fcloses after a good fflush, its write
      errors the short writes and everything refused after a failure; records dropped before the queue
      are not among them. The reasons of the metrics backend are those publishing failed for. Only a
      write result still on its way to the accounting region is not counted yet. */
  lemma EveryReasonIsCounted(c: Config, s: State, actions: seq<Action>)
    requires Start(c, s) && Legal(c, s, actions)
    ensures var t, h := After(c, s, actions), HistoryOf(NOTHING, actions);
      && (c.csv ==>
            ReasonsAre(t.shared.stats.csv, FileSink.CsvFormat, CsvWritten(t), h.csvWrites,
                       |CsvWritten(t)| - (if CsvPending(t.worker).Some? then 1 else 0), h.csvClose))
      && (c.jsonl ==>
            ReasonsAre(t.shared.stats.jsonl, FileSink.JsonlFormat, JsonlWritten(t), h.jsonlWrites,
                       |JsonlWritten(t)| - (if JsonlPending(t.worker).Some? then 1 else 0), h.jsonlClose))
      && PublishErrors(c, t, h)
  {
    hide Inv;
    hide Start;
    hide Legal;
    hide After;
    hide HistoryOf;
    hide Explains;
    hide Outcome;
    hide PublishErrors;
    StartInv(c, s);
    NothingToExplain(c, s);
    RunExplains(c, s, NOTHING, actions);
  }
}
