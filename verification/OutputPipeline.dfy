/** The output pipeline: what each locked region of the queue, the worker and shutdown does to
    the shared state, and the object whose methods are those regions. */
module OutputPipeline {
  import opened Bytes
  import CanonicalRecord
  import FileSink

  type Record = CanonicalRecord.Record

  const OUTPUT_QUEUE_CAPACITY: nat := 64

  // ---- counters ----

  datatype FileBackend = CsvBackend | JsonlBackend

  datatype Reason = OpenError | WriteError | FlushError | CloseError | RenameError

  /** output_records_ok, output_records_error and output_errors of one backend. */
  datatype BackendStats = BackendStats(ok: nat, error: nat, open: nat, write: nat, flush: nat, close: nat, rename: nat)
  {
    function Reasons(): nat { open + write + flush + close + rename }

    function Add(reason: Reason, n: nat): BackendStats {
      match reason
      case OpenError => this.(open := open + n)
      case WriteError => this.(write := write + n)
      case FlushError => this.(flush := flush + n)
      case CloseError => this.(close := close + n)
      case RenameError => this.(rename := rename + n)
    }
  }

  datatype Stats = Stats(
    indicationsFormat1: nat, indicationsFormat3: nat,
    integers: nat, reals: nat, noValues: nat, lengthMismatches: nat, invalidInputs: nat,
    rejectedLengthMismatch: nat, rejectedInvalidInput: nat,
    callbackErrors: nat, subscriptionsCreated: nat, subscriptionsRemoved: nat,
    csv: BackendStats, jsonl: BackendStats, prometheus: BackendStats,
    queueDepth: nat, lastReceiveSeconds: nat, snapshotSeconds: nat)

  const NO_BACKEND_STATS := BackendStats(0, 0, 0, 0, 0, 0, 0)

  const NO_STATS := Stats(0, 0, 0, 0, 0, 0, 0, 0, 0, 0, 0, 0,
                          NO_BACKEND_STATS, NO_BACKEND_STATS, NO_BACKEND_STATS, 0, 0, 0)

  /** file_result_reason */
  function ReasonOf(result: FileSink.Result): Reason {
    match result
    case OpenFailed => OpenError
    case FlushFailed => FlushError
    case CloseFailed => CloseError
    case _ => WriteError
  }

  // ---- the state behind the mutex, and the two atomics ----

  datatype Config = Config(csv: bool, jsonl: bool, prometheus: bool, capacity: nat)

  datatype Shared = Shared(
    queue: seq<Record>, head: nat, tail: nat, count: nat,
    busy: bool, stop: bool, accepted: nat,
    dropped: nat, failed: bool,
    lastIndication: Option<u64>, stats: Stats)

  predicate WellShaped(c: Config, s: Shared) {
    && c.capacity > 0 && |s.queue| == c.capacity
    && s.head < c.capacity && s.tail < c.capacity && s.count <= c.capacity
  }

  // ---- the locked regions ----

  /** When try_submit turns a valid record away although it got the lock. */
  predicate Refuses(c: Config, s: Shared) { s.stop || s.count >= c.capacity }

  function Enqueue(c: Config, s: Shared, r: Record): Shared
    requires WellShaped(c, s)
  {
    s.(queue := s.queue[s.tail := r], tail := (s.tail + 1) % c.capacity,
       count := s.count + 1, accepted := s.accepted + 1)
  }

  function Dequeue(c: Config, s: Shared): Shared
    requires WellShaped(c, s) && s.count > 0
  {
    s.(head := (s.head + 1) % c.capacity, count := s.count - 1, busy := true)
  }

  /** account_record's indication counters. */
  function AccountIndication(s: Shared, r: Record): (t: Shared)
    ensures t == s.(stats := t.stats, lastIndication := t.lastIndication)
  {
    if s.lastIndication == Some(r.indicationSequence) then s
    else
      var t := s.stats;
      var stats :=
        if r.messageFormat == 1 then t.(indicationsFormat1 := t.indicationsFormat1 + 1)
        else if r.messageFormat == 3 then t.(indicationsFormat3 := t.indicationsFormat3 + 1)
        else t;
      s.(stats := stats, lastIndication := Some(r.indicationSequence))
  }

  /** account_record's record buckets. */
  function AccountKind(t: Stats, r: Record): Stats {
    match r.recordKind
    case Measurement =>
      (match r.valueType
       case ValueInteger => t.(integers := t.integers + 1)
       case ValueReal => t.(reals := t.reals + 1)
       case ValueNoValue => t.(noValues := t.noValues + 1)
       case _ => t)
    case Diagnostic =>
      if r.structuralStatus == CanonicalRecord.LengthMismatch then
        t.(lengthMismatches := t.lengthMismatches + 1, rejectedLengthMismatch := t.rejectedLengthMismatch + 1)
      else
        t.(invalidInputs := t.invalidInputs + 1, rejectedInvalidInput := t.rejectedInvalidInput + 1)
    case _ => t
  }

  function AccountRecord(s: Shared, r: Record): (t: Shared)
    ensures t == s.(stats := t.stats, lastIndication := t.lastIndication)
  {
    var t := AccountIndication(s, r);
    t.(stats := AccountKind(t.stats, r).(lastReceiveSeconds := r.receiveTimestampUs / 1000000))
  }

  function AccountResult(b: BackendStats, result: FileSink.Result): BackendStats {
    if result == FileSink.SinkOk then b.(ok := b.ok + 1)
    else b.(error := b.error + 1).Add(ReasonOf(result), 1)
  }

  /** account_file_result */
  function AccountFileResult(s: Shared, backend: FileBackend, result: FileSink.Result): (t: Shared)
    ensures t == s.(stats := t.stats, failed := t.failed)
  {
    var stats :=
      match backend
      case CsvBackend => s.stats.(csv := AccountResult(s.stats.csv, result))
      case JsonlBackend => s.stats.(jsonl := AccountResult(s.stats.jsonl, result));
    s.(stats := stats, failed := s.failed || result != FileSink.SinkOk)
  }

  /** The region of process_record: it touches only counters and the failed flag. */
  function Account(c: Config, s: Shared, r: Record, csv: FileSink.Result, jsonl: FileSink.Result): (t: Shared)
    ensures t == s.(stats := t.stats, lastIndication := t.lastIndication, failed := t.failed)
  {
    var t := AccountRecord(s, r);
    var u := if c.csv then AccountFileResult(t, CsvBackend, csv) else t;
    if c.jsonl then AccountFileResult(u, JsonlBackend, jsonl) else u
  }

  function WithDrops(b: BackendStats, dropped: nat): BackendStats {
    b.(error := b.error + dropped, write := b.write + dropped)
  }

  /** compose_snapshot_locked, with the value of the dropped counter it loaded. */
  function ComposeSnapshot(c: Config, s: Shared, dropped: nat, seconds: nat): Stats {
    s.stats.(
      queueDepth := s.count, snapshotSeconds := seconds,
      csv := if c.csv then WithDrops(s.stats.csv, dropped) else s.stats.csv,
      jsonl := if c.jsonl then WithDrops(s.stats.jsonl, dropped) else s.stats.jsonl,
      prometheus := if c.prometheus then WithDrops(s.stats.prometheus, dropped) else s.stats.prometheus)
  }

  /** The region of write_prometheus_snapshot; None is a write that succeeded. */
  function AccountPublish(s: Shared, error: Option<Reason>): Shared {
    var b := s.stats.prometheus;
    match error
    case None => s.(stats := s.stats.(prometheus := b.(ok := b.ok + 1)))
    case Some(reason) => s.(stats := s.stats.(prometheus := b.(error := b.error + 1).Add(reason, 1)), failed := true)
  }

  function Finish(s: Shared): Shared { s.(busy := false) }

  function RequestStop(s: Shared): Shared { s.(stop := true) }

  function SetRuntimeCounters(s: Shared, errors: nat, created: nat, removed: nat): (t: Shared)
    ensures t.stats.callbackErrors == errors
    ensures t.stats.subscriptionsCreated == created && t.stats.subscriptionsRemoved == removed
    ensures t.stats.csv == s.stats.csv && t.stats.jsonl == s.stats.jsonl && t.stats.prometheus == s.stats.prometheus
  {
    s.(stats := s.stats.(callbackErrors := errors, subscriptionsCreated := created, subscriptionsRemoved := removed))
  }

  /** The regions of shutdown after each close. */
  function AccountCsvClose(s: Shared, result: FileSink.Result): Shared {
    if result == FileSink.SinkOk then s
    else s.(stats := s.stats.(csv := s.stats.csv.Add(ReasonOf(result), 1)), failed := true)
  }

  function AccountJsonlClose(s: Shared, result: FileSink.Result): Shared {
    if result == FileSink.SinkOk then s
    else s.(stats := s.stats.(jsonl := s.stats.jsonl.Add(ReasonOf(result), 1)), failed := true)
  }

  /** The two atomic steps of a submit that is turned away. */
  function CountDrop(s: Shared): Shared { s.(dropped := s.dropped + 1) }

  function MarkFailed(s: Shared): Shared { s.(failed := true) }

  // ---- the ring ----

  /** The i-th slot from the head, for at most one lap. */
  function Slot(head: nat, i: nat, n: nat): nat { if head + i < n then head + i else head + i - n }

  lemma SlotIsModulo(head: nat, i: nat, n: nat)
    requires head < n && i <= n
    ensures Slot(head, i, n) == (head + i) % n
  {
    if head + i >= n { ModuloDown(head + i, n); } else { ModuloSmall(head + i, n); }
  }

  lemma ModuloSmall(x: nat, n: nat)
    requires x < n
    ensures x % n == x
  {
  }

  lemma ModuloDown(x: nat, n: nat)
    requires 0 < n <= x < 2 * n
    ensures x % n == x - n
  {
    assert x / n == 1;
  }

  /** The queued records, oldest first. */
  function Ring(queue: seq<Record>, head: nat, count: nat): (r: seq<Record>)
    requires head < |queue| && count <= |queue|
    ensures |r| == count
  {
    seq(count, i requires 0 <= i < count && head < |queue| && count <= |queue| => queue[Slot(head, i, |queue|)])
  }

  /** Enqueue appends to the ring and keeps tail at head + count modulo the capacity. */
  lemma EnqueueAppends(c: Config, s: Shared, r: Record)
    requires WellShaped(c, s) && !Refuses(c, s) && s.tail == (s.head + s.count) % c.capacity
    ensures var t := Enqueue(c, s, r);
      && WellShaped(c, t) && t.tail == (t.head + t.count) % c.capacity
      && Ring(t.queue, t.head, t.count) == Ring(s.queue, s.head, s.count) + [r]
  {
    SlotIsModulo(s.head, s.count, c.capacity);
    SlotIsModulo(s.head, s.count + 1, c.capacity);
    SlotIsModulo(s.tail, 1, c.capacity);
  }

  /** Dequeue takes the oldest record off the ring. */
  lemma DequeueTakesFirst(c: Config, s: Shared)
    requires WellShaped(c, s) && s.count > 0 && s.tail == (s.head + s.count) % c.capacity
    ensures var t := Dequeue(c, s);
      && WellShaped(c, t) && t.tail == (t.head + t.count) % c.capacity
      && Ring(s.queue, s.head, s.count) == [s.queue[s.head]] + Ring(t.queue, t.head, t.count)
  {
    var t := Dequeue(c, s);
    SlotIsModulo(s.head, s.count, c.capacity);
    SlotIsModulo(s.head, 1, c.capacity);
    SlotIsModulo(t.head, t.count, c.capacity);
    assert forall i :: 0 <= i < t.count ==> Slot(t.head, i, c.capacity) == Slot(s.head, i + 1, c.capacity);
  }

  // ---- the object ----

  /** tcd_kpm_output_pipeline: each method below is one region under the mutex, or one call run
      without interleaving. What other threads may do between regions is in PipelineRuns. */
  class Pipeline {
    const config: Config
    const queue: array<Record>
    var queueHead: nat
    var queueTail: nat
    var queueCount: nat
    var workerBusy: bool
    var stopRequested: bool
    var recordsAccepted: nat
    var recordsDropped: nat
    var failed: bool
    var lastIndication: Option<u64>
    var stats: Stats
    const csvSink: FileSink.FileSink
    const jsonlSink: FileSink.FileSink

    ghost function View(): Shared
      reads this, queue
    {
      Shared(queue[..], queueHead, queueTail, queueCount, workerBusy, stopRequested, recordsAccepted,
             recordsDropped, failed, lastIndication, stats)
    }

    ghost predicate Valid()
      reads this, queue, csvSink, jsonlSink
    {
      && WellShaped(config, View())
      && csvSink != jsonlSink && csvSink.Valid() && jsonlSink.Valid()
    }

    /** The calloc and the initialisers of create. */
    constructor (config: Config, zero: Record)
      requires config.capacity > 0
      ensures Valid() && this.config == config && fresh(queue) && fresh(csvSink) && fresh(jsonlSink)
      ensures View() == Initial(config, zero) && !csvSink.isOpen && !jsonlSink.isOpen
    {
      this.config := config;
      queue := new Record[config.capacity](_ => zero);
      queueHead, queueTail, queueCount := 0, 0, 0;
      workerBusy, stopRequested, failed := false, false, false;
      recordsAccepted, recordsDropped := 0, 0;
      lastIndication, stats := None, NO_STATS;
      csvSink := new FileSink.FileSink();
      jsonlSink := new FileSink.FileSink();
      new;
      assert queue[..] == seq(config.capacity, _ => zero);
    }

    /** The sink part of create: true leaves every enabled sink open on an empty record list. */
    method OpenSinks(csvPath: string, jsonlPath: string, csvOpens: bool, jsonlOpens: bool, io: FileSink.WriteIo)
      returns (ok: bool)
      requires Valid() && !csvSink.isOpen && !jsonlSink.isOpen
      modifies csvSink, jsonlSink
      ensures Valid()
      ensures ok && config.csv ==> FileSink.Tracks(csvSink.View(), []) && csvSink.format == FileSink.CsvFormat
      ensures ok && config.jsonl ==> FileSink.Tracks(jsonlSink.View(), []) && jsonlSink.format == FileSink.JsonlFormat
    {
      if config.csv {
        var result := csvSink.Open(FileSink.CsvFormat, csvPath, csvOpens, io);
        if result != FileSink.SinkOk { return false; }
      }
      if config.jsonl {
        var result := jsonlSink.Open(FileSink.JsonlFormat, jsonlPath, jsonlOpens, io);
        if result != FileSink.SinkOk { return false; }
      }
      return true;
    }

    /** The region of try_submit. */
    method EnqueueLocked(r: Record) returns (accepted: bool)
      requires Valid()
      modifies this, queue
      ensures Valid()
      ensures accepted == !Refuses(config, old(View()))
      ensures View() == if accepted then Enqueue(config, old(View()), r) else old(View())
    {
      if stopRequested || queueCount >= config.capacity { return false; }
      queue[queueTail] := r;
      queueTail := (queueTail + 1) % config.capacity;
      queueCount := queueCount + 1;
      recordsAccepted := recordsAccepted + 1;
      return true;
    }

    /** tcd_kpm_output_pipeline_try_submit; locked is what trylock answered. */
    method TrySubmit(r: Record, locked: bool) returns (ok: bool)
      requires Valid()
      modifies this, queue
      ensures Valid()
      ensures ok <==> CanonicalRecord.Valid(r) && locked && !Refuses(config, old(View()))
      ensures View() == if ok then Enqueue(config, old(View()), r) else MarkFailed(CountDrop(old(View())))
    {
      hide CanonicalRecord.Valid;
      var reason := CanonicalRecord.Validate(r);
      if reason != None || !locked {
        recordsDropped := recordsDropped + 1;
        failed := true;
        return false;
      }
      ok := EnqueueLocked(r);
      if !ok {
        recordsDropped := recordsDropped + 1;
        failed := true;
      }
    }

    /** The first region of the worker's loop. */
    method TakeLocked() returns (r: Record)
      requires Valid() && queueCount > 0
      modifies this
      ensures Valid() && View() == Dequeue(config, old(View()))
      ensures r == Ring(old(queue[..]), old(queueHead), old(queueCount))[0]
    {
      r := queue[queueHead];
      queueHead := (queueHead + 1) % config.capacity;
      queueCount := queueCount - 1;
      workerBusy := true;
    }

    method AccountIndicationLocked(r: Record)
      requires Valid()
      modifies this
      ensures Valid() && View() == AccountIndication(old(View()), r)
    {
      if lastIndication == None || lastIndication.value != r.indicationSequence {
        if r.messageFormat == 1 {
          stats := stats.(indicationsFormat1 := stats.indicationsFormat1 + 1);
        } else if r.messageFormat == 3 {
          stats := stats.(indicationsFormat3 := stats.indicationsFormat3 + 1);
        }
        lastIndication := Some(r.indicationSequence);
      }
    }

    /** account_record */
    method AccountRecordLocked(r: Record)
      requires Valid()
      modifies this
      ensures Valid() && View() == AccountRecord(old(View()), r)
    {
      AccountIndicationLocked(r);
      ghost var counted := stats;
      match r.recordKind {
        case Measurement =>
          match r.valueType {
            case ValueInteger => stats := stats.(integers := stats.integers + 1);
            case ValueReal => stats := stats.(reals := stats.reals + 1);
            case ValueNoValue => stats := stats.(noValues := stats.noValues + 1);
            case _ =>
          }
        case Diagnostic =>
          if r.structuralStatus == CanonicalRecord.LengthMismatch {
            stats := stats.(lengthMismatches := stats.lengthMismatches + 1,
                            rejectedLengthMismatch := stats.rejectedLengthMismatch + 1);
          } else {
            stats := stats.(invalidInputs := stats.invalidInputs + 1,
                            rejectedInvalidInput := stats.rejectedInvalidInput + 1);
          }
        case _ =>
      }
      assert stats == AccountKind(counted, r);
      hide AccountIndication;
      hide AccountKind;
      stats := stats.(lastReceiveSeconds := r.receiveTimestampUs / 1000000);
    }

    /** The region of process_record. */
    method AccountLocked(r: Record, csvResult: FileSink.Result, jsonlResult: FileSink.Result)
      requires Valid()
      modifies this
      ensures Valid() && View() == Account(config, old(View()), r, csvResult, jsonlResult)
    {
      hide AccountRecord;
      hide AccountFileResult;
      hide Valid;
      hide View;
      AccountRecordLocked(r);
      if config.csv { AccountFileLocked(CsvBackend, csvResult); }
      if config.jsonl { AccountFileLocked(JsonlBackend, jsonlResult); }
    }

    /** account_file_result */
    method AccountFileLocked(backend: FileBackend, result: FileSink.Result)
      requires Valid()
      modifies this
      ensures Valid() && View() == AccountFileResult(old(View()), backend, result)
    {
      match backend {
        case CsvBackend => stats := stats.(csv := AccountResult(stats.csv, result));
        case JsonlBackend => stats := stats.(jsonl := AccountResult(stats.jsonl, result));
      }
      if result != FileSink.SinkOk { failed := true; }
    }

    /** process_record up to its snapshot: both writes, then the accounting region. */
    method ProcessRecord(r: Record, csvIo: FileSink.WriteIo, jsonlIo: FileSink.WriteIo, seconds: nat)
      returns (csvResult: FileSink.Result, jsonlResult: FileSink.Result, snapshot: Stats)
      requires Valid()
      modifies this, csvSink, jsonlSink
      ensures Valid()
      ensures if config.csv then (csvSink.View(), csvResult) == FileSink.Write(old(csvSink.View()), r, csvIo)
              else csvResult == FileSink.SinkOk && csvSink.View() == old(csvSink.View())
      ensures if config.jsonl then (jsonlSink.View(), jsonlResult) == FileSink.Write(old(jsonlSink.View()), r, jsonlIo)
              else jsonlResult == FileSink.SinkOk && jsonlSink.View() == old(jsonlSink.View())
      ensures View() == Account(config, old(View()), r, csvResult, jsonlResult)
      ensures snapshot == ComposeSnapshot(config, View(), View().dropped, seconds)
    {
      hide FileSink.Write;
      hide Account;
      hide ComposeSnapshot;
      csvResult, jsonlResult := FileSink.SinkOk, FileSink.SinkOk;
      if config.csv { csvResult := csvSink.WriteRecord(r, csvIo); }
      if config.jsonl { jsonlResult := jsonlSink.WriteRecord(r, jsonlIo); }
      AccountLocked(r, csvResult, jsonlResult);
      snapshot := ComposeLocked(recordsDropped, seconds);
    }

    /** compose_snapshot_locked */
    method ComposeLocked(dropped: nat, seconds: nat) returns (snapshot: Stats)
      requires Valid()
      ensures snapshot == ComposeSnapshot(config, View(), dropped, seconds)
    {
      snapshot := stats.(queueDepth := queueCount, snapshotSeconds := seconds);
      if dropped > 0 {
        if config.csv { snapshot := snapshot.(csv := WithDrops(snapshot.csv, dropped)); }
        if config.jsonl { snapshot := snapshot.(jsonl := WithDrops(snapshot.jsonl, dropped)); }
        if config.prometheus { snapshot := snapshot.(prometheus := WithDrops(snapshot.prometheus, dropped)); }
      }
    }

    /** The region of write_prometheus_snapshot. */
    method PublishLocked(error: Option<Reason>)
      requires Valid()
      modifies this
      ensures Valid() && View() == AccountPublish(old(View()), error)
    {
      var b := stats.prometheus;
      if error == None {
        stats := stats.(prometheus := b.(ok := b.ok + 1));
      } else {
        stats := stats.(prometheus := b.(error := b.error + 1).Add(error.value, 1));
        failed := true;
      }
    }

    /** The last region of the worker's loop. */
    method FinishLocked()
      requires Valid()
      modifies this
      ensures Valid() && View() == Finish(old(View()))
    {
      workerBusy := false;
    }

    /** Closing one sink and the region that accounts for it; true is a clean close. */
    method CloseCsv(io: FileSink.CloseIo) returns (clean: bool)
      requires Valid()
      modifies this, csvSink
      ensures Valid()
      ensures var (sink, result) := FileSink.Close(old(csvSink.View()), io);
        && csvSink.View() == sink && clean == (result == FileSink.SinkOk)
        && View() == AccountCsvClose(old(View()), result)
      ensures !clean || old(failed) ==> failed
    {
      hide FileSink.Close;
      var result := csvSink.CloseStream(io);
      clean := result == FileSink.SinkOk;
      if !clean {
        stats := stats.(csv := stats.csv.Add(ReasonOf(result), 1));
        failed := true;
      }
    }

    method CloseJsonl(io: FileSink.CloseIo) returns (clean: bool)
      requires Valid()
      modifies this, jsonlSink
      ensures Valid()
      ensures var (sink, result) := FileSink.Close(old(jsonlSink.View()), io);
        && jsonlSink.View() == sink && clean == (result == FileSink.SinkOk)
        && View() == AccountJsonlClose(old(View()), result)
      ensures !clean || old(failed) ==> failed
    {
      hide FileSink.Close;
      var result := jsonlSink.CloseStream(io);
      clean := result == FileSink.SinkOk;
      if !clean {
        stats := stats.(jsonl := stats.jsonl.Add(ReasonOf(result), 1));
        failed := true;
      }
    }

    /** tcd_kpm_output_pipeline_shutdown_and_destroy after the join: close, account, publish, decide. */
    method CloseAndDecide(csvIo: FileSink.CloseIo, jsonlIo: FileSink.CloseIo, published: bool, seconds: nat)
      returns (success: bool, snapshot: Stats)
      requires Valid()
      modifies this, csvSink, jsonlSink
      ensures Valid()
      ensures var (csv', csvResult) := FileSink.Close(old(csvSink.View()), csvIo);
        var (jsonl', jsonlResult) := FileSink.Close(old(jsonlSink.View()), jsonlIo);
        var s1 := if config.csv then AccountCsvClose(old(View()), csvResult) else old(View());
        var s2 := if config.jsonl then AccountJsonlClose(s1, jsonlResult) else s1;
        && csvSink.View() == (if config.csv then csv' else old(csvSink.View()))
        && jsonlSink.View() == (if config.jsonl then jsonl' else old(jsonlSink.View()))
        && snapshot == ComposeSnapshot(config, s2, s2.dropped, seconds)
        && View() == (if config.prometheus && !published then MarkFailed(s2) else s2)
      ensures success <==> recordsDropped == 0 && !failed
    {
      hide FileSink.Close;
      hide AccountCsvClose;
      hide AccountJsonlClose;
      hide ComposeSnapshot;
      success := true;
      if config.csv {
        var clean := CloseCsv(csvIo);
        success := success && clean;
      }
      if config.jsonl {
        var clean := CloseJsonl(jsonlIo);
        success := success && clean;
      }
      assert !success ==> failed;
      snapshot := ComposeLocked(recordsDropped, seconds);
      if config.prometheus && !published {
        failed := true;
        success := false;
      }
      if recordsDropped > 0 { success := false; }
      if failed { success := false; }
    }
  }

  function Initial(c: Config, zero: Record): Shared {
    Shared(seq(c.capacity, _ => zero), 0, 0, 0, false, false, 0, 0, false, None, NO_STATS)
  }
}
