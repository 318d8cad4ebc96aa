/** Runs of the output pipeline: any number of submitters, the worker and shutdown, interleaved
    at locked regions, atomic operations and sink writes. */
module PipelineRuns {
  import opened Bytes
  import CanonicalRecord
  import FileSink
  import opened OutputPipeline

  // ---- who is where ----

  /** A try_submit call in progress; calls are interchangeable, so the state keeps a multiset. */
  datatype Call = Validated(r: Record) | Dropping | Marking

  datatype Worker =
    | Waiting
    | CsvDue(r: Record)
    | JsonlDue(r: Record, csv: FileSink.Result)
    | AccountDue(r: Record, csv: FileSink.Result, jsonl: FileSink.Result)
    | PublishDue(r: Record, snapshot: Stats)
    | FinishDue(r: Record)
    | Exited

  /** Where shutdown_and_destroy is; success is its local variable. */
  datatype Main =
    | Running
    | Stopping
    | CsvCloseDue
    | JsonlCloseDue(success: bool)
    | SnapshotDue(success: bool)
    | LastPublishDue(success: bool, snapshot: Stats)
    | DropsDue(success: bool, published: bool)
    | FailedDue(success: bool, published: bool)
    | Returned(success: bool, published: bool)

  /** log, processed and submits record the history; the program does not keep them. */
  datatype State = State(
    shared: Shared, csv: FileSink.Sink, jsonl: FileSink.Sink,
    worker: Worker, main: Main, calls: multiset<Call>,
    log: seq<Record>, processed: seq<Record>, submits: nat)

  datatype Action =
    | Begin(r: Record) | TryLockFails(r: Record) | Region(r: Record) | Drop | Mark
    | Take | WriteCsv(io: FileSink.WriteIo) | WriteJsonl(io: FileSink.WriteIo)
    | AccountRegion(seconds: nat) | Publish(error: Option<Reason>) | FinishRegion | Exit
    | RuntimeCounters(errors: nat, created: nat, removed: nat)
    | Stop | Join | CloseCsv(closeIo: FileSink.CloseIo) | CloseJsonl(closeIo: FileSink.CloseIo)
    | LastSnapshot(seconds: nat) | LastPublish(ok: bool) | LoadDrops | LoadFailed

  // ---- one step ----

  /** trylock may fail whenever a call gets there. The object is freed after LoadFailed, so no call
      is in progress from LoadDrops on. */
  ghost predicate Enabled(c: Config, s: State, a: Action) {
    && WellShaped(c, s.shared)
    && match a
       case Begin(r) => !s.main.FailedDue? && !s.main.Returned?
       case TryLockFails(r) => Validated(r) in s.calls
       case Region(r) => Validated(r) in s.calls
       case Drop => Dropping in s.calls
       case Mark => Marking in s.calls
       case Take => s.worker.Waiting? && s.shared.count > 0
       case WriteCsv(_) => s.worker.CsvDue?
       case WriteJsonl(_) => s.worker.JsonlDue?
       case AccountRegion(_) => s.worker.AccountDue?
       case Publish(_) => s.worker.PublishDue?
       case FinishRegion => s.worker.FinishDue?
       case Exit => s.worker.Waiting? && s.shared.count == 0 && s.shared.stop
       case RuntimeCounters(_, _, _) => !s.main.Returned?
       case Stop => s.main.Running?
       case Join => s.main.Stopping? && s.worker.Exited?
       case CloseCsv(_) => s.main.CsvCloseDue?
       case CloseJsonl(_) => s.main.JsonlCloseDue?
       case LastSnapshot(_) => s.main.SnapshotDue?
       case LastPublish(_) => s.main.LastPublishDue?
       case LoadDrops => s.main.DropsDue? && s.calls == multiset{}
       case LoadFailed => s.main.FailedDue?
  }

  function Replace(calls: multiset<Call>, was: Call, now: Call): multiset<Call> {
    calls - multiset{was} + multiset{now}
  }

  ghost function Submit(c: Config, s: State, a: Action): State
    requires Enabled(c, s, a) && (a.Begin? || a.TryLockFails? || a.Region? || a.Drop? || a.Mark?)
  {
    match a
    case Begin(r) =>
      s.(submits := s.submits + 1,
         calls := s.calls + multiset{if CanonicalRecord.Valid(r) then Validated(r) else Dropping})
    case TryLockFails(r) => s.(calls := Replace(s.calls, Validated(r), Dropping))
    case Region(r) =>
      if Refuses(c, s.shared) then s.(calls := Replace(s.calls, Validated(r), Dropping))
      else s.(shared := Enqueue(c, s.shared, r), calls := s.calls - multiset{Validated(r)}, log := s.log + [r])
    case Drop => s.(shared := CountDrop(s.shared), calls := Replace(s.calls, Dropping, Marking))
    case Mark => s.(shared := MarkFailed(s.shared), calls := s.calls - multiset{Marking})
  }

  ghost function Work(c: Config, s: State, a: Action): State
    requires Enabled(c, s, a)
    requires a.Take? || a.WriteCsv? || a.WriteJsonl? || a.AccountRegion? || a.Publish? || a.FinishRegion? || a.Exit?
  {
    match a
    case Take =>
      s.(shared := Dequeue(c, s.shared), worker := CsvDue(s.shared.queue[s.shared.head]))
    case WriteCsv(io) =>
      if c.csv then
        var (sink, result) := FileSink.Write(s.csv, s.worker.r, io);
        s.(csv := sink, worker := JsonlDue(s.worker.r, result))
      else s.(worker := JsonlDue(s.worker.r, FileSink.SinkOk))
    case WriteJsonl(io) =>
      if c.jsonl then
        var (sink, result) := FileSink.Write(s.jsonl, s.worker.r, io);
        s.(jsonl := sink, worker := AccountDue(s.worker.r, s.worker.csv, result))
      else s.(worker := AccountDue(s.worker.r, s.worker.csv, FileSink.SinkOk))
    case AccountRegion(seconds) =>
      var shared := Account(c, s.shared, s.worker.r, s.worker.csv, s.worker.jsonl);
      s.(shared := shared, worker := PublishDue(s.worker.r, ComposeSnapshot(c, shared, shared.dropped, seconds)))
    case Publish(error) =>
      s.(shared := if c.prometheus then AccountPublish(s.shared, error) else s.shared,
         worker := FinishDue(s.worker.r))
    case FinishRegion =>
      s.(shared := Finish(s.shared), worker := Waiting, processed := s.processed + [s.worker.r])
    case Exit => s.(shared := Finish(s.shared), worker := Exited)
  }

  ghost function Shutdown(c: Config, s: State, a: Action): State
    requires Enabled(c, s, a)
    requires a.RuntimeCounters? || a.Stop? || a.Join? || a.CloseCsv? || a.CloseJsonl? || a.LastSnapshot?
             || a.LastPublish? || a.LoadDrops? || a.LoadFailed?
  {
    match a
    case RuntimeCounters(errors, created, removed) =>
      s.(shared := SetRuntimeCounters(s.shared, errors, created, removed))
    case Stop => s.(shared := RequestStop(s.shared), main := Stopping)
    case Join => s.(main := CsvCloseDue)
    case CloseCsv(io) =>
      if c.csv then
        var (sink, result) := FileSink.Close(s.csv, io);
        s.(csv := sink, shared := AccountCsvClose(s.shared, result), main := JsonlCloseDue(result == FileSink.SinkOk))
      else s.(main := JsonlCloseDue(true))
    case CloseJsonl(io) =>
      if c.jsonl then
        var (sink, result) := FileSink.Close(s.jsonl, io);
        s.(jsonl := sink, shared := AccountJsonlClose(s.shared, result),
           main := SnapshotDue(s.main.success && result == FileSink.SinkOk))
      else s.(main := SnapshotDue(s.main.success))
    case LastSnapshot(seconds) =>
      s.(main := LastPublishDue(s.main.success, ComposeSnapshot(c, s.shared, s.shared.dropped, seconds)))
    case LastPublish(ok) =>
      if c.prometheus && !ok then s.(shared := MarkFailed(s.shared), main := DropsDue(false, false))
      else s.(main := DropsDue(s.main.success, true))
    case LoadDrops => s.(main := FailedDue(s.main.success && s.shared.dropped == 0, s.main.published))
    case LoadFailed => s.(main := Returned(s.main.success && !s.shared.failed, s.main.published))
  }

  ghost function Apply(c: Config, s: State, a: Action): State
    requires Enabled(c, s, a)
  {
    if a.Begin? || a.TryLockFails? || a.Region? || a.Drop? || a.Mark? then Submit(c, s, a)
    else if a.Take? || a.WriteCsv? || a.WriteJsonl? || a.AccountRegion? || a.Publish? || a.FinishRegion? || a.Exit?
    then Work(c, s, a)
    else Shutdown(c, s, a)
  }

  // ---- runs ----

  /** What create returns: an empty ring, every enabled sink open on no records. */
  ghost predicate Start(c: Config, s: State) {
    && c.capacity > 0
    && (exists zero :: s.shared == Initial(c, zero))
    && (c.csv ==> FileSink.Tracks(s.csv, []) && s.csv.format == FileSink.CsvFormat)
    && (c.jsonl ==> FileSink.Tracks(s.jsonl, []) && s.jsonl.format == FileSink.JsonlFormat)
    && s.worker == Waiting && s.main == Running && s.calls == multiset{}
    && s.log == [] && s.processed == [] && s.submits == 0
  }

  ghost predicate Legal(c: Config, s: State, actions: seq<Action>)
    decreases |actions|
  {
    actions == [] || (Enabled(c, s, actions[0]) && Legal(c, Apply(c, s, actions[0]), actions[1..]))
  }

  ghost function After(c: Config, s: State, actions: seq<Action>): State
    requires Legal(c, s, actions)
    decreases |actions|
  {
    if actions == [] then s else After(c, Apply(c, s, actions[0]), actions[1..])
  }

  // ---- the queue ----

  /** The record the worker has taken and not finished. */
  function InFlight(w: Worker): (r: seq<Record>)
    ensures |r| <= 1
  {
    if w.Waiting? || w.Exited? then [] else [w.r]
  }

  ghost predicate QueueInv(c: Config, s: State) {
    && WellShaped(c, s.shared)
    && s.shared.tail == (s.shared.head + s.shared.count) % c.capacity
    && s.log == s.processed + InFlight(s.worker) + Ring(s.shared.queue, s.shared.head, s.shared.count)
    && s.shared.accepted == |s.log|
    && (s.shared.busy <==> InFlight(s.worker) != [])
    && (s.shared.stop <==> !s.main.Running?)
    && (s.worker.Exited? ==> s.shared.stop && s.shared.count == 0)
    && (!s.main.Running? && !s.main.Stopping? ==> s.worker.Exited?)
  }

  ghost predicate CallsInv(s: State) {
    && (forall r :: r in s.log ==> CanonicalRecord.Valid(r))
    && (forall r :: Validated(r) in s.calls ==> CanonicalRecord.Valid(r))
    && (s.main.FailedDue? || s.main.Returned? ==> s.calls == multiset{})
  }

  lemma Regroup<T>(a: seq<T>, x: seq<T>, b: seq<T>)
    ensures a + x + b == a + (x + b)
    ensures a + [] + b == a + b
    ensures a + x + [] + b == a + x + b
  {
  }

  lemma QueueSubmitStep(c: Config, s: State, a: Action)
    requires QueueInv(c, s) && Enabled(c, s, a) && (a.Begin? || a.TryLockFails? || a.Region? || a.Drop? || a.Mark?)
    ensures QueueInv(c, Submit(c, s, a))
  {
    hide Ring;
    hide CanonicalRecord.Valid;
    if a.Region? && !Refuses(c, s.shared) {
      EnqueueAppends(c, s.shared, a.r);
      var before := s.processed + InFlight(s.worker);
      var ring := Ring(s.shared.queue, s.shared.head, s.shared.count);
      assert before + (ring + [a.r]) == before + ring + [a.r];
    }
  }

  lemma QueueWorkStep(c: Config, s: State, a: Action)
    requires QueueInv(c, s) && Enabled(c, s, a)
    requires a.Take? || a.WriteCsv? || a.WriteJsonl? || a.AccountRegion? || a.Publish? || a.FinishRegion? || a.Exit?
    ensures QueueInv(c, Work(c, s, a))
  {
    hide Ring;
    hide CanonicalRecord.Valid;
    hide FileSink.Write;
    hide ComposeSnapshot;
    hide Account;
    var ring := Ring(s.shared.queue, s.shared.head, s.shared.count);
    match a {
      case Take =>
        DequeueTakesFirst(c, s.shared);
        var t := Dequeue(c, s.shared);
        Regroup(s.processed, [s.shared.queue[s.shared.head]], Ring(t.queue, t.head, t.count));
      case FinishRegion =>
        Regroup(s.processed, [s.worker.r], ring);
      case _ =>
    }
  }

  lemma QueueShutdownStep(c: Config, s: State, a: Action)
    requires QueueInv(c, s) && Enabled(c, s, a)
    requires a.RuntimeCounters? || a.Stop? || a.Join? || a.CloseCsv? || a.CloseJsonl? || a.LastSnapshot?
             || a.LastPublish? || a.LoadDrops? || a.LoadFailed?
    ensures QueueInv(c, Shutdown(c, s, a))
  {
    hide Ring;
    hide FileSink.Close;
    hide ComposeSnapshot;
  }

  lemma QueueStep(c: Config, s: State, a: Action)
    requires QueueInv(c, s) && Enabled(c, s, a)
    ensures QueueInv(c, Apply(c, s, a))
  {
    hide QueueInv;
    hide Submit;
    hide Work;
    hide Shutdown;
    hide WellShaped;
    if a.Begin? || a.TryLockFails? || a.Region? || a.Drop? || a.Mark? {
      QueueSubmitStep(c, s, a);
    } else if a.Take? || a.WriteCsv? || a.WriteJsonl? || a.AccountRegion? || a.Publish? || a.FinishRegion? || a.Exit? {
      QueueWorkStep(c, s, a);
    } else {
      QueueShutdownStep(c, s, a);
    }
  }

  /** Only valid records are validated, accepted or processed, and the freed object is not in use. */
  lemma CallsStep(c: Config, s: State, a: Action)
    requires CallsInv(s) && Enabled(c, s, a)
    ensures CallsInv(Apply(c, s, a))
  {
    hide CallsInv;
    hide Enabled;
    hide Submit;
    hide Work;
    hide Shutdown;
    if a.Begin? || a.TryLockFails? || a.Region? || a.Drop? || a.Mark? {
      CallsSubmitStep(c, s, a);
    } else if a.Take? || a.WriteCsv? || a.WriteJsonl? || a.AccountRegion? || a.Publish? || a.FinishRegion? || a.Exit? {
      CallsWorkStep(c, s, a);
    } else {
      CallsShutdownStep(c, s, a);
    }
  }

  lemma CallsSubmitStep(c: Config, s: State, a: Action)
    requires CallsInv(s) && Enabled(c, s, a) && (a.Begin? || a.TryLockFails? || a.Region? || a.Drop? || a.Mark?)
    ensures CallsInv(Submit(c, s, a))
  {
    hide CanonicalRecord.Valid;
    hide WellShaped;
  }

  lemma CallsWorkStep(c: Config, s: State, a: Action)
    requires CallsInv(s) && Enabled(c, s, a)
    requires a.Take? || a.WriteCsv? || a.WriteJsonl? || a.AccountRegion? || a.Publish? || a.FinishRegion? || a.Exit?
    ensures CallsInv(Work(c, s, a))
  {
    hide CanonicalRecord.Valid;
    hide Account;
    hide FileSink.Write;
    hide ComposeSnapshot;
    hide AccountPublish;
    hide WellShaped;
    var t := Work(c, s, a);
    assert t.log == s.log && t.calls == s.calls && t.main == s.main;
  }

  lemma CallsShutdownStep(c: Config, s: State, a: Action)
    requires CallsInv(s) && Enabled(c, s, a)
    requires a.RuntimeCounters? || a.Stop? || a.Join? || a.CloseCsv? || a.CloseJsonl? || a.LastSnapshot?
             || a.LastPublish? || a.LoadDrops? || a.LoadFailed?
    ensures CallsInv(Shutdown(c, s, a))
  {
    hide CanonicalRecord.Valid;
    hide FileSink.Close;
    hide ComposeSnapshot;
    hide AccountCsvClose;
    hide AccountJsonlClose;
    hide WellShaped;
    var t := Shutdown(c, s, a);
    assert t.log == s.log && t.calls == s.calls;
  }

  // ---- dropped records ----

  /** Calls that have not been decided yet: neither accepted nor counted as dropped. */
  function Undecided(s: State): int { |s.calls| - s.calls[Marking] }

  function Errors(t: Stats): nat { t.csv.Reasons() + t.jsonl.Reasons() + t.prometheus.Reasons() }

  predicate LastPublishFailed(m: Main) {
    (m.DropsDue? || m.FailedDue? || m.Returned?) && !m.published
  }

  /** Every submit is accepted, dropped or undecided; the failed flag says exactly that some drop
      was marked, some backend error was counted or the last snapshot was not published. */
  ghost predicate DropInv(s: State) {
    && s.submits == |s.log| + s.shared.dropped + Undecided(s)
    && s.calls[Marking] <= s.shared.dropped
    && (s.shared.failed <==>
          s.shared.dropped > s.calls[Marking] || Errors(s.shared.stats) > 0 || LastPublishFailed(s.main))
  }

  lemma DropSubmitStep(c: Config, s: State, a: Action)
    requires DropInv(s) && Enabled(c, s, a) && (a.Begin? || a.TryLockFails? || a.Region? || a.Drop? || a.Mark?)
    ensures DropInv(Submit(c, s, a))
  {
    hide CanonicalRecord.Valid;
    hide Refuses;
    hide WellShaped;
    hide Errors;
    hide Replace;
    hide LastPublishFailed;
    match a {
      case Begin(r) =>
        Added(s.calls, Validated(r));
        Added(s.calls, Dropping);
      case TryLockFails(r) => Replaced(s.calls, Validated(r), Dropping);
      case Region(r) =>
        Replaced(s.calls, Validated(r), Dropping);
        Removed(s.calls, Validated(r));
      case Drop => Replaced(s.calls, Dropping, Marking);
      case Mark => Removed(s.calls, Marking);
    }
  }

  lemma Added(calls: multiset<Call>, call: Call)
    requires call != Marking
    ensures |calls + multiset{call}| == |calls| + 1 && (calls + multiset{call})[Marking] == calls[Marking]
  {
  }

  lemma Removed(calls: multiset<Call>, call: Call)
    requires call in calls
    ensures |calls - multiset{call}| == |calls| - 1
    ensures (calls - multiset{call})[Marking] == calls[Marking] - if call == Marking then 1 else 0
  {
  }

  lemma Replaced(calls: multiset<Call>, was: Call, now: Call)
    requires was in calls && was != Marking
    ensures |Replace(calls, was, now)| == |calls|
    ensures Replace(calls, was, now)[Marking] == calls[Marking] + if now == Marking then 1 else 0
  {
  }

  lemma AccountRecordErrors(s: Shared, r: Record)
    ensures var t := AccountRecord(s, r);
      t.stats.csv == s.stats.csv && t.stats.jsonl == s.stats.jsonl && t.stats.prometheus == s.stats.prometheus
  {
  }

  lemma AccountFileErrors(s: Shared, backend: FileBackend, result: FileSink.Result)
    ensures var t := AccountFileResult(s, backend, result);
      && t.failed == (s.failed || result != FileSink.SinkOk)
      && Errors(t.stats) == Errors(s.stats) + (if result == FileSink.SinkOk then 0 else 1)
      && t.stats.csv == (if backend == CsvBackend then AccountResult(s.stats.csv, result) else s.stats.csv)
      && t.stats.jsonl == (if backend == JsonlBackend then AccountResult(s.stats.jsonl, result) else s.stats.jsonl)
      && t.stats.prometheus == s.stats.prometheus
  {
    AccountResultReasons(s.stats.csv, result);
    AccountResultReasons(s.stats.jsonl, result);
    hide AccountResult;
  }

  lemma AccountErrors(c: Config, s: Shared, r: Record, csv: FileSink.Result, jsonl: FileSink.Result)
    ensures var t := Account(c, s, r, csv, jsonl);
      && t.failed == (s.failed || (c.csv && csv != FileSink.SinkOk) || (c.jsonl && jsonl != FileSink.SinkOk))
      && Errors(t.stats) == Errors(s.stats)
         + (if c.csv && csv != FileSink.SinkOk then 1 else 0) + (if c.jsonl && jsonl != FileSink.SinkOk then 1 else 0)
      && t.stats.csv == (if c.csv then AccountResult(s.stats.csv, csv) else s.stats.csv)
      && t.stats.jsonl == (if c.jsonl then AccountResult(s.stats.jsonl, jsonl) else s.stats.jsonl)
      && t.stats.prometheus == s.stats.prometheus
  {
    var t := AccountRecord(s, r);
    AccountRecordErrors(s, r);
    hide AccountRecord;
    AccountFileErrors(t, CsvBackend, csv);
    var u := if c.csv then AccountFileResult(t, CsvBackend, csv) else t;
    AccountFileErrors(u, JsonlBackend, jsonl);
    hide AccountFileResult;
    hide AccountResult;
  }

  lemma AccountResultReasons(b: BackendStats, result: FileSink.Result)
    ensures AccountResult(b, result).Reasons() == b.Reasons() + if result == FileSink.SinkOk then 0 else 1
    ensures AccountResult(b, result).ok == b.ok + if result == FileSink.SinkOk then 1 else 0
    ensures AccountResult(b, result).error == b.error + if result == FileSink.SinkOk then 0 else 1
  {
  }

  lemma DropWorkStep(c: Config, s: State, a: Action)
    requires DropInv(s) && Enabled(c, s, a)
    requires a.Take? || a.WriteCsv? || a.WriteJsonl? || a.AccountRegion? || a.Publish? || a.FinishRegion? || a.Exit?
    ensures DropInv(Work(c, s, a))
  {
    hide WellShaped;
    hide Account;
    hide FileSink.Write;
    hide ComposeSnapshot;
    if a.AccountRegion? { AccountErrors(c, s.shared, s.worker.r, s.worker.csv, s.worker.jsonl); }
  }

  lemma DropShutdownStep(c: Config, s: State, a: Action)
    requires DropInv(s) && Enabled(c, s, a)
    requires a.RuntimeCounters? || a.Stop? || a.Join? || a.CloseCsv? || a.CloseJsonl? || a.LastSnapshot?
             || a.LastPublish? || a.LoadDrops? || a.LoadFailed?
    ensures DropInv(Shutdown(c, s, a))
  {
    hide WellShaped;
    hide FileSink.Close;
    hide ComposeSnapshot;
  }

  lemma DropStep(c: Config, s: State, a: Action)
    requires DropInv(s) && Enabled(c, s, a)
    ensures DropInv(Apply(c, s, a))
  {
    hide DropInv;
    hide Submit;
    hide Work;
    hide Shutdown;
    hide WellShaped;
    if a.Begin? || a.TryLockFails? || a.Region? || a.Drop? || a.Mark? {
      DropSubmitStep(c, s, a);
    } else if a.Take? || a.WriteCsv? || a.WriteJsonl? || a.AccountRegion? || a.Publish? || a.FinishRegion? || a.Exit? {
      DropWorkStep(c, s, a);
    } else {
      DropShutdownStep(c, s, a);
    }
  }
}
