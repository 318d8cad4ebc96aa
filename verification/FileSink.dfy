/** The file sink: a stdio stream that may fail at every call, and the sticky failed flag. */
module FileSink {
  import opened Bytes
  import CanonicalRecord
  import Json
  import Csv
  import Serializer

  type Record = CanonicalRecord.Record

  const PATH_CAPACITY: nat := 4096
  const SERIALIZED_RECORD_CAPACITY: nat := 8192

  datatype Format = InvalidFormat | CsvFormat | JsonlFormat

  datatype Result =
    | SinkOk | SinkInvalidArgument | AlreadyOpen | OpenFailed | SerializeFailed
    | WriteFailed | FlushFailed | CloseFailed | SinkFailed

  // ---- what stdio may do ----

  // One write and flush: how many bytes fwrite takes, and, when the write is short or the flush
  // fails, how many of the bytes taken have reached the file and whether stdio keeps the rest.
  datatype WriteIo = WriteIo(taken: nat, flushes: bool, spilled: nat, keeps: bool)

  // One close: the results of fflush and fclose, and how much a failing fflush still moves.
  datatype CloseIo = CloseIo(flushes: bool, closes: bool, spilled: nat)

  /** The bytes that reach the file, and those that stay behind, when n bytes of a buffer move. */
  function Moved(disk: seq<byte>, buffer: seq<byte>, n: nat): seq<byte> {
    disk + if n < |buffer| then buffer[..n] else buffer
  }

  function Left(buffer: seq<byte>, n: nat): seq<byte> {
    if n < |buffer| then buffer[n..] else []
  }

  // ---- what a sink is worth ----

  /** A sink together with its file: bytes on disk, bytes still buffered. */
  datatype Sink = Sink(
    format: Format, isOpen: bool, failed: bool, recordsWritten: nat, errors: nat,
    disk: seq<byte>, buffer: seq<byte>)

  function Failing(s: Sink): Sink { s.(failed := true, errors := s.errors + 1) }

  /** write_and_flush */
  function WriteAndFlush(s: Sink, data: seq<byte>, io: WriteIo): (Sink, Result) {
    var all := s.buffer + if io.taken < |data| then data[..io.taken] else data;
    if io.taken >= |data| && io.flushes then (s.(disk := s.disk + all, buffer := []), SinkOk)
    else
      var rest := if io.keeps then Left(all, io.spilled) else [];
      (Failing(s.(disk := Moved(s.disk, all, io.spilled), buffer := rest)),
       if io.taken < |data| then WriteFailed else FlushFailed)
  }

  /** What a record contributes to the file. */
  function RecordText(format: Format, r: Record): seq<byte> {
    if format == CsvFormat then Csv.RecordRow(CanonicalRecord.ViewOf(r))
    else Json.RecordLine(CanonicalRecord.ViewOf(r))
  }

  /** The whole text of a file: the header for CSV, then the records in order. */
  function FileText(format: Format, rs: seq<Record>): seq<byte> {
    if rs == [] then (if format == CsvFormat then Csv.Header() else [])
    else FileText(format, rs[..|rs| - 1]) + RecordText(format, rs[|rs| - 1])
  }

  /** tcd_kpm_file_sink_write */
  ghost function Write(s: Sink, r: Record, io: WriteIo): (Sink, Result) {
    if !s.isOpen || s.format == InvalidFormat then (s, SinkInvalidArgument)
    else if s.failed then (s, SinkFailed)
    else if !CanonicalRecord.Valid(r) then (Failing(s), SerializeFailed)
    else
      var (s', result) := WriteAndFlush(s, RecordText(s.format, r), io);
      if result == SinkOk then (s'.(recordsWritten := s'.recordsWritten + 1), SinkOk) else (s', result)
  }

  /** tcd_kpm_file_sink_close */
  function Close(s: Sink, io: CloseIo): (Sink, Result) {
    if !s.isOpen then (s, SinkInvalidArgument)
    else
      var moved := if io.flushes then s.disk + s.buffer else Moved(s.disk, s.buffer, io.spilled);
      var closed := s.(isOpen := false, disk := moved, buffer := []);
      if !io.flushes then (if s.failed then closed else Failing(closed), FlushFailed)
      else if !io.closes then (if s.failed then closed else Failing(closed), CloseFailed)
      else if s.failed then (closed, SinkFailed)
      else (closed, SinkOk)
  }

  // ---- what every sink keeps ----

  /** A sink that was given the valid records rs, in order, since it was opened: as long as it
      has not failed its file is their text; a failed sink failed on one record, wrote all
      records before it and nothing after it. */
  ghost predicate Tracks(s: Sink, rs: seq<Record>) {
    && s.isOpen && s.format != InvalidFormat
    && s.recordsWritten <= |rs|
    && (!s.failed ==> s.recordsWritten == |rs| && s.errors == 0 && s.disk == FileText(s.format, rs) && s.buffer == [])
    && (s.failed ==>
          && s.recordsWritten < |rs| && s.errors == 1
          && FileText(s.format, rs[..s.recordsWritten]) <= s.disk
          && s.disk + s.buffer <= FileText(s.format, rs[..s.recordsWritten + 1]))
  }

  lemma FileTextNext(format: Format, rs: seq<Record>, r: Record)
    ensures FileText(format, rs + [r]) == FileText(format, rs) + RecordText(format, r)
  {
    hide RecordText;
    assert (rs + [r])[..|rs|] == rs;
  }

  /** Each write keeps the file on track, whatever stdio does; it reports Ok exactly when the
      record is completely in the file. */
  lemma WriteTracks(s: Sink, rs: seq<Record>, r: Record, io: WriteIo)
    requires Tracks(s, rs) && CanonicalRecord.Valid(r)
    ensures Tracks(Write(s, r, io).0, rs + [r])
    ensures Write(s, r, io).0.format == s.format
    ensures Write(s, r, io).1 == SinkOk <==> Write(s, r, io).0.recordsWritten == |rs| + 1
    ensures Write(s, r, io).1 == SinkOk ==> Write(s, r, io).0.recordsWritten == s.recordsWritten + 1
    ensures Write(s, r, io).1 == SinkOk <==> !Write(s, r, io).0.failed
    ensures Write(s, r, io).1 != SinkOk ==> Write(s, r, io).0.recordsWritten == s.recordsWritten
    ensures Write(s, r, io).1 in {SinkOk, WriteFailed, FlushFailed, SinkFailed}
  {
    hide CanonicalRecord.Valid;
    hide RecordText;
    hide FileText;
    if s.failed {
      var k := s.recordsWritten;
      assert (rs + [r])[..k] == rs[..k] && (rs + [r])[..k + 1] == rs[..k + 1];
    } else {
      HealthyWrite(s, rs, r, io);
    }
  }

  lemma HealthyWrite(s: Sink, rs: seq<Record>, r: Record, io: WriteIo)
    requires Tracks(s, rs) && !s.failed
    ensures var (s', result) := WriteAndFlush(s, RecordText(s.format, r), io);
      && s'.format == s.format && s'.isOpen
      && result in {SinkOk, WriteFailed, FlushFailed}
      && (result == SinkOk <==> !s'.failed)
      && s'.recordsWritten == s.recordsWritten
      && Tracks(if result == SinkOk then s'.(recordsWritten := s'.recordsWritten + 1) else s', rs + [r])
  {
    hide RecordText;
    hide FileText;
    FileTextNext(s.format, rs, r);
    var data := RecordText(s.format, r);
    assert (rs + [r])[..|rs|] == rs && (rs + [r])[..|rs| + 1] == rs + [r];
    WrittenBytes(s, data, io);
    hide WriteAndFlush;
  }

  /** What one write of a sink with an empty buffer may leave behind. */
  lemma WrittenBytes(s: Sink, data: seq<byte>, io: WriteIo)
    requires s.buffer == [] && !s.failed && s.errors == 0
    ensures var (s', result) := WriteAndFlush(s, data, io);
      && s' == s.(failed := s'.failed, errors := s'.errors, disk := s'.disk, buffer := s'.buffer)
      && result in {SinkOk, WriteFailed, FlushFailed}
      && (result == SinkOk ==> !s'.failed && s'.errors == 0 && s'.disk == s.disk + data && s'.buffer == [])
      && (result != SinkOk ==>
            s'.failed && s'.errors == 1 && s.disk <= s'.disk && s'.disk + s'.buffer <= s.disk + data)
  {
    hide Moved;
    hide Left;
    var put := if io.taken < |data| then data[..io.taken] else data;
    assert s.buffer + put == put;
    SpilledBytes(s.disk, put, io.spilled);
    assert s.disk + put <= s.disk + data;
  }

  /** However many bytes move, file and rest together are the old file and the data. */
  lemma SpilledBytes(disk: seq<byte>, data: seq<byte>, n: nat)
    ensures disk <= Moved(disk, data, n) && Moved(disk, data, n) <= disk + data
    ensures Moved(disk, data, n) + Left(data, n) == disk + data
  {
    if n < |data| { assert data == data[..n] + data[n..]; }
  }

  /** Closing leaves a prefix of the text that holds every record reported as written and at most
      a part of one more; it reports Ok only when the file is the whole text. */
  lemma CloseTracks(s: Sink, rs: seq<Record>, io: CloseIo)
    requires Tracks(s, rs)
    ensures var (s', result) := Close(s, io);
      && !s'.isOpen && s'.format == s.format && s'.recordsWritten == s.recordsWritten
      && (result == SinkOk <==> !s.failed && io.flushes && io.closes)
      && result in {SinkOk, FlushFailed, CloseFailed, SinkFailed}
      && (!s.failed ==> s'.disk == FileText(s.format, rs))
      && (s.failed ==>
            && FileText(s.format, rs[..s.recordsWritten]) <= s'.disk
            && s'.disk <= FileText(s.format, rs[..s.recordsWritten + 1]))
  {
    hide FileText;
    var s' := Close(s, io).0;
    if s.failed {
      assert s'.disk <= s.disk + s.buffer;
    } else {
      assert s'.disk == s.disk;
    }
  }

  /** Texts of longer record lists extend those of shorter ones. */
  lemma {:induction false} FileTextMonotone(format: Format, rs: seq<Record>, n: nat)
    requires n <= |rs|
    ensures FileText(format, rs[..n]) <= FileText(format, rs)
    decreases |rs|
  {
    hide RecordText;
    if n < |rs| {
      FileTextMonotone(format, rs[..|rs| - 1], n);
      assert rs[..|rs| - 1][..n] == rs[..n];
    } else {
      assert rs[..n] == rs;
    }
  }

  // ---- when a closed file consists of complete records ----

  /** A sink after a list of writes. */
  ghost function AfterWrites(s: Sink, rs: seq<Record>, ios: seq<WriteIo>): Sink
    requires |rs| == |ios|
  {
    if rs == [] then s
    else
      var n := |rs| - 1;
      Write(AfterWrites(s, rs[..n], ios[..n]), rs[n], ios[n]).0
  }

  /** The record is valid, and stdio takes and flushes all of it. */
  ghost predicate WholeWrite(format: Format, r: Record, io: WriteIo) {
    CanonicalRecord.Valid(r) && io.taken >= |RecordText(format, r)| && io.flushes
  }

  /** Write k is the first that fails. */
  ghost predicate FailsAt(format: Format, rs: seq<Record>, ios: seq<WriteIo>, k: nat)
    requires |rs| == |ios|
  {
    && k < |rs| && !WholeWrite(format, rs[k], ios[k])
    && forall i :: 0 <= i < k ==> WholeWrite(format, rs[i], ios[i])
  }

  function Min(a: nat, b: nat): nat { if a < b then a else b }

  /** How many bytes of the failing record are in the file once the sink is closed: those that had
      reached it when the write failed, and those stdio kept that the close still moved. */
  function Reached(size: nat, io: WriteIo, close: CloseIo): nat {
    var put := Min(io.taken, size);
    var now := Min(io.spilled, put);
    var left := if io.keeps then put - now else 0;
    now + if close.flushes then left else Min(close.spilled, left)
  }

  /** An invalid record is never given to stdio. */
  ghost function ReachedOf(format: Format, r: Record, io: WriteIo, close: CloseIo): nat {
    if CanonicalRecord.Valid(r) then Reached(|RecordText(format, r)|, io, close) else 0
  }

  /** The file ends at a record boundary. */
  ghost predicate CompleteRecords(format: Format, disk: seq<byte>, rs: seq<Record>) {
    exists n :: 0 <= n <= |rs| && disk == FileText(format, rs[..n])
  }

  lemma WholeWriteAppends(s: Sink, r: Record, io: WriteIo)
    requires s.isOpen && s.format != InvalidFormat && !s.failed && s.buffer == [] && WholeWrite(s.format, r, io)
    ensures Write(s, r, io).0 ==
      s.(disk := s.disk + RecordText(s.format, r), recordsWritten := s.recordsWritten + 1)
  {
    hide CanonicalRecord.Valid;
    hide RecordText;
    assert s.buffer + RecordText(s.format, r) == RecordText(s.format, r);
  }

  lemma {:induction false} HealthyWrites(s: Sink, rs: seq<Record>, ios: seq<WriteIo>)
    requires Tracks(s, []) && !s.failed && |rs| == |ios|
    requires forall i :: 0 <= i < |rs| ==> WholeWrite(s.format, rs[i], ios[i])
    ensures AfterWrites(s, rs, ios) == s.(disk := FileText(s.format, rs), recordsWritten := |rs|)
  {
    hide CanonicalRecord.Valid;
    hide RecordText;
    hide FileText;
    hide WholeWrite;
    hide Write;
    if rs != [] {
      var n := |rs| - 1;
      HealthyWrites(s, rs[..n], ios[..n]);
      WholeWriteAppends(AfterWrites(s, rs[..n], ios[..n]), rs[n], ios[n]);
      FileTextNext(s.format, rs[..n], rs[n]);
      assert rs == rs[..n] + [rs[n]];
    } else {
      assert FileText(s.format, []) == s.disk;
    }
  }

  /** Nothing is written after the first failure. */
  lemma {:induction false} NothingAfterFailure(s: Sink, rs: seq<Record>, ios: seq<WriteIo>, k: nat)
    requires |rs| == |ios| && k < |rs| && AfterWrites(s, rs[..k + 1], ios[..k + 1]).failed
    ensures AfterWrites(s, rs, ios) == AfterWrites(s, rs[..k + 1], ios[..k + 1])
    decreases |rs|
  {
    hide CanonicalRecord.Valid;
    hide RecordText;
    var n := |rs| - 1;
    if k < n {
      assert rs[..n][..k + 1] == rs[..k + 1] && ios[..n][..k + 1] == ios[..k + 1];
      NothingAfterFailure(s, rs[..n], ios[..n], k);
    } else {
      assert rs[..k + 1] == rs && ios[..k + 1] == ios;
    }
  }

  lemma ReachedBytes(s: Sink, data: seq<byte>, io: WriteIo, close: CloseIo)
    requires s.buffer == [] && s.isOpen && !(io.taken >= |data| && io.flushes)
    ensures WriteAndFlush(s, data, io).0.failed && WriteAndFlush(s, data, io).1 != SinkOk
    ensures Reached(|data|, io, close) <= |data|
    ensures Close(WriteAndFlush(s, data, io).0, close).0.disk == s.disk + data[..Reached(|data|, io, close)]
  {
    hide WriteAndFlush;
    hide Close;
    var put := Min(io.taken, |data|);
    var now := Min(io.spilled, put);
    FailedBytes(s, data, io);
    var t := WriteAndFlush(s, data, io).0;
    var more := if close.flushes then |t.buffer| else Min(close.spilled, |t.buffer|);
    ClosedBytes(t, close);
    assert t.buffer[..more] == data[now..now + more];
    assert data[..now] + data[now..now + more] == data[..now + more];
    assert s.disk + data[..now] + data[now..now + more] == s.disk + (data[..now] + data[now..now + more]);
  }

  lemma FailedBytes(s: Sink, data: seq<byte>, io: WriteIo)
    requires s.buffer == [] && s.isOpen && !(io.taken >= |data| && io.flushes)
    ensures var t := WriteAndFlush(s, data, io).0;
      var put := Min(io.taken, |data|);
      var now := Min(io.spilled, put);
      && t.failed && t.isOpen && WriteAndFlush(s, data, io).1 != SinkOk
      && t.disk == s.disk + data[..now] && t.buffer == if io.keeps then data[now..put] else []
  {
    var put := Min(io.taken, |data|);
    var all := data[..put];
    assert s.buffer + all == all;
    assert all == if io.taken < |data| then data[..io.taken] else data;
    assert all[..Min(io.spilled, put)] == data[..Min(io.spilled, put)];
  }

  lemma ClosedBytes(t: Sink, close: CloseIo)
    requires t.isOpen
    ensures var more := if close.flushes then |t.buffer| else Min(close.spilled, |t.buffer|);
      Close(t, close).0.disk == t.disk + t.buffer[..more]
  {
    assert t.buffer[..|t.buffer|] == t.buffer;
  }

  /** The file a write history leaves after the close: everything when no write failed, otherwise
      the records before the first failure and a piece of the failing one. */
  lemma FileAfterClose(s: Sink, rs: seq<Record>, ios: seq<WriteIo>, close: CloseIo)
    requires Tracks(s, []) && !s.failed && |rs| == |ios|
    ensures var disk := Close(AfterWrites(s, rs, ios), close).0.disk;
      && ((forall i :: 0 <= i < |rs| ==> WholeWrite(s.format, rs[i], ios[i])) ==> disk == FileText(s.format, rs))
      && forall k: nat :: FailsAt(s.format, rs, ios, k) ==>
           var data := RecordText(s.format, rs[k]);
           var n := ReachedOf(s.format, rs[k], ios[k], close);
           n <= |data| && disk == FileText(s.format, rs[..k]) + data[..n]
  {
    hide CanonicalRecord.Valid;
    hide RecordText;
    hide FileText;
    hide Reached;
    if forall i :: 0 <= i < |rs| ==> WholeWrite(s.format, rs[i], ios[i]) {
      HealthyWrites(s, rs, ios);
      assert FileText(s.format, rs) + [] == FileText(s.format, rs);
    }
    forall k: nat | FailsAt(s.format, rs, ios, k)
      ensures var data := RecordText(s.format, rs[k]);
        var n := ReachedOf(s.format, rs[k], ios[k], close);
        n <= |data| && Close(AfterWrites(s, rs, ios), close).0.disk == FileText(s.format, rs[..k]) + data[..n] {
      FailingWrite(s, rs, ios, k, close);
    }
  }

  lemma FailingWrite(s: Sink, rs: seq<Record>, ios: seq<WriteIo>, k: nat, close: CloseIo)
    requires Tracks(s, []) && !s.failed && |rs| == |ios| && FailsAt(s.format, rs, ios, k)
    ensures var data := RecordText(s.format, rs[k]);
      var n := ReachedOf(s.format, rs[k], ios[k], close);
      n <= |data| && Close(AfterWrites(s, rs, ios), close).0.disk == FileText(s.format, rs[..k]) + data[..n]
  {
    hide CanonicalRecord.Valid;
    hide RecordText;
    hide FileText;
    hide Reached;
    hide WriteAndFlush;
    hide Close;
    var data := RecordText(s.format, rs[k]);
    HealthyWrites(s, rs[..k], ios[..k]);
    var t := AfterWrites(s, rs[..k], ios[..k]);
    assert rs[..k + 1][..k] == rs[..k] && ios[..k + 1][..k] == ios[..k];
    var u := AfterWrites(s, rs[..k + 1], ios[..k + 1]);
    if CanonicalRecord.Valid(rs[k]) {
      ReachedBytes(t, data, ios[k], close);
      assert u == WriteAndFlush(t, data, ios[k]).0;
    } else {
      assert u == Failing(t);
      ClosedBytes(u, close);
      assert data[..0] == [] && u.disk + [] == u.disk;
    }
    NothingAfterFailure(s, rs, ios, k);
  }

  /** The documented promise that the file holds complete records only, exactly: over any history of
      writes and a close it does if and only if no byte or every byte of the failing record, if
      there is one, reached the file. */
  lemma CompleteRecordsOnly(s: Sink, rs: seq<Record>, ios: seq<WriteIo>, close: CloseIo)
    requires Tracks(s, []) && !s.failed && |rs| == |ios|
    ensures CompleteRecords(s.format, Close(AfterWrites(s, rs, ios), close).0.disk, rs) <==>
      forall k: nat :: FailsAt(s.format, rs, ios, k) ==>
        var n := ReachedOf(s.format, rs[k], ios[k], close);
        n == 0 || n == |RecordText(s.format, rs[k])|
  {
    hide CanonicalRecord.Valid;
    hide RecordText;
    hide FileText;
    hide Reached;
    hide Close;
    hide AfterWrites;
    hide WholeWrite;
    var disk := Close(AfterWrites(s, rs, ios), close).0.disk;
    FileAfterClose(s, rs, ios, close);
    FirstFailure(s.format, rs, ios);
    if k: nat :| FailsAt(s.format, rs, ios, k) {
      var n := ReachedOf(s.format, rs[k], ios[k], close);
      OneFailure(s.format, rs, ios, k);
      TornOrNot(s.format, rs, k, n);
    } else {
      assert rs[..|rs|] == rs;
    }
  }

  lemma OneFailure(format: Format, rs: seq<Record>, ios: seq<WriteIo>, k: nat)
    requires |rs| == |ios| && FailsAt(format, rs, ios, k)
    ensures forall j: nat :: FailsAt(format, rs, ios, j) ==> j == k
  {
    hide WholeWrite;
  }

  lemma {:induction false} FirstFailure(format: Format, rs: seq<Record>, ios: seq<WriteIo>)
    requires |rs| == |ios|
    ensures
      || (forall i :: 0 <= i < |rs| ==> WholeWrite(format, rs[i], ios[i]))
      || exists k: nat :: FailsAt(format, rs, ios, k)
  {
    hide WholeWrite;
    if rs != [] {
      var n := |rs| - 1;
      FirstFailure(format, rs[..n], ios[..n]);
      if k: nat :| FailsAt(format, rs[..n], ios[..n], k) {
        assert FailsAt(format, rs, ios, k);
      } else if !WholeWrite(format, rs[n], ios[n]) {
        assert forall i :: 0 <= i < n ==> rs[..n][i] == rs[i] && ios[..n][i] == ios[i];
        assert FailsAt(format, rs, ios, n);
      }
    }
  }

  /** k records and n bytes of the next end at a record boundary only for no byte or all of them. */
  lemma TornOrNot(format: Format, rs: seq<Record>, k: nat, n: nat)
    requires k < |rs| && n <= |RecordText(format, rs[k])|
    ensures CompleteRecords(format, FileText(format, rs[..k]) + RecordText(format, rs[k])[..n], rs) <==>
      n == 0 || n == |RecordText(format, rs[k])|
  {
    hide RecordText;
    hide FileText;
    var data := RecordText(format, rs[k]);
    var disk := FileText(format, rs[..k]) + data[..n];
    FileTextNext(format, rs[..k], rs[k]);
    assert rs[..k] + [rs[k]] == rs[..k + 1];
    if n == 0 { assert disk == FileText(format, rs[..k]); }
    if n == |data| { assert disk == FileText(format, rs[..k + 1]); }
    if m :| 0 <= m <= |rs| && disk == FileText(format, rs[..m]) {
      if m <= k {
        assert rs[..k][..m] == rs[..m];
        FileTextMonotone(format, rs[..k], m);
      } else {
        assert rs[..m][..k + 1] == rs[..k + 1];
        FileTextMonotone(format, rs[..m], k + 1);
      }
    }
  }

  /** A short write can leave a torn record in the file by itself: one byte is taken, reaches the
      file, and the close is clean. */
  lemma ShortWriteTears(s: Sink, r: Record)
    requires Tracks(s, []) && !s.failed && CanonicalRecord.Valid(r)
    ensures var io, close := WriteIo(1, true, 1, true), CloseIo(true, true, 0);
      !CompleteRecords(s.format, Close(AfterWrites(s, [r], [io]), close).0.disk, [r])
  {
    hide CanonicalRecord.Valid;
    hide RecordText;
    hide FileText;
    hide AfterWrites;
    hide Close;
    hide CompleteRecords;
    hide Tracks;
    var io, close := WriteIo(1, true, 1, true), CloseIo(true, true, 0);
    TextIsLong(s.format, r);
    CompleteRecordsOnly(s, [r], [io], close);
    assert [r][0] == r;
    assert FailsAt(s.format, [r], [io], 0);
  }

  lemma TextIsLong(format: Format, r: Record)
    requires CanonicalRecord.Valid(r)
    ensures |RecordText(format, r)| > 1
  {
    hide CanonicalRecord.Valid;
    hide CanonicalRecord.Fields;
    hide Json.Members;
    Json.LineHasBytes(CanonicalRecord.ViewOf(r));
    Csv.RowHasComma(CanonicalRecord.ViewOf(r));
  }

  // ---- a complete file reads back ----

  function Views(rs: seq<Record>): (cs: seq<CanonicalRecord.Canonical>)
    ensures |cs| == |rs| && forall i :: 0 <= i < |rs| ==> cs[i] == CanonicalRecord.ViewOf(rs[i])
  {
    seq(|rs|, i requires 0 <= i < |rs| => CanonicalRecord.ViewOf(rs[i]))
  }

  lemma {:induction false} JsonlTextIs(rs: seq<Record>)
    ensures FileText(JsonlFormat, rs) == Json.FileText(Views(rs))
  {
    hide Json.RecordLine;
    hide CanonicalRecord.ViewOf;
    if rs != [] {
      var front, r := rs[..|rs| - 1], rs[|rs| - 1];
      JsonlTextIs(front);
      assert Views(rs) == Views(front) + [CanonicalRecord.ViewOf(r)];
      LinesTextNext(Views(front), CanonicalRecord.ViewOf(r));
    }
  }

  lemma {:induction false} CsvTextIs(rs: seq<Record>)
    ensures FileText(CsvFormat, rs) == Csv.Header() + Csv.RowsText(Views(rs))
  {
    hide Csv.RecordRow;
    hide Csv.Header;
    hide CanonicalRecord.ViewOf;
    if rs == [] {
      assert Csv.Header() + [] == Csv.Header();
    } else {
      var front, r := rs[..|rs| - 1], rs[|rs| - 1];
      CsvTextIs(front);
      assert Views(rs) == Views(front) + [CanonicalRecord.ViewOf(r)];
      RowsTextNext(Views(front), CanonicalRecord.ViewOf(r));
      assert FileText(CsvFormat, rs) == (Csv.Header() + Csv.RowsText(Views(front))) + RecordText(CsvFormat, r);
    }
  }

  lemma {:induction false} LinesTextNext(cs: seq<CanonicalRecord.Canonical>, c: CanonicalRecord.Canonical)
    ensures Json.FileText(cs + [c]) == Json.FileText(cs) + Json.RecordLine(c)
  {
    hide Json.RecordLine;
    if cs == [] {
      assert cs + [c] == [c];
      assert Json.FileText([c]) == Json.RecordLine(c) + Json.FileText([]);
    } else {
      LinesTextNext(cs[1..], c);
      assert (cs + [c])[1..] == cs[1..] + [c];
    }
  }

  lemma {:induction false} RowsTextNext(cs: seq<CanonicalRecord.Canonical>, c: CanonicalRecord.Canonical)
    ensures Csv.RowsText(cs + [c]) == Csv.RowsText(cs) + Csv.RecordRow(c)
  {
    hide Csv.RecordRow;
    if cs == [] {
      assert cs + [c] == [c];
      assert Csv.RowsText([c]) == Csv.RecordRow(c) + Csv.RowsText([]);
    } else {
      RowsTextNext(cs[1..], c);
      assert (cs + [c])[1..] == cs[1..] + [c];
    }
  }

  /** The records of a complete JSONL file are exactly the views that were written, in order. */
  lemma JsonlFileReadsBack(rs: seq<Record>)
    requires forall i :: 0 <= i < |rs| ==> CanonicalRecord.Valid(rs[i])
    ensures Json.ReadFile(FileText(JsonlFormat, rs)) == Some(Views(rs))
  {
    hide CanonicalRecord.Valid;
    hide CanonicalRecord.Printable;
    hide CanonicalRecord.ViewOf;
    hide Json.ReadFile;
    hide Json.FileText;
    hide FileText;
    forall i | 0 <= i < |rs| ensures CanonicalRecord.Printable(Views(rs)[i]) {
      CanonicalRecord.ValidIsPrintable(rs[i]);
    }
    JsonlTextIs(rs);
    Json.FileRoundTrip(Views(rs));
  }

  /** A complete CSV file is the header, which names the 28 fields, and rows that read back. */
  lemma CsvFileReadsBack(rs: seq<Record>)
    requires forall i :: 0 <= i < |rs| ==> CanonicalRecord.Valid(rs[i])
    ensures Csv.Header() <= FileText(CsvFormat, rs)
    ensures Csv.ReadRows(FileText(CsvFormat, rs)[|Csv.Header()|..]) == Some(Views(rs))
  {
    hide CanonicalRecord.Valid;
    hide CanonicalRecord.Printable;
    hide CanonicalRecord.ViewOf;
    hide Csv.ReadRows;
    hide Csv.RowsText;
    hide Csv.Header;
    hide FileText;
    forall i | 0 <= i < |rs| ensures CanonicalRecord.Printable(Views(rs)[i]) {
      CanonicalRecord.ValidIsPrintable(rs[i]);
    }
    CsvTextIs(rs);
    Csv.RowsRoundTrip(Views(rs));
    assert FileText(CsvFormat, rs)[|Csv.Header()|..] == Csv.RowsText(Views(rs));
  }

  // ---- the sink itself ----

  /** tcd_kpm_file_sink_t; the ghost field is the file behind the path. */
  class FileSink {
    var stream: Option<seq<byte>>  // an open stdio stream and what it buffers
    var format: Format
    var isOpen: bool
    var failed: bool
    var recordsWritten: nat
    var errors: nat
    ghost var file: seq<byte>

    ghost predicate Valid()
      reads this
    {
      isOpen <==> stream.Some?
    }

    ghost function View(): Sink
      reads this
    {
      Sink(format, isOpen, failed, recordsWritten, errors, file, if stream.Some? then stream.value else [])
    }

    /** tcd_kpm_file_sink_init */
    constructor ()
      ensures Valid() && !isOpen && !failed && recordsWritten == 0 && errors == 0
    {
      stream := None;
      format := InvalidFormat;
      isOpen, failed := false, false;
      recordsWritten, errors := 0, 0;
      file := [];
    }

    /** write_and_flush */
    method WriteData(data: seq<byte>, io: WriteIo) returns (result: Result)
      requires Valid() && isOpen
      modifies this
      ensures Valid()
      ensures (View(), result) == WriteAndFlush(old(View()), data, io)
    {
      var all := stream.value + if io.taken < |data| then data[..io.taken] else data;
      if io.taken < |data| || !io.flushes {
        file := Moved(file, all, io.spilled);
        stream := Some(if io.keeps then Left(all, io.spilled) else []);
        failed, errors := true, errors + 1;
        return if io.taken < |data| then WriteFailed else FlushFailed;
      }
      file := file + all;
      stream := Some([]);
      return SinkOk;
    }

    /** tcd_kpm_file_sink_open: a sink opened without error holds the text of no records; one that
        is left open always is such a sink. */
    method Open(fmt: Format, path: string, opens: bool, io: WriteIo) returns (result: Result)
      requires Valid()
      modifies this
      ensures Valid()
      ensures fmt == InvalidFormat ==> result == SinkInvalidArgument && View() == old(View())
      ensures fmt != InvalidFormat && old(isOpen) ==> result == AlreadyOpen && View() == old(View())
      ensures result == SinkOk <==>
        && fmt != InvalidFormat && !old(isOpen) && 0 < |path| < PATH_CAPACITY && opens
        && (fmt == CsvFormat ==> io.taken >= |Csv.Header()| && io.flushes)
      ensures result == SinkOk ==> format == fmt && Tracks(View(), [])
      ensures !old(isOpen) && result != SinkOk ==> !isOpen
      ensures result in {OpenFailed, WriteFailed, FlushFailed} ==> errors == 1
    {
      hide Csv.Header;
      if fmt == InvalidFormat { return SinkInvalidArgument; }
      if isOpen || stream.Some? { return AlreadyOpen; }
      stream, format := None, InvalidFormat;
      failed := false;
      recordsWritten, errors := 0, 0;
      if |path| == 0 || |path| >= PATH_CAPACITY { return SinkInvalidArgument; }
      format := fmt;
      if !opens {
        format := InvalidFormat;
        errors := errors + 1;
        return OpenFailed;
      }
      stream, file := Some([]), [];
      isOpen := true;
      if fmt == CsvFormat {
        var header := new byte[SERIALIZED_RECORD_CAPACITY];
        var outcome, length := Serializer.SerializeCsvHeader(header, SERIALIZED_RECORD_CAPACITY);
        Serializer.HeaderIsShort();
        var n := length.value;
        assert header[..n] == header[..][..n] == Csv.Header();
        result := WriteData(header[..n], io);
        if result != SinkOk {
          stream := None;
          isOpen := false;
          return;
        }
      }
      return SinkOk;
    }

    /** tcd_kpm_file_sink_write: the serialiser prints into a fixed buffer of 8192 bytes. */
    method WriteRecord(r: Record, io: WriteIo) returns (result: Result)
      requires Valid()
      modifies this
      ensures Valid()
      ensures (View(), result) == Write(old(View()), r, io)
    {
      hide CanonicalRecord.Valid;
      hide RecordText;
      if !isOpen || stream.None? || format == InvalidFormat { return SinkInvalidArgument; }
      if failed { return SinkFailed; }
      var serialized := Serialize(format, r);
      if serialized == None {
        failed, errors := true, errors + 1;
        return SerializeFailed;
      }
      result := WriteData(serialized.value, io);
      if result != SinkOk { return; }
      recordsWritten := recordsWritten + 1;
    }

    /** tcd_kpm_file_sink_close */
    method CloseStream(io: CloseIo) returns (result: Result)
      requires Valid()
      modifies this
      ensures Valid()
      ensures (View(), result) == Close(old(View()), io)
    {
      if !isOpen || stream.None? { return SinkInvalidArgument; }
      var failedBeforeClose := failed;
      var buffer := stream.value;
      file := if io.flushes then file + buffer else Moved(file, buffer, io.spilled);
      stream := None;
      isOpen := false;
      if !io.flushes {
        if !failed { failed, errors := true, errors + 1; }
        return FlushFailed;
      }
      if !io.closes {
        if !failed { failed, errors := true, errors + 1; }
        return CloseFailed;
      }
      if failedBeforeClose { return SinkFailed; }
      return SinkOk;
    }
  }

  /** One record through the 8192-byte buffer: only an invalid record fails to serialise. */
  method Serialize(format: Format, r: Record) returns (data: Option<seq<byte>>)
    requires format != InvalidFormat
    ensures data.Some? <==> CanonicalRecord.Valid(r)
    ensures data.Some? ==> data.value == RecordText(format, r)
  {
    hide CanonicalRecord.Valid;
    hide RecordText;
    hide Csv.RecordRow;
    hide Json.RecordLine;
    var serialized := new byte[SERIALIZED_RECORD_CAPACITY];
    var outcome, length;
    if format == CsvFormat {
      outcome, length := Serializer.SerializeCsvRecord(r, serialized, SERIALIZED_RECORD_CAPACITY);
    } else {
      outcome, length := Serializer.SerializeJsonlRecord(r, serialized, SERIALIZED_RECORD_CAPACITY);
    }
    TextFits(format, r);
    if outcome != Serializer.SerializeOk { return None; }
    var n := length.value;
    assert serialized[..n] == serialized[..][..n] == RecordText(format, r);
    data := Some(serialized[..n]);
  }

  /** The text of a valid record, with its terminator, fits the sink's buffer. */
  lemma TextFits(format: Format, r: Record)
    ensures CanonicalRecord.Valid(r) ==> 0 < |RecordText(format, r)| < SERIALIZED_RECORD_CAPACITY
    ensures format == CsvFormat ==> RecordText(format, r) == Csv.RecordRow(CanonicalRecord.ViewOf(r))
    ensures format == JsonlFormat ==> RecordText(format, r) == Json.RecordLine(CanonicalRecord.ViewOf(r))
  {
    hide CanonicalRecord.Valid;
    hide CanonicalRecord.ViewOf;
    if CanonicalRecord.Valid(r) {
      Serializer.RowLength(r);
      Serializer.LineLength(r);
    }
  }
}
